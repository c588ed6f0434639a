/** Byte streams as the proxies see them: a connection that hands over its bytes in chunks of any
    size, and a recording reader over it. */
module Streams {

  type Byte = x: int | 0 <= x < 256

  datatype Option<+T> = None | Some(value: T)

  datatype Result<+T, +E> = Ok(value: T) | Err(error: E)

  /** A connection to a peer. `ready` is what reads can still deliver under the current deadline,
      `later` what the peer sends after it; `sent` is what was written to the peer, who sees its
      end once the writing side is closed. */
  class Conn {
    var ready: seq<Byte>
    var later: seq<Byte>
    var sent: seq<Byte>
    var closed: bool

    constructor (ready: seq<Byte>, later: seq<Byte>)
      ensures this.ready == ready && this.later == later && sent == [] && !closed
    {
      this.ready, this.later, sent, closed := ready, later, [], false;
    }

    /** One read: some non-empty part of what is ready, of a length nobody controls, or
        nothing at the end of the stream or at the deadline. */
    method Read(max: nat) returns (chunk: seq<Byte>)
      requires max > 0
      modifies this`ready
      ensures chunk + ready == old(ready)
      ensures |chunk| <= max
      ensures chunk == [] <==> old(ready) == []
    {
      if ready == [] {
        chunk := [];
      } else {
        var n :| 1 <= n <= |ready| && n <= max;
        chunk := ready[..n];
        ready := ready[n..];
      }
    }

    /** SetReadDeadline with the zero time: everything the peer sends can be read. */
    method ClearDeadline()
      modifies this`ready, this`later
      ensures ready == old(ready + later) && later == []
    {
      ready, later := ready + later, [];
    }

    /** SetDeadline with some moment: nobody controls how much arrives before it. */
    method SetDeadline()
      modifies this`ready, this`later
      ensures ready + later == old(ready + later)
    {
      var all := ready + later;
      var n :| 0 <= n <= |all|;
      ready, later := all[..n], all[n..];
    }

    /** A write after CloseWrite fails, and nobody looks at the error. */
    method Write(bytes: seq<Byte>)
      modifies this`sent
      ensures sent == if closed then old(sent) else old(sent) + bytes
    {
      if !closed { sent := sent + bytes; }
    }

    method CloseWrite()
      modifies this`closed
      ensures closed
    {
      closed := true;
    }
  }

  /** io.TeeReader: what is read is also appended to a buffer. */
  class TeeReader {
    const source: Conn
    var copied: seq<Byte>

    constructor (source: Conn)
      ensures this.source == source && copied == []
    {
      this.source, copied := source, [];
    }

    method Read(max: nat) returns (chunk: seq<Byte>)
      requires max > 0
      modifies this`copied, source`ready
      ensures chunk + source.ready == old(source.ready)
      ensures |chunk| <= max
      ensures chunk == [] <==> old(source.ready) == []
      ensures copied == old(copied) + chunk
    {
      chunk := source.Read(max);
      copied := copied + chunk;
    }

    /** io.ReadFull: reads until `n` bytes are there or the source gives no more. However the
        source splits its bytes, the first `n` of them are taken, or all when there are fewer. */
    method ReadFull(n: nat) returns (data: seq<Byte>, full: bool)
      modifies this`copied, source`ready
      ensures full <==> n <= |old(source.ready)|
      ensures data == if full then old(source.ready)[..n] else old(source.ready)
      ensures source.ready == old(source.ready)[|data|..]
      ensures copied == old(copied) + data
    {
      data := [];
      while |data| < n
        invariant |data| <= n
        invariant data + source.ready == old(source.ready)
        invariant copied == old(copied) + data
        decreases n - |data|
      {
        var chunk := Read(n - |data|);
        if chunk == [] {
          assert source.ready == [] && data == old(source.ready);
          return data, false;
        }
        data := data + chunk;
      }
      full := true;
      assert data == (data + source.ready)[..n];
    }
  }
}

/** The byte path of the two TCP proxies: what was consumed to find a host name is replayed to
    the backend and the rest is copied, so that the backend receives what the client sent, and
    the client what the backend sent. Writes before the writing side is closed are taken to
    succeed. The two copies of a connection run side by side; their frames are disjoint, so
    running one after the other comes to the same. */
module Splice {
  import opened Sequences
  import opened Streams
  import opened ClientHello

  const BUFFER_SIZE := 4096
  const COPY_SIZE := 32768

  /** setConnTimeouts: one deadline for each connection, counted from now and never renewed. */
  method SetConnTimeouts(client: Conn, backend: Conn, idleTimeout: int)
    requires client != backend
    modifies client`ready, client`later, backend`ready, backend`later
    ensures client.ready + client.later == old(client.ready + client.later)
    ensures backend.ready + backend.later == old(backend.ready + backend.later)
    ensures idleTimeout <= 0 ==> client.later == old(client.later) && backend.later == old(backend.later)
    ensures idleTimeout <= 0 ==> client.ready == old(client.ready) && backend.ready == old(backend.ready)
  {
    if idleTimeout > 0 {
      client.SetDeadline();
      backend.SetDeadline();
    }
  }

  /** io.Copy until the source ends or its deadline passes, then CloseWrite. */
  method CopyRest(source: Conn, sink: Conn)
    requires !sink.closed
    modifies source`ready, sink`sent, sink`closed
    ensures source.ready == [] && sink.closed
    ensures sink.sent == old(sink.sent) + old(source.ready)
  {
    var chunk := source.Read(COPY_SIZE);
    while chunk != []
      invariant sink.sent + chunk + source.ready == old(sink.sent) + old(source.ready)
      invariant chunk == [] ==> source.ready == []
      invariant !sink.closed
      decreases |chunk| + |source.ready|
    {
      sink.Write(chunk);
      chunk := source.Read(COPY_SIZE);
    }
    sink.CloseWrite();
  }

  /** bufio.Reader over the client connection. */
  class BufReader {
    const source: Conn
    var buffered: seq<Byte>

    constructor (source: Conn)
      ensures this.source == source && buffered == []
    {
      this.source, buffered := source, [];
    }

    /** A read of at least a whole buffer bypasses an empty buffer. */
    method Read(max: nat) returns (chunk: seq<Byte>)
      requires max > 0
      modifies this`buffered, source`ready
      ensures chunk + (buffered + source.ready) == old(buffered + source.ready)
      ensures |chunk| <= max
      ensures chunk == [] <==> old(buffered + source.ready) == []
      ensures old(buffered) != [] ==> chunk + buffered == old(buffered) && source.ready == old(source.ready)
    {
      if buffered == [] {
        if max >= BUFFER_SIZE {
          chunk := source.Read(max);
          return;
        }
        buffered := source.Read(BUFFER_SIZE);
      }
      var n := if max <= |buffered| then max else |buffered|;
      assert buffered == buffered[..n] + buffered[n..];
      chunk, buffered := buffered[..n], buffered[n..];
    }
  }

  /** io.TeeReader over the buffered reader. */
  class HeadTee {
    const source: BufReader
    var copied: seq<Byte>

    constructor (source: BufReader)
      ensures this.source == source && copied == []
    {
      this.source, copied := source, [];
    }

    ghost function Pending(): seq<Byte>
      reads this, source, source.source
    {
      copied + (source.buffered + source.source.ready)
    }

    method Read(max: nat) returns (chunk: seq<Byte>)
      requires max > 0
      modifies this`copied, source`buffered, source.source`ready
      ensures copied == old(copied) + chunk
      ensures Pending() == old(Pending())
      ensures |chunk| <= max
    {
      chunk := source.Read(max);
      copied := copied + chunk;
    }
  }

  /** The inner bufio.Reader that the header parser reads lines from. */
  class LineReader {
    const source: HeadTee
    var window: seq<Byte>

    constructor (source: HeadTee)
      ensures this.source == source && window == []
    {
      this.source, window := source, [];
    }

    method Fill()
      requires |window| < BUFFER_SIZE
      modifies this`window, source`copied, source.source`buffered, source.source.source`ready
      ensures source.Pending() == old(source.Pending())
      ensures |window| <= BUFFER_SIZE
    {
      var chunk := source.Read(BUFFER_SIZE - |window|);
      window := window + chunk;
    }

    method Consume(n: nat)
      requires n <= |window|
      modifies this`window
      ensures window == old(window)[n..]
    {
      window := window[n..];
    }
  }

  /** readHeadWithTextproto, as far as bytes go: some sequence of fills and consumed lines, cut
      short wherever the parser stops, with success or with an error. */
  method ReadHead(br: BufReader) returns (head: seq<Byte>)
    modifies br`buffered, br.source`ready
    ensures head + (br.buffered + br.source.ready) == old(br.buffered + br.source.ready)
  {
    var tee: HeadTee := new HeadTee(br);
    var lines: LineReader := new LineReader(tee);
    var steps: nat := *;
    while steps > 0
      invariant tee.source == br && lines.source == tee && |lines.window| <= BUFFER_SIZE
      invariant tee.Pending() == old(br.buffered + br.source.ready)
      modifies tee`copied, lines`window, br`buffered, br.source`ready
    {
      var fill: bool, n: nat := *, *;
      if fill && |lines.window| < BUFFER_SIZE {
        lines.Fill();
      } else if n <= |lines.window| {
        lines.Consume(n);
      }
      steps := steps - 1;
    }
    head := tee.copied;
  }

  /** Everything that reached the source before its deadline has been passed on, in order, and
      the peer has been told that this is all. */
  twostate predicate PassedOn(source: Conn, sink: Conn, pending: seq<Byte>)
    reads source, sink
  {
    && sink.sent == old(sink.sent) + pending
    && source.ready == [] && source.later == old(source.later) && sink.closed
  }

  /** bidirectionalCopyWithBufferedReader */
  method CopyWithBuffered(client: Conn, backend: Conn, br: BufReader)
    requires br.source == client && client != backend && !client.closed && !backend.closed
    modifies br`buffered, client`ready, client`sent, client`closed, backend`ready, backend`sent, backend`closed
    ensures PassedOn(client, backend, old(br.buffered + client.ready))
    ensures PassedOn(backend, client, old(backend.ready))
  {
    Assoc(backend.sent, br.buffered, client.ready);
    if br.buffered != [] {
      var n, data := |br.buffered|, [];
      while |data| < n
        invariant |data| + |br.buffered| == n && client.ready == old(client.ready)
        invariant data + br.buffered == old(br.buffered)
        decreases n - |data|
        modifies br`buffered, client`ready
      {
        var chunk := br.Read(n - |data|);
        data := data + chunk;
      }
      assert data == data + br.buffered;
      backend.Write(data);
    }
    CopyRest(client, backend);
    assert !client.closed;
    CopyRest(backend, client);
  }

  /** bidirectionalCopy, with the bytes that were read to find the name. */
  method CopyBoth(client: Conn, backend: Conn, peeked: seq<Byte>)
    requires client != backend && !client.closed && !backend.closed
    modifies client`ready, client`sent, client`closed, backend`ready, backend`sent, backend`closed
    ensures PassedOn(client, backend, peeked + old(client.ready))
    ensures PassedOn(backend, client, old(backend.ready))
  {
    Assoc(backend.sent, peeked, client.ready);
    backend.Write(peeked);
    CopyRest(client, backend);
    assert !client.closed;
    CopyRest(backend, client);
  }

  /** What a spliced connection delivers, with some bytes replayed first. Either side gets exactly
      what the other sent up to the deadline of the copying, and nothing is cut off when no
      timeout is configured. */
  twostate predicate Spliced(client: Conn, backend: Conn, replayed: seq<Byte>, idleTimeout: int)
    reads client, backend
  {
    && backend.sent + client.later == old(backend.sent) + (replayed + old(client.ready + client.later))
    && client.sent + backend.later == old(client.sent) + old(backend.ready + backend.later)
    && (idleTimeout <= 0 ==> client.later == old(client.later) && backend.later == old(backend.later))
    && client.closed && backend.closed
  }

  /** What is replayed, buffered and read, against what a later deadline cuts off. */
  lemma Regrouped(sent: seq<Byte>, head: seq<Byte>, buffered: seq<Byte>, ready: seq<Byte>, later: seq<Byte>)
    ensures sent + head + (buffered + ready) + later == sent + (head + buffered + (ready + later))
  {
    Assoc(sent + head, buffered, ready);
    Assoc(sent + head + buffered, ready, later);
    Assoc(sent, head, buffered);
    Assoc(sent, head + buffered, ready + later);
  }

  /** connectAndSpliceHTTP, once the backend is connected */
  method SpliceHttp(client: Conn, backend: Conn, head: seq<Byte>, br: BufReader, idleTimeout: int)
    requires br.source == client && client != backend && !client.closed && !backend.closed
    modifies br`buffered, client, backend
    ensures Spliced(client, backend, head + old(br.buffered), idleTimeout)
  {
    SetConnTimeouts(client, backend, idleTimeout);
    Regrouped(backend.sent, head, br.buffered, client.ready, client.later);
    Assoc(client.sent, backend.ready, backend.later);
    if |head| > 0 { backend.Write(head); }
    assert backend.sent == old(backend.sent) + head;
    CopyWithBuffered(client, backend, br);
  }

  /** connectAndSpliceHTTPS, once the backend is connected */
  method SpliceHttps(client: Conn, backend: Conn, peeked: seq<Byte>, idleTimeout: int)
    requires client != backend && !client.closed && !backend.closed
    modifies client, backend
    ensures Spliced(client, backend, peeked, idleTimeout)
  {
    SetConnTimeouts(client, backend, idleTimeout);
    Regrouped(backend.sent, peeked, [], client.ready, client.later);
    assert peeked + [] == peeked && [] + client.ready == client.ready;
    Assoc(backend.sent, peeked, client.ready);
    Assoc(client.sent, backend.ready, backend.later);
    CopyBoth(client, backend, peeked);
  }

  /** What a proxied connection delivers, from its first byte on. */
  twostate predicate Relayed(client: Conn, backend: Conn, idleTimeout: int)
    reads client, backend
  {
    && backend.sent + client.later == old(backend.sent) + old(client.ready + client.later)
    && client.sent + backend.later == old(client.sent) + old(backend.ready + backend.later)
    && (idleTimeout <= 0 ==> client.later == [] && backend.later == old(backend.later))
    && client.closed && backend.closed
  }

  /** The HTTP proxy on a permitted connection: parse under a deadline, then replay and copy. */
  method ProxyHttp(client: Conn, backend: Conn, idleTimeout: int)
    requires client != backend && !client.closed && !backend.closed
    modifies client, backend
    ensures Relayed(client, backend, idleTimeout)
  {
    var br := new BufReader(client);
    var head := ReadHead(br);
    Assoc(head, br.buffered, client.ready);
    Assoc(head + br.buffered, client.ready, client.later);
    client.ClearDeadline();
    assert client.ready + client.later == client.ready;
    SpliceHttp(client, backend, head, br, idleTimeout);
  }

  /** The HTTPS proxy on a permitted connection. The name found is that of ReadHello; with or
      without one, the bytes read to look for it are replayed. */
  method ProxyHttps(client: Conn, backend: Conn, idleTimeout: int) returns (sni: Sni)
    requires client != backend && !client.closed && !backend.closed
    modifies client, backend
    ensures sni == ReadHello(old(client.ready), []).0
    ensures Relayed(client, backend, idleTimeout)
  {
    var tee := new TeeReader(client);
    sni := ReadClientHelloSNI(tee);
    Assoc(tee.copied, client.ready, client.later);
    client.ClearDeadline();
    assert client.ready + client.later == client.ready;
    SpliceHttps(client, backend, tee.copied, idleTimeout);
  }
}

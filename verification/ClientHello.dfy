/** internal/filter/clienthello.go: reassembling a ClientHello from TLS records and finding
    its server name. The functions say what the methods compute; the lemmas after them say
    what that means for TLS (sections 4.1.2, 4.2 and 5.1 of RFC 8446, section 3 of RFC 6066). */
module ClientHello {
  import opened Streams

  const RECORD_HEADER_LEN := 5
  const RECORD_TYPE_HANDSHAKE := 22
  const TYPE_CLIENT_HELLO := 1
  const HANDSHAKE_HEADER_LEN := 4
  const EXT_SERVER_NAME := 0
  const NAME_HOST_NAME := 0
  const MAX_RECORD_SIZE := 16384 + 2048
  const MAX_CLIENT_HELLO_SIZE := 65536

  datatype HelloError =
    | HeaderEof | PayloadEof | NotHandshake | RecordLength
    | NotClientHello | TooBig | MalformedHello | MalformedExtension

  type Sni = Result<seq<Byte>, HelloError>

  // ---------------------------------------------------------------- length-prefixed fields

  function Value16(s: seq<Byte>): nat
    requires |s| >= 2
  {
    s[0] as int * 256 + s[1] as int
  }

  /** A one-byte length, that many bytes, and the remainder. */
  function Take8(s: seq<Byte>): Option<(seq<Byte>, seq<Byte>)> {
    var n := if s == [] then 0 else s[0] as int;
    if |s| < 1 + n then None else Some((s[1..1 + n], s[1 + n..]))
  }

  function Take16(s: seq<Byte>): Option<(seq<Byte>, seq<Byte>)> {
    if |s| < 2 || |s| < 2 + Value16(s) then None else Some((s[2..2 + Value16(s)], s[2 + Value16(s)..]))
  }

  /** cryptobyte.String: a slice whose readers advance it in place. */
  class Cursor {
    var rest: seq<Byte>

    constructor (s: seq<Byte>)
      ensures rest == s
    {
      rest := s;
    }

    method Skip(n: nat) returns (ok: bool)
      modifies this
      ensures ok <==> n <= |old(rest)|
      ensures ok ==> rest == old(rest)[n..]
      ensures !ok ==> rest == old(rest)
    {
      ok := n <= |rest|;
      if ok { rest := rest[n..]; }
    }

    method ReadUint8() returns (ok: bool, value: nat)
      modifies this
      ensures ok <==> |old(rest)| >= 1
      ensures ok ==> value == old(rest)[0] && rest == old(rest)[1..]
    {
      ok, value := |rest| >= 1, 0;
      if ok { value, rest := rest[0], rest[1..]; }
    }

    method ReadUint16() returns (ok: bool, value: nat)
      modifies this
      ensures ok <==> |old(rest)| >= 2
      ensures ok ==> value == Value16(old(rest)) && rest == old(rest)[2..]
    {
      ok, value := |rest| >= 2, 0;
      if ok { value, rest := Value16(rest), rest[2..]; }
    }

    method ReadUint8LengthPrefixed() returns (ok: bool, field: seq<Byte>)
      modifies this
      ensures ok <==> Take8(old(rest)).Some?
      ensures ok ==> (field, rest) == Take8(old(rest)).value
    {
      var n;
      field := [];
      ok, n := ReadUint8();
      if ok && n <= |rest| {
        field, rest := rest[..n], rest[n..];
        assert field == old(rest)[1..1 + n] && rest == old(rest)[1 + n..];
      } else {
        ok := false;
      }
    }

    method ReadUint16LengthPrefixed() returns (ok: bool, field: seq<Byte>)
      modifies this
      ensures ok <==> Take16(old(rest)).Some?
      ensures ok ==> (field, rest) == Take16(old(rest)).value
    {
      var n;
      field := [];
      ok, n := ReadUint16();
      if ok && n <= |rest| {
        field, rest := rest[..n], rest[n..];
        assert field == old(rest)[2..2 + n] && rest == old(rest)[2 + n..];
      } else {
        ok := false;
      }
    }
  }

  // ---------------------------------------------------------------- what parsing computes

  function NameIn(names: seq<Byte>): Sni {
    if names == [] then Ok([])
    else match Take16(names[1..])
      case None => Err(MalformedExtension)
      case Some((name, rest)) => if names[0] == NAME_HOST_NAME then Ok(name) else NameIn(rest)
  }

  function NameInExtension(data: seq<Byte>): Sni {
    match Take16(data)
    case None => Err(MalformedExtension)
    case Some((names, _)) => NameIn(names)
  }

  function NameInExtensions(exts: seq<Byte>): Sni {
    if exts == [] then Ok([])
    else if |exts| < 2 then Err(MalformedExtension)
    else match Take16(exts[2..])
      case None => Err(MalformedExtension)
      case Some((data, rest)) =>
        if Value16(exts) == EXT_SERVER_NAME then NameInExtension(data) else NameInExtensions(rest)
  }

  /** The part of a body after version, random, session id, cipher suites and compression. */
  function AfterFixed(body: seq<Byte>): Option<seq<Byte>> {
    if |body| < 34 then None
    else match Take8(body[34..])
      case None => None
      case Some((_, s1)) => match Take16(s1)
        case None => None
        case Some((_, s2)) => match Take8(s2)
          case None => None
          case Some((_, s3)) => Some(s3)
  }

  function NameInBody(body: seq<Byte>): Sni {
    match AfterFixed(body)
    case None => Err(MalformedHello)
    case Some(s) =>
      if s == [] then Ok([])
      else match Take16(s)
        case None => Err(MalformedHello)
        case Some((exts, _)) => NameInExtensions(exts)
  }

  method SniFromServerNameExt(extData: Cursor) returns (sni: Sni)
    modifies extData
    ensures sni == NameInExtension(old(extData.rest))
  {
    var ok, field := extData.ReadUint16LengthPrefixed();
    if !ok { return Err(MalformedExtension); }
    var names := new Cursor(field);
    while names.rest != []
      invariant NameIn(field) == NameIn(names.rest)
      decreases |names.rest|
    {
      ghost var before := names.rest;
      var nameType, name;
      ok, nameType := names.ReadUint8();
      if ok { ok, name := names.ReadUint16LengthPrefixed(); }
      if !ok { return Err(MalformedExtension); }
      if nameType == NAME_HOST_NAME { return Ok(name); }
      assert NameIn(before) == NameIn(names.rest);
    }
    sni := Ok([]);
  }

  method SniFromExtensions(extensions: Cursor) returns (sni: Sni)
    modifies extensions
    ensures sni == NameInExtensions(old(extensions.rest))
  {
    while extensions.rest != []
      invariant NameInExtensions(old(extensions.rest)) == NameInExtensions(extensions.rest)
      decreases |extensions.rest|
    {
      var ok, extType := extensions.ReadUint16();
      var field;
      if ok { ok, field := extensions.ReadUint16LengthPrefixed(); }
      if !ok { return Err(MalformedExtension); }
      if extType == EXT_SERVER_NAME {
        var extData := new Cursor(field);
        sni := SniFromServerNameExt(extData);
        return;
      }
    }
    sni := Ok([]);
  }

  method ParseClientHelloSNI(body: seq<Byte>) returns (sni: Sni)
    ensures sni == NameInBody(body)
  {
    var s := new Cursor(body);
    var field;
    var ok := s.Skip(2 + 32);
    if ok { ok, field := s.ReadUint8LengthPrefixed(); }
    if ok { ok, field := s.ReadUint16LengthPrefixed(); }
    if ok { ok, field := s.ReadUint8LengthPrefixed(); }
    if !ok { return Err(MalformedHello); }
    if s.rest == [] { return Ok([]); }
    ok, field := s.ReadUint16LengthPrefixed();
    if !ok { return Err(MalformedHello); }
    var extensions := new Cursor(field);
    sni := SniFromExtensions(extensions);
  }

  // ---------------------------------------------------------------- what reading computes

  function Value24(s: seq<Byte>): nat
    requires |s| >= 3
  {
    s[0] as int * 65536 + s[1] as int * 256 + s[2] as int
  }

  /** One record off a stream: its payload or an error, and what remains unread. */
  function TakeRecord(s: seq<Byte>): (Sni, seq<Byte>) {
    if |s| < RECORD_HEADER_LEN then (Err(HeaderEof), [])
    else if s[0] != RECORD_TYPE_HANDSHAKE then (Err(NotHandshake), s[RECORD_HEADER_LEN..])
    else
      var n := Value16(s[3..]);
      if n == 0 || n > MAX_RECORD_SIZE then (Err(RecordLength), s[RECORD_HEADER_LEN..])
      else if |s| < RECORD_HEADER_LEN + n then (Err(PayloadEof), [])
      else (Ok(s[RECORD_HEADER_LEN..RECORD_HEADER_LEN + n]), s[RECORD_HEADER_LEN + n..])
  }

  /** The bytes a handshake needs, known from its header on: none before the header is there. */
  function Needed(handshake: seq<Byte>): Option<Result<nat, HelloError>> {
    if |handshake| < HANDSHAKE_HEADER_LEN then None
    else if handshake[0] != TYPE_CLIENT_HELLO then Some(Err(NotClientHello))
    else if Value24(handshake[1..]) > MAX_CLIENT_HELLO_SIZE then Some(Err(TooBig))
    else Some(Ok(HANDSHAKE_HEADER_LEN + Value24(handshake[1..])))
  }

  /** Reading on, given the handshake bytes gathered so far; also what remains unread. */
  function ReadHello(s: seq<Byte>, handshake: seq<Byte>): (Sni, seq<Byte>)
    decreases |s|
  {
    match Needed(handshake)
    case Some(Err(e)) => (Err(e), s)
    case Some(Ok(need)) =>
      if need <= |handshake| then (NameInBody(handshake[HANDSHAKE_HEADER_LEN..need]), s)
      else ReadMore(s, handshake)
    case None => ReadMore(s, handshake)
  }

  function ReadMore(s: seq<Byte>, handshake: seq<Byte>): (Sni, seq<Byte>)
    decreases |s|, 0
  {
    var (record, rest) := TakeRecord(s);
    match record
    case Err(e) => (Err(e), rest)
    case Ok(payload) => ReadHello(rest, handshake + payload)
  }

  method ReadRecord(r: TeeReader) returns (record: Sni)
    modifies r`copied, r.source`ready
    ensures (record, r.source.ready) == TakeRecord(old(r.source.ready))
    ensures r.copied + r.source.ready == old(r.copied + r.source.ready)
  {
    var hdr, full := r.ReadFull(RECORD_HEADER_LEN);
    if !full { return Err(HeaderEof); }
    if hdr[0] != RECORD_TYPE_HANDSHAKE { return Err(NotHandshake); }
    var recLen := hdr[3] as int * 256 + hdr[4] as int;
    assert recLen == Value16(old(r.source.ready)[3..]);
    if recLen == 0 || recLen > MAX_RECORD_SIZE { return Err(RecordLength); }
    var payload;
    ghost var s := old(r.source.ready);
    payload, full := r.ReadFull(recLen);
    if !full { return Err(PayloadEof); }
    assert payload == s[RECORD_HEADER_LEN..RECORD_HEADER_LEN + recLen];
    assert r.source.ready == s[RECORD_HEADER_LEN + recLen..];
    record := Ok(payload);
  }

  /** readClientHelloSNI; `need` is -1 until the handshake header has been read. */
  method ReadClientHelloSNI(r: TeeReader) returns (sni: Sni)
    modifies r`copied, r.source`ready
    ensures (sni, r.source.ready) == ReadHello(old(r.source.ready), [])
    ensures r.copied + r.source.ready == old(r.copied + r.source.ready)
  {
    var handshake: seq<Byte>, need := [], -1;
    while need < 0 || |handshake| < need
      invariant need < 0 ==> |handshake| < HANDSHAKE_HEADER_LEN
      invariant need >= 0 ==> Needed(handshake) == Some(Ok(need))
      invariant ReadHello(old(r.source.ready), []) == ReadHello(r.source.ready, handshake)
      invariant r.copied + r.source.ready == old(r.copied + r.source.ready)
      decreases |r.source.ready|
    {
      ghost var before := (r.source.ready, handshake);
      var record := ReadRecord(r);
      assert ReadHello(before.0, before.1) == ReadMore(before.0, before.1);
      if record.Err? { return record; }
      handshake := handshake + record.value;
      if need < 0 && |handshake| >= HANDSHAKE_HEADER_LEN {
        if handshake[0] != TYPE_CLIENT_HELLO { return Err(NotClientHello); }
        var bodyLen := handshake[1] as int * 65536 + handshake[2] as int * 256 + handshake[3] as int;
        if bodyLen > MAX_CLIENT_HELLO_SIZE { return Err(TooBig); }
        need := HANDSHAKE_HEADER_LEN + bodyLen;
      }
    }
    sni := ParseClientHelloSNI(handshake[HANDSHAKE_HEADER_LEN..need]);
  }
}

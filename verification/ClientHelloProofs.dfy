/** What reading a ClientHello means: record boundaries do not matter, a bounded number of bytes
    is consumed, and the name returned is the one the TLS grammar puts there. */
module ClientHelloProofs {
  import opened Sequences
  import opened Streams
  import opened ClientHello

  // ---------------------------------------------------------------- encodings

  function U16(n: nat): seq<Byte>
    requires n < 0x1_0000
  {
    [n / 256, n % 256]
  }

  function Field8(x: seq<Byte>): seq<Byte>
    requires |x| < 256
  {
    [|x|] + x
  }

  function Field16(x: seq<Byte>): seq<Byte>
    requires |x| < 0x1_0000
  {
    U16(|x|) + x
  }

  lemma Take8Field(x: seq<Byte>, rest: seq<Byte>)
    requires |x| < 256
    ensures Take8(Field8(x) + rest) == Some((x, rest))
  {
  }

  lemma Take16Field(x: seq<Byte>, rest: seq<Byte>)
    requires |x| < 0x1_0000
    ensures Take16(Field16(x) + rest) == Some((x, rest))
  {
  }

  lemma FieldTaken8(s: seq<Byte>)
    requires Take8(s).Some?
    ensures var (x, rest) := Take8(s).value; |x| < 256 && s == Field8(x) + rest
  {
  }

  lemma FieldTaken16(s: seq<Byte>)
    requires Take16(s).Some?
    ensures var (x, rest) := Take16(s).value; |x| < 0x1_0000 && s == Field16(x) + rest
  {
  }

  // ---------------------------------------------------------------- record boundaries

  /** A handshake record (content type 22) with any protocol version in its header. */
  datatype Fragment = Fragment(major: Byte, minor: Byte, payload: seq<Byte>)

  predicate ValidFragment(f: Fragment) { 1 <= |f.payload| <= 18432 }

  function RecordBytes(f: Fragment): seq<Byte>
    requires ValidFragment(f)
  {
    [22, f.major, f.minor] + Field16(f.payload)
  }

  predicate ValidFragments(fs: seq<Fragment>) { forall f :: f in fs ==> ValidFragment(f) }

  function StreamOf(fs: seq<Fragment>): seq<Byte>
    requires ValidFragments(fs)
  {
    if fs == [] then [] else RecordBytes(fs[0]) + StreamOf(fs[1..])
  }

  function PayloadOf(fs: seq<Fragment>): seq<Byte> {
    if fs == [] then [] else fs[0].payload + PayloadOf(fs[1..])
  }

  /** The handshake bytes decide the outcome: they show an error or hold the whole message. */
  predicate Decided(p: seq<Byte>) {
    Needed(p).Some? && (Needed(p).value.Ok? ==> Needed(p).value.value <= |p|)
  }

  /** The outcome as a function of handshake bytes alone, records forgotten. */
  function Verdict(p: seq<Byte>): Sni {
    if !Decided(p) then Err(HeaderEof)
    else match Needed(p).value
      case Err(e) => Err(e)
      case Ok(need) => NameInBody(p[HANDSHAKE_HEADER_LEN..need])
  }

  lemma TakeFragment(f: Fragment, rest: seq<Byte>)
    requires ValidFragment(f)
    ensures TakeRecord(RecordBytes(f) + rest) == (Ok(f.payload), rest)
  {
    var s := RecordBytes(f) + rest;
    assert s[3..] == Field16(f.payload) + rest;
    Take16Field(f.payload, rest);
    assert s[0] == 22;
    assert s[5..5 + |f.payload|] == f.payload;
    assert s[5 + |f.payload|..] == rest;
  }

  /** Further bytes do not change a decided outcome. */
  lemma DecidedStays(p: seq<Byte>, more: seq<Byte>)
    requires Decided(p)
    ensures Decided(p + more) && Verdict(p + more) == Verdict(p)
  {
    var q := p + more;
    assert q[..4] == p[..4];
    assert Needed(q) == Needed(p);
    if Needed(p).value.Ok? {
      var n := Needed(p).value.value;
      assert q[4..n] == p[4..n];
    }
  }

  lemma {:induction false} ReadFragments(fs: seq<Fragment>, tail: seq<Byte>, handshake: seq<Byte>)
    requires ValidFragments(fs)
    requires tail == [] || Decided(handshake + PayloadOf(fs))
    ensures ReadHello(StreamOf(fs) + tail, handshake).0 == Verdict(handshake + PayloadOf(fs))
    decreases |fs|
  {
    if Decided(handshake) {
      DecidedStays(handshake, PayloadOf(fs));
    } else if fs == [] {
      assert handshake + [] == handshake;
      assert StreamOf(fs) + tail == [];
    } else {
      var rest := StreamOf(fs[1..]) + tail;
      assert StreamOf(fs) + tail == RecordBytes(fs[0]) + rest;
      TakeFragment(fs[0], rest);
      assert handshake + PayloadOf(fs) == handshake + fs[0].payload + PayloadOf(fs[1..]);
      ReadFragments(fs[1..], tail, handshake + fs[0].payload);
    }
  }

  /** Reading a record stream gives what the concatenated payloads say, wherever the record
      boundaries fall; what follows the records is irrelevant once the payloads decide. */
  lemma Reassembly(fs: seq<Fragment>, tail: seq<Byte>)
    requires ValidFragments(fs)
    requires tail == [] || Decided(PayloadOf(fs))
    ensures ReadHello(StreamOf(fs) + tail, []).0 == Verdict(PayloadOf(fs))
  {
    assert [] + PayloadOf(fs) == PayloadOf(fs);
    ReadFragments(fs, tail, []);
  }

  /** Two fragmentations whose payloads agree on enough bytes to decide give the same result. */
  lemma FragmentationIrrelevant(fs: seq<Fragment>, gs: seq<Fragment>, tail1: seq<Byte>, tail2: seq<Byte>, n: nat)
    requires ValidFragments(fs) && ValidFragments(gs)
    requires n <= |PayloadOf(fs)| && n <= |PayloadOf(gs)| && PayloadOf(fs)[..n] == PayloadOf(gs)[..n]
    requires Decided(PayloadOf(fs)[..n])
    ensures ReadHello(StreamOf(fs) + tail1, []).0 == ReadHello(StreamOf(gs) + tail2, []).0
  {
    var p, q := PayloadOf(fs), PayloadOf(gs);
    assert p == p[..n] + p[n..] && q == q[..n] + q[n..];
    DecidedStays(p[..n], p[n..]);
    DecidedStays(q[..n], q[n..]);
    Reassembly(fs, tail1);
    Reassembly(gs, tail2);
  }

  // ---------------------------------------------------------------- bytes consumed

  const MAX_HANDSHAKE := HANDSHAKE_HEADER_LEN + MAX_CLIENT_HELLO_SIZE

  /** Every byte but the last before the message is complete may cost a record of its own, and
      the last record may be of full size. */
  const MAX_CONSUMED := (RECORD_HEADER_LEN + 1) * (MAX_HANDSHAKE - 1) + RECORD_HEADER_LEN + MAX_RECORD_SIZE

  lemma {:induction false} ConsumedFrom(s: seq<Byte>, handshake: seq<Byte>)
    requires |handshake| < MAX_HANDSHAKE
    ensures |s| - |ReadMore(s, handshake).1| <= MAX_CONSUMED - (RECORD_HEADER_LEN + 1) * |handshake|
    decreases |s|
  {
    var (record, rest) := TakeRecord(s);
    if record.Ok? {
      var more := handshake + record.value;
      if !Decided(more) {
        assert |more| < MAX_HANDSHAKE;
        ConsumedFrom(rest, more);
      }
    }
  }

  /** However the peer frames it, success and failure alike consume a bounded number of bytes. */
  lemma ConsumptionBounded(s: seq<Byte>)
    ensures var (_, rest) := ReadHello(s, []); |s| - |rest| <= MAX_CONSUMED == 411671
  {
    ConsumedFrom(s, []);
  }

  /** The first bytes of a hello of the largest size. */
  function LargestPrefix(n: nat): (p: seq<Byte>)
    ensures |p| == n
  {
    seq(n, i => if i < 2 then 1 else 0)
  }

  const FULL_RECORD := Fragment(3, 3, LargestPrefix(MAX_RECORD_SIZE))

  /** From byte `i` on, one record per byte, and a full record at the end. */
  function Drip(i: nat): (fs: seq<Fragment>)
    requires i < MAX_HANDSHAKE
    ensures ValidFragments(fs)
    decreases MAX_HANDSHAKE - i
  {
    if i == MAX_HANDSHAKE - 1 then [FULL_RECORD]
    else [Fragment(3, 3, [if i < 2 then 1 else 0])] + Drip(i + 1)
  }

  lemma PrefixUndecided(i: nat)
    requires i < MAX_HANDSHAKE
    ensures !Decided(LargestPrefix(i))
  {
  }

  lemma PrefixDecided(more: seq<Byte>)
    requires more != []
    ensures Decided(LargestPrefix(MAX_HANDSHAKE - 1) + more)
  {
  }

  lemma ReadOne(f: Fragment, rest: seq<Byte>, handshake: seq<Byte>)
    requires ValidFragment(f) && !Decided(handshake)
    ensures ReadHello(RecordBytes(f) + rest, handshake) == ReadHello(rest, handshake + f.payload)
    ensures Decided(handshake + f.payload) ==> ReadHello(rest, handshake + f.payload).1 == rest
  {
    TakeFragment(f, rest);
  }

  lemma {:induction false} DripIsRead(i: nat)
    requires i < MAX_HANDSHAKE
    ensures ReadHello(StreamOf(Drip(i)), LargestPrefix(i)).1 == []
    ensures |StreamOf(Drip(i))| ==
            (RECORD_HEADER_LEN + 1) * (MAX_HANDSHAKE - 1 - i) + RECORD_HEADER_LEN + MAX_RECORD_SIZE
    decreases MAX_HANDSHAKE - i
  {
    var fs := Drip(i);
    PrefixUndecided(i);
    ReadOne(fs[0], StreamOf(fs[1..]), LargestPrefix(i));
    if i == MAX_HANDSHAKE - 1 {
      assert fs == [FULL_RECORD];
      PrefixDecided(FULL_RECORD.payload);
    } else {
      assert fs[1..] == Drip(i + 1);
      NextPrefix(i);
      DripIsRead(i + 1);
    }
  }

  lemma NextPrefix(i: nat)
    ensures LargestPrefix(i) + [if i < 2 then 1 else 0] == LargestPrefix(i + 1)
  {
  }

  lemma DripFrom(i: nat) returns (stream: seq<Byte>)
    requires i == 0
    ensures |stream| == MAX_CONSUMED && ReadHello(stream, []).1 == []
  {
    DripIsRead(i);
    stream := StreamOf(Drip(i));
    assert LargestPrefix(i) == [];
  }

  /** The bound is attained: a hello of the largest size sent one byte to a record, with a full
      record at the end. */
  lemma ConsumptionAttained() returns (stream: seq<Byte>)
    ensures |stream| == MAX_CONSUMED && ReadHello(stream, []).1 == []
  {
    stream := DripFrom(0);
  }

  // ---------------------------------------------------------------- the grammar

  datatype Name = Name(kind: Byte, text: seq<Byte>)

  datatype Extension = ServerName(names: seq<Name>) | Opaque(kind: nat, data: seq<Byte>)

  datatype Hello = Hello(fixed: seq<Byte>, session: seq<Byte>, ciphers: seq<Byte>, compression: seq<Byte>,
                         extensions: Option<seq<Extension>>)

  predicate ValidName(n: Name) { |n.text| < 0x1_0000 }

  function NameBytes(names: seq<Name>): seq<Byte>
    requires forall n :: n in names ==> ValidName(n)
  {
    if names == [] then []
    else
      assert ValidName(names[0]);
      [names[0].kind] + Field16(names[0].text) + NameBytes(names[1..])
  }

  /** Extension type 0 is server_name, name type 0 is host_name. */
  predicate ValidExtension(e: Extension) {
    match e
    case ServerName(names) => (forall n :: n in names ==> ValidName(n)) && |NameBytes(names)| < 0xFFFE
    case Opaque(kind, data) => kind != 0 && kind < 0x1_0000 && |data| < 0x1_0000
  }

  function ExtensionBytes(e: Extension): seq<Byte>
    requires ValidExtension(e)
  {
    match e
    case ServerName(names) => [0, 0] + Field16(Field16(NameBytes(names)))
    case Opaque(kind, data) => U16(kind) + Field16(data)
  }

  predicate ValidExtensions(es: seq<Extension>) { forall e :: e in es ==> ValidExtension(e) }

  function ExtensionsBytes(es: seq<Extension>): seq<Byte>
    requires ValidExtensions(es)
  {
    if es == [] then [] else ExtensionBytes(es[0]) + ExtensionsBytes(es[1..])
  }

  predicate ValidHello(h: Hello) {
    && |h.fixed| == 34 && |h.session| < 256 && |h.ciphers| < 0x1_0000 && |h.compression| < 256
    && (h.extensions.Some? ==>
          ValidExtensions(h.extensions.value) && |ExtensionsBytes(h.extensions.value)| < 0x1_0000)
  }

  /** A ClientHello body as section 4.1.2 of RFC 8446 lays it out. */
  function Serialize(h: Hello): seq<Byte>
    requires ValidHello(h)
  {
    h.fixed + (Field8(h.session) + (Field16(h.ciphers) + (Field8(h.compression) +
      (if h.extensions.None? then [] else Field16(ExtensionsBytes(h.extensions.value))))))
  }

  /** The first host_name among a server_name extension's entries. */
  function FirstHostName(names: seq<Name>): seq<Byte> {
    if names == [] then [] else if names[0].kind == 0 then names[0].text else FirstHostName(names[1..])
  }

  /** The host name of the first server_name extension, empty when there is none. */
  function HostName(es: seq<Extension>): seq<Byte> {
    if es == [] then [] else if es[0].ServerName? then FirstHostName(es[0].names) else HostName(es[1..])
  }

  lemma {:induction false} NamesReadBack(names: seq<Name>)
    requires forall n :: n in names ==> ValidName(n)
    ensures NameIn(NameBytes(names)) == Ok(FirstHostName(names))
  {
    if names != [] {
      assert ValidName(names[0]);
      var rest := NameBytes(names[1..]);
      var s := [names[0].kind] + Field16(names[0].text) + rest;
      assert s[1..] == Field16(names[0].text) + rest;
      Take16Field(names[0].text, rest);
      NamesReadBack(names[1..]);
    }
  }

  /** One extension of known kind and data at the front of a block. */
  lemma ExtensionTaken(kind: nat, data: seq<Byte>, rest: seq<Byte>)
    requires kind < 0x1_0000 && |data| < 0x1_0000
    ensures var s := U16(kind) + (Field16(data) + rest);
            |s| >= 2 && Value16(s) == kind && Take16(s[2..]) == Some((data, rest))
  {
  }

  lemma ServerNameRead(names: seq<Name>, rest: seq<Byte>)
    requires ValidExtension(ServerName(names))
    ensures NameInExtensions([0, 0] + (Field16(Field16(NameBytes(names))) + rest)) == Ok(FirstHostName(names))
  {
    var data := Field16(NameBytes(names));
    ExtensionTaken(0, data, rest);
    assert data + [] == data;
    Take16Field(NameBytes(names), []);
    NamesReadBack(names);
  }

  lemma OtherExtensionRead(kind: nat, data: seq<Byte>, rest: seq<Byte>)
    requires kind < 0x1_0000 && kind != 0 && |data| < 0x1_0000
    ensures NameInExtensions(U16(kind) + (Field16(data) + rest)) == NameInExtensions(rest)
  {
  }

  lemma {:induction false} ExtensionsReadBack(es: seq<Extension>)
    requires ValidExtensions(es)
    ensures NameInExtensions(ExtensionsBytes(es)) == Ok(HostName(es))
  {
    if es != [] {
      assert ValidExtension(es[0]);
      var rest := ExtensionsBytes(es[1..]);
      match es[0] {
        case ServerName(names) =>
          Assoc([0, 0], Field16(Field16(NameBytes(names))), rest);
          ServerNameRead(names, rest);
        case Opaque(kind, data) =>
          Assoc(U16(kind), Field16(data), rest);
          OtherExtensionRead(kind, data, rest);
          ExtensionsReadBack(es[1..]);
      }
    }
  }

  lemma FixedSkipped(fixed: seq<Byte>, session: seq<Byte>, ciphers: seq<Byte>, compression: seq<Byte>, rest: seq<Byte>)
    requires |fixed| == 34 && |session| < 256 && |ciphers| < 0x1_0000 && |compression| < 256
    ensures AfterFixed(fixed + (Field8(session) + (Field16(ciphers) + (Field8(compression) + rest)))) == Some(rest)
  {
    var s3 := Field8(compression) + rest;
    var s2 := Field16(ciphers) + s3;
    var s1 := Field8(session) + s2;
    assert (fixed + s1)[34..] == s1;
    Take8Field(session, s2);
    Take16Field(ciphers, s3);
    Take8Field(compression, rest);
  }

  /** Reading a serialized hello gives back its host name, or the empty name if it has none. */
  lemma {:induction false} RoundTrip(h: Hello)
    requires ValidHello(h)
    ensures NameInBody(Serialize(h)) == Ok(if h.extensions.None? then [] else HostName(h.extensions.value))
  {
    if h.extensions.None? {
      FixedSkipped(h.fixed, h.session, h.ciphers, h.compression, []);
    } else {
      var block := ExtensionsBytes(h.extensions.value);
      FixedSkipped(h.fixed, h.session, h.ciphers, h.compression, Field16(block));
      assert Field16(block) + [] == Field16(block);
      Take16Field(block, []);
      ExtensionsReadBack(h.extensions.value);
    }
  }

  // ---------------------------------------------------------------- where a name comes from

  /** A list of names: without a host_name, or up to the first one, with whatever follows it. */
  datatype NameList = NoHost(names: seq<Name>) | Host(others: seq<Name>, sni: seq<Byte>, rest: seq<Byte>)

  ghost predicate OtherNames(names: seq<Name>) { forall n :: n in names ==> ValidName(n) && n.kind != 0 }

  ghost predicate ValidList(l: NameList) {
    match l
    case NoHost(names) => OtherNames(names)
    case Host(others, sni, _) => OtherNames(others) && |sni| < 0x1_0000
  }

  ghost function ListBytes(l: NameList): seq<Byte>
    requires ValidList(l)
  {
    match l
    case NoHost(names) => NameBytes(names)
    case Host(others, sni, rest) => NameBytes(others) + ([0] + (Field16(sni) + rest))
  }

  function ListName(l: NameList): seq<Byte> { match l case NoHost(_) => [] case Host(_, sni, _) => sni }

  /** A block of extensions: without server_name, or up to the first one, with whatever follows
      the list in it and whatever follows it. */
  datatype Block =
    | Plain(extensions: seq<Extension>)
    | Naming(before: seq<Extension>, list: NameList, afterList: seq<Byte>, rest: seq<Byte>)

  ghost predicate OtherExtensions(es: seq<Extension>) { forall e :: e in es ==> e.Opaque? && ValidExtension(e) }

  ghost predicate ValidBlock(b: Block) {
    match b
    case Plain(es) => OtherExtensions(es)
    case Naming(before, list, afterList, _) =>
      OtherExtensions(before) && ValidList(list) && |ListBytes(list)| < 0x1_0000 && |Field16(ListBytes(list)) + afterList| < 0x1_0000
  }

  ghost function BlockBytes(b: Block): seq<Byte>
    requires ValidBlock(b)
  {
    match b
    case Plain(es) => ExtensionsBytes(es)
    case Naming(before, list, afterList, rest) =>
      ExtensionsBytes(before) + ([0, 0] + (Field16(Field16(ListBytes(list)) + afterList) + rest))
  }

  function BlockName(b: Block): seq<Byte> { match b case Plain(_) => [] case Naming(_, list, _, _) => ListName(list) }

  /** A body: 34 bytes, three fields, and then nothing, or a block with whatever follows it. */
  datatype Body = Body(fixed: seq<Byte>, session: seq<Byte>, ciphers: seq<Byte>, compression: seq<Byte>, end: End)

  datatype End = Nothing | Extensions(block: Block, rest: seq<Byte>)

  ghost predicate ValidBody(d: Body) {
    && |d.fixed| == 34 && |d.session| < 256 && |d.ciphers| < 0x1_0000 && |d.compression| < 256
    && (d.end.Extensions? ==> ValidBlock(d.end.block) && |BlockBytes(d.end.block)| < 0x1_0000)
  }

  ghost function BodyBytes(d: Body): seq<Byte>
    requires ValidBody(d)
  {
    d.fixed + (Field8(d.session) + (Field16(d.ciphers) + (Field8(d.compression) +
      (match d.end case Nothing => [] case Extensions(block, rest) => Field16(BlockBytes(block)) + rest))))
  }

  function BodyName(d: Body): seq<Byte> { match d.end case Nothing => [] case Extensions(block, _) => BlockName(block) }

  // from the grammar to the answer

  lemma {:induction false} NamesFound(others: seq<Name>, sni: seq<Byte>, after: seq<Byte>)
    requires |sni| < 0x1_0000 && OtherNames(others)
    ensures NameIn(NameBytes(others) + ([0] + (Field16(sni) + after))) == Ok(sni)
  {
    var end := [0] + (Field16(sni) + after);
    if others == [] {
      assert NameBytes(others) + end == end && end[1..] == Field16(sni) + after;
      Take16Field(sni, after);
    } else {
      assert ValidName(others[0]);
      var rest := NameBytes(others[1..]) + end;
      var s := NameBytes(others) + end;
      assert s == [others[0].kind] + (Field16(others[0].text) + rest);
      assert s[1..] == Field16(others[0].text) + rest;
      Take16Field(others[0].text, rest);
      NamesFound(others[1..], sni, after);
    }
  }

  lemma {:induction false} NoHostNamed(names: seq<Name>)
    requires OtherNames(names)
    ensures FirstHostName(names) == []
  {
    if names != [] { NoHostNamed(names[1..]); }
  }

  lemma ListIsRead(l: NameList)
    requires ValidList(l)
    ensures NameIn(ListBytes(l)) == Ok(ListName(l))
  {
    match l
    case NoHost(names) => NamesReadBack(names); NoHostNamed(names);
    case Host(others, sni, rest) => NamesFound(others, sni, rest);
  }

  lemma PushExtension(kind: nat, field: seq<Byte>, before: seq<Extension>, end: seq<Byte>)
    requires ValidExtension(Opaque(kind, field)) && OtherExtensions(before)
    ensures OtherExtensions([Opaque(kind, field)] + before)
    ensures ExtensionsBytes([Opaque(kind, field)] + before) + end ==
            U16(kind) + (Field16(field) + (ExtensionsBytes(before) + end))
  {
  }

  lemma {:induction false} ExtensionsFound(before: seq<Extension>, data: seq<Byte>, after: seq<Byte>)
    requires OtherExtensions(before) && |data| < 0x1_0000
    ensures NameInExtensions(ExtensionsBytes(before) + ([0, 0] + (Field16(data) + after))) == NameInExtension(data)
  {
    var end := [0, 0] + (Field16(data) + after);
    if before == [] {
      assert ExtensionsBytes(before) + end == end;
      ExtensionTaken(0, data, after);
    } else {
      assert ValidExtension(before[0]) && before[0].Opaque?;
      var kind, field := before[0].kind, before[0].data;
      var rest := ExtensionsBytes(before[1..]) + end;
      assert before == [Opaque(kind, field)] + before[1..];
      PushExtension(kind, field, before[1..], end);
      ExtensionTaken(kind, field, rest);
      ExtensionsFound(before[1..], data, after);
    }
  }

  lemma {:induction false} NoServerName(es: seq<Extension>)
    requires OtherExtensions(es)
    ensures HostName(es) == []
  {
    if es != [] {
      assert es[0].Opaque?;
      NoServerName(es[1..]);
    }
  }

  lemma BlockIsRead(b: Block)
    requires ValidBlock(b)
    ensures NameInExtensions(BlockBytes(b)) == Ok(BlockName(b))
  {
    match b
    case Plain(es) => ExtensionsReadBack(es); NoServerName(es);
    case Naming(before, list, afterList, rest) =>
      ExtensionsFound(before, Field16(ListBytes(list)) + afterList, rest);
      Take16Field(ListBytes(list), afterList);
      ListIsRead(list);
  }

  lemma BodyIsRead(d: Body)
    requires ValidBody(d)
    ensures NameInBody(BodyBytes(d)) == Ok(BodyName(d))
  {
    match d.end
    case Nothing => FixedSkipped(d.fixed, d.session, d.ciphers, d.compression, []);
    case Extensions(block, rest) =>
      FixedSkipped(d.fixed, d.session, d.ciphers, d.compression, Field16(BlockBytes(block)) + rest);
      Take16Field(BlockBytes(block), rest);
      BlockIsRead(block);
  }

  // from the answer to the grammar

  lemma PrependName(first: Name, others: seq<Name>, end: seq<Byte>)
    requires ValidName(first) && first.kind != 0 && OtherNames(others)
    ensures OtherNames([first] + others)
    ensures NameBytes([first] + others) + end == [first.kind] + (Field16(first.text) + (NameBytes(others) + end))
    ensures NameBytes([first] + others) == [first.kind] + (Field16(first.text) + NameBytes(others))
  {
  }

  lemma {:induction false} LocateList(names: seq<Byte>) returns (l: NameList)
    requires NameIn(names).Ok?
    ensures ValidList(l) && ListBytes(l) == names
    decreases |names|
  {
    if names == [] { return NoHost([]); }
    var (name, rest) := Take16(names[1..]).value;
    FieldTaken16(names[1..]);
    assert names == [names[0]] + (Field16(name) + rest);
    if names[0] == 0 {
      l := Host([], name, rest);
      assert NameBytes([]) + ([0] + (Field16(name) + rest)) == [0] + (Field16(name) + rest);
    } else {
      var tail := LocateList(rest);
      var first := Name(names[0], name);
      match tail {
        case NoHost(others) =>
          PrependName(first, others, []);
          l := NoHost([first] + others);
        case Host(others, sni, after) =>
          PrependName(first, others, [0] + (Field16(sni) + after));
          l := Host([first] + others, sni, after);
      }
    }
  }

  /** One extension off the front of a block. */
  lemma TakeExtension(exts: seq<Byte>) returns (kind: nat, field: seq<Byte>, rest: seq<Byte>)
    requires |exts| >= 2 && Take16(exts[2..]).Some?
    ensures Take16(exts[2..]) == Some((field, rest)) && |field| < 0x1_0000 && kind < 0x1_0000 && |rest| < |exts|
    ensures kind == Value16(exts) && exts == U16(kind) + (Field16(field) + rest)
  {
    kind := Value16(exts);
    field, rest := Take16(exts[2..]).value.0, Take16(exts[2..]).value.1;
    FieldTaken16(exts[2..]);
    assert U16(kind) == exts[..2];
  }

  lemma LocateData(data: seq<Byte>) returns (list: NameList, afterList: seq<Byte>)
    requires NameInExtension(data).Ok?
    ensures ValidList(list) && |ListBytes(list)| < 0x1_0000 && data == Field16(ListBytes(list)) + afterList
  {
    var (names, after) := Take16(data).value;
    FieldTaken16(data);
    afterList := after;
    list := LocateList(names);
  }

  lemma NamingFirst(field: seq<Byte>, list: NameList, afterList: seq<Byte>, rest: seq<Byte>)
    requires ValidList(list) && |ListBytes(list)| < 0x1_0000 && |field| < 0x1_0000 && field == Field16(ListBytes(list)) + afterList
    ensures ValidBlock(Naming([], list, afterList, rest))
    ensures BlockBytes(Naming([], list, afterList, rest)) == [0, 0] + (Field16(field) + rest)
  {
    assert ExtensionsBytes([]) + ([0, 0] + (Field16(field) + rest)) == [0, 0] + (Field16(field) + rest);
  }

  function Pushed(e: Extension, b: Block): Block {
    match b
    case Plain(es) => Plain([e] + es)
    case Naming(before, list, afterList, rest) => Naming([e] + before, list, afterList, rest)
  }

  lemma PushedBytes(kind: nat, field: seq<Byte>, b: Block)
    requires ValidExtension(Opaque(kind, field)) && ValidBlock(b)
    ensures ValidBlock(Pushed(Opaque(kind, field), b))
    ensures BlockBytes(Pushed(Opaque(kind, field), b)) == U16(kind) + (Field16(field) + BlockBytes(b))
  {
    match b
    case Plain(es) =>
      PushExtension(kind, field, es, []);
      Assoc(U16(kind), Field16(field), ExtensionsBytes(es));
    case Naming(before, list, afterList, rest) =>
      PushExtension(kind, field, before, [0, 0] + (Field16(Field16(ListBytes(list)) + afterList) + rest));
  }

  lemma {:induction false} LocateBlock(exts: seq<Byte>) returns (b: Block)
    requires NameInExtensions(exts).Ok?
    ensures ValidBlock(b) && BlockBytes(b) == exts
    decreases |exts|
  {
    if exts == [] { return Plain([]); }
    var kind, field, rest := TakeExtension(exts);
    if kind == 0 {
      var list, afterList := LocateData(field);
      b := Naming([], list, afterList, rest);
      NamingFirst(field, list, afterList, rest);
    } else {
      var tail := LocateBlock(rest);
      PushedBytes(kind, field, tail);
      b := Pushed(Opaque(kind, field), tail);
    }
  }

  lemma LocateFixed(body: seq<Byte>)
    returns (fixed: seq<Byte>, session: seq<Byte>, ciphers: seq<Byte>, compression: seq<Byte>)
    requires AfterFixed(body).Some?
    ensures |fixed| == 34 && |session| < 256 && |ciphers| < 0x1_0000 && |compression| < 256
    ensures body == fixed + (Field8(session) + (Field16(ciphers) + (Field8(compression) + AfterFixed(body).value)))
  {
    fixed := body[..34];
    var t1 := Take8(body[34..]).value;
    var t2 := Take16(t1.1).value;
    var t3 := Take8(t2.1).value;
    session, ciphers, compression := t1.0, t2.0, t3.0;
    FieldTaken8(body[34..]);
    FieldTaken16(t1.1);
    FieldTaken8(t2.1);
    assert body == fixed + body[34..];
  }

  lemma LocateBody(body: seq<Byte>) returns (d: Body)
    requires NameInBody(body).Ok?
    ensures ValidBody(d) && BodyBytes(d) == body
  {
    var fixed, session, ciphers, compression := LocateFixed(body);
    var s := AfterFixed(body).value;
    if s == [] {
      d := Body(fixed, session, ciphers, compression, Nothing);
    } else {
      var (exts, rest) := Take16(s).value;
      FieldTaken16(s);
      var block := LocateBlock(exts);
      d := Body(fixed, session, ciphers, compression, Extensions(block, rest));
    }
  }

  ghost predicate Parses(body: seq<Byte>, d: Body) { ValidBody(d) && BodyBytes(d) == body }

  /** A name is returned exactly for the bodies that the grammar takes apart around it: the first
      host_name of the first server_name extension, byte for byte, or the empty name where there
      is none. Every other body is an error. */
  lemma {:induction false} NameIsLocated(body: seq<Byte>, sni: seq<Byte>)
    ensures NameInBody(body) == Ok(sni) <==> exists d :: Parses(body, d) && BodyName(d) == sni
  {
    if NameInBody(body) == Ok(sni) {
      var d := LocateBody(body);
      BodyIsRead(d);
      assert Parses(body, d);
    }
    forall d | Parses(body, d) && BodyName(d) == sni ensures NameInBody(body) == Ok(sni) {
      BodyIsRead(d);
    }
  }

  /** The error tells a broken hello from broken extensions: it is the former exactly when the body
      is not even 34 bytes and three fields with nothing or one more field behind them. */
  lemma {:induction false} BrokenHelloExactly(body: seq<Byte>)
    ensures NameInBody(body) == Err(MalformedHello) <==> !exists o: Outline :: Outlines(body, o)
    ensures NameInBody(body).Err? ==> NameInBody(body) == Err(MalformedHello) || NameInBody(body) == Err(MalformedExtension)
  {
    OnlyExtensionErrors(body);
    if AfterFixed(body).Some? && (AfterFixed(body).value == [] || Take16(AfterFixed(body).value).Some?) {
      var fixed, session, ciphers, compression := LocateFixed(body);
      var s := AfterFixed(body).value;
      if s == [] {
        assert Outlines(body, Outline(fixed, session, ciphers, compression, None));
      } else {
        var (exts, rest) := Take16(s).value;
        FieldTaken16(s);
        assert Outlines(body, Outline(fixed, session, ciphers, compression, Some((exts, rest))));
      }
    }
    forall o: Outline | Outlines(body, o) ensures NameInBody(body) != Err(MalformedHello) {
      FixedSkipped(o.fixed, o.session, o.ciphers, o.compression, OutlineEnd(o));
      if o.end.Some? { Take16Field(o.end.value.0, o.end.value.1); }
    }
  }

  datatype Outline = Outline(fixed: seq<Byte>, session: seq<Byte>, ciphers: seq<Byte>, compression: seq<Byte>,
                             end: Option<(seq<Byte>, seq<Byte>)>)

  function OutlineEnd(o: Outline): seq<Byte>
    requires o.end.Some? ==> |o.end.value.0| < 0x1_0000
  {
    match o.end case None => [] case Some((exts, rest)) => Field16(exts) + rest
  }

  ghost predicate Outlines(body: seq<Byte>, o: Outline) {
    && |o.fixed| == 34 && |o.session| < 256 && |o.ciphers| < 0x1_0000 && |o.compression| < 256
    && (o.end.Some? ==> |o.end.value.0| < 0x1_0000)
    && body == o.fixed + (Field8(o.session) + (Field16(o.ciphers) + (Field8(o.compression) + OutlineEnd(o))))
  }

  lemma {:induction false} OnlyNameErrors(names: seq<Byte>)
    ensures NameIn(names).Ok? || NameIn(names) == Err(MalformedExtension)
    decreases |names|
  {
    if names != [] && Take16(names[1..]).Some? && names[0] != 0 { OnlyNameErrors(Take16(names[1..]).value.1); }
  }

  lemma {:induction false} OnlyBlockErrors(exts: seq<Byte>)
    ensures NameInExtensions(exts).Ok? || NameInExtensions(exts) == Err(MalformedExtension)
    decreases |exts|
  {
    if |exts| >= 2 && Take16(exts[2..]).Some? {
      var (data, rest) := Take16(exts[2..]).value;
      OnlyBlockErrors(rest);
      if Take16(data).Some? { OnlyNameErrors(Take16(data).value.0); }
    }
  }

  lemma OnlyExtensionErrors(body: seq<Byte>)
    ensures AfterFixed(body).Some? && AfterFixed(body).value != [] && Take16(AfterFixed(body).value).Some? ==>
              NameInBody(body).Ok? || NameInBody(body) == Err(MalformedExtension)
    ensures !(AfterFixed(body).Some? && (AfterFixed(body).value == [] || Take16(AfterFixed(body).value).Some?)) ==>
              NameInBody(body) == Err(MalformedHello)
  {
    if AfterFixed(body).Some? && Take16(AfterFixed(body).value).Some? { OnlyBlockErrors(Take16(AfterFixed(body).value).value.0); }
  }

  /** A hello as a handshake message (type 1, section 4 of RFC 8446). */
  function Message(body: seq<Byte>): seq<Byte>
    requires |body| <= 65536
  {
    [1, |body| / 65536, (|body| / 256) % 256, |body| % 256] + body
  }

  lemma MessageHeader(body: seq<Byte>)
    requires |body| <= 65536
    ensures Message(body)[0] == 1 && Value24(Message(body)[1..]) == |body|
  {
  }

  lemma MessageVerdict(body: seq<Byte>)
    requires |body| <= 65536
    ensures Decided(Message(body)) && Verdict(Message(body)) == NameInBody(body)
  {
    MessageHeader(body);
    assert Message(body)[4..4 + |body|] == body;
  }

  /** End to end: a well-formed hello, cut into records in any way and followed by anything,
      is read as its host name. */
  lemma ClientIsNamed(h: Hello, fs: seq<Fragment>, tail: seq<Byte>)
    requires ValidHello(h) && |Serialize(h)| <= 65536
    requires ValidFragments(fs) && PayloadOf(fs) == Message(Serialize(h))
    ensures ReadHello(StreamOf(fs) + tail, []).0 ==
            Ok(if h.extensions.None? then [] else HostName(h.extensions.value))
  {
    MessageVerdict(Serialize(h));
    Reassembly(fs, tail);
    RoundTrip(h);
  }

  // ---------------------------------------------------------------- every other stream

  /** What the handshake bytes of a stream come to, by the message header of section 4 of RFC 8446:
      type 1 and a length of three bytes, of which at most 65536 is accepted. */
  lemma HandshakeVerdict(p: seq<Byte>)
    ensures |p| < 4 ==> !Decided(p)
    ensures |p| >= 4 && p[0] != 1 ==> Decided(p) && Verdict(p) == Err(NotClientHello)
    ensures |p| >= 4 && p[0] == 1 ==>
              var n := p[1] as int * 65536 + p[2] as int * 256 + p[3] as int;
              if n > 65536 then Decided(p) && Verdict(p) == Err(TooBig)
              else if |p| < 4 + n then !Decided(p)
              else Decided(p) && Verdict(p) == NameInBody(p[4..4 + n])
  {
  }

  /** A stream that goes on without a further handshake record of 1 to 18432 bytes before the
      message is decided fails; how it goes on tells how, and how much of it is read. */
  lemma {:induction false} CutShort(fs: seq<Fragment>, tail: seq<Byte>, handshake: seq<Byte>)
    requires ValidFragments(fs) && !Decided(handshake + PayloadOf(fs))
    ensures |tail| < 5 ==> ReadHello(StreamOf(fs) + tail, handshake) == (Err(HeaderEof), [])
    ensures |tail| >= 5 && tail[0] != 22 ==> ReadHello(StreamOf(fs) + tail, handshake) == (Err(NotHandshake), tail[5..])
    ensures |tail| >= 5 && tail[0] == 22 ==>
              var n := tail[3] as int * 256 + tail[4] as int;
              && (n == 0 || n > 18432 ==> ReadHello(StreamOf(fs) + tail, handshake) == (Err(RecordLength), tail[5..]))
              && (0 < n <= 18432 && |tail| < 5 + n ==> ReadHello(StreamOf(fs) + tail, handshake) == (Err(PayloadEof), []))
    decreases |fs|
  {
    if fs == [] {
      assert handshake + [] == handshake && [] + tail == tail;
      assert StreamOf(fs) + tail == tail;
    } else {
      UndecidedBefore(handshake, PayloadOf(fs));
      var rest := StreamOf(fs[1..]) + tail;
      Assoc(RecordBytes(fs[0]), StreamOf(fs[1..]), tail);
      TakeFragment(fs[0], rest);
      Assoc(handshake, fs[0].payload, PayloadOf(fs[1..]));
      CutShort(fs[1..], tail, handshake + fs[0].payload);
    }
  }

  /** Reading stops with the record that decides, and leaves all that follows it. */
  lemma {:induction false} StopsAtOnce(fs: seq<Fragment>, last: Fragment, tail: seq<Byte>, handshake: seq<Byte>)
    requires ValidFragments(fs) && ValidFragment(last)
    requires !Decided(handshake + PayloadOf(fs)) && Decided(handshake + PayloadOf(fs) + last.payload)
    ensures ReadHello(StreamOf(fs) + (RecordBytes(last) + tail), handshake) == (Verdict(handshake + PayloadOf(fs) + last.payload), tail)
    decreases |fs|
  {
    if fs == [] {
      assert handshake + [] == handshake && StreamOf(fs) + (RecordBytes(last) + tail) == RecordBytes(last) + tail;
      ReadOne(last, tail, handshake);
    } else {
      UndecidedBefore(handshake, PayloadOf(fs));
      var rest := StreamOf(fs[1..]) + (RecordBytes(last) + tail);
      Assoc(RecordBytes(fs[0]), StreamOf(fs[1..]), RecordBytes(last) + tail);
      TakeFragment(fs[0], rest);
      Assoc(handshake, fs[0].payload, PayloadOf(fs[1..]));
      StopsAtOnce(fs[1..], last, tail, handshake + fs[0].payload);
    }
  }

  lemma UndecidedBefore(p: seq<Byte>, more: seq<Byte>)
    requires !Decided(p + more)
    ensures !Decided(p)
  {
    if Decided(p) { DecidedStays(p, more); }
  }
}

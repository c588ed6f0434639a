/** Reading a generated text back gives the rules it was rendered from. */
module NftReadBack {
  import opened GoStrings
  import opened Sequences
  import opened Streams
  import opened Nft
  import opened NftTemplates
  import opened NftAudit
  import opened NftReader

  // ---------------------------------------------------------------- words of rendered lines

  ghost predicate Word(w: string) { w != "" && forall i :: 0 <= i < |w| ==> !Stops(w[i]) }

  ghost predicate Blank(s: string) { forall i :: 0 <= i < |s| ==> s[i] == ' ' }

  lemma {:induction false} BlankFirst(s: string, rest: string)
    requires Blank(s)
    ensures Words(s + rest) == Words(rest)
  {
    if s == "" {
      assert s + rest == rest;
    } else {
      assert (s + rest)[1..] == s[1..] + rest;
      BlankFirst(s[1..], rest);
    }
  }

  lemma {:induction false} WordEndsAt(w: string, rest: string)
    requires (forall i :: 0 <= i < |w| ==> !Stops(w[i])) && (rest == "" || Stops(rest[0]))
    ensures WordEnd(w + rest) == |w|
  {
    if w != "" {
      assert (w + rest)[1..] == w[1..] + rest;
      WordEndsAt(w[1..], rest);
    }
  }

  /** A word at the end of a line, or before a comment or a space. */
  lemma WordFirst(w: string, rest: string)
    requires Word(w) && (rest == "" || Stops(rest[0]))
    ensures Words(w + rest) == [w] + Words(rest)
  {
    WordEndsAt(w, rest);
    assert (w + rest)[..|w|] == w && (w + rest)[|w|..] == rest;
  }

  lemma WordThen(w: string, rest: string)
    requires Word(w)
    ensures Words(w + " " + rest) == [w] + Words(rest)
  {
    assert w + " " + rest == w + (" " + rest);
    WordFirst(w, " " + rest);
    BlankFirst(" ", rest);
  }

  lemma TwoThen(a: string, b: string, rest: string)
    requires Word(a) && Word(b)
    ensures Words(a + " " + (b + " " + rest)) == [a, b] + Words(rest)
  {
    WordThen(a, b + " " + rest);
    WordThen(b, rest);
    assert [a] + ([b] + Words(rest)) == [a, b] + Words(rest);
  }

  lemma JoinedWord(a: string, b: string)
    requires Word(a) && Word(b)
    ensures Word(a + b)
  {
  }

  /** Words, each followed by a space. */
  function Spaced(ws: seq<string>): string {
    if ws == [] then "" else ws[0] + " " + Spaced(ws[1..])
  }

  ghost predicate AllWords(ws: seq<string>) { forall i :: 0 <= i < |ws| ==> Word(ws[i]) }

  lemma {:induction false} SpacedWords(ws: seq<string>, rest: string)
    requires AllWords(ws)
    ensures Words(Spaced(ws) + rest) == ws + Words(rest)
  {
    if ws == [] {
      assert Spaced(ws) + rest == rest;
    } else {
      Assoc(ws[0] + " ", Spaced(ws[1..]), rest);
      WordThen(ws[0], Spaced(ws[1..]) + rest);
      SpacedWords(ws[1..], rest);
      Assoc([ws[0]], ws[1..], Words(rest));
      assert [ws[0]] + ws[1..] == ws;
    }
  }

  lemma SpacedTwo(a: string, b: string)
    ensures Spaced([a, b]) == a + " " + b + " "
  {
    assert [a, b][1..] == [b] && [b][1..] == [];
    assert Spaced([b]) == b + " ";
  }

  lemma SpacedThree(a: string, b: string, c: string)
    ensures Spaced([a, b, c]) == a + " " + b + " " + c + " "
  {
    assert [a, b, c][1..] == [b, c];
    SpacedTwo(b, c);
  }

  // ---------------------------------------------------------------- conditions

  /** The words of a rendered condition. */
  function CondWords(c: Cond, fam: Family): seq<string> {
    match c
    case OifLo => ["oifname", "\"lo\""]
    case Established => ["ct", "state", "established,related"]
    case Marked => ["meta", "mark", "0x1"]
    case DaddrLoopback => [Ip(fam), "daddr", LoopbackText(fam)]
    case TcpDport(p) => ["tcp", "dport", Digits(p)]
    case UdpDport(p) => ["udp", "dport", Digits(p)]
    case DaddrIn(kind) => [Ip(fam), "daddr", "@" + SetName(kind, fam)]
    case EchoRequest => [Icmp(fam), "type", "echo-request"]
    case NeighbourDiscovery =>
      ["icmpv6", "type", "{", "nd-neighbor-solicit,", "nd-neighbor-advert,", "nd-router-solicit,", "nd-router-advert", "}"]
  }

  lemma {:induction false} ReadsDecimal(n: nat)
    ensures ReadNat(Decimal(n)) == Some(n) && Word(Decimal(n))
  {
    if n >= 10 {
      ReadsDecimal(n / 10);
      var text := Decimal(n);
      assert text[..|text| - 1] == Decimal(n / 10);
    }
  }

  lemma SetNameRead(kind: SetKind, fam: Family)
    ensures ReadSetName(fam, SetName(kind, fam)) == Some(kind)
  {
  }

  lemma SetNameWord(kind: SetKind, fam: Family)
    ensures Word(SetName(kind, fam)) && Word("@" + SetName(kind, fam))
  {
  }

  lemma ThreeWords(a: string, b: string, c: string)
    requires Word(a) && Word(b) && Word(c)
    ensures AllWords([a, b, c])
  {
  }

  lemma LiteralWords()
    ensures Word("oifname") && Word("\"lo\"") && Word("meta") && Word("mark") && Word("0x1")
    ensures Word("tcp") && Word("udp") && Word("dport") && Word("daddr")
  {
  }

  lemma StateWords()
    ensures Word("ct") && Word("state") && Word("established,related")
  {
  }

  lemma FamilyWords(fam: Family)
    ensures Word(Ip(fam)) && Word(LoopbackText(fam)) && Word(Icmp(fam)) && Word("type") && Word("echo-request")
  {
  }

  lemma PlainCondWords(c: Cond, fam: Family)
    requires !c.NeighbourDiscovery?
    ensures AllWords(CondWords(c, fam))
  {
    LiteralWords();
    match c {
      case OifLo =>
      case Established => StateWords(); ThreeWords("ct", "state", "established,related");
      case Marked => ThreeWords("meta", "mark", "0x1");
      case DaddrLoopback => FamilyWords(fam); ThreeWords(Ip(fam), "daddr", LoopbackText(fam));
      case TcpDport(p) => ReadsDecimal(p); ThreeWords("tcp", "dport", Digits(p));
      case UdpDport(p) => ReadsDecimal(p); ThreeWords("udp", "dport", Digits(p));
      case DaddrIn(kind) => FamilyWords(fam); SetNameWord(kind, fam); ThreeWords(Ip(fam), "daddr", "@" + SetName(kind, fam));
      case EchoRequest => FamilyWords(fam); ThreeWords(Icmp(fam), "type", "echo-request");
    }
  }

  lemma LoText()
    ensures CondText(OifLo, V4) == "oifname" + " " + "\"lo\"" && CondText(OifLo, V6) == "oifname" + " " + "\"lo\""
  {
  }

  lemma StateText()
    ensures CT_STATE == "ct" + " " + "state" + " " + "established,related"
  {
  }

  lemma MarkText()
    ensures META_MARK == "meta" + " " + "mark" + " " + "0x1"
  {
  }

  lemma PortText(p: nat)
    ensures TCP_DPORT + Digits(p) == "tcp" + " " + "dport" + " " + Digits(p)
    ensures UDP_DPORT + Digits(p) == "udp" + " " + "dport" + " " + Digits(p)
  {
  }

  lemma DestinationText(fam: Family, kind: SetKind)
    ensures Ip(fam) + DADDR + LoopbackText(fam) == Ip(fam) + " " + "daddr" + " " + LoopbackText(fam)
    ensures Ip(fam) + DADDR + "@" + SetName(kind, fam) == Ip(fam) + " " + "daddr" + " " + ("@" + SetName(kind, fam))
  {
    assert DADDR == " " + "daddr" + " ";
  }

  lemma EchoText(fam: Family)
    ensures Icmp(fam) + ECHO == Icmp(fam) + " " + "type" + " " + "echo-request"
  {
    assert ECHO == " " + "type" + " " + "echo-request";
  }

  lemma CondTextWords(c: Cond, fam: Family)
    requires !c.NeighbourDiscovery?
    ensures CondText(c, fam) + " " == Spaced(CondWords(c, fam))
  {
    match c {
      case OifLo => LoText(); SpacedTwo("oifname", "\"lo\"");
      case Established => StateText(); SpacedThree("ct", "state", "established,related");
      case Marked => MarkText(); SpacedThree("meta", "mark", "0x1");
      case DaddrLoopback => DestinationText(fam, Allow); SpacedThree(Ip(fam), "daddr", LoopbackText(fam));
      case TcpDport(p) => PortText(p); SpacedThree("tcp", "dport", Digits(p));
      case UdpDport(p) => PortText(p); SpacedThree("udp", "dport", Digits(p));
      case DaddrIn(kind) => DestinationText(fam, kind); SpacedThree(Ip(fam), "daddr", "@" + SetName(kind, fam));
      case EchoRequest => EchoText(fam); SpacedThree(Icmp(fam), "type", "echo-request");
    }
  }

  lemma DiscoveryHead(rest: string)
    ensures Words("icmpv6 type { " + rest) == ["icmpv6", "type", "{"] + Words(rest)
  {
    assert "icmpv6 type { " == "icmpv6" + " " + "type" + " " + "{" + " ";
    SpacedThree("icmpv6", "type", "{");
    ThreeWords("icmpv6", "type", "{");
    SpacedWords(["icmpv6", "type", "{"], rest);
  }

  lemma SolicitWord(stem: string, rest: string)
    requires stem == "nd-neighbor-" || stem == "nd-router-"
    ensures Words(stem + "solicit, " + rest) == [stem + "solicit,"] + Words(rest)
  {
    assert stem + "solicit, " + rest == (stem + "solicit,") + " " + rest;
    WordThen(stem + "solicit,", rest);
  }

  lemma AdvertWord(rest: string)
    ensures Words("nd-neighbor-" + "advert, " + rest) == ["nd-neighbor-" + "advert,"] + Words(rest)
  {
    assert "nd-neighbor-" + "advert, " + rest == ("nd-neighbor-" + "advert,") + " " + rest;
    WordThen("nd-neighbor-" + "advert,", rest);
  }

  lemma LastAdvert(rest: string)
    ensures Words("nd-router-" + "advert } " + rest) == ["nd-router-" + "advert", "}"] + Words(rest)
  {
    AdvertParts();
    LastParts("nd-router-", "advert", "}", rest);
    JoinedWord("nd-router-", "advert");
    TwoThen("nd-router-" + "advert", "}", rest);
  }

  lemma AdvertParts()
    ensures "advert } " == "advert" + " " + "}" + " "
    ensures Word("nd-router-") && Word("advert") && Word("}")
  {
  }

  lemma LastParts(a: string, b: string, c: string, rest: string)
    ensures a + (b + " " + c + " ") + rest == (a + b) + " " + (c + " " + rest)
  {
  }

  lemma DiscoveryNames()
    ensures "nd-neighbor-" + "solicit," == "nd-neighbor-solicit," && "nd-neighbor-" + "advert," == "nd-neighbor-advert,"
    ensures "nd-router-" + "solicit," == "nd-router-solicit," && "nd-router-" + "advert" == "nd-router-advert"
  {
  }

  lemma EightWords(a: string, b: string, c: string, d: string, e: string, f: string, g: string, h: string, rest: seq<string>)
    ensures [a, b, c] + ([d] + ([e] + ([f] + ([g, h] + rest)))) == [a, b, c, d, e, f, g, h] + rest
  {
  }

  lemma DiscoveryWords(fam: Family, rest: string)
    ensures Words(CondText(NeighbourDiscovery, fam) + " " + rest) ==
            ["icmpv6", "type", "{", "nd-neighbor-" + "solicit,", "nd-neighbor-" + "advert,",
             "nd-router-" + "solicit,", "nd-router-" + "advert", "}"] + Words(rest)
  {
    var last := "nd-router-" + "advert } " + rest;
    var routers := "nd-router-" + "solicit, " + last;
    var adverts := "nd-neighbor-" + "advert, " + routers;
    var solicits := "nd-neighbor-" + "solicit, " + adverts;
    DiscoveryJoins(rest);
    DiscoveryHead(solicits);
    SolicitWord("nd-neighbor-", adverts);
    AdvertWord(routers);
    SolicitWord("nd-router-", last);
    LastAdvert(rest);
    EightWords("icmpv6", "type", "{", "nd-neighbor-" + "solicit,", "nd-neighbor-" + "advert,",
               "nd-router-" + "solicit,", "nd-router-" + "advert", "}", Words(rest));
  }

  lemma DiscoveryJoins(rest: string)
    ensures ND_TYPE + ND_SOLICIT + ND_ADVERT + ND_ROUTER_SOLICIT + ND_ROUTER_ADVERT + " " + rest ==
            "icmpv6 type { " + ("nd-neighbor-" + "solicit, " + ("nd-neighbor-" + "advert, " +
              ("nd-router-" + "solicit, " + ("nd-router-" + "advert } " + rest))))
  {
    assert ND_ROUTER_ADVERT + " " == "nd-router-" + "advert } ";
    Assoc(ND_TYPE + ND_SOLICIT + ND_ADVERT + ND_ROUTER_SOLICIT, ND_ROUTER_ADVERT, " ");
    var last := "nd-router-" + "advert } ";
    Assoc(ND_TYPE + ND_SOLICIT + ND_ADVERT + ND_ROUTER_SOLICIT, last, rest);
    Assoc(ND_TYPE + ND_SOLICIT + ND_ADVERT, ND_ROUTER_SOLICIT, last + rest);
    Assoc(ND_TYPE + ND_SOLICIT, ND_ADVERT, ND_ROUTER_SOLICIT + (last + rest));
    Assoc(ND_TYPE, ND_SOLICIT, ND_ADVERT + (ND_ROUTER_SOLICIT + (last + rest)));
  }

  lemma CondTextReads(c: Cond, fam: Family, rest: string)
    ensures Words(CondText(c, fam) + " " + rest) == CondWords(c, fam) + Words(rest)
  {
    if c.NeighbourDiscovery? {
      DiscoveryWords(fam, rest);
      DiscoveryNames();
    } else {
      CondTextWords(c, fam);
      PlainCondWords(c, fam);
      SpacedWords(CondWords(c, fam), rest);
    }
  }

  lemma DestinationRead(c: Cond, fam: Family)
    requires c.DaddrIn? || c.DaddrLoopback?
    ensures ReadDestination(fam, CondWords(c, fam)[2]) == Some(c)
  {
    if c.DaddrIn? {
      SetNameRead(c.kind, fam);
      assert ("@" + SetName(c.kind, fam))[1..] == SetName(c.kind, fam);
    }
  }

  lemma ThreeRead(c: Cond, fam: Family)
    requires !c.NeighbourDiscovery? && !c.OifLo?
    ensures |CondWords(c, fam)| == 3 && ReadThree(fam, CondWords(c, fam)[0], CondWords(c, fam)[1], CondWords(c, fam)[2]) == Some(c)
  {
    match c {
      case TcpDport(p) => ReadsDecimal(p);
      case UdpDport(p) => ReadsDecimal(p);
      case DaddrIn(_) => DestinationRead(c, fam);
      case DaddrLoopback => DestinationRead(c, fam);
      case _ =>
    }
  }

  /** A condition is no statement, and is read as itself. */
  lemma CondRead(c: Cond, fam: Family, ws: seq<string>)
    ensures ReadCond(fam, CondWords(c, fam) + ws) == Some((c, |CondWords(c, fam)|))
    ensures ReadStmt(CondWords(c, fam) + ws) == None
  {
    var all, own := CondWords(c, fam) + ws, CondWords(c, fam);
    if !c.NeighbourDiscovery? && !c.OifLo? {
      ThreeRead(c, fam);
      assert all[0] == own[0] && all[1] == own[1] && all[2] == own[2];
    }
  }

  // ---------------------------------------------------------------- statements

  function StmtWords(s: Stmt): seq<string> {
    match s
    case Log(p) => ["log", "prefix", "\"" + PrefixText(p) + "\"", "group", "0"]
    case Accept => ["accept"]
    case Drop => ["drop"]
    case Return => ["return"]
    case Redirect(p) => ["redirect", "to", ":" + Digits(p)]
  }

  lemma Quoted(w: string)
    requires Word(w)
    ensures Word("\"" + w + "\"")
  {
  }

  lemma PrefixWord(p: LogPrefix)
    ensures Word(PrefixText(p))
  {
    match p {
      case Blocked => assert Word("blocked");
      case Allowed => assert Word("allowed");
      case Audited => assert Word("audit");
      case Redirected => assert Word("redirected");
      case DnsRedirected => assert Word("dns_redirected");
    }
  }

  lemma PrefixRead(p: LogPrefix)
    ensures ReadPrefix("\"" + PrefixText(p) + "\"") == Some(p)
  {
    match p {
      case Blocked => assert "\"" + PrefixText(p) + "\"" == "\"blocked\"";
      case Allowed => assert "\"" + PrefixText(p) + "\"" == "\"allowed\"";
      case Audited => assert "\"" + PrefixText(p) + "\"" == "\"audit\"";
      case Redirected => assert "\"" + PrefixText(p) + "\"" == "\"redirected\"";
      case DnsRedirected => assert "\"" + PrefixText(p) + "\"" == "\"dns_redirected\"";
    }
  }

  lemma StmtRead(s: Stmt)
    ensures ReadStmt(StmtWords(s)) == Some(s)
  {
    match s {
      case Log(p) => PrefixRead(p);
      case Redirect(p) => ReadsDecimal(p); assert (":" + Digits(p))[1..] == Digits(p);
      case _ =>
    }
  }

  ghost predicate Tail(note: string) { note == "" || Stops(note[0]) }

  lemma LogTextWords(p: LogPrefix)
    ensures StmtText(Log(p)) == Spaced(["log", "prefix", "\"" + PrefixText(p) + "\""]) + "group" + " " + "0"
  {
    var prefix := PrefixText(p);
    SpacedThree("log", "prefix", "\"" + prefix + "\"");
    LogLiterals();
    LogParts("log" + " " + "prefix" + " ", prefix, "group" + " " + "0");
    Assoc(Spaced(["log", "prefix", "\"" + prefix + "\""]), "group", " ");
    Assoc(Spaced(["log", "prefix", "\"" + prefix + "\""]), "group" + " ", "0");
  }

  lemma LogLiterals()
    ensures LOG_PREFIX == "log" + " " + "prefix" + " " && GROUP == " " + ("group" + " " + "0")
  {
  }

  lemma LogParts(open: string, prefix: string, close: string)
    ensures open + "\"" + prefix + "\"" + (" " + close) == open + ("\"" + prefix + "\"") + " " + close
  {
  }

  lemma RedirectTextWords(p: nat)
    ensures StmtText(Redirect(p)) == Spaced(["redirect", "to"]) + (":" + Digits(p))
  {
    SpacedTwo("redirect", "to");
    assert REDIRECT == "redirect" + " " + "to" + " " + ":";
  }

  lemma FiveWords(a: string, b: string, c: string, d: string, e: string, rest: seq<string>)
    ensures [a, b, c] + ([d] + ([e] + rest)) == [a, b, c, d, e] + rest
  {
  }

  lemma FiveRead(a: string, b: string, c: string, d: string, e: string, note: string)
    requires Word(a) && Word(b) && Word(c) && Word(d) && Word(e) && Tail(note)
    ensures Words(Spaced([a, b, c]) + d + " " + e + note) == [a, b, c, d, e] + Words(note)
  {
    var front := Spaced([a, b, c]);
    Assoc(front, d, " ");
    Assoc(front, d + " ", e);
    Assoc(front, d + " " + e, note);
    Assoc(d + " ", e, note);
    ThreeWords(a, b, c);
    SpacedWords([a, b, c], d + " " + (e + note));
    WordThen(d, e + note);
    WordFirst(e, note);
    FiveWords(a, b, c, d, e, Words(note));
  }

  lemma LogReads(p: LogPrefix, note: string)
    requires Tail(note)
    ensures Words(StmtText(Log(p)) + note) == StmtWords(Log(p)) + Words(note)
  {
    LogTextWords(p);
    PrefixWord(p);
    Quoted(PrefixText(p));
    LogWords();
    FiveRead("log", "prefix", "\"" + PrefixText(p) + "\"", "group", "0", note);
  }

  lemma LogWords()
    ensures Word("log") && Word("prefix") && Word("group") && Word("0") && Word("redirect") && Word("to")
  {
  }

  lemma ThreeReadBack(a: string, b: string, c: string, note: string)
    requires Word(a) && Word(b) && Word(c) && Tail(note)
    ensures Words(Spaced([a, b]) + c + note) == [a, b, c] + Words(note)
  {
    Assoc(Spaced([a, b]), c, note);
    SpacedWords([a, b], c + note);
    WordFirst(c, note);
    assert [a, b] + ([c] + Words(note)) == [a, b, c] + Words(note);
  }

  lemma RedirectReads(p: nat, note: string)
    requires Tail(note)
    ensures Words(StmtText(Redirect(p)) + note) == StmtWords(Redirect(p)) + Words(note)
  {
    RedirectTextWords(p);
    ReadsDecimal(p);
    LogWords();
    ThreeReadBack("redirect", "to", ":" + Digits(p), note);
  }

  lemma VerdictWords()
    ensures Word("accept") && Word("drop") && Word("return")
  {
  }

  lemma StmtTextReads(s: Stmt, note: string)
    requires Tail(note)
    ensures Words(StmtText(s) + note) == StmtWords(s) + Words(note)
  {
    match s {
      case Log(p) => LogReads(p, note);
      case Redirect(p) => RedirectReads(p, note);
      case Accept => VerdictWords(); WordFirst("accept", note);
      case Drop => VerdictWords(); WordFirst("drop", note);
      case Return => VerdictWords(); WordFirst("return", note);
    }
  }

  // ---------------------------------------------------------------- rules

  function CondsWords(conds: seq<Cond>, fam: Family): seq<string> {
    if conds == [] then [] else CondWords(conds[0], fam) + CondsWords(conds[1..], fam)
  }

  lemma {:induction false} CondsTextReads(conds: seq<Cond>, fam: Family, rest: string)
    ensures Words(CondsText(conds, fam) + rest) == CondsWords(conds, fam) + Words(rest)
  {
    if conds == [] {
      assert CondsText(conds, fam) + rest == rest;
    } else {
      Assoc(CondText(conds[0], fam) + " ", CondsText(conds[1..], fam), rest);
      CondTextReads(conds[0], fam, CondsText(conds[1..], fam) + rest);
      CondsTextReads(conds[1..], fam, rest);
      Assoc(CondWords(conds[0], fam), CondsWords(conds[1..], fam), Words(rest));
    }
  }

  lemma {:induction false} RuleRead(conds: seq<Cond>, stmt: Stmt, fam: Family)
    ensures ReadRule(fam, CondsWords(conds, fam) + StmtWords(stmt)) == Some(Bare(conds, stmt))
  {
    if conds == [] {
      StmtRead(stmt);
      assert CondsWords(conds, fam) + StmtWords(stmt) == StmtWords(stmt);
    } else {
      var rest := CondsWords(conds[1..], fam) + StmtWords(stmt);
      Assoc(CondWords(conds[0], fam), CondsWords(conds[1..], fam), StmtWords(stmt));
      RuleRead(conds[1..], stmt, fam);
      CondFirst(conds[0], fam, rest, Bare(conds[1..], stmt));
      assert [conds[0]] + conds[1..] == conds;
    }
  }

  lemma CondFirst(c: Cond, fam: Family, ws: seq<string>, rest: Bare)
    requires ReadRule(fam, ws) == Some(rest)
    ensures ReadRule(fam, CondWords(c, fam) + ws) == Some(Bare([c] + rest.conds, rest.stmt))
  {
    CondRead(c, fam, ws);
    assert (CondWords(c, fam) + ws)[|CondWords(c, fam)|..] == ws;
  }

  /** Alignment and a trailing comment are no part of a rule. */
  ghost predicate Readable(r: Rule) { Blank(r.pad) && Tail(r.note) && Words(r.note) == [] }

  function Stripped(r: Rule): Bare { Bare(r.conds, r.stmt) }

  lemma RuleTextWords(conds: seq<Cond>, fam: Family, pad: string, stmt: Stmt, note: string)
    requires Blank(pad) && Tail(note) && Words(note) == []
    ensures Words(INDENT + CondsText(conds, fam) + pad + StmtText(stmt) + note) == CondsWords(conds, fam) + StmtWords(stmt)
  {
    var text, end := CondsText(conds, fam), StmtText(stmt) + note;
    RuleLineParts(INDENT, text, pad, StmtText(stmt), note);
    IndentIsBlank();
    BlankFirst(INDENT, text + (pad + end));
    CondsTextReads(conds, fam, pad + end);
    BlankFirst(pad, end);
    StmtTextReads(stmt, note);
    assert StmtWords(stmt) + [] == StmtWords(stmt);
  }

  lemma IndentIsBlank()
    ensures Blank(INDENT)
  {
  }

  lemma RuleLineReads(fam: Family, r: Rule)
    requires Readable(r)
    ensures ReadRule(fam, Words(LineText(RuleLine(fam, r)))) == Some(Stripped(r))
  {
    RuleTextWords(r.conds, fam, r.pad, r.stmt, r.note);
    RuleRead(r.conds, r.stmt, fam);
  }

  lemma RuleLineParts(indent: string, conds: string, pad: string, stmt: string, note: string)
    ensures indent + conds + pad + stmt + note == indent + (conds + (pad + (stmt + note)))
  {
    Assoc(indent + conds + pad, stmt, note);
    Assoc(indent + conds, pad, stmt + note);
    Assoc(indent, conds, pad + (stmt + note));
  }
}

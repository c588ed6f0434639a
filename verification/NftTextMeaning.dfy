/** What a generated text says: reading it gives the tables of the program, and a packet fares
    under them as the program decides. */
module NftTextMeaning {
  import opened GoStrings
  import opened Sequences
  import opened Streams
  import opened Nft
  import opened NftTemplates
  import opened NftAudit
  import opened NftReader
  import opened NftReadBack

  // ---------------------------------------------------------------- words of frames and headers

  lemma LineWords(line: string, indent: string, ws: seq<string>, last: string)
    requires Blank(indent) && AllWords(ws) && Word(last) && line == indent + (Spaced(ws) + last)
    ensures Words(line) == ws + [last]
  {
    BlankFirst(indent, Spaced(ws) + last);
    SpacedWords(ws, last);
    assert last + "" == last;
    WordFirst(last, "");
    assert [last] + Words("") == [last];
  }

  lemma NoWords(s: string)
    ensures Words("") == [] && Words(LineText(Comment(s))) == []
    requires Clean(s)
  {
    assert INDENT + "# " + s == INDENT + ("# " + s);
    BlankFirst(INDENT, "# " + s);
  }

  lemma CloseWords()
    ensures Words(BLOCK_CLOSE) == ["}"] && Words(TABLE_CLOSE) == ["}"]
  {
    assert BLOCK_CLOSE == "    " + "}";
    BlankFirst("    ", "}");
    assert "}" + "" == "}";
    WordFirst("}", "");
  }

  function TableName(fam: Family, nat_: bool): string {
    match fam
    case V4 => if nat_ then "g0efilter_nat_v4" else "g0efilter_v4"
    case V6 => if nat_ then "g0efilter_nat_v6" else "g0efilter_v6"
  }

  lemma TableNameText(fam: Family, nat_: bool)
    ensures (if nat_ then NAT_NAME else FILTER_NAME) + Suffix(fam) == " " + TableName(fam, nat_)
    ensures Word(TableName(fam, nat_))
  {
  }

  lemma TableOpenWords(t: Table)
    ensures Words(TableOpen(t)) == ["table", Ip(t.fam), TableName(t.fam, t.hook.NatOutput?), "{"]
    ensures ReadTableName(Words(TableOpen(t))) == Some(WithinTable(t.fam, t.hook.NatOutput?, []))
  {
    var ip, name := Ip(t.fam), TableName(t.fam, t.hook.NatOutput?);
    TableNameText(t.fam, t.hook.NatOutput?);
    FamilyWords(t.fam);
    SpacedThree("table", ip, name);
    ThreeWords("table", ip, name);
    assert TABLE_WORD == "table" + " " && BLOCK_OPEN == " " + "{";
    TableOpenParts(ip, if t.hook.NatOutput? then NAT_NAME else FILTER_NAME, Suffix(t.fam), name);
    LineWords(TableOpen(t), "", ["table", ip, name], "{");
  }

  lemma TableOpenParts(ip: string, front: string, suffix: string, name: string)
    requires front + suffix == " " + name
    ensures "table" + " " + ip + front + suffix + (" " + "{") == "" + ("table" + " " + ip + " " + name + " " + "{")
  {
    Assoc("table" + " " + ip, front, suffix);
  }

  lemma ChainNameText(fam: Family)
    ensures "egress_" + "allowlist_" + Suffix(fam) == (if fam.V4? then "egress_allowlist_v4" else "egress_allowlist_v6")
    ensures Word("egress_" + "allowlist_" + Suffix(fam)) && Word("chain") && Word("output")
  {
  }

  lemma ChainOpenWords(t: Table)
    ensures var ws := Words(ChainOpen(t));
            |ws| == 3 && ws[0] == "chain" && ws[2] == "{" && IsChainName(t.fam, t.hook.NatOutput?, ws[1])
  {
    ChainNameText(t.fam);
    assert Blank("    ") && BLOCK_OPEN == " " + "{";
    if t.hook.NatOutput? {
      SpacedTwo("chain", "output");
      assert "    chain " == "    " + ("chain" + " ") && "output {" == "output" + " " + "{";
      LineWords(ChainOpen(t), "    ", ["chain", "output"], "{");
    } else {
      var name := "egress_" + "allowlist_" + Suffix(t.fam);
      SpacedTwo("chain", name);
      assert "    chain " == "    " + ("chain" + " ");
      ChainParts(Suffix(t.fam));
      LineWords(ChainOpen(t), "    ", ["chain", name], "{");
    }
  }

  lemma ChainParts(suffix: string)
    ensures "    " + ("chain" + " ") + "egress_" + "allowlist_" + suffix + (" " + "{") ==
            "    " + ("chain" + " " + ("egress_" + "allowlist_" + suffix) + " " + "{")
  {
  }

  lemma SetOpenWords(kind: SetKind, fam: Family)
    ensures Words(SET_OPEN + SetName(kind, fam) + BLOCK_OPEN) == ["set", SetName(kind, fam), "{"]
  {
    var name := SetName(kind, fam);
    SetNameWord(kind, fam);
    SpacedTwo("set", name);
    assert SET_OPEN == "    " + ("set" + " ") && BLOCK_OPEN == " " + "{" && Blank("    ");
    SetOpenParts(name);
    LineWords(SET_OPEN + name + BLOCK_OPEN, "    ", ["set", name], "{");
  }

  lemma SetOpenParts(name: string)
    ensures "    " + ("set" + " ") + name + (" " + "{") == "    " + ("set" + " " + name + " " + "{")
  {
  }

  function AddrType(fam: Family): string { if fam.V4? then "ipv4_addr" else "ipv6_addr" }

  lemma SetTypeWords(fam: Family)
    ensures Words(SET_TYPE + Suffix(fam) + SET_ADDR) == ["type", AddrType(fam)]
  {
    assert "ip" + Suffix(fam) + SET_ADDR == AddrType(fam) && Word(AddrType(fam)) && Word("type");
    assert "type ip" == "type" + " " + "ip" && Blank(INDENT);
    SetTypeParts(Suffix(fam), SET_ADDR);
    assert Spaced(["type"]) == "type" + " ";
    LineWords(SET_TYPE + Suffix(fam) + SET_ADDR, INDENT, ["type"], AddrType(fam));
  }

  lemma SetTypeParts(suffix: string, addr: string)
    ensures INDENT + ("type" + " " + "ip") + suffix + addr == INDENT + ("type" + " " + ("ip" + suffix + addr))
  {
  }

  lemma FlagsWords()
    ensures Words(FLAGS_TIMEOUT) == ["flags", "timeout"] && Words(FLAGS_INTERVAL) == ["flags", "interval"]
  {
    assert Blank(INDENT) && Word("flags") && Word("timeout") && Word("interval");
    assert Spaced(["flags"]) == "flags" + " ";
    assert "flags timeout" == "flags" + " " + "timeout";
    assert "flags " == "flags" + " ";
    LineWords(FLAGS_TIMEOUT, INDENT, ["flags"], "timeout");
    assert INDENT + "flags " + "interval" == INDENT + ("flags " + "interval");
    LineWords(FLAGS_INTERVAL, INDENT, ["flags"], "interval");
  }

  // ---------------------------------------------------------------- elements

  function ElementWords(elements: seq<string>): seq<string>
    requires elements != []
  {
    if |elements| == 1 then [elements[0] + "}"] else [elements[0] + ","] + ElementWords(elements[1..])
  }

  ghost predicate PlainElements(elements: seq<string>) { forall i :: 0 <= i < |elements| ==> PlainElement(elements[i]) }

  lemma {:induction false} ElementsRead(elements: seq<string>)
    requires elements != [] && PlainElements(elements)
    ensures ReadElements(ElementWords(elements)) == Some(elements)
  {
    var e, ws := elements[0], ElementWords(elements);
    assert (e + "}")[..|e|] == e && (e + ",")[..|e|] == e;
    if |elements| == 1 {
      assert elements == [e];
    } else {
      ElementsRead(elements[1..]);
      assert ws[1..] == ElementWords(elements[1..]);
      assert [e] + elements[1..] == elements;
    }
  }

  lemma LastElement(lead: string, e: string)
    requires PlainElement(e) && forall i :: 0 <= i < |lead| ==> !Stops(lead[i])
    ensures Words(lead + e + "}") == [lead + (e + "}")]
  {
    Assoc(lead, e, "}");
    assert lead + (e + "}") + "" == lead + (e + "}");
    WordFirst(lead + (e + "}"), "");
    assert [lead + (e + "}")] + [] == [lead + (e + "}")];
  }

  lemma NextElement(lead: string, e: string, rest: string)
    requires PlainElement(e) && forall i :: 0 <= i < |lead| ==> !Stops(lead[i])
    ensures Words(lead + (e + ", " + rest) + "}") == [lead + (e + ",")] + Words(rest + "}")
  {
    ElementParts(lead, e, rest);
    WordThen(lead + (e + ","), rest + "}");
  }

  lemma {:induction false} ElementsWords(lead: string, elements: seq<string>)
    requires elements != [] && PlainElements(elements) && forall i :: 0 <= i < |lead| ==> !Stops(lead[i])
    ensures Words(lead + Join(elements, ", ") + "}") == [lead + ElementWords(elements)[0]] + ElementWords(elements)[1..]
    decreases |elements|
  {
    var e := elements[0];
    if |elements| == 1 {
      LastElement(lead, e);
    } else {
      var rest := Join(elements[1..], ", ");
      NextElement(lead, e, rest);
      ElementsWords("", elements[1..]);
      assert "" + rest + "}" == rest + "}";
      assert "" + ElementWords(elements[1..])[0] == ElementWords(elements[1..])[0];
      assert ElementWords(elements)[1..] == ElementWords(elements[1..]);
    }
  }

  lemma ElementParts(lead: string, e: string, rest: string)
    ensures lead + (e + ", " + rest) + "}" == lead + (e + ",") + " " + (rest + "}")
  {
  }

  lemma ElementsLineWords(elements: seq<CleanText>)
    requires elements != [] && PlainElements(elements)
    ensures Words(ElementsText(elements)) == ["elements", "=", "{" + ElementWords(elements)[0]] + ElementWords(elements)[1..]
  {
    var joined := Join(elements, ", ");
    var rest := "{" + joined + "}";
    ElementsLineParts(joined);
    ElementsLiterals();
    BlankFirst(INDENT, "elements" + " " + ("=" + " " + rest));
    TwoThen("elements", "=", rest);
    ElementsWords("{", elements);
    assert ["elements", "="] + (["{" + ElementWords(elements)[0]] + ElementWords(elements)[1..]) ==
           ["elements", "=", "{" + ElementWords(elements)[0]] + ElementWords(elements)[1..];
  }

  lemma ElementsLiterals()
    ensures ELEMENTS_OPEN == INDENT + ("elements" + " " + "=" + " " + "{") && TABLE_CLOSE == "}"
    ensures Blank(INDENT) && Word("elements") && Word("=") && !Stops('{')
  {
    assert "elements = {" == "elements" + " " + "=" + " " + "{";
  }

  lemma ElementsLineParts(joined: string)
    ensures INDENT + ("elements" + " " + "=" + " " + "{") + joined + "}" ==
            INDENT + ("elements" + " " + ("=" + " " + ("{" + joined + "}")))
  {
  }

  // ---------------------------------------------------------------- headers

  lemma HeaderWordsOk()
    ensures Word("type") && Word("nat") && Word("filter") && Word("hook") && Word("output") && Word("priority")
    ensures Word("-100;") && Word("filter;") && Word("policy") && Word("drop;") && Word("accept;")
  {
  }

  lemma SpacedFive(a: string, b: string, c: string, d: string, e: string)
    ensures Spaced([a, b, c, d, e]) == a + " " + b + " " + c + " " + d + " " + e + " "
  {
    assert [a, b, c, d, e][1..] == [b, c, d, e] && [b, c, d, e][1..] == [c, d, e];
    SpacedThree(c, d, e);
  }

  lemma AllFive(a: string, b: string, c: string, d: string, e: string)
    requires Word(a) && Word(b) && Word(c) && Word(d) && Word(e)
    ensures AllWords([a, b, c, d, e])
  {
  }

  lemma NatHeaderRead()
    ensures ReadHook(true, Words(LineText(Header(NatOutput)))) == Some(NatOutput)
  {
    var ws := ["type", "nat", "hook", "output", "priority"];
    HeaderWordsOk();
    AllFive("type", "nat", "hook", "output", "priority");
    SpacedFive("type", "nat", "hook", "output", "priority");
    assert Blank(INDENT);
    NatHeaderParts();
    LineWords(NAT_HEADER, INDENT, ws, "-100;");
  }

  lemma NatHeaderParts()
    ensures NAT_HEADER == INDENT + ("type" + " " + "nat" + " " + "hook" + " " + "output" + " " + "priority" + " " + "-100;")
  {
    assert "type nat " == "type" + " " + "nat" + " " && "hook output " == "hook" + " " + "output" + " ";
    assert "priority -100;" == "priority" + " " + "-100;";
  }

  lemma LongLine(indent: string, ws: seq<string>, a: string, b: string, c: string)
    requires Blank(indent) && AllWords(ws) && Word(a) && Word(b) && Word(c)
    ensures Words(indent + (Spaced(ws) + (a + " " + (b + " " + c)))) == ws + [a, b, c]
  {
    var end := b + " " + c;
    BlankFirst(indent, Spaced(ws) + (a + " " + end));
    SpacedWords(ws, a + " " + end);
    WordThen(a, end);
    WordThen(b, c);
    assert c + "" == c;
    WordFirst(c, "");
    assert [a] + ([b] + ([c] + [])) == [a, b, c];
  }

  lemma FilterHeaderRead(drop: bool)
    ensures ReadHook(false, Words(LineText(Header(FilterOutput(drop))))) == Some(FilterOutput(drop))
  {
    var policy := if drop then "drop;" else "accept;";
    HeaderWordsOk();
    AllFive("type", "filter", "hook", "output", "priority");
    SpacedFive("type", "filter", "hook", "output", "priority");
    assert Blank(INDENT);
    assert (if drop then "policy drop;" else "policy accept;") == "policy" + " " + policy;
    FilterHeaderParts("policy" + " " + policy);
    LongLine(INDENT, ["type", "filter", "hook", "output", "priority"], "filter;", "policy", policy);
  }

  lemma FilterHeaderParts(end: string)
    ensures FILTER_HEADER + end ==
            INDENT + ("type" + " " + "filter" + " " + "hook" + " " + "output" + " " + "priority" + " " + ("filter;" + " " + end))
  {
    assert "type filter " == "type" + " " + "filter" + " " && "hook output " == "hook" + " " + "output" + " ";
    assert "priority filter; " == "priority" + " " + "filter;" + " ";
  }

  // ---------------------------------------------------------------- tables

  function ErasedSet(d: SetDecl): ReadSet {
    match d
    case Interval(kind, elements) => Listed(kind, elements)
    case Timed(kind) => Filled(kind)
  }

  function ErasedSets(sets: seq<SetDecl>): seq<ReadSet> {
    if sets == [] then [] else [ErasedSet(sets[0])] + ErasedSets(sets[1..])
  }

  function ErasedRules(rules: seq<Rule>): seq<Bare> {
    if rules == [] then [] else [Stripped(rules[0])] + ErasedRules(rules[1..])
  }

  function ErasedStanzas(stanzas: seq<Stanza>): seq<Bare> {
    if stanzas == [] then [] else ErasedRules(stanzas[0].rules) + ErasedStanzas(stanzas[1..])
  }

  /** A table without comments, alignment and blank lines. */
  function Erased(t: Table): ReadTable {
    ReadTable(t.fam, ErasedSets(t.sets), t.hook, ErasedStanzas(t.stanzas))
  }

  function After(s: State, lines: seq<Line>): State
    decreases |lines|
  {
    if lines == [] then s else After(Step(s, Words(LineText(lines[0]))), lines[1..])
  }

  lemma {:induction false} AfterConcat(s: State, a: seq<Line>, b: seq<Line>)
    ensures After(s, a + b) == After(After(s, a), b)
    decreases |a|
  {
    if a == [] {
      assert a + b == b;
    } else {
      assert (a + b)[1..] == a[1..] + b;
      AfterConcat(Step(s, Words(LineText(a[0]))), a[1..], b);
    }
  }

  lemma AfterOne(s: State, l: Line)
    ensures After(s, [l]) == Step(s, Words(LineText(l)))
  {
    assert [l][1..] == [];
  }

  lemma AfterTwo(s: State, l: Line, m: Line)
    ensures After(s, [l, m]) == Step(Step(s, Words(LineText(l))), Words(LineText(m)))
  {
    assert [l, m][1..] == [m];
    AfterOne(Step(s, Words(LineText(l))), m);
  }

  lemma BlankLine(s: State)
    ensures After(s, [Frame("")]) == s
  {
    AfterOne(s, Frame(""));
  }

  lemma {:induction false} JoinEmpty(elements: seq<string>)
    requires PlainElements(elements)
    ensures Join(elements, ", ") == "" <==> elements == []
  {
    if elements != [] { assert PlainElement(elements[0]); }
  }

  ghost predicate SetFits(d: SetDecl) { d.Interval? ==> PlainElements(d.elements) }

  lemma SetHeadReads(done: seq<ReadTable>, fam: Family, nat_: bool, sets: seq<ReadSet>, kind: SetKind)
    ensures After(State(done, WithinTable(fam, nat_, sets)),
                  [Frame(SET_OPEN + SetName(kind, fam) + BLOCK_OPEN), Frame(SET_TYPE + Suffix(fam) + SET_ADDR)]) ==
            State(done, WithinSet(fam, nat_, sets, kind, true, None))
  {
    SetOpenWords(kind, fam);
    SetTypeWords(fam);
    SetNameRead(kind, fam);
    AfterTwo(State(done, WithinTable(fam, nat_, sets)), Frame(SET_OPEN + SetName(kind, fam) + BLOCK_OPEN), Frame(SET_TYPE + Suffix(fam) + SET_ADDR));
  }

  lemma ElementsLineReads(done: seq<ReadTable>, p: Phase, elements: seq<CleanText>)
    requires elements != [] && PlainElements(elements) && p.WithinSet? && p.set_ == Some(Listed(p.kind, []))
    ensures After(State(done, p), [Frame(ElementsText(elements))]) == State(done, p.(set_ := Some(Listed(p.kind, elements))))
  {
    var items, ws := ElementWords(elements), Words(ElementsText(elements));
    ElementsLineWords(elements);
    ElementsRead(elements);
    assert ("{" + items[0])[1..] == items[0] && ws[3..] == items[1..];
    assert [ws[2][1..]] + ws[3..] == items;
    AfterOne(State(done, p), Frame(ElementsText(elements)));
  }

  lemma FlagsRead(done: seq<ReadTable>, p: Phase, timed: bool)
    requires p.WithinSet?
    ensures After(State(done, p), [Frame(if timed then FLAGS_TIMEOUT else FLAGS_INTERVAL)]) ==
            State(done, p.(set_ := Some(if timed then Filled(p.kind) else Listed(p.kind, []))))
  {
    FlagsWords();
    AfterOne(State(done, p), Frame(if timed then FLAGS_TIMEOUT else FLAGS_INTERVAL));
  }

  lemma SetCloses(done: seq<ReadTable>, p: Phase)
    requires p.WithinSet? && p.typed && p.set_.Some?
    ensures After(State(done, p), [Frame(BLOCK_CLOSE)]) == State(done, WithinTable(p.fam, p.nat_, p.sets + [p.set_.value]))
  {
    CloseWords();
    AfterOne(State(done, p), Frame(BLOCK_CLOSE));
  }

  lemma SetReads(done: seq<ReadTable>, fam: Family, nat_: bool, sets: seq<ReadSet>, d: SetDecl)
    requires SetFits(d)
    ensures After(State(done, WithinTable(fam, nat_, sets)), SetLines(d, fam)) == State(done, WithinTable(fam, nat_, sets + [ErasedSet(d)]))
  {
    var s := State(done, WithinTable(fam, nat_, sets));
    var head := [Frame(SET_OPEN + SetName(d.kind, fam) + BLOCK_OPEN), Frame(SET_TYPE + Suffix(fam) + SET_ADDR)];
    var open := WithinSet(fam, nat_, sets, d.kind, true, None);
    var flags := [Frame(if d.Timed? then FLAGS_TIMEOUT else FLAGS_INTERVAL)];
    var items := if d.Timed? || Join(d.elements, ", ") == "" then [] else [Frame(ElementsText(d.elements))];
    var flagged := open.(set_ := Some(if d.Timed? then Filled(d.kind) else Listed(d.kind, [])));
    assert SetLines(d, fam) == head + flags + items + [Frame(BLOCK_CLOSE)];
    AfterConcat(s, head + flags + items, [Frame(BLOCK_CLOSE)]);
    AfterConcat(s, head + flags, items);
    AfterConcat(s, head, flags);
    SetHeadReads(done, fam, nat_, sets, d.kind);
    FlagsRead(done, open, d.Timed?);
    if d.Interval? {
      JoinEmpty(d.elements);
      if d.elements != [] { ElementsLineReads(done, flagged, d.elements); }
    }
    SetCloses(done, flagged.(set_ := Some(ErasedSet(d))));
  }

  lemma {:induction false} SetsRead(done: seq<ReadTable>, fam: Family, nat_: bool, before: seq<ReadSet>, sets: seq<SetDecl>)
    requires forall i :: 0 <= i < |sets| ==> SetFits(sets[i])
    ensures After(State(done, WithinTable(fam, nat_, before)), AllSetLines(sets, fam)) ==
            State(done, WithinTable(fam, nat_, before + ErasedSets(sets)))
    decreases |sets|
  {
    if sets == [] {
      assert before + ErasedSets(sets) == before;
    } else {
      var s, next := State(done, WithinTable(fam, nat_, before)), State(done, WithinTable(fam, nat_, before + [ErasedSet(sets[0])]));
      var gap := if |sets| == 1 || sets[1].Timed? then [Frame("")] else [];
      assert SetFits(sets[0]);
      AfterConcat(s, SetLines(sets[0], fam) + gap, AllSetLines(sets[1..], fam));
      AfterConcat(s, SetLines(sets[0], fam), gap);
      SetReads(done, fam, nat_, before, sets[0]);
      BlankLine(next);
      SetsRead(done, fam, nat_, before + [ErasedSet(sets[0])], sets[1..]);
      Assoc(before, [ErasedSet(sets[0])], ErasedSets(sets[1..]));
    }
  }

  // ---------------------------------------------------------------- chains

  lemma NoRule(fam: Family)
    ensures ReadRule(fam, []) == None && ReadRule(fam, ["}"]) == None
  {
  }

  lemma RuleReads(done: seq<ReadTable>, t: ReadTable, r: Rule)
    requires Readable(r)
    ensures After(State(done, WithinChain(t)), [RuleLine(t.fam, r)]) == State(done, WithinChain(t.(rules := t.rules + [Stripped(r)])))
  {
    RuleLineReads(t.fam, r);
    RuleStep(done, t, Words(LineText(RuleLine(t.fam, r))), Stripped(r));
    AfterOne(State(done, WithinChain(t)), RuleLine(t.fam, r));
  }

  lemma RuleStep(done: seq<ReadTable>, t: ReadTable, ws: seq<string>, r: Bare)
    requires ReadRule(t.fam, ws) == Some(r)
    ensures Step(State(done, WithinChain(t)), ws) == State(done, WithinChain(t.(rules := t.rules + [r])))
  {
    NoRule(t.fam);
    assert ws != ["}"] && ws != [];
  }

  lemma {:induction false} RulesRead(done: seq<ReadTable>, t: ReadTable, rules: seq<Rule>)
    requires forall i :: 0 <= i < |rules| ==> Readable(rules[i])
    ensures After(State(done, WithinChain(t)), RuleLines(rules, t.fam)) ==
            State(done, WithinChain(t.(rules := t.rules + ErasedRules(rules))))
    decreases |rules|
  {
    if rules == [] {
      assert t.rules + [] == t.rules;
    } else {
      var more := t.(rules := t.rules + [Stripped(rules[0])]);
      assert RuleLines(rules, t.fam) == [RuleLine(t.fam, rules[0])] + RuleLines(rules[1..], t.fam);
      AfterConcat(State(done, WithinChain(t)), [RuleLine(t.fam, rules[0])], RuleLines(rules[1..], t.fam));
      RuleReads(done, t, rules[0]);
      RulesRead(done, more, rules[1..]);
      Assoc(t.rules, [Stripped(rules[0])], ErasedRules(rules[1..]));
    }
  }

  ghost predicate RulesFit(rules: seq<Rule>) { forall i :: 0 <= i < |rules| ==> Readable(rules[i]) }

  ghost predicate StanzasFit(stanzas: seq<Stanza>) { forall i :: 0 <= i < |stanzas| ==> RulesFit(stanzas[i].rules) }

  lemma {:induction false} StanzasRead(done: seq<ReadTable>, t: ReadTable, stanzas: seq<Stanza>)
    requires StanzasFit(stanzas)
    ensures After(State(done, WithinChain(t)), StanzaLines(stanzas, t.fam)) ==
            State(done, WithinChain(t.(rules := t.rules + ErasedStanzas(stanzas))))
    decreases |stanzas|
  {
    if stanzas == [] {
      assert t.rules + [] == t.rules;
    } else {
      var s, first := State(done, WithinChain(t)), stanzas[0];
      var head, rules := [Frame(""), Comment(first.comment)], RuleLines(first.rules, t.fam);
      var more := t.(rules := t.rules + ErasedRules(first.rules));
      AfterConcat(s, head + rules, StanzaLines(stanzas[1..], t.fam));
      AfterConcat(s, head, rules);
      AfterTwo(s, Frame(""), Comment(first.comment));
      NoWords(first.comment);
      assert RulesFit(first.rules);
      RulesRead(done, t, first.rules);
      StanzasRead(done, more, stanzas[1..]);
      Assoc(t.rules, ErasedRules(first.rules), ErasedStanzas(stanzas[1..]));
    }
  }

  // ---------------------------------------------------------------- whole texts

  ghost predicate TableFits(t: Table) {
    (forall i :: 0 <= i < |t.sets| ==> SetFits(t.sets[i])) && StanzasFit(t.stanzas)
  }

  lemma TableOpens(done: seq<ReadTable>, t: Table)
    ensures After(State(done, Between), [Frame(""), Frame(TableOpen(t))]) == State(done, WithinTable(t.fam, t.hook.NatOutput?, []))
  {
    NoWords("");
    TableOpenWords(t);
    AfterTwo(State(done, Between), Frame(""), Frame(TableOpen(t)));
  }

  lemma ChainOpenReads(done: seq<ReadTable>, t: Table, sets: seq<ReadSet>)
    ensures Step(State(done, WithinTable(t.fam, t.hook.NatOutput?, sets)), Words(ChainOpen(t))) ==
            State(done, BeforeHook(t.fam, t.hook.NatOutput?, sets))
  {
    ChainOpenWords(t);
  }

  lemma HookReads(done: seq<ReadTable>, t: Table, sets: seq<ReadSet>)
    ensures Step(State(done, BeforeHook(t.fam, t.hook.NatOutput?, sets)), Words(LineText(Header(t.hook)))) ==
            State(done, WithinChain(ReadTable(t.fam, sets, t.hook, [])))
  {
    HeaderRead(t.hook);
    HookStep(done, t, sets, Words(LineText(Header(t.hook))));
  }

  lemma HeaderRead(hook: Hook)
    ensures ReadHook(hook.NatOutput?, Words(LineText(Header(hook)))) == Some(hook)
  {
    match hook {
      case NatOutput => NatHeaderRead();
      case FilterOutput(drop) => FilterHeaderRead(drop);
    }
  }

  lemma HookStep(done: seq<ReadTable>, t: Table, sets: seq<ReadSet>, ws: seq<string>)
    requires ReadHook(t.hook.NatOutput?, ws) == Some(t.hook)
    ensures Step(State(done, BeforeHook(t.fam, t.hook.NatOutput?, sets)), ws) ==
            State(done, WithinChain(ReadTable(t.fam, sets, t.hook, [])))
  {
  }

  lemma ChainOpens(done: seq<ReadTable>, t: Table, sets: seq<ReadSet>)
    ensures After(State(done, WithinTable(t.fam, t.hook.NatOutput?, sets)), [Frame(ChainOpen(t)), Header(t.hook)]) ==
            State(done, WithinChain(ReadTable(t.fam, sets, t.hook, [])))
  {
    ChainOpenReads(done, t, sets);
    HookReads(done, t, sets);
    AfterTwo(State(done, WithinTable(t.fam, t.hook.NatOutput?, sets)), Frame(ChainOpen(t)), Header(t.hook));
  }

  lemma TableCloses(done: seq<ReadTable>, t: ReadTable)
    ensures After(State(done, WithinChain(t)), [Frame(BLOCK_CLOSE), Frame(TABLE_CLOSE)]) == State(done + [t], Between)
  {
    CloseWords();
    AfterTwo(State(done, WithinChain(t)), Frame(BLOCK_CLOSE), Frame(TABLE_CLOSE));
  }

  lemma TableReads(done: seq<ReadTable>, t: Table)
    requires TableFits(t)
    ensures After(State(done, Between), TableLines(t)) == State(done + [Erased(t)], Between)
  {
    var s := State(done, Between);
    var open, sets := [Frame(""), Frame(TableOpen(t))], AllSetLines(t.sets, t.fam);
    var chain, body := [Frame(ChainOpen(t)), Header(t.hook)], StanzaLines(t.stanzas, t.fam);
    var close := [Frame(BLOCK_CLOSE), Frame(TABLE_CLOSE)];
    AfterConcat(s, open + sets + chain + body, close);
    AfterConcat(s, open + sets + chain, body);
    AfterConcat(s, open + sets, chain);
    AfterConcat(s, open, sets);
    TableOpens(done, t);
    SetsRead(done, t.fam, t.hook.NatOutput?, [], t.sets);
    assert [] + ErasedSets(t.sets) == ErasedSets(t.sets);
    ChainOpens(done, t, ErasedSets(t.sets));
    var started := ReadTable(t.fam, ErasedSets(t.sets), t.hook, []);
    StanzasRead(done, started, t.stanzas);
    assert [] + ErasedStanzas(t.stanzas) == ErasedStanzas(t.stanzas);
    TableCloses(done, Erased(t));
  }

  // ---------------------------------------------------------------- from lines to text

  lemma {:induction false} SplitLine(line: string, rest: string)
    requires Lacks(line, '\n')
    ensures Split(line + "\n" + rest, '\n') == [line] + Split(rest, '\n')
  {
    var s := line + "\n" + rest;
    if line == "" {
      assert s[1..] == rest && s[0] == '\n';
    } else {
      assert s[1..] == line[1..] + "\n" + rest && s[0] == line[0];
      SplitLine(line[1..], rest);
      assert [line[0]] + line[1..] == line;
    }
  }

  lemma {:induction false} TextReads(s: State, lines: seq<Line>)
    requires forall i :: 0 <= i < |lines| ==> LineOk(lines[i])
    ensures ReadLines(s, Split(Text(lines), '\n')) == After(s, lines)
    decreases |lines|
  {
    if lines == [] {
      NoWords("");
      assert Split("", '\n') == [""] && [""][1..] == [];
    } else {
      assert LineOk(lines[0]);
      LineLacksNewline(lines[0]);
      SplitLine(LineText(lines[0]), Text(lines[1..]));
      var parts := Split(Text(lines), '\n');
      assert parts[0] == LineText(lines[0]) && parts[1..] == Split(Text(lines[1..]), '\n');
      TextReads(Step(s, Words(LineText(lines[0]))), lines[1..]);
    }
  }

  ghost predicate RulesetFits(r: Ruleset) {
    TableFits(r.filterV4) && TableFits(r.natV4) && TableFits(r.filterV6) && TableFits(r.natV6)
  }

  lemma RulesetReads(r: Ruleset)
    requires RulesetFits(r) && LinesOk(RulesetLines(r))
    ensures Read(RulesetText(r)) == Some([Erased(r.filterV4), Erased(r.natV4), Erased(r.filterV6), Erased(r.natV6)])
  {
    RulesetTextOfLines(r);
    TextReads(State([], Between), RulesetLines(r));
    TablesRead(r);
  }

  lemma TablesRead(r: Ruleset)
    requires RulesetFits(r)
    ensures After(State([], Between), RulesetLines(r)) ==
            State([Erased(r.filterV4), Erased(r.natV4), Erased(r.filterV6), Erased(r.natV6)], Between)
  {
    var gap, b, c, d := [Frame("")], TableLines(r.natV4), TableLines(r.filterV6), TableLines(r.natV6);
    var ea, eb, ec, ed := Erased(r.filterV4), Erased(r.natV4), Erased(r.filterV6), Erased(r.natV6);
    FromTheLeft(TableLines(r.filterV4), b, c, d, gap);
    TableThenBlank([], r.filterV4, b + (gap + (c + (gap + d))));
    TableThenBlank([ea], r.natV4, c + (gap + d));
    TableThenBlank([ea, eb], r.filterV6, d);
    TableReads([ea, eb, ec], r.natV6);
    OneByOne(ea, eb, ec, ed);
  }

  lemma OneByOne(a: ReadTable, b: ReadTable, c: ReadTable, d: ReadTable)
    ensures [] + [a] == [a] && [a] + [b] == [a, b] && [a, b] + [c] == [a, b, c] && [a, b, c] + [d] == [a, b, c, d]
  {
  }

  lemma TableThenBlank(done: seq<ReadTable>, t: Table, rest: seq<Line>)
    requires TableFits(t)
    ensures After(State(done, Between), TableLines(t) + ([Frame("")] + rest)) == After(State(done + [Erased(t)], Between), rest)
  {
    AfterConcat(State(done, Between), TableLines(t), [Frame("")] + rest);
    TableReads(done, t);
    AfterConcat(State(done + [Erased(t)], Between), [Frame("")], rest);
    BlankLine(State(done + [Erased(t)], Between));
  }

  lemma FromTheLeft(a: seq<Line>, b: seq<Line>, c: seq<Line>, d: seq<Line>, gap: seq<Line>)
    ensures a + gap + b + gap + c + gap + d == a + (gap + (b + (gap + (c + (gap + d)))))
  {
  }

  // ---------------------------------------------------------------- generated texts

  /** What policy validation leaves of addresses: no blanks, commas, braces or comment signs. */
  ghost predicate PlainConfig(cfg: Config) {
    && PlainElements(cfg.allowV4) && PlainElements(cfg.allowV6) && PlainElements(cfg.denyV4) && PlainElements(cfg.denyV6)
  }

  lemma NotesAreComments(note: CleanText)
    requires note == "" || note == NOTE_HTTP || note == NOTE_HTTPS
    ensures Tail(note) && Words(note) == []
  {
    if note == NOTE_HTTP {
      assert note == "    " + "# HTTP proxy";
      BlankFirst("    ", "# HTTP proxy");
    } else if note == NOTE_HTTPS {
      assert note == "    " + ("# HTTPS " + "proxy");
      BlankFirst("    ", "# HTTPS " + "proxy");
    }
  }

  lemma OkIsReadable(r: Rule)
    requires RuleOk(r)
    ensures Readable(r)
  {
    NotesAreComments(r.note);
  }

  lemma OkStanzasFit(stanzas: seq<Stanza>)
    requires StanzasOk(stanzas)
    ensures StanzasFit(stanzas)
  {
    forall i | 0 <= i < |stanzas| ensures RulesFit(stanzas[i].rules) {
      var rules := stanzas[i].rules;
      assert RulesOk(rules);
      forall j | 0 <= j < |rules| ensures Readable(rules[j]) { OkIsReadable(rules[j]); }
    }
  }

  lemma AuditKeepsRuleOk(r: Rule)
    requires RuleOk(r)
    ensures RuleOk(AuditRule(r)) && !AuditRule(r).stmt.Drop?
  {
  }

  lemma AuditKeepsOk(stanzas: seq<Stanza>)
    requires StanzasOk(stanzas)
    ensures StanzasOk(AuditStanzas(stanzas))
  {
    forall i | 0 <= i < |stanzas| ensures RulesOk(AuditStanzas(stanzas)[i].rules) {
      var rules := stanzas[i].rules;
      assert RulesOk(rules);
      forall j | 0 <= j < |rules| ensures RuleOk(AuditRules(rules)[j]) && !AuditRules(rules)[j].stmt.Drop? { AuditKeepsRuleOk(rules[j]); }
    }
  }

  lemma LoopbackIsPlain(fam: Family)
    ensures PlainElement(LoopbackText(fam))
  {
  }

  lemma TemplateSetsFit(cfg: Config, fam: Family)
    requires PlainConfig(cfg)
    ensures forall i :: 0 <= i < |FilterTable(cfg, fam).sets| ==> SetFits(FilterTable(cfg, fam).sets[i])
    ensures forall i :: 0 <= i < |NatTable(cfg, fam).sets| ==> SetFits(NatTable(cfg, fam).sets[i])
  {
    LoopbackIsPlain(fam);
    assert PlainElements(AllowElements(cfg, fam)) && PlainElements(DenyElements(cfg, fam));
    assert SetFits(Interval(Allow, AllowElements(cfg, fam))) && SetFits(Interval(Deny, DenyElements(cfg, fam))) && SetFits(Timed(Resolved));
  }

  lemma TemplateFits(cfg: Config, fam: Family)
    requires PlainConfig(cfg)
    ensures StanzasOk(FilterTable(cfg, fam).stanzas) && TableFits(FilterTable(cfg, fam)) && TableFits(AuditTable(FilterTable(cfg, fam)))
    ensures StanzasOk(NatTable(cfg, fam).stanzas) && TableFits(NatTable(cfg, fam)) && TableFits(AuditTable(NatTable(cfg, fam)))
  {
    FilterTemplatesOk(cfg, fam);
    NatTemplatesOk(cfg, fam);
    TemplateSetsFit(cfg, fam);
    OkStanzasFit(FilterTable(cfg, fam).stanzas);
    OkStanzasFit(NatTable(cfg, fam).stanzas);
    AuditKeepsOk(FilterTable(cfg, fam).stanzas);
    AuditKeepsOk(NatTable(cfg, fam).stanzas);
    OkStanzasFit(AuditStanzas(FilterTable(cfg, fam).stanzas));
    OkStanzasFit(AuditStanzas(NatTable(cfg, fam).stanzas));
  }

  lemma ProgramFits(cfg: Config)
    requires PlainConfig(cfg)
    ensures RulesetFits(Program(cfg)) && LinesOk(RulesetLines(Program(cfg)))
  {
    TemplateFits(cfg, V4);
    TemplateFits(cfg, V6);
    if cfg.audit {
      var r := EnforcingRuleset(cfg);
      AuditKeepsOk(r.filterV4.stanzas);
      AuditKeepsOk(r.natV4.stanzas);
      AuditKeepsOk(r.filterV6.stanzas);
      AuditKeepsOk(r.natV6.stanzas);
    }
    RulesetLinesOk(Program(cfg));
  }

  /** For every configuration, audited or not, the text handed to nft reads back, word for word and
      number for number, as the tables of the program: family, names, sets and their elements,
      hook, priority, policy and every rule, in order. */
  lemma TextReadsBack(cfg: Config)
    requires PlainConfig(cfg)
    ensures Read(GenerateRuleset(cfg)) ==
            Some([Erased(Program(cfg).filterV4), Erased(Program(cfg).natV4), Erased(Program(cfg).filterV6), Erased(Program(cfg).natV6)])
  {
    GeneratedTextIsProgram(cfg);
    ProgramFits(cfg);
    RulesetReads(Program(cfg));
  }
}

/** auditRuleset works on text. These proofs show that, on every ruleset the templates can
    render, its five phrase replacements amount to rewriting the rules and rendering again. */
module NftAudit {
  import opened GoStrings
  import opened Sequences
  import opened Nft
  import opened NftTemplates

  // ---------------------------------------------------------------- the rewrite on rules

  /** Would-be drops are accepted and logged as audited. */
  function AuditRule(r: Rule): Rule {
    match r.stmt
    case Drop => r.(stmt := Accept)
    case Log(Blocked) => r.(stmt := Log(Audited))
    case _ => r
  }

  function AuditRules(rules: seq<Rule>): seq<Rule> {
    seq(|rules|, i requires 0 <= i < |rules| => AuditRule(rules[i]))
  }

  function AuditStanzas(stanzas: seq<Stanza>): seq<Stanza> {
    seq(|stanzas|, i requires 0 <= i < |stanzas| => stanzas[i].(rules := AuditRules(stanzas[i].rules)))
  }

  function AuditHook(h: Hook): Hook { if h.FilterOutput? then FilterOutput(false) else h }

  function AuditTable(t: Table): Table {
    t.(hook := AuditHook(t.hook), stanzas := AuditStanzas(t.stanzas))
  }

  function AuditRuleset(r: Ruleset): Ruleset {
    Ruleset(AuditTable(r.filterV4), AuditTable(r.natV4), AuditTable(r.filterV6), AuditTable(r.natV6))
  }

  /** The ruleset, as rules, that a configuration puts in force. */
  function Program(cfg: Config): Ruleset {
    if cfg.audit then AuditRuleset(EnforcingRuleset(cfg)) else EnforcingRuleset(cfg)
  }

  // ---------------------------------------------------------------- one replacement at a time

  datatype Stage = PolicyDrop | BlockedLog | BareDrop | DenyDrop(fam: Family)

  const BLOCKED_LOG := "log prefix \"blocked\" group 0"
  const AUDIT_LOG := "log prefix \"audit\" group 0"

  function DenyPhrase(fam: Family, verdict: string): string {
    " " + ("@" + SetName(Deny, fam) + " ") + verdict
  }

  function Old(stage: Stage): string {
    match stage
    case PolicyDrop => "policy drop;"
    case BlockedLog => BLOCKED_LOG
    case BareDrop => "\n" + BARE_DROP + "\n"
    case DenyDrop(fam) => DenyPhrase(fam, "drop")
  }

  function New(stage: Stage): string {
    match stage
    case PolicyDrop => "policy accept;"
    case BlockedLog => AUDIT_LOG
    case BareDrop => "\n" + INDENT + "accept\n"
    case DenyDrop(fam) => DenyPhrase(fam, "accept")
  }

  predicate IsBareDrop(l: Line) { l.RuleLine? && l.rule.conds == [] && l.rule.stmt == Drop }

  function Rewrite(stage: Stage, l: Line): Line {
    match (stage, l)
    case (PolicyDrop, Header(FilterOutput(_))) => Header(FilterOutput(false))
    case (BlockedLog, RuleLine(fam, r)) => if r.stmt == Log(Blocked) then RuleLine(fam, r.(stmt := Log(Audited))) else l
    case (BareDrop, RuleLine(fam, r)) => if IsBareDrop(l) then RuleLine(fam, r.(stmt := Accept)) else l
    case (DenyDrop(f), RuleLine(fam, r)) =>
      if fam == f && r.conds == [DaddrIn(Deny)] && r.stmt == Drop then RuleLine(fam, r.(stmt := Accept)) else l
    case _ => l
  }

  function RewriteAll(stage: Stage, lines: seq<Line>): seq<Line> {
    seq(|lines|, i requires 0 <= i < |lines| => Rewrite(stage, lines[i]))
  }

  // ---------------------------------------------------------------- what templates contain

  /** The shapes of rule that occur in the templates. */
  predicate RuleOk(r: Rule) {
    && (forall i :: 0 <= i < |r.conds| - 1 ==> !r.conds[i].DaddrIn?)
    && (OifLo in r.conds ==> r == Rule([OifLo], Accept, "", ""))
    && (r.stmt.Drop? ==> r.pad == "" && r.note == "" && (r.conds == [] || r.conds == [DaddrIn(Deny)]))
    && (r.stmt.Log? ==> r.note == "")
    && (r.pad == "" || r.pad == " ")
    && (r.note == "" || r.note == NOTE_HTTP || r.note == NOTE_HTTPS)
  }

  predicate LineOk(l: Line) {
    match l
    case Frame(s) => s != BARE_DROP
    case RuleLine(_, r) => RuleOk(r)
    case _ => true
  }

  /** A bare drop is never the last line and never directly followed by another. */
  ghost predicate Apart(lines: seq<Line>) {
    forall i {:trigger IsBareDrop(lines[i])} ::
      0 <= i < |lines| && IsBareDrop(lines[i]) ==> i + 1 < |lines| && !IsBareDrop(lines[i + 1])
  }

  ghost predicate LinesOk(lines: seq<Line>) {
    (forall i :: 0 <= i < |lines| ==> LineOk(lines[i])) && Apart(lines)
  }

  lemma RewriteKeepsOk(stage: Stage, lines: seq<Line>)
    requires LinesOk(lines)
    ensures LinesOk(RewriteAll(stage, lines))
  {
    var out := RewriteAll(stage, lines);
    forall i | 0 <= i < |out| ensures LineOk(out[i]) { assert LineOk(lines[i]); }
    forall i | 0 <= i < |out| && IsBareDrop(out[i]) ensures i + 1 < |out| && !IsBareDrop(out[i + 1]) {
      assert IsBareDrop(lines[i]);
    }
  }

  // ---------------------------------------------------------------- characters of a line

  lemma CleanConcat(a: CleanText, b: CleanText)
    ensures Clean(a + b)
  {
  }

  lemma CondClean(c: Cond, fam: Family)
    requires !c.OifLo? && !c.DaddrIn?
    ensures Clean(CondText(c, fam))
  {
  }

  /** No end of statement and no newline. */
  ghost predicate OneLine(s: string) { forall i :: 0 <= i < |s| ==> s[i] != ';' && s[i] != '\n' }

  lemma OneLineConcat(a: string, b: string)
    requires OneLine(a) && OneLine(b)
    ensures OneLine(a + b)
  {
  }

  lemma LacksConcat(a: string, b: string, c: char)
    requires Lacks(a, c) && Lacks(b, c)
    ensures Lacks(a + b, c)
  {
  }

  predicate EndsInSet(conds: seq<Cond>) { conds != [] && conds[|conds| - 1].DaddrIn? }

  function SetRef(c: Cond, fam: Family): string
    requires c.DaddrIn?
  {
    "@" + SetName(c.kind, fam)
  }

  lemma LastCond(c: Cond, fam: Family)
    requires c.DaddrIn?
    ensures CondsText([c], fam) == Ip(fam) + DADDR + (SetRef(c, fam) + " ")
    ensures Clean(Ip(fam) + DADDR)
  {
  }

  lemma PushCond(c: string, g: string, z: string)
    requires Clean(c) && Clean(g)
    ensures c + " " + (g + z) == c + " " + g + z
    ensures Clean(c + " " + g)
  {
  }

  /** The conditions of a template rule: clean text, then at most one set reference. */
  lemma {:induction false} CondsShape(conds: seq<Cond>, fam: Family) returns (f: CleanText)
    requires OifLo !in conds
    requires forall i :: 0 <= i < |conds| - 1 ==> !conds[i].DaddrIn?
    ensures EndsInSet(conds) ==> CondsText(conds, fam) == f + (SetRef(conds[|conds| - 1], fam) + " ")
    ensures !EndsInSet(conds) ==> CondsText(conds, fam) == f
  {
    if conds == [] {
      f := "";
    } else if conds[0].DaddrIn? {
      assert conds == [conds[0]];
      LastCond(conds[0], fam);
      f := Ip(fam) + DADDR;
    } else {
      var c, tail := CondText(conds[0], fam), conds[1..];
      CondClean(conds[0], fam);
      var g := CondsShape(tail, fam);
      PushCond(c, g, if EndsInSet(tail) then SetRef(tail[|tail| - 1], fam) + " " else "");
      f := c + " " + g;
      if EndsInSet(conds) {
        assert tail[|tail| - 1] == conds[|conds| - 1];
      }
    }
  }

  // ---------------------------------------------------------------- one line, one replacement

  function Front(r: Rule, fam: Family): string { INDENT + CondsText(r.conds, fam) + r.pad }

  lemma FrontShape(r: Rule, fam: Family) returns (x: CleanText)
    requires RuleOk(r) && OifLo !in r.conds
    ensures EndsInSet(r.conds) ==> Front(r, fam) == x + (SetRef(r.conds[|r.conds| - 1], fam) + " " + r.pad)
    ensures !EndsInSet(r.conds) ==> Front(r, fam) == x
  {
    var f := CondsShape(r.conds, fam);
    CleanConcat(INDENT, f);
    if EndsInSet(r.conds) {
      var z := SetRef(r.conds[|r.conds| - 1], fam) + " ";
      Assoc(INDENT, f, z);
      Assoc(INDENT + f, z, r.pad);
      x := INDENT + f;
    } else {
      CleanConcat(INDENT + f, r.pad);
      x := INDENT + f + r.pad;
    }
  }

  lemma LoLine(fam: Family)
    ensures LineText(RuleLine(fam, Rule([OifLo], Accept, "", ""))) ==
            INDENT + OIFNAME + "\"" + LO + "\"" + " " + ACCEPT
  {
  }

  lemma RuleOneLine(r: Rule, fam: Family)
    requires RuleOk(r)
    ensures OneLine(LineText(RuleLine(fam, r)))
  {
    if OifLo in r.conds {
      LoLine(fam);
      QuotedOneLine(INDENT + OIFNAME, LO, " " + ACCEPT);
      Assoc(INDENT + OIFNAME + "\"" + LO + "\"", " ", ACCEPT);
    } else {
      var x := FrontShape(r, fam);
      if EndsInSet(r.conds) {
        assert OneLine("@");
        OneLineConcat("@", SetName(r.conds[|r.conds| - 1].kind, fam));
        OneLineConcat(SetRef(r.conds[|r.conds| - 1], fam), " ");
        OneLineConcat(SetRef(r.conds[|r.conds| - 1], fam) + " ", r.pad);
        OneLineConcat(x, SetRef(r.conds[|r.conds| - 1], fam) + " " + r.pad);
      }
      StmtOneLine(r.stmt);
      OneLineConcat(Front(r, fam), StmtText(r.stmt));
      OneLineConcat(Front(r, fam) + StmtText(r.stmt), r.note);
    }
  }

  lemma QuotedOneLine(x: CleanText, p: CleanText, g: CleanText)
    ensures OneLine(x + "\"" + p + "\"" + g)
  {
  }

  lemma StmtOneLine(s: Stmt)
    ensures OneLine(StmtText(s))
  {
  }

  /** A quoted word that does not begin like "blocked" is no blocked log. */
  lemma OtherQuote(x: string, p: string, g: string)
    requires Lacks(x, '"') && Lacks(p, '"') && Lacks(g, '"')
    requires p != [] && p[0] != 'b' && g != [] && g[0] != 'b'
    ensures ReplaceAll(x + "\"" + p + "\"" + g, BLOCKED_LOG, AUDIT_LOG) == x + "\"" + p + "\"" + g
  {
    var s := x + "\"" + p + "\"" + g;
    forall i | 0 <= i < |s| - 1 && s[i] == '"' ensures s[i + 1] != 'b' {
      assert i == |x| || i == |x| + 1 + |p|;
    }
    ReplaceMismatch(s, BLOCKED_LOG, AUDIT_LOG, 11, 1);
  }

  lemma DenyPhraseChars(fam: Family, verdict: string)
    requires verdict != []
    ensures var pat := DenyPhrase(fam, verdict);
            && |pat| == 16 + |verdict| && pat[0] == ' ' && pat[1] == '@' && pat[2] == 'd'
            && pat[14] == (if fam.V4? then '4' else '6') && pat[16] == verdict[0]
  {
  }

  /** A set reference that departs from the phrase `j` places after the at-sign is left alone. */
  lemma OtherSet(x: string, z: string, pat: string, rep: string, j: nat)
    requires Lacks(x, '@') && Lacks(z, '@') && 2 + j < |pat| && pat[1] == '@'
    requires j < |z| ==> z[j] != pat[2 + j]
    ensures ReplaceAll(x + ("@" + z), pat, rep) == x + ("@" + z)
  {
    var s := x + ("@" + z);
    forall i | 0 <= i < |s| - (1 + j) && s[i] == pat[1] ensures s[i + (1 + j)] != pat[1 + (1 + j)] {
      assert i == |x| && s[i + 1 + j] == z[j];
    }
    ReplaceMismatch(s, pat, rep, 1, 1 + j);
  }

  lemma FilterHeaderChars()
    ensures Lacks(FILTER_HEADER, 'd') && Lacks(FILTER_HEADER, '"') && Lacks(FILTER_HEADER, '@') && Lacks(FILTER_HEADER, '\n')
  {
    var a, b, c := "type filter ", "hook output ", "priority filter; ";
    assert Lacks(INDENT, 'd') && Lacks(a, 'd') && Lacks(b, 'd') && Lacks(c, 'd');
    assert Clean(a) && Clean(b);
    assert Lacks(c, '"') && Lacks(c, '@') && Lacks(c, '\n');
  }

  lemma NatHeaderChars()
    ensures Lacks(NAT_HEADER, 'd') && Lacks(NAT_HEADER, '"') && Lacks(NAT_HEADER, '@') && Lacks(NAT_HEADER, '\n')
  {
  }

  lemma PolicyChars()
    ensures Lacks("policy accept;", 'd')
    ensures Lacks("policy accept;", '"') && Lacks("policy accept;", '@') && Lacks("policy accept;", '\n')
    ensures Lacks("policy drop;", '"') && Lacks("policy drop;", '@') && Lacks("policy drop;", '\n')
  {
  }

  lemma HeaderChars(h: Hook)
    ensures Lacks(LineText(Header(h)), '"') && Lacks(LineText(Header(h)), '@') && Lacks(LineText(Header(h)), '\n')
    ensures h != FilterOutput(true) ==> Lacks(LineText(Header(h)), 'd')
  {
    FilterHeaderChars();
    NatHeaderChars();
    PolicyChars();
  }

  lemma CommentClean(s: CleanText)
    ensures Clean(LineText(Comment(s)))
  {
  }

  lemma PolicyDropLine(l: Line)
    requires LineOk(l)
    ensures ReplaceAll(LineText(l), Old(PolicyDrop), New(PolicyDrop)) == LineText(Rewrite(PolicyDrop, l))
  {
    match l {
      case Frame(s) => ReplaceNothing(s, "policy drop;", "policy accept;", 11);
      case Comment(s) =>
        CommentClean(s);
        ReplaceNothing(LineText(l), "policy drop;", "policy accept;", 11);
      case RuleLine(fam, r) =>
        RuleOneLine(r, fam);
        ReplaceNothing(LineText(l), "policy drop;", "policy accept;", 11);
      case Header(h) =>
        if h == FilterOutput(true) {
          FilterHeaderChars();
          ReplaceTail(FILTER_HEADER, "policy drop;", "policy accept;", 7);
        } else {
          HeaderChars(h);
          ReplaceNothing(LineText(l), "policy drop;", "policy accept;", 7);
        }
    }
  }

  lemma FrontQuoteless(r: Rule, fam: Family)
    requires RuleOk(r) && OifLo !in r.conds
    ensures Lacks(Front(r, fam), '"')
  {
    var x := FrontShape(r, fam);
    if EndsInSet(r.conds) {
      var name := SetName(r.conds[|r.conds| - 1].kind, fam);
      assert Lacks("@", '"');
      LacksConcat("@", name, '"');
      LacksConcat("@" + name, " ", '"');
      LacksConcat("@" + name + " ", r.pad, '"');
      LacksConcat(x, "@" + name + " " + r.pad, '"');
    }
  }

  lemma LogText(front: string, p: LogPrefix)
    ensures front + StmtText(Log(p)) + "" == front + LOG_PREFIX + "\"" + PrefixText(p) + "\"" + GROUP
  {
  }

  lemma BlockedText()
    ensures StmtText(Log(Blocked)) == BLOCKED_LOG && StmtText(Log(Audited)) == AUDIT_LOG
  {
  }

  lemma LogTail(front: string, p: LogPrefix)
    requires Lacks(front, '"')
    ensures ReplaceAll(front + StmtText(Log(p)) + "", BLOCKED_LOG, AUDIT_LOG) ==
            front + StmtText(Log(if p == Blocked then Audited else p)) + ""
  {
    if p == Blocked {
      BlockedText();
      ReplaceTail(front, BLOCKED_LOG, AUDIT_LOG, 11);
      Assoc(front, BLOCKED_LOG, "");
      Assoc(front, AUDIT_LOG, "");
    } else {
      LogText(front, p);
      LacksConcat(front, LOG_PREFIX, '"');
      OtherQuote(front + LOG_PREFIX, PrefixText(p), GROUP);
    }
  }

  lemma BlockedLogLine(l: Line)
    requires LineOk(l)
    ensures ReplaceAll(LineText(l), BLOCKED_LOG, AUDIT_LOG) == LineText(Rewrite(BlockedLog, l))
  {
    match l {
      case Frame(s) => ReplaceNothing(s, BLOCKED_LOG, AUDIT_LOG, 11);
      case Comment(s) =>
        CommentClean(s);
        ReplaceNothing(LineText(l), BLOCKED_LOG, AUDIT_LOG, 11);
      case Header(h) =>
        HeaderChars(h);
        ReplaceNothing(LineText(l), BLOCKED_LOG, AUDIT_LOG, 11);
      case RuleLine(fam, r) => BlockedLogRule(r, fam);
    }
  }

  lemma BlockedLogRule(r: Rule, fam: Family)
    requires RuleOk(r)
    ensures ReplaceAll(LineText(RuleLine(fam, r)), BLOCKED_LOG, AUDIT_LOG) ==
            LineText(Rewrite(BlockedLog, RuleLine(fam, r)))
  {
    if OifLo in r.conds {
      LoLine(fam);
      Assoc(INDENT + OIFNAME + "\"" + LO + "\"", " ", ACCEPT);
      OtherQuote(INDENT + OIFNAME, LO, " " + ACCEPT);
    } else {
      var front := Front(r, fam);
      FrontQuoteless(r, fam);
      if r.stmt.Log? {
        LogTail(front, r.stmt.prefix);
      } else {
        PlainStmt(r.stmt);
        LacksConcat(front, StmtText(r.stmt), '"');
        LacksConcat(front + StmtText(r.stmt), r.note, '"');
        ReplaceNothing(LineText(RuleLine(fam, r)), BLOCKED_LOG, AUDIT_LOG, 11);
      }
    }
  }

  lemma PlainStmt(s: Stmt)
    requires !s.Log?
    ensures Clean(StmtText(s))
  {
  }

  lemma StmtAtless(s: Stmt)
    ensures Lacks(StmtText(s), '@')
    ensures !s.Drop? ==> StmtText(s) != [] && StmtText(s)[0] != 'd'
  {
  }

  /** Everything of a rule line after the at-sign of its set reference. */
  function AfterAt(r: Rule, fam: Family): string
    requires EndsInSet(r.conds)
  {
    SetName(r.conds[|r.conds| - 1].kind, fam) + " " + r.pad + StmtText(r.stmt) + r.note
  }

  lemma SetLineShape(r: Rule, fam: Family) returns (x: CleanText)
    requires RuleOk(r) && OifLo !in r.conds && EndsInSet(r.conds)
    ensures LineText(RuleLine(fam, r)) == x + ("@" + AfterAt(r, fam))
    ensures Lacks(AfterAt(r, fam), '@')
  {
    x := FrontShape(r, fam);
    StmtAtless(r.stmt);
    AroundName(LineText(RuleLine(fam, r)), Front(r, fam), AfterAt(r, fam), x,
            SetName(r.conds[|r.conds| - 1].kind, fam), r.pad, StmtText(r.stmt), r.note);
  }

  lemma AroundName(line: string, front: string, after: string,
                x: string, name: CleanText, pad: CleanText, stmt: string, note: CleanText)
    requires line == front + stmt + note
    requires front == x + ("@" + name + " " + pad)
    requires after == name + " " + pad + stmt + note
    requires Lacks(stmt, '@')
    ensures line == x + ("@" + after) && Lacks(after, '@')
  {
  }

  lemma DenyDropLine(f: Family, l: Line)
    requires LineOk(l)
    ensures ReplaceAll(LineText(l), DenyPhrase(f, "drop"), DenyPhrase(f, "accept")) == LineText(Rewrite(DenyDrop(f), l))
  {
    if l.RuleLine? && EndsInSet(l.rule.conds) {
      if l.fam == f && l.rule.conds == [DaddrIn(Deny)] && l.rule.stmt == Drop {
        DeniedDropLine(f);
        assert l.rule == Rule([DaddrIn(Deny)], Drop, "", "");
      } else {
        OtherSetLine(f, l.rule, l.fam);
      }
    } else {
      AtlessLine(l);
      DenyPhraseChars(f, "drop");
      ReplaceNothing(LineText(l), DenyPhrase(f, "drop"), DenyPhrase(f, "accept"), 1);
    }
  }

  lemma AtlessLine(l: Line)
    requires LineOk(l) && !(l.RuleLine? && EndsInSet(l.rule.conds))
    ensures Lacks(LineText(l), '@')
  {
    match l {
      case Frame(s) =>
      case Comment(s) => CommentClean(s);
      case Header(h) => HeaderChars(h);
      case RuleLine(fam, r) => UnsetAtless(r, fam);
    }
  }

  lemma UnsetAtless(r: Rule, fam: Family)
    requires RuleOk(r) && !EndsInSet(r.conds)
    ensures Lacks(LineText(RuleLine(fam, r)), '@')
  {
    if OifLo in r.conds {
      LoLine(fam);
      assert Lacks("\"", '@');
      LacksConcat(INDENT, OIFNAME, '@');
      LacksConcat(INDENT + OIFNAME, "\"", '@');
      LacksConcat(INDENT + OIFNAME + "\"", LO, '@');
      LacksConcat(INDENT + OIFNAME + "\"" + LO, "\"", '@');
      LacksConcat(INDENT + OIFNAME + "\"" + LO + "\"", " ", '@');
      LacksConcat(INDENT + OIFNAME + "\"" + LO + "\"" + " ", ACCEPT, '@');
    } else {
      var x := FrontShape(r, fam);
      StmtAtless(r.stmt);
      LacksConcat(x, StmtText(r.stmt), '@');
      LacksConcat(x + StmtText(r.stmt), r.note, '@');
    }
  }

  lemma OtherSetLine(f: Family, r: Rule, fam: Family)
    requires RuleOk(r) && EndsInSet(r.conds)
    requires fam != f || r.conds != [DaddrIn(Deny)] || r.stmt != Drop
    ensures ReplaceAll(LineText(RuleLine(fam, r)), DenyPhrase(f, "drop"), DenyPhrase(f, "accept")) ==
            LineText(RuleLine(fam, r))
  {
    assert OifLo !in r.conds;
    var x := SetLineShape(r, fam);
    var kind := r.conds[|r.conds| - 1].kind;
    StmtAtless(r.stmt);
    SetNameChars(kind, fam, r.pad, StmtText(r.stmt), r.note);
    DenyPhraseChars(f, "drop");
    OtherSet(x, AfterAt(r, fam), DenyPhrase(f, "drop"), DenyPhrase(f, "accept"),
             if kind.Allow? || kind.Resolved? then 0 else if fam != f then 12 else 14);
  }

  lemma SetNameChars(kind: SetKind, fam: Family, pad: CleanText, stmt: string, note: CleanText)
    requires pad == "" || pad == " "
    requires stmt != []
    ensures var z := SetName(kind, fam) + " " + pad + stmt + note;
            && (kind.Allow? ==> z[0] == 'a') && (kind.Resolved? ==> z[0] == 'r')
            && (kind.Deny? ==> |z| > 14 && z[12] == (if fam.V4? then '4' else '6') &&
                               z[14] == (if pad == "" then stmt[0] else ' '))
  {
  }

  lemma DeniedDropLine(fam: Family)
    ensures ReplaceAll(LineText(RuleLine(fam, Rule([DaddrIn(Deny)], Drop, "", ""))),
                       DenyPhrase(fam, "drop"), DenyPhrase(fam, "accept")) ==
            LineText(RuleLine(fam, Rule([DaddrIn(Deny)], Accept, "", "")))
  {
    DeniedLine(fam, Drop);
    DeniedLine(fam, Accept);
    var x := INDENT + Ip(fam) + DADDR_WORD;
    CleanConcat(INDENT, Ip(fam));
    CleanConcat(INDENT + Ip(fam), DADDR_WORD);
    DenyPhraseChars(fam, "drop");
    ReplaceTail(x, DenyPhrase(fam, "drop"), DenyPhrase(fam, "accept"), 1);
  }

  const DADDR_WORD: CleanText := " daddr"

  lemma DeniedLine(fam: Family, s: Stmt)
    requires s == Drop || s == Accept
    ensures LineText(RuleLine(fam, Rule([DaddrIn(Deny)], s, "", ""))) ==
            INDENT + Ip(fam) + DADDR_WORD + DenyPhrase(fam, StmtText(s))
  {
    LastCond(DaddrIn(Deny), fam);
    assert DADDR == DADDR_WORD + " ";
    Shift(LineText(RuleLine(fam, Rule([DaddrIn(Deny)], s, "", ""))), INDENT, Ip(fam), DADDR, DADDR_WORD,
          SetRef(DaddrIn(Deny), fam) + " ", StmtText(s));
  }

  lemma Shift(line: string, indent: string, ip: string, daddr: string, word: string, ref: string, verdict: string)
    requires daddr == word + " "
    requires line == indent + (ip + daddr + ref) + "" + verdict + ""
    ensures line == indent + ip + word + (" " + ref + verdict)
  {
  }

  // ---------------------------------------------------------------- whole texts

  lemma {:induction false} TextConcat(a: seq<Line>, b: seq<Line>)
    ensures Text(a + b) == Text(a) + Text(b)
  {
    if a == [] {
      assert a + b == b;
    } else {
      assert (a + b)[1..] == a[1..] + b;
      TextConcat(a[1..], b);
      Assoc(LineText(a[0]) + "\n", Text(a[1..]), Text(b));
    }
  }

  lemma PhraseLines(stage: Stage)
    requires !stage.BareDrop?
    ensures Lacks(Old(stage), '\n') && Old(stage) != []
  {
  }

  lemma LineStage(stage: Stage, l: Line)
    requires LineOk(l) && !stage.BareDrop?
    ensures ReplaceAll(LineText(l), Old(stage), New(stage)) == LineText(Rewrite(stage, l))
  {
    match stage {
      case PolicyDrop => PolicyDropLine(l);
      case BlockedLog => BlockedLogLine(l);
      case DenyDrop(fam) => DenyDropLine(fam, l);
    }
  }

  /** The four single-line phrases: replacing in the text is rewriting each line. */
  lemma {:induction false} TextStage(stage: Stage, lines: seq<Line>)
    requires !stage.BareDrop?
    requires forall i :: 0 <= i < |lines| ==> LineOk(lines[i])
    ensures Old(stage) != []
    ensures ReplaceAll(Text(lines), Old(stage), New(stage)) == Text(RewriteAll(stage, lines))
  {
    PhraseLines(stage);
    if lines == [] {
      ReplaceShort("", Old(stage), New(stage));
    } else {
      assert LineOk(lines[0]);
      LineStage(stage, lines[0]);
      TextStage(stage, lines[1..]);
      ReplaceByLine(LineText(lines[0]), Text(lines[1..]), Old(stage), New(stage));
      RewriteTail(stage, lines, 1);
    }
  }

  lemma LineLacksNewline(l: Line)
    requires LineOk(l)
    ensures Lacks(LineText(l), '\n')
  {
    match l {
      case Frame(s) =>
      case Comment(s) => CommentClean(s);
      case Header(h) => HeaderChars(h);
      case RuleLine(fam, r) => RuleOneLine(r, fam);
    }
  }

  lemma CondFirst(c: Cond, fam: Family)
    ensures CondText(c, fam) != [] && CondText(c, fam)[0] != 'd'
  {
  }

  /** Only a bare drop renders as the bare drop line. */
  lemma BareText(l: Line)
    requires LineOk(l)
    ensures LineText(l) == BARE_DROP <==> IsBareDrop(l)
  {
    assert |INDENT| == 8 && BARE_DROP[8] == 'd';
    match l {
      case Frame(s) =>
      case Comment(s) => assert LineText(l)[8] == '#';
      case Header(h) => assert LineText(l)[8] == 't';
      case RuleLine(fam, r) =>
        var rest := r.pad + StmtText(r.stmt) + r.note;
        if r.conds == [] {
          BareRule(INDENT, r.pad, StmtText(r.stmt), r.note, LineText(l));
          StmtAtless(r.stmt);
          if r.stmt.Drop? { Assoc(INDENT, "", DROP); Assoc(INDENT + "" + DROP, "", ""); }
        } else {
          CondFirst(r.conds[0], fam);
          FirstCond(INDENT, CondText(r.conds[0], fam), CondsText(r.conds[1..], fam), r.pad, StmtText(r.stmt), r.note,
                    LineText(l));
        }
    }
  }

  lemma BareRule(indent: string, pad: string, stmt: string, note: string, line: string)
    requires line == indent + "" + pad + stmt + note
    requires |indent| == 8 && stmt != [] && (pad == "" || pad == " ")
    ensures |line| > 8 && line[8] == if pad == "" then stmt[0] else ' '
    ensures pad == "" && note == "" ==> line == indent + stmt
  {
  }

  lemma FirstCond(indent: string, cond: string, conds: string, pad: string, stmt: string, note: string, line: string)
    requires line == indent + (cond + " " + conds) + pad + stmt + note
    requires |indent| == 8 && cond != []
    ensures |line| > 8 && line[8] == cond[0]
  {
  }

  const DROP_LINE := "\n" + BARE_DROP + "\n"
  const ACCEPT_LINE := "\n" + INDENT + "accept\n"

  /** The drop line phrase, which spans lines. */
  lemma {:induction false} TextBareDrop(lines: seq<Line>)
    requires LinesOk(lines)
    ensures ReplaceAll("\n" + Text(lines), DROP_LINE, ACCEPT_LINE) == "\n" + Text(RewriteAll(BareDrop, lines))
    decreases |lines|
  {
    if lines == [] {
      ReplaceShort("\n" + "", DROP_LINE, ACCEPT_LINE);
    } else if !IsBareDrop(lines[0]) {
      LinesTail(lines, 1);
      TextBareDrop(lines[1..]);
      KeptLine(lines);
    } else {
      assert !IsBareDrop(lines[1]);
      LinesTail(lines, 2);
      TextBareDrop(lines[2..]);
      DroppedLine(lines);
    }
  }

  lemma KeptLine(lines: seq<Line>)
    requires LinesOk(lines) && lines != [] && !IsBareDrop(lines[0])
    requires ReplaceAll("\n" + Text(lines[1..]), DROP_LINE, ACCEPT_LINE) == "\n" + Text(RewriteAll(BareDrop, lines[1..]))
    ensures ReplaceAll("\n" + Text(lines), DROP_LINE, ACCEPT_LINE) == "\n" + Text(RewriteAll(BareDrop, lines))
  {
    assert LineOk(lines[0]);
    LineLacksNewline(lines[0]);
    BareText(lines[0]);
    ReplaceKeepsLine(LineText(lines[0]), Text(lines[1..]), BARE_DROP, ACCEPT_LINE);
    RewriteTail(BareDrop, lines, 1);
    Prefixed(LineText(lines[0]), Text(lines[1..]), Text(RewriteAll(BareDrop, lines[1..])));
  }

  lemma RewriteTail(stage: Stage, lines: seq<Line>, n: nat)
    requires n <= |lines|
    ensures RewriteAll(stage, lines)[n..] == RewriteAll(stage, lines[n..])
  {
  }

  lemma BareRewrites(l0: Line, l1: Line)
    requires LineOk(l0) && LineOk(l1) && IsBareDrop(l0) && !IsBareDrop(l1)
    ensures LineText(l0) == BARE_DROP && LineText(Rewrite(BareDrop, l0)) == INDENT + "accept"
    ensures Rewrite(BareDrop, l1) == l1 && Lacks(LineText(l1), '\n')
  {
    LineLacksNewline(l1);
    BareText(l0);
    AcceptedText(l0);
  }

  lemma TextOfTwo(lines: seq<Line>, l0: string, l1: string)
    requires |lines| >= 2 && LineText(lines[0]) == l0 && LineText(lines[1]) == l1
    ensures Text(lines) == l0 + "\n" + (l1 + "\n" + Text(lines[2..]))
  {
  }

  lemma DroppedLine(lines: seq<Line>)
    requires LinesOk(lines) && |lines| >= 2 && IsBareDrop(lines[0]) && !IsBareDrop(lines[1])
    requires ReplaceAll("\n" + Text(lines[2..]), DROP_LINE, ACCEPT_LINE) == "\n" + Text(RewriteAll(BareDrop, lines[2..]))
    ensures ReplaceAll("\n" + Text(lines), DROP_LINE, ACCEPT_LINE) == "\n" + Text(RewriteAll(BareDrop, lines))
  {
    var out := RewriteAll(BareDrop, lines);
    BareRewrites(lines[0], lines[1]);
    RewriteTail(BareDrop, lines, 2);
    TextOfTwo(lines, BARE_DROP, LineText(lines[1]));
    TextOfTwo(out, INDENT + "accept", LineText(lines[1]));
    DroppedText(LineText(lines[1]), Text(lines[2..]), Text(out[2..]), Text(lines), Text(out));
  }

  lemma DroppedText(next: string, rest: string, rewritten: string, before: string, after: string)
    requires Lacks(next, '\n')
    requires before == BARE_DROP + "\n" + (next + "\n" + rest)
    requires after == INDENT + "accept" + "\n" + (next + "\n" + rewritten)
    requires ReplaceAll("\n" + rest, DROP_LINE, ACCEPT_LINE) == "\n" + rewritten
    ensures ReplaceAll("\n" + before, DROP_LINE, ACCEPT_LINE) == "\n" + after
  {
    ReplaceTakesLine(next, rest, BARE_DROP, ACCEPT_LINE);
    Joined(next, rest, rewritten);
  }

  lemma LinesTail(lines: seq<Line>, n: nat)
    requires LinesOk(lines) && n <= |lines|
    ensures LinesOk(lines[n..])
  {
  }

  lemma AcceptedText(l: Line)
    requires LineOk(l) && IsBareDrop(l)
    ensures LineText(Rewrite(BareDrop, l)) == INDENT + "accept"
  {
  }

  lemma Prefixed(line: string, before: string, after: string)
    ensures "\n" + (line + "\n" + before) == "\n" + line + "\n" + before
    ensures "\n" + line + ("\n" + after) == "\n" + (line + "\n" + after)
  {
  }

  lemma Joined(next: string, before: string, after: string)
    ensures "\n" + (BARE_DROP + "\n" + (next + "\n" + before)) == "\n" + BARE_DROP + "\n" + (next + "\n" + before)
    ensures ACCEPT_LINE + (next + ("\n" + after)) == "\n" + (INDENT + "accept" + "\n" + (next + "\n" + after))
  {
  }

  // ---------------------------------------------------------------- the five together

  function AuditLine(l: Line): Line {
    match l
    case RuleLine(fam, r) => RuleLine(fam, AuditRule(r))
    case Header(h) => Header(AuditHook(h))
    case _ => l
  }

  function AuditLines(lines: seq<Line>): seq<Line> {
    seq(|lines|, i requires 0 <= i < |lines| => AuditLine(lines[i]))
  }

  lemma LiteralDropLine()
    ensures Old(BareDrop) == "\n        drop\n"
  {
  }

  lemma LiteralAcceptLine()
    ensures New(BareDrop) == "\n        accept\n"
  {
  }

  lemma LiteralDeny(fam: Family, verdict: string)
    ensures DenyPhrase(fam, verdict) == (if fam.V4? then " @deny_daddr_v4 " else " @deny_daddr_v6 ") + verdict
  {
  }

  lemma LiteralDenyDrop()
    ensures " @deny_daddr_v4 " + "drop" == " @deny_daddr_v4 drop"
    ensures " @deny_daddr_v6 " + "drop" == " @deny_daddr_v6 drop"
  {
  }

  lemma LiteralDenyAccept()
    ensures " @deny_daddr_v4 " + "accept" == " @deny_daddr_v4 accept"
    ensures " @deny_daddr_v6 " + "accept" == " @deny_daddr_v6 accept"
  {
  }

  lemma StagesCompose(lines: seq<Line>)
    requires LinesOk(lines)
    ensures RewriteAll(DenyDrop(V6), RewriteAll(DenyDrop(V4), RewriteAll(BareDrop,
              RewriteAll(BlockedLog, RewriteAll(PolicyDrop, lines))))) == AuditLines(lines)
  {
  }

  function ApplyStage(stage: Stage, text: string): string
    requires Old(stage) != []
  {
    ReplaceAll(text, Old(stage), New(stage))
  }

  lemma OldNonEmpty(stage: Stage)
    ensures Old(stage) != []
  {
  }

  lemma AuditTextStages(text: string)
    ensures forall stage: Stage :: Old(stage) != []
    ensures AuditText(text) ==
            ApplyStage(DenyDrop(V6), ApplyStage(DenyDrop(V4), ApplyStage(BareDrop,
              ApplyStage(BlockedLog, ApplyStage(PolicyDrop, text)))))
  {
    forall stage: Stage ensures Old(stage) != [] { OldNonEmpty(stage); }
    LiteralDropLine();
    LiteralAcceptLine();
    LiteralDeny(V4, "drop");
    LiteralDeny(V4, "accept");
    LiteralDeny(V6, "drop");
    LiteralDeny(V6, "accept");
    LiteralDenyDrop();
    LiteralDenyAccept();
  }

  lemma AuditTextOfLines(lines: seq<Line>)
    requires LinesOk(lines) && lines != [] && lines[0] == Frame("")
    ensures AuditText(Text(lines)) == Text(AuditLines(lines))
  {
    AuditTextStages(Text(lines));
    StagesCompose(lines);
    var l1 := RewriteAll(PolicyDrop, lines);
    RewriteKeepsOk(PolicyDrop, lines);
    TextStage(PolicyDrop, lines);
    var l2 := RewriteAll(BlockedLog, l1);
    RewriteKeepsOk(BlockedLog, l1);
    TextStage(BlockedLog, l1);
    var l3 := RewriteAll(BareDrop, l2);
    RewriteKeepsOk(BareDrop, l2);
    BareDropStage(l2);
    var l4 := RewriteAll(DenyDrop(V4), l3);
    RewriteKeepsOk(DenyDrop(V4), l3);
    TextStage(DenyDrop(V4), l3);
    TextStage(DenyDrop(V6), l4);
  }

  lemma EmptyHead(lines: seq<Line>)
    requires lines != [] && lines[0] == Frame("")
    ensures Text(lines) == "\n" + Text(lines[1..])
  {
    assert LineText(lines[0]) + "\n" == "\n";
  }

  /** A leading empty line contributes the newline that the first line's pattern needs. */
  lemma EmptyFirstLine(lines: seq<Line>)
    requires lines != [] && lines[0] == Frame("")
    ensures Text(lines) == "\n" + Text(lines[1..])
    ensures Text(RewriteAll(BareDrop, lines)) == "\n" + Text(RewriteAll(BareDrop, lines[1..]))
  {
    var out := RewriteAll(BareDrop, lines);
    assert out[0] == Frame("");
    EmptyHead(lines);
    EmptyHead(out);
    RewriteTail(BareDrop, lines, 1);
  }

  lemma BareDropStage(lines: seq<Line>)
    requires LinesOk(lines) && lines != [] && lines[0] == Frame("")
    ensures ReplaceAll(Text(lines), DROP_LINE, ACCEPT_LINE) == Text(RewriteAll(BareDrop, lines))
  {
    LinesTail(lines, 1);
    TextBareDrop(lines[1..]);
    EmptyFirstLine(lines);
  }

  // ---------------------------------------------------------------- the templates qualify

  ghost predicate StanzasOk(stanzas: seq<Stanza>) {
    forall i {:trigger stanzas[i]} :: 0 <= i < |stanzas| ==> RulesOk(stanzas[i].rules)
  }

  ghost predicate RulesOk(rules: seq<Rule>) {
    forall j {:trigger rules[j]} :: 0 <= j < |rules| ==>
      RuleOk(rules[j]) && (rules[j].conds == [] && rules[j].stmt.Drop? ==> j == |rules| - 1)
  }

  /** LinesOk, except that a bare drop may come last: blocks of lines in this state can be put
      one after another when the second does not begin with a bare drop. */
  ghost predicate BlockOk(lines: seq<Line>) {
    && (forall i :: 0 <= i < |lines| ==> LineOk(lines[i]))
    && (forall i {:trigger IsBareDrop(lines[i])} ::
          0 <= i < |lines| - 1 && IsBareDrop(lines[i]) ==> !IsBareDrop(lines[i + 1]))
  }

  lemma BlocksJoin(a: seq<Line>, b: seq<Line>)
    requires BlockOk(a) && BlockOk(b)
    requires b != [] ==> !IsBareDrop(b[0])
    ensures BlockOk(a + b)
  {
  }

  lemma RuleLinesOk(rules: seq<Rule>, fam: Family)
    requires RulesOk(rules)
    ensures BlockOk(RuleLines(rules, fam))
  {
  }

  lemma {:induction false} StanzaLinesOk(stanzas: seq<Stanza>, fam: Family)
    requires StanzasOk(stanzas)
    ensures BlockOk(StanzaLines(stanzas, fam))
    ensures stanzas != [] ==> StanzaLines(stanzas, fam)[0] == Frame("")
  {
    if stanzas != [] {
      var head := [Frame(""), Comment(stanzas[0].comment)];
      RuleLinesOk(stanzas[0].rules, fam);
      StanzaLinesOk(stanzas[1..], fam);
      BlocksJoinFrames(head, RuleLines(stanzas[0].rules, fam));
      BlocksJoin(head + RuleLines(stanzas[0].rules, fam), StanzaLines(stanzas[1..], fam));
    }
  }

  /** A block that ends in no bare drop can be followed by any block. */
  lemma BlocksJoinFrames(a: seq<Line>, b: seq<Line>)
    requires BlockOk(a) && BlockOk(b)
    requires a != [] ==> !IsBareDrop(a[|a| - 1])
    ensures BlockOk(a + b)
  {
  }

  lemma FrameOk(s: CleanText)
    requires s == [] || s[0] == 't' || s[0] == '}' || |s| == 5 || (|s| > 8 && (s[4] != ' ' || s[8] != 'd'))
    ensures LineOk(Frame(s))
  {
  }

  lemma SetFramesOk(kind: SetKind, fam: Family)
    ensures LineOk(Frame(SET_OPEN + SetName(kind, fam) + BLOCK_OPEN)) && LineOk(Frame(BLOCK_CLOSE))
  {
    FrameOk(SET_OPEN + SetName(kind, fam) + BLOCK_OPEN);
    FrameOk(BLOCK_CLOSE);
  }

  lemma TypeFramesOk(fam: Family)
    ensures LineOk(Frame(SET_TYPE + Suffix(fam) + SET_ADDR))
    ensures LineOk(Frame(FLAGS_TIMEOUT)) && LineOk(Frame(FLAGS_INTERVAL))
  {
    FrameOk(SET_TYPE + Suffix(fam) + SET_ADDR);
    FrameOk(FLAGS_TIMEOUT);
    FrameOk(FLAGS_INTERVAL);
  }

  lemma ElementsFrameOk(elements: seq<CleanText>)
    ensures LineOk(Frame(ElementsText(elements)))
  {
    FrameOk(ElementsText(elements));
  }

  lemma SetLinesOk(d: SetDecl, fam: Family)
    ensures BlockOk(SetLines(d, fam))
  {
    SetFramesOk(d.kind, fam);
    TypeFramesOk(fam);
    if d.Interval? { ElementsFrameOk(d.elements); }
    assert forall l :: l in SetLines(d, fam) ==> l.Frame? && LineOk(l);
  }

  lemma {:induction false} AllSetLinesOk(sets: seq<SetDecl>, fam: Family)
    ensures BlockOk(AllSetLines(sets, fam))
    ensures forall i :: 0 <= i < |AllSetLines(sets, fam)| ==> AllSetLines(sets, fam)[i].Frame?
  {
    if sets != [] {
      SetLinesOk(sets[0], fam);
      AllSetLinesOk(sets[1..], fam);
      FrameOk("");
      var gap := if |sets| == 1 || sets[1].Timed? then [Frame("")] else [];
      BlocksJoin(SetLines(sets[0], fam), gap);
      BlocksJoin(SetLines(sets[0], fam) + gap, AllSetLines(sets[1..], fam));
    }
  }

  lemma TableLinesOk(t: Table)
    requires StanzasOk(t.stanzas)
    ensures LinesOk(TableLines(t))
    ensures TableLines(t)[0] == Frame("") && !IsBareDrop(TableLines(t)[|TableLines(t)| - 1])
  {
    var open := [Frame(""), Frame(TableOpen(t))];
    var sets := AllSetLines(t.sets, t.fam);
    var chain := [Frame(ChainOpen(t)), Header(t.hook)];
    var body := StanzaLines(t.stanzas, t.fam);
    var close := [Frame(BLOCK_CLOSE), Frame(TABLE_CLOSE)];
    FrameOk("");
    FrameOk(TableOpen(t));
    FrameOk(ChainOpen(t));
    FrameOk(BLOCK_CLOSE);
    FrameOk(TABLE_CLOSE);
    AllSetLinesOk(t.sets, t.fam);
    StanzaLinesOk(t.stanzas, t.fam);
    BlocksJoin(open, sets);
    BlocksJoin(open + sets, chain);
    BlocksJoin(open + sets + chain, body);
    BlocksJoin(open + sets + chain + body, close);
  }

  predicate StanzaOk(s: Stanza) {
    && (forall j :: 0 <= j < |s.rules| ==> RuleOk(s.rules[j]))
    && (forall j :: 0 <= j < |s.rules| - 1 ==> !(s.rules[j].conds == [] && s.rules[j].stmt.Drop?))
  }

  ghost predicate AllOk(stanzas: seq<Stanza>) {
    forall i :: 0 <= i < |stanzas| ==> StanzaOk(stanzas[i])
  }

  lemma ShortRuleOk(r: Rule)
    requires |r.conds| <= 2 && (r.pad == "" || r.pad == " ") && (r.stmt.Log? ==> r.note == "") && !r.stmt.Drop?
    requires r.note == "" || r.note == NOTE_HTTP || r.note == NOTE_HTTPS
    requires |r.conds| > 0 ==> !r.conds[0].OifLo?
    requires |r.conds| > 1 ==> !r.conds[0].DaddrIn? && !r.conds[1].OifLo?
    ensures RuleOk(r)
  {
  }

  lemma OneRuleOk(comment: CleanText, r: Rule)
    requires RuleOk(r)
    ensures StanzaOk(Stanza(comment, [r]))
  {
  }

  lemma TwoRulesOk(comment: CleanText, r: Rule, s: Rule)
    requires RuleOk(r) && RuleOk(s) && !r.stmt.Drop?
    ensures StanzaOk(Stanza(comment, [r, s]))
  {
  }

  lemma FourRulesOk(s: Stanza)
    requires |s.rules| == 4 && RuleOk(s.rules[0]) && RuleOk(s.rules[1]) && RuleOk(s.rules[2]) && RuleOk(s.rules[3])
    requires forall j :: 0 <= j < |s.rules| ==> !s.rules[j].stmt.Drop?
    ensures StanzaOk(s)
  {
  }

  lemma ProxyStanzaOk(fam: Family, p: nat, q: nat)
    ensures StanzaOk(ProxyStanza(fam, p, q))
  {
    var r, s := Rule([DaddrLoopback, TcpDport(p)], Accept, "", NOTE_HTTP), Rule([DaddrLoopback, TcpDport(q)], Accept, "", NOTE_HTTPS);
    ShortRuleOk(r);
    ShortRuleOk(s);
    TwoRulesOk(C_PROXIES_ON + LoopbackText(fam), r, s);
  }

  lemma DnsProxyStanzaOk(p: nat)
    ensures StanzaOk(DnsProxyStanza(p))
  {
    var r, s := Plainly([DaddrLoopback, UdpDport(p)], Accept), Plainly([DaddrLoopback, TcpDport(p)], Accept);
    ShortRuleOk(r);
    ShortRuleOk(s);
    TwoRulesOk(C_DNS_PROXY, r, s);
  }

  lemma PingOk()
    ensures StanzaOk(PingStanza())
  {
    ShortRuleOk(Plainly([EchoRequest, DaddrIn(Allow)], Accept));
    OneRuleOk(C_PING, Plainly([EchoRequest, DaddrIn(Allow)], Accept));
  }

  lemma LoggedAcceptOk(comment: CleanText, kind: SetKind)
    ensures StanzaOk(LoggedAccept(comment, kind))
  {
    var r, s := Plainly([DaddrIn(kind)], Log(Allowed)), Plainly([DaddrIn(kind)], Accept);
    ShortRuleOk(r);
    ShortRuleOk(s);
    TwoRulesOk(comment, r, s);
  }

  lemma DropRestOk()
    ensures StanzaOk(DropRest())
  {
    ShortRuleOk(Plainly([], Log(Blocked)));
    TwoRulesOk(C_DROP_REST, Plainly([], Log(Blocked)), Plainly([], Drop));
  }

  lemma CommonOk()
    ensures AllOk(CommonStanzas()) && AllOk(DenyStanzas())
  {
  }

  lemma AllOkJoin(a: seq<Stanza>, b: seq<Stanza>)
    requires AllOk(a) && AllOk(b)
    ensures AllOk(a + b)
  {
  }

  lemma StrictTemplateOk(fam: Family, allow: seq<CleanText>, dnsPort: nat)
    ensures AllOk(DnsStrictFilter(fam, allow, dnsPort).stanzas)
  {
    var proxy := [DnsProxyStanza(dnsPort), PingStanza()];
    var neighbour := if fam.V6? then [Stanza(C_ND_NEEDED + C_ND_FOR, [Plainly([NeighbourDiscovery], Accept)])] else [];
    var rest := [LoggedAccept(C_LOG_STATIC + C_LISTED, Allow), LoggedAccept(C_RESOLVED + C_TTL, Resolved), DropRest()];
    CommonOk();
    DnsProxyStanzaOk(dnsPort);
    PingOk();
    ShortRuleOk(Plainly([NeighbourDiscovery], Accept));
    OneRuleOk(C_ND_NEEDED + C_ND_FOR, Plainly([NeighbourDiscovery], Accept));
    LoggedAcceptOk(C_LOG_STATIC + C_LISTED, Allow);
    LoggedAcceptOk(C_RESOLVED + C_TTL, Resolved);
    DropRestOk();
    AllOkJoin(CommonStanzas(), proxy);
    AllOkJoin(CommonStanzas() + proxy, neighbour);
    AllOkJoin(CommonStanzas() + proxy + neighbour, rest);
  }

  lemma HttpsTemplateOk(fam: Family, allow: seq<CleanText>, httpPort: nat, httpsPort: nat)
    ensures AllOk(HttpsFilter(fam, allow, httpPort, httpsPort).stanzas)
  {
    CommonOk();
    ProxyStanzaOk(fam, httpPort, httpsPort);
    PingOk();
    LoggedAcceptOk(C_LOG + C_LISTED, Allow);
    DropRestOk();
    AllOkJoin(CommonStanzas(), [ProxyStanza(fam, httpPort, httpsPort), PingStanza(), LoggedAccept(C_LOG + C_LISTED, Allow), DropRest()]);
  }

  /** The default-allow filters and the plain DNS filter, around either proxy stanza. */
  lemma AllowTemplateOk(proxy: Stanza)
    requires StanzaOk(proxy)
    ensures AllOk(CommonStanzas() + [proxy] + DenyStanzas()) && AllOk(CommonStanzas() + [proxy, PingStanza()])
  {
    CommonOk();
    PingOk();
    AllOkJoin(CommonStanzas(), [proxy]);
    AllOkJoin(CommonStanzas() + [proxy], DenyStanzas());
    AllOkJoin(CommonStanzas(), [proxy, PingStanza()]);
  }

  lemma FilterTemplatesOk(cfg: Config, fam: Family)
    ensures StanzasOk(FilterTable(cfg, fam).stanzas)
  {
    ProxyStanzaOk(fam, cfg.httpPort, cfg.httpsPort);
    DnsProxyStanzaOk(cfg.dnsPort);
    AllowTemplateOk(ProxyStanza(fam, cfg.httpPort, cfg.httpsPort));
    AllowTemplateOk(DnsProxyStanza(cfg.dnsPort));
    HttpsTemplateOk(fam, AllowElements(cfg, fam), cfg.httpPort, cfg.httpsPort);
    StrictTemplateOk(fam, AllowElements(cfg, fam), cfg.dnsPort);
    StanzasOkFrom(FilterTable(cfg, fam).stanzas);
  }

  lemma StanzasOkFrom(stanzas: seq<Stanza>)
    requires AllOk(stanzas)
    ensures StanzasOk(stanzas)
  {
  }

  lemma NatHeadsOk()
    ensures StanzaOk(NatMarked()) && StanzaOk(NatAllowed())
  {
    ShortRuleOk(Plainly([Marked], Return));
    ShortRuleOk(Plainly([DaddrIn(Allow)], Return));
    OneRuleOk(C_MARKED, Plainly([Marked], Return));
    OneRuleOk(C_RETURN, Plainly([DaddrIn(Allow)], Return));
  }

  lemma RedirectOk(dport: nat, port: nat, comment: CleanText, pad: CleanText)
    requires pad == "" || pad == " "
    ensures StanzaOk(RedirectStanza(comment, dport, pad, port))
  {
    var r, s := Rule([TcpDport(dport)], Log(Redirected), pad, ""), Rule([TcpDport(dport)], Redirect(port), pad, "");
    ShortRuleOk(r);
    ShortRuleOk(s);
    TwoRulesOk(comment, r, s);
  }

  lemma DnsNatOk(fam: Family, dnsPort: nat)
    ensures AllOk(DnsNat(fam, dnsPort).stanzas)
  {
    var s := DnsNat(fam, dnsPort).stanzas;
    NatHeadsOk();
    forall i | 1 <= i < 3 ensures StanzaOk(s[i]) {
      forall j | 0 <= j < 4 ensures RuleOk(s[i].rules[j]) { ShortRuleOk(s[i].rules[j]); }
      FourRulesOk(s[i]);
    }
  }

  lemma NatTemplatesOk(cfg: Config, fam: Family)
    ensures StanzasOk(NatTable(cfg, fam).stanzas)
  {
    NatHeadsOk();
    DnsNatOk(fam, cfg.dnsPort);
    RedirectOk(80, cfg.httpPort, C_HTTP, " ");
    RedirectOk(443, cfg.httpsPort, C_HTTPS, "");
    ShortRuleOk(Plainly([DaddrIn(Deny)], Return));
    OneRuleOk(C_DENIED_NOT + C_DENIED_PROXIED, Plainly([DaddrIn(Deny)], Return));
    StanzasOkFrom(NatTable(cfg, fam).stanzas);
  }

  // ---------------------------------------------------------------- audit on tables

  lemma {:induction false} StanzaLinesAudit(stanzas: seq<Stanza>, fam: Family)
    ensures StanzaLines(AuditStanzas(stanzas), fam) == AuditLines(StanzaLines(stanzas, fam))
  {
    if stanzas != [] {
      StanzaLinesAudit(stanzas[1..], fam);
      assert AuditStanzas(stanzas)[1..] == AuditStanzas(stanzas[1..]);
      assert RuleLines(AuditRules(stanzas[0].rules), fam) == AuditLines(RuleLines(stanzas[0].rules, fam));
      var head := [Frame(""), Comment(stanzas[0].comment)];
      AuditLinesConcat(head + RuleLines(stanzas[0].rules, fam), StanzaLines(stanzas[1..], fam));
      AuditLinesConcat(head, RuleLines(stanzas[0].rules, fam));
    }
  }

  lemma AuditLinesConcat(a: seq<Line>, b: seq<Line>)
    ensures AuditLines(a + b) == AuditLines(a) + AuditLines(b)
  {
  }

  lemma FramesAudit(lines: seq<Line>)
    requires forall i :: 0 <= i < |lines| ==> lines[i].Frame?
    ensures AuditLines(lines) == lines
  {
  }

  lemma TableLinesAudit(t: Table)
    ensures TableLines(AuditTable(t)) == AuditLines(TableLines(t))
  {
    var open := [Frame(""), Frame(TableOpen(t))];
    var sets := AllSetLines(t.sets, t.fam);
    var chain := [Frame(ChainOpen(t)), Header(t.hook)];
    var body := StanzaLines(t.stanzas, t.fam);
    var close := [Frame(BLOCK_CLOSE), Frame(TABLE_CLOSE)];
    AllSetLinesOk(t.sets, t.fam);
    FramesAudit(open);
    FramesAudit(sets);
    FramesAudit(close);
    StanzaLinesAudit(t.stanzas, t.fam);
    AuditLinesOfFive(open, sets, chain, body, close);
  }

  lemma AuditLinesOfFive(a: seq<Line>, b: seq<Line>, c: seq<Line>, d: seq<Line>, e: seq<Line>)
    ensures AuditLines(a + b + c + d + e) == AuditLines(a) + AuditLines(b) + AuditLines(c) + AuditLines(d) + AuditLines(e)
  {
    AuditLinesConcat(a, b);
    AuditLinesConcat(a + b, c);
    AuditLinesConcat(a + b + c, d);
    AuditLinesConcat(a + b + c + d, e);
  }

  // ---------------------------------------------------------------- the main result

  function RulesetLines(r: Ruleset): seq<Line> {
    TableLines(r.filterV4) + [Frame("")] + TableLines(r.natV4) + [Frame("")] +
    TableLines(r.filterV6) + [Frame("")] + TableLines(r.natV6)
  }

  lemma RulesetTextOfLines(r: Ruleset)
    ensures RulesetText(r) == Text(RulesetLines(r))
  {
    var gap := [Frame("")];
    var a, b, c, d := TableLines(r.filterV4), TableLines(r.natV4), TableLines(r.filterV6), TableLines(r.natV6);
    assert Text(gap) == "\n";
    TextConcat(a, gap);
    TextConcat(a + gap, b);
    TextConcat(a + gap + b, gap);
    TextConcat(a + gap + b + gap, c);
    TextConcat(a + gap + b + gap + c, gap);
    TextConcat(a + gap + b + gap + c + gap, d);
  }

  lemma RulesetLinesOk(r: Ruleset)
    requires StanzasOk(r.filterV4.stanzas) && StanzasOk(r.natV4.stanzas)
    requires StanzasOk(r.filterV6.stanzas) && StanzasOk(r.natV6.stanzas)
    ensures LinesOk(RulesetLines(r)) && RulesetLines(r)[0] == Frame("")
  {
    var gap := [Frame("")];
    var a, b, c, d := TableLines(r.filterV4), TableLines(r.natV4), TableLines(r.filterV6), TableLines(r.natV6);
    TableLinesOk(r.filterV4);
    TableLinesOk(r.natV4);
    TableLinesOk(r.filterV6);
    TableLinesOk(r.natV6);
    FrameOk("");
    BlocksJoin(a, gap);
    BlocksJoin(a + gap, b);
    BlocksJoin(a + gap + b, gap);
    BlocksJoin(a + gap + b + gap, c);
    BlocksJoin(a + gap + b + gap + c, gap);
    BlocksJoin(a + gap + b + gap + c + gap, d);
  }

  lemma RulesetLinesAudit(r: Ruleset)
    ensures RulesetLines(AuditRuleset(r)) == AuditLines(RulesetLines(r))
  {
    var gap := [Frame("")];
    var a, b, c, d := TableLines(r.filterV4), TableLines(r.natV4), TableLines(r.filterV6), TableLines(r.natV6);
    TableLinesAudit(r.filterV4);
    TableLinesAudit(r.natV4);
    TableLinesAudit(r.filterV6);
    TableLinesAudit(r.natV6);
    FramesAudit(gap);
    AuditLinesConcat(a, gap);
    AuditLinesConcat(a + gap, b);
    AuditLinesConcat(a + gap + b, gap);
    AuditLinesConcat(a + gap + b + gap, c);
    AuditLinesConcat(a + gap + b + gap + c, gap);
    AuditLinesConcat(a + gap + b + gap + c + gap, d);
  }

  /** For every configuration, the text handed to nft is exactly the rendering of the rules
      that Program says are in force: under audit, replacing phrases in the text and rewriting
      the rules come to the same. */
  lemma GeneratedTextIsProgram(cfg: Config)
    ensures GenerateRuleset(cfg) == RulesetText(Program(cfg))
  {
    if cfg.audit {
      var r := EnforcingRuleset(cfg);
      FilterTemplatesOk(cfg, V4);
      FilterTemplatesOk(cfg, V6);
      NatTemplatesOk(cfg, V4);
      NatTemplatesOk(cfg, V6);
      RulesetLinesOk(r);
      RulesetTextOfLines(r);
      AuditTextOfLines(RulesetLines(r));
      RulesetLinesAudit(r);
      RulesetTextOfLines(AuditRuleset(r));
    }
  }
}

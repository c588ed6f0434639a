/** What the generated texts do to a packet, mode by mode, in literal terms: the mode strings, the
    ports and addresses, and the lists of the configuration. */
module NftModes {
  import opened GoStrings
  import opened Sequences
  import opened Streams
  import opened Nft
  import opened NftTemplates
  import opened NftAudit
  import opened NftReader
  import opened NftReadBack
  import opened NftTextMeaning
  import opened NftDecisions
  import opened NftVerdicts

  // ---------------------------------------------------------------- lists

  lemma {:induction false} EmptyJoin(elements: seq<string>)
    ensures Join(elements, ", ") == "" <==> elements == [] || elements == [""]
  {
  }

  /** Some address of the allowlist covers the destination. Nothing but loopback is on an empty one. */
  ghost predicate OnAllowlist(cfg: Config, fam: Family, a: Addr, env: Env) {
    match fam
    case V4 =>
      if cfg.allowV4 == [] || cfg.allowV4 == [""] then env.covers("127.0.0.1", a)
      else exists i :: 0 <= i < |cfg.allowV4| && env.covers(cfg.allowV4[i], a)
    case V6 =>
      if cfg.allowV6 == [] || cfg.allowV6 == [""] then env.covers("::1", a)
      else exists i :: 0 <= i < |cfg.allowV6| && env.covers(cfg.allowV6[i], a)
  }

  ghost predicate OnDenylist(cfg: Config, fam: Family, a: Addr, env: Env) {
    match fam
    case V4 => exists i :: 0 <= i < |cfg.denyV4| && env.covers(cfg.denyV4[i], a)
    case V6 => exists i :: 0 <= i < |cfg.denyV6| && env.covers(cfg.denyV6[i], a)
  }

  lemma ListsAreGiven(cfg: Config, fam: Family, a: Addr, env: Env)
    ensures Allowlisted(cfg, fam, a, env) <==> OnAllowlist(cfg, fam, a, env)
    ensures Denylisted(cfg, fam, a, env) <==> OnDenylist(cfg, fam, a, env)
  {
    var given := if fam.V4? then cfg.allowV4 else cfg.allowV6;
    EmptyJoin(given);
    if Join(given, ", ") == "" { assert AllowElements(cfg, fam)[0] == LoopbackText(fam); }
  }

  // ---------------------------------------------------------------- modes

  /** Loopback-bound or established traffic, and what is addressed to the local DNS proxy. */
  predicate DnsExempt(cfg: Config, fam: Family, p: Packet) {
    p.oifLo || p.established ||
    (p.daddr == (if fam.V4? then 0x7F00_0001 else 1) && (p.l4 == Udp(cfg.dnsPort) || p.l4 == Tcp(cfg.dnsPort)))
  }

  predicate HttpsExempt(cfg: Config, fam: Family, p: Packet) {
    p.oifLo || p.established ||
    (p.daddr == (if fam.V4? then 0x7F00_0001 else 1) && (p.l4 == Tcp(cfg.httpPort) || p.l4 == Tcp(cfg.httpsPort)))
  }

  predicate IsQuery(fam: Family, p: Packet) {
    p.first && (p.l4 == Udp(53) || p.l4 == Tcp(53)) && p.daddr != (if fam.V4? then 0x7F00_0001 else 1)
  }

  /** Mode dns-strict, default-deny: queries go to the proxy, and of the rest passes what is exempt,
      on the allowlist or in the runtime set, and IPv6 neighbour discovery. */
  lemma StrictMode(cfg: Config, fam: Family, p: Packet, env: Env)
    requires ToLower(cfg.mode) == "dns-strict" && !cfg.defaultAllow && !cfg.audit
    ensures Process(cfg, fam, p, env).fate ==
            if p.marked then Direct
            else if IsQuery(fam, p) then ToProxy(cfg.dnsPort)
            else if DnsExempt(cfg, fam, p) || OnAllowlist(cfg, fam, p.daddr, env) || p.daddr in env.resolved
                    || (fam.V6? && p.l4 == Neighbour)
            then Direct
            else Discarded
  {
    EnforcedDecides(cfg, fam, p, env);
    ListsAreGiven(cfg, fam, p.daddr, env);
  }

  /** Mode dns, default-deny: queries go to the proxy, and nothing is discarded. */
  lemma DnsMode(cfg: Config, fam: Family, p: Packet, env: Env)
    requires ToLower(cfg.mode) == "dns" && !cfg.defaultAllow && !cfg.audit
    ensures Process(cfg, fam, p, env).fate == if !p.marked && IsQuery(fam, p) then ToProxy(cfg.dnsPort) else Direct
  {
    EnforcedDecides(cfg, fam, p, env);
  }

  /** Any other mode, default-deny: what is on the allowlist goes direct, web traffic to the
      proxies, and of the rest passes what is exempt. */
  lemma HttpsMode(cfg: Config, fam: Family, p: Packet, env: Env)
    requires ToLower(cfg.mode) != "dns" && ToLower(cfg.mode) != "dns-strict" && !cfg.defaultAllow && !cfg.audit
    ensures Process(cfg, fam, p, env).fate ==
            if p.marked || OnAllowlist(cfg, fam, p.daddr, env) then Direct
            else if p.first && p.l4 == Tcp(80) then ToProxy(cfg.httpPort)
            else if p.first && p.l4 == Tcp(443) then ToProxy(cfg.httpsPort)
            else if HttpsExempt(cfg, fam, p) then Direct
            else Discarded
  {
    EnforcedDecides(cfg, fam, p, env);
    ListsAreGiven(cfg, fam, p.daddr, env);
  }

  /** Both DNS modes, default-allow: queries go to the proxy, and of the rest is discarded what is
      on the denylist, not on the allowlist and not exempt. */
  lemma DnsDefaultAllow(cfg: Config, fam: Family, p: Packet, env: Env)
    requires (ToLower(cfg.mode) == "dns" || ToLower(cfg.mode) == "dns-strict") && cfg.defaultAllow && !cfg.audit
    ensures Process(cfg, fam, p, env).fate ==
            if p.marked then Direct
            else if IsQuery(fam, p) then ToProxy(cfg.dnsPort)
            else if OnDenylist(cfg, fam, p.daddr, env) && !OnAllowlist(cfg, fam, p.daddr, env) && !DnsExempt(cfg, fam, p)
            then Discarded
            else Direct
  {
    EnforcedDecides(cfg, fam, p, env);
    ListsAreGiven(cfg, fam, p.daddr, env);
  }

  /** Any other mode, default-allow: the same, with web traffic to destinations on neither list
      going to the proxies. */
  lemma HttpsDefaultAllow(cfg: Config, fam: Family, p: Packet, env: Env)
    requires ToLower(cfg.mode) != "dns" && ToLower(cfg.mode) != "dns-strict" && cfg.defaultAllow && !cfg.audit
    ensures Process(cfg, fam, p, env).fate ==
            if p.marked || OnAllowlist(cfg, fam, p.daddr, env) then Direct
            else if OnDenylist(cfg, fam, p.daddr, env) then (if HttpsExempt(cfg, fam, p) then Direct else Discarded)
            else if p.first && p.l4 == Tcp(80) then ToProxy(cfg.httpPort)
            else if p.first && p.l4 == Tcp(443) then ToProxy(cfg.httpsPort)
            else Direct
  {
    EnforcedDecides(cfg, fam, p, env);
    ListsAreGiven(cfg, fam, p.daddr, env);
  }

  /** What the tables hold in each mode: a filter chain is closed by default exactly where it enforces
      default-deny, and the runtime set exists exactly under the strict one. */
  lemma TablesByMode(cfg: Config)
    ensures var r, mode, closed := Program(cfg), ToLower(cfg.mode), !cfg.defaultAllow && ToLower(cfg.mode) != "dns";
            && r.filterV4.fam == r.natV4.fam == V4 && r.filterV6.fam == r.natV6.fam == V6
            && r.natV4.hook == r.natV6.hook == NatOutput
            && r.filterV4.hook == r.filterV6.hook == FilterOutput(closed && !cfg.audit)
            && (Timed(Resolved) in r.filterV4.sets <==> mode == "dns-strict" && !cfg.defaultAllow)
            && (Timed(Resolved) in r.filterV6.sets <==> mode == "dns-strict" && !cfg.defaultAllow)
            && Timed(Resolved) !in r.natV4.sets + r.natV6.sets
  {
  }

  // ---------------------------------------------------------------- the text decides

  function Flat(stanzas: seq<Stanza>): seq<Rule> {
    if stanzas == [] then [] else stanzas[0].rules + Flat(stanzas[1..])
  }

  lemma {:induction false} RunRulesTail(rules: seq<Rule>, from: nat, p: Packet, t: Table, env: Env)
    requires from <= |rules|
    ensures RunRules(rules, from, p, t, env) == RunRules(rules[from..], 0, p, t, env)
    decreases |rules| - from
  {
    if from < |rules| {
      RunRulesTail(rules, from + 1, p, t, env);
      RunRulesTail(rules[from..], 1, p, t, env);
      assert rules[from..][1..] == rules[from + 1..] && rules[from..][0] == rules[from];
    }
  }

  lemma {:induction false} RunRulesConcat(a: seq<Rule>, b: seq<Rule>, p: Packet, t: Table, env: Env)
    ensures RunRules(a + b, 0, p, t, env) == Then(RunRules(a, 0, p, t, env), RunRules(b, 0, p, t, env))
    decreases |a|
  {
    if a == [] {
      assert a + b == b;
      ThenNothing(RunRules(b, 0, p, t, env));
    } else {
      RunRulesTail(a, 1, p, t, env);
      RunRulesTail(a + b, 1, p, t, env);
      assert (a + b)[1..] == a[1..] + b && (a + b)[0] == a[0];
      RunRulesConcat(a[1..], b, p, t, env);
      ThenAssoc(RunRule(a[0], p, t, env), RunRules(a[1..], 0, p, t, env), RunRules(b, 0, p, t, env));
    }
  }

  lemma ThenNothing(b: Trace)
    ensures Then(Trace(Continue, []), b) == b
  {
  }

  lemma ThenAssoc(a: Trace, b: Trace, c: Trace)
    ensures Then(Then(a, b), c) == Then(a, Then(b, c))
  {
    Assoc(a.logs, b.logs, c.logs);
  }

  lemma {:induction false} RunStanzasFlat(stanzas: seq<Stanza>, from: nat, p: Packet, t: Table, env: Env)
    requires from <= |stanzas|
    ensures RunStanzas(stanzas, from, p, t, env) == RunRules(Flat(stanzas[from..]), 0, p, t, env)
    decreases |stanzas| - from
  {
    if from < |stanzas| {
      RunStanzasFlat(stanzas, from + 1, p, t, env);
      assert stanzas[from..][1..] == stanzas[from + 1..];
      RunRulesConcat(stanzas[from].rules, Flat(stanzas[from + 1..]), p, t, env);
    }
  }

  lemma {:induction false} ErasedConcat(a: seq<Rule>, b: seq<Rule>)
    ensures ErasedRules(a + b) == ErasedRules(a) + ErasedRules(b)
  {
    if a == [] {
      assert a + b == b;
    } else {
      assert (a + b)[1..] == a[1..] + b;
      ErasedConcat(a[1..], b);
      Assoc([Stripped(a[0])], ErasedRules(a[1..]), ErasedRules(b));
    }
  }

  lemma {:induction false} ErasedFlat(stanzas: seq<Stanza>)
    ensures ErasedStanzas(stanzas) == ErasedRules(Flat(stanzas))
  {
    if stanzas != [] {
      ErasedFlat(stanzas[1..]);
      ErasedConcat(stanzas[0].rules, Flat(stanzas[1..]));
    }
  }

  lemma {:induction false} ErasedSetsAt(sets: seq<SetDecl>)
    ensures |ErasedSets(sets)| == |sets| && forall i :: 0 <= i < |sets| ==> ErasedSets(sets)[i] == ErasedSet(sets[i])
  {
    if sets != [] { ErasedSetsAt(sets[1..]); }
  }

  lemma SetsAlike(t: Table, u: Table, kind: SetKind, a: Addr, env: Env)
    requires ErasedSets(t.sets) == ErasedSets(u.sets)
    ensures InSet(kind, a, t, env) <==> InSet(kind, a, u, env)
  {
    ErasedSetsAt(t.sets);
    ErasedSetsAt(u.sets);
    forall i | 0 <= i < |t.sets| ensures ErasedSet(t.sets[i]) == ErasedSet(u.sets[i]) {
      assert ErasedSets(t.sets)[i] == ErasedSets(u.sets)[i];
    }
    if InSet(kind, a, t, env) {
      var i :| 0 <= i < |t.sets| && t.sets[i].kind == kind &&
        (if t.sets[i].Timed? then a in env.resolved else Covered(t.sets[i].elements, a, env));
      SetAlike(t.sets[i], u.sets[i], a, env);
    }
    if InSet(kind, a, u, env) {
      var i :| 0 <= i < |u.sets| && u.sets[i].kind == kind &&
        (if u.sets[i].Timed? then a in env.resolved else Covered(u.sets[i].elements, a, env));
      SetAlike(t.sets[i], u.sets[i], a, env);
    }
  }

  lemma SetAlike(d: SetDecl, e: SetDecl, a: Addr, env: Env)
    requires ErasedSet(d) == ErasedSet(e)
    ensures d.kind == e.kind && (d.Timed? <==> e.Timed?)
    ensures d.Interval? ==> (Covered(d.elements, a, env) <==> Covered(e.elements, a, env))
  {
  }

  lemma RuleAlike(r: Rule, s: Rule, p: Packet, t: Table, u: Table, env: Env)
    requires Stripped(r) == Stripped(s) && t.fam == u.fam && ErasedSets(t.sets) == ErasedSets(u.sets)
    ensures RunRule(r, p, t, env) == RunRule(s, p, u, env)
  {
    forall i | 0 <= i < |r.conds| ensures Holds(r.conds[i], p, t, env) <==> Holds(r.conds[i], p, u, env) {
      if r.conds[i].DaddrIn? { SetsAlike(t, u, r.conds[i].kind, p.daddr, env); }
    }
  }

  lemma {:induction false} RulesAlike(a: seq<Rule>, b: seq<Rule>, p: Packet, t: Table, u: Table, env: Env)
    requires ErasedRules(a) == ErasedRules(b) && t.fam == u.fam && ErasedSets(t.sets) == ErasedSets(u.sets)
    ensures RunRules(a, 0, p, t, env) == RunRules(b, 0, p, u, env)
    decreases |a|
  {
    if a != [] && b != [] {
      assert ErasedRules(a)[0] == ErasedRules(b)[0] && ErasedRules(a)[1..] == ErasedRules(b)[1..];
      RuleAlike(a[0], b[0], p, t, u, env);
      RulesAlike(a[1..], b[1..], p, t, u, env);
      RunRulesTail(a, 1, p, t, env);
      RunRulesTail(b, 1, p, u, env);
    }
  }

  /** Comments, alignment and the grouping of rules make no difference. */
  lemma ChainsAlike(t: Table, u: Table, p: Packet, env: Env)
    requires Erased(t) == Erased(u)
    ensures RunChain(t, p, env) == RunChain(u, p, env)
  {
    RunStanzasFlat(t.stanzas, 0, p, t, env);
    RunStanzasFlat(u.stanzas, 0, p, u, env);
    assert t.stanzas[0..] == t.stanzas && u.stanzas[0..] == u.stanzas;
    ErasedFlat(t.stanzas);
    ErasedFlat(u.stanzas);
    RulesAlike(Flat(t.stanzas), Flat(u.stanzas), p, t, u, env);
  }

  lemma TraversesAlike(n: Table, f: Table, n': Table, f': Table, p: Packet, env: Env)
    requires Erased(n) == Erased(n') && Erased(f) == Erased(f')
    ensures Traverse(n, f, p, env) == Traverse(n', f', p, env)
  {
    ChainsAlike(n, n', p, env);
    var r := RunChain(n, p, env);
    var p' := if p.first && r.verdict.RedirectedTo? then AfterRedirect(p, n.fam, r.verdict.port) else p;
    ChainsAlike(f, f', p', env);
  }

  /** The tables a text gives one family: its NAT table and its filter table. */
  ghost predicate Gives(text: string, fam: Family, nat_: Table, filter: Table) {
    && Read(text).Some? && |Read(text).value| == 4
    && var k := if fam.V4? then 0 else 2;
    Read(text).value[k] == Erased(filter) && Read(text).value[k + 1] == Erased(nat_)
  }

  /** A packet that meets what the generated text says fares as the program, and so the decision
      table and the modes above, have it. */
  lemma TextDecides(cfg: Config, fam: Family, nat_: Table, filter: Table, p: Packet, env: Env)
    requires PlainConfig(cfg) && Gives(GenerateRuleset(cfg), fam, nat_, filter)
    ensures Traverse(nat_, filter, p, env) == Process(cfg, fam, p, env)
  {
    TextReadsBack(cfg);
    var r := Program(cfg);
    if fam.V4? {
      TraversesAlike(nat_, filter, r.natV4, r.filterV4, p, env);
    } else {
      TraversesAlike(nat_, filter, r.natV6, r.filterV6, p, env);
    }
  }
}

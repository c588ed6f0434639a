/** The main results about generated rulesets: every program implements the decision table,
    leaves exactly one trace of each refusal, and under audit keeps routing and refuses nothing. */
module NftVerdicts {
  import opened GoStrings
  import opened Nft
  import opened NftTemplates
  import opened NftAudit
  import opened NftDecisions

  ghost function Enforced(cfg: Config, fam: Family, p: Packet, env: Env): Outcome {
    Traverse(NatTable(cfg, fam), FilterTable(cfg, fam), p, env)
  }

  predicate IsRedirectLog(l: LogPrefix) { l.Redirected? || l.DnsRedirected? }

  /** One log line at most, and it tells the fate: "blocked" for a discarded packet, a redirect
      prefix for a proxied one; a packet that passes directly logs "allowed" or nothing. */
  ghost predicate LogsTellFate(o: Outcome) {
    match o.fate
    case Discarded => o.logs == [Blocked]
    case ToProxy(_) => |o.logs| == 1 && IsRedirectLog(o.logs[0])
    case Direct => o.logs == [] || o.logs == [Allowed]
  }

  lemma HttpsDenyEnforced(cfg: Config, fam: Family, p: Packet, env: Env)
    requires ModeOf(cfg.mode).Https? && !cfg.defaultAllow
    ensures Enforced(cfg, fam, p, env).fate == Decide(cfg, fam, p, env)
    ensures LogsTellFate(Enforced(cfg, fam, p, env))
  {
    var nat_, filter, allow := NatTable(cfg, fam), FilterTable(cfg, fam), AllowElements(cfg, fam);
    HttpsNatRun(nat_, allow, cfg.httpPort, cfg.httpsPort, p, env);
    var n := RunChain(nat_, p, env);
    if p.first && n.verdict.RedirectedTo? {
      HttpsFilterRun(filter, allow, cfg.httpPort, cfg.httpsPort, AfterRedirect(p, fam, n.verdict.port), env);
    } else {
      HttpsFilterRun(filter, allow, cfg.httpPort, cfg.httpsPort, p, env);
    }
  }

  lemma HttpsAllowEnforced(cfg: Config, fam: Family, p: Packet, env: Env)
    requires ModeOf(cfg.mode).Https? && cfg.defaultAllow
    ensures Enforced(cfg, fam, p, env).fate == Decide(cfg, fam, p, env)
    ensures LogsTellFate(Enforced(cfg, fam, p, env))
  {
    var nat_, filter := NatTable(cfg, fam), FilterTable(cfg, fam);
    var allow, deny := AllowElements(cfg, fam), DenyElements(cfg, fam);
    HttpsNatAllowRun(nat_, allow, deny, cfg.httpPort, cfg.httpsPort, p, env);
    var n := RunChain(nat_, p, env);
    if p.first && n.verdict.RedirectedTo? {
      HttpsFilterAllowRun(filter, allow, deny, cfg.httpPort, cfg.httpsPort, AfterRedirect(p, fam, n.verdict.port), env);
    } else {
      HttpsFilterAllowRun(filter, allow, deny, cfg.httpPort, cfg.httpsPort, p, env);
    }
  }

  lemma DnsAllowEnforced(cfg: Config, fam: Family, p: Packet, env: Env)
    requires !ModeOf(cfg.mode).Https? && cfg.defaultAllow
    ensures Enforced(cfg, fam, p, env).fate == Decide(cfg, fam, p, env)
    ensures LogsTellFate(Enforced(cfg, fam, p, env))
  {
    var nat_, filter := NatTable(cfg, fam), FilterTable(cfg, fam);
    var allow, deny := AllowElements(cfg, fam), DenyElements(cfg, fam);
    DnsNatRun(nat_, cfg.dnsPort, p, env);
    var n := RunChain(nat_, p, env);
    if p.first && n.verdict.RedirectedTo? {
      DnsFilterAllowRun(filter, allow, deny, cfg.dnsPort, AfterRedirect(p, fam, n.verdict.port), env);
    } else {
      DnsFilterAllowRun(filter, allow, deny, cfg.dnsPort, p, env);
    }
  }

  lemma DnsPlainEnforced(cfg: Config, fam: Family, p: Packet, env: Env)
    requires ModeOf(cfg.mode).Dns? && !cfg.defaultAllow
    ensures Enforced(cfg, fam, p, env).fate == Decide(cfg, fam, p, env)
    ensures LogsTellFate(Enforced(cfg, fam, p, env))
  {
    var nat_, filter, allow := NatTable(cfg, fam), FilterTable(cfg, fam), AllowElements(cfg, fam);
    DnsNatRun(nat_, cfg.dnsPort, p, env);
    var n := RunChain(nat_, p, env);
    if p.first && n.verdict.RedirectedTo? {
      DnsFilterRun(filter, allow, cfg.dnsPort, AfterRedirect(p, fam, n.verdict.port), env);
    } else {
      DnsFilterRun(filter, allow, cfg.dnsPort, p, env);
    }
  }

  lemma DnsStrictEnforced(cfg: Config, fam: Family, p: Packet, env: Env)
    requires ModeOf(cfg.mode).DnsStrict? && !cfg.defaultAllow
    ensures Enforced(cfg, fam, p, env).fate == Decide(cfg, fam, p, env)
    ensures LogsTellFate(Enforced(cfg, fam, p, env))
  {
    var nat_, filter, allow := NatTable(cfg, fam), FilterTable(cfg, fam), AllowElements(cfg, fam);
    DnsNatRun(nat_, cfg.dnsPort, p, env);
    var n := RunChain(nat_, p, env);
    if p.first && n.verdict.RedirectedTo? {
      DnsStrictFilterRun(filter, allow, cfg.dnsPort, AfterRedirect(p, fam, n.verdict.port), env);
    } else {
      DnsStrictFilterRun(filter, allow, cfg.dnsPort, p, env);
    }
  }

  lemma EnforcedFate(cfg: Config, fam: Family, p: Packet, env: Env)
    ensures Enforced(cfg, fam, p, env).fate == Decide(cfg, fam, p, env)
    ensures LogsTellFate(Enforced(cfg, fam, p, env))
  {
    if ModeOf(cfg.mode).Https? {
      if cfg.defaultAllow { HttpsAllowEnforced(cfg, fam, p, env); } else { HttpsDenyEnforced(cfg, fam, p, env); }
    } else if cfg.defaultAllow {
      DnsAllowEnforced(cfg, fam, p, env);
    } else if ModeOf(cfg.mode).Dns? {
      DnsPlainEnforced(cfg, fam, p, env);
    } else {
      DnsStrictEnforced(cfg, fam, p, env);
    }
  }

  /** For every mode, stance, family and packet, NAT then filter come to the decision table. */
  lemma EnforcedDecides(cfg: Config, fam: Family, p: Packet, env: Env)
    requires !cfg.audit
    ensures Process(cfg, fam, p, env).fate == Decide(cfg, fam, p, env)
    ensures LogsTellFate(Process(cfg, fam, p, env))
  {
    EnforcedFate(cfg, fam, p, env);
  }

  // ---------------------------------------------------------------- audit

  function AuditLogs(logs: seq<LogPrefix>): seq<LogPrefix> {
    seq(|logs|, i requires 0 <= i < |logs| => if logs[i].Blocked? then Audited else logs[i])
  }

  function AuditTrace(a: Trace): Trace {
    Trace(if a.verdict.Dropped? then Accepted else a.verdict, AuditLogs(a.logs))
  }

  lemma AuditThen(a: Trace, b: Trace)
    ensures AuditTrace(Then(a, b)) == Then(AuditTrace(a), AuditTrace(b))
  {
  }

  lemma AuditOneRule(r: Rule, p: Packet, t: Table, env: Env)
    ensures RunRule(AuditRule(r), p, AuditTable(t), env) == AuditTrace(RunRule(r, p, t, env))
  {
  }

  lemma {:induction false} AuditRunRules(rules: seq<Rule>, from: nat, p: Packet, t: Table, env: Env)
    requires from <= |rules|
    ensures RunRules(AuditRules(rules), from, p, AuditTable(t), env) == AuditTrace(RunRules(rules, from, p, t, env))
    decreases |rules| - from
  {
    if from < |rules| {
      AuditRunRules(rules, from + 1, p, t, env);
      AuditOneRule(rules[from], p, t, env);
      AuditThen(RunRule(rules[from], p, t, env), RunRules(rules, from + 1, p, t, env));
    }
  }

  lemma {:induction false} AuditRunStanzas(stanzas: seq<Stanza>, from: nat, p: Packet, t: Table, env: Env)
    requires from <= |stanzas|
    ensures RunStanzas(AuditStanzas(stanzas), from, p, AuditTable(t), env) ==
            AuditTrace(RunStanzas(stanzas, from, p, t, env))
    decreases |stanzas| - from
  {
    if from < |stanzas| {
      AuditRunStanzas(stanzas, from + 1, p, t, env);
      AuditRunRules(stanzas[from].rules, 0, p, t, env);
      AuditThen(RunRules(stanzas[from].rules, 0, p, t, env), RunStanzas(stanzas, from + 1, p, t, env));
    }
  }

  /** Whatever the tables, auditing them changes a traversal only by letting discarded packets
      through, and its logs only by saying "audit" for "blocked". */
  lemma AuditTraverse(nat_: Table, filter: Table, p: Packet, env: Env)
    requires forall q: Packet :: !RunChain(nat_, q, env).verdict.Dropped?
    ensures var o, a := Traverse(nat_, filter, p, env), Traverse(AuditTable(nat_), AuditTable(filter), p, env);
            && !a.fate.Discarded?
            && (o.fate.Discarded? || a.fate == o.fate)
            && (a.fate.ToProxy? ==> RunChain(nat_, p, env).verdict.RedirectedTo? && RunChain(nat_, p, env).logs <= o.logs)
            && a.logs == AuditLogs(o.logs)
  {
    AuditRunStanzas(nat_.stanzas, 0, p, nat_, env);
    var n := RunChain(nat_, p, env);
    var p' := if p.first && n.verdict.RedirectedTo? then AfterRedirect(p, nat_.fam, n.verdict.port) else p;
    AuditRunStanzas(filter.stanzas, 0, p', filter, env);
    AuditThen(Trace(Continue, n.logs), RunChain(filter, p', env));
    AuditThen(Trace(Continue, []), RunChain(filter, p', env));
  }

  lemma NatVerdicts(cfg: Config, fam: Family, p: Packet, env: Env)
    ensures var n := RunChain(NatTable(cfg, fam), p, env);
            !n.verdict.Dropped? && (n.verdict.RedirectedTo? ==> |n.logs| == 1 && IsRedirectLog(n.logs[0]))
  {
    var t := NatTable(cfg, fam);
    var allow, deny := AllowElements(cfg, fam), DenyElements(cfg, fam);
    if !ModeOf(cfg.mode).Https? {
      DnsNatRun(t, cfg.dnsPort, p, env);
    } else if cfg.defaultAllow {
      HttpsNatAllowRun(t, allow, deny, cfg.httpPort, cfg.httpsPort, p, env);
    } else {
      HttpsNatRun(t, allow, cfg.httpPort, cfg.httpsPort, p, env);
    }
  }

  lemma AuditedFate(cfg: Config, fam: Family, p: Packet, env: Env)
    ensures var o := Enforced(cfg, fam, p, env);
            Traverse(AuditTable(NatTable(cfg, fam)), AuditTable(FilterTable(cfg, fam)), p, env) ==
            Outcome(if o.fate.Discarded? then Direct else o.fate, AuditLogs(o.logs))
  {
    var nat_, filter := NatTable(cfg, fam), FilterTable(cfg, fam);
    forall q: Packet ensures !RunChain(nat_, q, env).verdict.Dropped? { NatVerdicts(cfg, fam, q, env); }
    NatVerdicts(cfg, fam, p, env);
    EnforcedFate(cfg, fam, p, env);
    AuditTraverse(nat_, filter, p, env);
  }

  /** The audit setting, on every configuration and packet: what enforcement would discard now
      passes directly and logs "audit" where it logged "blocked"; everything else, redirects and
      their logs included, is as without it. */
  lemma AuditOnlyLiftsDrops(cfg: Config, fam: Family, p: Packet, env: Env)
    requires cfg.audit
    ensures var o, a := Process(cfg.(audit := false), fam, p, env), Process(cfg, fam, p, env);
            && a.fate == (if o.fate.Discarded? then Direct else o.fate)
            && (o.fate.Discarded? ==> a.logs == [Audited] && o.logs == [Blocked])
            && (!o.fate.Discarded? ==> a.logs == o.logs)
  {
    EnforcedFate(cfg.(audit := false), fam, p, env);
    AuditedFate(cfg.(audit := false), fam, p, env);
    ProcessSides(cfg, fam, p, env);
    AuditLogsOf(Enforced(cfg.(audit := false), fam, p, env));
  }

  /** Both sides of the comparison, as traversals of the same enforcing tables. */
  lemma ProcessSides(cfg: Config, fam: Family, p: Packet, env: Env)
    requires cfg.audit
    ensures var plain := cfg.(audit := false);
            && Process(plain, fam, p, env) == Enforced(plain, fam, p, env)
            && Process(cfg, fam, p, env) ==
               Traverse(AuditTable(NatTable(plain, fam)), AuditTable(FilterTable(plain, fam)), p, env)
  {
    SameTables(cfg, fam);
  }

  lemma AuditLogsOf(o: Outcome)
    requires LogsTellFate(o)
    ensures AuditLogs(o.logs) == if o.fate.Discarded? then [Audited] else o.logs
  {
  }

  lemma SameTables(cfg: Config, fam: Family)
    ensures NatTable(cfg.(audit := false), fam) == NatTable(cfg, fam)
    ensures FilterTable(cfg.(audit := false), fam) == FilterTable(cfg, fam)
  {
  }

  // ---------------------------------------------------------------- readings of the table

  /** An allowlisted destination is never discarded, whatever the denylist says. */
  lemma AllowOverridesDeny(cfg: Config, fam: Family, p: Packet, env: Env)
    requires !cfg.audit && Allowlisted(cfg, fam, p.daddr, env)
    ensures var o := Process(cfg, fam, p, env);
            !o.fate.Discarded? && (ModeOf(cfg.mode).Https? ==> o.fate == Direct)
  {
    EnforcedDecides(cfg, fam, p, env);
  }

  lemma DecideCorresponds(cfg: Config, p4: Packet, p6: Packet, env4: Env, env6: Env)
    requires p6 == p4.(daddr := p6.daddr)
    requires Allowlisted(cfg, V4, p4.daddr, env4) <==> Allowlisted(cfg, V6, p6.daddr, env6)
    requires Denylisted(cfg, V4, p4.daddr, env4) <==> Denylisted(cfg, V6, p6.daddr, env6)
    requires p4.daddr == Loopback(V4) <==> p6.daddr == Loopback(V6)
    requires p4.daddr in env4.resolved <==> p6.daddr in env6.resolved
    ensures var d4, d6 := Decide(cfg, V4, p4, env4), Decide(cfg, V6, p6, env6);
            d4 != d6 ==> d4 == Discarded && d6 == Direct && ModeOf(cfg.mode).DnsStrict? && !cfg.defaultAllow && p4.l4 == Neighbour
  {
  }

  /** The IPv4 and IPv6 programs decide alike on packets that their lists see alike, except
      that dns-strict lets IPv6 neighbour discovery through. */
  lemma FamiliesCorrespond(cfg: Config, p4: Packet, p6: Packet, env4: Env, env6: Env)
    requires !cfg.audit && p6 == p4.(daddr := p6.daddr)
    requires Allowlisted(cfg, V4, p4.daddr, env4) <==> Allowlisted(cfg, V6, p6.daddr, env6)
    requires Denylisted(cfg, V4, p4.daddr, env4) <==> Denylisted(cfg, V6, p6.daddr, env6)
    requires p4.daddr == Loopback(V4) <==> p6.daddr == Loopback(V6)
    requires p4.daddr in env4.resolved <==> p6.daddr in env6.resolved
    ensures var o4, o6 := Process(cfg, V4, p4, env4), Process(cfg, V6, p6, env6);
            o4.fate != o6.fate <==>
            && o4.fate == Discarded && o6.fate == Direct
            && ModeOf(cfg.mode).DnsStrict? && !cfg.defaultAllow && p4.l4 == Neighbour
  {
    EnforcedDecides(cfg, V4, p4, env4);
    EnforcedDecides(cfg, V6, p6, env6);
    DecideCorresponds(cfg, p4, p6, env4, env6);
  }
}

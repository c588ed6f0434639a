/** What the generated rulesets do to a packet: an evaluator for rule programs, and the
    short decision table that every generated program is proved to implement. */
module NftDecisions {
  import opened GoStrings
  import opened Nft
  import opened NftTemplates
  import opened NftAudit

  // ---------------------------------------------------------------- packets

  type Addr = nat

  datatype Layer4 = Tcp(dport: nat) | Udp(dport: nat) | Echo | Neighbour | Other

  /** `first`: the flow has no NAT binding yet, so the NAT hook consults its chain.
      `established`: matched by `ct state established,related`. */
  datatype Packet = Packet(daddr: Addr, l4: Layer4, oifLo: bool, established: bool, marked: bool, first: bool)

  /** The kernel's side: which addresses a set element covers, and what the runtime set holds now. */
  datatype Env = Env(covers: (string, Addr) -> bool, resolved: set<Addr>)

  function Loopback(fam: Family): Addr { if fam.V4? then 0x7F00_0001 else 1 }

  // ---------------------------------------------------------------- evaluation

  datatype Verdict = Continue | Accepted | Dropped | Returned | RedirectedTo(port: nat)

  datatype Trace = Trace(verdict: Verdict, logs: seq<LogPrefix>)

  ghost predicate Covered(elements: seq<string>, a: Addr, env: Env) {
    exists i :: 0 <= i < |elements| && env.covers(elements[i], a)
  }

  ghost predicate InSet(kind: SetKind, a: Addr, t: Table, env: Env) {
    exists i :: 0 <= i < |t.sets| && t.sets[i].kind == kind &&
      (if t.sets[i].Timed? then a in env.resolved else Covered(t.sets[i].elements, a, env))
  }

  ghost predicate Holds(c: Cond, p: Packet, t: Table, env: Env) {
    match c
    case OifLo => p.oifLo
    case Established => p.established
    case Marked => p.marked
    case DaddrLoopback => p.daddr == Loopback(t.fam)
    case TcpDport(n) => p.l4 == Tcp(n)
    case UdpDport(n) => p.l4 == Udp(n)
    case DaddrIn(kind) => InSet(kind, p.daddr, t, env)
    case EchoRequest => p.l4 == Echo
    case NeighbourDiscovery => p.l4 == Neighbour
  }

  ghost predicate Matches(r: Rule, p: Packet, t: Table, env: Env) {
    forall i :: 0 <= i < |r.conds| ==> Holds(r.conds[i], p, t, env)
  }

  /** A log statement is non-terminal; every other statement ends the chain. */
  ghost function RunRule(r: Rule, p: Packet, t: Table, env: Env): Trace {
    if !Matches(r, p, t, env) then Trace(Continue, [])
    else match r.stmt
      case Log(prefix) => Trace(Continue, [prefix])
      case Accept => Trace(Accepted, [])
      case Drop => Trace(Dropped, [])
      case Return => Trace(Returned, [])
      case Redirect(port) => Trace(RedirectedTo(port), [])
  }

  function Then(a: Trace, b: Trace): Trace {
    if a.verdict.Continue? then Trace(b.verdict, a.logs + b.logs) else a
  }

  ghost function RunRules(rules: seq<Rule>, from: nat, p: Packet, t: Table, env: Env): Trace
    requires from <= |rules|
    decreases |rules| - from
  {
    if from == |rules| then Trace(Continue, [])
    else Then(RunRule(rules[from], p, t, env), RunRules(rules, from + 1, p, t, env))
  }

  ghost function RunStanzas(stanzas: seq<Stanza>, from: nat, p: Packet, t: Table, env: Env): Trace
    requires from <= |stanzas|
    decreases |stanzas| - from
  {
    if from == |stanzas| then Trace(Continue, [])
    else Then(RunRules(stanzas[from].rules, 0, p, t, env), RunStanzas(stanzas, from + 1, p, t, env))
  }

  ghost function RunChain(t: Table, p: Packet, env: Env): Trace {
    RunStanzas(t.stanzas, 0, p, t, env)
  }

  datatype Fate = Direct | ToProxy(port: nat) | Discarded

  datatype Outcome = Outcome(fate: Fate, logs: seq<LogPrefix>)

  /** A redirect on the output hook sends the packet to loopback on the given port; the
      interface match of the later filter hook still sees the original device. */
  function AfterRedirect(p: Packet, fam: Family, port: nat): Packet {
    p.(daddr := Loopback(fam),
       l4 := match p.l4 case Tcp(_) => Tcp(port) case Udp(_) => Udp(port) case other => other)
  }

  /** The NAT output hook (priority -100), then the filter output hook (priority 0). */
  ghost function Traverse(nat_: Table, filter: Table, p: Packet, env: Env): Outcome {
    var n := if p.first then RunChain(nat_, p, env) else Trace(Continue, []);
    var p' := if n.verdict.RedirectedTo? then AfterRedirect(p, nat_.fam, n.verdict.port) else p;
    var f := RunChain(filter, p', env);
    var dropped := f.verdict.Dropped? ||
                   (!f.verdict.Accepted? && filter.hook.FilterOutput? && filter.hook.policyDrop);
    Outcome(if dropped then Discarded
            else if n.verdict.RedirectedTo? then ToProxy(n.verdict.port)
            else Direct,
            n.logs + f.logs)
  }

  /** What the ruleset of a configuration does to a packet. */
  ghost function Process(cfg: Config, fam: Family, p: Packet, env: Env): Outcome {
    var r := Program(cfg);
    if fam.V4? then Traverse(r.natV4, r.filterV4, p, env) else Traverse(r.natV6, r.filterV6, p, env)
  }

  // ---------------------------------------------------------------- the decision table

  ghost predicate Allowlisted(cfg: Config, fam: Family, a: Addr, env: Env) {
    Covered(AllowElements(cfg, fam), a, env)
  }

  ghost predicate Denylisted(cfg: Config, fam: Family, a: Addr, env: Env) {
    Covered(DenyElements(cfg, fam), a, env)
  }

  /** Traffic addressed to the local proxies themselves. */
  predicate ToLocalProxy(cfg: Config, fam: Family, p: Packet) {
    p.daddr == Loopback(fam) &&
    if ModeOf(cfg.mode).Https? then p.l4 == Tcp(cfg.httpPort) || p.l4 == Tcp(cfg.httpsPort)
    else p.l4 == Udp(cfg.dnsPort) || p.l4 == Tcp(cfg.dnsPort)
  }

  predicate Exempt(cfg: Config, fam: Family, p: Packet) {
    p.oifLo || p.established || ToLocalProxy(cfg, fam, p)
  }

  predicate IsDns(p: Packet) { p.l4 == Udp(53) || p.l4 == Tcp(53) }

  /** The verdict a reader of the documentation expects, without the audit setting. */
  ghost function Decide(cfg: Config, fam: Family, p: Packet, env: Env): Fate {
    var allowed, denied := Allowlisted(cfg, fam, p.daddr, env), Denylisted(cfg, fam, p.daddr, env);
    var exempt := Exempt(cfg, fam, p);
    if p.marked then Direct
    else match ModeOf(cfg.mode)
      case Https =>
        if allowed then Direct
        else if cfg.defaultAllow && denied then (if exempt then Direct else Discarded)
        else if p.first && p.l4 == Tcp(80) then ToProxy(cfg.httpPort)
        else if p.first && p.l4 == Tcp(443) then ToProxy(cfg.httpsPort)
        else if cfg.defaultAllow || exempt then Direct
        else Discarded
      case _ =>
        if p.first && IsDns(p) && p.daddr != Loopback(fam) then ToProxy(cfg.dnsPort)
        else if cfg.defaultAllow then (if allowed || !denied || exempt then Direct else Discarded)
        else if ModeOf(cfg.mode).Dns? then Direct
        else if exempt || allowed || p.daddr in env.resolved || (fam.V6? && p.l4 == Neighbour) then Direct
        else Discarded
  }

  // ---------------------------------------------------------------- chains, unrolled

  lemma MatchesShort(r: Rule, p: Packet, t: Table, env: Env)
    requires |r.conds| <= 2
    ensures Matches(r, p, t, env) <==>
            && (|r.conds| >= 1 ==> Holds(r.conds[0], p, t, env))
            && (|r.conds| >= 2 ==> Holds(r.conds[1], p, t, env))
  {
  }

  lemma RunOne(r: Rule, p: Packet, t: Table, env: Env)
    ensures RunRules([r], 0, p, t, env) == RunRule(r, p, t, env)
  {
  }

  lemma RunTwo(r: Rule, s: Rule, p: Packet, t: Table, env: Env)
    ensures RunRules([r, s], 0, p, t, env) == Then(RunRule(r, p, t, env), RunRule(s, p, t, env))
  {
    assert RunRules([r, s], 2, p, t, env) == Trace(Continue, []);
    assert RunRules([r, s], 1, p, t, env) == RunRule(s, p, t, env);
  }

  /** A stanza of one verdict rule with one condition. */
  lemma OneVerdict(c: Cond, stmt: Stmt, comment: CleanText, p: Packet, t: Table, env: Env)
    ensures RunRules([Plainly([c], stmt)], 0, p, t, env) ==
            if Holds(c, p, t, env) then RunRule(Plainly([], stmt), p, t, env) else Trace(Continue, [])
  {
    RunOne(Plainly([c], stmt), p, t, env);
    MatchesShort(Plainly([c], stmt), p, t, env);
    MatchesShort(Plainly([], stmt), p, t, env);
  }

  /** A stanza that logs and then gives its verdict, under one condition or none. */
  lemma LogThen(r: Rule, s: Rule, p: Packet, t: Table, env: Env)
    requires r.conds == s.conds && |r.conds| <= 1 && r.stmt.Log? && !s.stmt.Log?
    ensures RunRules([r, s], 0, p, t, env) ==
            if |r.conds| == 1 && !Holds(r.conds[0], p, t, env) then Trace(Continue, [])
            else Trace(RunRule(Plainly([], s.stmt), p, t, env).verdict, [r.stmt.prefix])
  {
    RunTwo(r, s, p, t, env);
    MatchesShort(r, p, t, env);
    MatchesShort(s, p, t, env);
    MatchesShort(Plainly([], s.stmt), p, t, env);
  }

  /** A rule that ends the chain under two conditions. */
  lemma PairRun(r: Rule, c: Cond, d: Cond, v: Verdict, p: Packet, t: Table, env: Env)
    requires r.conds == [c, d] && ((r.stmt.Accept? && v.Accepted?) || (r.stmt.Return? && v.Returned?))
    ensures RunRule(r, p, t, env) == Trace(if Holds(c, p, t, env) && Holds(d, p, t, env) then v else Continue, [])
  {
    MatchesShort(r, p, t, env);
  }

  lemma CommonRun(p: Packet, t: Table, env: Env)
    ensures var c := CommonStanzas();
            && |c| == 3
            && RunRules(c[0].rules, 0, p, t, env) == Trace(if p.oifLo then Accepted else Continue, [])
            && RunRules(c[1].rules, 0, p, t, env) == Trace(if p.established then Accepted else Continue, [])
            && RunRules(c[2].rules, 0, p, t, env) == Trace(if p.marked then Accepted else Continue, [])
  {
    OneVerdict(OifLo, Accept, "", p, t, env);
    OneVerdict(Established, Accept, "", p, t, env);
    OneVerdict(Marked, Accept, "", p, t, env);
    MatchesShort(Plainly([], Accept), p, t, env);
  }

  lemma ProxyRun(p: Packet, t: Table, env: Env, httpPort: nat, httpsPort: nat)
    ensures RunRules(ProxyStanza(t.fam, httpPort, httpsPort).rules, 0, p, t, env) ==
            Trace(if p.daddr == Loopback(t.fam) && (p.l4 == Tcp(httpPort) || p.l4 == Tcp(httpsPort))
                  then Accepted else Continue, [])
  {
    var rules := ProxyStanza(t.fam, httpPort, httpsPort).rules;
    RunTwo(rules[0], rules[1], p, t, env);
    PairRun(rules[0], DaddrLoopback, TcpDport(httpPort), Accepted, p, t, env);
    PairRun(rules[1], DaddrLoopback, TcpDport(httpsPort), Accepted, p, t, env);
  }

  lemma DnsProxyRun(p: Packet, t: Table, env: Env, dnsPort: nat)
    ensures RunRules(DnsProxyStanza(dnsPort).rules, 0, p, t, env) ==
            Trace(if p.daddr == Loopback(t.fam) && (p.l4 == Udp(dnsPort) || p.l4 == Tcp(dnsPort))
                  then Accepted else Continue, [])
  {
    var rules := DnsProxyStanza(dnsPort).rules;
    RunTwo(rules[0], rules[1], p, t, env);
    PairRun(rules[0], DaddrLoopback, UdpDport(dnsPort), Accepted, p, t, env);
    PairRun(rules[1], DaddrLoopback, TcpDport(dnsPort), Accepted, p, t, env);
  }

  lemma PingRun(p: Packet, t: Table, env: Env)
    ensures RunRules(PingStanza().rules, 0, p, t, env) ==
            Trace(if p.l4 == Echo && InSet(Allow, p.daddr, t, env) then Accepted else Continue, [])
  {
    RunOne(PingStanza().rules[0], p, t, env);
    MatchesShort(PingStanza().rules[0], p, t, env);
  }

  lemma DenyRun(p: Packet, t: Table, env: Env)
    ensures var d := DenyStanzas();
            && |d| == 2
            && RunRules(d[0].rules, 0, p, t, env) == Trace(if InSet(Allow, p.daddr, t, env) then Accepted else Continue, [])
            && RunRules(d[1].rules, 0, p, t, env) ==
               if InSet(Deny, p.daddr, t, env) then Trace(Dropped, [Blocked]) else Trace(Continue, [])
  {
    OneVerdict(DaddrIn(Allow), Accept, "", p, t, env);
    LogThen(Plainly([DaddrIn(Deny)], Log(Blocked)), Plainly([DaddrIn(Deny)], Drop), p, t, env);
    MatchesShort(Plainly([], Accept), p, t, env);
    MatchesShort(Plainly([], Drop), p, t, env);
  }

  lemma LoggedRun(comment: CleanText, kind: SetKind, p: Packet, t: Table, env: Env)
    ensures RunRules(LoggedAccept(comment, kind).rules, 0, p, t, env) ==
            if InSet(kind, p.daddr, t, env) then Trace(Accepted, [Allowed]) else Trace(Continue, [])
    ensures RunRules(DropRest().rules, 0, p, t, env) == Trace(Dropped, [Blocked])
  {
    LogThen(Plainly([DaddrIn(kind)], Log(Allowed)), Plainly([DaddrIn(kind)], Accept), p, t, env);
    LogThen(Plainly([], Log(Blocked)), Plainly([], Drop), p, t, env);
    MatchesShort(Plainly([], Accept), p, t, env);
    MatchesShort(Plainly([], Drop), p, t, env);
  }

  lemma RedirectRun(comment: CleanText, dport: nat, pad: CleanText, port: nat, p: Packet, t: Table, env: Env)
    ensures RunRules(RedirectStanza(comment, dport, pad, port).rules, 0, p, t, env) ==
            if p.l4 == Tcp(dport) then Trace(RedirectedTo(port), [LogPrefix.Redirected]) else Trace(Continue, [])
  {
    var rules := RedirectStanza(comment, dport, pad, port).rules;
    LogThen(rules[0], rules[1], p, t, env);
    MatchesShort(Plainly([], Redirect(port)), p, t, env);
  }

  /** Stanzas from an index on, when the one at the index is known. */
  lemma StanzaStep(stanzas: seq<Stanza>, i: nat, p: Packet, t: Table, env: Env)
    requires i < |stanzas|
    ensures RunStanzas(stanzas, i, p, t, env) ==
            Then(RunRules(stanzas[i].rules, 0, p, t, env), RunStanzas(stanzas, i + 1, p, t, env))
  {
  }

  lemma CommonPrefix(t: Table, p: Packet, env: Env)
    requires |t.stanzas| >= 3 && t.stanzas[..3] == CommonStanzas()
    ensures RunChain(t, p, env) ==
            if p.oifLo || p.established || p.marked then Trace(Accepted, []) else RunStanzas(t.stanzas, 3, p, t, env)
  {
    CommonRun(p, t, env);
    assert t.stanzas[0] == CommonStanzas()[0] && t.stanzas[1] == CommonStanzas()[1] && t.stanzas[2] == CommonStanzas()[2];
    StanzaStep(t.stanzas, 0, p, t, env);
    StanzaStep(t.stanzas, 1, p, t, env);
    StanzaStep(t.stanzas, 2, p, t, env);
  }

  lemma HttpsFilterRun(t: Table, allow: seq<CleanText>, httpPort: nat, httpsPort: nat, p: Packet, env: Env)
    requires t == HttpsFilter(t.fam, allow, httpPort, httpsPort)
    ensures RunChain(t, p, env) ==
            if p.oifLo || p.established || p.marked then Trace(Accepted, [])
            else if p.daddr == Loopback(t.fam) && (p.l4 == Tcp(httpPort) || p.l4 == Tcp(httpsPort)) then Trace(Accepted, [])
            else if Covered(allow, p.daddr, env) then Trace(Accepted, if p.l4 == Echo then [] else [Allowed])
            else Trace(Dropped, [Blocked])
  {
    var s := t.stanzas;
    CommonPrefix(t, p, env);
    assert InSet(Allow, p.daddr, t, env) <==> Covered(allow, p.daddr, env) by { AllowSet(t, allow, p.daddr, env); }
    ProxyRun(p, t, env, httpPort, httpsPort);
    PingRun(p, t, env);
    LoggedRun(C_LOG + C_LISTED, Allow, p, t, env);
    assert |s| == 7 && s[3] == ProxyStanza(t.fam, httpPort, httpsPort) && s[4] == PingStanza();
    assert s[5] == LoggedAccept(C_LOG + C_LISTED, Allow) && s[6] == DropRest();
    StanzaStep(s, 3, p, t, env);
    StanzaStep(s, 4, p, t, env);
    StanzaStep(s, 5, p, t, env);
    StanzaStep(s, 6, p, t, env);
  }

  lemma AllowSet(t: Table, allow: seq<CleanText>, a: Addr, env: Env)
    requires |t.sets| >= 1 && t.sets[0] == Interval(Allow, allow)
    requires forall i :: 1 <= i < |t.sets| ==> !t.sets[i].kind.Allow?
    ensures InSet(Allow, a, t, env) <==> Covered(allow, a, env)
  {
  }

  lemma DenySet(t: Table, deny: seq<CleanText>, a: Addr, env: Env)
    requires |t.sets| == 2 && t.sets[0].kind.Allow? && t.sets[1] == Interval(Deny, deny)
    ensures InSet(Deny, a, t, env) <==> Covered(deny, a, env)
  {
  }

  lemma ResolvedSet(t: Table, a: Addr, env: Env)
    requires |t.sets| == 2 && t.sets[0].kind.Allow? && t.sets[1] == Timed(Resolved)
    ensures InSet(Resolved, a, t, env) <==> a in env.resolved
  {
  }

  /** The end of both default-allow filter chains. */
  lemma DenyTail(t: Table, allow: seq<CleanText>, deny: seq<CleanText>, p: Packet, env: Env)
    requires t.sets == [Interval(Allow, allow), Interval(Deny, deny)]
    requires |t.stanzas| == 6 && t.stanzas[4..] == DenyStanzas()
    ensures RunStanzas(t.stanzas, 4, p, t, env) ==
            if Covered(allow, p.daddr, env) then Trace(Accepted, [])
            else if Covered(deny, p.daddr, env) then Trace(Dropped, [Blocked])
            else Trace(Continue, [])
  {
    AllowSet(t, allow, p.daddr, env);
    DenySet(t, deny, p.daddr, env);
    DenyRun(p, t, env);
    assert t.stanzas[4] == DenyStanzas()[0] && t.stanzas[5] == DenyStanzas()[1];
    StanzaStep(t.stanzas, 4, p, t, env);
    StanzaStep(t.stanzas, 5, p, t, env);
  }

  lemma HttpsFilterAllowRun(t: Table, allow: seq<CleanText>, deny: seq<CleanText>, httpPort: nat, httpsPort: nat,
                            p: Packet, env: Env)
    requires t == HttpsFilterAllow(t.fam, allow, deny, httpPort, httpsPort)
    ensures RunChain(t, p, env) ==
            if p.oifLo || p.established || p.marked then Trace(Accepted, [])
            else if p.daddr == Loopback(t.fam) && (p.l4 == Tcp(httpPort) || p.l4 == Tcp(httpsPort)) then Trace(Accepted, [])
            else if Covered(allow, p.daddr, env) then Trace(Accepted, [])
            else if Covered(deny, p.daddr, env) then Trace(Dropped, [Blocked])
            else Trace(Continue, [])
  {
    CommonPrefix(t, p, env);
    ProxyRun(p, t, env, httpPort, httpsPort);
    assert t.stanzas[3] == ProxyStanza(t.fam, httpPort, httpsPort);
    DenyTail(t, allow, deny, p, env);
    StanzaStep(t.stanzas, 3, p, t, env);
  }

  lemma DnsFilterAllowRun(t: Table, allow: seq<CleanText>, deny: seq<CleanText>, dnsPort: nat, p: Packet, env: Env)
    requires t == DnsFilterAllow(t.fam, allow, deny, dnsPort)
    ensures RunChain(t, p, env) ==
            if p.oifLo || p.established || p.marked then Trace(Accepted, [])
            else if p.daddr == Loopback(t.fam) && (p.l4 == Udp(dnsPort) || p.l4 == Tcp(dnsPort)) then Trace(Accepted, [])
            else if Covered(allow, p.daddr, env) then Trace(Accepted, [])
            else if Covered(deny, p.daddr, env) then Trace(Dropped, [Blocked])
            else Trace(Continue, [])
  {
    CommonPrefix(t, p, env);
    DnsProxyRun(p, t, env, dnsPort);
    assert t.stanzas[3] == DnsProxyStanza(dnsPort);
    DenyTail(t, allow, deny, p, env);
    StanzaStep(t.stanzas, 3, p, t, env);
  }

  lemma DnsFilterRun(t: Table, allow: seq<CleanText>, dnsPort: nat, p: Packet, env: Env)
    requires t == DnsFilter(t.fam, allow, dnsPort)
    ensures RunChain(t, p, env).logs == [] && !RunChain(t, p, env).verdict.Dropped?
  {
    CommonPrefix(t, p, env);
    DnsProxyRun(p, t, env, dnsPort);
    PingRun(p, t, env);
    assert |t.stanzas| == 5 && t.stanzas[3] == DnsProxyStanza(dnsPort) && t.stanzas[4] == PingStanza();
    StanzaStep(t.stanzas, 3, p, t, env);
    StanzaStep(t.stanzas, 4, p, t, env);
  }

  lemma DnsStrictFilterRun(t: Table, allow: seq<CleanText>, dnsPort: nat, p: Packet, env: Env)
    requires t == DnsStrictFilter(t.fam, allow, dnsPort)
    ensures RunChain(t, p, env) ==
            if p.oifLo || p.established || p.marked then Trace(Accepted, [])
            else if p.daddr == Loopback(t.fam) && (p.l4 == Udp(dnsPort) || p.l4 == Tcp(dnsPort)) then Trace(Accepted, [])
            else if p.l4 == Echo && Covered(allow, p.daddr, env) then Trace(Accepted, [])
            else if t.fam.V6? && p.l4 == Neighbour then Trace(Accepted, [])
            else if Covered(allow, p.daddr, env) || p.daddr in env.resolved then Trace(Accepted, [Allowed])
            else Trace(Dropped, [Blocked])
  {
    var s := t.stanzas;
    CommonPrefix(t, p, env);
    AllowSet(t, allow, p.daddr, env);
    ResolvedSet(t, p.daddr, env);
    DnsProxyRun(p, t, env, dnsPort);
    PingRun(p, t, env);
    StanzaStep(s, 3, p, t, env);
    StanzaStep(s, 4, p, t, env);
    assert s[3] == DnsProxyStanza(dnsPort) && s[4] == PingStanza();
    StrictTail(t, allow, dnsPort, p, env);
  }

  lemma StrictTail(t: Table, allow: seq<CleanText>, dnsPort: nat, p: Packet, env: Env)
    requires t == DnsStrictFilter(t.fam, allow, dnsPort)
    ensures RunStanzas(t.stanzas, 5, p, t, env) ==
            if t.fam.V6? && p.l4 == Neighbour then Trace(Accepted, [])
            else if InSet(Allow, p.daddr, t, env) || InSet(Resolved, p.daddr, t, env) then Trace(Accepted, [Allowed])
            else Trace(Dropped, [Blocked])
  {
    var s := t.stanzas;
    LoggedRun(C_LOG_STATIC + C_LISTED, Allow, p, t, env);
    LoggedRun(C_RESOLVED + C_TTL, Resolved, p, t, env);
    OneVerdict(NeighbourDiscovery, Accept, C_ND_NEEDED, p, t, env);
    MatchesShort(Plainly([], Accept), p, t, env);
    var k := if t.fam.V6? then 6 else 5;
    assert |s| == k + 3 && s[k] == LoggedAccept(C_LOG_STATIC + C_LISTED, Allow);
    assert s[k + 1] == LoggedAccept(C_RESOLVED + C_TTL, Resolved) && s[k + 2] == DropRest();
    StanzaStep(s, k, p, t, env);
    StanzaStep(s, k + 1, p, t, env);
    StanzaStep(s, k + 2, p, t, env);
    if t.fam.V6? {
      assert s[5].rules == [Plainly([NeighbourDiscovery], Accept)];
      StanzaStep(s, 5, p, t, env);
    }
  }

  lemma NatHead(t: Table, allow: seq<CleanText>, p: Packet, env: Env)
    requires |t.sets| >= 1 && t.sets[0] == Interval(Allow, allow)
    requires forall i :: 1 <= i < |t.sets| ==> !t.sets[i].kind.Allow?
    requires |t.stanzas| >= 2 && t.stanzas[..2] == [NatMarked(), NatAllowed()]
    ensures RunChain(t, p, env) ==
            if p.marked || Covered(allow, p.daddr, env) then Trace(Returned, []) else RunStanzas(t.stanzas, 2, p, t, env)
  {
    AllowSet(t, allow, p.daddr, env);
    OneVerdict(Marked, Return, "", p, t, env);
    OneVerdict(DaddrIn(Allow), Return, "", p, t, env);
    MatchesShort(Plainly([], Return), p, t, env);
    assert t.stanzas[0] == NatMarked() && t.stanzas[1] == NatAllowed();
    StanzaStep(t.stanzas, 0, p, t, env);
    StanzaStep(t.stanzas, 1, p, t, env);
  }

  lemma WebTail(t: Table, httpPort: nat, httpsPort: nat, p: Packet, env: Env)
    requires |t.stanzas| >= 2 && t.stanzas[|t.stanzas| - 2..] == WebRedirects(httpPort, httpsPort)
    ensures RunStanzas(t.stanzas, |t.stanzas| - 2, p, t, env) ==
            if p.l4 == Tcp(80) then Trace(RedirectedTo(httpPort), [LogPrefix.Redirected])
            else if p.l4 == Tcp(443) then Trace(RedirectedTo(httpsPort), [LogPrefix.Redirected])
            else Trace(Continue, [])
  {
    var s, w := t.stanzas, WebRedirects(httpPort, httpsPort);
    RedirectRun(C_HTTP, 80, " ", httpPort, p, t, env);
    RedirectRun(C_HTTPS, 443, "", httpsPort, p, t, env);
    assert s[|s| - 2] == w[0] && s[|s| - 1] == w[1];
    StanzaStep(s, |s| - 2, p, t, env);
    StanzaStep(s, |s| - 1, p, t, env);
  }

  lemma HttpsNatRun(t: Table, allow: seq<CleanText>, httpPort: nat, httpsPort: nat, p: Packet, env: Env)
    requires t == HttpsNat(t.fam, allow, httpPort, httpsPort)
    ensures RunChain(t, p, env) ==
            if p.marked || Covered(allow, p.daddr, env) then Trace(Returned, [])
            else if p.l4 == Tcp(80) then Trace(RedirectedTo(httpPort), [LogPrefix.Redirected])
            else if p.l4 == Tcp(443) then Trace(RedirectedTo(httpsPort), [LogPrefix.Redirected])
            else Trace(Continue, [])
  {
    NatHead(t, allow, p, env);
    WebTail(t, httpPort, httpsPort, p, env);
  }

  lemma HttpsNatAllowRun(t: Table, allow: seq<CleanText>, deny: seq<CleanText>, httpPort: nat, httpsPort: nat,
                         p: Packet, env: Env)
    requires t == HttpsNatAllow(t.fam, allow, deny, httpPort, httpsPort)
    ensures RunChain(t, p, env) ==
            if p.marked || Covered(allow, p.daddr, env) || Covered(deny, p.daddr, env) then Trace(Returned, [])
            else if p.l4 == Tcp(80) then Trace(RedirectedTo(httpPort), [LogPrefix.Redirected])
            else if p.l4 == Tcp(443) then Trace(RedirectedTo(httpsPort), [LogPrefix.Redirected])
            else Trace(Continue, [])
  {
    NatHead(t, allow, p, env);
    WebTail(t, httpPort, httpsPort, p, env);
    DenySet(t, deny, p.daddr, env);
    OneVerdict(DaddrIn(Deny), Return, "", p, t, env);
    MatchesShort(Plainly([], Return), p, t, env);
    assert t.stanzas[2].rules == [Plainly([DaddrIn(Deny)], Return)];
    StanzaStep(t.stanzas, 2, p, t, env);
  }

  lemma RunFour(r: seq<Rule>, p: Packet, t: Table, env: Env)
    requires |r| == 4
    ensures RunRules(r, 0, p, t, env) ==
            Then(RunRule(r[0], p, t, env), Then(RunRule(r[1], p, t, env),
              Then(RunRule(r[2], p, t, env), RunRule(r[3], p, t, env))))
  {
    assert RunRules(r, 4, p, t, env) == Trace(Continue, []);
    assert RunRules(r, 3, p, t, env) == RunRule(r[3], p, t, env);
    assert RunRules(r, 2, p, t, env) == Then(RunRule(r[2], p, t, env), RunRule(r[3], p, t, env));
  }

  lemma ExemptRun(t: Table, dnsPort: nat, p: Packet, env: Env)
    requires t == DnsNat(t.fam, dnsPort)
    ensures RunRules(t.stanzas[1].rules, 0, p, t, env) ==
            Trace(if p.daddr == Loopback(t.fam) && (IsDns(p) || p.l4 == Udp(dnsPort) || p.l4 == Tcp(dnsPort))
                  then Returned else Continue, [])
  {
    var r := t.stanzas[1].rules;
    RunFour(r, p, t, env);
    PairRun(r[0], DaddrLoopback, UdpDport(53), Returned, p, t, env);
    PairRun(r[1], DaddrLoopback, TcpDport(53), Returned, p, t, env);
    PairRun(r[2], DaddrLoopback, UdpDport(dnsPort), Returned, p, t, env);
    PairRun(r[3], DaddrLoopback, TcpDport(dnsPort), Returned, p, t, env);
  }

  lemma DnsRedirectRun(t: Table, dnsPort: nat, p: Packet, env: Env)
    requires t == DnsNat(t.fam, dnsPort)
    ensures RunRules(t.stanzas[2].rules, 0, p, t, env) ==
            if IsDns(p) then Trace(RedirectedTo(dnsPort), [LogPrefix.DnsRedirected]) else Trace(Continue, [])
  {
    var r := t.stanzas[2].rules;
    RunFour(r, p, t, env);
    MatchesShort(r[0], p, t, env);
    MatchesShort(r[1], p, t, env);
    MatchesShort(r[2], p, t, env);
    MatchesShort(r[3], p, t, env);
  }

  lemma DnsNatRun(t: Table, dnsPort: nat, p: Packet, env: Env)
    requires t == DnsNat(t.fam, dnsPort)
    ensures var n := RunChain(t, p, env);
            if !p.marked && IsDns(p) && p.daddr != Loopback(t.fam)
            then n == Trace(RedirectedTo(dnsPort), [LogPrefix.DnsRedirected])
            else n.logs == [] && (n.verdict.Returned? || n.verdict.Continue?)
  {
    OneVerdict(Marked, Return, "", p, t, env);
    MatchesShort(Plainly([], Return), p, t, env);
    ExemptRun(t, dnsPort, p, env);
    DnsRedirectRun(t, dnsPort, p, env);
    assert t.stanzas[0] == NatMarked();
    StanzaStep(t.stanzas, 0, p, t, env);
    StanzaStep(t.stanzas, 1, p, t, env);
    StanzaStep(t.stanzas, 2, p, t, env);
  }
}

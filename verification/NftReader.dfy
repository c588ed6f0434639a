/** A reader of nft ruleset text, as far as the templates go, with its own keywords: what a
    generated text says to nft, independently of how it was rendered. */
module NftReader {
  import opened GoStrings
  import opened Sequences
  import opened Streams
  import opened Nft

  // ---------------------------------------------------------------- words

  /** A comment reaches from its sign to the end of the line. */
  predicate Stops(c: char) { c == ' ' || c == '#' }

  function WordEnd(s: string): (n: nat)
    ensures n <= |s| && (n < |s| ==> Stops(s[n])) && forall k :: 0 <= k < n ==> !Stops(s[k])
    ensures s != [] && !Stops(s[0]) ==> n > 0
  {
    if s == [] || Stops(s[0]) then 0 else 1 + WordEnd(s[1..])
  }

  function Words(line: string): seq<string>
    decreases |line|
  {
    if line == [] || line[0] == '#' then []
    else if line[0] == ' ' then Words(line[1..])
    else [line[..WordEnd(line)]] + Words(line[WordEnd(line)..])
  }

  /** A number in decimal notation, by value. */
  function ReadNat(w: string): Option<nat> {
    if w == [] || !('0' <= w[|w| - 1] <= '9') then None
    else
      var digit := w[|w| - 1] as int - '0' as int;
      if |w| == 1 then Some(digit)
      else match ReadNat(w[..|w| - 1])
        case Some(n) => Some(10 * n + digit)
        case None => None
  }

  // ---------------------------------------------------------------- rules

  /** What a rule says, without alignment and comments. */
  datatype Bare = Bare(conds: seq<Cond>, stmt: Stmt)

  function ReadSetName(fam: Family, w: string): Option<SetKind> {
    match fam
    case V4 =>
      if w == "allow_daddr_v4" then Some(Allow)
      else if w == "deny_daddr_v4" then Some(Deny)
      else if w == "resolved_allow_v4" then Some(Resolved)
      else None
    case V6 =>
      if w == "allow_daddr_v6" then Some(Allow)
      else if w == "deny_daddr_v6" then Some(Deny)
      else if w == "resolved_allow_v6" then Some(Resolved)
      else None
  }

  /** A destination in a table of the family: the loopback address or a named set. */
  function ReadDestination(fam: Family, w: string): Option<Cond> {
    if (fam.V4? && w == "127.0.0.1") || (fam.V6? && w == "::1") then Some(DaddrLoopback)
    else if w == [] || w[0] != '@' then None
    else match ReadSetName(fam, w[1..])
      case Some(kind) => Some(DaddrIn(kind))
      case None => None
  }

  /** A condition of three words. */
  function ReadThree(fam: Family, a: string, b: string, c: string): Option<Cond> {
    if a == "ct" && b == "state" && c == "established,related" then Some(Established)
    else if a == "meta" && b == "mark" && c == "0x1" then Some(Marked)
    else if a == "tcp" && b == "dport" then
      match ReadNat(c) case Some(port) => Some(TcpDport(port)) case None => None
    else if a == "udp" && b == "dport" then
      match ReadNat(c) case Some(port) => Some(UdpDport(port)) case None => None
    else if (fam.V4? && a == "ip" && b == "daddr") || (fam.V6? && a == "ip6" && b == "daddr") then ReadDestination(fam, c)
    else if ((fam.V4? && a == "icmp") || (fam.V6? && a == "icmpv6")) && b == "type" && c == "echo-request" then Some(EchoRequest)
    else None
  }

  predicate IsDiscovery(ws: seq<string>) {
    && |ws| >= 8 && ws[0] == "icmpv6" && ws[1] == "type" && ws[2] == "{"
    && ws[3] == "nd-neighbor-solicit," && ws[4] == "nd-neighbor-advert,"
    && ws[5] == "nd-router-solicit," && ws[6] == "nd-router-advert" && ws[7] == "}"
  }

  /** The first condition and the number of its words. */
  function ReadCond(fam: Family, ws: seq<string>): Option<(Cond, nat)> {
    if |ws| >= 2 && ws[0] == "oifname" && ws[1] == "\"lo\"" then Some((OifLo, 2))
    else if IsDiscovery(ws) then Some((NeighbourDiscovery, 8))
    else if |ws| < 3 then None
    else match ReadThree(fam, ws[0], ws[1], ws[2])
      case Some(c) => Some((c, 3))
      case None => None
  }

  function ReadPrefix(w: string): Option<LogPrefix> {
    if w == "\"blocked\"" then Some(Blocked)
    else if w == "\"allowed\"" then Some(Allowed)
    else if w == "\"audit\"" then Some(Audited)
    else if w == "\"redirected\"" then Some(Redirected)
    else if w == "\"dns_redirected\"" then Some(DnsRedirected)
    else None
  }

  /** A statement takes the whole rest of the rule. */
  function ReadStmt(ws: seq<string>): Option<Stmt> {
    if |ws| == 1 && ws[0] == "accept" then Some(Accept)
    else if |ws| == 1 && ws[0] == "drop" then Some(Drop)
    else if |ws| == 1 && ws[0] == "return" then Some(Return)
    else if |ws| == 3 && ws[0] == "redirect" && ws[1] == "to" && ws[2] != [] && ws[2][0] == ':' then
      match ReadNat(ws[2][1..]) case Some(port) => Some(Redirect(port)) case None => None
    else if |ws| == 5 && ws[0] == "log" && ws[1] == "prefix" && ws[3] == "group" && ws[4] == "0" then
      match ReadPrefix(ws[2]) case Some(p) => Some(Log(p)) case None => None
    else None
  }

  function ReadRule(fam: Family, ws: seq<string>): Option<Bare>
    decreases |ws|
  {
    match ReadStmt(ws)
    case Some(stmt) => Some(Bare([], stmt))
    case None =>
      match ReadCond(fam, ws)
      case None => None
      case Some((c, n)) =>
        match ReadRule(fam, ws[n..])
        case Some(rest) => Some(Bare([c] + rest.conds, rest.stmt))
        case None => None
  }

  // ---------------------------------------------------------------- tables

  datatype ReadSet = Listed(kind: SetKind, elements: seq<string>) | Filled(kind: SetKind)

  datatype ReadTable = ReadTable(fam: Family, sets: seq<ReadSet>, hook: Hook, rules: seq<Bare>)

  /** Where in a text the reader is. `nat_`: in the table for address translation. */
  datatype Phase =
    | Between
    | WithinTable(fam: Family, nat_: bool, sets: seq<ReadSet>)
    | WithinSet(fam: Family, nat_: bool, sets: seq<ReadSet>, kind: SetKind, typed: bool, set_: Option<ReadSet>)
    | BeforeHook(fam: Family, nat_: bool, sets: seq<ReadSet>)
    | WithinChain(table: ReadTable)
    | Closing(table: ReadTable)
    | Failed

  datatype State = State(done: seq<ReadTable>, phase: Phase)

  /** Set elements are separated by commas, the last is followed by a brace. */
  predicate PlainElement(e: string) {
    e != "" && forall i :: 0 <= i < |e| ==> !Stops(e[i]) && e[i] != ',' && e[i] != '{' && e[i] != '}' && e[i] != '\n'
  }

  function ReadElements(ws: seq<string>): Option<seq<string>> {
    if ws == [] || ws[0] == [] then None
    else
      var w := ws[0];
      var element, end := w[..|w| - 1], w[|w| - 1];
      if !PlainElement(element) then None
      else if |ws| == 1 then (if end == '}' then Some([element]) else None)
      else if end != ',' then None
      else match ReadElements(ws[1..])
        case Some(rest) => Some([element] + rest)
        case None => None
  }

  function ReadTableName(ws: seq<string>): Option<Phase> {
    if |ws| != 4 || ws[0] != "table" || ws[3] != "{" then None
    else if ws[1] == "ip" && ws[2] == "g0efilter_v4" then Some(WithinTable(V4, false, []))
    else if ws[1] == "ip" && ws[2] == "g0efilter_nat_v4" then Some(WithinTable(V4, true, []))
    else if ws[1] == "ip6" && ws[2] == "g0efilter_v6" then Some(WithinTable(V6, false, []))
    else if ws[1] == "ip6" && ws[2] == "g0efilter_nat_v6" then Some(WithinTable(V6, true, []))
    else None
  }

  predicate IsChainName(fam: Family, nat_: bool, w: string) {
    if nat_ then w == "output" else if fam.V4? then w == "egress_allowlist_v4" else w == "egress_allowlist_v6"
  }

  function ReadHook(nat_: bool, ws: seq<string>): Option<Hook> {
    if nat_ then
      if && |ws| == 6 && ws[0] == "type" && ws[1] == "nat" && ws[2] == "hook" && ws[3] == "output"
         && ws[4] == "priority" && ws[5] == "-100;" then Some(NatOutput) else None
    else if && |ws| == 8 && ws[0] == "type" && ws[1] == "filter" && ws[2] == "hook" && ws[3] == "output"
            && ws[4] == "priority" && ws[5] == "filter;" && ws[6] == "policy" then
      if ws[7] == "drop;" then Some(FilterOutput(true))
      else if ws[7] == "accept;" then Some(FilterOutput(false))
      else None
    else None
  }

  function ReadInSet(p: Phase, ws: seq<string>): Phase
    requires p.WithinSet?
  {
    if |ws| == 1 && ws[0] == "}" then
      if p.typed && p.set_.Some? then WithinTable(p.fam, p.nat_, p.sets + [p.set_.value]) else Failed
    else if |ws| == 2 && ws[0] == "type" && ws[1] == (if p.fam.V4? then "ipv4_addr" else "ipv6_addr") then p.(typed := true)
    else if |ws| == 2 && ws[0] == "flags" && ws[1] == "interval" then p.(set_ := Some(Listed(p.kind, [])))
    else if |ws| == 2 && ws[0] == "flags" && ws[1] == "timeout" then p.(set_ := Some(Filled(p.kind)))
    else if |ws| >= 3 && ws[0] == "elements" && ws[1] == "=" && ws[2] != [] && ws[2][0] == '{' && p.set_ == Some(Listed(p.kind, [])) then
      match ReadElements([ws[2][1..]] + ws[3..])
      case Some(elements) => p.(set_ := Some(Listed(p.kind, elements)))
      case None => Failed
    else Failed
  }

  function ReadInTable(p: Phase, ws: seq<string>): Phase
    requires p.WithinTable?
  {
    if |ws| != 3 || ws[2] != "{" then Failed
    else if ws[0] == "set" then
      match ReadSetName(p.fam, ws[1])
      case Some(kind) => WithinSet(p.fam, p.nat_, p.sets, kind, false, None)
      case None => Failed
    else if ws[0] == "chain" && IsChainName(p.fam, p.nat_, ws[1]) then BeforeHook(p.fam, p.nat_, p.sets)
    else Failed
  }

  function Step(s: State, ws: seq<string>): State {
    if ws == [] then s
    else match s.phase
      case Between => State(s.done, match ReadTableName(ws) case Some(p) => p case None => Failed)
      case WithinTable(_, _, _) => State(s.done, ReadInTable(s.phase, ws))
      case WithinSet(_, _, _, _, _, _) => State(s.done, ReadInSet(s.phase, ws))
      case BeforeHook(fam, nat_, sets) =>
        State(s.done, match ReadHook(nat_, ws) case Some(hook) => WithinChain(ReadTable(fam, sets, hook, [])) case None => Failed)
      case WithinChain(t) =>
        if |ws| == 1 && ws[0] == "}" then State(s.done, Closing(t))
        else State(s.done, match ReadRule(t.fam, ws) case Some(r) => WithinChain(t.(rules := t.rules + [r])) case None => Failed)
      case Closing(t) => if |ws| == 1 && ws[0] == "}" then State(s.done + [t], Between) else State(s.done, Failed)
      case Failed => s
  }

  function ReadLines(s: State, lines: seq<string>): State
    decreases |lines|
  {
    if lines == [] then s else ReadLines(Step(s, Words(lines[0])), lines[1..])
  }

  /** The tables that a text defines, in order. */
  function Read(text: string): Option<seq<ReadTable>> {
    var s := ReadLines(State([], Between), Split(text, '\n'));
    if s.phase.Between? then Some(s.done) else None
  }
}

/** The nftables rulesets of internal/nftables/nftables.go: every chain template as data,
    the text it renders to, and an evaluator that runs a packet through the NAT output
    hook (priority -100) and then the filter output hook (priority 0). */
module Nft {
  import opened GoStrings

  datatype Family = V4 | V6

  // ---------------------------------------------------------------- rules

  datatype SetKind = Allow | Deny | Resolved

  datatype Cond =
    | OifLo
    | Established
    | Marked
    | DaddrLoopback
    | TcpDport(port: nat)
    | UdpDport(port: nat)
    | DaddrIn(kind: SetKind)
    | EchoRequest
    | NeighbourDiscovery

  datatype Stmt =
    | Log(prefix: LogPrefix)
    | Accept
    | Drop
    | Return
    | Redirect(port: nat)

  datatype LogPrefix = Blocked | Allowed | Audited | Redirected | DnsRedirected

  /** One rule; `pad` and `note` are the alignment and trailing comment of its template line. */
  datatype Rule = Rule(conds: seq<Cond>, stmt: Stmt, pad: CleanText, note: CleanText)

  /** A comment line followed by the rules it announces. */
  datatype Stanza = Stanza(comment: CleanText, rules: seq<Rule>)

  /** A named set: `Timed` is the runtime set that starts empty and is filled by the DNS proxy. */
  datatype SetDecl = Interval(kind: SetKind, elements: seq<CleanText>) | Timed(kind: SetKind)

  datatype Hook = NatOutput | FilterOutput(policyDrop: bool)

  datatype Table = Table(fam: Family, sets: seq<SetDecl>, hook: Hook, stanzas: seq<Stanza>)

  datatype Ruleset = Ruleset(filterV4: Table, natV4: Table, filterV6: Table, natV6: Table)

  // ---------------------------------------------------------------- text

  /** A character that occurs in no phrase the audit rewrite looks for, or in no single line. */
  predicate Plain(c: char) { c != ';' && c != '"' && c != '@' && c != '\n' }

  ghost predicate Clean(s: string) { forall i :: 0 <= i < |s| ==> Plain(s[i]) }

  /** Most of a template. Literals are given in short pieces, which keeps checking them cheap. */
  type CleanText = s: string | Clean(s) witness ""

  const INDENT: CleanText := "        "
  const BARE_DROP: CleanText := INDENT + "drop"

  datatype Line =
    | Frame(text: CleanText)
    | Comment(text: CleanText)
    | Header(hook: Hook)
    | RuleLine(fam: Family, rule: Rule)

  function Ip(fam: Family): CleanText { if fam.V4? then "ip" else "ip6" }

  function Suffix(fam: Family): CleanText { if fam.V4? then "v4" else "v6" }

  function LoopbackText(fam: Family): CleanText { if fam.V4? then "127.0.0.1" else "::1" }

  const ALLOW_SET: CleanText := "allow_daddr_"
  const DENY_SET: CleanText := "deny_daddr_"
  const RESOLVED_SET: CleanText := "resolved_" + "allow_"

  function SetName(kind: SetKind, fam: Family): CleanText {
    (match kind case Allow => ALLOW_SET case Deny => DENY_SET case Resolved => RESOLVED_SET) + Suffix(fam)
  }

  const DADDR: CleanText := " daddr "
  const OIFNAME: CleanText := "oifname "
  const LO: CleanText := "lo"
  const CT_STATE: CleanText := "ct state esta" + "blished,related"
  const META_MARK: CleanText := "meta mark 0x1"
  const TCP_DPORT: CleanText := "tcp dport "
  const UDP_DPORT: CleanText := "udp dport "
  const ECHO: CleanText := " type echo-request"
  const ND_TYPE: CleanText := "icmpv6 type { "
  const ND_SOLICIT: CleanText := "nd-neighbor-" + "solicit, "
  const ND_ADVERT: CleanText := "nd-neighbor-" + "advert, "
  const ND_ROUTER_SOLICIT: CleanText := "nd-router-" + "solicit, "
  const ND_ROUTER_ADVERT: CleanText := "nd-router-" + "advert }"

  function Icmp(fam: Family): CleanText { if fam.V4? then "icmp" else "icmpv6" }

  function Digits(n: nat): CleanText { Decimal(n) }

  function CondText(c: Cond, fam: Family): string {
    match c
    case OifLo => OIFNAME + "\"" + LO + "\""
    case Established => CT_STATE
    case Marked => META_MARK
    case DaddrLoopback => Ip(fam) + DADDR + LoopbackText(fam)
    case TcpDport(p) => TCP_DPORT + Digits(p)
    case UdpDport(p) => UDP_DPORT + Digits(p)
    case DaddrIn(kind) => Ip(fam) + DADDR + "@" + SetName(kind, fam)
    case EchoRequest => Icmp(fam) + ECHO
    case NeighbourDiscovery => ND_TYPE + ND_SOLICIT + ND_ADVERT + ND_ROUTER_SOLICIT + ND_ROUTER_ADVERT
  }

  function CondsText(conds: seq<Cond>, fam: Family): string {
    if conds == [] then "" else CondText(conds[0], fam) + " " + CondsText(conds[1..], fam)
  }

  function PrefixText(p: LogPrefix): CleanText {
    match p
    case Blocked => "blocked"
    case Allowed => "allowed"
    case Audited => "audit"
    case Redirected => "redirected"
    case DnsRedirected => "dns_redirected"
  }

  const LOG_PREFIX: CleanText := "log prefix "
  const GROUP: CleanText := " group 0"
  const ACCEPT: CleanText := "accept"
  const DROP: CleanText := "drop"
  const RETURN: CleanText := "return"
  const REDIRECT: CleanText := "redirect to :"

  function StmtText(s: Stmt): string {
    match s
    case Log(p) => LOG_PREFIX + "\"" + PrefixText(p) + "\"" + GROUP
    case Accept => ACCEPT
    case Drop => DROP
    case Return => RETURN
    case Redirect(p) => REDIRECT + Digits(p)
  }

  const NAT_HEADER := INDENT + "type nat " + "hook output " + "priority -100;"
  const FILTER_HEADER := INDENT + "type filter " + "hook output " + "priority filter; "

  function LineText(l: Line): string {
    match l
    case Frame(s) => s
    case Comment(s) => INDENT + "# " + s
    case Header(NatOutput) => NAT_HEADER
    case Header(FilterOutput(drop)) => FILTER_HEADER + (if drop then "policy drop;" else "policy accept;")
    case RuleLine(fam, r) => INDENT + CondsText(r.conds, fam) + r.pad + StmtText(r.stmt) + r.note
  }

  /** Lines as a text block, each ended by a newline. */
  function Text(lines: seq<Line>): string {
    if lines == [] then "" else LineText(lines[0]) + "\n" + Text(lines[1..])
  }

  const SET_OPEN: CleanText := "    set "
  const SET_TYPE: CleanText := INDENT + "type ip"
  const SET_ADDR: CleanText := "_addr"
  const FLAGS_TIMEOUT: CleanText := INDENT + "flags timeout"
  const FLAGS_INTERVAL: CleanText := INDENT + "flags " + "interval"
  const ELEMENTS_OPEN: CleanText := INDENT + "elements = {"
  const BLOCK_OPEN: CleanText := " {"
  const BLOCK_CLOSE: CleanText := "    }"
  const TABLE_CLOSE: CleanText := "}"

  /** setBlock: the elements line is left out when the joined list is empty. */
  function SetLines(d: SetDecl, fam: Family): seq<Line> {
    [Frame(SET_OPEN + SetName(d.kind, fam) + BLOCK_OPEN), Frame(SET_TYPE + Suffix(fam) + SET_ADDR)] +
    (match d
     case Timed(_) => [Frame(FLAGS_TIMEOUT)]
     case Interval(_, elements) =>
       [Frame(FLAGS_INTERVAL)] + (if Join(elements, ", ") == "" then [] else [Frame(ElementsText(elements))])) +
    [Frame(BLOCK_CLOSE)]
  }

  function ElementsText(elements: seq<CleanText>): CleanText {
    JoinClean(elements);
    ELEMENTS_OPEN + Join(elements, ", ") + TABLE_CLOSE
  }

  lemma JoinClean(elements: seq<CleanText>)
    ensures Clean(Join(elements, ", "))
  {
  }

  function AllSetLines(sets: seq<SetDecl>, fam: Family): seq<Line> {
    if sets == [] then []
    else
      SetLines(sets[0], fam) +
      // the runtime set is set off from the one before it by a blank line
      (if |sets| == 1 || sets[1].Timed? then [Frame("")] else []) +
      AllSetLines(sets[1..], fam)
  }

  function RuleLines(rules: seq<Rule>, fam: Family): seq<Line> {
    seq(|rules|, i requires 0 <= i < |rules| => RuleLine(fam, rules[i]))
  }

  function StanzaLines(stanzas: seq<Stanza>, fam: Family): seq<Line> {
    if stanzas == [] then []
    else
      [Frame(""), Comment(stanzas[0].comment)] + RuleLines(stanzas[0].rules, fam) + StanzaLines(stanzas[1..], fam)
  }

  const TABLE_WORD: CleanText := "table "
  const FILTER_NAME: CleanText := " g0efilter_"
  const NAT_NAME: CleanText := " g0efilter_nat_"
  const NAT_CHAIN: CleanText := "    chain " + "output {"
  const FILTER_CHAIN: CleanText := "    chain " + "egress_" + "allowlist_"

  function TableOpen(t: Table): CleanText {
    TABLE_WORD + Ip(t.fam) + (if t.hook.NatOutput? then NAT_NAME else FILTER_NAME) + Suffix(t.fam) + BLOCK_OPEN
  }

  function ChainOpen(t: Table): CleanText {
    if t.hook.NatOutput? then NAT_CHAIN else FILTER_CHAIN + Suffix(t.fam) + BLOCK_OPEN
  }

  function TableLines(t: Table): seq<Line> {
    [Frame(""), Frame(TableOpen(t))] + AllSetLines(t.sets, t.fam) +
    [Frame(ChainOpen(t)), Header(t.hook)] + StanzaLines(t.stanzas, t.fam) +
    [Frame(BLOCK_CLOSE), Frame(TABLE_CLOSE)]
  }

  function TableText(t: Table): string { Text(TableLines(t)) }

  function RulesetText(r: Ruleset): string {
    TableText(r.filterV4) + "\n" + TableText(r.natV4) + "\n" + TableText(r.filterV6) + "\n" + TableText(r.natV6)
  }
}

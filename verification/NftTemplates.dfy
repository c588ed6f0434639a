/** The chain templates of internal/nftables/nftables.go and the choice between them.
    A v4 and a v6 template that differ only in names are one function of the family. */
module NftTemplates {
  import opened GoStrings
  import opened Nft

  datatype Config = Config(
    allowV4: seq<CleanText>, allowV6: seq<CleanText>,
    denyV4: seq<CleanText>, denyV6: seq<CleanText>,
    httpsPort: nat, httpPort: nat, dnsPort: nat,
    mode: string, defaultAllow: bool, audit: bool)

  datatype Mode = Https | Dns | DnsStrict

  /** Anything but the two DNS modes, in any letter case, is HTTPS mode. */
  function ModeOf(mode: string): Mode {
    var lower := ToLower(mode);
    if lower == "dns" then Dns else if lower == "dns-strict" then DnsStrict else Https
  }

  // ---------------------------------------------------------------- comments

  const C_LOOPBACK: CleanText := "Always allow " + "loopback-bound" + " traffic"
  const C_ESTABLISHED: CleanText := "Allow already " + "established " + "connections"
  const C_MARKED: CleanText := "Bypass marked " + "traffic " + "(SO_MARK=0x1)"
  const C_PROXIES_ON: CleanText := "Allow local " + "proxies on "
  const C_DNS_PROXY: CleanText := "Allow local " + "DNS proxy on " + "loopback"
  const C_OVERRIDES: CleanText := "Explicit " + "allowlist over" + "rides the " + "denylist"
  const C_DROP_DENIED: CleanText := "Log and drop " + "deny-listed " + "destinations"
  const C_DENIED_NOT: CleanText := "Deny-listed " + "IPs are dropped"
  const C_DENIED_PROXIED: CleanText := " in the filter " + "chain, not " + "proxied"
  const C_PING: CleanText := "Allow ping to " + "allow-listed " + "destinations"
  const C_ND_NEEDED: CleanText := "ICMPv6 " + "neighbour " + "discovery is "
  const C_ND_FOR: CleanText := "required for " + "any IPv6 " + "connectivity"
  const C_LOG_STATIC: CleanText := "Allow and log " + "statically "
  const C_LOG: CleanText := "Allow and log "
  const C_LISTED: CleanText := "allow-listed " + "destinations"
  const C_RESOLVED: CleanText := "Allow desti" + "nations resolved"
  const C_TTL: CleanText := " through the " + "DNS proxy " + "(TTL-bounded)"
  const C_DROP_REST: CleanText := "Log and drop " + "everything else"
  const C_RETURN: CleanText := "Return if " + "allow-listed IP"
  const C_EXEMPT: CleanText := "Exempt direct " + "access to the " + "local DNS proxy"
  const C_ALL_DNS: CleanText := "Redirect ALL " + "DNS (UDP/TCP " + "53) to local " + "DNS proxy"
  const C_HTTP: CleanText := "Redirect HTTP " + "(80) to local " + "HTTP proxy"
  const C_HTTPS: CleanText := "Redirect HTTPS " + "(443) to local " + "HTTPS proxy"
  const NOTE_HTTP: CleanText := "    # HTTP proxy"
  const NOTE_HTTPS: CleanText := "    # HTTPS " + "proxy"

  // ---------------------------------------------------------------- stanzas

  function Plainly(conds: seq<Cond>, stmt: Stmt): Rule { Rule(conds, stmt, "", "") }

  function CommonStanzas(): seq<Stanza> {
    [Stanza(C_LOOPBACK, [Plainly([OifLo], Accept)]),
     Stanza(C_ESTABLISHED, [Plainly([Established], Accept)]),
     Stanza(C_MARKED, [Plainly([Marked], Accept)])]
  }

  function ProxyStanza(fam: Family, httpPort: nat, httpsPort: nat): Stanza {
    Stanza(C_PROXIES_ON + LoopbackText(fam),
           [Rule([DaddrLoopback, TcpDport(httpPort)], Accept, "", NOTE_HTTP),
            Rule([DaddrLoopback, TcpDport(httpsPort)], Accept, "", NOTE_HTTPS)])
  }

  function DnsProxyStanza(dnsPort: nat): Stanza {
    Stanza(C_DNS_PROXY,
           [Plainly([DaddrLoopback, UdpDport(dnsPort)], Accept),
            Plainly([DaddrLoopback, TcpDport(dnsPort)], Accept)])
  }

  function PingStanza(): Stanza { Stanza(C_PING, [Plainly([EchoRequest, DaddrIn(Allow)], Accept)]) }

  function DenyStanzas(): seq<Stanza> {
    [Stanza(C_OVERRIDES, [Plainly([DaddrIn(Allow)], Accept)]),
     Stanza(C_DROP_DENIED, [Plainly([DaddrIn(Deny)], Log(Blocked)), Plainly([DaddrIn(Deny)], Drop)])]
  }

  function LoggedAccept(comment: CleanText, kind: SetKind): Stanza {
    Stanza(comment, [Plainly([DaddrIn(kind)], Log(Allowed)), Plainly([DaddrIn(kind)], Accept)])
  }

  function DropRest(): Stanza { Stanza(C_DROP_REST, [Plainly([], Log(Blocked)), Plainly([], Drop)]) }

  function NatMarked(): Stanza { Stanza(C_MARKED, [Plainly([Marked], Return)]) }

  function NatAllowed(): Stanza { Stanza(C_RETURN, [Plainly([DaddrIn(Allow)], Return)]) }

  function RedirectStanza(comment: CleanText, dport: nat, pad: CleanText, port: nat): Stanza {
    Stanza(comment,
           [Rule([TcpDport(dport)], Log(Redirected), pad, ""),
            Rule([TcpDport(dport)], Redirect(port), pad, "")])
  }

  function WebRedirects(httpPort: nat, httpsPort: nat): seq<Stanza> {
    [RedirectStanza(C_HTTP, 80, " ", httpPort), RedirectStanza(C_HTTPS, 443, "", httpsPort)]
  }

  // ---------------------------------------------------------------- templates

  function HttpsFilterAllow(fam: Family, allow: seq<CleanText>, deny: seq<CleanText>, httpPort: nat, httpsPort: nat): Table {
    Table(fam, [Interval(Allow, allow), Interval(Deny, deny)], FilterOutput(false),
          CommonStanzas() + [ProxyStanza(fam, httpPort, httpsPort)] + DenyStanzas())
  }

  function HttpsNatAllow(fam: Family, allow: seq<CleanText>, deny: seq<CleanText>, httpPort: nat, httpsPort: nat): Table {
    Table(fam, [Interval(Allow, allow), Interval(Deny, deny)], NatOutput,
          [NatMarked(), NatAllowed(), Stanza(C_DENIED_NOT + C_DENIED_PROXIED, [Plainly([DaddrIn(Deny)], Return)])] +
          WebRedirects(httpPort, httpsPort))
  }

  function DnsFilterAllow(fam: Family, allow: seq<CleanText>, deny: seq<CleanText>, dnsPort: nat): Table {
    Table(fam, [Interval(Allow, allow), Interval(Deny, deny)], FilterOutput(false),
          CommonStanzas() + [DnsProxyStanza(dnsPort)] + DenyStanzas())
  }

  function DnsStrictFilter(fam: Family, allow: seq<CleanText>, dnsPort: nat): Table {
    Table(fam, [Interval(Allow, allow), Timed(Resolved)], FilterOutput(true),
          CommonStanzas() + [DnsProxyStanza(dnsPort), PingStanza()] +
          (if fam.V6? then [Stanza(C_ND_NEEDED + C_ND_FOR, [Plainly([NeighbourDiscovery], Accept)])] else []) +
          [LoggedAccept(C_LOG_STATIC + C_LISTED, Allow), LoggedAccept(C_RESOLVED + C_TTL, Resolved), DropRest()])
  }

  function DnsFilter(fam: Family, allow: seq<CleanText>, dnsPort: nat): Table {
    Table(fam, [Interval(Allow, allow)], FilterOutput(false),
          CommonStanzas() + [DnsProxyStanza(dnsPort), PingStanza()])
  }

  function HttpsFilter(fam: Family, allow: seq<CleanText>, httpPort: nat, httpsPort: nat): Table {
    Table(fam, [Interval(Allow, allow)], FilterOutput(true),
          CommonStanzas() + [ProxyStanza(fam, httpPort, httpsPort), PingStanza(),
                             LoggedAccept(C_LOG + C_LISTED, Allow), DropRest()])
  }

  function DnsNat(fam: Family, dnsPort: nat): Table {
    Table(fam, [], NatOutput,
          [NatMarked(),
           Stanza(C_EXEMPT,
                  [Plainly([DaddrLoopback, UdpDport(53)], Return), Plainly([DaddrLoopback, TcpDport(53)], Return),
                   Plainly([DaddrLoopback, UdpDport(dnsPort)], Return), Plainly([DaddrLoopback, TcpDport(dnsPort)], Return)]),
           Stanza(C_ALL_DNS,
                  [Rule([UdpDport(53)], Log(DnsRedirected), " ", ""), Rule([UdpDport(53)], Redirect(dnsPort), " ", ""),
                   Rule([TcpDport(53)], Log(DnsRedirected), " ", ""), Rule([TcpDport(53)], Redirect(dnsPort), " ", "")])])
  }

  function HttpsNat(fam: Family, allow: seq<CleanText>, httpPort: nat, httpsPort: nat): Table {
    Table(fam, [Interval(Allow, allow)], NatOutput,
          [NatMarked(), NatAllowed()] + WebRedirects(httpPort, httpsPort))
  }

  // ---------------------------------------------------------------- generation

  /** The placeholder keeps an allow set non-empty. */
  function AllowElements(cfg: Config, fam: Family): seq<CleanText> {
    var given := if fam.V4? then cfg.allowV4 else cfg.allowV6;
    if Join(given, ", ") == "" then [LoopbackText(fam)] else given
  }

  function DenyElements(cfg: Config, fam: Family): seq<CleanText> {
    if fam.V4? then cfg.denyV4 else cfg.denyV6
  }

  function FilterTable(cfg: Config, fam: Family): Table {
    var allow, deny := AllowElements(cfg, fam), DenyElements(cfg, fam);
    match ModeOf(cfg.mode)
    case Https =>
      if cfg.defaultAllow then HttpsFilterAllow(fam, allow, deny, cfg.httpPort, cfg.httpsPort)
      else HttpsFilter(fam, allow, cfg.httpPort, cfg.httpsPort)
    case Dns =>
      if cfg.defaultAllow then DnsFilterAllow(fam, allow, deny, cfg.dnsPort)
      else DnsFilter(fam, allow, cfg.dnsPort)
    case DnsStrict =>
      if cfg.defaultAllow then DnsFilterAllow(fam, allow, deny, cfg.dnsPort)
      else DnsStrictFilter(fam, allow, cfg.dnsPort)
  }

  function NatTable(cfg: Config, fam: Family): Table {
    var allow, deny := AllowElements(cfg, fam), DenyElements(cfg, fam);
    if !ModeOf(cfg.mode).Https? then DnsNat(fam, cfg.dnsPort)
    else if cfg.defaultAllow then HttpsNatAllow(fam, allow, deny, cfg.httpPort, cfg.httpsPort)
    else HttpsNat(fam, allow, cfg.httpPort, cfg.httpsPort)
  }

  function EnforcingRuleset(cfg: Config): Ruleset {
    Ruleset(FilterTable(cfg, V4), NatTable(cfg, V4), FilterTable(cfg, V6), NatTable(cfg, V6))
  }

  /** auditRuleset: five phrase replacements on the rendered text, in the source's order. */
  function AuditText(ruleset: string): string {
    var r1 := ReplaceAll(ruleset, "policy drop;", "policy accept;");
    var r2 := ReplaceAll(r1, "log prefix \"blocked\" group 0", "log prefix \"audit\" group 0");
    var r3 := ReplaceAll(r2, "\n        drop\n", "\n        accept\n");
    var r4 := ReplaceAll(r3, " @deny_daddr_v4 drop", " @deny_daddr_v4 accept");
    ReplaceAll(r4, " @deny_daddr_v6 drop", " @deny_daddr_v6 accept")
  }

  /** GenerateRuleset */
  function GenerateRuleset(cfg: Config): string {
    var text := RulesetText(EnforcingRuleset(cfg));
    if cfg.audit then AuditText(text) else text
  }
}

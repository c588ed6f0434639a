# g0efilter, modelled and proved in Dafny

g0efilter is an egress firewall: it generates an nftables ruleset, proxies DNS, HTTP and HTTPS so
that traffic can be judged by host name, and comes with a small dashboard. This project models the
parts that decide and carry traffic, and the bounded structures and protocols around them, and
proves what they keep for every input, every run and every interleaving.

`dafny verify dfyconfig.toml` checks all of it.

## How the files fit together

| Files | What they are about |
|---|---|
| `Sequences`, `GoStrings`, `Streams` | the few Go library operations the rest relies on, on ASCII strings and byte streams |
| `Nft`, `NftTemplates`, `NftAudit` | rulesets as data and as text, the chain templates, and the audit rewrite on text and on rules |
| `NftReader`, `NftReadBack`, `NftTextMeaning` | a reader of nft text with its own keywords, and reading every generated text back |
| `NftDecisions`, `NftVerdicts`, `NftModes` | an evaluator for packets against both hooks, the decision table it comes to, and what each mode comes to in literal terms |
| `NftReload` | the one transaction that puts a ruleset into the kernel |
| `ClientHello`, `ClientHelloProofs`, `Splice` | reading a server name out of a TLS stream, and replaying every byte |
| `HostMatch`, `HostPolicy`, `PolicyDomains`, `Validate` | wildcard matching, allow and deny lists, what a policy may list, host and query name checks |
| `DnsHandler`, `DnsDecisions` | the DNS request handler, and what it does with names, stances and limits in literal terms |
| `ResolvedSet`, `DnsStrict` | the kernel's runtime sets, and dns-strict as a step system |
| `TokenBucket`, `RateLimiters`, `LimiterFlood`, `RecentMarks` | two rate limiters and two time-pruned maps, each measured against one that forgets nothing |
| `RingStore`, `Sse` | the dashboard's log ring and its event stream |
| `PolicyReload`, `Unblock`, `UnblockProtocol` | noticing and handing over policy changes, and remote unblocking |

Code that changes state step by step is written as methods over classes with the source's own
fields; each method is proved against a function or relation on values, and the theorems are about
those. Protocols are step systems whose runs are sequences of states. What strings, numbers and octets
mean is stated apart from the definitions that use them: texts are read back, names and answers are
spelled out by grammar, and the stances, modes and limits are given with their literal values.

## What turned out not to hold

Each of these is stated as a lemma with a concrete input or run, next to the exact condition under
which the code does what one would expect.

- A resolved address can stay reachable after its clamped TTL has run out since the answer was
  reported, because the timeout counts from the moment the nft command takes effect
  (`ReportTimeTooEarly`). It can be reachable a given number of seconds past that deadline if and only
  if its push took effect more than that long after the report (`ReportDeadlineExactly`), and never for
  longer than nine seconds for each address of the answer and the handler's own time between its
  commands (`ReportBound`). The safety theorem states both deadlines.
- Between a policy reload in the kernel and the restart of the handlers, a handler of an older policy
  can push an address into the new policy's set (`StalePushHappens`), even for a query that arrives
  after the reload (`LateQueryPushesStale`). The set stays that of the
  kernel's policy through a step if and only if the step is not such a push (`CurrentExactly`).
- Idle pruning of a rate limiter is invisible if and only if resting that long refills a bucket
  (`PruningInvisible`); a DNS limiter set to a burst above 60 times its rate gains credit by it.
- The DNS limiter's map can outgrow its bound (`EmptySourceOutgrows`, a run of the limiter). A call keeps
  the bound if and only if the map is not crowded or the scan settles on somebody (`BoundExactly`),
  and it settles on nobody if and only if the empty source comes last and has rested longest
  (`NobodyExactly`).
- Event stream framing is exact if and only if the message has no carriage return and no final line
  feed (`RoundTrip` in `Sse`).
- A policy change that is reverted after a tick has already loaded it goes unnoticed
  (`RevertedChangeMissed`). The remembered hash stays that of the applied policy through a step if and
  only if the step is not a load of something other than what was hashed (`SyncExactly`,
  `ChangingTickExactly`).
- Without an initial hash the first change is not applied (`MissingHashSkipsFirst`). The first look is
  harmless if and only if the file still is what was applied (`MissingHashExactly`), and a whole tick
  applies the file if and only if it was applied or another hash is remembered
  (`TickAppliesExactly`).
- A cancelled `sendLatest` can lose both the old and the new update (`CancellationLoses`). Outside a send,
  the newest policy is on offer or was the last one taken if and only if the last send did not give
  up (`NewestIsOffered`).
- The supervisor can restart the services with a policy older than the kernel's (`OldUpdateServed`).
  Once nothing is on its way they run with the kernel's policy, again if and only if the last send
  did not give up (`QuietIsCurrent`).
- A dashboard client that keeps its last ID across a clear can miss entries: it gets every match of the
  new log if and only if it kept none, or nothing matches among the entries whose numbers it has
  seen before (`AfterClearExactly`, `AfterClearUnfiltered`).
- An acknowledged unblock request can be lost: the policy file is truncated before it is written, so a
  write that fails midway costs earlier entries. Applying a request can do that, on some disk, if
  and only if it writes the file (`LossExactly`); while no write of the instance is torn, what was
  applied stays in effect (`AppliedStaysInEffect`).

One comment of the source is not what its code does, and the model follows the code: what is called an
idle timeout is one deadline set when the copying begins and never renewed, so it ends busy connections
as well (`SetConnTimeouts`); either side gets exactly what the other sent before it (`ProxyHttp`,
`ProxyHttps`).

## Model

| member | source | states |
|---|---|---|
| NftAudit.GeneratedTextIsProgram | internal/nftables/nftables.go:841-916 | for every configuration the text given to nft is the rendering of the rules said to be in force; the five textual replacements of the audit rewrite equal a rewrite of the rule list |
| NftTextMeaning.TextReadsBack | internal/nftables/nftables.go:229-917 | for every configuration, audited or not, a reader with its own keywords and numbers by value gets from the text the families, table, chain and set names, set elements, hook, priority, policy and every rule in order, as the program has them |
| NftModes.TextDecides | internal/nftables/nftables.go:841-916 | a packet that meets whatever tables the text reads as fares as the program, and so the decision table, says |
| NftModes.StrictMode | internal/nftables/nftables.go:864-903 | mode string "dns-strict" in any letter case, default-deny: queries go to the proxy, and of the rest passes only what is exempt, on the allowlist, in the runtime set, or IPv6 neighbour discovery |
| NftModes.DnsMode | internal/nftables/nftables.go:864-910 | mode string "dns", default-deny: queries go to the proxy and nothing is discarded |
| NftModes.HttpsMode | internal/nftables/nftables.go:864-916 | any other mode string, default-deny: the allowlist goes direct, ports 80 and 443 to the proxies, and of the rest passes only what is exempt |
| NftModes.DnsDefaultAllow | internal/nftables/nftables.go:880-890 | both DNS modes, default-allow: discarded is what is on the denylist, not on the allowlist and not exempt |
| NftModes.HttpsDefaultAllow | internal/nftables/nftables.go:880-896 | any other mode, default-allow: the same, with web traffic to neither list going to the proxies |
| NftModes.TablesByMode | internal/nftables/nftables.go:841-916 | the filter chains are closed by default exactly under enforcing default-deny outside mode "dns", and the runtime set is there exactly under "dns-strict" with default-deny |
| NftDecisions.HttpsFilterRun | internal/nftables/nftables.go:582-616 | verdict and log of the HTTPS default-deny filter chain on any packet |
| NftDecisions.HttpsFilterAllowRun | internal/nftables/nftables.go:254-284 | the same for HTTPS default-allow, where allow beats deny |
| NftDecisions.HttpsNatRun | internal/nftables/nftables.go:649-676 | which packets the HTTPS NAT chain redirects, and where |
| NftDecisions.HttpsNatAllowRun | internal/nftables/nftables.go:289-317 | the same for default-allow, where deny-listed destinations keep their address |
| NftDecisions.DnsFilterAllowRun | internal/nftables/nftables.go:386-417 | verdict and log of the DNS default-allow filter chain |
| NftDecisions.DnsStrictFilterRun | internal/nftables/nftables.go:456-546 | verdict and log of the dns-strict filter chain, with the runtime set and IPv6 neighbour discovery |
| NftDecisions.DnsFilterRun | internal/nftables/nftables.go:549-578 | verdict of the plain DNS filter chain |
| NftDecisions.DnsNatRun | internal/nftables/nftables.go:623-645 | every unmarked query to port 53 is redirected, except one addressed to loopback |
| NftVerdicts.EnforcedDecides | internal/nftables/nftables.go:863-916 | for every mode, stance, family and packet, the NAT hook and then the filter hook come to the decision table, and the one log line tells the fate |
| NftVerdicts.AuditTraverse | internal/nftables/nftables.go:847-861 | auditing any tables discards nothing, changes no other fate and turns "blocked" logs into "audit" logs in place |
| NftVerdicts.AuditOnlyLiftsDrops | internal/nftables/nftables.go:841-861 | under audit a packet fares as without it, except that what would be discarded passes and logs "audit" where "blocked" stood |
| NftVerdicts.AllowOverridesDeny | internal/nftables/nftables.go:254-317 | an allowlisted destination is never discarded, and in HTTPS mode goes direct, whatever the denylist says |
| NftVerdicts.FamiliesCorrespond | internal/nftables/nftables.go:501-546 | the IPv4 and IPv6 programs differ on corresponding packets exactly on neighbour discovery under dns-strict |
| NftReload.ReplacesExactly | internal/nftables/nftables.go:145-154 | from any kernel state one transaction leaves exactly the new four tables with empty runtime sets, and every foreign table as it was |
| NftReload.InstalledIsNew | internal/nftables/nftables.go:145-154 | each of the four tables is then the new one alone, with an empty runtime set, and every other is as before |
| NftReload.PreambleNeeded | internal/nftables/nftables.go:145-154 | without the preamble, or with its empty declarations alone, rules pile up and the runtime set survives; with its deletions alone a kernel without the tables stays bare |
| Streams.TeeReader.ReadFull | internal/filter/clienthello.go:36-58 | however the source splits its bytes, the first n are taken and copied, or all when there are fewer |
| ClientHello.ReadRecord | internal/filter/clienthello.go:36-61 | one handshake record or the error for its header or length, and exactly the bytes consumed |
| ClientHello.ReadClientHelloSNI | internal/filter/clienthello.go:65-94 | the reassembly loop ends, equals its specification on what the client sent, and its copy is exactly what it consumed |
| ClientHello.ParseClientHelloSNI | internal/filter/clienthello.go:97-117 | the cursor walk over a hello body equals the specification on byte sequences |
| ClientHello.SniFromExtensions | internal/filter/clienthello.go:121-137 | the extension scan stops at the first server_name extension |
| ClientHello.SniFromServerNameExt | internal/filter/clienthello.go:141-163 | the name scan stops at the first host_name |
| ClientHelloProofs.Reassembly | internal/filter/clienthello.go:65-94 | reading a record stream gives what the concatenated payloads say, wherever the boundaries fall |
| ClientHelloProofs.FragmentationIrrelevant | internal/filter/clienthello.go:65-94 | two fragmentations that agree on enough bytes to decide give the same name or the same error |
| ClientHelloProofs.HandshakeVerdict | internal/filter/clienthello.go:65-94 | what the handshake bytes come to, by message type 1 and its three-byte length of at most 65536 |
| ClientHelloProofs.StopsAtOnce | internal/filter/clienthello.go:65-94 | reading stops with the record that decides and leaves all that follows it |
| ClientHelloProofs.CutShort | internal/filter/clienthello.go:36-94 | every other stream fails: how it goes on where the next record of type 22 and 1 to 18432 bytes should be tells the error and how much is read |
| ClientHelloProofs.ConsumptionBounded | internal/filter/clienthello.go:13-94 | success and failure alike consume at most 411671 bytes |
| ClientHelloProofs.ConsumptionAttained | internal/filter/clienthello.go:13-94 | that bound is reached |
| ClientHelloProofs.RoundTrip | internal/filter/clienthello.go:97-163 | a serialized hello reads back as the first host_name of its first server_name extension, or as empty |
| ClientHelloProofs.NameIsLocated | internal/filter/clienthello.go:97-163 | a name, empty or not, is returned if and only if the body decomposes per the TLS grammar, in the octets of the RFCs, with it as the first host_name of the first server_name extension, or none; every other body is an error |
| ClientHelloProofs.BrokenHelloExactly | internal/filter/clienthello.go:97-117 | the error says malformed hello if and only if the body is not 34 bytes and three fields with nothing or one more field behind them, and malformed extension otherwise |
| ClientHelloProofs.ClientIsNamed | internal/filter/clienthello.go:65-163 | end to end: any well-formed hello in any records is read as its host name |
| Splice.SetConnTimeouts | internal/filter/common.go:309-316 | a positive timeout cuts off each side's stream at some point and loses nothing before it; any other cuts off nothing |
| Splice.CopyRest | internal/filter/common.go:319-352 | either direction: everything its source sends before the deadline reaches its sink, in order, and then the sink's writing side is closed |
| Splice.ReadHead | internal/filter/http_filter.go:281-312 | through tee, outer and inner buffer, the head returned and what is left buffered are what the client sent, wherever parsing stops |
| Splice.CopyWithBuffered | internal/filter/common.go:355-388 | buffered bytes go first, then the connection, none lost or repeated; the backend's bytes reach the client; both are half-closed |
| Splice.SpliceHttp | internal/filter/http_filter.go:244-279 | head, buffered bytes and connection reach the backend in this order, the backend's bytes the client, up to the deadline |
| Splice.SpliceHttps | internal/filter/https_filter.go:206-229 | the same with the bytes that were peeked at |
| Splice.ProxyHttp | internal/filter/http_filter.go:64-279 | from the first byte on, either side gets exactly what the other sends up to the deadline, whatever the chunks, with a parsed head or without; all of it when no timeout is set |
| Splice.ProxyHttps | internal/filter/https_filter.go:62-229 | the same with the hello replayed, and the name found is the one the reassembly theorem speaks of |
| HostMatch.CompileWildcardPattern | internal/policy/policy.go:72-130 | the in-place rewrite of the chunks yields the compiled expression, or an error exactly for patterns that policy refuses |
| HostMatch.CompiledMeansWild | internal/policy/policy.go:72-93 | the compiled expression accepts just the hosts in which each star stands for one or more characters |
| HostMatch.LeadingStarWild | internal/filter/common.go:223-226 | so does the suffix comparison for a leading star |
| HostMatch.MatchMeansWild | internal/filter/common.go:213-235 | all branches of matchPattern have that one meaning on lower-case hosts without a newline |
| HostMatch.OneStar | internal/filter/common.go:213-235 | a star between two texts matches exactly the hosts with one or more characters between them |
| HostMatch.MatchMeansRegex | internal/filter/common.go:213-222 | what stands between slashes matches as the regular expression |
| HostMatch.CompilesExactly | internal/policy/policy.go:72-130 | which wildcard patterns compile, by their characters, dots, stars and length |
| HostMatch.NormalizeName | internal/filter/common.go:117-134 | around a name blanks and then one final dot go, and the rest is looked up in lower case or kept in it |
| HostMatch.NormalizeRegex | internal/filter/common.go:117-124 | a regular expression is kept |
| GoStrings.TrimSpaceExactly | internal/filter/common.go:117-119 | blanks go at both ends and nowhere else |
| GoStrings.LowerCase | internal/filter/common.go:124-126 | the letters and their lower case, one by one |
| HostPolicy.HostMatcher.constructor | internal/filter/common.go:175-187 | every normalized entry is in exactly one of the exact set and the pattern list, and nothing else is |
| HostPolicy.HostMatcher.Allows | internal/filter/common.go:191-204 | map lookup and pattern scan decide as a linear scan over all entries |
| HostPolicy.HostPermittedBy | internal/filter/common.go:238-257 | learning permits all; default-deny permits just the listed non-empty hosts, whatever the denylist; default-allow refuses just the non-empty hosts that are denylisted and not allowlisted |
| HostPolicy.StancesByExample | internal/filter/common.go:238-257 | one allowlisted name under default-deny and one denylisted name under default-allow |
| HostPolicy.PermissionMonotone | internal/filter/common.go:238-257 | permission grows with the allowlist and shrinks with the denylist, and ignores audit, order and repetition |
| HostPolicy.NormalizedBeforehand | internal/filter/dns_filter.go:22-31 | normalizing lists beforehand, as the DNS handler does, changes no decision for any list that policy validation accepts |
| HostPolicy.DecidesAsWritten | internal/filter/dns_filter.go:22-45 | so the handler permits what its validated lists say as they were written |
| PolicyDomains.ValidateDomains | internal/policy/policy.go:542-570 | the trimmed non-blank entries in order, or an error exactly when one of them is not acceptable |
| PolicyDomains.AcceptedByForm | internal/policy/policy.go:176-220 | an entry is accepted, by its form, if it is a lone star, a regular expression of at most 1024 characters that compiles, a good name alone or after "*.", or another wildcard that compiles |
| PolicyDomains.GoodNameExactly | internal/policy/policy.go:224-305 | a name is good if and only if without one final dot it is looked up as two or more labels of a stated grammar, the last not a number, within 253 characters, and is no address |
| PolicyDomains.AcceptedIsStable | internal/policy/policy.go:176-220 | an accepted entry, plain, wildcard or expression, is left alone by a second normalization |
| Validate.LabelsGiveStructure | internal/filter/validate.go:152-189 | names whose labels pass also pass the structure check |
| Validate.ReasonsAreExact | internal/filter/validate.go:74-135 | each logged reason is "unknown" exactly when its check passes |
| Validate.HostGrammar | internal/filter/validate.go:25-60 | accepted hosts are exactly two or more labels of a stated grammar within 253 characters, the last of two or more and not a number, returned unchanged |
| Validate.QnameGrammar | internal/filter/validate.go:207-240 | accepted query names are exactly the dotted sequences of good labels within the length limit, returned in lower case |
| Validate.HostsAreQnames | internal/filter/validate.go:25-60 | every accepted host is returned unchanged and is accepted unchanged as a query name |
| Validate.QnameIdempotent | internal/filter/validate.go:207-221 | sanitizing twice is sanitizing once |
| Validate.AcceptedIsPlain | internal/filter/validate.go:207-245 | accepted names have no empty first or last label, no pattern characters, and lose nothing to trimming |
| DnsHandler.ExtractAnswerIPs | internal/filter/dns_filter.go:569-602 | all addresses of the A and AAAA records in order, and the least of their TTLs |
| DnsHandler.CheckExfilQuery | internal/filter/dns_hardening.go:27-43 | no reason exactly for non-NULL queries with a short name of short labels |
| DnsHandler.CheckExfilResponse | internal/filter/dns_hardening.go:47-74 | no reason exactly for responses within the size limit, without NULL records and with little TXT data in all |
| DnsHandler.Handler.constructor | internal/filter/dns_filter.go:28-45 | the handler's matchers hold the normalized lists, and it has a limiter exactly under hardening |
| DnsHandler.Handler.BlockExfilQuery | internal/filter/dns_filter.go:312-351 | answers REFUSED exactly for suspicious named queries where hardening enforces |
| DnsHandler.Handler.BlockExfilResponse | internal/filter/dns_filter.go:355-395 | answers SERVFAIL exactly for suspicious responses where hardening enforces |
| DnsHandler.Handler.Refuse | internal/filter/dns_filter.go:441-494 | sinkholes A and AAAA queries and answers NXDOMAIN to others |
| DnsHandler.Handler.MaybeLearn | internal/filter/common.go:265-273 | a name is reported for learning exactly in learning mode when it is not listed |
| DnsHandler.Handler.ReportResolvedIPs | internal/filter/dns_filter.go:549-564 | the hook is called once with all addresses and their least TTL, or not at all |
| DnsHandler.Handler.HandleAllowedRequest | internal/filter/dns_filter.go:499-546 | upstream failure, blocked response, report before response |
| DnsHandler.Handler.Handle | internal/filter/dns_filter.go:168-225 | the effects of a whole request, the rate limit first and recorded in the limiter |
| DnsHandler.ExactlyOneResponse | internal/filter/dns_filter.go:168-225 | every path writes exactly one response, as its last effect |
| DnsHandler.HookCalledExactly | internal/filter/dns_filter.go:286-601 | the hook is called if and only if it is set, the name is permitted and not merely audited, the checks pass, an upstream answered and there are addresses; just before the response, with all of them and the least TTL |
| DnsHandler.AskedOnlyIfServed | internal/filter/dns_filter.go:168-225 | a query leaves the host if and only if its name is valid, passes the enforced check, and is permitted or audited |
| DnsHandler.AnswersAreGenuine | internal/filter/dns_filter.go:499-546 | a client sees an upstream answer if and only if it was asked for and passed the enforced check, and then unchanged |
| DnsHandler.AuditNeverBlocks | internal/filter/dns_filter.go:286-395 | under audit or learning a well-formed query gets what the upstream says |
| DnsDecisions.NameIsJudged | internal/filter/dns_filter.go:126-165 | a question for labels of a stated grammar, with the final dot or without, is judged as their name in lower case |
| DnsDecisions.OthersAreJudged | internal/filter/dns_filter.go:126-165 | "" and "." are judged as the empty name, and exactly what is neither root nor name is refused |
| DnsDecisions.BadNamesAreRefused | internal/filter/dns_filter.go:133-148 | such a question gets REFUSED (5), whatever the policy |
| DnsDecisions.FailuresAreTold | internal/filter/dns_filter.go:168-190 | FORMERR (1) exactly without a question, SERVFAIL (2) without an upstream answer |
| DnsDecisions.LearningServesNames | internal/filter/common.go:238-241 | learning asks for exactly the names and the root |
| DnsDecisions.LearningReportsUnlisted | internal/filter/common.go:265-273 | and reports first of all exactly the name asked for, unless it is on the allowlist |
| DnsDecisions.DenyStance | internal/filter/common.go:243-245 | on a whole request under default-deny: a name is asked for if and only if it is on the allowlist, else refused |
| DnsDecisions.DenyStanceRoot | internal/filter/common.go:243-245 | and the root is refused |
| DnsDecisions.DenyStanceHook | internal/filter/dns_filter.go:499-564 | and the hook is called for just the listed names that are answered with addresses, with all of these and their least TTL, before the answer |
| DnsDecisions.AllowStance | internal/filter/common.go:247-256 | on a whole request under default-allow: a name is refused if and only if it is on the denylist and not on the allowlist |
| DnsDecisions.AllowStanceRoot | internal/filter/common.go:247-249 | and the root is asked for |
| DnsDecisions.AuditStance | internal/filter/dns_filter.go:286-301 | under audit every name is asked for, and the hook learns of the permitted ones only |
| DnsDecisions.TunnelsAreRefused | internal/filter/dns_hardening.go:14-43 | where hardening enforces, type 10, more than 220 characters or a label of more than 56 gets REFUSED, whatever the policy |
| DnsDecisions.OthersAreNoTunnels | internal/filter/dns_hardening.go:14-43 | any other name fares as without hardening |
| DnsDecisions.OversizeIsWithheld | internal/filter/dns_hardening.go:14-74 | where hardening enforces, exactly the responses over 4096 bytes, with a NULL record or with over 1024 bytes of TXT data become SERVFAIL |
| DnsDecisions.TxtBytesAdd | internal/filter/dns_hardening.go:53-66 | TXT data is counted over all records |
| DnsDecisions.TxtBytesOfOne | internal/filter/dns_hardening.go:53-66 | string by string, and nothing else is counted |
| DnsDecisions.AddressesAdd | internal/filter/dns_filter.go:569-602 | an answer's addresses are those of its records, in order |
| DnsDecisions.AddressesOfOne | internal/filter/dns_filter.go:569-602 | an A or AAAA record with an address gives it with its TTL, any other nothing |
| ResolvedSet.Clamp | internal/nftables/resolved.go:27-37 | the timeout lies between a minute and a day and is the TTL in between |
| ResolvedSet.Kernel.RunNft | internal/nftables/resolved.go:84-102 | the environment: a command ends within three seconds, may fail, and may take effect and be reported as failed; adding a live entry fails |
| ResolvedSet.AddResolvedElement | internal/nftables/resolved.go:42-82 | runs add, and after a failure delete and add again, exactly these commands in this order, so at most nine seconds; touches one element only, which ends fresh on success; succeeds when only the set's state can make commands fail |
| ResolvedSet.CommandsInOrder | internal/nftables/resolved.go:63-82 | adding is tried first; only when that failed the entry is deleted and added once more, whatever became of the delete |
| ResolvedSet.AddResolvedIPs | internal/nftables/resolved.go:107-118 | failures do not stop the others, no other element changes, nine seconds for each address bound the whole, and on a reliable kernel every address ends with a timeout counted from this push |
| DnsStrict.InvAlways | internal/g0efilter/app.go:651-671 | in every reachable state each entry is justified by a query that its own handler's policy permitted and each handler reports only such answers |
| DnsStrict.StrictByMode | internal/nftables/nftables.go:864-903 | the strict ruleset is installed exactly for the mode "dns-strict" under default-deny |
| DnsStrict.LearningNeverBlocks | internal/g0efilter/app.go:557-566 | under learning no packet is discarded, in whatever mode and whatever the policy lists |
| DnsStrict.StrictExactly | internal/nftables/nftables.go:456-546 | under the enforcing strict ruleset a judged packet passes if and only if its destination is statically allowed or has a live entry |
| DnsStrict.StrictSafety | internal/nftables/resolved.go:27-118 | over every run: what passes is statically allowed or was in an answer to a permitted query that passed the check, pushed less than its clamped least TTL ago and within the stated time of the report |
| DnsStrict.EveryAddressPushed | internal/nftables/resolved.go:42-118 | over every run: when a report is finished, every address of its answer has been reported as added or was tried again after a failed try and a delete |
| DnsStrict.ReportBound | internal/nftables/resolved.go:15-118 | over every run: an entry is gone once the clamped TTL, nine seconds for each address of the answer and the handler's own time have passed since the report |
| DnsStrict.ReportDeadlineExactly | internal/nftables/resolved.go:15-118 | over every run, for every number of seconds: an entry can be live that long past the deadline counted from the report if and only if its push took effect more than that long after it |
| DnsStrict.ReloadForgets | internal/nftables/nftables.go:145-154 | right after a reload only static destinations pass |
| DnsStrict.CurrentExactly | internal/g0efilter/app.go:763-810 | the set stays that of the kernel's policy through every step except one kind, and that one always spoils it |
| DnsStrict.SettledStays | internal/g0efilter/app.go:320-328 | once the handlers are restarted and no older command is running, nothing stale is pushed until the next reload |
| DnsStrict.SettledSafety | internal/g0efilter/app.go:320-328 | from such a state on, every resolved destination that passes was permitted by the policy that is in the kernel |
| DnsStrict.RestartsOfSupervisor | internal/g0efilter/app.go:260-303 | the supervisor's restarts are restarts of this system, to updates that need not be the newest, and when nothing is on its way and no send gave up the handlers are the kernel's |
| DnsStrict.ReportTimeTooEarly | internal/nftables/resolved.go:63-82 | a run in which a command takes one second and the address outlives its clamped TTL counted from the report |
| DnsStrict.StalePushHappens | internal/g0efilter/app.go:763-810 | a run in which an old handler pushes into a new policy's set |
| DnsStrict.LateQueryPushesStale | internal/g0efilter/app.go:276-303 | a run in which the query itself only arrives after the reload and is still judged by the old policy |
| TokenBucket.CallExactly | internal/filter/dns_hardening.go:130-146 | a call refills by rate times time up to the burst, takes a token exactly when there is one, and touches no other source |
| TokenBucket.PruningInvisible | internal/filter/dns_hardening.go:149-155 | dropping rested buckets changes no later level if and only if the burst is at most idle time times rate |
| TokenBucket.AnswersAsNeverForgotten | internal/filter/dns_hardening.go:111-155 | a source that loses its bucket only by resting is answered on every call as by its own bucket never forgotten, whatever other sources do |
| TokenBucket.WindowBound | internal/filter/dns_hardening.go:111-147 | any window of calls in which a source is not forced out, whatever came before, grants it at most its burst plus rate times elapsed time |
| TokenBucket.SpacedNeverRefused | internal/filter/dns_hardening.go:111-147 | a source that waits 1/rate between calls is never refused, forgotten or not |
| RateLimiters.DnsRateLimiter.constructor | internal/filter/dns_hardening.go:91-109 | non-positive settings fall back to 50 per second and a burst of 100 |
| RateLimiters.DnsRateLimiter.Allow | internal/filter/dns_hardening.go:111-147 | one call of the recorded run, its map bounded for non-empty sources, its answer that of the never-forgotten bucket |
| RateLimiters.DnsRateLimiter.Prune | internal/filter/dns_hardening.go:149-155 | exactly the buckets idle for over a minute go |
| RateLimiters.DnsRateLimiter.EvictOldest | internal/filter/dns_hardening.go:157-173 | what the scan evicts for the order in which the map is walked |
| RateLimiters.OldestRestedLongest | internal/filter/dns_hardening.go:157-173 | without an empty source the victim has rested at least as long as any other |
| RateLimiters.SourcesBounded | internal/filter/dns_hardening.go:117-131 | a call with a non-empty source keeps the map within 4096 entries |
| RateLimiters.BoundExactly | internal/filter/dns_hardening.go:111-147 | a call keeps the map within 4096 entries if and only if the map is not crowded or the scan settles on somebody |
| RateLimiters.NobodyExactly | internal/filter/dns_hardening.go:157-173 | for every order of the walk: the scan settles on nobody if and only if there is nobody, or the empty source comes last and has rested longer than every other |
| LimiterFlood.EmptySourceOutgrows | internal/filter/dns_hardening.go:111-173 | a run of the limiter from the empty map, one call with an empty source and 4096 with others, that ends with 4097 entries |
| RateLimiters.LossExplained | internal/filter/dns_hardening.go:111-173 | a bucket is lost only after a minute's rest or as the longest rested of a full map |
| RateLimiters.DashboardLimiter.constructor | internal/dashboard/rate_limiter.go:23-40 | defaults and an empty limiter |
| RateLimiters.DashboardLimiter.Allow | internal/dashboard/rate_limiter.go:42-104 | one call of the recorded run with its cleanup; its answer is that of the never-forgotten bucket when the burst is at most an hour's refill |
| RateLimiters.DashboardLimiter.Cleanup | internal/dashboard/rate_limiter.go:107-115 | exactly the keys idle for over an hour go, from both maps |
| RecentMarks.Notifier.ShouldSendAlert | internal/alerting/notifier.go:222-243 | yes exactly when no alert for the key was ever sent within the backoff period |
| RecentMarks.Notifier.CleanupOldAlerts | internal/alerting/notifier.go:259-270 | exactly the alerts older than twice the backoff period go, and none that a later answer needs |
| RecentMarks.SyntheticFlows.MarkSynthetic | internal/actions/flow.go:41-62 | marks the flow; every 64th write sweeps exactly the marks older than 20 seconds, none of which a later answer needs |
| RecentMarks.SyntheticFlows.IsSyntheticRecent | internal/actions/flow.go:65-78 | yes exactly when the flow was ever marked within five seconds |
| RingStore.MemStore.constructor | internal/dashboard/store.go:22-32 | an empty ring of at least one slot |
| RingStore.MemStore.Insert | internal/dashboard/store.go:34-56 | appends to the log under the next consecutive ID |
| RingStore.MemStore.Clear | internal/dashboard/store.go:58-67 | empties the log and restarts its numbering |
| RingStore.MemStore.Query | internal/dashboard/store.go:70-104 | the first matches among the log's most recent entries, newest first, as the append-only log gives them |
| RingStore.MemStore.Walk | internal/dashboard/store.go:85-103 | the backward walk around the ring visits them in that order |
| RingStore.MatchesExactly | internal/dashboard/store.go:106-122 | an entry matches if and only if it is newer than the ID given and its message and fields, in lower case and a space between, contain the text |
| RingStore.LimitExactly | internal/dashboard/store.go:70-80 | limits outside 1 to 5000 count as 5000 |
| RingStore.AnswerSound | internal/dashboard/store.go:70-104 | results match, are recent enough, strictly descend and respect the limit |
| RingStore.AnswerComplete | internal/dashboard/store.go:70-104 | a recent match that is not returned was crowded out by newer ones |
| RingStore.PollerMissesNothing | internal/dashboard/store.go:70-122 | polling with the last ID seen returns exactly the new matches unless more than the capacity came in between or more match than asked for |
| RingStore.PollerExact | internal/dashboard/store.go:70-122 | without a text filter that condition is exact |
| RingStore.NothingNew | internal/dashboard/store.go:70-122 | nothing is returned past the last ID |
| RingStore.AfterClearExactly | internal/dashboard/store.go:58-104 | after a clear, a poller that kept its ID gets every match if and only if it kept none or nothing matches among the entries numbered up to it |
| RingStore.AfterClearUnfiltered | internal/dashboard/store.go:58-104 | without a text filter: if and only if it kept no ID or nothing was inserted |
| PolicyReload.InvAlways | internal/g0efilter/app.go:736-841 | the invariant of file, poller, channel and supervisor in every reachable state |
| PolicyReload.NewestIsOffered | internal/g0efilter/app.go:815-841 | in every reachable state the poller can move on, the supervisor took updates in order and none twice, and outside a send the newest is buffered or was the last one taken if and only if the last send did not give up |
| PolicyReload.QuietIsCurrent | internal/g0efilter/app.go:260-303 | once nothing is on its way, the services run with the kernel's policy if and only if the last send did not give up |
| PolicyReload.RestartsGoForward | internal/g0efilter/app.go:320-328 | every restart is to a newer policy than before, and to one that was loaded |
| PolicyReload.CallEnds | internal/g0efilter/app.go:815-841 | in every run a call takes at most three steps of its own, whatever happens around it |
| PolicyReload.CancellationLoses | internal/g0efilter/app.go:829-840 | a run in which a cancelled call loses both updates |
| PolicyReload.SyncExactly | internal/g0efilter/app.go:763-810 | every step keeps the remembered hash that of the applied policy, except a load of something other than what was hashed, which always parts them |
| PolicyReload.SyncAlways | internal/g0efilter/app.go:763-810 | so they agree over every stretch of every run without such a load, through edits, failures, sends, restarts and cancellation |
| PolicyReload.FileIsApplied | internal/g0efilter/app.go:736-810 | over every run: from an agreeing state on, while the file rests and loads, one look is enough for its content to be applied |
| PolicyReload.FileIsServed | internal/g0efilter/app.go:260-328 | and once nothing is on its way and no send gave up, the services run with it |
| PolicyReload.TickAppliesExactly | internal/g0efilter/app.go:763-810 | a tick over a resting file leaves its content applied if and only if it was, or another hash is remembered |
| PolicyReload.ChangingTickExactly | internal/g0efilter/app.go:763-810 | a tick during which the file changes keeps hash and policy together if and only if there was nothing to load or what was loaded is what was hashed |
| PolicyReload.MissingHashExactly | internal/g0efilter/app.go:784-796 | without a remembered hash the first look makes them agree if and only if the file is still what was applied |
| PolicyReload.RevertedChangeMissed | internal/g0efilter/app.go:763-810 | a run in which a change between the two reads is reverted, another policy is applied, and the poller does nothing |
| PolicyReload.MissingHashSkipsFirst | internal/g0efilter/app.go:340-354 | a run without an initial hash in which the first change is remembered but not applied |
| PolicyReload.OldUpdateServed | internal/g0efilter/app.go:276-303 | a run in which the services are restarted with a policy older than the kernel's |
| Unblock.UnblockStore.Add | internal/dashboard/unblock.go:56-85 | the ID of a request that asks the same, a refusal at 1000 pending ones, or a new request with its target trimmed and in lower case; no two pending requests ask the same |
| Unblock.AddsAtEnd | internal/policy/policy.go:605-646 | a domain listed in any letter case, or an address listed, is not added again; any other goes to the end of its list and the rest stays |
| Unblock.UnblockStore.GetPendingForHost | internal/dashboard/unblock.go:101-116 | exactly the requests for all hosts or for this one, up to letter case and surrounding blanks, each once |
| Unblock.UnblockStore.Acknowledge | internal/dashboard/unblock.go:118-142 | removes the request once and keeps the last hundred completions |
| Unblock.UnblockStore.GetCompleted | internal/dashboard/unblock.go:144-152 | returns them, changing nothing |
| Unblock.PolicyFile.AppendDomain | internal/policy/policy.go:574-586 | the file's new content and whether that is a success, for every way the disk can behave |
| Unblock.PolicyFile.AppendIP | internal/policy/policy.go:590-602 | the same for addresses |
| Unblock.PolicyFile.AppendToAllowlist | internal/policy/policy.go:605-646 | adds the value unless it is there, up to letter case for domains; a failed write leaves the old content or any other |
| Unblock.PolicyFile.WriteFile | internal/policy/policy.go:640-643 | the environment: a write is whole, refused, or torn and then leaves anything |
| Unblock.AppendKeeps | internal/policy/policy.go:605-646 | denylist, default action and every entry stay, the value is listed, and doing it again changes nothing |
| Unblock.AppliedByKind | internal/g0efilter/app.go:1075-1096 | a request that is applied is of kind "domain" and then among the domains, or of kind "ip" and then among the addresses, and valid |
| Unblock.GoodIsApplied | internal/g0efilter/app.go:1075-1096 | and on a working disk every valid request of these kinds is applied |
| Unblock.ApplyUnblock | internal/g0efilter/app.go:1075-1096 | applies a request by its kind, refuses unknown kinds, and records the outcome |
| Unblock.ProcessUnblockBatch | internal/g0efilter/app.go:1040-1073 | the file and, in one ordered record, every application and acknowledgement of a poll |
| Unblock.AckFollowsApply | internal/g0efilter/app.go:1040-1073 | in that record every acknowledgement comes right after its request was applied, when the value stands in the file, and every applied request is acknowledged |
| UnblockProtocol.InvAlways | internal/dashboard/unblock.go:56-142 | the protocol's invariant in every reachable state |
| UnblockProtocol.AcknowledgedIsApplied | internal/g0efilter/app.go:1040-1096 | with polls and acknowledgements lost, delayed or repeated, both ends crashing and writes failing anyhow: every acknowledged request was applied by its instance before, and is in effect unless a write of that instance was torn since |
| UnblockProtocol.PollBringsExactly | internal/dashboard/handlers.go:323-349 | a poll brings the pending requests for this host and those for all hosts, each once, and a poll without a host name brings everything |
| UnblockProtocol.BatchIsWork | internal/g0efilter/app.go:1040-1075 | processing a batch is as many steps of work as it has requests, ending with an empty batch, the file it leaves and exactly the acknowledgements it sends |
| UnblockProtocol.AppliedStaysInEffect | internal/policy/policy.go:605-646 | what was applied stays in effect for as long as no write of that instance is torn |
| UnblockProtocol.LossExactly | internal/policy/policy.go:605-646 | applying one request can cost another its effect, on some disk, if and only if it writes the file |
| UnblockProtocol.AcknowledgedOnce | internal/dashboard/unblock.go:118-142 | no ID is acknowledged twice, the completed list shows the last hundred acknowledgements, pending requests stay distinct and at most a thousand |
| UnblockProtocol.RetriesAddNothing | internal/policy/policy.go:605-646 | over every stretch without a torn write, retries add no entry twice and lose none, and denylist and default action stay |
| UnblockProtocol.RestartLoses | internal/dashboard/unblock.go:42-54 | what no instance has fetched when the dashboard restarts is never pending, worked on or acknowledged again |
| Sse.WriteFrame | internal/dashboard/handlers.go:241-260 | the loop writes the frame of the message |
| Sse.FrameDelivers | internal/dashboard/handlers.go:241-260 | interpreting the frame by section 9.2.6 of the WHATWG HTML standard yields one event with the message, up to one final line feed |
| Sse.RoundTrip | internal/dashboard/handlers.go:241-260 | the round trip is exact if and only if the message has no carriage return and no final line feed |

## Left out

- Sockets, SO_MARK dialers, original-destination lookup, the nft binary, nflog capture and packet decoding: calls into code that is not visible.
- DNS wire format and upstream exchange: a query's upstream answer is a parameter of the handler, as is its wire length.
- YAML, SHA-256, IDNA, RE2 and address parsing: parameters; hashes are taken to be injective and never empty, and a policy file to read back as it was written.
- NftTextMeaning.TextReadsBack: speaks of configurations whose addresses hold no blank, comma, brace or comment sign, as the addresses and CIDR blocks that policy validation lets through; its reader knows the statements the templates use. The same holds for `NftModes.TextDecides`.
- HostPolicy.NormalizedBeforehand: assumes of the IDNA lookup that it ignores letter case, leaves its own results alone, refuses ASCII characters other than letters, digits, hyphens and dots, and neither drops a final dot nor makes a name of nothing (`IsIdnaLookup`); the same holds for `HostPolicy.DecidesAsWritten` and `PolicyDomains.AcceptedIsStable`.
- Non-ASCII names: strings are ASCII, where lower-casing and trimming are simple; user-supplied regular expressions are one uninterpreted predicate.
- The nftables evaluator covers the statements the templates use; the kernel's own NAT bookkeeping is the packet's `first` flag.
- Write failures during the splice: a write before the writing side is closed is taken to succeed. The two copies of a connection run one after the other, which their disjoint frames make equivalent.
- Splice.ReadHead: does not model the host and the error that the source returns with the head, since the header parser's grammar belongs to a library; it may stop anywhere.
- Rounding of the limiters' floating-point tokens: they are reals. The clock is monotone and passed in. Backoff periods beyond the range of a Duration are not modelled.
- DnsStrict.StrictSafety: says nothing about availability, since two handlers that refresh one address at once leave a gap between delete and add; `ResolvedSet.AddResolvedIPs` states availability for a push that nobody interleaves with.
- RingStore.MemStore.Insert: does not model 64-bit wrap-around of the ID counter, which would take 2^63 inserts.
- UnblockProtocol.AcknowledgedIsApplied: claims nothing for instances other than the acknowledging one when a request is for all hosts, since the first acknowledgement removes it; a crash in the middle of a write is a torn write followed by a crash; the learner as a second writer is not modelled.
- PolicyReload.InvAlways: takes a reload that reports failure to have left the kernel's ruleset as it was; an nft process killed after its transaction was committed, and before it could say so, is not modelled. `DnsStrict.InvAlways` does the same.
- What follows cancellation: the source shuts down, while the step system of `PolicyReload` lets poller and supervisor go on, so its theorems cover more runs than there are.
- The notifier after it has been closed, Gotify delivery and logging.
- The dashboard's other routes and middleware, its payload field extraction and web UI, the learner queue, the broadcaster, process lookup, environment parsing and the GitHub Action scripts: they would add easier members only.

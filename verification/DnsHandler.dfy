/** The DNS proxy's request handler: internal/filter/dns_filter.go, with the tunnelling checks of
    internal/filter/dns_hardening.go. The upstream's answer is a parameter; what the handler does
    to the outside is recorded in order. */
module DnsHandler {
  import opened GoStrings
  import opened Streams
  import opened HostMatch
  import opened HostPolicy
  import opened RateLimiters
  import TokenBucket
  import Validate

  // ---------------------------------------------------------------- messages

  const TYPE_A := 1
  const TYPE_NULL := 10
  const TYPE_AAAA := 28

  const FORMAT_ERROR := 1
  const SERVER_FAILURE := 2
  const NAME_ERROR := 3
  const REFUSED := 5

  const DEFAULT_TTL := 60

  /** Resource records as the handler tells them apart. Addresses are in their printed form. */
  datatype Record =
    | A(ttl: nat, ip: Option<string>)
    | AAAA(ttl: nat, ip: Option<string>)
    | TXT(ttl: nat, texts: seq<string>)
    | NULL(ttl: nat)
    | Other(ttl: nat)

  /** An upstream response: its wire length, response code and answer section. */
  datatype Message = Message(length: nat, rcode: nat, answer: seq<Record>)

  datatype Question = Question(name: string, qtype: nat)

  datatype Reply =
    | Failure(rcode: nat)
    | Sinkhole(name: string, qtype: nat, ip: string, ttl: nat)
    | PassedOn(response: Message)

  /** What the handler does: report a learned name, ask the upstream servers, hand addresses to
      the dns-strict hook, write a response. */
  datatype Effect =
    | Learned(host: string)
    | Asked
    | Resolved(ips: seq<string>, ttl: nat)
    | Wrote(reply: Reply)

  // ---------------------------------------------------------------- answer addresses

  function Address(rr: Record): Option<string> {
    match rr
    case A(_, ip) => ip
    case AAAA(_, ip) => ip
    case _ => None
  }

  /** The addresses of an answer section, in order, with their TTLs. */
  function Addresses(answer: seq<Record>): seq<(string, nat)> {
    if answer == [] then []
    else
      var rr := answer[|answer| - 1];
      Addresses(answer[..|answer| - 1]) + match Address(rr) case Some(ip) => [(ip, rr.ttl)] case None => []
  }

  function Names(pairs: seq<(string, nat)>): (r: seq<string>)
    ensures |r| == |pairs|
  {
    seq(|pairs|, i requires 0 <= i < |pairs| => pairs[i].0)
  }

  /** The least TTL of some addresses, zero for none. */
  ghost predicate IsMinTTL(pairs: seq<(string, nat)>, ttl: nat) {
    if pairs == [] then ttl == 0
    else (forall i :: 0 <= i < |pairs| ==> ttl <= pairs[i].1) && exists i :: 0 <= i < |pairs| && pairs[i].1 == ttl
  }

  lemma MinTTLStep(pairs: seq<(string, nat)>, min: nat, ip: string, ttl: nat)
    requires IsMinTTL(pairs, min)
    ensures IsMinTTL(pairs + [(ip, ttl)], if pairs == [] || ttl < min then ttl else min)
  {
    var more := pairs + [(ip, ttl)];
    assert more[|pairs|].1 == ttl;
    if pairs != [] {
      var i :| 0 <= i < |pairs| && pairs[i].1 == min;
      assert more[i].1 == min;
    }
  }

  /** extractAnswerIPs */
  method ExtractAnswerIPs(answer: seq<Record>) returns (ips: seq<string>, minTTL: nat)
    ensures ips == Names(Addresses(answer)) && IsMinTTL(Addresses(answer), minTTL)
  {
    ips, minTTL := [], 0;
    var haveTTL := false;
    for i := 0 to |answer|
      invariant ips == Names(Addresses(answer[..i])) && IsMinTTL(Addresses(answer[..i]), minTTL)
      invariant haveTTL <==> ips != []
    {
      assert answer[..i + 1][..i] == answer[..i];
      var ip := Address(answer[i]);
      if ip.None? {
        assert Addresses(answer[..i + 1]) == Addresses(answer[..i]);
        continue;
      }
      MinTTLStep(Addresses(answer[..i]), minTTL, ip.value, answer[i].ttl);
      assert Addresses(answer[..i + 1]) == Addresses(answer[..i]) + [(ip.value, answer[i].ttl)];
      ips := ips + [ip.value];
      if !haveTTL || answer[i].ttl < minTTL {
        minTTL := answer[i].ttl;
        haveTTL := true;
      }
    }
    assert answer[..|answer|] == answer;
  }

  // ---------------------------------------------------------------- tunnelling checks

  const MAX_QNAME := 220
  const MAX_LABEL := 56
  const MAX_TXT_BYTES := 1024
  const MAX_RESPONSE_BYTES := 4096

  /** The names of queries that may pass: not NULL, short, and of short labels. */
  predicate QueryLooksClean(qname: string, qtype: nat) {
    && qtype != TYPE_NULL && |qname| <= MAX_QNAME
    && forall i :: 0 <= i < |Split(qname, '.')| ==> |Split(qname, '.')[i]| <= MAX_LABEL
  }

  method CheckExfilQuery(qname: string, qtype: nat) returns (reason: string)
    ensures reason == "" <==> QueryLooksClean(qname, qtype)
  {
    if qtype == TYPE_NULL { return "null-query"; }
    if |qname| > MAX_QNAME { return "qname-too-long"; }
    var labels := Split(qname, '.');
    for i := 0 to |labels|
      invariant forall j :: 0 <= j < i ==> |labels[j]| <= MAX_LABEL
    {
      if |labels[i]| > MAX_LABEL { return "label-too-long"; }
    }
    reason := "";
  }

  function Total(texts: seq<string>): nat {
    if texts == [] then 0 else Total(texts[..|texts| - 1]) + |texts[|texts| - 1]|
  }

  function TxtBytes(answer: seq<Record>): nat {
    if answer == [] then 0
    else
      var rr := answer[|answer| - 1];
      TxtBytes(answer[..|answer| - 1]) + if rr.TXT? then Total(rr.texts) else 0
  }

  /** The responses that may pass: not too long, no NULL record, little TXT data in all. */
  predicate ResponseLooksClean(m: Message) {
    && m.length <= MAX_RESPONSE_BYTES
    && (forall i :: 0 <= i < |m.answer| ==> !m.answer[i].NULL?)
    && TxtBytes(m.answer) <= MAX_TXT_BYTES
  }

  method CheckExfilResponse(m: Message) returns (reason: string)
    ensures reason == "" <==> ResponseLooksClean(m)
  {
    if m.length > MAX_RESPONSE_BYTES { return "response-too-large"; }
    var txtBytes := 0;
    for i := 0 to |m.answer|
      invariant txtBytes == TxtBytes(m.answer[..i]) && forall j :: 0 <= j < i ==> !m.answer[j].NULL?
    {
      assert m.answer[..i + 1][..i] == m.answer[..i];
      match m.answer[i] {
        case NULL(_) => return "null-record";
        case TXT(_, texts) =>
          for k := 0 to |texts|
            invariant txtBytes == TxtBytes(m.answer[..i]) + Total(texts[..k])
          {
            assert texts[..k + 1][..k] == texts[..k];
            txtBytes := txtBytes + |texts[k]|;
          }
          assert texts[..|texts|] == texts;
        case _ =>
      }
    }
    assert m.answer[..|m.answer|] == m.answer;
    if txtBytes > MAX_TXT_BYTES { return "txt-payload-too-large"; }
    reason := "";
  }

  // ---------------------------------------------------------------- what a query deserves

  /** sanitizeAndLogQname: the name to be judged, or None for one that must be refused. The root
      name has no labels left and is judged as the empty name. */
  function QueryName(raw: string): Option<string> {
    var qname := TrimDot(raw);
    match Validate.SanitizeQname(qname)
    case Some(name) => Some(name)
    case None => if qname == "" then Some("") else None
  }

  datatype Setup = Setup(lib: Library, allow: seq<string>, opts: Options, hardening: bool, hook: bool, learner: bool)

  /** Violations are blocked, not just logged. */
  predicate Blocks(s: Setup) { s.hardening && !s.opts.audit && !s.opts.learning }

  datatype Verdict =
    | Malformed            // no question
    | BadName              // a name that is none
    | Tunnel               // a query shaped like a tunnel
    | Denied(q: Question)  // against policy
    | Served(name: string, permitted: bool)

  ghost function Judge(s: Setup, questions: seq<Question>): Verdict {
    if questions == [] then Malformed
    else
      var q := questions[0];
      match QueryName(q.name)
      case None => BadName
      case Some(name) =>
        if Blocks(s) && name != "" && !QueryLooksClean(name, q.qtype) then Tunnel
        else
          var permitted := Permitted(s.lib, name, s.allow, s.opts);
          if permitted || s.opts.audit then Served(name, permitted) else Denied(q)
  }

  function Refusal(q: Question): Reply {
    if q.qtype == TYPE_A then Sinkhole(q.name, TYPE_A, "0.0.0.0", DEFAULT_TTL)
    else if q.qtype == TYPE_AAAA then Sinkhole(q.name, TYPE_AAAA, "::", DEFAULT_TTL)
    else Failure(NAME_ERROR)
  }

  ghost predicate Learns(s: Setup, name: string) {
    s.opts.learning && s.learner && name != "" && !Listed(s.lib, s.allow, name)
  }

  /** The addresses that a served answer makes known to the hook. */
  ghost predicate Reports(s: Setup, permitted: bool, m: Message) {
    permitted && s.hook && Addresses(m.answer) != []
  }

  /** The effects of handling a request that the rate limiter let through. */
  ghost predicate Handles(s: Setup, questions: seq<Question>, upstream: Option<Message>, effects: seq<Effect>) {
    match Judge(s, questions)
    case Malformed => effects == [Wrote(Failure(FORMAT_ERROR))]
    case BadName => effects == [Wrote(Failure(REFUSED))]
    case Tunnel => effects == [Wrote(Failure(REFUSED))]
    case Denied(q) => effects == [Wrote(Refusal(q))]
    case Served(name, permitted) =>
      Answers(s, permitted, upstream, (if Learns(s, name) then [Learned(name)] else []) + [Asked], effects)
  }

  ghost predicate Answers(s: Setup, permitted: bool, upstream: Option<Message>, before: seq<Effect>, effects: seq<Effect>) {
    match upstream
    case None => effects == before + [Wrote(Failure(SERVER_FAILURE))]
    case Some(m) =>
      if Blocks(s) && !ResponseLooksClean(m) then effects == before + [Wrote(Failure(SERVER_FAILURE))]
      else if Reports(s, permitted, m) then
        exists ttl: nat :: IsMinTTL(Addresses(m.answer), ttl) &&
          effects == before + [Resolved(Names(Addresses(m.answer)), ttl), Wrote(PassedOn(m))]
      else effects == before + [Wrote(PassedOn(m))]
  }

  // ---------------------------------------------------------------- the handler

  /** dns.ResponseWriter and the hooks, as a record of their use. */
  class Outside {
    var effects: seq<Effect>

    constructor ()
      ensures effects == []
    {
      effects := [];
    }

    method Do(e: Effect)
      modifies this
      ensures effects == old(effects) + [e]
    {
      effects := effects + [e];
    }
  }

  class Handler {
    const setup: Setup
    const allowlist: HostMatcher
    const denylist: HostMatcher
    const limiter: DnsRateLimiter?

    ghost predicate Valid()
      reads this, allowlist, denylist, limiter
    {
      && allowlist.lib == setup.lib && denylist.lib == setup.lib
      && allowlist.Holds(setup.allow) && denylist.Holds(setup.opts.denylist)
      && (limiter != null ==> limiter.Valid())
      && (limiter == null <==> !setup.hardening)
    }

    /** createDNSHandler, which normalizes both lists before the matchers do so again. */
    constructor (lib: Library, allow: seq<string>, opts: Options, hardening: bool, hook: bool, learner: bool, qps: int, burst: int)
      ensures Valid() && fresh(allowlist) && fresh(denylist) && (limiter == null || fresh(limiter))
      ensures setup == Setup(lib, NormalizeAll(lib, allow), opts.(denylist := NormalizeAll(lib, opts.denylist)), hardening, hook, learner)
    {
      var deny := NormalizeAll(lib, opts.denylist);
      allowlist := new HostMatcher(lib, NormalizeAll(lib, allow));
      denylist := new HostMatcher(lib, deny);
      if hardening {
        limiter := new DnsRateLimiter(qps, burst);
      } else {
        limiter := null;
      }
      setup := Setup(lib, NormalizeAll(lib, allow), opts.(denylist := deny), hardening, hook, learner);
    }

    method RespondWithError(writer: Outside, rcode: nat)
      modifies writer
      ensures writer.effects == old(writer.effects) + [Wrote(Failure(rcode))]
    {
      writer.Do(Wrote(Failure(rcode)));
    }

    /** blockExfilQuery */
    method BlockExfilQuery(writer: Outside, qname: string, qtype: nat) returns (blocked: bool)
      modifies writer
      ensures blocked <==> Blocks(setup) && qname != "" && !QueryLooksClean(qname, qtype)
      ensures writer.effects == if blocked then old(writer.effects) + [Wrote(Failure(REFUSED))] else old(writer.effects)
    {
      if !setup.hardening || qname == "" { return false; }
      var reason := CheckExfilQuery(qname, qtype);
      if reason == "" { return false; }
      var enforce := !setup.opts.audit && !setup.opts.learning;
      if !enforce { return false; }
      RespondWithError(writer, REFUSED);
      blocked := true;
    }

    /** blockExfilResponse */
    method BlockExfilResponse(writer: Outside, m: Message) returns (blocked: bool)
      modifies writer
      ensures blocked <==> Blocks(setup) && !ResponseLooksClean(m)
      ensures writer.effects == if blocked then old(writer.effects) + [Wrote(Failure(SERVER_FAILURE))] else old(writer.effects)
    {
      if !setup.hardening { return false; }
      var reason := CheckExfilResponse(m);
      if reason == "" { return false; }
      var enforce := !setup.opts.audit && !setup.opts.learning;
      if !enforce { return false; }
      RespondWithError(writer, SERVER_FAILURE);
      blocked := true;
    }

    /** handleBlockedEnforcedType and handleBlockedNonEnforcedType */
    method Refuse(writer: Outside, q: Question)
      modifies writer
      ensures writer.effects == old(writer.effects) + [Wrote(Refusal(q))]
    {
      var enforce := q.qtype == TYPE_A || q.qtype == TYPE_AAAA;
      if enforce {
        if q.qtype == TYPE_A {
          writer.Do(Wrote(Sinkhole(q.name, TYPE_A, "0.0.0.0", DEFAULT_TTL)));
        } else {
          writer.Do(Wrote(Sinkhole(q.name, TYPE_AAAA, "::", DEFAULT_TTL)));
        }
      } else {
        RespondWithError(writer, NAME_ERROR);
      }
    }

    /** maybeLearnHostBy */
    method MaybeLearn(writer: Outside, qname: string)
      requires Valid()
      modifies writer
      ensures writer.effects == old(writer.effects) + if Learns(setup, qname) then [Learned(qname)] else []
    {
      if !setup.opts.learning || !setup.learner || qname == "" { return; }
      var allowed := allowlist.Allows(qname, setup.allow);
      if !allowed { writer.Do(Learned(qname)); }
    }

    /** reportResolvedIPs */
    method ReportResolvedIPs(writer: Outside, m: Message)
      modifies writer
      ensures if setup.hook && Addresses(m.answer) != [] then
                exists ttl: nat :: IsMinTTL(Addresses(m.answer), ttl) &&
                  writer.effects == old(writer.effects) + [Resolved(Names(Addresses(m.answer)), ttl)]
              else writer.effects == old(writer.effects)
    {
      if !setup.hook { return; }
      var ips, ttl := ExtractAnswerIPs(m.answer);
      if |ips| == 0 { return; }
      writer.Do(Resolved(ips, ttl));
    }

    /** handleAllowedRequest */
    method HandleAllowedRequest(writer: Outside, upstream: Option<Message>, fullyPermitted: bool)
      modifies writer
      ensures exists done: seq<Effect> ::
                Answers(setup, fullyPermitted, upstream, [Asked], done) && writer.effects == old(writer.effects) + done
    {
      ghost var start := writer.effects;
      writer.Do(Asked);
      if upstream.None? {
        RespondWithError(writer, SERVER_FAILURE);
        assert writer.effects == start + ([Asked] + [Wrote(Failure(SERVER_FAILURE))]);
        return;
      }
      var resp := upstream.value;
      var blocked := BlockExfilResponse(writer, resp);
      if blocked {
        assert writer.effects == start + ([Asked] + [Wrote(Failure(SERVER_FAILURE))]);
        return;
      }
      if fullyPermitted { ReportResolvedIPs(writer, resp); }
      ghost var reported := writer.effects;
      writer.Do(Wrote(PassedOn(resp)));
      if Reports(setup, fullyPermitted, resp) {
        ghost var ttl: nat :| IsMinTTL(Addresses(resp.answer), ttl) &&
          reported == start + [Asked] + [Resolved(Names(Addresses(resp.answer)), ttl)];
        assert writer.effects == start + ([Asked] + [Resolved(Names(Addresses(resp.answer)), ttl), Wrote(PassedOn(resp))]);
      } else {
        assert writer.effects == start + ([Asked] + [Wrote(PassedOn(resp))]);
      }
    }

    /** handle */
    method Handle(writer: Outside, questions: seq<Question>, remote: string, now: TokenBucket.Time, upstream: Option<Message>)
      returns (ghost limited: bool)
      requires Valid()
      requires limiter != null && limiter.calls != [] ==> limiter.calls[|limiter.calls| - 1].now <= now
      modifies writer, limiter
      ensures Valid() && (limiter == null ==> !limited)
      ensures limiter != null ==>
                && |limiter.calls| == |old(limiter.calls)| + 1
                && limiter.calls[|old(limiter.calls)|].src == remote
                && limited == !limiter.calls[|old(limiter.calls)|].granted
      ensures exists done: seq<Effect> :: writer.effects == old(writer.effects) + done &&
                if limited then done == [Wrote(Failure(REFUSED))] else Handles(setup, questions, upstream, done)
    {
      ghost var start := writer.effects;
      limited := false;
      if limiter != null {
        var granted, _ := limiter.Allow(remote, now);
        if !granted {
          limited := true;
          RespondWithError(writer, REFUSED);
          return;
        }
      }
      HandleWithin(writer, questions, upstream);
    }

    /** The rest of handle, once the rate limiter has let the request through. */
    method HandleWithin(writer: Outside, questions: seq<Question>, upstream: Option<Message>)
      requires Valid()
      modifies writer
      ensures exists done: seq<Effect> :: writer.effects == old(writer.effects) + done && Handles(setup, questions, upstream, done)
    {
      if |questions| == 0 {
        RespondWithError(writer, FORMAT_ERROR);
        assert Handles(setup, questions, upstream, [Wrote(Failure(FORMAT_ERROR))]);
        return;
      }
      var question := questions[0];
      var name := QueryName(question.name);
      if name.None? {
        RespondWithError(writer, REFUSED);
        assert Handles(setup, questions, upstream, [Wrote(Failure(REFUSED))]);
        return;
      }
      var qname := name.value;
      var blocked := BlockExfilQuery(writer, qname, question.qtype);
      if blocked {
        assert Handles(setup, questions, upstream, [Wrote(Failure(REFUSED))]);
        return;
      }
      var permitted := HostPermittedBy(qname, allowlist, denylist, setup.opts, setup.allow);
      var wasAudited := Audited(permitted, setup.opts);
      if !wasAudited && !permitted {
        Refuse(writer, question);
        assert Handles(setup, questions, upstream, [Wrote(Refusal(question))]);
        return;
      }
      assert Judge(setup, questions) == Served(qname, permitted);
      Serve(writer, qname, permitted, upstream);
    }

    /** The end of handle, for a query that is permitted or audited. */
    method Serve(writer: Outside, qname: string, permitted: bool, upstream: Option<Message>)
      requires Valid()
      modifies writer
      ensures exists done: seq<Effect> :: writer.effects == old(writer.effects) + done &&
                Answers(setup, permitted, upstream, (if Learns(setup, qname) then [Learned(qname)] else []) + [Asked], done)
    {
      ghost var start := writer.effects;
      MaybeLearn(writer, qname);
      HandleAllowedRequest(writer, upstream, permitted);
      ghost var learned := if Learns(setup, qname) then [Learned(qname)] else [];
      ghost var done: seq<Effect> :| Answers(setup, permitted, upstream, [Asked], done) && writer.effects == start + learned + done;
      AnswersAfter(setup, permitted, upstream, learned, [Asked], done);
      assert writer.effects == start + (learned + done);
    }
  }

  lemma AnswersAfter(s: Setup, permitted: bool, upstream: Option<Message>, first: seq<Effect>, before: seq<Effect>, effects: seq<Effect>)
    requires Answers(s, permitted, upstream, before, effects)
    ensures Answers(s, permitted, upstream, first + before, first + effects)
  {
  }

  // ---------------------------------------------------------------- what follows for every query

  ghost predicate OneResponse(effects: seq<Effect>) {
    && effects != [] && effects[|effects| - 1].Wrote?
    && forall i :: 0 <= i < |effects| - 1 ==> !effects[i].Wrote?
  }

  /** Every path writes exactly one response, after everything else it does. */
  lemma ExactlyOneResponse(s: Setup, questions: seq<Question>, upstream: Option<Message>, effects: seq<Effect>)
    requires Handles(s, questions, upstream, effects)
    ensures OneResponse(effects)
  {
    match Judge(s, questions)
    case Served(name, permitted) =>
      AnswersOnce(s, permitted, upstream, (if Learns(s, name) then [Learned(name)] else []) + [Asked], effects);
    case _ =>
  }

  lemma AnswersOnce(s: Setup, permitted: bool, upstream: Option<Message>, before: seq<Effect>, effects: seq<Effect>)
    requires Answers(s, permitted, upstream, before, effects) && forall i :: 0 <= i < |before| ==> !before[i].Wrote?
    ensures OneResponse(effects)
  {
  }

  /** The dns-strict hook is called exactly when it is set, the name is permitted by policy and
      not merely let through by the audit, the query passes the tunnelling check, an upstream
      answered, the answer passes its check, and has addresses; and then once, with all of
      them in order and their least TTL. */
  lemma HookCalledExactly(s: Setup, questions: seq<Question>, upstream: Option<Message>, effects: seq<Effect>, k: nat)
    requires Handles(s, questions, upstream, effects)
    ensures (exists i :: 0 <= i < |effects| && effects[i].Resolved?) <==> ShouldReport(s, questions, upstream)
    ensures k < |effects| && effects[k].Resolved? ==>
              && upstream.Some? && k == |effects| - 2
              && effects[k].ips == Names(Addresses(upstream.value.answer))
              && IsMinTTL(Addresses(upstream.value.answer), effects[k].ttl)
  {
    match Judge(s, questions)
    case Served(name, permitted) =>
      ReportInAnswers(s, permitted, upstream, (if Learns(s, name) then [Learned(name)] else []) + [Asked], effects, k);
    case _ =>
  }

  lemma ReportInAnswers(s: Setup, permitted: bool, upstream: Option<Message>, before: seq<Effect>, effects: seq<Effect>, k: nat)
    requires Answers(s, permitted, upstream, before, effects)
    requires forall i :: 0 <= i < |before| ==> !before[i].Resolved?
    ensures (exists i :: 0 <= i < |effects| && effects[i].Resolved?) <==>
            upstream.Some? && (Blocks(s) ==> ResponseLooksClean(upstream.value)) && Reports(s, permitted, upstream.value)
    ensures k < |effects| && effects[k].Resolved? ==>
              && upstream.Some? && k == |effects| - 2
              && effects[k].ips == Names(Addresses(upstream.value.answer))
              && IsMinTTL(Addresses(upstream.value.answer), effects[k].ttl)
  {
    if upstream.Some? && (Blocks(s) ==> ResponseLooksClean(upstream.value)) && Reports(s, permitted, upstream.value) {
      assert effects[|before|].Resolved?;
    }
  }

  ghost predicate ShouldReport(s: Setup, questions: seq<Question>, upstream: Option<Message>) {
    && s.hook && questions != [] && upstream.Some?
    && QueryName(questions[0].name).Some?
    && var name := QueryName(questions[0].name).value;
    && Permitted(s.lib, name, s.allow, s.opts)
    && (Blocks(s) && name != "" ==> QueryLooksClean(name, questions[0].qtype))
    && (Blocks(s) ==> ResponseLooksClean(upstream.value))
    && Addresses(upstream.value.answer) != []
  }

  /** A query leaves the host only when its name is valid, passes the tunnelling check where
      that is enforced, and is permitted or audited. */
  lemma AskedOnlyIfServed(s: Setup, questions: seq<Question>, upstream: Option<Message>, effects: seq<Effect>)
    requires Handles(s, questions, upstream, effects)
    ensures Asked in effects <==>
            && questions != [] && QueryName(questions[0].name).Some?
            && var name := QueryName(questions[0].name).value;
            && (Blocks(s) && name != "" ==> QueryLooksClean(name, questions[0].qtype))
            && (Permitted(s.lib, name, s.allow, s.opts) || s.opts.audit)
  {
  }

  /** A client sees an upstream's answer only if that answer was asked for and passed the check
      where it is enforced, and then it sees it unchanged. */
  lemma AnswersAreGenuine(s: Setup, questions: seq<Question>, upstream: Option<Message>, effects: seq<Effect>, m: Message)
    requires Handles(s, questions, upstream, effects)
    ensures Wrote(PassedOn(m)) in effects <==>
            Asked in effects && upstream == Some(m) && (Blocks(s) ==> ResponseLooksClean(m))
  {
    match Judge(s, questions)
    case Served(name, permitted) =>
      PassedOnExactly(s, permitted, upstream, (if Learns(s, name) then [Learned(name)] else []) + [Asked], effects, m);
    case _ =>
  }

  lemma PassedOnExactly(s: Setup, permitted: bool, upstream: Option<Message>, before: seq<Effect>, effects: seq<Effect>, m: Message)
    requires Answers(s, permitted, upstream, before, effects) && Asked in before && forall e :: e in before ==> !e.Wrote?
    ensures Asked in effects
    ensures Wrote(PassedOn(m)) in effects <==> upstream == Some(m) && (Blocks(s) ==> ResponseLooksClean(m))
  {
  }

  /** Auditing and learning block no well-formed query: whatever the policy, the client gets
      what the upstream says, or SERVFAIL when there is nothing. */
  lemma AuditNeverBlocks(s: Setup, questions: seq<Question>, upstream: Option<Message>, effects: seq<Effect>)
    requires Handles(s, questions, upstream, effects) && (s.opts.audit || s.opts.learning)
    requires questions != [] && QueryName(questions[0].name).Some?
    ensures effects[|effects| - 1] == Wrote(match upstream case Some(m) => PassedOn(m) case None => Failure(SERVER_FAILURE))
  {
  }
}

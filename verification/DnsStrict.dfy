/** dns-strict as a step system: handlers that judge queries and push answers into the kernel's
    runtime sets with nft commands, in any interleaving with each other, the clock, policy
    reloads in the kernel and restarts of the handlers, and packets that meet the ruleset. */
module DnsStrict {
  import opened GoStrings
  import opened Streams
  import opened Nft
  import opened ResolvedSet
  import opened DnsHandler
  import HostPolicy
  import R = PolicyReload
  import T = NftTemplates
  import D = NftDecisions
  import V = NftVerdicts

  // ---------------------------------------------------------------- policies

  /** What one load of the policy gives the kernel and the handlers. */
  datatype Generation = Generation(rules: T.Config, setup: Setup)

  predicate Strict(rules: T.Config) { T.ModeOf(rules.mode).DnsStrict? && !rules.defaultAllow }

  lemma StrictByMode(rules: T.Config)
    ensures Strict(rules) <==> ToLower(rules.mode) == "dns-strict" && !rules.defaultAllow
  {
  }

  /** How loadAndApplyPolicy and startServices derive both halves from one stance: learning
      makes the ruleset permissive and takes the denylist from it, and the hook exists only where
      the ruleset is strict. */
  predicate Derived(g: Generation) {
    && g.rules.defaultAllow == (g.setup.opts.defaultAllow || g.setup.opts.learning)
    && (g.setup.opts.learning ==> g.rules.denyV4 == [] && g.rules.denyV6 == [])
    && g.rules.audit == g.setup.opts.audit
    && g.setup.hook == Strict(g.rules)
  }

  /** Learning never blocks: whatever the policy, no packet is discarded. */
  lemma LearningNeverBlocks(g: Generation, fam: Family, p: D.Packet, env: D.Env)
    requires Derived(g) && g.setup.opts.learning
    ensures D.Process(g.rules, fam, p, env).fate != D.Discarded
  {
    if g.rules.audit { V.AuditOnlyLiftsDrops(g.rules, fam, p, env); } else { V.EnforcedDecides(g.rules, fam, p, env); }
  }

  // ---------------------------------------------------------------- states

  /** A query in the hands of a handler goroutine. It keeps the policy it started with. While
      reporting it works through `ips`; `results` are the outcomes of the commands run for the
      first of them, and `running` is when one more was started. `own` is the time since the
      report that it spent outside commands, up to `since` or to the start of the running one;
      a command counts for no longer than its timeout. */
  datatype Job = Job(gen: nat, question: Question, stage: Stage)

  datatype Stage =
    | Waiting
    | Reporting(response: Message, ips: seq<string>, ttl: nat, reported: Time, results: seq<bool>,
                running: Option<Time>, since: Time, own: real)
    | Finished

  /** `gens` are the policies loaded so far, the last of which is in the kernel; `svc` is the
      one the running service group was started with. */
  datatype World = World(now: Time, gens: seq<Generation>, svc: nat, set_: KernelSet, jobs: map<nat, Job>)

  datatype Step =
    | Query(id: nat, question: Question)
    | Answer(id: nat, upstream: Option<Message>, ttl: nat)
    | Begin(id: nat)
    | Cancelled(id: nat)
    | End(id: nat, effective: bool, ok: bool)
    | NextAddress(id: nat)
    | Tick(elapsed: real)
    | Reload(gen: Generation)
    | Restart(to: nat)

  function Rules(w: World): T.Config
    requires w.gens != []
  {
    w.gens[|w.gens| - 1].rules
  }

  predicate IsReporting(w: World, id: nat) { id in w.jobs && w.jobs[id].stage.Reporting? && w.jobs[id].stage.ips != [] }

  /** The command a reporting job would run next, if its address parses and is not done. */
  function Due(parse: Parser, w: World, id: nat): Option<Command>
    requires IsReporting(w, id)
  {
    var s := w.jobs[id].stage;
    match parse(TrimSpace(s.ips[0]))
    case Some(e) => NextCommand(e, Clamp(s.ttl), s.results)
    case None => None
  }

  function OriginOf(job: Job): Origin
    requires job.stage.Reporting? && job.stage.ips != []
  {
    Origin(job.gen, job.question, job.stage.response, job.stage.ips[0], job.stage.ttl, job.stage.reported, job.stage.own)
  }

  ghost predicate Enabled(parse: Parser, w: World, step: Step) {
    match step
    case Query(id, _) => id !in w.jobs
    case Answer(id, upstream, ttl) =>
      && id in w.jobs && w.jobs[id].stage.Waiting? && w.jobs[id].gen < |w.gens|
      && (ReportsTo(w, w.jobs[id], upstream) ==> IsMinTTL(Addresses(upstream.value.answer), ttl))
    case Begin(id) =>
      // a service context that is done starts no command
      IsReporting(w, id) && w.jobs[id].stage.running.None? && Due(parse, w, id).Some? && w.jobs[id].gen == w.svc
    case Cancelled(id) =>
      IsReporting(w, id) && w.jobs[id].stage.running.None? && Due(parse, w, id).Some? && w.jobs[id].gen != w.svc
    case End(id, effective, ok) =>
      // a command is killed when its time is up
      && IsReporting(w, id) && w.jobs[id].stage.running.Some? && Due(parse, w, id).Some? && w.gens != []
      && (ok ==> effective)
      && (effective ==>
            && w.now <= w.jobs[id].stage.running.value + NFT_TIMEOUT
            && Strict(Rules(w)) && Possible(w.set_, w.now, Due(parse, w, id).value))
    case NextAddress(id) => IsReporting(w, id) && w.jobs[id].stage.running.None? && Due(parse, w, id).None?
    case Tick(elapsed) => elapsed >= 0.0
    case Reload(gen) => Derived(gen)
    // the update taken from the channel need not be the newest
    case Restart(to) => w.svc <= to < |w.gens|
  }

  /** The hook is called for this job's answer. */
  ghost predicate ReportsTo(w: World, job: Job, upstream: Option<Message>)
    requires job.gen < |w.gens|
  {
    ShouldReport(w.gens[job.gen].setup, [job.question], upstream)
  }

  function WithStage(w: World, id: nat, stage: Stage): World
    requires id in w.jobs
  {
    w.(jobs := w.jobs[id := w.jobs[id].(stage := stage)])
  }

  ghost function Do(parse: Parser, w: World, step: Step): World
    requires Enabled(parse, w, step)
  {
    match step
    case Query(id, question) => w.(jobs := w.jobs[id := Job(w.svc, question, Waiting)])
    case Answer(id, upstream, ttl) =>
      if ReportsTo(w, w.jobs[id], upstream) then
        WithStage(w, id, Reporting(upstream.value, Names(Addresses(upstream.value.answer)), ttl, w.now, [], None, w.now, 0.0))
      else WithStage(w, id, Finished)
    case Begin(id) =>
      var s := w.jobs[id].stage;
      WithStage(w, id, s.(running := Some(w.now), own := s.own + (w.now - s.since)))
    case Cancelled(id) =>
      var s := w.jobs[id].stage;
      WithStage(w, id, s.(results := s.results + [false], since := w.now, own := s.own + (w.now - s.since)))
    case End(id, effective, ok) =>
      var s := w.jobs[id].stage;
      var w' := WithStage(w, id, s.(results := s.results + [ok], running := None, since := w.now,
                                    own := s.own + Overrun(s.running.value, w.now)));
      if effective then w'.(set_ := AfterCommand(w.set_, w.now, Due(parse, w, id).value, OriginOf(w.jobs[id]))) else w'
    case NextAddress(id) =>
      var s := w.jobs[id].stage;
      WithStage(w, id, if |s.ips| == 1 then Finished else s.(ips := s.ips[1..], results := []))
    case Tick(elapsed) => w.(now := w.now + elapsed)
    // one nft transaction replaces the tables, and with them the sets
    case Reload(gen) => w.(gens := w.gens + [gen], set_ := map[])
    case Restart(to) => w.(svc := to)
  }

  /** What a command took beyond its timeout. */
  function Overrun(start: Time, now: Time): real { if now > start + NFT_TIMEOUT then now - start - NFT_TIMEOUT else 0.0 }

  ghost predicate Run(parse: Parser, worlds: seq<World>, steps: seq<Step>) {
    && |worlds| == |steps| + 1
    && worlds[0].gens != [] && worlds[0].svc == |worlds[0].gens| - 1 && worlds[0].set_ == map[] && worlds[0].jobs == map[]
    && (forall i :: 0 <= i < |worlds[0].gens| ==> Derived(worlds[0].gens[i]))
    && forall k :: 0 <= k < |steps| ==> Enabled(parse, worlds[k], steps[k]) && worlds[k + 1] == Do(parse, worlds[k], steps[k])
  }

  // ---------------------------------------------------------------- the invariant

  /** The push was for an address of an answer that its handler's policy let it report. */
  ghost predicate Justified(parse: Parser, gens: seq<Generation>, e: Element, o: Origin) {
    && o.gen < |gens|
    && ShouldReport(gens[o.gen].setup, [o.question], Some(o.response))
    && o.ip in Names(Addresses(o.response.answer)) && parse(TrimSpace(o.ip)) == Some(e)
    && IsMinTTL(Addresses(o.response.answer), o.ttl)
  }

  /** An upper bound on the commands a reporting job has finished. */
  function Used(s: Stage): int
    requires s.Reporting?
  {
    MAX_COMMANDS * (|Addresses(s.response.answer)| - |s.ips|) + |s.results|
  }

  /** The time since the report is covered by the commands so far and the handler's own time. */
  ghost predicate Timed(s: Stage, now: Time) {
    s.Reporting? ==>
      && |s.ips| <= |Addresses(s.response.answer)| && |s.results| <= MAX_COMMANDS
      && (s.running.Some? ==> |s.results| < MAX_COMMANDS)
      && var until := if s.running.Some? then s.running.value else s.since;
      until <= now && until - s.reported <= s.own + NFT_TIMEOUT * Used(s) as real
  }

  ghost predicate JobInv(gens: seq<Generation>, now: Time, job: Job) {
    && job.gen < |gens| && Timed(job.stage, now)
    && (job.stage.Reporting? ==>
          var s := job.stage;
          && ShouldReport(gens[job.gen].setup, [job.question], Some(s.response))
          && (forall i :: 0 <= i < |s.ips| ==> s.ips[i] in Names(Addresses(s.response.answer)))
          && IsMinTTL(Addresses(s.response.answer), s.ttl) && s.reported <= now)
  }

  ghost predicate EntryInv(parse: Parser, gens: seq<Generation>, now: Time, e: Element, x: Entry) {
    && Justified(parse, gens, e, x.origin)
    && x.timeout == Clamp(x.origin.ttl) && x.origin.reported <= x.added <= now
    && x.added <= x.origin.reported + CommandTime(|Addresses(x.origin.response.answer)|) + x.origin.own
  }

  ghost predicate JobsInv(gens: seq<Generation>, now: Time, jobs: map<nat, Job>) {
    forall id :: id in jobs ==> JobInv(gens, now, jobs[id])
  }

  ghost predicate SetInv(parse: Parser, gens: seq<Generation>, now: Time, set_: KernelSet) {
    forall e :: e in set_ ==> EntryInv(parse, gens, now, e, set_[e])
  }

  ghost predicate Inv(parse: Parser, w: World) {
    && w.gens != [] && w.svc < |w.gens| && (forall i :: 0 <= i < |w.gens| ==> Derived(w.gens[i]))
    && JobsInv(w.gens, w.now, w.jobs) && SetInv(parse, w.gens, w.now, w.set_)
  }

  lemma JobStays(gens: seq<Generation>, more: seq<Generation>, now: Time, later: Time, job: Job)
    requires JobInv(gens, now, job) && gens <= more && now <= later
    ensures JobInv(more, later, job)
  {
  }

  lemma EntryStays(parse: Parser, gens: seq<Generation>, now: Time, later: Time, e: Element, x: Entry)
    requires EntryInv(parse, gens, now, e, x) && now <= later
    ensures EntryInv(parse, gens, later, e, x)
  {
  }

  lemma StageKeeps(gens: seq<Generation>, now: Time, jobs: map<nat, Job>, id: nat, stage: Stage)
    requires JobsInv(gens, now, jobs) && id in jobs && JobInv(gens, now, jobs[id].(stage := stage))
    ensures JobsInv(gens, now, jobs[id := jobs[id].(stage := stage)])
  {
  }

  /** A reporting job may forget addresses and change its progress. */
  lemma ProgressKeeps(gens: seq<Generation>, now: Time, job: Job, stage: Stage)
    requires JobInv(gens, now, job) && job.stage.Reporting? && stage.Reporting? && Timed(stage, now)
    requires stage.response == job.stage.response && stage.ttl == job.stage.ttl && stage.reported == job.stage.reported
    requires forall ip :: ip in stage.ips ==> ip in job.stage.ips
    ensures JobInv(gens, now, job.(stage := stage))
  {
    var ips := stage.ips;
    forall i | 0 <= i < |ips| ensures ips[i] in Names(Addresses(job.stage.response.answer)) {
      assert ips[i] in job.stage.ips;
    }
  }

  /** Each step of a reporting job keeps the account of its time. */
  lemma StepIsTimed(parse: Parser, w: World, step: Step)
    requires Enabled(parse, w, step) && (step.Begin? || step.Cancelled? || step.End? || step.NextAddress?)
    requires Timed(w.jobs[step.id].stage, w.now)
    ensures Timed(Do(parse, w, step).jobs[step.id].stage, w.now)
  {
  }

  lemma QueryKeeps(parse: Parser, w: World, step: Step)
    requires JobsInv(w.gens, w.now, w.jobs) && w.svc < |w.gens| && Enabled(parse, w, step) && (step.Query? || step.Answer?)
    ensures JobsInv(w.gens, w.now, Do(parse, w, step).jobs)
  {
  }

  lemma ProgressStepKeeps(parse: Parser, w: World, step: Step)
    requires JobsInv(w.gens, w.now, w.jobs) && Enabled(parse, w, step) && (step.Begin? || step.Cancelled? || step.NextAddress?)
    ensures JobsInv(w.gens, w.now, Do(parse, w, step).jobs)
  {
    var w', job := Do(parse, w, step), w.jobs[step.id];
    var stage := w'.jobs[step.id].stage;
    assert JobInv(w.gens, w.now, job);
    StepIsTimed(parse, w, step);
    if stage.Reporting? { ProgressKeeps(w.gens, w.now, job, stage); }
    StageKeeps(w.gens, w.now, w.jobs, step.id, stage);
  }

  lemma SetKeeps(parse: Parser, gens: seq<Generation>, now: Time, s: KernelSet, c: Command, origin: Origin)
    requires SetInv(parse, gens, now, s)
    requires c.Add? ==> EntryInv(parse, gens, now, c.e, Entry(now, c.timeout, origin))
    ensures SetInv(parse, gens, now, AfterCommand(s, now, c, origin))
  {
  }

  lemma EndKeeps(parse: Parser, w: World, step: Step)
    requires JobsInv(w.gens, w.now, w.jobs) && SetInv(parse, w.gens, w.now, w.set_) && Enabled(parse, w, step) && step.End?
    ensures JobsInv(w.gens, w.now, Do(parse, w, step).jobs) && SetInv(parse, w.gens, w.now, Do(parse, w, step).set_)
  {
    var job := w.jobs[step.id];
    assert JobInv(w.gens, w.now, job);
    var stage := Do(parse, w, step).jobs[step.id].stage;
    StepIsTimed(parse, w, step);
    ProgressKeeps(w.gens, w.now, job, stage);
    StageKeeps(w.gens, w.now, w.jobs, step.id, stage);
    if step.effective {
      var c := Due(parse, w, step.id).value;
      DueIsJustified(parse, w, step.id);
      SetKeeps(parse, w.gens, w.now, w.set_, c, OriginOf(job));
    }
  }

  lemma DueIsJustified(parse: Parser, w: World, id: nat)
    requires IsReporting(w, id) && Due(parse, w, id).Some? && JobInv(w.gens, w.now, w.jobs[id])
    requires w.jobs[id].stage.running.Some? && w.now <= w.jobs[id].stage.running.value + NFT_TIMEOUT
    ensures var c := Due(parse, w, id).value;
            c.Add? ==> EntryInv(parse, w.gens, w.now, c.e, Entry(w.now, c.timeout, OriginOf(w.jobs[id])))
  {
  }

  lemma TickKeeps(parse: Parser, w: World, step: Step)
    requires Inv(parse, w) && Enabled(parse, w, step) && (step.Tick? || step.Restart?)
    ensures Inv(parse, Do(parse, w, step))
  {
    var w' := Do(parse, w, step);
    forall id | id in w'.jobs ensures JobInv(w'.gens, w'.now, w'.jobs[id]) {
      JobStays(w.gens, w'.gens, w.now, w'.now, w.jobs[id]);
    }
    forall e | e in w'.set_ ensures EntryInv(parse, w'.gens, w'.now, e, w'.set_[e]) {
      EntryStays(parse, w.gens, w.now, w'.now, e, w.set_[e]);
    }
  }

  lemma ReloadKeeps(parse: Parser, w: World, step: Step)
    requires Inv(parse, w) && Enabled(parse, w, step) && step.Reload?
    ensures Inv(parse, Do(parse, w, step)) && Do(parse, w, step).set_ == map[]
  {
    var w' := Do(parse, w, step);
    forall id | id in w'.jobs ensures JobInv(w'.gens, w'.now, w'.jobs[id]) {
      JobStays(w.gens, w'.gens, w.now, w'.now, w.jobs[id]);
    }
  }

  lemma {:induction false} InvStep(parse: Parser, w: World, step: Step)
    requires Inv(parse, w) && Enabled(parse, w, step)
    ensures Inv(parse, Do(parse, w, step))
  {
    match step
    case End(_, _, _) => EndKeeps(parse, w, step);
    case Tick(_) => TickKeeps(parse, w, step);
    case Restart(_) => TickKeeps(parse, w, step);
    case Reload(_) => ReloadKeeps(parse, w, step);
    case Query(_, _) => QueryKeeps(parse, w, step);
    case Answer(_, _, _) => QueryKeeps(parse, w, step);
    case _ => ProgressStepKeeps(parse, w, step);
  }

  lemma {:induction false} InvAlways(parse: Parser, worlds: seq<World>, steps: seq<Step>, k: nat)
    requires Run(parse, worlds, steps) && k < |worlds|
    ensures Inv(parse, worlds[k])
  {
    if k > 0 {
      InvAlways(parse, worlds, steps, k - 1);
      InvStep(parse, worlds[k - 1], steps[k - 1]);
    }
  }

  // ---------------------------------------------------------------- safety

  ghost function EnvOf(w: World, fam: Family, covers: (string, D.Addr) -> bool): D.Env {
    D.Env(covers, set e | e in w.set_ && e.fam == fam && Live(w.set_, e, w.now) :: e.addr)
  }

  /** Traffic the strict ruleset has an opinion on: not marked by the proxy itself, not local,
      not part of an established connection, not DNS, not neighbour discovery. */
  predicate Judged(rules: T.Config, fam: Family, p: D.Packet) {
    && !p.marked && !p.oifLo && !p.established && !D.IsDns(p)
    && !(fam.V6? && p.l4.Neighbour?) && !D.ToLocalProxy(rules, fam, p)
  }

  /** Under a strict, enforcing ruleset such a packet passes exactly when its destination is
      statically allowed or has a live entry. */
  lemma StrictExactly(w: World, fam: Family, p: D.Packet, covers: (string, D.Addr) -> bool)
    requires w.gens != [] && Strict(Rules(w)) && !Rules(w).audit && Judged(Rules(w), fam, p)
    ensures D.Process(Rules(w), fam, p, EnvOf(w, fam, covers)).fate != D.Discarded <==>
            D.Allowlisted(Rules(w), fam, p.daddr, EnvOf(w, fam, covers)) || Live(w.set_, Element(fam, p.daddr), w.now)
  {
    var env := EnvOf(w, fam, covers);
    V.EnforcedDecides(Rules(w), fam, p, env);
    assert p.daddr in env.resolved <==> Live(w.set_, Element(fam, p.daddr), w.now);
  }

  /** Why an address may be reached: some handler, whose own policy was strict and permitted the
      query, received it in an answer that passed the response check, reported it, and pushed it
      less than the clamped least TTL ago; and the push came after the report by no more than
      nine seconds for each address of the answer and the handler's own time in between. */
  ghost predicate ResolvedFor(parse: Parser, w: World, e: Element) {
    && e in w.set_
    && var x := w.set_[e]; var o := x.origin;
    && o.gen < |w.gens| && Strict(w.gens[o.gen].rules)
    && var setup, name := w.gens[o.gen].setup, QueryName(o.question.name);
    && name.Some? && HostPolicy.Permitted(setup.lib, name.value, setup.allow, setup.opts)
    && (Blocks(setup) && name.value != "" ==> QueryLooksClean(name.value, o.question.qtype))
    && (Blocks(setup) ==> ResponseLooksClean(o.response))
    && o.ip in Names(Addresses(o.response.answer)) && parse(TrimSpace(o.ip)) == Some(e)
    && IsMinTTL(Addresses(o.response.answer), o.ttl)
    && o.reported <= x.added <= w.now < x.added + Clamp(o.ttl) as real
    && x.added <= o.reported + CommandTime(|Addresses(o.response.answer)|) + o.own
  }

  /** The safety theorem, over every run and interleaving: whatever passes is statically allowed
      or was resolved through the proxy. */
  lemma StrictSafety(parse: Parser, worlds: seq<World>, steps: seq<Step>, k: nat, fam: Family, p: D.Packet,
                     covers: (string, D.Addr) -> bool)
    requires Run(parse, worlds, steps) && k < |worlds| && worlds[k].gens != []
    requires Strict(Rules(worlds[k])) && !Rules(worlds[k]).audit && Judged(Rules(worlds[k]), fam, p)
    requires D.Process(Rules(worlds[k]), fam, p, EnvOf(worlds[k], fam, covers)).fate != D.Discarded
    ensures D.Allowlisted(Rules(worlds[k]), fam, p.daddr, EnvOf(worlds[k], fam, covers)) ||
            ResolvedFor(parse, worlds[k], Element(fam, p.daddr))
  {
    var w, e := worlds[k], Element(fam, p.daddr);
    InvAlways(parse, worlds, steps, k);
    StrictExactly(w, fam, p, covers);
    if Live(w.set_, e, w.now) {
      assert EntryInv(parse, w.gens, w.now, e, w.set_[e]);
      LiveIsResolved(parse, w, e);
    }
  }

  lemma LiveIsResolved(parse: Parser, w: World, e: Element)
    requires Live(w.set_, e, w.now) && EntryInv(parse, w.gens, w.now, e, w.set_[e])
    requires Derived(w.gens[w.set_[e].origin.gen])
    ensures ResolvedFor(parse, w, e)
  {
  }

  /** The deadline counted from the report, for every run: an entry is gone, at the latest, when
      the clamped least TTL, nine seconds for each address of the answer, and the handler's own
      time between its commands have passed since the report. `own` bounds the last of these. */
  lemma ReportBound(parse: Parser, worlds: seq<World>, steps: seq<Step>, k: nat, e: Element, own: real)
    requires Run(parse, worlds, steps) && k < |worlds| && Live(worlds[k].set_, e, worlds[k].now)
    requires worlds[k].set_[e].origin.own <= own
    ensures var w, o := worlds[k], worlds[k].set_[e].origin;
            w.now < o.reported + Clamp(o.ttl) as real + 9.0 * |Addresses(o.response.answer)| as real + own
  {
    InvAlways(parse, worlds, steps, k);
    assert EntryInv(parse, worlds[k].gens, worlds[k].now, e, worlds[k].set_[e]);
  }

  /** When that much more time has passed, the entry is live, and overdue by the report. */
  ghost predicate OverdueAfter(parse: Parser, w: World, e: Element, elapsed: real, late: real)
    requires e in w.set_ && Enabled(parse, w, Tick(elapsed))
  {
    var w', o := Do(parse, w, Tick(elapsed)), w.set_[e].origin;
    Live(w'.set_, e, w'.now) && o.reported + Clamp(o.ttl) as real + late <= w'.now
  }

  /** And exactly, for every run, live entry and number of seconds: the entry can still be live
      that long past the deadline counted from the report if and only if its push took effect
      more than that long after the report. */
  lemma ReportDeadlineExactly(parse: Parser, worlds: seq<World>, steps: seq<Step>, k: nat, e: Element, late: real)
    requires Run(parse, worlds, steps) && k < |worlds| && Live(worlds[k].set_, e, worlds[k].now)
    ensures var w, x := worlds[k], worlds[k].set_[e];
            (exists elapsed: real :: Enabled(parse, w, Tick(elapsed)) && OverdueAfter(parse, w, e, elapsed, late)) <==>
            x.added > x.origin.reported + late
  {
    InvAlways(parse, worlds, steps, k);
    var w, x := worlds[k], worlds[k].set_[e];
    assert EntryInv(parse, w.gens, w.now, e, x);
    var deadline := x.origin.reported + Clamp(x.origin.ttl) as real + late;
    var elapsed := if deadline > w.now then deadline - w.now else 0.0;
    if x.added > x.origin.reported + late {
      assert Enabled(parse, w, Tick(elapsed)) && OverdueAfter(parse, w, e, elapsed, late);
    }
  }

  /** A reload leaves nothing behind: right after it only static destinations pass. */
  lemma ReloadForgets(parse: Parser, w: World, g: Generation, fam: Family, p: D.Packet, covers: (string, D.Addr) -> bool)
    requires Enabled(parse, w, Reload(g)) && Strict(g.rules) && !g.rules.audit && Judged(g.rules, fam, p)
    ensures var w' := Do(parse, w, Reload(g));
            && Rules(w') == g.rules && w'.set_ == map[]
            && (D.Process(g.rules, fam, p, EnvOf(w', fam, covers)).fate != D.Discarded <==>
                D.Allowlisted(g.rules, fam, p.daddr, EnvOf(w', fam, covers)))
  {
    StrictExactly(Do(parse, w, Reload(g)), fam, p, covers);
  }

  // ---------------------------------------------------------------- reloads and running handlers

  /** Every entry was pushed by a handler of the policy that is in the kernel. */
  ghost predicate Current(w: World) {
    forall e :: e in w.set_ ==> w.set_[e].origin.gen == |w.gens| - 1
  }

  /** A command that will, if it takes effect, add an entry for a policy the kernel has left. */
  ghost predicate StalePush(parse: Parser, w: World, step: Step) {
    && step.End? && IsReporting(w, step.id) && Due(parse, w, step.id).Some? && Due(parse, w, step.id).value.Add?
    && step.effective && w.jobs[step.id].gen != |w.gens| - 1
  }

  /** The set stays current through every step but one kind, and that one always spoils it: the
      effect of an add command started by a handler of an earlier policy. */
  lemma {:induction false} CurrentExactly(parse: Parser, w: World, step: Step)
    requires w.gens != [] && Current(w) && Enabled(parse, w, step)
    ensures Current(Do(parse, w, step)) <==> !StalePush(parse, w, step)
  {
    var w' := Do(parse, w, step);
    if StalePush(parse, w, step) {
      var e := Due(parse, w, step.id).value.e;
      assert e in w'.set_ && w'.set_[e].origin.gen == w.jobs[step.id].gen;
    }
  }

  /** The handlers have been restarted since the last reload, and no command of an earlier
      policy is still running. */
  ghost predicate Settled(w: World) {
    && w.gens != [] && w.svc == |w.gens| - 1
    && forall id :: id in w.jobs && w.jobs[id].stage.Reporting? && w.jobs[id].stage.running.Some? ==> w.jobs[id].gen == w.svc
  }

  /** Once settled, always settled until the next reload, and then nothing stale is pushed. */
  lemma SettledStays(parse: Parser, w: World, step: Step)
    requires Settled(w) && Enabled(parse, w, step) && !step.Reload?
    ensures Settled(Do(parse, w, step)) && !StalePush(parse, w, step)
  {
  }

  lemma {:induction false} SettledCurrent(parse: Parser, worlds: seq<World>, steps: seq<Step>, j: nat, k: nat)
    requires Run(parse, worlds, steps) && j <= k < |worlds|
    requires Settled(worlds[j]) && Current(worlds[j]) && forall i :: j <= i < k ==> !steps[i].Reload?
    ensures Settled(worlds[k]) && Current(worlds[k])
    decreases k
  {
    if j < k {
      SettledCurrent(parse, worlds, steps, j, k - 1);
      SettledStep(parse, worlds[k - 1], steps[k - 1]);
    }
  }

  lemma SettledStep(parse: Parser, w: World, step: Step)
    requires Settled(w) && Current(w) && Enabled(parse, w, step) && !step.Reload?
    ensures Settled(Do(parse, w, step)) && Current(Do(parse, w, step))
  {
    SettledStays(parse, w, step);
    CurrentExactly(parse, w, step);
  }

  /** From a settled, current state on, until the next reload, every resolved destination that
      passes was permitted by the very policy that is in the kernel. */
  lemma SettledSafety(parse: Parser, worlds: seq<World>, steps: seq<Step>, j: nat, k: nat, e: Element)
    requires Run(parse, worlds, steps) && j <= k < |worlds|
    requires Settled(worlds[j]) && Current(worlds[j]) && forall i :: j <= i < k ==> !steps[i].Reload?
    ensures Settled(worlds[k]) && Current(worlds[k])
    ensures Live(worlds[k].set_, e, worlds[k].now) ==>
              ResolvedFor(parse, worlds[k], e) && worlds[k].set_[e].origin.gen == |worlds[k].gens| - 1
  {
    SettledCurrent(parse, worlds, steps, j, k);
    InvAlways(parse, worlds, steps, k);
    var w := worlds[k];
    if Live(w.set_, e, w.now) {
      assert EntryInv(parse, w.gens, w.now, e, w.set_[e]);
      LiveIsResolved(parse, w, e);
    }
  }

  /** The restarts are those of the supervisor, whose updates need not be the newest; and when
      nothing is on its way and the last send did not give up, the handlers are those of the
      policy in the kernel, as a settled state wants it. */
  lemma RestartsOfSupervisor(parse: Parser, w: World, s: R.State)
    requires R.Inv(s) && |w.gens| == |s.gens| && w.svc == s.svc
    ensures R.Enabled(s, R.Restart) ==> Enabled(parse, w, Restart(s.sup.u))
    ensures !R.Sending(s.pc) && s.buf.None? && s.sup.Waiting? && !s.gaveUp ==> w.svc == |w.gens| - 1
  {
  }

  // ---------------------------------------------------------------- a report is worked through

  /** The step ends a push of the element by the job: it is reported as added, or it was the attempt
      after the delete that follows a failure. */
  ghost predicate PushEnds(parse: Parser, w: World, step: Step, id: nat, e: Element, timeout: nat) {
    && (step.End? || step.Cancelled?) && step.id == id
    && IsReporting(w, id) && Due(parse, w, id) == Some(Add(e, timeout))
    && ((step.End? && step.ok) || (|w.jobs[id].stage.results| == 2 && !w.jobs[id].stage.results[0]))
  }

  ghost predicate Pushed(parse: Parser, worlds: seq<World>, steps: seq<Step>, from: nat, to: nat, id: nat, e: Element, timeout: nat)
    requires |worlds| == |steps| + 1 && to <= |steps|
  {
    exists t :: from < t < to && PushEnds(parse, worlds[t], steps[t], id, e, timeout)
  }

  /** The pushes of the first `n` names have ended, as far as they are addresses. */
  ghost predicate FirstPushed(parse: Parser, worlds: seq<World>, steps: seq<Step>, from: nat, to: nat, id: nat,
      names: seq<string>, n: nat, timeout: nat)
    requires |worlds| == |steps| + 1 && to <= |steps| && n <= |names|
  {
    forall k :: 0 <= k < n && parse(TrimSpace(names[k])).Some? ==>
      Pushed(parse, worlds, steps, from, to, id, parse(TrimSpace(names[k])).value, timeout)
  }

  /** Where a report of these names stands. */
  ghost predicate Underway(parse: Parser, worlds: seq<World>, steps: seq<Step>, from: nat, to: nat, id: nat, names: seq<string>, ttl: nat)
    requires |worlds| == |steps| + 1 && to <= |steps|
  {
    id in worlds[to].jobs &&
    match worlds[to].jobs[id].stage
    case Waiting => false
    case Finished => FirstPushed(parse, worlds, steps, from, to, id, names, |names|, Clamp(ttl))
    case Reporting(_, ips, t, _, results, _, _, _) =>
      t == ttl && 0 < |ips| <= |names| && ips == names[|names| - |ips|..] &&
      FirstPushed(parse, worlds, steps, from, to, id, names, |names| - |ips|, Clamp(ttl)) &&
      (Due(parse, worlds[to], id).None? ==>
         FirstPushed(parse, worlds, steps, from, to, id, names, |names| - |ips| + 1, Clamp(ttl)))
  }

  lemma StillPushed(parse: Parser, worlds: seq<World>, steps: seq<Step>, from: nat, to: nat, id: nat, names: seq<string>, n: nat, timeout: nat)
    requires |worlds| == |steps| + 1 && to < |steps| && n <= |names|
    requires FirstPushed(parse, worlds, steps, from, to, id, names, n, timeout)
    ensures FirstPushed(parse, worlds, steps, from, to + 1, id, names, n, timeout)
  {
    forall k | 0 <= k < n && parse(TrimSpace(names[k])).Some?
      ensures Pushed(parse, worlds, steps, from, to + 1, id, parse(TrimSpace(names[k])).value, timeout)
    {
      assert Pushed(parse, worlds, steps, from, to, id, parse(TrimSpace(names[k])).value, timeout);
    }
  }

  /** What a step does to a report that is under way: unless it ends a push, nothing of it is done
      that was not; and only an address that is done makes way for the next. */
  lemma ReportStep(parse: Parser, w: World, step: Step, id: nat)
    requires Enabled(parse, w, step) && IsReporting(w, id)
    ensures var w', s := Do(parse, w, step), w.jobs[id].stage;
            id in w'.jobs && var s' := w'.jobs[id].stage;
            if step == NextAddress(id) then
              && Due(parse, w, id).None?
              && if |s.ips| == 1 then s'.Finished?
                 else && s'.Reporting? && s'.ips == s.ips[1..] && s'.ttl == s.ttl
                      && (Due(parse, w', id).None? ==> parse(TrimSpace(s'.ips[0])).None?)
            else
              && s'.Reporting? && s'.ips == s.ips && s'.ttl == s.ttl
              && (Due(parse, w', id).None? && Due(parse, w, id).Some? ==>
                    exists e :: parse(TrimSpace(s.ips[0])) == Some(e) && PushEnds(parse, w, step, id, e, Clamp(s.ttl)))
  {
    var s := w.jobs[id].stage;
    if (step.End? || step.Cancelled?) && step.id == id {
      var e := parse(TrimSpace(s.ips[0])).value;
      if Due(parse, Do(parse, w, step), id).None? { assert PushEnds(parse, w, step, id, e, Clamp(s.ttl)); }
    }
  }

  lemma UnderwayStep(parse: Parser, worlds: seq<World>, steps: seq<Step>, from: nat, to: nat, id: nat, names: seq<string>, ttl: nat)
    requires Run(parse, worlds, steps) && from < to < |steps|
    requires Underway(parse, worlds, steps, from, to, id, names, ttl)
    ensures Underway(parse, worlds, steps, from, to + 1, id, names, ttl)
  {
    var w, step := worlds[to], steps[to];
    assert Enabled(parse, w, step) && worlds[to + 1] == Do(parse, w, step);
    if w.jobs[id].stage.Finished? {
      StillPushed(parse, worlds, steps, from, to, id, names, |names|, Clamp(ttl));
    } else {
      var s := w.jobs[id].stage;
      var n := |names| - |s.ips|;
      ReportStep(parse, w, step, id);
      StillPushed(parse, worlds, steps, from, to, id, names, n, Clamp(ttl));
      if Due(parse, w, id).None? { StillPushed(parse, worlds, steps, from, to, id, names, n + 1, Clamp(ttl)); }
      assert s.ips[0] == names[n] && s.ips[1..] == names[n + 1..];
    }
  }

  /** Over every run: when a report is finished, every address of the answer has been pushed, or tried
      again after a failure. No address is left out, whatever becomes of the others. */
  lemma EveryAddressPushed(parse: Parser, worlds: seq<World>, steps: seq<Step>, i: nat, j: nat, k: nat, e: Element)
    requires Run(parse, worlds, steps) && i < j < |worlds| && steps[i].Answer?
    requires Enabled(parse, worlds[i], steps[i]) && ReportsTo(worlds[i], worlds[i].jobs[steps[i].id], steps[i].upstream)
    requires steps[i].id in worlds[j].jobs && worlds[j].jobs[steps[i].id].stage.Finished?
    requires k < |Addresses(steps[i].upstream.value.answer)|
    requires parse(TrimSpace(Addresses(steps[i].upstream.value.answer)[k].0)) == Some(e)
    ensures Pushed(parse, worlds, steps, i, j, steps[i].id, e, Clamp(steps[i].ttl))
  {
    UnderwayAlways(parse, worlds, steps, i, j);
    var names := Names(Addresses(steps[i].upstream.value.answer));
    assert parse(TrimSpace(names[k])) == Some(e);
  }

  lemma UnderwayAtOnce(parse: Parser, worlds: seq<World>, steps: seq<Step>, i: nat, id: nat, names: seq<string>, ttl: nat)
    requires |worlds| == |steps| + 1 && i < |steps| && names != []
    requires IsReporting(worlds[i + 1], id)
    requires var s := worlds[i + 1].jobs[id].stage; s.ips == names && s.ttl == ttl && s.results == []
    ensures Underway(parse, worlds, steps, i, i + 1, id, names, ttl)
  {
    assert names[0..] == names;
  }

  lemma {:induction false} UnderwayAlways(parse: Parser, worlds: seq<World>, steps: seq<Step>, i: nat, j: nat)
    requires Run(parse, worlds, steps) && i < j < |worlds| && steps[i].Answer?
    requires Enabled(parse, worlds[i], steps[i]) && ReportsTo(worlds[i], worlds[i].jobs[steps[i].id], steps[i].upstream)
    ensures Underway(parse, worlds, steps, i, j, steps[i].id, Names(Addresses(steps[i].upstream.value.answer)), steps[i].ttl)
    decreases j
  {
    var names := Names(Addresses(steps[i].upstream.value.answer));
    if j == i + 1 {
      assert worlds[j] == Do(parse, worlds[i], steps[i]);
      UnderwayAtOnce(parse, worlds, steps, i, steps[i].id, names, steps[i].ttl);
    } else {
      UnderwayAlways(parse, worlds, steps, i, j - 1);
      UnderwayStep(parse, worlds, steps, i, j - 1, steps[i].id, names, steps[i].ttl);
    }
  }

  // ---------------------------------------------------------------- runs that show the limits

  ghost predicate Sample(parse: Parser, g: Generation, q: Question, m: Message, ttl: nat, e: Element) {
    && Derived(g) && ShouldReport(g.setup, [q], Some(m)) && IsMinTTL(Addresses(m.answer), ttl)
    && parse(TrimSpace(Names(Addresses(m.answer))[0])) == Some(e)
  }

  /** A run may always take one more step. */
  lemma RunOn(parse: Parser, worlds: seq<World>, steps: seq<Step>, step: Step) returns (more: seq<World>, done: seq<Step>)
    requires Run(parse, worlds, steps) && Enabled(parse, worlds[|worlds| - 1], step)
    ensures Run(parse, more, done) && more[|more| - 1] == Do(parse, worlds[|worlds| - 1], step)
    ensures worlds <= more && done == steps + [step]
  {
    var last := worlds[|worlds| - 1];
    more, done := worlds + [Do(parse, last, step)], steps + [step];
    forall k | 0 <= k < |done| ensures Enabled(parse, more[k], done[k]) && more[k + 1] == Do(parse, more[k], done[k]) {
      if k < |steps| { assert more[k] == worlds[k] && more[k + 1] == worlds[k + 1] && done[k] == steps[k]; }
    }
  }

  function SampleJob(q: Question, m: Message, ttl: nat, running: Option<Time>): Job {
    Job(0, q, Reporting(m, Names(Addresses(m.answer)), ttl, 0.0, [], running, 0.0, 0.0))
  }

  /** A run up to the point where the sample answer has been reported. */
  lemma ReportedRun(parse: Parser, g: Generation, q: Question, m: Message, ttl: nat, e: Element)
    returns (worlds: seq<World>, steps: seq<Step>)
    requires Sample(parse, g, q, m, ttl, e)
    ensures Run(parse, worlds, steps)
    ensures worlds[|worlds| - 1] == World(0.0, [g], 0, map[], map[0 := SampleJob(q, m, ttl, None)])
  {
    worlds, steps := [World(0.0, [g], 0, map[], map[])], [];
    assert Run(parse, worlds, steps);
    worlds, steps := RunOn(parse, worlds, steps, Query(0, q));
    assert worlds[|worlds| - 1] == World(0.0, [g], 0, map[], map[0 := Job(0, q, Waiting)]);
    worlds, steps := RunOn(parse, worlds, steps, Answer(0, Some(m), ttl));
  }

  /** From a world in which the sample's first command can be started or is running. */
  lemma PushNow(parse: Parser, w: World, q: Question, m: Message, ttl: nat, e: Element)
    requires w.gens != [] && w.set_ == map[] && Strict(Rules(w)) && w.jobs == map[0 := SampleJob(q, m, ttl, Some(0.0))]
    requires w.now <= NFT_TIMEOUT
    requires Addresses(m.answer) != [] && parse(TrimSpace(Names(Addresses(m.answer))[0])) == Some(e)
    ensures Enabled(parse, w, End(0, true, true))
    ensures var w' := Do(parse, w, End(0, true, true));
            && w'.now == w.now && w'.gens == w.gens && e in w'.set_
            && w'.set_[e].added == w.now && w'.set_[e].timeout == Clamp(ttl)
            && w'.set_[e].origin.gen == 0 && w'.set_[e].origin.reported == 0.0
  {
  }

  /** The timeout counts from the push and not from the report: an address can be reachable
      although the clamped TTL has run out since the handler reported it. */
  lemma ReportTimeTooEarly(parse: Parser, g: Generation, q: Question, m: Message, ttl: nat, e: Element)
    requires Sample(parse, g, q, m, ttl, e)
    ensures exists worlds: seq<World>, steps: seq<Step> :: Run(parse, worlds, steps) &&
              var w := worlds[|worlds| - 1];
              Live(w.set_, e, w.now) && w.set_[e].origin.reported + Clamp(ttl) as real <= w.now
  {
    var worlds, steps := ReportedRun(parse, g, q, m, ttl, e);
    assert Due(parse, worlds[|worlds| - 1], 0) == Some(Add(e, Clamp(ttl)));
    worlds, steps := RunOn(parse, worlds, steps, Begin(0));
    worlds, steps := RunOn(parse, worlds, steps, Tick(1.0));
    var w := worlds[|worlds| - 1];
    assert w == World(1.0, [g], 0, map[], map[0 := SampleJob(q, m, ttl, Some(0.0))]);
    PushNow(parse, w, q, m, ttl, e);
    worlds, steps := RunOn(parse, worlds, steps, End(0, true, true));
    worlds, steps := RunOn(parse, worlds, steps, Tick(Clamp(ttl) as real - 0.5));
  }

  /** A handler that has reported the sample pushes its address into the set of the policy in the kernel. */
  lemma PushedRun(parse: Parser, worlds: seq<World>, steps: seq<Step>,
      g: Generation, g': Generation, q: Question, m: Message, ttl: nat, e: Element)
    returns (more: seq<World>, done: seq<Step>)
    requires Sample(parse, g, q, m, ttl, e) && Strict(g'.rules)
    requires Run(parse, worlds, steps)
    requires worlds[|worlds| - 1] == World(0.0, [g, g'], 0, map[], map[0 := SampleJob(q, m, ttl, None)])
    ensures Run(parse, more, done) && worlds <= more && steps <= done
    ensures var w := more[|more| - 1]; w.gens == [g, g'] && Live(w.set_, e, w.now) && w.set_[e].origin.gen == 0
  {
    assert Due(parse, worlds[|worlds| - 1], 0) == Some(Add(e, Clamp(ttl)));
    more, done := RunOn(parse, worlds, steps, Begin(0));
    var w := more[|more| - 1];
    assert w == World(0.0, [g, g'], 0, map[], map[0 := SampleJob(q, m, ttl, Some(0.0))]);
    PushNow(parse, w, q, m, ttl, e);
    more, done := RunOn(parse, more, done, End(0, true, true));
  }

  /** Between a reload and the restart of the handlers, a handler of the old policy can push an
      address into the new policy's set, whether or not the new policy permits the name. */
  lemma StalePushHappens(parse: Parser, g: Generation, g': Generation, q: Question, m: Message, ttl: nat, e: Element)
    requires Sample(parse, g, q, m, ttl, e) && Derived(g') && Strict(g'.rules)
    ensures exists worlds: seq<World>, steps: seq<Step> :: Run(parse, worlds, steps) &&
              var w := worlds[|worlds| - 1];
              w.gens == [g, g'] && Live(w.set_, e, w.now) && w.set_[e].origin.gen == 0
  {
    var worlds, steps := ReportedRun(parse, g, q, m, ttl, e);
    worlds, steps := RunOn(parse, worlds, steps, Reload(g'));
    worlds, steps := PushedRun(parse, worlds, steps, g, g', q, m, ttl, e);
  }

  /** A run in which the sample query only arrives after a reload, up to the report of its answer. */
  lemma LateRun(parse: Parser, g: Generation, g': Generation, q: Question, m: Message, ttl: nat, e: Element)
    returns (worlds: seq<World>, steps: seq<Step>)
    requires Sample(parse, g, q, m, ttl, e) && Derived(g')
    ensures Run(parse, worlds, steps)
    ensures |steps| == 3 && steps[1] == Query(0, q) && worlds[1].gens == [g, g']
    ensures worlds[3] == World(0.0, [g, g'], 0, map[], map[0 := SampleJob(q, m, ttl, None)])
  {
    var worlds0, steps0 := [World(0.0, [g], 0, map[], map[])], [];
    assert Run(parse, worlds0, steps0);
    var worlds1, steps1 := RunOn(parse, worlds0, steps0, Reload(g'));
    assert worlds1[|worlds1| - 1] == World(0.0, [g, g'], 0, map[], map[]);
    var worlds2, steps2 := RunOn(parse, worlds1, steps1, Query(0, q));
    assert worlds2[|worlds2| - 1] == World(0.0, [g, g'], 0, map[], map[0 := Job(0, q, Waiting)]);
    worlds, steps := RunOn(parse, worlds2, steps2, Answer(0, Some(m), ttl));
    assert steps2[1] == Query(0, q) && worlds1[1] == worlds2[1] == worlds[1];
  }

  /** So can a query that only arrives after the reload: until the restart, handlers of the old policy
      judge it. */
  lemma LateQueryPushesStale(parse: Parser, g: Generation, g': Generation, q: Question, m: Message, ttl: nat, e: Element)
    requires Sample(parse, g, q, m, ttl, e) && Derived(g') && Strict(g'.rules)
    ensures exists worlds: seq<World>, steps: seq<Step>, k: nat :: Run(parse, worlds, steps) && k < |steps| &&
              steps[k] == Query(0, q) && worlds[k].gens == [g, g'] &&
              var w := worlds[|worlds| - 1];
              w.gens == [g, g'] && Live(w.set_, e, w.now) && w.set_[e].origin.gen == 0
  {
    var early, first := LateRun(parse, g, g', q, m, ttl, e);
    var worlds, steps := PushedRun(parse, early, first, g, g', q, m, ttl, e);
    assert steps[1] == first[1] && worlds[1] == early[1];
  }
}

/** Remote unblocking as a protocol: any number of instances poll one dashboard, polls and
    acknowledgements may be lost, delayed or delivered more than once, both ends may crash, and
    writes to a policy file may fail and leave anything in it. IDs are drawn fresh, and each
    instance is the only writer of its own policy file. */
module UnblockProtocol {
  import opened GoStrings
  import opened Streams
  import opened Unblock

  datatype Ack = Ack(host: string, id: string)

  /** An instance: its policy file and what is left of the batch it is working through. */
  datatype Instance = Instance(file: File, batch: seq<Request>)

  type Instances = map<string, Instance>

  /** `issued` and `acks` are the history: every request ever accepted under its ID, and every
      acknowledgement that found its request pending, in order. `since` counts those from
      before the dashboard's last restart. `sent` are the acknowledgements ever put on the wire. */
  datatype World = World(
    store: Store,
    instances: Instances,
    sent: set<Ack>,
    issued: map<string, Request>,
    acks: seq<Ack>,
    since: nat)

  datatype Step =
    | Create(kind: string, value: string, target: string, drawn: string, id: string)
    | Poll(host: string, batch: seq<Request>)
    | Work(host: string, disk: Disk)
    | Deliver(ack: Ack)
    | Crash(host: string)
    | Restart

  /** What listUnblocksHandler returns, in any order: without a host name, everything. */
  ghost predicate Response(s: Store, host: string, batch: seq<Request>) {
    if TrimSpace(host) == "" then
      && (forall id :: id in s.requests ==> s.requests[id] in batch)
      && (forall i :: 0 <= i < |batch| ==> batch[i].id in s.requests && batch[i] == s.requests[batch[i].id])
      && (forall i, j :: 0 <= i < j < |batch| ==> batch[i].id != batch[j].id)
    else Selects(s.requests, s.requests.Keys, host, batch)
  }

  ghost predicate Next(rules: Rules, w: World, step: Step, w': World) {
    match step
    case Create(kind, value, target, drawn, id) =>
      && drawn != "" && drawn !in w.issued && Adds(w.store, kind, value, target, drawn, w'.store, id)
      && w' == w.(store := w'.store, issued := if id == drawn then w.issued[id := Request(id, kind, value, HostName(target))] else w.issued)
    case Poll(host, batch) =>
      && host in w.instances && Response(w.store, host, batch)
      && w' == w.(instances := w.instances[host := w.instances[host].(batch := batch)])
    case Work(host, disk) =>
      && host in w.instances && w.instances[host].batch != []
      && w' == Worked(rules, w, host, disk)
    case Deliver(ack) =>
      && ack in w.sent
      && w' == w.(store := Acked(w.store, ack.id), acks := if ack.id in w.store.requests then w.acks + [ack] else w.acks)
    case Crash(host) =>
      && host in w.instances
      && w' == w.(instances := w.instances[host := w.instances[host].(batch := [])])
    case Restart => w' == w.(store := Store(map[], []), since := |w.acks|)
  }

  /** One turn of processUnblockBatch. A crash in the middle of a write is a torn write followed
      by a crash. */
  function Worked(rules: Rules, w: World, host: string, disk: Disk): World
    requires host in w.instances && w.instances[host].batch != []
  {
    var inst := w.instances[host];
    var (file, ok) := Apply(rules, inst.file, inst.batch[0], disk);
    w.(instances := w.instances[host := Instance(file, inst.batch[1..])],
       sent := if ok then w.sent + {Ack(host, inst.batch[0].id)} else w.sent)
  }

  ghost predicate Start(w: World) {
    && w.store == Store(map[], []) && w.sent == {} && w.issued == map[] && w.acks == [] && w.since == 0
    && forall h :: h in w.instances ==> w.instances[h].batch == []
  }

  ghost predicate Follows(rules: Rules, worlds: seq<World>, steps: seq<Step>, k: nat)
    requires |worlds| == |steps| + 1 && k < |steps|
  {
    Next(rules, worlds[k], steps[k], worlds[k + 1])
  }

  ghost predicate Run(rules: Rules, worlds: seq<World>, steps: seq<Step>) {
    && |worlds| == |steps| + 1 && Start(worlds[0])
    && forall k :: 0 <= k < |steps| ==> Follows(rules, worlds, steps, k)
  }

  // ---------------------------------------------------------------- what always holds

  ghost function Record(issued: map<string, Request>, a: Ack): Completed {
    if a.id in issued then var r := issued[a.id]; Completed(r.kind, r.value, r.target) else Completed("", "", "")
  }

  ghost function Records(issued: map<string, Request>, acks: seq<Ack>): seq<Completed> {
    if acks == [] then [] else Records(issued, acks[..|acks| - 1]) + [Record(issued, acks[|acks| - 1])]
  }

  ghost predicate Known(issued: map<string, Request>, r: Request) { r.id in issued && issued[r.id] == r }

  ghost predicate StoreInv(s: Store, issued: map<string, Request>, acks: seq<Ack>, since: nat) {
    && Wellformed(s)
    && (forall id :: id in s.requests ==> Known(issued, s.requests[id]))
    && since <= |acks| && s.completed == LastHundred(Records(issued, acks[since..]))
  }

  ghost predicate AcksInv(acks: seq<Ack>, sent: set<Ack>, s: Store) {
    && (forall i :: 0 <= i < |acks| ==> acks[i] in sent && acks[i].id !in s.requests)
    && (forall i, j :: 0 <= i < j < |acks| ==> acks[i].id != acks[j].id)
  }

  ghost predicate SentInv(sent: set<Ack>, issued: map<string, Request>, instances: Instances) {
    forall a :: a in sent ==> a.id in issued && a.host in instances
  }

  ghost predicate KnownBatch(issued: map<string, Request>, batch: seq<Request>) {
    forall i :: 0 <= i < |batch| ==> Known(issued, batch[i])
  }

  ghost predicate BatchesInv(instances: Instances, issued: map<string, Request>) {
    forall h :: h in instances ==> KnownBatch(issued, instances[h].batch)
  }

  ghost predicate Inv(w: World) {
    && StoreInv(w.store, w.issued, w.acks, w.since) && AcksInv(w.acks, w.sent, w.store)
    && SentInv(w.sent, w.issued, w.instances) && BatchesInv(w.instances, w.issued)
  }

  // ---------------------------------------------------------------- preservation

  lemma {:induction false} RecordsOfKnown(a: map<string, Request>, b: map<string, Request>, acks: seq<Ack>)
    requires forall i :: 0 <= i < |acks| ==> acks[i].id in a && acks[i].id in b && a[acks[i].id] == b[acks[i].id]
    ensures Records(a, acks) == Records(b, acks)
  {
    if acks != [] { RecordsOfKnown(a, b, acks[..|acks| - 1]); }
  }

  lemma {:induction false} CreateKeeps(rules: Rules, w: World, step: Step, w': World)
    requires Inv(w) && step.Create? && Next(rules, w, step, w')
    ensures Inv(w')
  {
    var target := HostName(step.target);
    if Duplicate(w.store, step.kind, step.value, target) {
      assert Known(w.issued, w.store.requests[step.id]);
    } else if |w.store.requests| < MAX_PENDING {
      var r := Request(step.id, step.kind, step.value, target);
      forall i | 0 <= i < |w.acks| ensures w.acks[i].id in w.issued { assert w.acks[i] in w.sent; }
      IssueKeepsStore(w.store, w.issued, w.acks, w.since, r);
      IssueKeepsBatches(w.instances, w.issued, r);
    }
  }

  lemma IssueKeepsStore(s: Store, issued: map<string, Request>, acks: seq<Ack>, since: nat, r: Request)
    requires StoreInv(s, issued, acks, since) && r.id !in issued && |s.requests| < MAX_PENDING
    requires !Duplicate(s, r.kind, r.value, r.target)
    requires forall i :: 0 <= i < |acks| ==> acks[i].id in issued
    ensures StoreInv(s.(requests := s.requests[r.id := r]), issued[r.id := r], acks, since)
  {
    SizeAfterAdd(s.requests, r.id, r);
    RecordsOfKnown(issued, issued[r.id := r], acks[since..]);
    assert forall id :: id in s.requests ==> !Asks(s.requests[id], r.kind, r.value, r.target);
  }

  lemma IssueKeepsBatches(instances: Instances, issued: map<string, Request>, r: Request)
    requires BatchesInv(instances, issued) && r.id !in issued
    ensures BatchesInv(instances, issued[r.id := r])
  {
    forall h | h in instances ensures KnownBatch(issued[r.id := r], instances[h].batch) {
      assert KnownBatch(issued, instances[h].batch);
    }
  }

  lemma PollKeeps(rules: Rules, w: World, step: Step, w': World)
    requires Inv(w) && step.Poll? && Next(rules, w, step, w')
    ensures Inv(w')
  {
    ResponseKnown(w.store, w.issued, w.acks, w.since, step.host, step.batch);
  }

  lemma ResponseKnown(s: Store, issued: map<string, Request>, acks: seq<Ack>, since: nat, host: string, batch: seq<Request>)
    requires StoreInv(s, issued, acks, since) && Response(s, host, batch)
    ensures KnownBatch(issued, batch)
  {
    forall i | 0 <= i < |batch| ensures Known(issued, batch[i]) { assert Known(issued, s.requests[batch[i].id]); }
  }

  lemma CrashKeeps(rules: Rules, w: World, step: Step, w': World)
    requires Inv(w) && step.Crash? && Next(rules, w, step, w')
    ensures Inv(w')
  {
  }

  lemma RestartKeeps(rules: Rules, w: World, step: Step, w': World)
    requires Inv(w) && step.Restart? && Next(rules, w, step, w')
    ensures Inv(w')
  {
    assert w.acks[|w.acks|..] == [];
  }

  lemma {:induction false} DeliverKeeps(rules: Rules, w: World, step: Step, w': World)
    requires Inv(w) && step.Deliver? && Next(rules, w, step, w')
    ensures Inv(w')
  {
    if step.ack.id in w.store.requests {
      AckKeepsStore(w.store, w.issued, w.acks, w.since, step.ack);
      AckKeepsAcks(w.acks, w.sent, w.store, step.ack);
    }
  }

  lemma AckKeepsAcks(acks: seq<Ack>, sent: set<Ack>, s: Store, ack: Ack)
    requires AcksInv(acks, sent, s) && ack in sent && ack.id in s.requests
    ensures AcksInv(acks + [ack], sent, Acked(s, ack.id))
  {
  }

  lemma AckKeepsStore(s: Store, issued: map<string, Request>, acks: seq<Ack>, since: nat, ack: Ack)
    requires StoreInv(s, issued, acks, since) && ack.id in s.requests
    ensures StoreInv(Acked(s, ack.id), issued, acks + [ack], since)
  {
    SizeAfterRemove(s.requests, ack.id);
    assert Known(issued, s.requests[ack.id]);
    var before, after := acks[since..], (acks + [ack])[since..];
    assert after == before + [ack] && after[..|after| - 1] == before;
    LastHundredAgain(Records(issued, before), Record(issued, ack));
  }

  lemma LastHundredAgain(c: seq<Completed>, d: Completed)
    ensures LastHundred(LastHundred(c) + [d]) == LastHundred(c + [d])
  {
  }

  lemma {:induction false} WorkKeeps(rules: Rules, w: World, step: Step, w': World)
    requires Inv(w) && step.Work? && Next(rules, w, step, w')
    ensures Inv(w')
  {
    var inst := w.instances[step.host];
    assert KnownBatch(w.issued, inst.batch) && Known(w.issued, inst.batch[0]);
    assert KnownBatch(w.issued, inst.batch[1..]);
    MoreSent(w.acks, w.sent, w.store, Ack(step.host, inst.batch[0].id));
  }

  lemma MoreSent(acks: seq<Ack>, sent: set<Ack>, s: Store, ack: Ack)
    requires AcksInv(acks, sent, s)
    ensures AcksInv(acks, sent + {ack}, s)
  {
  }

  lemma {:induction false} InvStep(rules: Rules, w: World, step: Step, w': World)
    requires Inv(w) && Next(rules, w, step, w')
    ensures Inv(w')
  {
    match step
    case Create(_, _, _, _, _) => CreateKeeps(rules, w, step, w');
    case Poll(_, _) => PollKeeps(rules, w, step, w');
    case Work(_, _) => WorkKeeps(rules, w, step, w');
    case Deliver(_) => DeliverKeeps(rules, w, step, w');
    case Crash(_) => CrashKeeps(rules, w, step, w');
    case Restart => RestartKeeps(rules, w, step, w');
  }

  lemma {:induction false} InvAlways(rules: Rules, worlds: seq<World>, steps: seq<Step>, k: nat)
    requires Run(rules, worlds, steps) && k < |worlds|
    ensures Inv(worlds[k])
  {
    if k > 0 {
      InvAlways(rules, worlds, steps, k - 1);
      assert Follows(rules, worlds, steps, k - 1);
      InvStep(rules, worlds[k - 1], steps[k - 1], worlds[k]);
    }
  }

  // ---------------------------------------------------------------- the policy files

  /** The configuration has grown by entries that repeat neither what was there nor each other, in
      its allowlist and nowhere else. */
  ghost predicate Grown(c0: Config, c: Config) {
    && c.defaultAction == c0.defaultAction && c.deny == c0.deny
    && c0.allow.ips <= c.allow.ips && c0.allow.domains <= c.allow.domains
    && (forall i, j :: 0 <= i < j < |c.allow.ips| && |c0.allow.ips| <= j ==> c.allow.ips[i] != c.allow.ips[j])
    && (forall i, j :: 0 <= i < j < |c.allow.domains| && |c0.allow.domains| <= j ==>
          !EqualFold(c.allow.domains[i], c.allow.domains[j]))
  }

  /** A file that cannot be loaded stays as it is. */
  ghost predicate FileGrown(f0: File, f: File) {
    match f0
    case Parsed(c0) => f.Parsed? && Grown(c0, f.config)
    case Broken => f == Broken
  }

  /** Applying the request would get as far as writing the file. */
  predicate Writes(rules: Rules, f: File, r: Request) {
    && KindOf(r.kind).Some? && Acceptable(rules, KindOf(r.kind).value, r.value)
    && f.Parsed? && !Includes(f.config.allow, KindOf(r.kind).value, TrimSpace(r.value))
  }

  /** The step writes the host's file, and the write is torn. */
  ghost predicate TornAt(rules: Rules, w: World, step: Step, host: string) {
    && step.Work? && step.host == host && step.disk.readable && step.disk.write.Torn?
    && host in w.instances && w.instances[host].batch != []
    && Writes(rules, w.instances[host].file, w.instances[host].batch[0])
  }

  ghost predicate Whole(rules: Rules, worlds: seq<World>, steps: seq<Step>, j: nat, k: nat, host: string)
    requires |worlds| == |steps| + 1 && j <= k <= |steps|
  {
    forall i :: j <= i < k ==> !TornAt(rules, worlds[i], steps[i], host)
  }

  /** Applying a request, unless it tears the file, makes it grow. */
  lemma ApplyGrows(rules: Rules, f0: File, f: File, r: Request, disk: Disk)
    requires FileGrown(f0, f)
    requires !(disk.readable && disk.write.Torn? && Writes(rules, f, r))
    ensures FileGrown(f0, Apply(rules, f, r, disk).0)
  {
    if Apply(rules, f, r, disk).1 { AppendKeeps(rules, f, KindOf(r.kind).value, r.value, disk, disk); }
  }

  lemma StepGrows(rules: Rules, w: World, step: Step, w': World, host: string, f0: File)
    requires Next(rules, w, step, w') && host in w.instances && FileGrown(f0, w.instances[host].file)
    requires !TornAt(rules, w, step, host)
    ensures host in w'.instances && FileGrown(f0, w'.instances[host].file)
  {
    if step.Work? && step.host == host {
      ApplyGrows(rules, f0, w.instances[host].file, w.instances[host].batch[0], step.disk);
    }
  }

  /** Over any stretch of any run without a torn write on a host, however often requests are
      repeated, retried or applied again, the host's file gains no entry twice and loses none,
      and its denylist and default action stay as they were. */
  lemma {:induction false} RetriesAddNothing(rules: Rules, worlds: seq<World>, steps: seq<Step>, j: nat, k: nat, host: string)
    requires Run(rules, worlds, steps) && j <= k < |worlds| && host in worlds[j].instances
    requires Whole(rules, worlds, steps, j, k, host)
    ensures host in worlds[k].instances && FileGrown(worlds[j].instances[host].file, worlds[k].instances[host].file)
    decreases k
  {
    if j < k {
      RetriesAddNothing(rules, worlds, steps, j, k - 1, host);
      assert Follows(rules, worlds, steps, k - 1);
      StepGrows(rules, worlds[k - 1], steps[k - 1], worlds[k], host, worlds[j].instances[host].file);
    }
  }

  lemma GrownKeepsEffect(f0: File, f: File, r: Request)
    requires FileGrown(f0, f) && InEffect(f0, r)
    ensures InEffect(f, r)
  {
    StaysListed(f0.config.allow, f.config.allow, KindOf(r.kind).value, TrimSpace(r.value));
  }

  lemma StaysListed(a: Lists, b: Lists, k: Kind, value: string)
    requires a.ips <= b.ips && a.domains <= b.domains && Includes(a, k, value)
    ensures Includes(b, k, value)
  {
    match k
    case Domain =>
      var i :| 0 <= i < |a.domains| && EqualFold(a.domains[i], value);
      assert b.domains[i] == a.domains[i];
    case IP =>
  }

  /** The step applies the request that the acknowledgement is about, and puts it on the wire. */
  ghost predicate AppliedAt(rules: Rules, w: World, step: Step, a: Ack) {
    && step.Work? && step.host == a.host && a.host in w.instances && w.instances[a.host].batch != []
    && w.instances[a.host].batch[0].id == a.id
    && Apply(rules, w.instances[a.host].file, w.instances[a.host].batch[0], step.disk).1
  }

  /** Acknowledgements are only sent by applying. */
  lemma {:induction false} SentWasApplied(rules: Rules, worlds: seq<World>, steps: seq<Step>, k: nat, a: Ack) returns (j: nat)
    requires Run(rules, worlds, steps) && k < |worlds| && a in worlds[k].sent
    ensures j < k && AppliedAt(rules, worlds[j], steps[j], a)
    decreases k
  {
    assert Follows(rules, worlds, steps, k - 1);
    if a in worlds[k - 1].sent {
      j := SentWasApplied(rules, worlds, steps, k - 1, a);
    } else {
      j := k - 1;
    }
  }

  lemma {:induction false} IssuedStays(rules: Rules, worlds: seq<World>, steps: seq<Step>, j: nat, k: nat, id: string)
    requires Run(rules, worlds, steps) && j <= k < |worlds| && id in worlds[j].issued
    ensures id in worlds[k].issued && worlds[k].issued[id] == worlds[j].issued[id]
    decreases k
  {
    if j < k {
      IssuedStays(rules, worlds, steps, j, k - 1, id);
      assert Follows(rules, worlds, steps, k - 1);
    }
  }

  /** What was applied is in effect for as long as no write of that instance is torn. */
  lemma AppliedStaysInEffect(rules: Rules, worlds: seq<World>, steps: seq<Step>, j: nat, k: nat, a: Ack)
    requires Run(rules, worlds, steps) && j < k < |worlds| && AppliedAt(rules, worlds[j], steps[j], a)
    requires Whole(rules, worlds, steps, j + 1, k, a.host)
    ensures a.host in worlds[k].instances && a.id in worlds[k].issued
    ensures InEffect(worlds[k].instances[a.host].file, worlds[k].issued[a.id])
  {
    InvAlways(rules, worlds, steps, j);
    assert Follows(rules, worlds, steps, j);
    var inst := worlds[j].instances[a.host];
    var r := inst.batch[0];
    assert KnownBatch(worlds[j].issued, inst.batch) && Known(worlds[j].issued, r);
    IssuedStays(rules, worlds, steps, j, k, a.id);
    AppendKeeps(rules, inst.file, KindOf(r.kind).value, r.value, steps[j].disk, steps[j].disk);
    assert InEffect(worlds[j + 1].instances[a.host].file, r);
    RetriesAddNothing(rules, worlds, steps, j + 1, k, a.host);
    GrownKeepsEffect(worlds[j + 1].instances[a.host].file, worlds[k].instances[a.host].file, r);
  }

  /** In every reachable state, for every acknowledgement that was accepted: its instance applied
      the request before, at some step `j`, and unless a write of that instance was torn after
      that, the request is in effect in its allowlist. */
  lemma AcknowledgedIsApplied(rules: Rules, worlds: seq<World>, steps: seq<Step>, k: nat, i: nat) returns (j: nat)
    requires Run(rules, worlds, steps) && k < |worlds| && i < |worlds[k].acks|
    ensures var a := worlds[k].acks[i];
            && j < k && AppliedAt(rules, worlds[j], steps[j], a)
            && (Whole(rules, worlds, steps, j + 1, k, a.host) ==>
                  && a.host in worlds[k].instances && a.id in worlds[k].issued
                  && InEffect(worlds[k].instances[a.host].file, worlds[k].issued[a.id]))
  {
    var a := worlds[k].acks[i];
    InvAlways(rules, worlds, steps, k);
    j := SentWasApplied(rules, worlds, steps, k, a);
    if Whole(rules, worlds, steps, j + 1, k, a.host) { AppliedStaysInEffect(rules, worlds, steps, j, k, a); }
  }

  /** That condition is exact, request by request: applying one can cost another its effect, on
      some disk, if and only if applying it writes the file. */
  lemma LossExactly(rules: Rules, f: File, r: Request, kept: Request)
    requires InEffect(f, kept)
    ensures (exists disk: Disk :: !InEffect(Apply(rules, f, r, disk).0, kept)) <==> Writes(rules, f, r)
  {
    if Writes(rules, f, r) {
      var torn := Disk(true, Torn(Broken));
      assert !InEffect(Apply(rules, f, r, torn).0, kept);
    } else {
      forall disk: Disk ensures InEffect(Apply(rules, f, r, disk).0, kept) {
        ApplyGrows(rules, f, f, r, disk);
        GrownKeepsEffect(f, Apply(rules, f, r, disk).0, kept);
      }
    }
  }

  /** In every reachable state no ID has been acknowledged twice, the completed list shows the last
      hundred acknowledgements since the dashboard started, in order, and no two pending
      requests ask the same, nor are there more than a thousand. */
  lemma AcknowledgedOnce(rules: Rules, worlds: seq<World>, steps: seq<Step>, k: nat)
    requires Run(rules, worlds, steps) && k < |worlds|
    ensures var w := worlds[k];
            && (forall i, j :: 0 <= i < j < |w.acks| ==> w.acks[i].id != w.acks[j].id)
            && w.since <= |w.acks|
            && (var all := Records(w.issued, w.acks[w.since..]);
                w.store.completed == if |all| > 100 then all[|all| - 100..] else all)
            && |w.store.requests| <= 1000
            && forall a, b :: a in w.store.requests && b in w.store.requests && a != b ==>
                 var x, y := w.store.requests[a], w.store.requests[b];
                 x.kind != y.kind || x.value != y.value || x.target != y.target
  {
    InvAlways(rules, worlds, steps, k);
  }

  // ---------------------------------------------------------------- how a request gets through

  /** A poll brings the requests for this host, up to letter case and surrounding blanks, and those for
      all hosts, each once; a poll without a host name brings everything. */
  lemma PollBringsExactly(rules: Rules, w: World, step: Step, w': World, id: string)
    requires Inv(w) && step.Poll? && Next(rules, w, step, w') && id in w.store.requests
    ensures var r, name := w.store.requests[id], ToLower(TrimSpace(step.host));
            r in w'.instances[step.host].batch <==> TrimSpace(step.host) == "" || r.target == "" || r.target == name
    ensures forall i, j :: 0 <= i < j < |w'.instances[step.host].batch| ==>
              w'.instances[step.host].batch[i].id != w'.instances[step.host].batch[j].id
  {
    assert Known(w.issued, w.store.requests[id]);
  }

  /** The acknowledgements among the effects of a batch. */
  ghost function AcksOf(host: string, effects: seq<Effect>): set<Ack> {
    set i | 0 <= i < |effects| && effects[i].Confirmed? :: Ack(host, effects[i].id)
  }

  lemma AcksOfMore(host: string, a: seq<Effect>, b: seq<Effect>)
    ensures AcksOf(host, a + b) == AcksOf(host, a) + AcksOf(host, b)
  {
    forall x | x in AcksOf(host, b) ensures x in AcksOf(host, a + b) {
      var i :| 0 <= i < |b| && b[i].Confirmed? && x == Ack(host, b[i].id);
      assert (a + b)[|a| + i] == b[i];
    }
    forall x | x in AcksOf(host, a) ensures x in AcksOf(host, a + b) {
      var i :| 0 <= i < |a| && a[i].Confirmed? && x == Ack(host, a[i].id);
      assert (a + b)[i] == a[i];
    }
  }

  /** The host has worked off the first `i` requests of its batch. */
  ghost function WorkedOff(rules: Rules, w: World, host: string, disks: seq<Disk>, i: nat): World
    requires host in w.instances && |disks| == |w.instances[host].batch| && i <= |disks|
  {
    var inst := w.instances[host];
    var (file, effects) := Batch(rules, inst.file, inst.batch[..i], disks[..i]);
    w.(instances := w.instances[host := Instance(file, inst.batch[i..])], sent := w.sent + AcksOf(host, effects))
  }

  lemma WorkOne(rules: Rules, w: World, host: string, disks: seq<Disk>, i: nat)
    requires host in w.instances && |disks| == |w.instances[host].batch| && i < |disks|
    ensures Next(rules, WorkedOff(rules, w, host, disks, i), Work(host, disks[i]), WorkedOff(rules, w, host, disks, i + 1))
  {
    var inst := w.instances[host];
    var before, after := WorkedOff(rules, w, host, disks, i), WorkedOff(rules, w, host, disks, i + 1);
    var front := Batch(rules, inst.file, inst.batch[..i], disks[..i]);
    var turn := Turn(rules, front.0, inst.batch[i], disks[i]);
    BatchStep(rules, inst.file, inst.batch, disks, i);
    AcksOfMore(host, front.1, turn.1);
    assert inst.batch[i..][0] == inst.batch[i] && inst.batch[i..][1..] == inst.batch[i + 1..];
    TurnSends(rules, host, front.0, inst.batch[i], disks[i]);
    assert after.instances == before.instances[host := Instance(turn.0, inst.batch[i + 1..])];
    assert after.sent == before.sent + AcksOf(host, turn.1);
  }

  lemma TurnSends(rules: Rules, host: string, f: File, r: Request, disk: Disk)
    ensures AcksOf(host, Turn(rules, f, r, disk).1) == if Apply(rules, f, r, disk).1 then {Ack(host, r.id)} else {}
  {
    var effects := Turn(rules, f, r, disk).1;
    if Apply(rules, f, r, disk).1 {
      assert effects[1] == Confirmed(r.id) && !effects[0].Confirmed?;
    } else {
      assert |effects| == 1 && !effects[0].Confirmed?;
    }
  }

  /** processUnblockBatch is as many steps of work as the batch has requests: they end with an empty
      batch, the file that it leaves and the acknowledgements that it sends. */
  lemma BatchIsWork(rules: Rules, w: World, host: string, disks: seq<Disk>) returns (worlds: seq<World>)
    requires host in w.instances && |disks| == |w.instances[host].batch|
    ensures |worlds| == |disks| + 1 && worlds[0] == w
    ensures forall k :: 0 <= k < |disks| ==> Next(rules, worlds[k], Work(host, disks[k]), worlds[k + 1])
    ensures var (file, effects) := Batch(rules, w.instances[host].file, w.instances[host].batch, disks);
            worlds[|disks|] == w.(instances := w.instances[host := Instance(file, [])], sent := w.sent + AcksOf(host, effects))
  {
    worlds := seq(|disks| + 1, i requires 0 <= i <= |disks| => WorkedOff(rules, w, host, disks, i));
    forall k | 0 <= k < |disks| ensures Next(rules, worlds[k], Work(host, disks[k]), worlds[k + 1]) {
      WorkOne(rules, w, host, disks, k);
    }
    var inst := w.instances[host];
    assert inst.batch[..0] == [] && disks[..0] == [] && inst.batch[0..] == inst.batch;
    assert w.instances[host := Instance(inst.file, inst.batch)] == w.instances;
    assert inst.batch[..|disks|] == inst.batch && disks[..|disks|] == disks && inst.batch[|disks|..] == [];
  }

  // ---------------------------------------------------------------- what a restart loses

  ghost predicate InBatch(batch: seq<Request>, id: string) { exists i :: 0 <= i < |batch| && batch[i].id == id }

  /** No instance knows the request: it is in no batch, and no acknowledgement for it was sent. */
  ghost predicate Unfetched(w: World, id: string) {
    && (forall h :: h in w.instances ==> !InBatch(w.instances[h].batch, id))
    && (forall a :: a in w.sent ==> a.id != id)
  }

  ghost predicate Lost(w: World, id: string) { id in w.issued && id !in w.store.requests && Unfetched(w, id) }

  lemma NotInRest(batch: seq<Request>, id: string)
    requires !InBatch(batch, id) && batch != []
    ensures batch[0].id != id && !InBatch(batch[1..], id)
  {
    assert forall i :: 0 <= i < |batch[1..]| ==> batch[1..][i] == batch[i + 1];
  }

  lemma LostStays(rules: Rules, w: World, step: Step, w': World, id: string)
    requires Inv(w) && Next(rules, w, step, w') && Lost(w, id)
    ensures Lost(w', id)
  {
    if step.Work? { NotInRest(w.instances[step.host].batch, id); }
  }

  /** The dashboard keeps requests in memory only: what no instance has fetched before a restart is
      never pending again, nor worked on, nor acknowledged. */
  lemma {:induction false} RestartLoses(rules: Rules, worlds: seq<World>, steps: seq<Step>, j: nat, k: nat, id: string)
    requires Run(rules, worlds, steps) && j < k < |worlds| && steps[j].Restart?
    requires id in worlds[j].issued && Unfetched(worlds[j], id)
    ensures Lost(worlds[k], id)
    decreases k
  {
    assert Follows(rules, worlds, steps, k - 1);
    if j + 1 < k {
      RestartLoses(rules, worlds, steps, j, k - 1, id);
      InvAlways(rules, worlds, steps, k - 1);
      LostStays(rules, worlds[k - 1], steps[k - 1], worlds[k], id);
    }
  }
}

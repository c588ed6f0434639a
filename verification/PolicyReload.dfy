/** Policy reloading in internal/g0efilter/app.go as a step system: the file is edited at any time,
    the poller notices, loads and applies a change (checkPolicyTick) and hands it over
    (sendLatest), and the supervisor restarts the services with what it takes from the channel. */
module PolicyReload {
  import opened Streams

  type Content = string

  /** Where the polling goroutine is: between ticks; between the two reads of one tick, having
      hashed `seen`; or in sendLatest with update `u`, before the fast-path select, the
      draining select, or the final blocking select. */
  datatype Poller =
    | Resting
    | Reading(seen: Content)
    | Fast(u: nat, seen: Content)
    | Drain(u: nat, seen: Content)
    | Push(u: nat, seen: Content)

  datatype Supervisor = Waiting | Restarting(u: nat)

  datatype State = State(
    file: Content,
    gens: seq<Content>,     // the policies loaded so far; the last one is in the kernel
    last: string,           // the hash the poller remembers, "" for none
    pc: Poller,
    buf: Option<nat>,       // the channel, capacity one; updates are numbered like `gens`
    sup: Supervisor,
    svc: nat,               // the policy the services were started with
    taken: seq<nat>,        // what the supervisor has taken, in order
    cancelled: bool,        // ctx.Done() is closed
    gaveUp: bool)           // the last call of sendLatest was cut short by it

  datatype Step =
    | Edit(content: Content)
    | Look(readable: bool)
    | Load(ok: bool)
    | TryFast | TryDrain | DoPush
    | Take | Restart
    | Cancel | GiveUp

  predicate Sending(pc: Poller) { pc.Fast? || pc.Drain? || pc.Push? }

  predicate Enabled(s: State, step: Step) {
    match step
    case Edit(_) => true
    case Look(_) => s.pc.Resting?
    case Load(_) => s.pc.Reading?
    case TryFast => s.pc.Fast?
    case TryDrain => s.pc.Drain?
    case DoPush => s.pc.Push? && s.buf.None?
    case Take => s.sup.Waiting? && s.buf.Some?
    case Restart => s.sup.Restarting?
    case Cancel => true
    case GiveUp => Sending(s.pc) && s.cancelled
  }

  /** sendLatest has returned, and the poller remembers the hash of what it saw. */
  function Returned(s: State, hash: Content -> string): State
    requires Sending(s.pc)
  {
    s.(pc := Resting, last := hash(s.pc.seen))
  }

  function Next(s: State, hash: Content -> string, step: Step): State
    requires Enabled(s, step)
  {
    match step
    case Edit(content) => s.(file := content)
    case Look(readable) =>
      if !readable then s
      else if s.last == "" then s.(last := hash(s.file))
      else if hash(s.file) == s.last then s
      else s.(pc := Reading(s.file))
    case Load(ok) =>
      if ok then s.(gens := s.gens + [s.file], pc := Fast(|s.gens|, s.pc.seen)) else s.(pc := Resting)
    case TryFast =>
      if s.buf.None? then Returned(s.(buf := Some(s.pc.u), gaveUp := false), hash)
      else s.(pc := Drain(s.pc.u, s.pc.seen))
    case TryDrain => s.(pc := Push(s.pc.u, s.pc.seen), buf := None)
    case DoPush => Returned(s.(buf := Some(s.pc.u), gaveUp := false), hash)
    case Take => s.(buf := None, sup := Restarting(s.buf.value), taken := s.taken + [s.buf.value])
    case Restart => s.(svc := s.sup.u, sup := Waiting)
    case Cancel => s.(cancelled := true)
    case GiveUp => Returned(s.(gaveUp := true), hash)
  }

  /** After loadInitialPolicy: one policy is applied and served, and a hash was read after it,
      or could not be. */
  ghost predicate Start(s: State) {
    && |s.gens| == 1 && s.pc.Resting? && s.buf.None? && s.sup.Waiting? && s.svc == 0
    && s.taken == [] && !s.cancelled && !s.gaveUp
  }

  ghost predicate Follows(hash: Content -> string, states: seq<State>, steps: seq<Step>, k: nat)
    requires |states| == |steps| + 1 && k < |steps|
  {
    Enabled(states[k], steps[k]) && states[k + 1] == Next(states[k], hash, steps[k])
  }

  ghost predicate Run(hash: Content -> string, states: seq<State>, steps: seq<Step>) {
    && |states| == |steps| + 1 && Start(states[0])
    && forall k :: 0 <= k < |steps| ==> Follows(hash, states, steps, k)
  }

  // ---------------------------------------------------------------- the channel

  predicate Increasing(s: seq<nat>) { forall i, j :: 0 <= i < j < |s| ==> s[i] < s[j] }

  function LastTaken(s: State): nat { if s.taken == [] then 0 else s.taken[|s.taken| - 1] }

  /** The newest policy that the supervisor has or can take. */
  function Offered(s: State): nat { if s.buf.Some? then s.buf.value else LastTaken(s) }

  ghost predicate Inv(s: State) {
    && s.gens != [] && Increasing(s.taken) && LastTaken(s) < |s.gens|
    && (s.buf.Some? ==> LastTaken(s) < s.buf.value < |s.gens|)
    && (match s.sup case Waiting => s.svc == LastTaken(s) case Restarting(u) => u == LastTaken(s) && s.svc < u)
    && (Sending(s.pc) ==> s.pc.u == |s.gens| - 1 && Offered(s) < s.pc.u)
    && (s.pc.Push? ==> s.buf.None?)
    && (!Sending(s.pc) ==> (Offered(s) == |s.gens| - 1 <==> !s.gaveUp))
  }

  lemma SendKeeps(s: State, hash: Content -> string, step: Step)
    requires Inv(s) && Enabled(s, step) && OwnStep(step)
    ensures Inv(Next(s, hash, step))
  {
  }

  lemma TakeKeeps(s: State, hash: Content -> string)
    requires Inv(s) && Enabled(s, Take)
    ensures Inv(Next(s, hash, Take))
  {
    var u, more := s.buf.value, s.taken + [s.buf.value];
    forall i, j | 0 <= i < j < |more| ensures more[i] < more[j] {
      if j == |s.taken| && i < |s.taken| - 1 { assert s.taken[i] < s.taken[|s.taken| - 1]; }
    }
  }

  lemma OtherKeeps(s: State, hash: Content -> string, step: Step)
    requires Inv(s) && Enabled(s, step) && !OwnStep(step) && step != Take
    ensures Inv(Next(s, hash, step))
  {
  }

  lemma InvStep(s: State, hash: Content -> string, step: Step)
    requires Inv(s) && Enabled(s, step)
    ensures Inv(Next(s, hash, step))
  {
    if OwnStep(step) {
      SendKeeps(s, hash, step);
    } else if step == Take {
      TakeKeeps(s, hash);
    } else {
      OtherKeeps(s, hash, step);
    }
  }

  lemma {:induction false} InvAlways(hash: Content -> string, states: seq<State>, steps: seq<Step>, k: nat)
    requires Run(hash, states, steps) && k < |states|
    ensures Inv(states[k])
  {
    if k > 0 {
      InvAlways(hash, states, steps, k - 1);
      assert Follows(hash, states, steps, k - 1);
      InvStep(states[k - 1], hash, steps[k - 1]);
    }
  }

  /** In every reachable state the poller can move on, even at its blocking send; the supervisor
      has taken updates in order and none twice; and outside a send the newest policy is in the
      channel or was the last one taken, if and only if the last send did not give up. */
  lemma NewestIsOffered(hash: Content -> string, states: seq<State>, steps: seq<Step>, k: nat)
    requires Run(hash, states, steps) && k < |states|
    ensures var s := states[k];
            && (exists step :: step in {Look(true), Load(true), TryFast, TryDrain, DoPush} && Enabled(s, step))
            && Increasing(s.taken)
            && (!Sending(s.pc) ==>
                  ((if s.buf.Some? then s.buf.value else LastTaken(s)) == |s.gens| - 1 <==> !s.gaveUp))
  {
    InvAlways(hash, states, steps, k);
    var s := states[k];
    assert Enabled(s, match s.pc case Resting => Look(true) case Reading(_) => Load(true) case Fast(_, _) => TryFast
                                 case Drain(_, _) => TryDrain case Push(_, _) => DoPush);
  }

  /** Once nothing is on its way, the services run with the policy that is in the kernel, if and
      only if the last send did not give up. */
  lemma QuietIsCurrent(hash: Content -> string, states: seq<State>, steps: seq<Step>, k: nat)
    requires Run(hash, states, steps) && k < |states|
    requires var s := states[k]; !Sending(s.pc) && s.buf.None? && s.sup.Waiting?
    ensures states[k].svc == |states[k].gens| - 1 <==> !states[k].gaveUp
  {
    InvAlways(hash, states, steps, k);
  }

  /** Restarts go forward, but not always to the newest policy. */
  lemma RestartsGoForward(hash: Content -> string, states: seq<State>, steps: seq<Step>, k: nat)
    requires Run(hash, states, steps) && k < |steps| && steps[k] == Restart
    ensures states[k].svc < states[k + 1].svc < |states[k].gens| && states[k + 1].gens == states[k].gens
  {
    InvAlways(hash, states, steps, k);
    assert Follows(hash, states, steps, k);
  }

  predicate OwnStep(step: Step) { step in {TryFast, TryDrain, DoPush, GiveUp} }

  function StepsLeft(pc: Poller): nat {
    match pc
    case Fast(_, _) => 3
    case Drain(_, _) => 2
    case Push(_, _) => 1
    case _ => 0
  }

  function OwnSteps(steps: seq<Step>): nat {
    if steps == [] then 0 else OwnSteps(steps[..|steps| - 1]) + if OwnStep(steps[|steps| - 1]) then 1 else 0
  }

  lemma OwnStepCounts(s: State, hash: Content -> string, step: Step)
    requires Sending(s.pc) && Enabled(s, step)
    ensures StepsLeft(Next(s, hash, step).pc) + (if OwnStep(step) then 1 else 0) <= StepsLeft(s.pc)
  {
  }

  /** A call of sendLatest ends after at most three steps of its own, whatever happens around it. */
  lemma {:induction false} CallEnds(hash: Content -> string, states: seq<State>, steps: seq<Step>, i: nat, j: nat)
    requires Run(hash, states, steps) && i <= j < |states|
    requires forall k :: i <= k < j ==> Sending(states[k].pc)
    ensures OwnSteps(steps[i..j]) + StepsLeft(states[j].pc) <= StepsLeft(states[i].pc) <= 3
    decreases j
  {
    if i < j {
      CallEnds(hash, states, steps, i, j - 1);
      assert Follows(hash, states, steps, j - 1);
      OwnStepCounts(states[j - 1], hash, steps[j - 1]);
      assert steps[i..j][..j - 1 - i] == steps[i..j - 1];
    }
  }

  // ---------------------------------------------------------------- hash and policy

  /** What is taken of the digest: it tells contents apart and is never empty. */
  ghost predicate Injective(hash: Content -> string) {
    (forall a, b :: hash(a) == hash(b) ==> a == b) && forall a :: hash(a) != ""
  }

  function Applied(s: State): Content
    requires s.gens != []
  {
    s.gens[|s.gens| - 1]
  }

  /** The remembered hash, or the one about to be remembered, is that of the applied policy. */
  ghost predicate InSync(s: State, hash: Content -> string) {
    && s.gens != []
    && if Sending(s.pc) then s.pc.seen == Applied(s) else s.last == hash(Applied(s))
  }

  /** The file was changed between the two reads of one tick. */
  predicate Disturbed(s: State, step: Step) { step == Load(true) && s.pc.Reading? && s.pc.seen != s.file }

  /** Every step keeps hash and policy together but one kind, and that one always parts them. */
  lemma SyncExactly(s: State, hash: Content -> string, step: Step)
    requires Injective(hash) && InSync(s, hash) && Enabled(s, step)
    ensures InSync(Next(s, hash, step), hash) <==> !Disturbed(s, step)
  {
  }

  lemma {:induction false} SyncAlways(hash: Content -> string, states: seq<State>, steps: seq<Step>, j: nat, k: nat)
    requires Injective(hash) && Run(hash, states, steps) && j <= k < |states| && InSync(states[j], hash)
    requires forall i :: j <= i < k ==> !Disturbed(states[i], steps[i])
    ensures InSync(states[k], hash)
    decreases k
  {
    if j < k {
      SyncAlways(hash, states, steps, j, k - 1);
      assert Follows(hash, states, steps, k - 1);
      SyncExactly(states[k - 1], hash, steps[k - 1]);
    }
  }

  /** Hash and policy agree, and a reading poller has seen what the file still holds. */
  ghost predicate Undisturbed(s: State, hash: Content -> string) {
    InSync(s, hash) && (s.pc.Reading? ==> s.pc.seen == s.file)
  }

  lemma UndisturbedStep(s: State, hash: Content -> string, step: Step)
    requires Injective(hash) && Undisturbed(s, hash) && Enabled(s, step) && !step.Edit?
    ensures Undisturbed(Next(s, hash, step), hash) && Next(s, hash, step).file == s.file
  {
    SyncExactly(s, hash, step);
  }

  lemma {:induction false} RestingFile(hash: Content -> string, states: seq<State>, steps: seq<Step>, j: nat, k: nat)
    requires Injective(hash) && Run(hash, states, steps) && j <= k < |states| && Undisturbed(states[j], hash)
    requires forall n :: j <= n < k ==> !steps[n].Edit?
    ensures Undisturbed(states[k], hash) && states[k].file == states[j].file
    decreases k
  {
    if j < k {
      RestingFile(hash, states, steps, j, k - 1);
      assert Follows(hash, states, steps, k - 1);
      UndisturbedStep(states[k - 1], hash, steps[k - 1]);
    }
  }

  /** The file's content is applied, or has been seen and is about to be. */
  ghost predicate CaughtUp(s: State) {
    s.gens != [] && if s.pc.Reading? then s.pc.seen == s.file else Applied(s) == s.file
  }

  lemma CatchesUp(s: State, hash: Content -> string, step: Step)
    requires Injective(hash) && Undisturbed(s, hash) && Enabled(s, step)
    requires !step.Edit? && step != Load(false) && (step == Look(true) || CaughtUp(s))
    ensures CaughtUp(Next(s, hash, step))
  {
  }

  /** From an undisturbed state on, while the file rests and loading it succeeds, one look at the
      file is enough: from then on its content is applied, or has been seen and is about to be. */
  lemma {:induction false} FileIsApplied(hash: Content -> string, states: seq<State>, steps: seq<Step>, j: nat, i: nat, k: nat)
    requires Injective(hash) && Run(hash, states, steps) && j <= i < k < |states|
    requires Undisturbed(states[j], hash) && steps[i] == Look(true)
    requires forall n :: j <= n < k ==> !steps[n].Edit? && steps[n] != Load(false)
    ensures CaughtUp(states[k]) && states[k].file == states[j].file
    decreases k
  {
    RestingFile(hash, states, steps, j, k - 1);
    RestingFile(hash, states, steps, j, k);
    if i < k - 1 { FileIsApplied(hash, states, steps, j, i, k - 1); }
    CaughtUpNext(hash, states, steps, k - 1);
  }

  /** And once nothing is on its way and the last send did not give up, it is what the services
      run with. */
  lemma FileIsServed(hash: Content -> string, states: seq<State>, steps: seq<Step>, j: nat, i: nat, k: nat)
    requires Injective(hash) && Run(hash, states, steps) && j <= i < k < |states|
    requires Undisturbed(states[j], hash) && steps[i] == Look(true)
    requires forall n :: j <= n < k ==> !steps[n].Edit? && steps[n] != Load(false)
    requires var s := states[k]; s.pc.Resting? && s.buf.None? && s.sup.Waiting? && !s.gaveUp
    ensures var s := states[k]; s.svc < |s.gens| && s.gens[s.svc] == states[j].file
  {
    FileIsApplied(hash, states, steps, j, i, k);
    QuietIsCurrent(hash, states, steps, k);
  }

  lemma CaughtUpNext(hash: Content -> string, states: seq<State>, steps: seq<Step>, k: nat)
    requires Injective(hash) && Run(hash, states, steps) && k < |steps| && Undisturbed(states[k], hash)
    requires !steps[k].Edit? && steps[k] != Load(false) && (steps[k] == Look(true) || CaughtUp(states[k]))
    ensures CaughtUp(states[k + 1])
  {
    assert Follows(hash, states, steps, k);
    CatchesUp(states[k], hash, steps[k]);
  }

  /** One tick over an unchanging file: a look, and a load that succeeds if there is one. */
  function AfterTick(s: State, hash: Content -> string): State
    requires s.pc.Resting?
  {
    var looked := Next(s, hash, Look(true));
    if looked.pc.Reading? then Next(looked, hash, Load(true)) else looked
  }

  /** Such a tick leaves the file's content applied exactly when it was applied already, or when
      a hash is remembered and is another. */
  lemma TickAppliesExactly(s: State, hash: Content -> string)
    requires Injective(hash) && s.gens != [] && s.pc.Resting?
    ensures Applied(AfterTick(s, hash)) == s.file <==>
            Applied(s) == s.file || (s.last != "" && s.last != hash(s.file))
  {
  }

  /** One tick during which the file changes from what is hashed to `d`, which is loaded. */
  function AfterChangingTick(s: State, hash: Content -> string, d: Content): State
    requires s.pc.Resting?
  {
    var edited := Next(s, hash, Look(true)).(file := d);
    if edited.pc.Reading? then Next(edited, hash, Load(true)) else edited
  }

  /** Such a tick leaves hash and policy together exactly when there was nothing to load, or
      what was loaded is what was hashed. */
  lemma ChangingTickExactly(s: State, hash: Content -> string, d: Content)
    requires Injective(hash) && InSync(s, hash) && s.pc.Resting?
    ensures InSync(AfterChangingTick(s, hash, d), hash) <==> s.file == Applied(s) || s.file == d
  {
  }

  /** Without a remembered hash the first look makes hash and policy agree exactly when the file
      still is what was applied. */
  lemma MissingHashExactly(s: State, hash: Content -> string)
    requires Injective(hash) && s.gens != [] && s.pc.Resting? && s.last == ""
    ensures InSync(Next(s, hash, Look(true)), hash) <==> s.file == Applied(s)
  {
  }

  // ---------------------------------------------------------------- runs that show the limits

  lemma RunOn(hash: Content -> string, states: seq<State>, steps: seq<Step>, step: Step) returns (more: seq<State>, done: seq<Step>)
    requires Run(hash, states, steps) && Enabled(states[|states| - 1], step)
    ensures Run(hash, more, done) && more[|more| - 1] == Next(states[|states| - 1], hash, step)
  {
    var last := states[|states| - 1];
    more, done := states + [Next(last, hash, step)], steps + [step];
    forall k | 0 <= k < |done| ensures Follows(hash, more, done, k) {
      if k < |steps| { assert Follows(hash, states, steps, k) && more[k] == states[k] && more[k + 1] == states[k + 1] && done[k] == steps[k]; }
    }
  }

  function Fresh(a: Content, last: string): State {
    State(a, [a], last, Resting, None, Waiting, 0, [], false, false)
  }

  /** A run in which a change is loaded and sent while the file holds `c` at the first read and
      `d` at the second. */
  lemma OneChange(hash: Content -> string, a: Content, c: Content, d: Content) returns (states: seq<State>, steps: seq<Step>)
    requires Injective(hash) && a != c
    ensures Run(hash, states, steps)
    ensures states[|states| - 1] == Fresh(a, hash(c)).(file := d, gens := [a, d], buf := Some(1))
  {
    states, steps := [Fresh(a, hash(a))], [];
    states, steps := RunOn(hash, states, steps, Edit(c));
    states, steps := RunOn(hash, states, steps, Look(true));
    states, steps := RunOn(hash, states, steps, Edit(d));
    states, steps := RunOn(hash, states, steps, Load(true));
    states, steps := RunOn(hash, states, steps, TryFast);
  }

  /** A change between the two reads of a tick that is reverted later is never noticed: the poller
      looks at the file and does nothing, while another policy is applied. */
  lemma RevertedChangeMissed(hash: Content -> string, a: Content, c: Content, d: Content)
    requires Injective(hash) && a != c && c != d
    ensures exists states: seq<State>, steps: seq<Step> :: Run(hash, states, steps) &&
              var s := states[|states| - 1];
              s.pc.Resting? && s.gens == [a, d] && s.file == c && Next(s, hash, Look(true)) == s
  {
    var states, steps := OneChange(hash, a, c, d);
    states, steps := RunOn(hash, states, steps, Edit(c));
  }

  /** Without an initial hash, a policy changed before the first tick is not applied until it
      changes again. */
  lemma MissingHashSkipsFirst(hash: Content -> string, a: Content, c: Content)
    requires Injective(hash) && a != c
    ensures exists states: seq<State>, steps: seq<Step> :: Run(hash, states, steps) &&
              var s := states[|states| - 1];
              s.pc.Resting? && s.gens == [a] && s.file == c && Next(s, hash, Look(true)) == s
  {
    var states, steps := [Fresh(a, "")], [];
    states, steps := RunOn(hash, states, steps, Edit(c));
    states, steps := RunOn(hash, states, steps, Look(true));
  }

  /** Cancellation between draining and sending loses the old update and the new. */
  lemma CancellationLoses(hash: Content -> string, a: Content, c: Content, d: Content)
    requires Injective(hash) && a != c && c != d
    ensures exists states: seq<State>, steps: seq<Step> :: Run(hash, states, steps) &&
              var s := states[|states| - 1];
              s.pc.Resting? && s.gens == [a, c, d] && s.buf.None? && s.taken == [] && s.svc == 0
  {
    var states, steps := OneChange(hash, a, c, c);
    states, steps := RunOn(hash, states, steps, Edit(d));
    states, steps := RunOn(hash, states, steps, Look(true));
    states, steps := RunOn(hash, states, steps, Load(true));
    states, steps := RunOn(hash, states, steps, TryFast);
    states, steps := RunOn(hash, states, steps, TryDrain);
    states, steps := RunOn(hash, states, steps, Cancel);
    states, steps := RunOn(hash, states, steps, GiveUp);
  }

  /** The supervisor can restart the services with a policy older than the kernel's. */
  lemma OldUpdateServed(hash: Content -> string, a: Content, c: Content, d: Content)
    requires Injective(hash) && a != c && c != d
    ensures exists states: seq<State>, steps: seq<Step> :: Run(hash, states, steps) &&
              var s := states[|states| - 1];
              s.gens == [a, c, d] && s.svc == 1 && s.sup.Waiting?
  {
    var states, steps := OneChange(hash, a, c, c);
    states, steps := RunOn(hash, states, steps, Edit(d));
    states, steps := RunOn(hash, states, steps, Look(true));
    states, steps := RunOn(hash, states, steps, Load(true));
    states, steps := RunOn(hash, states, steps, Take);
    states, steps := RunOn(hash, states, steps, Restart);
  }
}

/** The token bucket that both rate limiters keep per source, and the reference it is measured
    against: one bucket that sees only its own source's calls and is never forgotten. Token
    counts and times are reals. */
module TokenBucket {

  type Time = real

  /** time.Duration saturates: no difference of times is longer than this many seconds. */
  const MAX_DURATION: real := 9223372036.854775807

  function Min(a: real, b: real): real { if a < b then a else b }

  /** now.Sub(last).Seconds() */
  function Elapsed(now: Time, last: Time): real { Min(now - last, MAX_DURATION) }

  datatype Bucket = Bucket(tokens: real, last: Time)

  /** `idle`: how long a bucket must rest before pruning may drop it. `start`: what a source
      without a bucket starts from. */
  datatype Params = Params(rate: real, burst: real, idle: real, start: real) {
    ghost predicate Valid() {
      rate > 0.0 && burst > 0.0 && 0.0 < idle <= MAX_DURATION && 0.0 <= start <= burst
    }
  }

  type Buckets = map<string, Bucket>

  function Lookup(m: Buckets, src: string): (b: Held)
    ensures b.Held? <==> src in m
  {
    if src in m then Held(m[src]) else Absent
  }

  datatype Held = Held(bucket: Bucket) | Absent

  /** What a source may spend at `now`. */
  function Level(p: Params, h: Held, now: Time): real {
    match h
    case Held(b) => Min(b.tokens + Elapsed(now, b.last) * p.rate, p.burst)
    case Absent => p.start
  }

  predicate Grants(p: Params, h: Held, now: Time) { Level(p, h, now) >= 1.0 }

  function Spent(p: Params, h: Held, now: Time): Bucket {
    Bucket(Level(p, h, now) - (if Grants(p, h, now) then 1.0 else 0.0), now)
  }

  ghost predicate Sound(p: Params, h: Held, now: Time) {
    h.Held? ==> 0.0 <= h.bucket.tokens <= p.burst && h.bucket.last <= now
  }

  // ---------------------------------------------------------------- runs

  /** One call: `kept` is the map after forgetting and before the call's own update. */
  datatype Call = Call(src: string, now: Time, kept: Buckets, after: Buckets, granted: bool)

  ghost predicate Performs(p: Params, c: Call) {
    var h := Lookup(c.kept, c.src);
    c.granted == Grants(p, h, c.now) && c.after == c.kept[c.src := Spent(p, h, c.now)]
  }

  /** A call refills the source's bucket by its rate since the last call, a duration of at most some
      292 years, takes one token when there is one, and leaves all other sources alone. */
  lemma CallExactly(p: Params, c: Call)
    requires Performs(p, c) && c.src in c.kept
    ensures var b := c.kept[c.src];
            var waited := if c.now - b.last > 9223372036.854775807 then 9223372036.854775807 else c.now - b.last;
            var tokens := if b.tokens + waited * p.rate > p.burst then p.burst else b.tokens + waited * p.rate;
            && c.granted == (tokens >= 1.0)
            && c.after[c.src] == Bucket(if c.granted then tokens - 1.0 else tokens, c.now)
            && c.after.Keys == c.kept.Keys && forall s :: s in c.kept && s != c.src ==> c.after[s] == c.kept[s]
  {
  }

  function Before(m0: Buckets, calls: seq<Call>, k: nat): Buckets
    requires k <= |calls|
  {
    if k == 0 then m0 else calls[k - 1].after
  }

  ghost predicate PartOf(a: Buckets, b: Buckets) { forall s :: s in a ==> s in b && b[s] == a[s] }

  ghost predicate Follows(p: Params, m0: Buckets, calls: seq<Call>, k: nat)
    requires k < |calls|
  {
    && Performs(p, calls[k])
    && PartOf(calls[k].kept, Before(m0, calls, k))
    && (k > 0 ==> calls[k - 1].now <= calls[k].now)
  }

  /** A run from the map `m0` under a monotone clock. Nothing is said here about which buckets
      are forgotten, only that none is changed or made up. */
  ghost predicate Run(p: Params, m0: Buckets, calls: seq<Call>) {
    forall k :: 0 <= k < |calls| ==> Follows(p, m0, calls, k)
  }

  /** Whenever the source loses its bucket, the bucket had rested for longer than `idle`. */
  ghost predicate OnlyPruned(p: Params, m0: Buckets, calls: seq<Call>, s: string) {
    forall k :: 0 <= k < |calls| ==> Rested(p, m0, calls, s, k)
  }

  ghost predicate Rested(p: Params, m0: Buckets, calls: seq<Call>, s: string, k: nat)
    requires k < |calls|
  {
    s in Before(m0, calls, k) && s !in calls[k].kept ==> calls[k].now - Before(m0, calls, k)[s].last > p.idle
  }

  /** The reference: the source's own calls, one bucket, no forgetting. */
  ghost function Lone(p: Params, m0: Buckets, calls: seq<Call>, s: string): Held {
    if calls == [] then Lookup(m0, s)
    else
      var c := calls[|calls| - 1];
      var h := Lone(p, m0, calls[..|calls| - 1], s);
      if c.src == s then Held(Spent(p, h, c.now)) else h
  }

  lemma NonNegative(a: real, rate: real)
    requires a >= 0.0 && rate > 0.0
    ensures a * rate >= 0.0
  {
  }

  lemma LevelBounds(p: Params, h: Held, now: Time)
    requires p.Valid() && Sound(p, h, now)
    ensures 0.0 <= Level(p, h, now) <= p.burst
    ensures Sound(p, Held(Spent(p, h, now)), now)
  {
    if h.Held? { NonNegative(Elapsed(now, h.bucket.last), p.rate); }
  }

  lemma Scaled(a: real, b: real, rate: real)
    requires a <= b && rate > 0.0
    ensures a * rate <= b * rate
  {
  }

  lemma ScaledStrictly(a: real, b: real, rate: real)
    requires a < b && rate > 0.0
    ensures a * rate < b * rate
  {
  }

  lemma Quotient(a: real, rate: real)
    requires rate > 0.0
    ensures a / rate * rate == a
  {
  }

  lemma FullAgain(rate: real, burst: real, idle: real, tokens: real, elapsed: real)
    requires rate > 0.0 && burst <= idle * rate && tokens >= 0.0 && idle <= elapsed
    ensures Min(tokens + elapsed * rate, burst) == burst
  {
    Scaled(idle, elapsed, rate);
  }

  /** A bucket that has rested is full again, so a source without a bucket is worth as much,
      provided the rest refills any bucket: burst <= idle * rate. */
  lemma RestedIsFresh(p: Params, b: Bucket, now: Time)
    requires p.Valid() && p.start == p.burst && p.burst <= p.idle * p.rate
    requires Sound(p, Held(b), now) && now - b.last > p.idle
    ensures Level(p, Held(b), now) == Level(p, Absent, now)
  {
    FullAgain(p.rate, p.burst, p.idle, b.tokens, Elapsed(now, b.last));
  }

  /** A rest longer than `idle` in which an empty bucket does not fill. */
  lemma NotRefilled(rate: real, burst: real, idle: real) returns (rest: real)
    requires rate > 0.0 && idle * rate < burst && idle < MAX_DURATION
    ensures idle < rest <= MAX_DURATION && rest * rate < burst
  {
    var full := burst / rate;
    Quotient(burst, rate);
    if full <= idle { Scaled(full, idle, rate); }
    rest := (idle + Min(full, MAX_DURATION)) / 2.0;
    ScaledStrictly(rest, full, rate);
  }

  lemma StillLow(p: Params, rest: real)
    requires p.Valid() && p.start == p.burst && rest <= MAX_DURATION && rest * p.rate < p.burst
    ensures Level(p, Held(Bucket(0.0, 0.0)), rest) != Level(p, Absent, rest)
  {
    assert Elapsed(rest, 0.0) == rest;
  }

  /** The condition is exact: pruning is invisible at every later moment for every bucket if
      and only if resting for `idle` refills a bucket of size `burst`. */
  lemma PruningInvisible(p: Params)
    requires p.Valid() && p.start == p.burst && p.idle < MAX_DURATION
    ensures p.burst <= p.idle * p.rate <==>
            forall b: Bucket, now: Time :: Sound(p, Held(b), now) && now - b.last > p.idle ==>
              Level(p, Held(b), now) == Level(p, Absent, now)
  {
    if p.burst <= p.idle * p.rate {
      forall b: Bucket, now: Time | Sound(p, Held(b), now) && now - b.last > p.idle
        ensures Level(p, Held(b), now) == Level(p, Absent, now)
      {
        RestedIsFresh(p, b, now);
      }
    } else {
      var now := NotRefilled(p.rate, p.burst, p.idle);
      StillLow(p, now);
      assert Sound(p, Held(Bucket(0.0, 0.0)), now);
    }
  }

  /** What is known of a source before a call: its bucket, when present, is the reference
      bucket; when absent, the reference bucket is missing too or has rested. */
  ghost predicate Tracks(p: Params, h: Held, lone: Held, now: Time) {
    && Sound(p, h, now) && Sound(p, lone, now)
    && (h.Held? ==> lone == h)
    && (h.Absent? && lone.Held? ==> now - lone.bucket.last > p.idle)
  }

  lemma TrackedSpendsAlike(p: Params, h: Held, lone: Held, now: Time)
    requires p.Valid() && p.start == p.burst && p.burst <= p.idle * p.rate && Tracks(p, h, lone, now)
    ensures Level(p, h, now) == Level(p, lone, now) && Spent(p, h, now) == Spent(p, lone, now)
    ensures Tracks(p, Held(Spent(p, h, now)), Held(Spent(p, lone, now)), now)
  {
    if h.Absent? && lone.Held? { RestedIsFresh(p, lone.bucket, now); }
    LevelBounds(p, lone, now);
  }

  /** Time passes, and a bucket that has rested may go. */
  lemma TracksLater(p: Params, h: Held, kept: Held, lone: Held, past: Time, now: Time)
    requires Tracks(p, h, lone, past) && past <= now
    requires kept == h || (kept.Absent? && now - h.bucket.last > p.idle)
    ensures Tracks(p, kept, lone, now)
  {
  }

  lemma {:induction false} TracksAlways(p: Params, m0: Buckets, calls: seq<Call>, s: string, k: nat)
    requires p.Valid() && Run(p, m0, calls) && OnlyPruned(p, m0, calls, s) && p.start == p.burst && p.burst <= p.idle * p.rate
    requires k < |calls| && Sound(p, Lookup(m0, s), calls[0].now)
    ensures Tracks(p, Lookup(calls[k].kept, s), Lone(p, m0, calls[..k], s), calls[k].now)
  {
    assert Follows(p, m0, calls, k) && Rested(p, m0, calls, s, k);
    if k == 0 {
      TracksLater(p, Lookup(m0, s), Lookup(calls[0].kept, s), Lookup(m0, s), calls[0].now, calls[0].now);
    } else {
      TracksAlways(p, m0, calls, s, k - 1);
      var c, lone := calls[k - 1], Lone(p, m0, calls[..k - 1], s);
      assert calls[..k][..k - 1] == calls[..k - 1];
      assert Follows(p, m0, calls, k - 1) && Before(m0, calls, k) == c.after;
      if c.src == s { TrackedSpendsAlike(p, Lookup(c.kept, s), lone, c.now); }
      assert Tracks(p, Lookup(c.after, s), Lone(p, m0, calls[..k], s), c.now);
      TracksLater(p, Lookup(c.after, s), Lookup(calls[k].kept, s), Lone(p, m0, calls[..k], s), c.now, calls[k].now);
    }
  }

  /** Forgetting never changes an answer: a source that loses its bucket only by resting gets,
      on every call, what its own bucket would give it had it never been forgotten, whatever
      other sources do in between. */
  lemma AnswersAsNeverForgotten(p: Params, m0: Buckets, calls: seq<Call>, s: string, k: nat)
    requires p.Valid() && Run(p, m0, calls) && OnlyPruned(p, m0, calls, s) && p.start == p.burst && p.burst <= p.idle * p.rate
    requires k < |calls| && calls[k].src == s && Sound(p, Lookup(m0, s), calls[0].now)
    ensures calls[k].granted == Grants(p, Lone(p, m0, calls[..k], s), calls[k].now)
  {
    TracksAlways(p, m0, calls, s, k);
    assert Follows(p, m0, calls, k);
    TrackedSpendsAlike(p, Lookup(calls[k].kept, s), Lone(p, m0, calls[..k], s), calls[k].now);
  }

  function Granted(calls: seq<Call>, s: string): nat {
    if calls == [] then 0
    else
      var c := calls[|calls| - 1];
      Granted(calls[..|calls| - 1], s) + if c.src == s && c.granted then 1 else 0
  }

  /** The budget of a window that opened at `t`: tokens granted in it and tokens left are
      covered by the burst and the refill since. */
  ghost predicate Within(p: Params, h: Held, granted: nat, t: Time) {
    match h
    case Absent => granted == 0
    case Held(b) =>
      if b.last < t then granted == 0
      else granted as real + b.tokens <= p.burst + (b.last - t) * p.rate
  }

  lemma RefillStaysWithin(rate: real, sum: real, burst: real, t: Time, last: Time, now: Time, elapsed: real)
    requires rate > 0.0 && t <= last <= now && elapsed <= now - last && sum <= burst + (last - t) * rate
    ensures sum + elapsed * rate <= burst + (now - t) * rate
  {
  }

  lemma LevelStaysWithin(rate: real, burst: real, tokens: real, granted: real, t: Time, last: Time, now: Time, elapsed: real)
    requires rate > 0.0 && t <= now && last <= now && elapsed <= now - last
    requires if last < t then granted == 0.0 else granted + tokens <= burst + (last - t) * rate
    ensures granted + Min(tokens + elapsed * rate, burst) <= burst + (now - t) * rate
  {
  }

  lemma SpendingKeeps(granted: nat, more: nat, level: real, cap: real)
    requires granted as real + level <= cap
    ensures (granted + more) as real + (level - more as real) <= cap
  {
  }

  lemma LevelWithin(p: Params, h: Held, granted: nat, t: Time, now: Time)
    requires p.Valid() && p.start == p.burst && Sound(p, h, now) && t <= now && Within(p, h, granted, t)
    ensures granted as real + Level(p, h, now) <= p.burst + (now - t) * p.rate
  {
    match h
    case Absent => NonNegative(now - t, p.rate);
    case Held(b) =>
      LevelStaysWithin(p.rate, p.burst, b.tokens, granted as real, t, b.last, now, Elapsed(now, b.last));
  }

  lemma SpentWithin(p: Params, h: Held, granted: nat, t: Time, now: Time)
    requires p.Valid() && p.start == p.burst && Sound(p, h, now) && t <= now && Within(p, h, granted, t)
    ensures Within(p, Held(Spent(p, h, now)), granted + (if Grants(p, h, now) then 1 else 0), t)
  {
    LevelWithin(p, h, granted, t, now);
    SpendingKeeps(granted, if Grants(p, h, now) then 1 else 0, Level(p, h, now), p.burst + (now - t) * p.rate);
  }

  lemma WithinCap(p: Params, h: Held, granted: nat, t: Time, now: Time)
    requires p.Valid() && Sound(p, h, now) && t <= now && Within(p, h, granted, t)
    ensures granted as real <= p.burst + (now - t) * p.rate
  {
    NonNegative(now - t, p.rate);
    match h
    case Absent =>
    case Held(b) => if b.last >= t { RefillStaysWithin(p.rate, granted as real + b.tokens, p.burst, t, b.last, now, 0.0); }
  }

  ghost function Next(p: Params, h: Held, c: Call, s: string): Held {
    if c.src == s then Held(Spent(p, h, c.now)) else h
  }

  lemma WindowStep(p: Params, h: Held, c: Call, s: string, granted: nat, t: Time)
    requires p.Valid() && p.start == p.burst && Sound(p, h, c.now) && t <= c.now && Within(p, h, granted, t)
    requires c.src == s ==> c.granted == Grants(p, h, c.now)
    ensures Within(p, Next(p, h, c, s), granted + (if c.src == s && c.granted then 1 else 0), t)
    ensures Sound(p, Next(p, h, c, s), c.now)
  {
    if c.src == s {
      SpentWithin(p, h, granted, t, c.now);
      LevelBounds(p, h, c.now);
    }
  }

  lemma OpensWithin(p: Params, h: Held, t: Time)
    requires p.Valid() && Sound(p, h, t)
    ensures Within(p, h, 0, t)
  {
    if h.Held? && h.bucket.last >= t { NonNegative(h.bucket.last - t, p.rate); }
  }

  lemma {:induction false} WindowWithin(p: Params, m0: Buckets, calls: seq<Call>, s: string, j: nat)
    requires p.Valid() && Run(p, m0, calls) && OnlyPruned(p, m0, calls, s) && p.start == p.burst && p.burst <= p.idle * p.rate
    requires j < |calls| && Sound(p, Lookup(m0, s), calls[0].now)
    ensures Within(p, Lone(p, m0, calls[..j + 1], s), Granted(calls[..j + 1], s), calls[0].now)
    ensures Sound(p, Lone(p, m0, calls[..j + 1], s), calls[j].now) && calls[0].now <= calls[j].now
    decreases j
  {
    var h := Lone(p, m0, calls[..j], s);
    assert Follows(p, m0, calls, j);
    TracksAlways(p, m0, calls, s, j);
    assert calls[..j + 1][..j] == calls[..j];
    if j > 0 {
      WindowWithin(p, m0, calls, s, j - 1);
    } else {
      OpensWithin(p, h, calls[0].now);
    }
    if calls[j].src == s { AnswersAsNeverForgotten(p, m0, calls, s, j); }
    WindowStep(p, h, calls[j], s, Granted(calls[..j], s), calls[0].now);
    assert Lone(p, m0, calls[..j + 1], s) == Next(p, h, calls[j], s);
  }

  /** A stretch of a run is a run of its own, from the map its first call found. */
  lemma StretchIsRun(p: Params, calls: seq<Call>, s: string, i: nat, j: nat)
    requires Run(p, map[], calls) && i <= j < |calls|
    requires forall k :: i < k <= j ==> Rested(p, map[], calls, s, k)
    ensures Run(p, calls[i].kept, calls[i..j + 1]) && OnlyPruned(p, calls[i].kept, calls[i..j + 1], s)
  {
    var m, part := calls[i].kept, calls[i..j + 1];
    forall k | 0 <= k < |part| ensures Follows(p, m, part, k) && Rested(p, m, part, s, k) {
      assert Follows(p, map[], calls, i + k) && part[k] == calls[i + k];
      if k > 0 { assert part[k - 1] == calls[i + k - 1] && Rested(p, map[], calls, s, i + k); }
    }
  }

  lemma KeptIsSound(p: Params, calls: seq<Call>, s: string, i: nat)
    requires p.Valid() && Run(p, map[], calls) && i < |calls|
    ensures Sound(p, Lookup(calls[i].kept, s), calls[i].now)
  {
    if s in calls[i].kept { var _ := BucketFromCall(p, calls, s, i); }
  }

  /** Any window in which a source is not forced out, whatever happened to it before, grants it
      at most its burst plus what the elapsed time refills. */
  lemma WindowBound(p: Params, calls: seq<Call>, s: string, i: nat, j: nat)
    requires p.Valid() && Run(p, map[], calls) && p.start == p.burst && p.burst <= p.idle * p.rate
    requires i <= j < |calls| && forall k :: i < k <= j ==> Rested(p, map[], calls, s, k)
    ensures Granted(calls[i..j + 1], s) as real <= p.burst + (calls[j].now - calls[i].now) * p.rate
  {
    var m, part := calls[i].kept, calls[i..j + 1];
    StretchIsRun(p, calls, s, i, j);
    KeptIsSound(p, calls, s, i);
    assert part[0] == calls[i] && part[j - i] == calls[j] && part[..j - i + 1] == part;
    WindowWithin(p, m, part, s, j - i);
    WithinCap(p, Lone(p, m, part, s), Granted(part, s), calls[i].now, calls[j].now);
  }

  /** A bucket present at call `k` was left by an earlier call of its own source. */
  lemma {:induction false} BucketFromCall(p: Params, calls: seq<Call>, s: string, k: nat) returns (j: nat)
    requires p.Valid() && Run(p, map[], calls)
    requires k < |calls| && s in calls[k].kept
    ensures j < k && calls[j].src == s && calls[k].kept[s].last == calls[j].now && Sound(p, Held(calls[k].kept[s]), calls[k].now)
    decreases k
  {
    assert Follows(p, map[], calls, k) && s in Before(map[], calls, k);
    var c := calls[k - 1];
    assert Follows(p, map[], calls, k - 1);
    if c.src == s {
      j := k - 1;
      if s in c.kept {
        var i := BucketFromCall(p, calls, s, k - 1);
      }
      LevelBounds(p, Lookup(c.kept, s), c.now);
    } else {
      j := BucketFromCall(p, calls, s, k - 1);
    }
  }

  lemma OneToken(rate: real, burst: real, tokens: real, elapsed: real, gap: real)
    requires rate > 0.0 && tokens >= 0.0 && elapsed >= gap && gap * rate >= 1.0 && burst >= 1.0
    ensures Min(tokens + elapsed * rate, burst) >= 1.0
  {
    Scaled(gap, elapsed, rate);
  }

  lemma RestedGrants(p: Params, b: Bucket, now: Time, gap: real)
    requires p.Valid() && b.tokens >= 0.0 && p.burst >= 1.0
    requires now - b.last >= gap && gap <= MAX_DURATION && gap * p.rate >= 1.0
    ensures Grants(p, Held(b), now)
  {
    OneToken(p.rate, p.burst, b.tokens, Elapsed(now, b.last), gap);
  }

  /** A source that waits at least 1/rate between its calls is never refused, forgotten or not. */
  lemma SpacedNeverRefused(p: Params, calls: seq<Call>, s: string, k: nat, gap: real)
    requires p.Valid() && Run(p, map[], calls) && p.start >= 1.0
    requires k < |calls| && calls[k].src == s && gap <= 9223372036.854775807 && gap * p.rate >= 1.0
    requires forall j :: 0 <= j < k && calls[j].src == s ==> calls[k].now - calls[j].now >= gap
    ensures calls[k].granted
  {
    assert Follows(p, map[], calls, k);
    if s in calls[k].kept {
      var j := BucketFromCall(p, calls, s, k);
      RestedGrants(p, calls[k].kept[s], calls[k].now, gap);
    }
  }
}

/** The two rate limiters: dnsRateLimiter of internal/filter/dns_hardening.go and rateLimiter of
    internal/dashboard/rate_limiter.go. Both keep one map of buckets, forget some of them, and
    record their calls for the theorems of TokenBucket. */
module RateLimiters {
  import opened TokenBucket

  // ---------------------------------------------------------------- forgetting

  function Pruned(m: Buckets, now: Time, idle: real): Buckets {
    map s | s in m && now - m[s].last <= idle :: m[s]
  }

  ghost predicate Distinct(order: seq<string>) { forall i, j :: 0 <= i < j < |order| ==> order[i] != order[j] }

  ghost predicate Enumerates(order: seq<string>, m: Buckets) {
    |order| == |m| && Distinct(order) && forall s :: s in order <==> s in m
  }

  /** The source evictOldestLocked settles on when the map is walked in a given order. The empty
      string doubles as "none yet". */
  function Oldest(order: seq<string>, m: Buckets): (victim: string)
    requires forall s :: s in order ==> s in m
    ensures victim == "" || victim in order
  {
    if order == [] then ""
    else
      var src, oldest := order[|order| - 1], Oldest(order[..|order| - 1], m);
      if oldest == "" || m[src].last < m[oldest].last then src else oldest
  }

  /** With no empty source, a bucket goes that has rested at least as long as any other. */
  lemma {:induction false} OldestRestedLongest(order: seq<string>, m: Buckets)
    requires "" !in order && forall s :: s in order ==> s in m
    ensures order != [] ==> Oldest(order, m) in order && forall s :: s in order ==> m[Oldest(order, m)].last <= m[s].last
  {
    if order != [] {
      var front := order[..|order| - 1];
      OldestRestedLongest(front, m);
      assert forall s :: s in order ==> s in front || s == order[|order| - 1];
    }
  }

  /** The scan settles on nobody exactly when there is nobody, or when the empty source comes last
      and has rested longer than every other. */
  lemma NobodyExactly(order: seq<string>, m: Buckets)
    requires Distinct(order) && forall s :: s in order ==> s in m
    ensures Oldest(order, m) == "" <==>
            order == [] ||
            (order[|order| - 1] == "" && forall s :: s in order && s != "" ==> m[""].last < m[s].last)
  {
    if order != [] {
      var front := order[..|order| - 1];
      if order[|order| - 1] == "" {
        assert forall s :: s in order ==> s in front || s == "";
        OldestRestedLongest(front, m);
      }
    }
  }

  // ---------------------------------------------------------------- DNS

  const MAX_SOURCES := 4096
  const IDLE_EVICT := 60.0

  predicate Crowded(m: Buckets, src: string, now: Time) {
    src !in m && |m| >= MAX_SOURCES && |Pruned(m, now, IDLE_EVICT)| >= MAX_SOURCES
  }

  function Evicted(m: Buckets, order: seq<string>): Buckets
    requires forall s :: s in order ==> s in m
  {
    var victim := Oldest(order, m);
    if victim != "" then m - {victim} else m
  }

  /** The map a call works on: everything, or what pruning leaves, or that without one more. */
  ghost function Room(m: Buckets, src: string, now: Time, order: seq<string>): Buckets
    requires Crowded(m, src, now) ==> Enumerates(order, Pruned(m, now, IDLE_EVICT))
  {
    if src in m || |m| < MAX_SOURCES then m
    else if !Crowded(m, src, now) then Pruned(m, now, IDLE_EVICT)
    else Evicted(Pruned(m, now, IDLE_EVICT), order)
  }

  function DnsParams(qps: int, burst: int): Params {
    var q := if qps > 0 then qps else 50;
    var b := if burst > 0 then burst else 100;
    Params(q as real, b as real, IDLE_EVICT, b as real)
  }

  lemma RunExtends(p: Params, calls: seq<Call>, c: Call)
    requires Run(p, map[], calls) && Performs(p, c) && PartOf(c.kept, Before(map[], calls, |calls|))
    requires calls != [] ==> calls[|calls| - 1].now <= c.now
    ensures Run(p, map[], calls + [c])
  {
    var more := calls + [c];
    forall k | 0 <= k < |more| ensures Follows(p, map[], more, k) {
      if k < |calls| { assert Follows(p, map[], calls, k) && Before(map[], more, k) == Before(map[], calls, k); }
    }
  }

  /** A new source's bucket, full and just touched, has the level of a missing one. */
  lemma StartsFull(p: Params, m: Buckets, src: string, now: Time)
    requires p.start == p.burst
    ensures var b := if src in m then m[src] else Bucket(p.burst, now);
            Min(b.tokens + Elapsed(now, b.last) * p.rate, p.burst) == Level(p, Lookup(m, src), now)
  {
  }

  lemma Charged(p: Params, m: Buckets, src: string, now: Time, t: real)
    requires t == Level(p, Lookup(m, src), now)
    ensures var left := if t >= 1.0 then t - 1.0 else t;
            Performs(p, Call(src, now, m, m[src := Bucket(left, now)], t >= 1.0))
  {
  }

  /** A call of a source never forced out is answered as the reference bucket would answer it. */
  lemma AnswersLast(p: Params, calls: seq<Call>, c: Call)
    requires p.Valid() && p.start == p.burst && Run(p, map[], calls + [c])
    ensures OnlyPruned(p, map[], calls + [c], c.src) && p.burst <= p.idle * p.rate ==>
              c.granted == Grants(p, Lone(p, map[], calls, c.src), c.now)
  {
    var more := calls + [c];
    assert more[..|calls|] == calls;
    if OnlyPruned(p, map[], more, c.src) && p.burst <= p.idle * p.rate { AnswersAsNeverForgotten(p, map[], more, c.src, |calls|); }
  }

  /** No call came with an empty source. */
  ghost predicate Named(calls: seq<Call>) { forall i :: 0 <= i < |calls| ==> calls[i].src != "" }

  lemma NamedExtends(calls: seq<Call>, c: Call)
    ensures Named(calls + [c]) <==> Named(calls) && c.src != ""
  {
    var more := calls + [c];
    assert more[|calls|] == c && forall i :: 0 <= i < |calls| ==> more[i] == calls[i];
  }

  /** What the DNS limiter keeps: its map is what the recorded run left, and bounded. */
  ghost predicate Recorded(p: Params, m: Buckets, calls: seq<Call>) {
    && Run(p, map[], calls) && m == Before(map[], calls, |calls|)
    && (Named(calls) ==> |m| <= MAX_SOURCES && "" !in m)
  }

  lemma RecordedExtends(p: Params, m: Buckets, calls: seq<Call>, order: seq<string>, c: Call)
    requires Recorded(p, m, calls) && (calls != [] ==> calls[|calls| - 1].now <= c.now)
    requires Crowded(m, c.src, c.now) ==> Enumerates(order, Pruned(m, c.now, IDLE_EVICT))
    requires Performs(p, c) && c.kept == Room(m, c.src, c.now, order) && PartOf(c.kept, m)
    ensures Recorded(p, c.after, calls + [c])
  {
    RunExtends(p, calls, c);
    NamedExtends(calls, c);
    if Named(calls + [c]) { SourcesBounded(p, m, c.src, c.now, order, c); }
  }

  class DnsRateLimiter {
    const params: Params
    var buckets: Buckets
    ghost var calls: seq<Call>

    ghost predicate Valid()
      reads this
    {
      && params.Valid() && params.start == params.burst && params.idle == IDLE_EVICT
      && Recorded(params, buckets, calls)
    }

    /** newDNSRateLimiter */
    constructor (qps: int, burst: int)
      ensures Valid() && params == DnsParams(qps, burst) && calls == []
      ensures params.rate == (if qps >= 1 then qps as real else 50.0) && params.burst == (if burst >= 1 then burst as real else 100.0)
      ensures params.idle == 60.0 && params.start == params.burst
    {
      params, buckets, calls := DnsParams(qps, burst), map[], [];
    }

    /** allow */
    method Allow(source: string, now: Time) returns (granted: bool, ghost order: seq<string>)
      requires Valid() && (calls != [] ==> calls[|calls| - 1].now <= now)
      modifies this
      ensures Valid()
      ensures Crowded(old(buckets), source, now) ==> Enumerates(order, Pruned(old(buckets), now, IDLE_EVICT))
      ensures calls == old(calls) + [Call(source, now, Room(old(buckets), source, now, order), buckets, granted)]
      ensures OnlyPruned(params, map[], calls, source) && params.burst <= IDLE_EVICT * params.rate ==>
                granted == Grants(params, Lone(params, map[], old(calls), source), now)
    {
      order := MakeRoom(source, now);
      ghost var kept := buckets;
      granted := Charge(source, now);
      ghost var call := Call(source, now, kept, buckets, granted);
      RecordedExtends(params, old(buckets), calls, order, call);
      AnswersLast(params, calls, call);
      calls := calls + [call];
    }

    /** The first half of allow: before a new source gets a bucket, prune a full map, and evict
        one bucket if that does not help. */
    method MakeRoom(source: string, now: Time) returns (ghost order: seq<string>)
      modifies this`buckets
      ensures Crowded(old(buckets), source, now) ==> Enumerates(order, Pruned(old(buckets), now, IDLE_EVICT))
      ensures buckets == Room(old(buckets), source, now, order) && PartOf(buckets, old(buckets))
    {
      order := [];
      if source !in buckets {
        if |buckets| >= MAX_SOURCES { Prune(now); }
        if |buckets| >= MAX_SOURCES { order := EvictOldest(); }
      }
    }

    /** The second half of allow: refill, cap, and take one token if there is one. */
    method Charge(source: string, now: Time) returns (granted: bool)
      requires params.Valid() && params.start == params.burst
      modifies this`buckets
      ensures Performs(params, Call(source, now, old(buckets), buckets, granted))
    {
      var bucket := if source in buckets then buckets[source] else Bucket(params.burst, now);
      StartsFull(params, buckets, source, now);
      var tokens := bucket.tokens + Elapsed(now, bucket.last) * params.rate;
      if tokens > params.burst { tokens := params.burst; }
      Charged(params, buckets, source, now, tokens);
      granted := tokens >= 1.0;
      buckets := buckets[source := Bucket(if granted then tokens - 1.0 else tokens, now)];
    }

    /** pruneLocked */
    method Prune(now: Time)
      modifies this`buckets
      ensures buckets == Pruned(old(buckets), now, IDLE_EVICT)
      ensures forall s :: s in buckets <==> s in old(buckets) && now - old(buckets)[s].last <= 60.0
    {
      var pending := buckets.Keys;
      while pending != {}
        invariant pending <= buckets.Keys <= old(buckets).Keys
        invariant PartOf(buckets, old(buckets))
        invariant forall s :: s in old(buckets) && s !in pending ==> (s in buckets <==> now - old(buckets)[s].last <= IDLE_EVICT)
        decreases |pending|
      {
        var src :| src in pending;
        pending := pending - {src};
        if now - buckets[src].last > IDLE_EVICT { buckets := buckets - {src}; }
      }
    }

    /** evictOldestLocked, with the order in which the map happened to be walked */
    method EvictOldest() returns (ghost order: seq<string>)
      modifies this`buckets
      ensures Enumerates(order, old(buckets)) && buckets == Evicted(old(buckets), order)
    {
      var pending, oldestSrc, oldestAt := buckets.Keys, "", 0.0;
      order := [];
      while pending != {}
        invariant pending <= buckets.Keys && |order| + |pending| == |buckets|
        invariant Distinct(order) && forall s :: s in order <==> s in buckets && s !in pending
        invariant oldestSrc == Oldest(order, buckets) && (oldestSrc != "" ==> oldestAt == buckets[oldestSrc].last)
        decreases |pending|
      {
        var src :| src in pending;
        pending := pending - {src};
        if oldestSrc == "" || buckets[src].last < oldestAt {
          oldestSrc, oldestAt := src, buckets[src].last;
        }
        order := order + [src];
        assert order[..|order| - 1] + [src] == order;
      }
      if oldestSrc != "" { buckets := buckets - {oldestSrc}; }
    }
  }

  lemma SmallerWithout(m: Buckets, s: string)
    requires s in m
    ensures |m - {s}| == |m| - 1
  {
  }

  lemma AtMostOneMore(m: Buckets, s: string, b: Bucket)
    ensures |m[s := b]| == if s in m then |m| else |m| + 1
  {
  }

  /** Exactly when a call leaves the map within its bound: unless the map is crowded and the scan
      settles on nobody. */
  lemma BoundExactly(p: Params, m: Buckets, src: string, now: Time, order: seq<string>, c: Call)
    requires |m| <= 4096
    requires Crowded(m, src, now) ==> Enumerates(order, Pruned(m, now, IDLE_EVICT))
    requires Performs(p, c) && c.src == src && c.kept == Room(m, src, now, order)
    ensures |c.after| <= 4096 <==>
            !(Crowded(m, src, now) && Oldest(order, Pruned(m, now, IDLE_EVICT)) == "")
  {
    var pruned := Pruned(m, now, IDLE_EVICT);
    AtMostOneMore(c.kept, src, Spent(p, Lookup(c.kept, src), c.now));
    PrunedSmaller(m, now);
    if Crowded(m, src, now) && Oldest(order, pruned) != "" { SmallerWithout(pruned, Oldest(order, pruned)); }
  }

  /** So the map stays within its bound as long as no call comes with an empty source. */
  lemma SourcesBounded(p: Params, m: Buckets, src: string, now: Time, order: seq<string>, c: Call)
    requires |m| <= 4096 && "" !in m && src != ""
    requires Crowded(m, src, now) ==> Enumerates(order, Pruned(m, now, IDLE_EVICT))
    requires Performs(p, c) && c.src == src && c.kept == Room(m, src, now, order)
    ensures |c.after| <= 4096 && "" !in c.after
  {
    BoundExactly(p, m, src, now, order, c);
    if Crowded(m, src, now) { OldestRestedLongest(order, Pruned(m, now, IDLE_EVICT)); }
  }

  lemma PrunedSmaller(m: Buckets, now: Time)
    ensures |Pruned(m, now, IDLE_EVICT)| <= |m|
  {
    Smaller(Pruned(m, now, IDLE_EVICT).Keys, m.Keys);
  }

  lemma {:induction false} Smaller(a: set<string>, b: set<string>)
    requires a <= b
    ensures |a| <= |b|
  {
    assert b == a + (b - a);
  }

  /** A source loses its bucket only by resting for a minute, or by being the one evicted from
      a full map, and then none that stayed had rested longer. */
  lemma LossExplained(m: Buckets, src: string, now: Time, order: seq<string>, s: string)
    requires Crowded(m, src, now) ==> Enumerates(order, Pruned(m, now, IDLE_EVICT))
    requires "" !in m && s in m && s !in Room(m, src, now, order)
    ensures src !in m && |m| >= 4096
    ensures now - m[s].last > 60.0 ||
            (Crowded(m, src, now) && forall o :: o in Room(m, src, now, order) ==> m[s].last <= m[o].last)
    ensures s != src
  {
    if Crowded(m, src, now) { OldestRestedLongest(order, Pruned(m, now, IDLE_EVICT)); }
  }

  // ---------------------------------------------------------------- dashboard

  /** Times count seconds from Go's zero time; every clock reading is past the Unix epoch. */
  const UNIX_EPOCH := 62135596800.0
  const CLEANUP_EVERY := 600.0
  const MAX_ENTRIES := 10000
  const KEEP_FOR := 3600.0

  function DashboardParams(rps: real, burst: real): Params {
    var r := if rps <= 0.0 then 50.0 else rps;
    var b := if burst <= 0.0 then 100.0 else burst;
    Params(r, b, KEEP_FOR, Min(MAX_DURATION * r, b))
  }

  /** A key without a bucket reads as no tokens since the zero time. */
  lemma DashboardParamsValid(rps: real, burst: real)
    ensures DashboardParams(rps, burst).Valid()
  {
  }

  ghost function Joined(tokens: map<string, real>, last: map<string, Time>): Buckets
    requires tokens.Keys == last.Keys
  {
    map s | s in tokens :: Bucket(tokens[s], last[s])
  }

  /** What Allow computes from its two maps is the level of the joined bucket. */
  lemma ReadsAsLevel(p: Params, tokens: map<string, real>, last: map<string, Time>, key: string, now: Time)
    requires tokens.Keys == last.Keys && p.start == Min(MAX_DURATION * p.rate, p.burst) && now >= UNIX_EPOCH
    ensures var t := if key in tokens then tokens[key] else 0.0;
            var since := if key in last then last[key] else 0.0;
            Min(t + Elapsed(now, since) * p.rate, p.burst) == Level(p, Lookup(Joined(tokens, last), key), now)
  {
  }

  lemma JoinedUpdate(tokens: map<string, real>, last: map<string, Time>, key: string, t: real, now: Time)
    requires tokens.Keys == last.Keys
    ensures Joined(tokens[key := t], last[key := now]) == Joined(tokens, last)[key := Bucket(t, now)]
  {
  }

  lemma StartIsFull(p: Params)
    requires p.Valid() && p.burst <= p.idle * p.rate && p.start == Min(MAX_DURATION * p.rate, p.burst)
    ensures p.start == p.burst
  {
  }

  lemma OnlyPrunedExtends(p: Params, calls: seq<Call>, c: Call)
    requires forall s :: OnlyPruned(p, map[], calls, s)
    requires c.kept == Before(map[], calls, |calls|) || c.kept == Pruned(Before(map[], calls, |calls|), c.now, p.idle)
    ensures forall s :: OnlyPruned(p, map[], calls + [c], s)
  {
    var more := calls + [c];
    forall s, k: nat | k < |more| ensures Rested(p, map[], more, s, k) {
      assert OnlyPruned(p, map[], calls, s);
      if k < |calls| { assert Rested(p, map[], calls, s, k) && Before(map[], more, k) == Before(map[], calls, k); }
      else { assert Before(map[], more, k) == Before(map[], calls, k); }
    }
  }

  class DashboardLimiter {
    const params: Params
    var tokens: map<string, real>
    var last: map<string, Time>
    var lastCleanup: Time
    ghost var calls: seq<Call>

    ghost function View(): Buckets
      requires tokens.Keys == last.Keys
      reads this
    {
      Joined(tokens, last)
    }

    ghost predicate Valid()
      reads this
    {
      && tokens.Keys == last.Keys
      && params.Valid() && params.start == Min(MAX_DURATION * params.rate, params.burst) && params.idle == KEEP_FOR
      && Run(params, map[], calls) && View() == Before(map[], calls, |calls|)
      && forall s :: OnlyPruned(params, map[], calls, s)
    }

    /** newRateLimiter */
    constructor (rps: real, burst: real, now: Time)
      ensures Valid() && params == DashboardParams(rps, burst) && calls == [] && lastCleanup == now
      ensures params.rate == (if rps > 0.0 then rps else 50.0) && params.burst == (if burst > 0.0 then burst else 100.0)
      ensures params.idle == 3600.0
    {
      params, tokens, last, lastCleanup, calls := DashboardParams(rps, burst), map[], map[], now, [];
      new;
      DashboardParamsValid(rps, burst);
    }

    /** Allow */
    method Allow(key: string, now: Time) returns (granted: bool)
      requires Valid() && now >= UNIX_EPOCH && (calls != [] ==> calls[|calls| - 1].now <= now)
      modifies this
      ensures Valid()
      ensures var due := |old(tokens)| > 10000 || Elapsed(now, old(lastCleanup)) > 600.0;
              var kept := if due then Pruned(old(View()), now, 3600.0) else old(View());
              && lastCleanup == (if due then now else old(lastCleanup))
              && calls == old(calls) + [Call(key, now, kept, View(), granted)]
      ensures params.burst <= KEEP_FOR * params.rate ==> granted == Grants(params, Lone(params, map[], old(calls), key), now)
    {
      if |tokens| > MAX_ENTRIES || Elapsed(now, lastCleanup) > CLEANUP_EVERY {
        Cleanup(now);
        lastCleanup := now;
      }
      ghost var call := Call(key, now, View(), View(), false);
      granted := Charge(key, now);
      call := call.(after := View(), granted := granted);
      RunExtends(params, calls, call);
      OnlyPrunedExtends(params, calls, call);
      if params.burst <= KEEP_FOR * params.rate {
        StartIsFull(params);
        AnswersLast(params, calls, call);
      }
      calls := calls + [call];
    }

    /** The second half of Allow: refill, cap, and take one token if there is one. */
    method Charge(key: string, now: Time) returns (granted: bool)
      requires tokens.Keys == last.Keys && now >= UNIX_EPOCH
      requires params.start == Min(MAX_DURATION * params.rate, params.burst)
      modifies this`tokens, this`last
      ensures tokens.Keys == last.Keys && Performs(params, Call(key, now, old(View()), View(), granted))
    {
      var t := if key in tokens then tokens[key] else 0.0;
      var since := if key in last then last[key] else 0.0;
      ReadsAsLevel(params, tokens, last, key, now);
      t := t + Elapsed(now, since) * params.rate;
      if t > params.burst { t := params.burst; }
      Charged(params, Joined(tokens, last), key, now, t);
      JoinedUpdate(tokens, last, key, if t >= 1.0 then t - 1.0 else t, now);
      granted := t >= 1.0;
      if !granted {
        tokens := tokens[key := t];
        last := last[key := now];
      } else {
        tokens := tokens[key := t - 1.0];
        last := last[key := now];
      }
    }

    /** cleanup */
    method Cleanup(now: Time)
      requires tokens.Keys == last.Keys
      modifies this`tokens, this`last
      ensures tokens.Keys == last.Keys && View() == Pruned(old(View()), now, KEEP_FOR)
      ensures forall s :: s in tokens <==> s in old(last) && now - old(last)[s] <= 3600.0
    {
      var cutoff := now - KEEP_FOR;
      var pending := last.Keys;
      while pending != {}
        invariant tokens.Keys == last.Keys && pending <= last.Keys <= old(last).Keys
        invariant forall s :: s in tokens ==> tokens[s] == old(tokens)[s] && last[s] == old(last)[s]
        invariant forall s :: s in old(last) && s !in pending ==> (s in last <==> cutoff <= old(last)[s])
        decreases |pending|
      {
        var key :| key in pending;
        pending := pending - {key};
        if last[key] < cutoff {
          tokens := tokens - {key};
          last := last - {key};
        }
      }
    }
  }
}

/** A run of the DNS limiter in which its map outgrows its bound. */
module LimiterFlood {
  import opened TokenBucket
  import opened RateLimiters

  ghost predicate Forgets(calls: seq<Call>, k: nat, order: seq<string>)
    requires k < |calls|
  {
    var m := Before(map[], calls, k);
    && (Crowded(m, calls[k].src, calls[k].now) ==> Enumerates(order, Pruned(m, calls[k].now, IDLE_EVICT)))
    && calls[k].kept == Room(m, calls[k].src, calls[k].now, order)
  }

  /** A run of the DNS limiter, for some order in which its map was walked on each call. */
  ghost predicate LimiterRun(p: Params, calls: seq<Call>) {
    Run(p, map[], calls) && forall k :: 0 <= k < |calls| ==> ForgetsSome(calls, k)
  }

  ghost predicate ForgetsSome(calls: seq<Call>, k: nat)
    requires k < |calls|
  {
    exists order: seq<string> :: Forgets(calls, k, order)
  }

  /** Names of every length, the empty one first; one call a hundredth of a second. */
  function Source(i: nat): (s: string)
    ensures |s| == i
  {
    seq(i, _ => 'x')
  }

  function Moment(i: nat): Time { i as real / 100.0 }

  ghost function NewSource(p: Params, m: Buckets, i: nat): Call {
    var h := Lookup(m, Source(i));
    Call(Source(i), Moment(i), m, m[Source(i) := Spent(p, h, Moment(i))], Grants(p, h, Moment(i)))
  }

  ghost function Flood(p: Params, n: nat): (calls: seq<Call>)
    ensures |calls| == n
  {
    if n == 0 then []
    else
      var calls := Flood(p, n - 1);
      calls + [NewSource(p, Before(map[], calls, n - 1), n - 1)]
  }

  ghost predicate Flooded(m: Buckets, n: nat) {
    && |m| == n && (forall i :: 0 <= i < n ==> Source(i) in m)
    && forall s :: s in m ==> |s| < n && s == Source(|s|) && m[s].last == Moment(|s|)
  }

  lemma OneMoreSource(p: Params, m: Buckets, n: nat)
    requires Flooded(m, n)
    ensures Flooded(NewSource(p, m, n).after, n + 1)
  {
    AtMostOneMore(m, Source(n), Spent(p, Lookup(m, Source(n)), Moment(n)));
  }

  ghost predicate FloodedBy(p: Params, calls: seq<Call>, m: Buckets, n: nat) {
    && LimiterRun(p, calls) && m == Before(map[], calls, |calls|) && Flooded(m, n)
    && |calls| == n && (calls != [] ==> calls[|calls| - 1].now == Moment(n - 1))
  }

  /** A source that finds room: nothing is pruned and nobody evicted. */
  lemma FloodStep(p: Params, calls: seq<Call>, m: Buckets, n: nat)
    requires n < MAX_SOURCES && FloodedBy(p, calls, m, n)
    ensures var c := NewSource(p, m, n); FloodedBy(p, calls + [c], c.after, n + 1)
  {
    var c := NewSource(p, m, n);
    OneMoreSource(p, m, n);
    assert Before(map[], calls + [c], n) == m && Forgets(calls + [c], n, []);
    LimiterRunOn(p, calls, c, []);
  }

  lemma {:induction false} FloodFills(p: Params, n: nat)
    requires n <= MAX_SOURCES
    ensures FloodedBy(p, Flood(p, n), Before(map[], Flood(p, n), n), n)
  {
    if n > 0 {
      FloodFills(p, n - 1);
      FloodStep(p, Flood(p, n - 1), Before(map[], Flood(p, n - 1), n - 1), n - 1);
    }
  }

  lemma LimiterRunOn(p: Params, calls: seq<Call>, c: Call, order: seq<string>)
    requires LimiterRun(p, calls) && Performs(p, c) && (calls != [] ==> calls[|calls| - 1].now <= c.now)
    requires Forgets(calls + [c], |calls|, order)
    ensures LimiterRun(p, calls + [c])
  {
    var more := calls + [c];
    var m := Before(map[], calls, |calls|);
    assert Before(map[], more, |calls|) == m;
    RoomIsPart(m, c.src, c.now, order);
    RunExtends(p, calls, c);
    forall k | 0 <= k < |more| ensures ForgetsSome(more, k) {
      if k < |calls| {
        assert ForgetsSome(calls, k);
        var o: seq<string> :| Forgets(calls, k, o);
        assert Before(map[], more, k) == Before(map[], calls, k) && Forgets(more, k, o);
      }
    }
  }

  lemma RoomIsPart(m: Buckets, src: string, now: Time, order: seq<string>)
    requires Crowded(m, src, now) ==> Enumerates(order, Pruned(m, now, IDLE_EVICT))
    ensures PartOf(Room(m, src, now, order), m)
  {
  }

  /** The order that puts the empty source last. */
  function EmptyLast(n: nat): (order: seq<string>)
    requires n > 0
    ensures |order| == n
  {
    seq(n, i requires 0 <= i < n => if i == n - 1 then "" else Source(i + 1))
  }

  lemma EmptyLastIsDistinct(n: nat)
    requires n > 0
    ensures Distinct(EmptyLast(n))
  {
    var order := EmptyLast(n);
    forall i, j | 0 <= i < j < n ensures order[i] != order[j] {
      assert |order[i]| == i + 1;
      assert |order[j]| == if j == n - 1 then 0 else j + 1;
    }
  }

  lemma EmptyLastEnumerates(m: Buckets, n: nat)
    requires n > 0 && Flooded(m, n)
    ensures Enumerates(EmptyLast(n), m)
  {
    var order := EmptyLast(n);
    EmptyLastIsDistinct(n);
    assert Source(0) == "";
    forall s | s in m ensures s in order {
      if s != "" { assert order[|s| - 1] == s; } else { assert order[n - 1] == ""; }
    }
    forall s | s in order ensures s in m {
      var i :| 0 <= i < n && s == order[i];
      assert s == Source(if i == n - 1 then 0 else i + 1);
    }
  }

  /** The bound does fail: one call with an empty source, 4096 more from other sources within a
      minute, and a walk that comes to the empty source last, leave 4097 buckets. */
  lemma EmptySourceOutgrows(p: Params)
    ensures exists calls: seq<Call> :: LimiterRun(p, calls) && |calls| == 4097 &&
              (forall i :: 0 < i < |calls| ==> calls[i].src != "") && |calls[4096].after| == 4097
  {
    var n := MAX_SOURCES;
    FloodFills(p, n);
    var m := Before(map[], Flood(p, n), n);
    OneTooMany(p, Flood(p, n), m, n);
    OneMoreSource(p, m, n);
    FloodTimes(p, n + 1);
    var calls := Flood(p, n + 1);
    assert calls[n] == NewSource(p, m, n);
    forall i | 0 < i < |calls| ensures calls[i].src != "" { assert calls[i].src == Source(i); }
  }

  lemma OneTooMany(p: Params, calls: seq<Call>, m: Buckets, n: nat)
    requires n == MAX_SOURCES && calls == Flood(p, n) && m == Before(map[], calls, n)
    requires LimiterRun(p, calls) && Flooded(m, n)
    ensures LimiterRun(p, Flood(p, n + 1))
  {
    var c, order := NewSource(p, m, n), EmptyLast(n);
    assert Flood(p, n + 1) == calls + [c];
    FullAndFresh(m);
    FloodTimes(p, n);
    assert Before(map[], calls + [c], n) == m;
    LimiterRunOn(p, calls, c, order);
  }

  /** In that map nothing has rested long enough to be pruned, and nobody is evicted. */
  lemma FullAndFresh(m: Buckets)
    requires Flooded(m, MAX_SOURCES)
    ensures var now, order := Moment(MAX_SOURCES), EmptyLast(MAX_SOURCES);
            && Crowded(m, Source(MAX_SOURCES), now) && Pruned(m, now, IDLE_EVICT) == m && Enumerates(order, m)
            && Room(m, Source(MAX_SOURCES), now, order) == m
  {
    var now, order := Moment(MAX_SOURCES), EmptyLast(MAX_SOURCES);
    forall s | s in m ensures now - m[s].last <= IDLE_EVICT { assert m[s].last == Moment(|s|) >= 0.0; }
    assert Pruned(m, now, IDLE_EVICT) == m;
    EmptyLastEnumerates(m, MAX_SOURCES);
    assert order[MAX_SOURCES - 1] == "";
    forall s | s in order && s != "" ensures m[""].last < m[s].last { assert m[s].last == Moment(|s|); }
    NobodyExactly(order, m);
  }

  lemma {:induction false} FloodTimes(p: Params, n: nat)
    ensures forall i :: 0 <= i < n ==> Flood(p, n)[i].src == Source(i) && Flood(p, n)[i].now == Moment(i)
  {
    if n > 0 { FloodTimes(p, n - 1); }
  }
}

/** memStore of internal/dashboard/store.go: a circular buffer of log entries that answers
    queries as an append-only log would, restricted to its most recent entries. */
module RingStore {
  import opened GoStrings

  datatype Entry = Entry(id: nat, message: string, fields: string)

  const MAX_LIMIT := 5000

  function EffectiveLimit(limit: int): nat {
    if limit <= 0 || limit > MAX_LIMIT then MAX_LIMIT else limit
  }

  /** The negation of shouldSkipEntry. */
  predicate Matches(e: Entry, q: string, sinceID: int) {
    && !(sinceID > 0 && e.id <= sinceID)
    && (q == "" || Contains(ToLower(e.message + " " + e.fields), q))
  }

  /** An entry is skipped unless it is newer than the ID given, and its message and fields, in lower
      case and with one space between, have the text in them. */
  lemma MatchesExactly(e: Entry, q: string, sinceID: int)
    ensures Matches(e, q, sinceID) <==>
            (sinceID <= 0 || e.id > sinceID) &&
            exists before: string, after: string :: ToLower(e.message) + " " + ToLower(e.fields) == before + q + after
  {
    var text := ToLower(e.message) + " " + ToLower(e.fields);
    assert ToLower(e.message + " " + e.fields) == text;
    ContainsExactly(text, q);
    if q == "" { assert text == "" + q + text; }
  }

  lemma LimitExactly(limit: int)
    ensures EffectiveLimit(limit) == if 1 <= limit <= 5000 then limit else 5000
  {
  }

  // ---------------------------------------------------------------- the simple form

  /** The first `limit` matches among the last `depth` of the first `n` entries, newest first. */
  ghost function Newest(log: seq<Entry>, n: nat, depth: nat, q: string, sinceID: int, limit: nat): seq<Entry>
    requires n <= |log|
    decreases n
  {
    if depth == 0 || n == 0 || limit == 0 then []
    else if Matches(log[n - 1], q, sinceID) then [log[n - 1]] + Newest(log, n - 1, depth - 1, q, sinceID, limit - 1)
    else Newest(log, n - 1, depth - 1, q, sinceID, limit)
  }

  ghost function Answer(log: seq<Entry>, depth: nat, q: string, sinceID: int, limit: nat): seq<Entry> {
    Newest(log, |log|, depth, q, sinceID, limit)
  }

  ghost predicate Numbered(log: seq<Entry>) { forall i :: 0 <= i < |log| ==> log[i].id == i + 1 }

  // ---------------------------------------------------------------- the ring

  class MemStore {
    const buf: array<Entry>
    const size: nat
    var head: nat
    var count: nat
    var nextID: nat
    /** everything inserted since the store was made or last cleared */
    ghost var log: seq<Entry>

    ghost predicate Valid()
      reads this, buf
    {
      && size == buf.Length >= 1 && head < size
      && count == (if |log| < size then |log| else size)
      && nextID == |log| + 1 && Numbered(log)
      && forall k :: 0 <= k < count ==> Shows(k)
    }

    /** The entry written `k` inserts before the newest one is where it is looked for. */
    ghost predicate Shows(k: nat)
      requires head < size == buf.Length && k < size && k < |log|
      reads this, buf
    {
      buf[Slot(k)] == log[|log| - 1 - k]
    }

    /** Where the entry written `k` inserts before the newest one sits. */
    ghost function Slot(k: nat): (i: nat)
      requires head < size && k < size
      reads this`head
      ensures i < size
    {
      if k < head then head - 1 - k else head + size - 1 - k
    }

    /** newMemStore */
    constructor (n: int)
      ensures Valid() && fresh(buf) && log == [] && size == if n < 1 then 1 else n
    {
      var size := if n < 1 then 1 else n;
      this.size := size;
      buf := new Entry[size](_ => Entry(0, "", ""));
      head, count, nextID, log := 0, 0, 1, [];
    }

    method Insert(message: string, fields: string) returns (id: nat)
      requires Valid()
      modifies this`head, this`count, this`nextID, this`log, buf
      ensures Valid() && id == |old(log)| + 1
      ensures log == old(log) + [Entry(id, message, fields)]
    {
      id := nextID;
      nextID := nextID + 1;
      var e := Entry(id, message, fields);
      buf[head] := e;
      WrapForward(head, size);
      head := (head + 1) % size;
      if count < size { count := count + 1; }
      log := log + [e];
      assert Slot(0) == old(head);
      forall k | 0 <= k < count ensures Shows(k) {
        if k > 0 { assert old(Shows(k - 1)) && Slot(k) == old(Slot(k - 1)); }
      }
    }

    method Clear()
      requires Valid()
      modifies this`head, this`count, this`nextID, this`log
      ensures Valid() && log == []
    {
      head, count, nextID, log := 0, 0, 1, [];
    }

    lemma SlotStep(k: nat)
      requires head < size && k < size
      ensures k + 1 < size ==> PrevIndex(Slot(k)) == Slot(k + 1)
    {
    }

    function PrevIndex(idx: nat): int { if idx == 0 then size - 1 else idx - 1 }

    method Query(query: string, sinceID: int, limit: int) returns (out: seq<Entry>)
      requires Valid()
      ensures out == Answer(log, size, ToLower(TrimSpace(query)), sinceID, EffectiveLimit(limit))
      // at most 5000 entries, and so many when none or more are asked for
      ensures |out| <= if 1 <= limit <= 5000 then limit else 5000
    {
      var most := if limit <= 0 || limit > MAX_LIMIT then MAX_LIMIT else limit;
      var q := ToLower(TrimSpace(query));
      DepthCapped(log, |log|, size, q, sinceID, most);
      AnswerSound(log, |log|, size, q, sinceID, most);
      out := [];
      if count == 0 { return; }
      out := Walk(q, sinceID, most);
    }

    function NewestIndex(): (idx: int)
      requires head < size
      reads this`head
      ensures idx == Slot(0)
    {
      WrapBack(head, size);
      (head - 1 + size) % size
    }

    /** The loop of Query: backwards through the ring from the newest entry. */
    method Walk(q: string, sinceID: int, most: nat) returns (out: seq<Entry>)
      requires head < size == buf.Length && count <= size && count <= |log|
      requires forall k :: 0 <= k < count ==> Shows(k)
      ensures out == Newest(log, |log|, count, q, sinceID, most)
    {
      out := [];
      var idx, seen := NewestIndex(), 0;
      ghost var n, depth, answer := |log|, count, Newest(log, |log|, count, q, sinceID, most);
      while seen < count && |out| < most
        invariant seen <= count && |out| <= most
        invariant seen < size ==> idx == Slot(seen)
        invariant n == |log| - seen && depth == count - seen
        invariant Leads(out, log, n, depth, q, sinceID, most, answer)
      {
        assert Shows(seen);
        SlotStep(seen);
        var it := buf[idx];
        LeadsOn(out, log, n, depth, q, sinceID, most, answer);
        n, depth := n - 1, depth - 1;
        if !Matches(it, q, sinceID) {
          seen := seen + 1;
          idx := PrevIndex(idx);
          continue;
        }
        out := out + [it];
        seen := seen + 1;
        idx := PrevIndex(idx);
      }
      LeadsEnd(out, log, n, depth, q, sinceID, most, answer);
    }
  }

  /** What a walk has collected, with what it still has to find among the first `n` entries, is
      the answer. */
  ghost predicate Leads(out: seq<Entry>, log: seq<Entry>, n: int, depth: int, q: string, sinceID: int, most: nat, answer: seq<Entry>) {
    0 <= n <= |log| && 0 <= depth && |out| <= most && out + Newest(log, n, depth, q, sinceID, most - |out|) == answer
  }

  lemma LeadsEnd(out: seq<Entry>, log: seq<Entry>, n: nat, depth: nat, q: string, sinceID: int, most: nat, answer: seq<Entry>)
    requires Leads(out, log, n, depth, q, sinceID, most, answer) && (depth == 0 || |out| == most)
    ensures out == answer
  {
  }

  lemma LeadsOn(out: seq<Entry>, log: seq<Entry>, n: nat, depth: nat, q: string, sinceID: int, most: nat, answer: seq<Entry>)
    requires Leads(out, log, n, depth, q, sinceID, most, answer) && n > 0 && depth > 0 && |out| < most
    ensures if Matches(log[n - 1], q, sinceID) then Leads(out + [log[n - 1]], log, n - 1, depth - 1, q, sinceID, most, answer)
            else Leads(out, log, n - 1, depth - 1, q, sinceID, most, answer)
  {
  }

  lemma WrapForward(head: nat, size: nat)
    requires head < size
    ensures (head + 1) % size == if head + 1 == size then 0 else head + 1
  {
  }

  lemma WrapBack(head: nat, size: nat)
    requires head < size
    ensures (head - 1 + size) % size == if head == 0 then size - 1 else head - 1
  {
  }

  lemma {:induction false} DepthCapped(log: seq<Entry>, n: nat, depth: nat, q: string, sinceID: int, limit: nat)
    requires n <= |log|
    ensures Newest(log, n, depth, q, sinceID, limit) ==
            Newest(log, n, if n < depth then n else depth, q, sinceID, limit)
    decreases n
  {
    if depth != 0 && n != 0 && limit != 0 {
      DepthCapped(log, n - 1, depth - 1, q, sinceID, limit - 1);
      DepthCapped(log, n - 1, depth - 1, q, sinceID, limit);
    }
  }

  // ---------------------------------------------------------------- what a query returns

  /** A query returns only matches among the last `depth` entries, in strictly descending order,
      and at most `limit` of them. */
  lemma {:induction false} AnswerSound(log: seq<Entry>, n: nat, depth: nat, q: string, sinceID: int, limit: nat)
    requires Numbered(log) && n <= |log|
    ensures var out := Newest(log, n, depth, q, sinceID, limit);
            && |out| <= limit && |out| <= depth
            && (forall i :: 0 <= i < |out| ==> out[i] in log && n - depth < out[i].id <= n && Matches(out[i], q, sinceID))
            && (forall i, j :: 0 <= i < j < |out| ==> out[i].id > out[j].id)
    decreases n
  {
    if depth != 0 && n != 0 && limit != 0 {
      AnswerSound(log, n - 1, depth - 1, q, sinceID, if Matches(log[n - 1], q, sinceID) then limit - 1 else limit);
    }
  }

  /** A match among the last `depth` entries that a query does not return was crowded out by
      `limit` newer ones. */
  lemma {:induction false} AnswerComplete(log: seq<Entry>, n: nat, depth: nat, q: string, sinceID: int, limit: nat, k: nat)
    requires Numbered(log) && k < n <= |log| && n - depth <= k && Matches(log[k], q, sinceID)
    ensures var out := Newest(log, n, depth, q, sinceID, limit);
            log[k] in out || (|out| == limit && forall i :: 0 <= i < |out| ==> out[i].id > k + 1)
    decreases n
  {
    if limit != 0 && k < n - 1 {
      AnswerComplete(log, n - 1, depth - 1, q, sinceID, if Matches(log[n - 1], q, sinceID) then limit - 1 else limit, k);
    }
  }

  /** The matches among entries `from..n`, newest first. */
  ghost function MatchesIn(log: seq<Entry>, from: nat, n: nat, q: string): seq<Entry>
    requires from <= n <= |log|
    decreases n
  {
    if n == from then []
    else (if Matches(log[n - 1], q, 0) then [log[n - 1]] else []) + MatchesIn(log, from, n - 1, q)
  }

  /** A poller that passes the last ID it has seen receives exactly the matching entries
      inserted since, provided no more were inserted than the ring holds and no more match
      than it asked for. */
  lemma {:induction false} PollerMissesNothing(log: seq<Entry>, sinceID: nat, n: nat, size: nat, q: string, limit: nat)
    requires Numbered(log) && sinceID <= n <= |log|
    requires n - sinceID <= size && |MatchesIn(log, sinceID, n, q)| <= limit
    ensures Newest(log, n, size, q, sinceID, limit) == MatchesIn(log, sinceID, n, q)
    decreases n
  {
    if n == sinceID {
      NothingNew(log, n, size, q, sinceID, limit);
    } else {
      var last := log[n - 1];
      assert Matches(last, q, sinceID) <==> Matches(last, q, 0);
      if limit != 0 {
        PollerMissesNothing(log, sinceID, n - 1, size - 1, q, if Matches(last, q, 0) then limit - 1 else limit);
      }
    }
  }

  /** Nothing is returned past the last ID of the log. In particular a poller that keeps its ID
      across a Clear, which restarts the numbering, sees nothing until the numbers catch up. */
  lemma {:induction false} NothingNew(log: seq<Entry>, n: nat, size: nat, q: string, sinceID: nat, limit: nat)
    requires Numbered(log) && n <= |log| && n <= sinceID
    ensures Newest(log, n, size, q, sinceID, limit) == []
    decreases n
  {
    if size != 0 && n != 0 && limit != 0 {
      NothingNew(log, n - 1, size - 1, q, sinceID, limit);
    }
  }

  /** After a clear, exactly: with the new log within the ring and the limit, a poller that kept its
      ID receives every match if and only if it kept none, or nothing matches among the entries
      that have been given its ID or a smaller one again. */
  lemma AfterClearExactly(log: seq<Entry>, sinceID: int, size: nat, q: string, limit: nat)
    requires Numbered(log) && |log| <= size && |log| <= limit
    ensures (forall k :: 0 <= k < |log| && Matches(log[k], q, 0) ==> log[k] in Answer(log, size, q, sinceID, limit)) <==>
            sinceID <= 0 || forall k :: 0 <= k < |log| && k < sinceID ==> !Matches(log[k], q, 0)
  {
    var out := Answer(log, size, q, sinceID, limit);
    AnswerSound(log, |log|, size, q, sinceID, limit);
    forall k | 0 <= k < |log| && Matches(log[k], q, sinceID) ensures log[k] in out {
      AnswerComplete(log, |log|, size, q, sinceID, limit, k);
      if log[k] !in out { TooMany(out, k + 1, |log|); }
    }
    forall k | 0 <= k < |log| && log[k] in out ensures Matches(log[k], q, sinceID) {}
  }

  /** In particular, without a text filter: if and only if it kept no ID or nothing was inserted. */
  lemma AfterClearUnfiltered(log: seq<Entry>, sinceID: int, size: nat, limit: nat)
    requires Numbered(log) && |log| <= size && |log| <= limit
    ensures (forall k :: 0 <= k < |log| ==> log[k] in Answer(log, size, "", sinceID, limit)) <==> sinceID <= 0 || log == []
  {
    AfterClearExactly(log, sinceID, size, "", limit);
    if sinceID > 0 && log != [] { assert Matches(log[0], "", 0); }
  }

  /** Without a text filter the condition is exact: everything new arrives if and only if no
      more than `size` and no more than `limit` entries were inserted in between. */
  lemma PollerExact(log: seq<Entry>, sinceID: nat, size: nat, limit: nat)
    requires Numbered(log) && sinceID <= |log|
    ensures (forall k :: sinceID <= k < |log| ==> log[k] in Answer(log, size, "", sinceID, limit)) <==>
            |log| - sinceID <= size && |log| - sinceID <= limit
  {
    var out := Answer(log, size, "", sinceID, limit);
    AnswerSound(log, |log|, size, "", sinceID, limit);
    if |log| - sinceID <= size && |log| - sinceID <= limit {
      forall k | sinceID <= k < |log| ensures log[k] in out {
        AnswerComplete(log, |log|, size, "", sinceID, limit, k);
        if log[k] !in out { TooMany(out, k + 1, |log|); }
      }
    } else if forall k :: sinceID <= k < |log| ==> log[k] in out {
      forall id: nat | sinceID < id <= |log| ensures HasId(out, id) { assert log[id - 1] in out && log[id - 1].id == id; }
      Covers(out, sinceID, |log|);
    }
  }

  ghost predicate HasId(out: seq<Entry>, id: nat) { exists i :: 0 <= i < |out| && out[i].id == id }

  lemma {:induction false} Covers(out: seq<Entry>, low: nat, high: nat)
    requires low <= high && forall i, j :: 0 <= i < j < |out| ==> out[i].id > out[j].id
    requires (forall i :: 0 <= i < |out| ==> out[i].id <= high) && forall id: nat :: low < id <= high ==> HasId(out, id)
    ensures |out| >= high - low
    decreases |out|
  {
    if low < high {
      assert HasId(out, high);
      assert out[0].id == high;
      forall id: nat | low < id <= high - 1 ensures HasId(out[1..], id) {
        assert HasId(out, id);
        var i :| 0 <= i < |out| && out[i].id == id;
        assert out[1..][i - 1] == out[i];
      }
      Covers(out[1..], low, high - 1);
    }
  }

  /** Strictly descending numbers above `low` and up to `high` are at most `high - low` many. */
  lemma {:induction false} TooMany(out: seq<Entry>, low: nat, high: nat)
    requires forall i, j :: 0 <= i < j < |out| ==> out[i].id > out[j].id
    requires forall i :: 0 <= i < |out| ==> low < out[i].id <= high
    ensures |out| <= if low <= high then high - low else 0
    decreases |out|
  {
    if out != [] { TooMany(out[1..], low, out[0].id - 1); }
  }
}

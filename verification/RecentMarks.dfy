/** The two time-pruned maps: the notifier's backoff map (internal/alerting/notifier.go) and the
    synthetic-flow map (internal/actions/flow.go). Each answers from a pruned map what the full
    history of its calls says. */
module RecentMarks {

  type Time = real

  datatype Mark = Mark(key: string, at: Time)

  ghost predicate Last(marks: seq<Mark>, key: string, at: Time) {
    Mark(key, at) in marks && forall j :: 0 <= j < |marks| && marks[j].key == key ==> marks[j].at <= at
  }

  /** The map holds the last mark of each of its keys, and every mark whose key it lacks is
      older than `slack`. */
  ghost predicate Keeps(m: map<string, Time>, marks: seq<Mark>, slack: real, clock: Time) {
    && (forall k :: k in m ==> Last(marks, k, m[k]))
    && (forall j :: 0 <= j < |marks| ==> marks[j].at <= clock && (marks[j].key in m || clock - marks[j].at > slack))
  }

  lemma KeepsAfterMark(m: map<string, Time>, marks: seq<Mark>, slack: real, clock: Time, key: string, now: Time)
    requires Keeps(m, marks, slack, clock) && clock <= now
    ensures Keeps(m[key := now], marks + [Mark(key, now)], slack, now)
  {
  }

  lemma KeepsAfterPrune(m: map<string, Time>, pruned: map<string, Time>, marks: seq<Mark>, slack: real, clock: Time, now: Time)
    requires Keeps(m, marks, slack, clock) && clock <= now
    requires forall k :: k in pruned ==> k in m && pruned[k] == m[k]
    requires forall k :: k in m && k !in pruned ==> m[k] < now - slack
    ensures Keeps(pruned, marks, slack, now)
  {
  }

  function Recent(m: map<string, Time>, cutoff: Time): map<string, Time> {
    map k | k in m && cutoff <= m[k] :: m[k]
  }

  /** Drops what lies before the cutoff, in whatever order the map is walked. */
  method DropBefore(m: map<string, Time>, cutoff: Time) returns (pruned: map<string, Time>)
    ensures pruned == Recent(m, cutoff)
  {
    pruned := m;
    var pending := m.Keys;
    while pending != {}
      invariant pending <= pruned.Keys <= m.Keys
      invariant forall k :: k in pruned ==> pruned[k] == m[k]
      invariant forall k :: k in m && k !in pending ==> (k in pruned <==> cutoff <= m[k])
      decreases |pending|
    {
      var k :| k in pending;
      pending := pending - {k};
      if pruned[k] < cutoff { pruned := pruned - {k}; }
    }
  }

  /** Alerts sent for one connection key are kept `backoff` apart. */
  class Notifier {
    const backoff: real
    var recentAlerts: map<string, Time>
    ghost var sent: seq<Mark>
    ghost var clock: Time

    ghost predicate Valid()
      reads this
    {
      backoff > 0.0 && Keeps(recentAlerts, sent, 2.0 * backoff, clock)
    }

    constructor (backoff: real, now: Time)
      requires backoff > 0.0
      ensures Valid() && sent == [] && clock == now && this.backoff == backoff
    {
      this.backoff, recentAlerts, sent, clock := backoff, map[], [], now;
    }

    /** shouldSendAlert: yes exactly when no alert for the key was sent within the backoff period,
        counting every alert ever sent. */
    method ShouldSendAlert(key: string, now: Time) returns (send: bool)
      requires Valid() && clock <= now
      modifies this
      ensures Valid() && clock == now
      ensures send <==> forall j :: 0 <= j < |old(sent)| && old(sent)[j].key == key ==> now - old(sent)[j].at >= backoff
      ensures sent == if send then old(sent) + [Mark(key, now)] else old(sent)
      ensures var kept := Recent(old(recentAlerts), now - 2.0 * backoff);
              recentAlerts == if send then kept[key := now] else kept
    {
      CleanupOldAlerts(now);
      if key in recentAlerts {
        assert Last(sent, key, recentAlerts[key]);
        if now - recentAlerts[key] < backoff {
          ghost var j :| 0 <= j < |sent| && sent[j] == Mark(key, recentAlerts[key]);
          return false;
        }
      }
      KeepsAfterMark(recentAlerts, sent, 2.0 * backoff, clock, key, now);
      recentAlerts := recentAlerts[key := now];
      sent := sent + [Mark(key, now)];
      send := true;
    }

    /** cleanupOldAlerts */
    method CleanupOldAlerts(now: Time)
      requires Valid() && clock <= now
      modifies this`recentAlerts, this`clock
      ensures Valid() && clock == now && recentAlerts == Recent(old(recentAlerts), now - 2.0 * backoff)
      ensures forall k :: k in recentAlerts <==> k in old(recentAlerts) && now - old(recentAlerts)[k] <= 2.0 * backoff
    {
      var pruned := DropBefore(recentAlerts, now - 2.0 * backoff);
      KeepsAfterPrune(recentAlerts, pruned, sent, 2.0 * backoff, clock, now);
      recentAlerts, clock := pruned, now;
    }
  }

  const SUPPRESS_WINDOW := 5.0
  const PRUNE_INTERVAL := 64

  /** Flows for which a synthetic event was logged, remembered so that the kernel's own event
      for the same flow can be suppressed. */
  class SyntheticFlows {
    var m: map<string, Time>
    var writes: nat
    ghost var marks: seq<Mark>
    ghost var clock: Time

    ghost predicate Valid()
      reads this
    {
      writes < PRUNE_INTERVAL && Keeps(m, marks, 4.0 * SUPPRESS_WINDOW, clock)
    }

    constructor (now: Time)
      ensures Valid() && marks == [] && clock == now
    {
      m, writes, marks, clock := map[], 0, [], now;
    }

    /** MarkSynthetic reads the clock once for the mark and again for the cutoff. */
    method MarkSynthetic(flow: string, now: Time, again: Time)
      requires Valid() && clock <= now <= again
      modifies this
      ensures Valid() && clock <= again
      ensures marks == if flow == "" then old(marks) else old(marks) + [Mark(flow, now)]
      ensures flow == "" ==> m == old(m) && writes == old(writes)
      ensures flow != "" && old(writes) + 1 < 64 ==> m == old(m)[flow := now] && writes == old(writes) + 1
      ensures flow != "" && old(writes) + 1 == 64 ==> m == Recent(old(m)[flow := now], again - 20.0) && writes == 0
      ensures flow != "" && old(writes) + 1 == 64 ==>
                forall k :: k in m <==> (k == flow && again - now <= 20.0) || (k != flow && k in old(m) && again - old(m)[k] <= 20.0)
    {
      if flow == "" { return; }
      var marked := m[flow := now];
      KeepsAfterMark(m, marks, 4.0 * SUPPRESS_WINDOW, clock, flow, now);
      m, marks, clock := marked, marks + [Mark(flow, now)], now;
      writes := writes + 1;
      if writes >= PRUNE_INTERVAL {
        writes := 0;
        var pruned := DropBefore(marked, again - SUPPRESS_WINDOW * 4.0);
        KeepsAfterPrune(marked, pruned, marks, 4.0 * SUPPRESS_WINDOW, now, again);
        m, clock := pruned, again;
      }
    }

    /** IsSyntheticRecent: yes exactly when the flow was ever marked within the window. */
    method IsSyntheticRecent(flow: string, now: Time) returns (recent: bool)
      requires Valid() && clock <= now
      ensures recent <==> flow != "" && exists j :: 0 <= j < |marks| && marks[j].key == flow && now - marks[j].at <= 5.0
    {
      if flow == "" { return false; }
      if flow in m {
        assert Last(marks, flow, m[flow]);
        recent := now - m[flow] <= SUPPRESS_WINDOW;
        if recent { ghost var j :| 0 <= j < |marks| && marks[j] == Mark(flow, m[flow]); }
        return;
      }
      recent := false;
    }
  }
}

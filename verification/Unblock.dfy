/** Remote unblocking, the two ends: the dashboard's request store (internal/dashboard/unblock.go),
    and the instance that applies requests to its policy file (internal/g0efilter/app.go,
    internal/policy/policy.go). */
module Unblock {
  import opened GoStrings
  import opened Sequences
  import opened Streams

  // ---------------------------------------------------------------- the request store

  datatype Request = Request(id: string, kind: string, value: string, target: string)

  datatype Completed = Completed(kind: string, value: string, target: string)

  const MAX_PENDING := 1000
  const MAX_COMPLETED := 100

  datatype Store = Store(requests: map<string, Request>, completed: seq<Completed>)

  function HostName(raw: string): string { ToLower(TrimSpace(raw)) }

  predicate Asks(r: Request, kind: string, value: string, target: string) {
    r.kind == kind && r.value == value && r.target == target
  }

  /** Every request is filed under its own ID. */
  ghost predicate Keyed(m: map<string, Request>) { forall id :: id in m ==> m[id].id == id }

  ghost predicate Wellformed(s: Store) {
    && Keyed(s.requests)
    && (forall a, b :: a in s.requests && b in s.requests && a != b ==>
          !Asks(s.requests[a], s.requests[b].kind, s.requests[b].value, s.requests[b].target))
    && |s.requests| <= MAX_PENDING
    && |s.completed| <= MAX_COMPLETED
  }

  ghost predicate Duplicate(s: Store, kind: string, value: string, target: string) {
    exists id :: id in s.requests && Asks(s.requests[id], kind, value, target)
  }

  /** What Add makes of the store and answers, with the random ID it would draw. */
  ghost predicate Adds(s: Store, kind: string, value: string, rawTarget: string, drawn: string, s': Store, id: string) {
    var target := HostName(rawTarget);
    if Duplicate(s, kind, value, target) then
      s' == s && id in s.requests && Asks(s.requests[id], kind, value, target)
    else if |s.requests| >= MAX_PENDING then s' == s && id == ""
    else id == drawn && s' == s.(requests := s.requests[drawn := Request(drawn, kind, value, target)])
  }

  function LastHundred(c: seq<Completed>): seq<Completed> {
    if |c| > MAX_COMPLETED then c[|c| - MAX_COMPLETED..] else c
  }

  function Acked(s: Store, id: string): Store {
    if id !in s.requests then s
    else
      var r := s.requests[id];
      Store(s.requests - {id}, LastHundred(s.completed + [Completed(r.kind, r.value, r.target)]))
  }

  predicate Visible(r: Request, hostname: string) { r.target == "" || r.target == HostName(hostname) }

  /** Of the requests with the given IDs, the result lists those for all hosts or for this one,
      each once. */
  ghost predicate Selects(m: map<string, Request>, ids: set<string>, hostname: string, result: seq<Request>) {
    && (forall id :: id in ids && id in m && Visible(m[id], hostname) ==> m[id] in result)
    && (forall i :: 0 <= i < |result| ==>
          result[i].id in ids && result[i].id in m && result[i] == m[result[i].id] && Visible(result[i], hostname))
    && (forall i, j :: 0 <= i < j < |result| ==> result[i].id != result[j].id)
  }

  lemma SelectsOneMore(m: map<string, Request>, ids: set<string>, hostname: string, result: seq<Request>, id: string)
    requires Selects(m, ids, hostname, result) && id in m && id !in ids && m[id].id == id
    ensures Selects(m, ids + {id}, hostname, if Visible(m[id], hostname) then result + [m[id]] else result)
  {
  }

  class UnblockStore {
    var requests: map<string, Request>
    var completed: seq<Completed>

    ghost function View(): Store
      reads this
    {
      Store(requests, completed)
    }

    constructor ()
      ensures View() == Store(map[], []) && Wellformed(View())
    {
      requests, completed := map[], [];
    }

    /** Add: the map is searched in whatever order it is walked. */
    method Add(kind: string, value: string, rawTarget: string, drawn: string) returns (id: string)
      requires Wellformed(View()) && drawn !in requests
      modifies this`requests
      ensures Wellformed(View()) && Adds(old(View()), kind, value, rawTarget, drawn, View(), id)
      // nobody has asked for the same and there is room: a new request, its target normalized
      ensures var target := ToLower(TrimSpace(rawTarget));
              var asked := exists k :: k in old(requests) && old(requests)[k] == Request(k, kind, value, target);
              && (asked ==> requests == old(requests) && id in requests && requests[id] == Request(id, kind, value, target))
              && (!asked && |old(requests)| >= 1000 ==> requests == old(requests) && id == "")
              && (!asked && |old(requests)| < 1000 ==>
                    id == drawn && requests == old(requests)[drawn := Request(drawn, kind, value, target)])
    {
      var target := HostName(rawTarget);
      var pending := requests.Keys;
      while pending != {}
        invariant pending <= requests.Keys
        invariant forall k :: k in requests && k !in pending ==> !Asks(requests[k], kind, value, target)
        decreases |pending|
      {
        var k :| k in pending;
        pending := pending - {k};
        if Asks(requests[k], kind, value, target) { return requests[k].id; }
      }
      if |requests| >= MAX_PENDING { return ""; }
      id := drawn;
      SizeAfterAdd(requests, id, Request(id, kind, value, target));
      requests := requests[id := Request(id, kind, value, target)];
    }

    method GetPendingForHost(hostname: string) returns (result: seq<Request>)
      requires Keyed(requests)
      ensures Selects(requests, requests.Keys, hostname, result)
      // a request is seen by the host it names, up to letter case and surrounding blanks, or by all
      ensures forall id :: id in requests ==>
                (requests[id] in result <==> requests[id].target == "" || requests[id].target == ToLower(TrimSpace(hostname)))
    {
      result := [];
      var all, pending := requests, requests.Keys;
      ghost var done := {};
      while pending != {}
        invariant done == all.Keys - pending && pending <= all.Keys
        invariant Selects(all, done, hostname, result)
        decreases |pending|
      {
        var id :| id in pending;
        SelectsOneMore(all, done, hostname, result, id);
        pending, done := pending - {id}, done + {id};
        if Visible(all[id], hostname) { result := result + [all[id]]; }
      }
      assert done == all.Keys;
    }

    method Acknowledge(id: string) returns (ok: bool)
      requires Wellformed(View())
      modifies this
      ensures ok <==> id in old(requests)
      ensures Wellformed(View()) && View() == Acked(old(View()), id)
      // the request goes, and of the completions the last hundred stay
      ensures ok ==>
                var r := old(requests)[id];
                var all := old(completed) + [Completed(r.kind, r.value, r.target)];
                requests == old(requests) - {id} && completed == if |all| > 100 then all[|all| - 100..] else all
    {
      ok := id in requests;
      if ok {
        var req := requests[id];
        SizeAfterRemove(requests, id);
        completed := completed + [Completed(req.kind, req.value, req.target)];
        requests := requests - {id};
        if |completed| > MAX_COMPLETED { completed := completed[|completed| - MAX_COMPLETED..]; }
      }
    }

    method GetCompleted() returns (result: seq<Completed>)
      ensures result == completed
    {
      result := completed;
    }
  }

  lemma SizeAfterAdd(m: map<string, Request>, id: string, r: Request)
    ensures |m[id := r]| <= |m| + 1
  {
  }

  lemma SizeAfterRemove(m: map<string, Request>, id: string)
    requires id in m
    ensures |m - {id}| == |m| - 1
  {
  }

  // ---------------------------------------------------------------- the policy file

  datatype Lists = Lists(ips: seq<string>, domains: seq<string>)

  datatype Config = Config(defaultAction: string, allow: Lists, deny: Lists)

  /** Which values the validators accept; they rest on IDNA and address parsing. */
  datatype Rules = Rules(domain: string -> bool, ip: string -> bool)

  predicate EqualFold(a: string, b: string) { ToLower(a) == ToLower(b) }

  predicate HasDomain(domains: seq<string>, value: string) { exists i :: 0 <= i < |domains| && EqualFold(domains[i], value) }

  datatype Kind = Domain | IP

  function KindOf(kind: string): Option<Kind> {
    if kind == "domain" then Some(Domain) else if kind == "ip" then Some(IP) else None
  }

  predicate Includes(l: Lists, k: Kind, value: string) {
    match k case Domain => HasDomain(l.domains, value) case IP => value in l.ips
  }

  function Extended(l: Lists, k: Kind, value: string): Lists {
    match k
    case Domain => l.(domains := l.domains + [value])
    case IP => l.(ips := l.ips + [value])
  }

  /** The allowlist is what one more value makes of it, unless it has the value. */
  function Appended(c: Config, k: Kind, value: string): Config {
    if Includes(c.allow, k, value) then c else c.(allow := Extended(c.allow, k, value))
  }

  predicate Acceptable(rules: Rules, k: Kind, raw: string) {
    TrimSpace(raw) != "" && match k case Domain => rules.domain(TrimSpace(raw)) case IP => rules.ip(TrimSpace(raw))
  }

  /** The policy file's content: a configuration, or something that cannot be loaded. */
  datatype File = Parsed(config: Config) | Broken

  /** os.WriteFile truncates before it writes: a write is whole, is refused before anything has
      happened, or is torn and leaves anything. The last two are reported as errors. */
  datatype Write = Whole | Refused | Torn(left: File)

  /** How the disk will behave. */
  datatype Disk = Disk(readable: bool, write: Write)

  predicate Holds(f: File, k: Kind, value: string) { f.Parsed? && Includes(f.config.allow, k, value) }

  /** appendToAllowlist on the file's content: the new content, and whether that succeeded. */
  function AppendedFile(f: File, k: Kind, value: string, disk: Disk): (File, bool) {
    if !disk.readable || f.Broken? then (f, false)
    else if Includes(f.config.allow, k, value) then (f, true)
    else match disk.write
      case Whole => (Parsed(Appended(f.config, k, value)), true)
      case Refused => (f, false)
      case Torn(left) => (left, false)
  }

  /** AppendDomain or AppendIP. */
  function Append(rules: Rules, f: File, k: Kind, raw: string, disk: Disk): (File, bool) {
    if Acceptable(rules, k, raw) then AppendedFile(f, k, TrimSpace(raw), disk) else (f, false)
  }

  /** What a write makes of the allowlist: a domain that is listed in any letter case, or an address
      that is listed, is not added again; any other goes to the end. */
  lemma AddsAtEnd(f: File, k: Kind, value: string)
    requires f.Parsed?
    ensures var allow, r := f.config.allow, AppendedFile(f, k, value, Disk(true, Whole));
            match k
            case Domain =>
              r == (if exists i :: 0 <= i < |allow.domains| && ToLower(allow.domains[i]) == ToLower(value) then (f, true)
                    else (Parsed(f.config.(allow := Lists(allow.ips, allow.domains + [value]))), true))
            case IP =>
              r == (if value in allow.ips then (f, true)
                    else (Parsed(f.config.(allow := Lists(allow.ips + [value], allow.domains))), true))
  {
    if k.Domain? && exists i :: 0 <= i < |f.config.allow.domains| && ToLower(f.config.allow.domains[i]) == ToLower(value) {
      var i :| 0 <= i < |f.config.allow.domains| && ToLower(f.config.allow.domains[i]) == ToLower(value);
      assert EqualFold(f.config.allow.domains[i], value);
    }
    if k.Domain? && HasDomain(f.config.allow.domains, value) {
      var i :| 0 <= i < |f.config.allow.domains| && EqualFold(f.config.allow.domains[i], value);
      assert ToLower(f.config.allow.domains[i]) == ToLower(value);
    }
  }

  class PolicyFile {
    const rules: Rules
    var content: File

    constructor (rules: Rules, content: File)
      ensures this.rules == rules && this.content == content
    {
      this.rules, this.content := rules, content;
    }

    method AppendDomain(domain: string, disk: Disk) returns (ok: bool)
      modifies this
      ensures (content, ok) == Append(rules, old(content), Domain, domain, disk)
    {
      var value := TrimSpace(domain);
      if value == "" || !rules.domain(value) { return false; }
      ok := AppendToAllowlist(Domain, value, disk);
    }

    method AppendIP(ip: string, disk: Disk) returns (ok: bool)
      modifies this
      ensures (content, ok) == Append(rules, old(content), IP, ip, disk)
    {
      var value := TrimSpace(ip);
      if value == "" || !rules.ip(value) { return false; }
      ok := AppendToAllowlist(IP, value, disk);
    }

    /** appendToAllowlist: load, look for the value, extend, write back. */
    method AppendToAllowlist(k: Kind, value: string, disk: Disk) returns (ok: bool)
      modifies this
      ensures (content, ok) == AppendedFile(old(content), k, value, disk)
    {
      if !disk.readable || content.Broken? { return false; }
      var cfg := content.config;
      match k {
        case Domain =>
          for i := 0 to |cfg.allow.domains|
            invariant forall j :: 0 <= j < i ==> !EqualFold(cfg.allow.domains[j], value)
          {
            if EqualFold(cfg.allow.domains[i], value) { return true; }
          }
          cfg := cfg.(allow := cfg.allow.(domains := cfg.allow.domains + [value]));
        case IP =>
          if value in cfg.allow.ips { return true; }
          cfg := cfg.(allow := cfg.allow.(ips := cfg.allow.ips + [value]));
      }
      ok := WriteFile(cfg, disk);
    }

    /** os.WriteFile */
    method WriteFile(cfg: Config, disk: Disk) returns (ok: bool)
      modifies this
      ensures (content, ok) == match disk.write
                               case Whole => (Parsed(cfg), true)
                               case Refused => (old(content), false)
                               case Torn(left) => (left, false)
    {
      match disk.write {
        case Whole => content, ok := Parsed(cfg), true;
        case Refused => ok := false;
        case Torn(left) => content, ok := left, false;
      }
    }
  }

  /** A successful append leaves everything but the one list alone, keeps every entry, and
      afterwards the value is listed; doing it again changes nothing. */
  lemma AppendKeeps(rules: Rules, f: File, k: Kind, raw: string, disk: Disk, again: Disk)
    requires Append(rules, f, k, raw, disk).1
    ensures var d := Append(rules, f, k, raw, disk).0;
            && f.Parsed? && d.Parsed?
            && d.config.defaultAction == f.config.defaultAction && d.config.deny == f.config.deny
            && f.config.allow.ips <= d.config.allow.ips && f.config.allow.domains <= d.config.allow.domains
            && Holds(d, k, TrimSpace(raw))
            && (again.readable ==> Append(rules, d, k, raw, again) == (d, true))
  {
    var d, value := Append(rules, f, k, raw, disk).0, TrimSpace(raw);
    if !Includes(f.config.allow, k, value) {
      match k
      case Domain => assert d.config.allow.domains[|f.config.allow.domains|] == value;
      case IP =>
    }
  }

  // ---------------------------------------------------------------- one poll

  /** The request is in effect in the allowlist. */
  ghost predicate InEffect(f: File, r: Request) {
    KindOf(r.kind).Some? && Holds(f, KindOf(r.kind).value, TrimSpace(r.value))
  }

  /** applyUnblock */
  function Apply(rules: Rules, f: File, r: Request, disk: Disk): (File, bool) {
    match KindOf(r.kind)
    case Some(k) => Append(rules, f, k, r.value, disk)
    case None => (f, false)
  }

  /** A domain goes among the domains, an address among the addresses, and nothing else is applied. */
  lemma AppliedByKind(rules: Rules, f: File, r: Request, disk: Disk)
    requires Apply(rules, f, r, disk).1
    ensures var value, d := TrimSpace(r.value), Apply(rules, f, r, disk).0;
            && value != "" && f.Parsed? && d.Parsed?
            && if r.kind == "domain" then
                 && rules.domain(value) && d.config.allow.ips == f.config.allow.ips
                 && exists i :: 0 <= i < |d.config.allow.domains| && ToLower(d.config.allow.domains[i]) == ToLower(value)
               else
                 r.kind == "ip" && rules.ip(value) && d.config.allow.domains == f.config.allow.domains && value in d.config.allow.ips
  {
    AppendKeeps(rules, f, KindOf(r.kind).value, r.value, disk, disk);
  }

  /** A request that can be applied is applied when the disk works. */
  lemma GoodIsApplied(rules: Rules, f: File, r: Request, disk: Disk)
    requires f.Parsed? && disk.readable && disk.write.Whole? && TrimSpace(r.value) != ""
    requires (r.kind == "domain" && rules.domain(TrimSpace(r.value))) || (r.kind == "ip" && rules.ip(TrimSpace(r.value)))
    ensures Apply(rules, f, r, disk).1
  {
  }

  /** What an instance does in a poll, in order. */
  datatype Effect = Applied(r: Request, file: File) | Failed(r: Request, file: File) | Confirmed(id: string)

  /** One turn of processUnblockBatch: a request that cannot be applied is passed over, any other
      is acknowledged once it has been applied. */
  function Turn(rules: Rules, f: File, r: Request, disk: Disk): (File, seq<Effect>) {
    var (f', ok) := Apply(rules, f, r, disk);
    (f', if ok then [Applied(r, f'), Confirmed(r.id)] else [Failed(r, f')])
  }

  function Batch(rules: Rules, f: File, batch: seq<Request>, disks: seq<Disk>): (File, seq<Effect>)
    requires |disks| == |batch|
    decreases |batch|
  {
    if batch == [] then (f, [])
    else
      var n := |batch| - 1;
      var (front, effects) := Batch(rules, f, batch[..n], disks[..n]);
      var (last, more) := Turn(rules, front, batch[n], disks[n]);
      (last, effects + more)
  }

  /** The poller's journal. */
  class Journal {
    var effects: seq<Effect>

    constructor ()
      ensures effects == []
    {
      effects := [];
    }

    method Do(e: Effect)
      modifies this
      ensures effects == old(effects) + [e]
    {
      effects := effects + [e];
    }
  }

  method ApplyUnblock(file: PolicyFile, journal: Journal, ub: Request, disk: Disk) returns (ok: bool)
    modifies file, journal
    ensures (file.content, ok) == Apply(file.rules, old(file.content), ub, disk)
    ensures journal.effects == old(journal.effects) + [if ok then Applied(ub, file.content) else Failed(ub, file.content)]
  {
    if ub.kind == "domain" {
      ok := file.AppendDomain(ub.value, disk);
    } else if ub.kind == "ip" {
      ok := file.AppendIP(ub.value, disk);
    } else {
      ok := false;
    }
    journal.Do(if ok then Applied(ub, file.content) else Failed(ub, file.content));
  }

  /** acknowledgeUnblock puts the acknowledgement on the wire; whether it arrives changes nothing
      here. */
  method AcknowledgeUnblock(journal: Journal, id: string)
    modifies journal
    ensures journal.effects == old(journal.effects) + [Confirmed(id)]
  {
    journal.Do(Confirmed(id));
  }

  method ProcessUnblockBatch(file: PolicyFile, journal: Journal, unblocks: seq<Request>, disks: seq<Disk>)
    requires |disks| == |unblocks|
    modifies file, journal
    ensures file.content == Batch(file.rules, old(file.content), unblocks, disks).0
    ensures journal.effects == old(journal.effects) + Batch(file.rules, old(file.content), unblocks, disks).1
  {
    ghost var start, f := journal.effects, file.content;
    for i := 0 to |unblocks|
      invariant file.content == Batch(file.rules, f, unblocks[..i], disks[..i]).0
      invariant journal.effects == start + Batch(file.rules, f, unblocks[..i], disks[..i]).1
    {
      BatchStep(file.rules, f, unblocks, disks, i);
      ghost var before, turn := journal.effects, Turn(file.rules, file.content, unblocks[i], disks[i]);
      Assoc(start, Batch(file.rules, f, unblocks[..i], disks[..i]).1, turn.1);
      var ok := ApplyUnblock(file, journal, unblocks[i], disks[i]);
      if !ok { continue; }
      AcknowledgeUnblock(journal, unblocks[i].id);
      assert journal.effects == before + turn.1;
    }
    assert unblocks[..|unblocks|] == unblocks && disks[..|unblocks|] == disks;
  }

  lemma BatchStep(rules: Rules, f: File, batch: seq<Request>, disks: seq<Disk>, i: nat)
    requires |disks| == |batch| && i < |batch|
    ensures var before, turn := Batch(rules, f, batch[..i], disks[..i]), Turn(rules, Batch(rules, f, batch[..i], disks[..i]).0, batch[i], disks[i]);
            Batch(rules, f, batch[..i + 1], disks[..i + 1]) == (turn.0, before.1 + turn.1)
  {
    assert batch[..i + 1][..i] == batch[..i] && disks[..i + 1][..i] == disks[..i];
  }

  /** Every acknowledgement comes right after its request was applied, when the value stands in
      the file; and every applied request is acknowledged. */
  lemma {:induction false} AckFollowsApply(rules: Rules, f: File, batch: seq<Request>, disks: seq<Disk>, i: nat)
    requires |disks| == |batch| && i < |Batch(rules, f, batch, disks).1|
    ensures var effects := Batch(rules, f, batch, disks).1;
            && (effects[i].Confirmed? ==>
                  i > 0 && effects[i - 1].Applied? && effects[i - 1].r.id == effects[i].id
                  && effects[i - 1].r in batch && InEffect(effects[i - 1].file, effects[i - 1].r))
            && (effects[i].Applied? ==> i + 1 < |effects| && effects[i + 1] == Confirmed(effects[i].r.id))
    decreases |batch|
  {
    var n := |batch| - 1;
    var front := Batch(rules, f, batch[..n], disks[..n]);
    if i < |front.1| {
      AckFollowsApply(rules, f, batch[..n], disks[..n], i);
    } else {
      TurnAcks(rules, front.0, batch[n], disks[n]);
    }
  }

  lemma TurnAcks(rules: Rules, f: File, r: Request, disk: Disk)
    ensures var (f', effects) := Turn(rules, f, r, disk);
            (effects == [Applied(r, f'), Confirmed(r.id)] && InEffect(f', r)) || effects == [Failed(r, f')]
  {
    if Apply(rules, f, r, disk).1 { AppendKeeps(rules, f, KindOf(r.kind).value, r.value, disk, disk); }
  }
}

/** The dns-strict runtime sets: internal/nftables/resolved.go. The kernel, reached through the
    nft command, is an environment whose commands may fail, and may take effect and still be
    reported as failed. */
module ResolvedSet {
  import opened GoStrings
  import opened Streams
  import opened Nft
  import opened NftDecisions
  import opened DnsHandler

  type Time = real

  const MIN_TTL := 60
  const MAX_TTL := 86400

  /** A command that has not returned after this many seconds is killed. */
  const NFT_TIMEOUT: real := 3.0

  /** How many commands one address may take. */
  const MAX_COMMANDS := 3

  /** clampTTL, in seconds */
  function Clamp(ttl: int): (timeout: nat)
    ensures 60 <= timeout <= 86400
    ensures 60 <= ttl <= 86400 ==> timeout == ttl
    ensures ttl < 60 ==> timeout == 60
    ensures ttl > 86400 ==> timeout == 86400
  {
    if ttl < MIN_TTL then MIN_TTL else if ttl > MAX_TTL then MAX_TTL else ttl
  }

  // ---------------------------------------------------------------- the kernel's sets

  /** An address in the set of its family. */
  datatype Element = Element(fam: Family, addr: Addr)

  /** Where an entry came from: which generation of the handler pushed it, the query and the
      response it was reported for, when the report was made, and how much of the time since
      then the handler spent outside its commands. The kernel does not know it. */
  datatype Origin = Origin(gen: nat, question: Question, response: Message, ip: string, ttl: nat, reported: Time, own: real)

  datatype Entry = Entry(added: Time, timeout: nat, origin: Origin)

  type KernelSet = map<Element, Entry>

  predicate Live(s: KernelSet, e: Element, now: Time) {
    e in s && now < s[e].added + s[e].timeout as real
  }

  datatype Command = Add(e: Element, timeout: nat) | Delete(e: Element)

  /** "add element" fails on live entries and "delete element" on missing ones. */
  predicate Possible(s: KernelSet, now: Time, c: Command) {
    match c
    case Add(e, _) => !Live(s, e, now)
    case Delete(e) => Live(s, e, now)
  }

  function AfterCommand(s: KernelSet, now: Time, c: Command, origin: Origin): KernelSet {
    match c
    case Add(e, timeout) => s[e := Entry(now, timeout, origin)]
    case Delete(e) => s - {e}
  }

  /** One nft command: without effect and reported as failed, or possible and with effect, and
      then reported either way. */
  ghost predicate Ran(s: KernelSet, now: Time, c: Command, origin: Origin, s': KernelSet, ok: bool) {
    (s' == s && !ok) || (Possible(s, now, c) && s' == AfterCommand(s, now, c, origin))
  }

  class Kernel {
    var set_: KernelSet
    var now: Time
    /** every command run so far */
    ghost var ran: seq<Command>
    /** No command fails but for the state of the set. */
    const reliable: bool

    constructor (reliable: bool, now: Time)
      ensures this.reliable == reliable && this.now == now && set_ == map[] && ran == []
    {
      this.reliable, this.now, set_, ran := reliable, now, map[], [];
    }

    /** runNft: takes up to the timeout, and then what happens is up to the kernel. If the command
        has an effect it has it at some moment `at` in between. */
    method RunNft(c: Command, origin: Origin) returns (ok: bool, ghost at: Time)
      modifies this
      ensures old(now) <= at <= now <= old(now) + 3.0
      ensures Ran(old(set_), at, c, origin, set_, ok)
      ensures reliable ==> ok == Possible(old(set_), at, c)
      ensures ran == old(ran) + [c]
    {
      ran := ran + [c];
      var before: real, after: real := *, *;
      if before < 0.0 || after < 0.0 || before + after > NFT_TIMEOUT { before, after := 0.0, 0.0; }
      now, at := now + before, now + before;
      ok := Possible(set_, now, c);
      var works: bool := *;
      if ok && (reliable || works) {
        set_ := AfterCommand(set_, now, c, origin);
        var reported: bool := *;
        ok := reliable || reported;
      } else {
        ok := false;
      }
      now := now + after;
    }
  }

  // ---------------------------------------------------------------- pushing one address

  /** net.ParseIP on trimmed text, with the family that To4 tells. */
  type Parser = string -> Option<Element>

  /** The next command for an element, given how the ones before were reported; None when
      there is nothing more to do. */
  function NextCommand(e: Element, timeout: nat, results: seq<bool>): Option<Command> {
    if results == [] then Some(Add(e, timeout))
    else if results[0] then None
    else if |results| == 1 then Some(Delete(e))
    else if |results| == 2 then Some(Add(e, timeout))
    else None
  }

  /** Adding is tried first; only when that was reported as failed, the entry is deleted and added again. */
  lemma CommandsInOrder(e: Element, timeout: nat, first: bool, second: bool, third: bool)
    ensures NextCommand(e, timeout, []) == Some(Add(e, timeout))
    ensures NextCommand(e, timeout, [first]) == if first then None else Some(Delete(e))
    ensures NextCommand(e, timeout, [false, second]) == Some(Add(e, timeout))
    ensures NextCommand(e, timeout, [false, second, third]) == None
  {
  }

  predicate FreshEntry(s: KernelSet, e: Element, timeout: nat, origin: Origin, from: Time, to: Time) {
    e in s && s[e].timeout == timeout && s[e].origin == origin && from <= s[e].added <= to
  }

  /** Only the one element may have changed, and then to a fresh entry or to nothing. */
  ghost predicate OnlyPushed(s: KernelSet, s': KernelSet, e: Element, timeout: nat, origin: Origin, from: Time, to: Time) {
    && (forall x :: x != e ==> (x in s' <==> x in s) && (x in s ==> s'[x] == s[x]))
    && (e in s' ==> (e in s && s'[e] == s[e]) || FreshEntry(s', e, timeout, origin, from, to))
  }

  /** addResolvedElement */
  method AddResolvedElement(k: Kernel, parse: Parser, ip: string, ttl: nat, origin: Origin)
    returns (ok: bool, ghost results: seq<bool>)
    modifies k
    ensures old(k.now) <= k.now <= old(k.now) + 9.0
    ensures parse(TrimSpace(ip)).None? ==> !ok && results == [] && k.set_ == old(k.set_) && k.ran == old(k.ran)
    ensures parse(TrimSpace(ip)).Some? ==>
              var e := parse(TrimSpace(ip)).value;
              && NextCommand(e, Clamp(ttl), results).None? && |results| <= 3
              && k.ran == old(k.ran) + [Add(e, Clamp(ttl)), Delete(e), Add(e, Clamp(ttl))][..|results|]
              && OnlyPushed(old(k.set_), k.set_, e, Clamp(ttl), origin, old(k.now), k.now)
              && (ok ==> FreshEntry(k.set_, e, Clamp(ttl), origin, old(k.now), k.now))
              && (k.reliable ==> ok)
  {
    results := [];
    var parsed := parse(TrimSpace(ip));
    if parsed.None? { return false, results; }
    var add, delete := Add(parsed.value, Clamp(ttl)), Delete(parsed.value);
    ghost var at;
    ok, at := k.RunNft(add, origin);
    results := results + [ok];
    if ok { return; }
    var deleted: bool;
    deleted, at := k.RunNft(delete, origin);
    results := results + [deleted];
    ok, at := k.RunNft(add, origin);
    results := results + [ok];
  }

  // ---------------------------------------------------------------- pushing an answer

  /** All commands for this many addresses together. */
  function CommandTime(addresses: nat): real { 9.0 * addresses as real }

  ghost predicate Targets(parse: Parser, ips: seq<string>, e: Element) {
    exists i :: 0 <= i < |ips| && parse(TrimSpace(ips[i])) == Some(e)
  }

  /** Nothing but the targeted elements has changed. */
  ghost predicate OthersKept(s: KernelSet, s': KernelSet, parse: Parser, ips: seq<string>) {
    forall x :: !Targets(parse, ips, x) ==> (x in s' <==> x in s) && (x in s ==> s'[x] == s[x])
  }

  /** What has changed are fresh entries with the clamped timeout. */
  ghost predicate ChangesFresh(s: KernelSet, s': KernelSet, timeout: nat, from: Time, to: Time) {
    forall x :: x in s' && !(x in s && s'[x] == s[x]) ==> s'[x].timeout == timeout && from <= s'[x].added <= to
  }

  ghost predicate AllFresh(s: KernelSet, parse: Parser, ips: seq<string>, timeout: nat, from: Time, to: Time) {
    forall e :: Targets(parse, ips, e) ==> e in s && s[e].timeout == timeout && from <= s[e].added <= to
  }

  lemma TargetsGrow(parse: Parser, ips: seq<string>, i: nat, e: Element)
    requires i < |ips|
    ensures Targets(parse, ips[..i + 1], e) <==> Targets(parse, ips[..i], e) || parse(TrimSpace(ips[i])) == Some(e)
  {
  }

  /** AddResolvedIPs: a failure does not stop the others. Whatever fails, no other element is
      touched and nothing gets another timeout; and when nothing but the set's own state can
      make a command fail, and nobody else works on the set, every address that parses ends
      with a timeout counted from this push, and is live when this returns unless the answer
      has so many addresses that nine seconds for each outlast the timeout. */
  method AddResolvedIPs(k: Kernel, parse: Parser, ips: seq<string>, ttl: nat, origin: string -> Origin) returns (failed: seq<string>)
    modifies k
    ensures old(k.now) <= k.now <= old(k.now) + CommandTime(|ips|)
    ensures OthersKept(old(k.set_), k.set_, parse, ips)
    ensures ChangesFresh(old(k.set_), k.set_, Clamp(ttl), old(k.now), k.now)
    ensures forall i :: 0 <= i < |failed| ==> failed[i] in ips
    ensures forall i :: 0 <= i < |ips| && parse(TrimSpace(ips[i])).None? ==> ips[i] in failed
    ensures k.reliable ==> AllFresh(k.set_, parse, ips, Clamp(ttl), old(k.now), k.now)
    ensures k.reliable && CommandTime(|ips|) < Clamp(ttl) as real ==>
              forall e :: Targets(parse, ips, e) ==> Live(k.set_, e, k.now)
  {
    failed := [];
    ghost var from, start := k.now, k.set_;
    for i := 0 to |ips|
      invariant from <= k.now <= from + CommandTime(i)
      invariant OthersKept(start, k.set_, parse, ips[..i])
      invariant ChangesFresh(start, k.set_, Clamp(ttl), from, k.now)
      invariant forall j :: 0 <= j < |failed| ==> failed[j] in ips
      invariant forall j :: 0 <= j < i && parse(TrimSpace(ips[j])).None? ==> ips[j] in failed
      invariant k.reliable ==> AllFresh(k.set_, parse, ips[..i], Clamp(ttl), from, k.now)
    {
      ghost var before, t := k.set_, k.now;
      var ok, results := AddResolvedElement(k, parse, ips[i], ttl, origin(ips[i]));
      PushStep(start, before, k.set_, parse, ips, i, Clamp(ttl), origin(ips[i]), from, t, k.now);
      if k.reliable { FreshStep(before, k.set_, parse, ips, i, Clamp(ttl), origin(ips[i]), from, t, k.now); }
      if !ok { failed := failed + [ips[i]]; }
    }
    assert ips[..|ips|] == ips;
  }

  ghost predicate PushedOne(s: KernelSet, s': KernelSet, parsed: Option<Element>, timeout: nat, origin: Origin, t: Time, now: Time) {
    match parsed
    case None => s' == s
    case Some(e) => OnlyPushed(s, s', e, timeout, origin, t, now)
  }

  lemma KeptStep(start: KernelSet, s: KernelSet, s': KernelSet, parse: Parser, ips: seq<string>, i: nat, timeout: nat,
                 origin: Origin, t: Time, now: Time)
    requires i < |ips| && OthersKept(start, s, parse, ips[..i])
    requires PushedOne(s, s', parse(TrimSpace(ips[i])), timeout, origin, t, now)
    ensures OthersKept(start, s', parse, ips[..i + 1])
  {
    forall x ensures Targets(parse, ips[..i + 1], x) <==> Targets(parse, ips[..i], x) || parse(TrimSpace(ips[i])) == Some(x) {
      TargetsGrow(parse, ips, i, x);
    }
  }

  lemma PushStep(start: KernelSet, s: KernelSet, s': KernelSet, parse: Parser, ips: seq<string>, i: nat, timeout: nat,
                 origin: Origin, from: Time, t: Time, now: Time)
    requires i < |ips| && from <= t <= now
    requires OthersKept(start, s, parse, ips[..i]) && ChangesFresh(start, s, timeout, from, t)
    requires PushedOne(s, s', parse(TrimSpace(ips[i])), timeout, origin, t, now)
    ensures OthersKept(start, s', parse, ips[..i + 1]) && ChangesFresh(start, s', timeout, from, now)
  {
    KeptStep(start, s, s', parse, ips, i, timeout, origin, t, now);
  }

  lemma FreshStep(s: KernelSet, s': KernelSet, parse: Parser, ips: seq<string>, i: nat, timeout: nat,
                  origin: Origin, from: Time, t: Time, now: Time)
    requires i < |ips| && from <= t <= now && AllFresh(s, parse, ips[..i], timeout, from, t)
    requires PushedOne(s, s', parse(TrimSpace(ips[i])), timeout, origin, t, now)
    requires parse(TrimSpace(ips[i])).Some? ==> FreshEntry(s', parse(TrimSpace(ips[i])).value, timeout, origin, t, now)
    ensures AllFresh(s', parse, ips[..i + 1], timeout, from, now)
  {
  }
}

/** What the DNS handler does, in literal terms: which names it judges and as what, what each
    stance makes of them, and what the record types and limits are. */
module DnsDecisions {
  import opened GoStrings
  import opened Streams
  import opened HostMatch
  import opened HostPolicy
  import opened DnsHandler
  import V = Validate

  // ---------------------------------------------------------------- names

  /** A label of a query name: up to 63 letters, digits, hyphens and underscores, no hyphen at
      either end. */
  predicate NameLabel(l: string) {
    && 1 <= |l| <= 63 && l[0] != '-' && l[|l| - 1] != '-'
    && forall i :: 0 <= i < |l| ==> 'a' <= l[i] <= 'z' || 'A' <= l[i] <= 'Z' || '0' <= l[i] <= '9' || l[i] == '-' || l[i] == '_'
  }

  ghost predicate NameLabels(labels: seq<string>) { labels != [] && forall i :: 0 <= i < |labels| ==> NameLabel(labels[i]) }

  /** The name of those labels, as it is printed in a query with its final dot, or without it. */
  ghost predicate Spells(raw: string, labels: seq<string>) {
    && NameLabels(labels) && |Join(labels, ".")| <= 253
    && (raw == Join(labels, ".") || raw == Join(labels, ".") + ".")
  }

  ghost predicate IsName(raw: string) { exists labels: seq<string> :: Spells(raw, labels) }

  predicate IsRoot(raw: string) { raw == "" || raw == "." }

  lemma {:induction false} SplitLowered(s: string)
    ensures Split(ToLower(s), '.') == LowerAll(Split(s, '.'))
  {
    if s != "" {
      SplitLowered(s[1..]);
      assert ToLower(s)[1..] == ToLower(s[1..]);
      var rest := Split(s[1..], '.');
      if s[0] != '.' { assert ToLower([s[0]] + rest[0]) == [LowerChar(s[0])] + ToLower(rest[0]); }
    }
  }

  lemma LabelLowered(l: string)
    ensures NameLabel(l) <==> V.IsValidQnameLabel(ToLower(l)) && Lacks(l, '.')
  {
    var low := ToLower(l);
    if NameLabel(l) {
      forall i | 0 <= i < |low| ensures V.IsValidDNSChar(low[i]) || low[i] == '_' { assert low[i] == LowerChar(l[i]); }
    }
    if V.IsValidQnameLabel(low) && Lacks(l, '.') {
      assert low[0] == LowerChar(l[0]) && low[|l| - 1] == LowerChar(l[|l| - 1]);
      forall i | 0 <= i < |l| ensures 'a' <= l[i] <= 'z' || 'A' <= l[i] <= 'Z' || '0' <= l[i] <= '9' || l[i] == '-' || l[i] == '_' {
        assert low[i] == LowerChar(l[i]);
      }
    }
  }

  lemma {:induction false} JoinEnds(labels: seq<string>)
    requires NameLabels(labels)
    ensures var name := Join(labels, "."); name != "" && name[|name| - 1] != '.'
  {
    assert NameLabel(labels[0]);
    if |labels| > 1 {
      assert forall i :: 0 <= i < |labels[1..]| ==> labels[1..][i] == labels[i + 1];
      JoinEnds(labels[1..]);
    }
  }

  lemma JoinedIsAccepted(labels: seq<string>)
    requires NameLabels(labels) && |Join(labels, ".")| <= 253
    ensures V.SanitizeQname(Join(labels, ".")) == Some(ToLower(Join(labels, ".")))
  {
    var name := Join(labels, ".");
    JoinEnds(labels);
    forall i | 0 <= i < |labels| ensures Lacks(labels[i], '.') && V.IsValidQnameLabel(ToLower(labels[i])) {
      assert NameLabel(labels[i]);
      LabelLowered(labels[i]);
    }
    V.JoinSplits(labels);
    SplitLowered(name);
  }

  /** A question for a name is judged as that name in lower case, with its final dot or without. */
  lemma NameIsJudged(raw: string, labels: seq<string>)
    requires Spells(raw, labels)
    ensures QueryName(raw) == Some(ToLower(Join(labels, "."))) && ToLower(Join(labels, ".")) != ""
  {
    var name := Join(labels, ".");
    JoinEnds(labels);
    JoinedIsAccepted(labels);
    assert (name + ".")[..|name|] == name;
  }

  /** The root is judged as the empty name, and what is neither root nor name is refused. */
  lemma OthersAreJudged(raw: string)
    ensures QueryName(raw) == Some("") <==> IsRoot(raw)
    ensures QueryName(raw) == None <==> !IsRoot(raw) && !IsName(raw)
  {
    var qname := TrimDot(raw);
    if IsName(raw) {
      var labels: seq<string> :| Spells(raw, labels);
      NameIsJudged(raw, labels);
      JoinEnds(labels);
    }
    if V.SanitizeQname(qname).Some? { AcceptedIsName(raw); }
  }

  lemma AcceptedIsName(raw: string)
    requires V.SanitizeQname(TrimDot(raw)).Some?
    ensures IsName(raw) && V.SanitizeQname(TrimDot(raw)).value != ""
  {
    var qname := TrimDot(raw);
    var labels, lower := Split(qname, '.'), Split(ToLower(qname), '.');
    SplitLowered(qname);
    V.SplitRejoins(qname);
    forall i | 0 <= i < |labels| ensures NameLabel(labels[i]) {
      assert V.IsValidQnameLabel(lower[i]);
      LabelLowered(labels[i]);
    }
    assert raw == qname || raw == qname + ".";
    assert Spells(raw, labels);
  }

  // ---------------------------------------------------------------- stances

  /** What is neither root nor name is refused, whatever the policy. */
  lemma BadNamesAreRefused(s: Setup, q: Question, upstream: Option<Message>, effects: seq<Effect>)
    requires Handles(s, [q], upstream, effects) && !IsRoot(q.name) && !IsName(q.name)
    ensures effects == [Wrote(Failure(5))]
  {
    OthersAreJudged(q.name);
  }

  /** A message without a question is malformed, and a question that no upstream answers fails. */
  lemma FailuresAreTold(s: Setup, q: Question, upstream: Option<Message>, effects: seq<Effect>)
    ensures Handles(s, [], upstream, effects) <==> effects == [Wrote(Failure(1))]
    ensures Handles(s, [q], None, effects) && Asked in effects ==> effects[|effects| - 1] == Wrote(Failure(2))
  {
  }

  /** Learning asks for every name and for the root. */
  lemma LearningServesNames(s: Setup, q: Question, upstream: Option<Message>, effects: seq<Effect>)
    requires Handles(s, [q], upstream, effects) && s.opts.learning
    ensures Asked in effects <==> IsRoot(q.name) || IsName(q.name)
  {
    OthersAreJudged(q.name);
    AskedOnlyIfServed(s, [q], upstream, effects);
  }

  /** And it reports exactly the name asked for, first of all, unless that is on the allowlist. */
  lemma LearningReportsUnlisted(s: Setup, q: Question, upstream: Option<Message>, effects: seq<Effect>, labels: seq<string>)
    requires Handles(s, [q], upstream, effects) && s.opts.learning && s.learner && Spells(q.name, labels)
    ensures var name := ToLower(Join(labels, "."));
            effects != [] && if Listed(s.lib, s.allow, name) then effects[0] == Asked else effects[0] == Learned(name)
  {
    NameIsJudged(q.name, labels);
  }

  /** Default-deny: a name is asked for if and only if it is on the allowlist, and the root never is;
      the denylist does not matter. What is not asked for is refused. */
  lemma DenyStance(s: Setup, q: Question, upstream: Option<Message>, effects: seq<Effect>, labels: seq<string>)
    requires Handles(s, [q], upstream, effects) && !s.hardening && !s.opts.learning && !s.opts.audit && !s.opts.defaultAllow
    requires Spells(q.name, labels)
    ensures Asked in effects <==> Listed(s.lib, s.allow, ToLower(Join(labels, ".")))
    ensures Asked !in effects ==> effects == [Wrote(RefusalOf(q))]
  {
    NameIsJudged(q.name, labels);
    AskedOnlyIfServed(s, [q], upstream, effects);
  }

  lemma DenyStanceRoot(s: Setup, q: Question, upstream: Option<Message>, effects: seq<Effect>)
    requires Handles(s, [q], upstream, effects) && !s.opts.learning && !s.opts.audit && !s.opts.defaultAllow && IsRoot(q.name)
    ensures effects == [Wrote(RefusalOf(q))]
  {
    OthersAreJudged(q.name);
  }

  /** Default-allow: a name is refused if and only if it is on the denylist and not on the allowlist;
      the root is always asked for. */
  lemma AllowStance(s: Setup, q: Question, upstream: Option<Message>, effects: seq<Effect>, labels: seq<string>)
    requires Handles(s, [q], upstream, effects) && !s.hardening && !s.opts.learning && !s.opts.audit && s.opts.defaultAllow
    requires Spells(q.name, labels)
    ensures var name := ToLower(Join(labels, "."));
            Asked !in effects <==> Listed(s.lib, s.opts.denylist, name) && !Listed(s.lib, s.allow, name)
    ensures Asked !in effects ==> effects == [Wrote(RefusalOf(q))]
  {
    NameIsJudged(q.name, labels);
    AskedOnlyIfServed(s, [q], upstream, effects);
  }

  lemma AllowStanceRoot(s: Setup, q: Question, upstream: Option<Message>, effects: seq<Effect>)
    requires Handles(s, [q], upstream, effects) && !s.opts.learning && s.opts.defaultAllow && IsRoot(q.name)
    ensures Asked in effects
  {
    OthersAreJudged(q.name);
    AskedOnlyIfServed(s, [q], upstream, effects);
  }

  /** The hook is called for just the listed names that an upstream answers with addresses, and with all
      of these, right before the answer is passed on. */
  lemma DenyStanceHook(s: Setup, q: Question, m: Message, effects: seq<Effect>, labels: seq<string>)
    requires Handles(s, [q], Some(m), effects) && !s.hardening && !s.opts.learning && !s.opts.audit && !s.opts.defaultAllow
    requires Spells(q.name, labels)
    ensures if s.hook && Listed(s.lib, s.allow, ToLower(Join(labels, "."))) && Addresses(m.answer) != [] then
              |effects| == 3 && effects[0] == Asked && effects[1].Resolved? && effects[1].ips == Names(Addresses(m.answer))
              && (forall i :: 0 <= i < |Addresses(m.answer)| ==> effects[1].ttl <= Addresses(m.answer)[i].1)
              && (exists i :: 0 <= i < |Addresses(m.answer)| && effects[1].ttl == Addresses(m.answer)[i].1)
              && effects[2] == Wrote(PassedOn(m))
            else forall e :: e in effects ==> !e.Resolved?
  {
    NameIsJudged(q.name, labels);
  }

  /** Under audit every name is asked for, and yet the hook learns of the permitted ones only. */
  lemma AuditStance(s: Setup, q: Question, upstream: Option<Message>, effects: seq<Effect>, labels: seq<string>)
    requires Handles(s, [q], upstream, effects) && s.opts.audit && !s.opts.learning && Spells(q.name, labels)
    ensures Asked in effects
    ensures var name := ToLower(Join(labels, "."));
            (exists i :: 0 <= i < |effects| && effects[i].Resolved?) ==>
              if s.opts.defaultAllow then Listed(s.lib, s.allow, name) || !Listed(s.lib, s.opts.denylist, name)
              else Listed(s.lib, s.allow, name)
  {
    NameIsJudged(q.name, labels);
    AskedOnlyIfServed(s, [q], upstream, effects);
    HookCalledExactly(s, [q], upstream, effects, 0);
  }

  /** What a refused question gets: an unroutable address of its family for a minute (types 1 and
      28), NXDOMAIN for any other. */
  function RefusalOf(q: Question): Reply {
    if q.qtype == 1 then Sinkhole(q.name, 1, "0.0.0.0", 60)
    else if q.qtype == 28 then Sinkhole(q.name, 28, "::", 60)
    else Failure(3)
  }

  // ---------------------------------------------------------------- hardening

  /** Where hardening enforces, a name is refused for the NULL type (10), for more than 220
      characters or for a label of more than 56, whatever the policy. */
  lemma TunnelsAreRefused(s: Setup, q: Question, upstream: Option<Message>, effects: seq<Effect>, labels: seq<string>)
    requires Handles(s, [q], upstream, effects) && s.hardening && !s.opts.learning && !s.opts.audit && Spells(q.name, labels)
    requires q.qtype == 10 || |Join(labels, ".")| > 220 || exists i :: 0 <= i < |labels| && |labels[i]| > 56
    ensures effects == [Wrote(Failure(5))]
  {
    var name := Join(labels, ".");
    NameIsJudged(q.name, labels);
    LabelsOf(labels);
    if i :| 0 <= i < |labels| && |labels[i]| > 56 { assert |Split(ToLower(name), '.')[i]| > 56; }
  }

  lemma LabelsOf(labels: seq<string>)
    requires NameLabels(labels)
    ensures Split(ToLower(Join(labels, ".")), '.') == LowerAll(labels)
  {
    forall i | 0 <= i < |labels| ensures Lacks(labels[i], '.') {
      assert NameLabel(labels[i]);
    }
    V.JoinSplits(labels);
    SplitLowered(Join(labels, "."));
  }

  /** Any other name fares as without hardening. */
  lemma OthersAreNoTunnels(s: Setup, q: Question, labels: seq<string>)
    requires Spells(q.name, labels)
    requires q.qtype != 10 && |Join(labels, ".")| <= 220 && forall i :: 0 <= i < |labels| ==> |labels[i]| <= 56
    ensures Judge(s, [q]) == Judge(s.(hardening := false), [q])
  {
    NameIsJudged(q.name, labels);
    LabelsOf(labels);
  }

  /** Where hardening enforces, a response is withheld for more than 4096 bytes, a NULL record or more
      than 1024 bytes of TXT data, and the client gets SERVFAIL. */
  lemma OversizeIsWithheld(s: Setup, q: Question, m: Message, effects: seq<Effect>)
    requires Handles(s, [q], Some(m), effects) && s.hardening && !s.opts.learning && !s.opts.audit && Asked in effects
    ensures effects[|effects| - 1] ==
            if m.length > 4096 || (exists i :: 0 <= i < |m.answer| && m.answer[i].NULL?) || TxtBytes(m.answer) > 1024
            then Wrote(Failure(2)) else Wrote(PassedOn(m))
  {
  }

  /** TXT data is counted string by string over all records. */
  lemma {:induction false} TxtBytesAdd(a: seq<Record>, b: seq<Record>)
    ensures TxtBytes(a + b) == TxtBytes(a) + TxtBytes(b)
    decreases |b|
  {
    if b == [] {
      assert a + b == a;
    } else {
      assert (a + b)[..|a + b| - 1] == a + b[..|b| - 1];
      TxtBytesAdd(a, b[..|b| - 1]);
    }
  }

  lemma {:induction false} TxtBytesOfOne(ttl: nat, texts: seq<string>, text: string)
    ensures TxtBytes([TXT(ttl, [])]) == 0
    ensures TxtBytes([TXT(ttl, texts + [text])]) == TxtBytes([TXT(ttl, texts)]) + |text|
    ensures forall rr: Record :: !rr.TXT? ==> TxtBytes([rr]) == 0
  {
    assert forall rr: Record :: [rr][..0] == [];
    assert (texts + [text])[..|texts|] == texts;
  }

  // ---------------------------------------------------------------- addresses

  /** The addresses of an answer are those of its A and AAAA records, in order, with their TTLs. */
  lemma {:induction false} AddressesAdd(a: seq<Record>, b: seq<Record>)
    ensures Addresses(a + b) == Addresses(a) + Addresses(b)
    decreases |b|
  {
    if b == [] {
      assert a + b == a;
    } else {
      assert (a + b)[..|a + b| - 1] == a + b[..|b| - 1];
      AddressesAdd(a, b[..|b| - 1]);
    }
  }

  lemma AddressesOfOne(ttl: nat, ip: string)
    ensures Addresses([A(ttl, Some(ip))]) == [(ip, ttl)] && Addresses([AAAA(ttl, Some(ip))]) == [(ip, ttl)]
    ensures Addresses([A(ttl, None)]) == [] && Addresses([AAAA(ttl, None)]) == []
    ensures forall rr: Record :: rr.TXT? || rr.NULL? || rr.Other? ==> Addresses([rr]) == []
  {
    assert forall rr: Record :: [rr][..0] == [];
  }
}

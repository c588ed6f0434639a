/** hostMatcher and hostPermittedBy of internal/filter/common.go: the split into an exact map and
    a pattern list decides as a scan over all entries does, and what permission follows from it. */
module HostPolicy {
  import opened GoStrings
  import opened Streams
  import opened HostMatch
  import opened PolicyDomains

  // ---------------------------------------------------------------- the simple form

  /** Some entry, normalized, matches the normalized host. */
  ghost predicate Listed(lib: Library, entries: seq<string>, host: string) {
    exists i :: 0 <= i < |entries| && MatchPattern(lib, Normalize(lib, host), Normalize(lib, entries[i]))
  }

  predicate IsPattern(p: string) { '*' in p || IsRegexPattern(p) }

  // ---------------------------------------------------------------- the fast form

  ghost predicate FromEntry(lib: Library, p: string, entries: seq<string>, n: nat)
    requires n <= |entries|
  {
    exists i :: 0 <= i < n && p == Normalize(lib, entries[i])
  }

  /** The first `n` entries, normalized, divided into exact names and patterns. */
  ghost predicate Divided(lib: Library, entries: seq<string>, n: nat, exact: set<string>, patterns: seq<string>)
    requires n <= |entries|
  {
    && (forall i :: 0 <= i < n ==>
          if IsPattern(Normalize(lib, entries[i])) then Normalize(lib, entries[i]) in patterns
          else Normalize(lib, entries[i]) in exact)
    && (forall p :: p in exact ==> !IsPattern(p) && FromEntry(lib, p, entries, n))
    && (forall p :: p in patterns ==> IsPattern(p) && FromEntry(lib, p, entries, n))
  }

  lemma DividedStep(lib: Library, entries: seq<string>, n: nat, exact: set<string>, patterns: seq<string>)
    requires n < |entries| && Divided(lib, entries, n, exact, patterns)
    ensures var p := Normalize(lib, entries[n]);
            if IsPattern(p) then Divided(lib, entries, n + 1, exact, patterns + [p])
            else Divided(lib, entries, n + 1, exact + {p}, patterns)
  {
  }

  /** Exact names are kept apart from wildcards and expressions. */
  class HostMatcher {
    const lib: Library
    var exact: set<string>
    var patterns: seq<string>

    /** Every normalized entry is in exactly one of the two collections, and nothing else is. */
    ghost predicate Holds(entries: seq<string>)
      reads this
    {
      Divided(lib, entries, |entries|, exact, patterns)
    }

    /** newMatcher */
    constructor (lib: Library, entries: seq<string>)
      ensures this.lib == lib && Holds(entries)
    {
      this.lib := lib;
      var names: set<string>, others: seq<string> := {}, [];
      for i := 0 to |entries|
        invariant Divided(lib, entries, i, names, others)
      {
        var p := Normalize(lib, entries[i]);
        DividedStep(lib, entries, i, names, others);
        if IsPattern(p) {
          others := others + [p];
        } else {
          names := names + {p};
        }
      }
      exact, patterns := names, others;
    }

    /** allows */
    method Allows(host: string, ghost entries: seq<string>) returns (listed: bool)
      requires Holds(entries)
      ensures listed <==> Listed(lib, entries, host)
    {
      var h := Normalize(lib, host);
      if h in exact {
        assert FromEntry(lib, h, entries, |entries|);
        ghost var i :| 0 <= i < |entries| && h == Normalize(lib, entries[i]);
        ExactMatches(lib, h);
        return true;
      }
      for i := 0 to |patterns|
        invariant forall j :: 0 <= j < i ==> !MatchPattern(lib, h, patterns[j])
      {
        if MatchPattern(lib, h, patterns[i]) {
          assert FromEntry(lib, patterns[i], entries, |entries|);
          return true;
        }
      }
      listed := false;
      forall i | 0 <= i < |entries| ensures !MatchPattern(lib, h, Normalize(lib, entries[i])) {
        var p := Normalize(lib, entries[i]);
        if !IsPattern(p) { ExactMatches(lib, p); }
      }
    }
  }

  lemma ExactMatches(lib: Library, p: string)
    requires !IsPattern(p)
    ensures forall host :: MatchPattern(lib, host, p) <==> host == p
  {
    assert p != [] ==> p[0] in p;
  }

  // ---------------------------------------------------------------- permission

  datatype Options = Options(learning: bool, defaultAllow: bool, audit: bool, denylist: seq<string>)

  /** hostPermittedBy */
  ghost predicate Permitted(lib: Library, host: string, allow: seq<string>, opts: Options) {
    if opts.learning then true
    else if !opts.defaultAllow then host != "" && Listed(lib, allow, host)
    else host == "" || Listed(lib, allow, host) || !Listed(lib, opts.denylist, host)
  }

  /** audited */
  predicate Audited(permitted: bool, opts: Options) { !permitted && opts.audit }

  method HostPermittedBy(host: string, allow: HostMatcher, deny: HostMatcher, opts: Options, ghost entries: seq<string>)
    returns (permitted: bool)
    requires allow.Holds(entries) && deny.Holds(opts.denylist) && allow.lib == deny.lib
    ensures permitted <==> Permitted(allow.lib, host, entries, opts)
    // in default-deny the allowlist alone decides, and the empty host is on no list
    ensures !opts.learning && !opts.defaultAllow ==> (permitted <==> host != "" && Listed(allow.lib, entries, host))
    // in default-allow only what is denylisted and not allowlisted is refused
    ensures !opts.learning && opts.defaultAllow ==>
              (!permitted <==> host != "" && Listed(allow.lib, opts.denylist, host) && !Listed(allow.lib, entries, host))
    ensures opts.learning ==> permitted
  {
    if opts.learning { return true; }
    var allowed;
    if !opts.defaultAllow {
      if host == "" { return false; }
      permitted := allow.Allows(host, entries);
      return;
    }
    if host == "" { return true; }
    allowed := allow.Allows(host, entries);
    if allowed { return true; }
    var denied := deny.Allows(host, opts.denylist);
    permitted := !denied;
  }

  lemma LeftAlone(lib: Library, name: string)
    requires name == "example.com" || name == "evil.com"
    requires lib.idna(name) == Some(name)
    ensures Normalize(lib, name) == name
  {
    TrimNothing(name);
    assert ToLower(name) == name;
  }

  lemma OneListed(lib: Library, entry: string, host: string)
    requires Normalize(lib, entry) == entry && Normalize(lib, host) == host && !IsPattern(entry)
    ensures Listed(lib, [entry], host) <==> host == entry
  {
    ExactMatches(lib, entry);
    if host == entry { assert MatchPattern(lib, Normalize(lib, host), Normalize(lib, [entry][0])); }
  }

  /** One allowlisted name under default-deny, and one denylisted name under default-allow. */
  lemma StancesByExample(lib: Library)
    requires lib.idna("example.com") == Some("example.com") && lib.idna("evil.com") == Some("evil.com")
    ensures var deny := Options(false, false, false, []);
            && Permitted(lib, "example.com", ["example.com"], deny) && !Permitted(lib, "evil.com", ["example.com"], deny)
            && !Permitted(lib, "", ["example.com"], deny)
    ensures var allow := Options(false, true, false, ["evil.com"]);
            && Permitted(lib, "example.com", [], allow) && !Permitted(lib, "evil.com", [], allow)
            && Permitted(lib, "", [], allow) && Permitted(lib, "evil.com", ["evil.com"], allow)
  {
    LeftAlone(lib, "example.com");
    LeftAlone(lib, "evil.com");
    assert '*' !in "example.com" && '*' !in "evil.com";
    OneListed(lib, "example.com", "example.com");
    OneListed(lib, "example.com", "evil.com");
    OneListed(lib, "evil.com", "example.com");
    OneListed(lib, "evil.com", "evil.com");
  }

  ghost predicate Within(a: seq<string>, b: seq<string>) { forall i :: 0 <= i < |a| ==> a[i] in b }

  lemma ListedGrows(lib: Library, a: seq<string>, b: seq<string>, host: string)
    requires Within(a, b) && Listed(lib, a, host)
    ensures Listed(lib, b, host)
  {
  }

  /** Adding allow entries or removing deny entries never withdraws a permission; order and
      repetition of entries do not matter; audit does not enter into permission. */
  lemma PermissionMonotone(lib: Library, host: string, allow: seq<string>, allow': seq<string>,
                           opts: Options, opts': Options)
    requires Within(allow, allow') && Within(opts'.denylist, opts.denylist)
    requires opts'.learning == opts.learning && opts'.defaultAllow == opts.defaultAllow
    requires Permitted(lib, host, allow, opts)
    ensures Permitted(lib, host, allow', opts')
  {
    if Listed(lib, allow, host) { ListedGrows(lib, allow, allow', host); }
    if Listed(lib, opts'.denylist, host) { ListedGrows(lib, opts'.denylist, opts.denylist, host); }
  }

  /** The DNS handler normalizes both of its lists before its matchers do so again. For lists
      that policy validation lets through, that changes no decision. */
  lemma NormalizedBeforehand(lib: Library, v: Oracles, entries: seq<string>, host: string)
    requires IsIdnaLookup(lib) && AllAccepted(lib, v, entries)
    ensures Listed(lib, NormalizeAll(lib, entries), host) <==> Listed(lib, entries, host)
  {
    var once, h := NormalizeAll(lib, entries), Normalize(lib, host);
    forall i | 0 <= i < |entries| ensures Normalize(lib, once[i]) == Normalize(lib, entries[i]) {
      AcceptedIsStable(lib, v, entries[i]);
    }
    if Listed(lib, once, host) {
      var i :| 0 <= i < |once| && MatchPattern(lib, h, Normalize(lib, once[i]));
      assert MatchPattern(lib, h, Normalize(lib, entries[i]));
    }
    if Listed(lib, entries, host) {
      var i :| 0 <= i < |entries| && MatchPattern(lib, h, Normalize(lib, entries[i]));
      assert MatchPattern(lib, h, Normalize(lib, once[i]));
    }
  }

  /** So a handler made from validated lists permits what the lists say as they were written. */
  lemma DecidesAsWritten(lib: Library, v: Oracles, host: string, allow: seq<string>, opts: Options)
    requires IsIdnaLookup(lib) && AllAccepted(lib, v, allow) && AllAccepted(lib, v, opts.denylist)
    ensures Permitted(lib, host, NormalizeAll(lib, allow), opts.(denylist := NormalizeAll(lib, opts.denylist))) <==>
            Permitted(lib, host, allow, opts)
  {
    NormalizedBeforehand(lib, v, allow, host);
    NormalizedBeforehand(lib, v, opts.denylist, host);
  }
}

/** Which domain entries a policy may hold: validateDomain and validateDomains of
    internal/policy/policy.go. Every allowlist and denylist has passed them. */
module PolicyDomains {
  import opened GoStrings
  import opened Streams
  import opened HostMatch
  import opened Validate

  const MAX_REGEX_LENGTH := 1024

  /** net.ParseIP and regexp.Compile, as far as success goes. */
  datatype Oracles = Oracles(isIP: string -> bool, compiles: string -> bool)

  predicate IsUpper(c: char) { 'A' <= c <= 'Z' }

  /** validateLabelChars and the label rules of validateDomainLabels. */
  predicate GoodLabel(part: string) {
    && 1 <= |part| <= MAX_LABEL_LENGTH && part[0] != '-' && part[|part| - 1] != '-'
    && forall i :: 0 <= i < |part| ==> (IsValidDNSChar(part[i]) && part[i] != '.') || IsUpper(part[i])
  }

  predicate IsAllDigits(s: string) { forall i :: 0 <= i < |s| ==> '0' <= s[i] <= '9' }

  /** domainToASCII */
  function DomainToASCII(lib: Library, v: Oracles, domain: string): Option<string> {
    match lib.idna(domain)
    case None => None
    case Some(ascii) =>
      if ascii == "" || v.isIP(ascii) || |ascii| > MAX_HOST_LENGTH then None
      else if "." <= ascii || HasSuffix(ascii, ".") || Contains(ascii, "..") || '.' !in ascii then None
      else Some(ascii)
  }

  /** validateDomainLabels */
  predicate GoodLabels(ascii: string) {
    var labels := Split(ascii, '.');
    && (forall i :: 0 <= i < |labels| ==> GoodLabel(labels[i]))
    && !IsAllDigits(labels[|labels| - 1])
  }

  predicate GoodName(lib: Library, v: Oracles, domain: string) {
    var ascii := DomainToASCII(lib, v, TrimDot(domain));
    ascii.Some? && GoodLabels(ascii.value)
  }

  /** validateDomain */
  predicate Accepted(lib: Library, v: Oracles, entry: string) {
    var domain := TrimSpace(entry);
    if domain == "" then false
    else if domain == "*" then true
    else if IsRegexPattern(domain) then |domain| - 2 <= MAX_REGEX_LENGTH && v.compiles(domain)
    else if LeadingStar(domain) then domain[2..] != "" && GoodName(lib, v, domain[2..])
    else if '*' in domain then Compiled(TrimDot(domain)).Some?
    else GoodName(lib, v, domain)
  }

  ghost predicate AllAccepted(lib: Library, v: Oracles, entries: seq<string>) {
    forall i :: 0 <= i < |entries| ==> Accepted(lib, v, entries[i])
  }

  /** The trimmed entries that are not blank, in order. */
  function Cleaned(domains: seq<string>): seq<string> {
    if domains == [] then []
    else
      var n := |domains| - 1;
      Cleaned(domains[..n]) + if TrimSpace(domains[n]) == "" then [] else [TrimSpace(domains[n])]
  }

  predicate Passes(lib: Library, v: Oracles, entry: string) { TrimSpace(entry) == "" || Accepted(lib, v, entry) }

  lemma JudgedTrimmed(lib: Library, v: Oracles, entry: string)
    ensures TrimSpace(entry) != "" ==> (Passes(lib, v, entry) <==> Accepted(lib, v, TrimSpace(entry)))
  {
    TrimTwice(entry);
  }

  /** The list so far is clean, and so are the entries it was made from. */
  ghost predicate CleanSoFar(lib: Library, v: Oracles, domains: seq<string>, kept: seq<string>) {
    kept == Cleaned(domains) && AllAccepted(lib, v, kept) && forall i :: 0 <= i < |domains| ==> Passes(lib, v, domains[i])
  }

  lemma CleanOneMore(lib: Library, v: Oracles, domains: seq<string>, kept: seq<string>, n: nat)
    requires n < |domains| && CleanSoFar(lib, v, domains[..n], kept) && Passes(lib, v, domains[n])
    ensures CleanSoFar(lib, v, domains[..n + 1], if TrimSpace(domains[n]) == "" then kept else kept + [TrimSpace(domains[n])])
  {
    assert domains[..n + 1][..n] == domains[..n] && domains[..n + 1] == domains[..n] + [domains[n]];
    JudgedTrimmed(lib, v, domains[n]);
  }

  /** validateDomains: one entry that is neither blank nor acceptable spoils the list. */
  method ValidateDomains(lib: Library, v: Oracles, domains: seq<string>) returns (clean: Option<seq<string>>)
    ensures clean.Some? <==> forall i :: 0 <= i < |domains| ==> Passes(lib, v, domains[i])
    ensures clean.Some? ==> clean.value == Cleaned(domains) && AllAccepted(lib, v, clean.value)
  {
    var kept := [];
    for i := 0 to |domains|
      invariant CleanSoFar(lib, v, domains[..i], kept)
    {
      var domain := TrimSpace(domains[i]);
      JudgedTrimmed(lib, v, domains[i]);
      var good := domain == "" || Accepted(lib, v, domain);
      if !good {
        assert !Passes(lib, v, domains[i]);
        return None;
      }
      CleanOneMore(lib, v, domains, kept, i);
      if domain == "" { continue; }
      kept := kept + [domain];
    }
    assert domains[..|domains|] == domains;
    clean := Some(kept);
  }

  lemma TrimTwice(s: string)
    ensures TrimSpace(TrimSpace(s)) == TrimSpace(s)
  {
  }

  // ---------------------------------------------------------------- accepted entries are stable

  ghost predicate HostChars(s: string) { forall i :: 0 <= i < |s| ==> IsValidDNSChar(s[i]) || IsUpper(s[i]) }

  predicate Open(s: string) { s == "" || s[|s| - 1] == '.' }

  /** What is assumed of idna.Lookup.ToASCII on an ASCII name: it maps letter case away, leaves its
      own results alone, refuses characters other than letters, digits, hyphens and dots, and
      does not make a name out of nothing or lose a final dot. */
  ghost predicate LooksUp(lib: Library, x: string) {
    && lib.idna(ToLower(x)) == lib.idna(x)
    && (lib.idna(x).Some? ==>
          var ascii := lib.idna(x).value;
          lib.idna(ascii) == Some(ascii) && HostChars(x) && (Open(x) ==> Open(ascii)))
  }

  ghost predicate IsIdnaLookup(lib: Library) { forall x :: LooksUp(lib, x) }

  lemma TrimNothing(s: string)
    requires s != "" && !IsSpace(s[0]) && !IsSpace(s[|s| - 1])
    ensures TrimSpace(s) == s && (s[|s| - 1] != '.' ==> TrimDot(s) == s)
  {
  }

  /** How a name begins and ends that has passed both checks. */
  lemma NameEnds(lib: Library, v: Oracles, domain: string)
    requires GoodName(lib, v, domain)
    ensures var ascii := DomainToASCII(lib, v, TrimDot(domain)).value;
            && lib.idna(TrimDot(domain)) == Some(ascii)
            && ascii != "" && ascii[0] != '/' && ascii[0] != '*' && ascii[|ascii| - 1] != '.'
            && !IsSpace(ascii[0]) && !IsSpace(ascii[|ascii| - 1])
  {
    var ascii := DomainToASCII(lib, v, TrimDot(domain)).value;
    var labels := Split(ascii, '.');
    assert GoodLabel(labels[0]) && GoodLabel(labels[|labels| - 1]);
    assert ascii[|ascii| - 1..] == [ascii[|ascii| - 1]];
    LastPart(ascii, '.');
    assert ascii[0] == labels[0][0];
  }

  /** A result of the lookup with such ends is left alone. */
  lemma LookedUpIsStable(lib: Library, ascii: string)
    requires LooksUp(lib, ascii) && lib.idna(ascii) == Some(ascii)
    requires ascii != "" && ascii[0] != '/' && ascii[0] != '*' && ascii[|ascii| - 1] != '.'
    requires !IsSpace(ascii[0]) && !IsSpace(ascii[|ascii| - 1])
    ensures Normalize(lib, ascii) == ascii
  {
    TrimNothing(ascii);
    assert ToLower(ascii)[0] != '*';
  }

  lemma PlainIsStable(lib: Library, v: Oracles, domain: string)
    requires IsIdnaLookup(lib) && GoodName(lib, v, domain)
    requires domain == TrimSpace(domain) && '*' !in domain && !IsRegexPattern(domain)
    ensures Normalize(lib, Normalize(lib, domain)) == Normalize(lib, domain)
  {
    var name := TrimDot(domain);
    NameEnds(lib, v, domain);
    var ascii := lib.idna(name).value;
    assert LooksUp(lib, name) && LooksUp(lib, ascii);
    NoStar(name);
    assert Normalize(lib, domain) == ascii;
    LookedUpIsStable(lib, ascii);
  }

  lemma NoStar(name: string)
    requires '*' !in name
    ensures ToLower(name) != "*"
  {
    if |name| == 1 { assert name[0] in name; }
  }

  lemma StarRefused(lib: Library, s: string)
    requires LooksUp(lib, s) && '*' in s
    ensures lib.idna(s) == None
  {
  }

  /** A pattern with a star that begins and ends like a host name is left alone. */
  lemma StarredIsStable(lib: Library, pattern: string)
    requires IsIdnaLookup(lib) && '*' in pattern && |pattern| > 1
    requires !IsSpace(pattern[0]) && pattern[0] != '/' && !IsSpace(pattern[|pattern| - 1]) && pattern[|pattern| - 1] != '.'
    ensures Normalize(lib, pattern) == ToLower(pattern)
    ensures Normalize(lib, ToLower(pattern)) == ToLower(pattern)
  {
    var lower := ToLower(pattern);
    var i :| 0 <= i < |pattern| && pattern[i] == '*';
    assert lower[i] == '*' && ToLower(lower) == lower;
    assert LooksUp(lib, lower);
    StarRefused(lib, lower);
    TrimNothing(pattern);
    TrimNothing(lower);
  }

  lemma LeadingStarIsStable(lib: Library, v: Oracles, domain: string)
    requires IsIdnaLookup(lib) && LeadingStar(domain) && domain[2..] != "" && GoodName(lib, v, domain[2..])
    requires domain == TrimSpace(domain)
    ensures Normalize(lib, Normalize(lib, domain)) == Normalize(lib, domain)
  {
    var rest, pattern := TrimDot(domain[2..]), TrimDot(domain);
    RestEnds(lib, v, domain[2..]);
    StarThenRest(domain);
    StarredIsStable(lib, pattern);
    SameButDot(lib, domain);
  }

  lemma RestEnds(lib: Library, v: Oracles, domain: string)
    requires IsIdnaLookup(lib) && GoodName(lib, v, domain)
    ensures var name := TrimDot(domain); name != "" && name[|name| - 1] != '.' && !IsSpace(name[|name| - 1])
  {
    var name := TrimDot(domain);
    NameEnds(lib, v, domain);
    assert LooksUp(lib, name) && !Open(name);
    assert IsValidDNSChar(name[|name| - 1]) || IsUpper(name[|name| - 1]);
  }

  lemma StarThenRest(domain: string)
    requires LeadingStar(domain) && domain[2..] != ""
    ensures TrimDot(domain) == "*." + TrimDot(domain[2..])
    ensures TrimDot(domain[2..]) != "" ==>
              TrimDot(domain)[|TrimDot(domain)| - 1] == TrimDot(domain[2..])[|TrimDot(domain[2..])| - 1]
  {
  }

  /** One final dot makes no difference. */
  lemma SameButDot(lib: Library, domain: string)
    requires domain == TrimSpace(domain) && domain != "" && domain[0] != '/'
    requires var name := TrimDot(domain); name != "" && !IsSpace(name[0]) && !IsSpace(name[|name| - 1]) && name[|name| - 1] != '.'
    ensures Normalize(lib, domain) == Normalize(lib, TrimDot(domain))
  {
    TrimNothing(TrimDot(domain));
  }

  lemma MiddleStarIsStable(lib: Library, v: Oracles, domain: string)
    requires IsIdnaLookup(lib) && '*' in domain && Compiled(TrimDot(domain)).Some? && domain == TrimSpace(domain)
    ensures Normalize(lib, Normalize(lib, domain)) == Normalize(lib, domain)
  {
    var pattern := TrimDot(domain);
    CompiledEnds(pattern);
    StarredIsStable(lib, pattern);
    SameButDot(lib, domain);
  }

  lemma CompiledEnds(pattern: string)
    requires Compiled(pattern).Some?
    ensures '*' in pattern && |pattern| > 1 && pattern[0] != '/' && pattern[|pattern| - 1] != '.'
    ensures !IsSpace(pattern[0]) && !IsSpace(pattern[|pattern| - 1])
  {
    var chunks := Split(pattern, '*');
    assert ValidStructure(pattern) && IsValidWildcardChunk(chunks[0]) && IsValidWildcardChunk(chunks[|chunks| - 1]);
    if pattern[0] != '*' { assert chunks[0][0] == pattern[0]; }
    if pattern[|pattern| - 1] != '*' { LastPart(pattern, '*'); }
    var i :| 0 <= i < |pattern| && pattern[i] == '.';
    assert i != 0;
  }

  /** Which entries are accepted, by their form: everything; a regular expression of up to 1024
      characters that compiles; a good name, after "*." or alone; any other wildcard that compiles. */
  lemma AcceptedByForm(lib: Library, v: Oracles, entry: string, body: string, name: string)
    requires TrimSpace(entry) == entry && TrimSpace(name) == name
    ensures !Accepted(lib, v, "") && Accepted(lib, v, "*")
    ensures body != "" ==> (Accepted(lib, v, "/" + body + "/") <==> |body| <= 1024 && v.compiles("/" + body + "/"))
    ensures name != "" && '*' !in name ==> (Accepted(lib, v, "*." + name) <==> GoodName(lib, v, name))
    ensures name != "" && '*' !in name && !(|name| > 2 && name[0] == '/' && name[|name| - 1] == '/') ==>
              (Accepted(lib, v, name) <==> GoodName(lib, v, name))
    ensures '*' in entry && entry != "*" && entry[0] != '/' && !("*." <= entry && '*' !in entry[2..]) ==>
              (Accepted(lib, v, entry) <==> Compiled(TrimDot(entry)).Some?)
  {
    assert TrimSpace("/" + body + "/") == "/" + body + "/";
    if name != "" && '*' !in name {
      var starred := "*." + name;
      assert starred[2..] == name;
      TrimNothing(starred);
    }
    if '*' in entry && entry != "*" && entry[0] != '/' { TrimNothing(entry); }
  }

  /** A label of a name in a policy: up to 63 letters, digits and hyphens, none of these at either end. */
  predicate PolicyLabel(l: string) {
    && 1 <= |l| <= 63 && l[0] != '-' && l[|l| - 1] != '-'
    && forall i :: 0 <= i < |l| ==> 'a' <= l[i] <= 'z' || 'A' <= l[i] <= 'Z' || '0' <= l[i] <= '9' || l[i] == '-'
  }

  /** Two labels or more, the last not a number. */
  ghost predicate IsPolicyName(labels: seq<string>, name: string) {
    && |labels| >= 2 && name == Join(labels, ".") && |name| <= 253
    && (forall i :: 0 <= i < |labels| ==> PolicyLabel(labels[i]))
    && var last := labels[|labels| - 1];
    exists i :: 0 <= i < |last| && !('0' <= last[i] <= '9')
  }

  lemma LabelIsPolicyLabel(l: string)
    ensures PolicyLabel(l) <==> GoodLabel(l)
  {
  }

  /** What makes a domain good: without one final dot it is looked up as such a name, and that name is
      no address. */
  lemma GoodNameExactly(lib: Library, v: Oracles, domain: string)
    ensures GoodName(lib, v, domain) <==>
            match lib.idna(if domain != "" && domain[|domain| - 1] == '.' then domain[..|domain| - 1] else domain)
            case None => false
            case Some(ascii) => !v.isIP(ascii) && exists labels: seq<string> :: IsPolicyName(labels, ascii)
  {
    match lib.idna(TrimDot(domain))
    case None =>
    case Some(ascii) =>
      SplitRejoins(ascii);
      if GoodName(lib, v, domain) {
        DottedHasLabels(ascii);
        GoodIsPolicyName(Split(ascii, '.'), ascii);
      }
      if labels: seq<string> :| IsPolicyName(labels, ascii) { PolicyNameIsGood(labels, ascii); }
  }

  lemma DottedHasLabels(s: string)
    requires '.' in s
    ensures |Split(s, '.')| >= 2
  {
    SplitRejoins(s);
  }

  lemma GoodIsPolicyName(labels: seq<string>, ascii: string)
    requires |labels| >= 2 && ascii == Join(labels, ".") && |ascii| <= 253 && !IsAllDigits(labels[|labels| - 1])
    requires forall i :: 0 <= i < |labels| ==> GoodLabel(labels[i])
    ensures IsPolicyName(labels, ascii)
  {
    GoodArePolicyLabels(labels);
    NoNumber(labels[|labels| - 1]);
  }

  lemma GoodArePolicyLabels(labels: seq<string>)
    requires forall i :: 0 <= i < |labels| ==> GoodLabel(labels[i])
    ensures forall i :: 0 <= i < |labels| ==> PolicyLabel(labels[i])
  {
    forall i | 0 <= i < |labels| ensures PolicyLabel(labels[i]) { LabelIsPolicyLabel(labels[i]); }
  }

  lemma NoNumber(s: string)
    requires !IsAllDigits(s)
    ensures exists i :: 0 <= i < |s| && !('0' <= s[i] <= '9')
  {
  }

  lemma PolicyNameIsGood(labels: seq<string>, ascii: string)
    requires IsPolicyName(labels, ascii)
    ensures GoodLabels(ascii) && ascii != "" && '.' in ascii
    ensures !("." <= ascii) && !HasSuffix(ascii, ".") && !Contains(ascii, "..")
  {
    forall i | 0 <= i < |labels| ensures GoodLabel(labels[i]) && Lacks(labels[i], '.') {
      assert PolicyLabel(labels[i]);
      LabelIsPolicyLabel(labels[i]);
    }
    JoinSplits(labels);
    assert ascii == labels[0] + "." + Join(labels[1..], ".") && ascii[|labels[0]|] == '.' && ascii[0] == labels[0][0];
    if Contains(ascii, "..") { EmptyBetweenDots(ascii); }
    if HasSuffix(ascii, ".") {
      assert ascii[|ascii| - 1..][0] == '.' && ascii == ascii[..|ascii| - 1] + "." + "";
      SplitAtDot(ascii[..|ascii| - 1], "");
    }
  }

  /** Normalizing an entry that policy validation accepts a second time changes nothing. */
  lemma AcceptedIsStable(lib: Library, v: Oracles, entry: string)
    requires IsIdnaLookup(lib) && Accepted(lib, v, entry)
    ensures Normalize(lib, Normalize(lib, entry)) == Normalize(lib, entry)
  {
    var domain := TrimSpace(entry);
    TrimTwice(entry);
    assert Normalize(lib, entry) == Normalize(lib, domain);
    if IsRegexPattern(domain) || domain == "*" {
    } else if LeadingStar(domain) {
      LeadingStarIsStable(lib, v, domain);
    } else if '*' in domain {
      MiddleStarIsStable(lib, v, domain);
    } else {
      PlainIsStable(lib, v, domain);
    }
  }
}

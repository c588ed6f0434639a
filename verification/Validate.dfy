/** internal/filter/validate.go: which host names and query names are accepted. */
module Validate {
  import opened GoStrings
  import opened Sequences
  import opened Streams

  const MAX_HOST_LENGTH := 253
  const MAX_LABEL_LENGTH := 63

  predicate IsValidDNSChar(c: char) { 'a' <= c <= 'z' || '0' <= c <= '9' || c == '.' || c == '-' }

  predicate HasValidLength(host: string) { 1 <= |host| <= MAX_HOST_LENGTH }

  predicate HasValidCharacters(host: string) { forall i :: 0 <= i < |host| ==> IsValidDNSChar(host[i]) }

  predicate HasValidStructure(host: string) {
    !("." <= host) && !("-" <= host) && !HasSuffix(host, "-") && !Contains(host, "..")
  }

  predicate IsValidLabel(part: string) {
    1 <= |part| <= MAX_LABEL_LENGTH && part[0] != '-' && part[|part| - 1] != '-'
  }

  predicate IsAllNumeric(s: string) { s != "" && forall i :: 0 <= i < |s| ==> '0' <= s[i] <= '9' }

  predicate IsValidTLD(tld: string) { |tld| >= 2 && !IsAllNumeric(tld) }

  predicate HasValidLabels(host: string) {
    var labels := Split(host, '.');
    && |labels| >= 2
    && (forall i :: 0 <= i < |labels| ==> IsValidLabel(labels[i]))
    && IsValidTLD(labels[|labels| - 1])
  }

  /** sanitizeHost */
  function SanitizeHost(host: string): Option<string> {
    if HasValidLength(host) && HasValidCharacters(host) && HasValidStructure(host) && HasValidLabels(host)
    then Some(host) else None
  }

  predicate IsValidQnameLabel(part: string) {
    && 1 <= |part| <= MAX_LABEL_LENGTH && part[0] != '-' && part[|part| - 1] != '-'
    && forall i :: 0 <= i < |part| ==> IsValidDNSChar(part[i]) || part[i] == '_'
  }

  /** sanitizeDNSQname */
  function SanitizeQname(qname: string): Option<string> {
    var lowered := ToLower(qname);
    var labels := Split(lowered, '.');
    if HasValidLength(qname) && forall i :: 0 <= i < |labels| ==> IsValidQnameLabel(labels[i])
    then Some(lowered) else None
  }

  // ---------------------------------------------------------------- reasons for the log

  const UNKNOWN := "unknown"

  /** determineStructureFailureReason */
  function StructureFailure(host: string): string {
    if "." <= host then "starts_with_dot"
    else if "-" <= host then "starts_with_hyphen"
    else if HasSuffix(host, "-") then "ends_with_hyphen"
    else if Contains(host, "..") then "contains_double_dot"
    else UNKNOWN
  }

  /** checkLabelValidity */
  function LabelReason(part: string, isTLD: bool): string {
    if !IsValidLabel(part) then
      if |part| < 1 then "empty_label"
      else if |part| > MAX_LABEL_LENGTH then "label_too_long"
      else if part[0] == '-' then "label_starts_with_hyphen"
      else if part[|part| - 1] == '-' then "label_ends_with_hyphen"
      else "invalid_label"
    else if isTLD && !IsValidTLD(part) then
      if |part| < 2 then "tld_too_short" else "tld_all_numeric"
    else ""
  }

  /** The scan of determineLabelFailureReason: the first label that has a reason. */
  function FirstReason(labels: seq<string>): string {
    if labels == [] then UNKNOWN
    else
      var reason := LabelReason(labels[0], |labels| == 1);
      if reason != "" then reason else FirstReason(labels[1..])
  }

  /** determineLabelFailureReason */
  function LabelFailure(host: string): string {
    var labels := Split(host, '.');
    if |labels| < 2 then "insufficient_labels" else FirstReason(labels)
  }

  // ---------------------------------------------------------------- splitting at dots

  lemma {:induction false} SplitRejoins(s: string)
    ensures Join(Split(s, '.'), ".") == s
    ensures forall i :: 0 <= i < |Split(s, '.')| ==> Lacks(Split(s, '.')[i], '.')
  {
    if s != [] {
      SplitRejoins(s[1..]);
      var rest := Split(s[1..], '.');
      var parts := Split(s, '.');
      assert parts[1..] == if s[0] == '.' then rest else rest[1..];
    }
  }

  lemma {:induction false} JoinSplits(labels: seq<string>)
    requires labels != [] && forall i :: 0 <= i < |labels| ==> Lacks(labels[i], '.')
    ensures Split(Join(labels, "."), '.') == labels
    decreases |labels|, |labels[0]|
  {
    var s := Join(labels, ".");
    if labels[0] == [] {
      if |labels| > 1 {
        assert s[1..] == Join(labels[1..], ".");
        JoinSplits(labels[1..]);
      }
    } else {
      var shorter := [labels[0][1..]] + labels[1..];
      assert shorter[1..] == labels[1..];
      assert s[1..] == Join(shorter, ".");
      JoinSplits(shorter);
      assert labels[0] == [labels[0][0]] + shorter[0];
    }
  }

  lemma SplitFirst(c: char, rest: string, sep: char)
    ensures Split([c] + rest, sep) ==
            if c == sep then [""] + Split(rest, sep) else [[c] + Split(rest, sep)[0]] + Split(rest, sep)[1..]
  {
    assert ([c] + rest)[1..] == rest;
  }

  lemma NewFirst(head: string, rest: seq<string>, tail: seq<string>)
    requires rest != []
    ensures [head] + (rest + tail)[1..] == [head] + rest[1..] + tail
  {
  }

  lemma SplitAtDotStep(c: char, a: string, b: string, end: string)
    requires Split(end, '.') == Split(a, '.') + Split(b, '.')
    ensures Split([c] + end, '.') == Split([c] + a, '.') + Split(b, '.')
  {
    SplitFirst(c, a, '.');
    SplitFirst(c, end, '.');
    if c == '.' {
      Assoc([""], Split(a, '.'), Split(b, '.'));
    } else {
      NewFirst([c] + Split(a, '.')[0], Split(a, '.'), Split(b, '.'));
    }
  }

  lemma {:induction false} SplitAtDot(a: string, b: string)
    ensures Split(a + "." + b, '.') == Split(a, '.') + Split(b, '.')
    decreases |a|
  {
    if a == [] {
      assert a + "." + b == ['.'] + b;
      SplitFirst('.', b, '.');
    } else {
      var end := a[1..] + "." + b;
      SplitAtDot(a[1..], b);
      SplitAtDotStep(a[0], a[1..], b, end);
      assert [a[0]] + a[1..] == a && [a[0]] + end == a + "." + b;
    }
  }

  lemma {:induction false} LastPart(s: string, sep: char)
    requires s != [] && s[|s| - 1] != sep
    ensures var parts := Split(s, sep); var last := parts[|parts| - 1];
            last != "" && last[|last| - 1] == s[|s| - 1]
  {
    if |s| > 1 {
      LastPart(s[1..], sep);
    } else {
      assert Split(s[1..], sep) == [""];
    }
  }

  lemma EmptyBetweenDots(s: string)
    requires Contains(s, "..")
    ensures "" in Split(s, '.')
  {
    var i :| 0 <= i <= |s| && ".." <= s[i..];
    assert s[i..][0] == s[i] && s[i..][1] == s[i + 1];
    var a, b := s[..i], s[i + 1..];
    assert s == a + "." + b;
    SplitAtDot(a, b);
    assert Split(s, '.')[|Split(a, '.')|] == Split(b, '.')[0] == "";
  }

  // ---------------------------------------------------------------- consistency

  /** Every name whose labels pass also passes the structure check, so of the two only the
      label check can be the one that refuses. */
  lemma LabelsGiveStructure(host: string)
    requires HasValidLabels(host)
    ensures HasValidStructure(host)
  {
    var parts := Split(host, '.');
    assert IsValidLabel(parts[0]) && IsValidLabel(parts[|parts| - 1]);
    assert host != [];
    if HasSuffix(host, "-") {
      assert host[|host| - 1..][0] == '-';
      LastPart(host, '.');
    }
    if Contains(host, "..") { EmptyBetweenDots(host); }
  }

  /** The logged reason is "unknown" exactly when there is nothing to report. */
  lemma ReasonsAreExact(host: string)
    ensures StructureFailure(host) == UNKNOWN <==> HasValidStructure(host)
    ensures LabelFailure(host) == UNKNOWN <==> HasValidLabels(host)
  {
    FirstReasonExact(Split(host, '.'));
  }

  lemma {:induction false} FirstReasonExact(labels: seq<string>)
    ensures labels == [] ==> FirstReason(labels) == UNKNOWN
    ensures labels != [] ==> (FirstReason(labels) == UNKNOWN <==>
              (forall i :: 0 <= i < |labels| ==> IsValidLabel(labels[i])) && IsValidTLD(labels[|labels| - 1]))
  {
    if labels != [] {
      FirstReasonExact(labels[1..]);
      var isTLD := |labels| == 1;
      assert LabelReason(labels[0], isTLD) != UNKNOWN;
      assert LabelReason(labels[0], isTLD) == "" <==> IsValidLabel(labels[0]) && (isTLD ==> IsValidTLD(labels[0]));
      if !isTLD { assert labels[1..][|labels| - 2] == labels[|labels| - 1]; }
      if forall i :: 0 <= i < |labels| ==> IsValidLabel(labels[i]) {
        assert forall i :: 0 <= i < |labels[1..]| ==> labels[1..][i] == labels[i + 1];
      }
      if forall i :: 0 <= i < |labels[1..]| ==> IsValidLabel(labels[1..][i]) {
        assert forall i :: 1 <= i < |labels| ==> labels[i] == labels[1..][i - 1];
      }
    }
  }

  /** The query names accepted are exactly the dotted sequences of at least one good label
      within the length limit, and they are returned in lower case. */
  lemma QnameGrammar(qname: string)
    ensures SanitizeQname(qname).Some? <==>
            HasValidLength(qname) &&
            exists labels: seq<string> :: IsGoodName(labels, ToLower(qname))
    ensures SanitizeQname(qname).Some? ==> SanitizeQname(qname).value == ToLower(qname)
  {
    var lowered := ToLower(qname);
    SplitRejoins(lowered);
    if SanitizeQname(qname).Some? {
      assert IsGoodName(Split(lowered, '.'), lowered);
    }
    if labels: seq<string> :| IsGoodName(labels, lowered) {
      JoinSplits(labels);
    }
  }

  ghost predicate IsGoodName(labels: seq<string>, name: string) {
    labels != [] && Join(labels, ".") == name &&
    forall i :: 0 <= i < |labels| ==> IsValidQnameLabel(labels[i]) && Lacks(labels[i], '.')
  }

  /** A label of a host name: up to 63 lower-case letters, digits and hyphens, none of these at
      either end. */
  predicate HostLabel(l: string) {
    && 1 <= |l| <= 63 && l[0] != '-' && l[|l| - 1] != '-'
    && forall i :: 0 <= i < |l| ==> 'a' <= l[i] <= 'z' || '0' <= l[i] <= '9' || l[i] == '-'
  }

  /** Two labels or more, the last of two characters or more and not a number. */
  ghost predicate IsHostName(labels: seq<string>, name: string) {
    && |labels| >= 2 && name == Join(labels, ".") && |name| <= 253
    && (forall i :: 0 <= i < |labels| ==> HostLabel(labels[i]))
    && var last := labels[|labels| - 1];
    |last| >= 2 && exists i :: 0 <= i < |last| && !('0' <= last[i] <= '9')
  }

  /** The hosts accepted are exactly those names, and they are returned as they are. */
  lemma HostGrammar(host: string)
    ensures SanitizeHost(host).Some? <==> exists labels: seq<string> :: IsHostName(labels, host)
    ensures SanitizeHost(host).Some? ==> SanitizeHost(host).value == host
  {
    SplitRejoins(host);
    if SanitizeHost(host).Some? {
      var labels := Split(host, '.');
      forall i | 0 <= i < |labels| ensures HostLabel(labels[i]) { GoodHostLabel(host, i); }
      assert IsHostName(labels, host);
    }
    if labels: seq<string> :| IsHostName(labels, host) { NamesAreHosts(labels, host); }
  }

  lemma GoodHostLabel(host: string, i: nat)
    requires HasValidCharacters(host) && HasValidLabels(host) && i < |Split(host, '.')|
    ensures HostLabel(Split(host, '.')[i])
  {
    var l := Split(host, '.')[i];
    SplitRejoins(host);
    assert IsValidLabel(l);
    forall j | 0 <= j < |l| ensures 'a' <= l[j] <= 'z' || '0' <= l[j] <= '9' || l[j] == '-' { LabelChars(host, i, j); }
  }

  lemma NamesAreHosts(labels: seq<string>, host: string)
    requires IsHostName(labels, host)
    ensures SanitizeHost(host).Some?
  {
    forall i | 0 <= i < |labels| ensures IsValidLabel(labels[i]) && Lacks(labels[i], '.') { assert HostLabel(labels[i]); }
    JoinSplits(labels);
    JoinedChars(labels);
    LabelsGiveStructure(host);
  }

  lemma {:induction false} JoinedChars(labels: seq<string>)
    requires labels != [] && forall i :: 0 <= i < |labels| ==> HostLabel(labels[i])
    ensures HasValidCharacters(Join(labels, ".")) && Join(labels, ".") != ""
  {
    assert HostLabel(labels[0]);
    if |labels| > 1 { JoinedChars(labels[1..]); }
  }

  /** A label's characters come from the name it is part of. */
  lemma {:induction false} LabelChars(s: string, i: nat, j: nat)
    requires i < |Split(s, '.')| && j < |Split(s, '.')[i]|
    ensures Split(s, '.')[i][j] in s
  {
    if s != [] {
      var rest := Split(s[1..], '.');
      if s[0] == '.' {
        LabelChars(s[1..], i - 1, j);
        assert rest[i - 1][j] in s[1..];
      } else if i > 0 {
        LabelChars(s[1..], i, j);
        assert rest[i][j] in s[1..];
      } else if j > 0 {
        LabelChars(s[1..], 0, j - 1);
        assert rest[0][j - 1] in s[1..];
      }
    }
  }

  lemma LowerFixed(s: string)
    requires HasValidCharacters(s)
    ensures ToLower(s) == s
  {
  }

  /** What the HTTP and TLS proxies accept as a host, the DNS proxy accepts unchanged. */
  lemma HostsAreQnames(host: string)
    requires SanitizeHost(host).Some?
    ensures SanitizeHost(host) == Some(host) && SanitizeQname(host) == Some(host)
  {
    LowerFixed(host);
    var labels := Split(host, '.');
    forall i | 0 <= i < |labels| ensures IsValidQnameLabel(labels[i]) {
      assert IsValidLabel(labels[i]);
      forall j | 0 <= j < |labels[i]| ensures IsValidDNSChar(labels[i][j]) { LabelChars(host, i, j); }
    }
  }

  /** Sanitizing a query name twice is sanitizing it once. */
  lemma QnameIdempotent(qname: string)
    requires SanitizeQname(qname).Some?
    ensures SanitizeQname(SanitizeQname(qname).value) == SanitizeQname(qname)
  {
    assert ToLower(ToLower(qname)) == ToLower(qname);
  }

  /** An accepted query name has only lower-case letters, digits, hyphens, underscores and dots,
      no empty label, and so cannot be read as a pattern or lose anything to normalization's
      trimming. */
  lemma AcceptedIsPlain(qname: string)
    requires SanitizeQname(qname).Some?
    ensures var name := SanitizeQname(qname).value;
            && name != "" && name[0] != '.' && name[|name| - 1] != '.'
            && forall i :: 0 <= i < |name| ==> IsValidDNSChar(name[i]) || name[i] == '_'
    ensures var name := SanitizeQname(qname).value; TrimSpace(name) == name && TrimDot(name) == name && IsLower(name)
  {
    var name := SanitizeQname(qname).value;
    var labels := Split(name, '.');
    assert IsValidQnameLabel(labels[0]) && IsValidQnameLabel(labels[|labels| - 1]);
    CharsFromLabels(name);
    if name[|name| - 1] == '.' {
      assert name == name[..|name| - 1] + "." + "";
      SplitAtDot(name[..|name| - 1], "");
    }
  }

  lemma {:induction false} CharsFromLabels(s: string)
    requires forall i, j :: 0 <= i < |Split(s, '.')| && 0 <= j < |Split(s, '.')[i]| ==>
               IsValidDNSChar(Split(s, '.')[i][j]) || Split(s, '.')[i][j] == '_'
    ensures forall i :: 0 <= i < |s| ==> IsValidDNSChar(s[i]) || s[i] == '_'
  {
    if s != [] {
      var rest, parts := Split(s[1..], '.'), Split(s, '.');
      forall i, j | 0 <= i < |rest| && 0 <= j < |rest[i]| ensures IsValidDNSChar(rest[i][j]) || rest[i][j] == '_' {
        if s[0] == '.' { assert rest[i][j] == parts[i + 1][j]; }
        else if i == 0 { assert rest[i][j] == parts[0][j + 1]; }
        else { assert rest[i][j] == parts[i][j]; }
      }
      CharsFromLabels(s[1..]);
      if s[0] != '.' { assert parts[0][0] == s[0]; }
      forall i | 0 <= i < |s| ensures IsValidDNSChar(s[i]) || s[i] == '_' {
        if i > 0 { assert s[i] == s[1..][i - 1]; }
      }
    }
  }
}

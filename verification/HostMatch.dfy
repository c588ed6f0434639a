/** Host policy: internal/filter/common.go and the wildcard compiler of internal/policy/policy.go.
    IDNA conversion and the user's regular expressions come from libraries outside this model
    and are parameters. */
module HostMatch {
  import opened GoStrings
  import opened Streams
  import Validate

  /** `idna` is idna.Lookup.ToASCII (None for an error); `regex` says whether a slash-delimited
      pattern compiles and matches a host. */
  datatype Library = Library(idna: string -> Option<string>, regex: (string, string) -> bool)

  predicate IsRegexPattern(s: string) { |s| > 2 && s[0] == '/' && s[|s| - 1] == '/' }

  /** normalizeDomain */
  function Normalize(lib: Library, domain: string): string {
    var trimmed := TrimSpace(domain);
    if IsRegexPattern(trimmed) then trimmed
    else
      var lower := ToLower(TrimDot(trimmed));
      if lower == "*" then lower
      else match lib.idna(lower)
        case Some(ascii) => ascii
        case None => lower
  }

  /** Around a name, blanks and then one final dot go, and the rest is looked up in lower case, or
      kept in it when the lookup fails. A lone star stays. */
  lemma NormalizeName(lib: Library, before: string, name: string, dot: string, after: string)
    requires Blanks(before) && Blanks(after) && (dot == "" || dot == ".")
    requires name != "" && !IsBlank(name[0]) && !IsBlank(name[|name| - 1]) && name[0] != '/' && name[|name| - 1] != '.'
    ensures Normalize(lib, before + (name + dot) + after) ==
            if name == "*" then "*"
            else match lib.idna(ToLower(name)) case Some(ascii) => ascii case None => ToLower(name)
  {
    TrimSpaceExactly(before, name + dot, after);
    assert (name + ".")[..|name|] == name && name + "" == name;
    if ToLower(name) == "*" { assert |name| == 1 && LowerChar(name[0]) == '*' && name == [name[0]]; }
  }

  /** A regular expression between slashes is kept as it is. */
  lemma NormalizeRegex(lib: Library, before: string, body: string, after: string)
    requires Blanks(before) && Blanks(after) && body != ""
    ensures Normalize(lib, before + ("/" + body + "/") + after) == "/" + body + "/"
  {
    TrimSpaceExactly(before, "/" + body + "/", after);
  }

  /** NormalizePatterns */
  function NormalizeAll(lib: Library, patterns: seq<string>): (r: seq<string>)
    ensures |r| == |patterns|
  {
    seq(|patterns|, i requires 0 <= i < |patterns| => Normalize(lib, patterns[i]))
  }

  // ---------------------------------------------------------------- wildcards, declaratively

  /** Each star stands for one or more characters, everything else for itself, over the whole host. */
  predicate WildMatch(pattern: string, host: string)
    decreases |pattern|
  {
    if pattern == [] then host == []
    else if pattern[0] == '*' then exists k :: 1 <= k <= |host| && WildMatch(pattern[1..], host[k..])
    else host != [] && host[0] == pattern[0] && WildMatch(pattern[1..], host[1..])
  }

  // ---------------------------------------------------------------- wildcards, compiled

  /** The regular expressions the compiler emits: quoted literals and `.+`, anchored at both
      ends, matched without regard to letter case; a dot does not match a newline. */
  datatype Node = Literal(text: string) | AnyPlus

  predicate Accepts(re: seq<Node>, host: string)
    decreases |re|
  {
    if re == [] then host == []
    else match re[0]
      case Literal(text) => LiteralAt(text, host) && Accepts(re[1..], host[|text|..])
      case AnyPlus => exists k :: 1 <= k <= |host| && '\n' !in host[..k] && Accepts(re[1..], host[k..])
  }

  predicate LiteralAt(text: string, host: string) {
    |text| <= |host| && forall i :: 0 <= i < |text| ==> LowerChar(text[i]) == LowerChar(host[i])
  }

  /** validateWildcardStructure */
  predicate ValidStructure(pattern: string) {
    && '*' in pattern && pattern != "*"
    && |pattern| <= Validate.MAX_HOST_LENGTH
    && !Contains(pattern, "**")
    && !Contains(pattern, "..") && pattern[0] != '.' && pattern[|pattern| - 1] != '.'
    && '.' in pattern
  }

  predicate IsValidWildcardChunk(chunk: string) {
    forall i :: 0 <= i < |chunk| ==>
      'a' <= chunk[i] <= 'z' || 'A' <= chunk[i] <= 'Z' || '0' <= chunk[i] <= '9' || chunk[i] == '.' || chunk[i] == '-'
  }

  /** strings.Join(parts, `.+`) as an expression. */
  function Interleave(parts: seq<string>): seq<Node>
    requires parts != []
  {
    if |parts| == 1 then [Literal(parts[0])] else [Literal(parts[0]), AnyPlus] + Interleave(parts[1..])
  }

  function LowerAll(parts: seq<string>): (r: seq<string>)
    ensures |r| == |parts|
  {
    seq(|parts|, i requires 0 <= i < |parts| => ToLower(parts[i]))
  }

  function Compiled(pattern: string): Option<seq<Node>> {
    var parts := Split(pattern, '*');
    if !ValidStructure(pattern) || exists i :: 0 <= i < |parts| && !IsValidWildcardChunk(parts[i]) then None
    else Some(Interleave(LowerAll(parts)))
  }

  /** CompileWildcardPattern: checks and rewrites the chunks in place, then joins them. */
  method CompileWildcardPattern(pattern: string) returns (re: Option<seq<Node>>)
    ensures re == Compiled(pattern)
  {
    if !ValidStructure(pattern) { return None; }
    var parts := Split(pattern, '*');
    ghost var chunks := parts;
    for i := 0 to |parts|
      invariant |parts| == |chunks|
      invariant forall j :: 0 <= j < i ==> IsValidWildcardChunk(chunks[j]) && parts[j] == ToLower(chunks[j])
      invariant forall j :: i <= j < |parts| ==> parts[j] == chunks[j]
    {
      if !IsValidWildcardChunk(parts[i]) { return None; }
      parts := parts[i := ToLower(parts[i])];
    }
    assert parts == LowerAll(chunks);
    re := Some(Interleave(parts));
  }

  predicate WildcardChar(c: char) {
    'a' <= c <= 'z' || 'A' <= c <= 'Z' || '0' <= c <= '9' || c == '.' || c == '-'
  }

  predicate ValidChunks(parts: seq<string>) { forall i :: 0 <= i < |parts| ==> IsValidWildcardChunk(parts[i]) }

  predicate WildcardChars(s: string) { forall i :: 0 <= i < |s| ==> s[i] == '*' || WildcardChar(s[i]) }

  lemma {:induction false} ChunkChars(s: string)
    ensures ValidChunks(Split(s, '*')) <==> WildcardChars(s)
  {
    if s == "" {
      assert Split(s, '*') == [""];
    } else {
      ChunkChars(s[1..]);
      FirstChar(s[0], s[1..]);
      assert [s[0]] + s[1..] == s;
      var rest := Split(s[1..], '*');
      if s[0] == '*' {
        FirstChunk("", rest);
      } else {
        ChunkGrows(s[0], rest[0]);
        FirstChunk([s[0]] + rest[0], rest[1..]);
        FirstChunk(rest[0], rest[1..]);
        assert [rest[0]] + rest[1..] == rest;
      }
    }
  }

  lemma FirstChar(c: char, s: string)
    ensures WildcardChars([c] + s) <==> (c == '*' || WildcardChar(c)) && WildcardChars(s)
  {
    var more := [c] + s;
    assert more[0] == c;
    if WildcardChars(more) {
      forall i | 0 <= i < |s| ensures s[i] == '*' || WildcardChar(s[i]) { assert more[i + 1] == s[i]; }
    }
  }

  lemma ChunkGrows(c: char, chunk: string)
    ensures IsValidWildcardChunk([c] + chunk) <==> WildcardChar(c) && IsValidWildcardChunk(chunk)
  {
    var more := [c] + chunk;
    assert more[0] == c;
    if IsValidWildcardChunk(more) {
      forall i | 0 <= i < |chunk| ensures WildcardChar(chunk[i]) { assert more[i + 1] == chunk[i]; }
    }
  }

  lemma FirstChunk(first: string, rest: seq<string>)
    ensures ValidChunks([first] + rest) <==> IsValidWildcardChunk(first) && ValidChunks(rest)
  {
    var parts := [first] + rest;
    assert parts[0] == first;
    if ValidChunks(parts) {
      forall i | 0 <= i < |rest| ensures IsValidWildcardChunk(rest[i]) { assert parts[i + 1] == rest[i]; }
    }
  }

  /** The wildcard patterns that compile: stars, never two in a row and not alone, among letters, digits,
      hyphens and at least one dot, no two dots in a row and none at an end, up to 253 characters. */
  lemma CompilesExactly(pattern: string)
    ensures Compiled(pattern).Some? <==>
            && '*' in pattern && '.' in pattern && |pattern| <= 253
            && WildcardChars(pattern)
            && !Contains(pattern, "**") && !Contains(pattern, "..") && pattern[0] != '.' && pattern[|pattern| - 1] != '.'
  {
    ChunkChars(pattern);
  }

  // ---------------------------------------------------------------- one pattern

  /** A leading "*." and no other star, which matchPattern handles by suffix. */
  predicate LeadingStar(pattern: string) { "*." <= pattern && '*' !in pattern[2..] }

  function MatchPattern(lib: Library, host: string, pattern: string): bool {
    if pattern == "*" then true
    else if IsRegexPattern(pattern) then lib.regex(pattern, host)
    else if LeadingStar(pattern) then HasSuffix(host, pattern[1..]) && |host| > |pattern[1..]|
    else if '*' in pattern then
      match Compiled(pattern)
      case Some(re) => Accepts(re, host)
      case None => false
    else host == pattern
  }

  // ---------------------------------------------------------------- the three forms agree

  lemma LiteralStep(c: char, text: string, rest: seq<Node>, host: string)
    requires LowerChar(c) == c && IsLower(host)
    ensures Accepts([Literal([c] + text)] + rest, host) <==>
            host != [] && host[0] == c && Accepts([Literal(text)] + rest, host[1..])
  {
  }

  lemma {:induction false} CompiledMeansWild(pattern: string, host: string)
    requires IsLower(pattern) && IsLower(host) && '\n' !in host
    ensures Accepts(Interleave(LowerAll(Split(pattern, '*'))), host) <==> WildMatch(pattern, host)
    decreases |pattern|
  {
    var parts := Split(pattern, '*');
    var re := Interleave(LowerAll(parts));
    if pattern == [] {
      assert LowerAll(parts) == [""] && re == [Literal("")];
    } else {
      var rest := Split(pattern[1..], '*');
      var tail := Interleave(LowerAll(rest));
      forall k | 0 <= k <= |host| ensures Accepts(tail, host[k..]) <==> WildMatch(pattern[1..], host[k..]) {
        CompiledMeansWild(pattern[1..], host[k..]);
      }
      if pattern[0] == '*' {
        StarStep(parts, rest, tail, host);
      } else {
        assert LowerAll(parts)[0] == [pattern[0]] + ToLower(rest[0]);
        assert LowerAll(parts)[1..] == LowerAll(rest)[1..];
        assert tail == [Literal(ToLower(rest[0]))] + tail[1..];
        assert re == [Literal([pattern[0]] + ToLower(rest[0]))] + tail[1..];
        LiteralStep(pattern[0], ToLower(rest[0]), tail[1..], host);
        if host != [] { assert Accepts(tail, host[1..]) <==> WildMatch(pattern[1..], host[1..]); }
      }
    }
  }

  lemma StarStep(parts: seq<string>, rest: seq<string>, tail: seq<Node>, host: string)
    requires rest != [] && parts == [""] + rest && tail == Interleave(LowerAll(rest)) && '\n' !in host
    ensures Accepts(Interleave(LowerAll(parts)), host) <==>
            exists k :: 1 <= k <= |host| && Accepts(tail, host[k..])
  {
    assert LowerAll(parts)[1..] == LowerAll(rest) && LowerAll(parts)[0] == "";
    var re := Interleave(LowerAll(parts));
    assert re == [Literal(""), AnyPlus] + tail;
    assert re[1..][1..] == tail && re[1..][0] == AnyPlus && host[0..] == host;
    forall k | 1 <= k <= |host| ensures '\n' !in host[..k] {}
  }

  lemma {:induction false} LiteralWild(pattern: string, host: string)
    requires '*' !in pattern
    ensures WildMatch(pattern, host) <==> host == pattern
    decreases |pattern|
  {
    if pattern != [] {
      if host != [] {
        LiteralWild(pattern[1..], host[1..]);
        assert host == [host[0]] + host[1..] && pattern == [pattern[0]] + pattern[1..];
      }
    }
  }

  lemma LeadingStarWild(pattern: string, host: string)
    requires LeadingStar(pattern)
    ensures WildMatch(pattern, host) <==> HasSuffix(host, pattern[1..]) && |host| > |pattern[1..]|
  {
    var suffix := pattern[1..];
    assert '*' !in suffix by { assert suffix == [suffix[0]] + pattern[2..]; }
    forall k | 1 <= k <= |host| ensures WildMatch(suffix, host[k..]) <==> host[k..] == suffix {
      LiteralWild(suffix, host[k..]);
    }
    if HasSuffix(host, suffix) && |host| > |suffix| {
      assert WildMatch(suffix, host[|host| - |suffix|..]);
    }
  }

  /** What stands between slashes is a regular expression, and matches as that. */
  lemma MatchMeansRegex(lib: Library, host: string, body: string)
    requires body != ""
    ensures MatchPattern(lib, host, "/" + body + "/") <==> lib.regex("/" + body + "/", host)
  {
  }

  /** Patterns that matchPattern can use at all; the others, which policy validation refuses,
      match nothing. */
  predicate Usable(pattern: string) {
    '*' !in pattern || LeadingStar(pattern) || Compiled(pattern).Some?
  }

  /** Suffix fast path, compiled expression and exact comparison have one meaning, for every
      pattern but a regular expression and every normalized host without a newline. */
  lemma MatchMeansWild(lib: Library, host: string, pattern: string)
    requires !IsRegexPattern(pattern) && IsLower(pattern) && IsLower(host) && '\n' !in host
    ensures MatchPattern(lib, host, pattern) <==>
            pattern == "*" || (Usable(pattern) && WildMatch(pattern, host))
  {
    if pattern != "*" {
      if LeadingStar(pattern) {
        LeadingStarWild(pattern, host);
      } else if '*' in pattern {
        CompiledMeansWild(pattern, host);
      } else {
        LiteralWild(pattern, host);
      }
    }
  }

  lemma {:induction false} WildPrefix(a: string, rest: string, host: string)
    requires '*' !in a
    ensures WildMatch(a + rest, host) <==> a <= host && WildMatch(rest, host[|a|..])
    decreases |a|
  {
    if a == "" {
      assert a + rest == rest && host[0..] == host;
    } else {
      assert (a + rest)[1..] == a[1..] + rest && (a + rest)[0] == a[0];
      if host != "" {
        WildPrefix(a[1..], rest, host[1..]);
        if a <= host { assert a[1..] <= host[1..]; }
        if a[0] == host[0] && a[1..] <= host[1..] { assert a == [a[0]] + a[1..] && host == [host[0]] + host[1..]; }
        assert a <= host ==> host[1..][|a| - 1..] == host[|a|..];
      }
    }
  }

  lemma StarThenText(b: string, host: string)
    requires '*' !in b
    ensures WildMatch("*" + b, host) <==> |host| > |b| && host[|host| - |b|..] == b
  {
    assert ("*" + b)[1..] == b;
    forall k | 1 <= k <= |host| ensures WildMatch(b, host[k..]) <==> host[k..] == b { LiteralWild(b, host[k..]); }
    if |host| > |b| && host[|host| - |b|..] == b { assert WildMatch(b, host[|host| - |b|..]); }
  }

  lemma WildOneStar(a: string, b: string, host: string)
    requires '*' !in a && '*' !in b
    ensures WildMatch(a + ("*" + b), host) <==> exists middle: string :: middle != "" && host == a + middle + b
  {
    WildPrefix(a, "*" + b, host);
    if a <= host {
      StarThenText(b, host[|a|..]);
      if WildMatch("*" + b, host[|a|..]) { MiddleBetween(a, b, host); }
    }
    if middle: string :| middle != "" && host == a + middle + b { MiddleLeaves(a, middle, b); }
  }

  lemma MiddleBetween(a: string, b: string, host: string)
    requires a <= host && |host[|a|..]| > |b| && host[|host| - |b|..] == b
    ensures exists middle: string :: middle != "" && host == a + middle + b
  {
    var middle := host[|a|..|host| - |b|];
    assert host == a + middle + b;
  }

  lemma MiddleLeaves(a: string, middle: string, b: string)
    requires middle != ""
    ensures var host := a + middle + b; a <= host && var rest := host[|a|..]; |rest| > |b| && rest[|rest| - |b|..] == b
  {
    assert (a + middle + b)[|a|..] == middle + b;
  }

  /** A star between two texts stands for one or more characters, dots among them. */
  lemma OneStar(lib: Library, a: string, b: string, host: string)
    requires '*' !in a && '*' !in b && a + b != "" && !IsRegexPattern(a + ("*" + b)) && Usable(a + ("*" + b))
    requires IsLower(a) && IsLower(b) && IsLower(host) && '\n' !in host
    ensures MatchPattern(lib, host, a + ("*" + b)) <==> exists middle: string :: middle != "" && host == a + middle + b
  {
    assert IsLower("*" + b) && |a + ("*" + b)| > 1;
    assert IsLower(a + ("*" + b));
    MatchMeansWild(lib, host, a + ("*" + b));
    WildOneStar(a, b, host);
  }
}

/** The few operations of Go's `strings` package that the modelled code relies on,
    for ASCII strings. */
module GoStrings {
  import opened Sequences

  /** strings.Join */
  function Join(parts: seq<string>, sep: string): string {
    if parts == [] then ""
    else if |parts| == 1 then parts[0]
    else parts[0] + sep + Join(parts[1..], sep)
  }

  /** strconv.Itoa on naturals, as `%d` prints them. */
  function Decimal(n: nat): (text: string)
    ensures text != []
    ensures forall i :: 0 <= i < |text| ==> '0' <= text[i] <= '9'
  {
    var digit := ['0' + (n % 10) as char];
    if n < 10 then digit else Decimal(n / 10) + digit
  }

  function LowerChar(c: char): char {
    if 'A' <= c <= 'Z' then c - 'A' + 'a' else c
  }

  /** strings.ToLower on ASCII. */
  function ToLower(s: string): (lower: string)
    ensures |lower| == |s|
    ensures forall i :: 0 <= i < |s| ==> lower[i] == LowerChar(s[i])
  {
    seq(|s|, i requires 0 <= i < |s| => LowerChar(s[i]))
  }

  /** The letters, one by one; nothing else has a lower case. */
  lemma LowerCase()
    ensures ToLower("ABCDEFGHIJKLM") == "abcdefghijklm" && ToLower("NOPQRSTUVWXYZ") == "nopqrstuvwxyz"
    ensures forall c :: c !in "ABCDEFGHIJKLM" && c !in "NOPQRSTUVWXYZ" ==> LowerChar(c) == c
  {
    var first, last := "ABCDEFGHIJKLM", "NOPQRSTUVWXYZ";
    forall c | 'A' <= c <= 'Z' ensures c in first || c in last {
      if c <= 'M' { assert first[c as int - 'A' as int] == c; } else { assert last[c as int - 'N' as int] == c; }
    }
  }

  predicate IsLower(s: string) { forall i :: 0 <= i < |s| ==> LowerChar(s[i]) == s[i] }

  predicate IsSpace(c: char) { c == ' ' || '\t' <= c <= '\r' }

  /** strings.TrimSpace on ASCII. */
  function TrimSpace(s: string): (t: string)
    ensures t != [] ==> !IsSpace(t[0]) && !IsSpace(t[|t| - 1])
    ensures |t| <= |s|
  {
    if s == [] then []
    else if IsSpace(s[0]) then TrimSpace(s[1..])
    else if IsSpace(s[|s| - 1]) then TrimSpace(s[..|s| - 1])
    else s
  }

  predicate IsBlank(c: char) { c in {' ', '\t', '\n', '\U{0B}', '\U{0C}', '\r'} }

  ghost predicate Blanks(s: string) { forall i :: 0 <= i < |s| ==> IsBlank(s[i]) }

  lemma SpacesAreBlanks(c: char)
    ensures IsSpace(c) <==> IsBlank(c)
  {
  }

  lemma {:induction false} BlanksGo(s: string)
    requires Blanks(s)
    ensures TrimSpace(s) == ""
  {
    if s != "" {
      SpacesAreBlanks(s[0]);
      BlanksGo(s[1..]);
    }
  }

  lemma TrimFirst(c: char, rest: string)
    requires IsBlank(c)
    ensures TrimSpace([c] + rest) == TrimSpace(rest)
  {
    SpacesAreBlanks(c);
    assert ([c] + rest)[1..] == rest;
  }

  lemma TrimLast(s: string, c: char)
    requires IsBlank(c) && s != "" && !IsBlank(s[0])
    ensures TrimSpace(s + [c]) == TrimSpace(s)
  {
    SpacesAreBlanks(c);
    SpacesAreBlanks(s[0]);
    assert (s + [c])[..|s|] == s;
  }

  lemma {:induction false} TrimEnd(core: string, after: string)
    requires Blanks(after) && core != "" && !IsBlank(core[0]) && !IsBlank(core[|core| - 1])
    ensures TrimSpace(core + after) == core
    decreases |after|
  {
    if after == "" {
      assert core + after == core;
      SpacesAreBlanks(core[0]);
      SpacesAreBlanks(core[|core| - 1]);
    } else {
      var n := |after| - 1;
      assert core + after == core + after[..n] + [after[n]];
      TrimLast(core + after[..n], after[n]);
      TrimEnd(core, after[..n]);
    }
  }

  /** Blanks go at both ends and nowhere else. */
  lemma {:induction false} TrimSpaceExactly(before: string, core: string, after: string)
    requires Blanks(before) && Blanks(after) && (core != "" ==> !IsBlank(core[0]) && !IsBlank(core[|core| - 1]))
    ensures TrimSpace(before + core + after) == core
    decreases |before|
  {
    if core == "" {
      BlanksGo(before + core + after);
    } else if before == "" {
      assert before + core + after == core + after;
      TrimEnd(core, after);
    } else {
      assert before + core + after == [before[0]] + (before[1..] + core + after);
      TrimFirst(before[0], before[1..] + core + after);
      TrimSpaceExactly(before[1..], core, after);
    }
  }

  predicate HasSuffix(s: string, suffix: string) {
    |suffix| <= |s| && s[|s| - |suffix|..] == suffix
  }

  /** strings.TrimSuffix(s, ".") */
  function TrimDot(s: string): string {
    if s != [] && s[|s| - 1] == '.' then s[..|s| - 1] else s
  }

  predicate Contains(s: string, sub: string) {
    exists i :: 0 <= i <= |s| && sub <= s[i..]
  }

  lemma ContainsExactly(s: string, sub: string)
    ensures Contains(s, sub) <==> exists before: string, after: string :: s == before + sub + after
  {
    if Contains(s, sub) {
      var i :| 0 <= i <= |s| && sub <= s[i..];
      assert s == s[..i] + sub + s[i..][|sub|..];
    }
    if before: string, after: string :| s == before + sub + after {
      assert s[|before|..] == sub + after;
    }
  }

  /** strings.Split on a one-character separator. */
  function Split(s: string, sep: char): (parts: seq<string>)
    ensures |parts| >= 1
  {
    if s == [] then [""]
    else
      var rest := Split(s[1..], sep);
      if s[0] == sep then [""] + rest else [[s[0]] + rest[0]] + rest[1..]
  }

  /** strings.ReplaceAll for a non-empty old text: leftmost matches, never overlapping. */
  function ReplaceAll(s: string, old_: string, new_: string): string
    requires old_ != []
    decreases |s|
  {
    if |s| < |old_| then s
    else if old_ <= s then new_ + ReplaceAll(s[|old_|..], old_, new_)
    else [s[0]] + ReplaceAll(s[1..], old_, new_)
  }

  ghost predicate OccursAt(s: string, i: nat, pat: string) {
    i <= |s| && pat <= s[i..]
  }

  ghost predicate Lacks(s: string, c: char) {
    forall i :: 0 <= i < |s| ==> s[i] != c
  }

  /** A prefix in which no match starts is copied unchanged. */
  lemma {:induction false} ReplaceSkips(a: string, b: string, pat: string, rep: string)
    requires pat != []
    requires forall i :: 0 <= i < |a| ==> !OccursAt(a + b, i, pat)
    ensures ReplaceAll(a + b, pat, rep) == a + ReplaceAll(b, pat, rep)
  {
    if a == [] {
      assert a + b == b;
    } else {
      var s := a + b;
      assert s[0..] == s && !OccursAt(s, 0, pat);
      assert s[1..] == a[1..] + b;
      forall i | 0 <= i < |a[1..]| ensures !OccursAt(a[1..] + b, i, pat) {
        assert !OccursAt(s, i + 1, pat);
        assert s[1..][i..] == s[i + 1..];
      }
      ReplaceSkips(a[1..], b, pat, rep);
    }
  }

  /** A match fixes the characters of the text it covers. */
  lemma OccurrenceCovers(s: string, i: nat, pat: string, k: nat)
    requires OccursAt(s, i, pat) && k < |pat|
    ensures i + k < |s| && s[i + k] == pat[k]
  {
  }

  lemma OccurrenceCoversBoth(s: string, i: nat, pat: string, k: nat, m: nat)
    requires OccursAt(s, i, pat) && k < |pat| && m < |pat|
    ensures i + k < |s| && s[i + k] == pat[k] && i + m < |s| && s[i + m] == pat[m]
  {
  }

  /** A text that lacks one character of the pattern is left alone. */
  lemma ReplaceNothing(s: string, pat: string, rep: string, k: nat)
    requires k < |pat| && Lacks(s, pat[k])
    ensures ReplaceAll(s, pat, rep) == s
  {
  }

  /** A text ending in the pattern, whose front lacks the pattern's marker character,
      has exactly that one match. */
  lemma {:induction false} ReplaceTail(x: string, pat: string, rep: string, k: nat)
    requires k < |pat| && Lacks(x, pat[k])
    requires forall j :: 0 <= j < k ==> pat[j] != pat[k]
    ensures ReplaceAll(x + pat, pat, rep) == x + rep
  {
    forall i | 0 <= i < |x| ensures !OccursAt(x + pat, i, pat) {
      if OccursAt(x + pat, i, pat) {
        OccurrenceCovers(x + pat, i, pat, k);
      }
    }
    ReplaceSkips(x, pat, pat, rep);
    assert pat[|pat|..] == [];
    assert rep + [] == rep;
  }

  /** A text is left alone when each of the pattern's marker characters in it is followed,
      `d` places on, by the wrong character. */
  lemma ReplaceMismatch(s: string, pat: string, rep: string, k: nat, d: nat)
    requires k + d < |pat|
    requires forall p :: 0 <= p < |s| - d && s[p] == pat[k] ==> s[p + d] != pat[k + d]
    ensures ReplaceAll(s, pat, rep) == s
  {
    forall i | 0 <= i < |s| ensures !OccursAt(s + [], i, pat) {
      assert s + [] == s;
      if OccursAt(s, i, pat) { OccurrenceCoversBoth(s, i, pat, k, k + d); }
    }
    ReplaceSkips(s, [], pat, rep);
    assert s + [] == s;
  }

  lemma NoMatchAcross(line: string, rest: string, pat: string)
    requires Lacks(pat, '\n') && !(pat <= line)
    ensures !(pat <= line + "\n" + rest)
  {
    var s := line + "\n" + rest;
    if |line| < |pat| {
      assert s[|line|] == '\n' && pat[|line|] != '\n';
    } else {
      assert s[..|pat|] == line[..|pat|];
    }
  }

  lemma NoMatchHere(s: string, pat: string, rep: string)
    requires pat != [] && s != [] && !(pat <= s)
    ensures ReplaceAll(s, pat, rep) == [s[0]] + ReplaceAll(s[1..], pat, rep)
  {
    if |s| < |pat| { ReplaceShort(s[1..], pat, rep); }
  }

  /** A pattern without newlines is replaced line by line. */
  lemma {:induction false} ReplaceByLine(line: string, rest: string, pat: string, rep: string)
    requires pat != [] && Lacks(pat, '\n')
    ensures ReplaceAll(line + "\n" + rest, pat, rep) == ReplaceAll(line, pat, rep) + "\n" + ReplaceAll(rest, pat, rep)
    decreases |line|
  {
    var s := line + "\n" + rest;
    if line == [] {
      assert s[1..] == rest && s[0] != pat[0];
      assert !(pat <= s);
    } else if pat <= line {
      var m := |pat|;
      assert s[m..] == line[m..] + "\n" + rest;
      assert pat <= s;
      ReplaceByLine(line[m..], rest, pat, rep);
      Assoc(rep, ReplaceAll(line[m..], pat, rep), "\n");
      Assoc(rep, ReplaceAll(line[m..], pat, rep) + "\n", ReplaceAll(rest, pat, rep));
    } else {
      NoMatchAcross(line, rest, pat);
      assert s[1..] == line[1..] + "\n" + rest;
      ReplaceByLine(line[1..], rest, pat, rep);
      NoMatchHere(line, pat, rep);
      NoMatchHere(s, pat, rep);
      Assoc([line[0]], ReplaceAll(line[1..], pat, rep), "\n");
      Assoc([line[0]], ReplaceAll(line[1..], pat, rep) + "\n", ReplaceAll(rest, pat, rep));
    }
  }

  lemma ReplaceShort(s: string, pat: string, rep: string)
    requires |s| < |pat|
    ensures ReplaceAll(s, pat, rep) == s
  {
  }

  /** A pattern that is one whole line with the newlines around it does not touch another line. */
  lemma ReplaceKeepsLine(line: string, rest: string, bare: string, rep: string)
    requires Lacks(line, '\n') && Lacks(bare, '\n') && line != bare
    ensures ReplaceAll("\n" + line + "\n" + rest, "\n" + bare + "\n", rep) ==
            "\n" + line + ReplaceAll("\n" + rest, "\n" + bare + "\n", rep)
  {
    var a, b, pat := "\n" + line, "\n" + rest, "\n" + bare + "\n";
    forall i | 0 <= i < |a| ensures !OccursAt(a + b, i, pat) {
      if OccursAt(a + b, i, pat) {
        OccurrenceCovers(a + b, i, pat, 0);
        assert i == 0;
        OccurrenceCovers(a + b, 0, pat, |bare| + 1);
        if |line| < |bare| { OccurrenceCovers(a + b, 0, pat, |line| + 1); }
        assert |line| == |bare|;
        forall k | 0 <= k < |line| ensures line[k] == bare[k] {
          OccurrenceCovers(a + b, 0, pat, k + 1);
        }
      }
    }
    ReplaceSkips(a, b, pat, rep);
    assert "\n" + line + "\n" + rest == a + b;
  }

  /** After replacing such a line the scan resumes past its newline, inside the next line. */
  lemma ReplaceTakesLine(next: string, rest: string, bare: string, rep: string)
    requires Lacks(next, '\n')
    ensures ReplaceAll("\n" + bare + "\n" + (next + "\n" + rest), "\n" + bare + "\n", rep) ==
            rep + (next + ReplaceAll("\n" + rest, "\n" + bare + "\n", rep))
  {
    var pat, tail := "\n" + bare + "\n", next + "\n" + rest;
    assert (pat + tail)[|pat|..] == tail && pat <= pat + tail;
    assert tail == next + ("\n" + rest);
    forall i | 0 <= i < |next| ensures !OccursAt(next + ("\n" + rest), i, pat) {
      if OccursAt(next + ("\n" + rest), i, pat) { OccurrenceCovers(next + ("\n" + rest), i, pat, 0); }
    }
    ReplaceSkips(next, "\n" + rest, pat, rep);
  }
}

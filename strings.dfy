/** The parts of Python's `str` behaviour that the modelled code relies on:
    `strip`/`rstrip`/`lstrip`, `startswith`, `replace`, `split`, `splitlines`,
    `join`, `lower`, and the conversions between `int` and its decimal text. */
module Strings {
  import opened Wrappers

  // ---------------------------------------------------------------------------
  // Whitespace and stripping
  // ---------------------------------------------------------------------------

  /** `str.isspace()` on one character, restricted to the ASCII range:
      tab, line feed, vertical tab, form feed, carriage return,
      the four information separators 0x1C..0x1F, and space. */
  predicate IsSpace(c: char) {
    ('\t' <= c <= '\r') || ('\U{1C}' <= c <= ' ')
  }

  /** `s.lstrip()`. */
  function LStrip(s: string): string {
    if s != [] && IsSpace(s[0]) then LStrip(s[1..]) else s
  }

  /** `s.rstrip()`. */
  function RStrip(s: string): string {
    if s != [] && IsSpace(s[|s| - 1]) then RStrip(s[..|s| - 1]) else s
  }

  /** `s.strip()`. */
  function Strip(s: string): string {
    RStrip(LStrip(s))
  }

  /** `lstrip` leaves the suffix that starts at the first non-whitespace
      character: only leading whitespace is dropped. */
  lemma {:induction false} LStripSpec(s: string)
    ensures var r := LStrip(s);
      |r| <= |s| && r == s[|s| - |r|..] &&
      (forall i :: 0 <= i < |s| - |r| ==> IsSpace(s[i])) &&
      (r == [] || !IsSpace(r[0]))
    decreases |s|
  {
    if s != [] && IsSpace(s[0]) {
      LStripSpec(s[1..]);
    }
  }

  /** `rstrip` leaves the prefix that ends at the last non-whitespace
      character: only trailing whitespace is dropped. */
  lemma {:induction false} RStripSpec(s: string)
    ensures var r := RStrip(s);
      |r| <= |s| && r == s[..|r|] &&
      (forall i :: |r| <= i < |s| ==> IsSpace(s[i])) &&
      (r == [] || !IsSpace(r[|r| - 1]))
    decreases |s|
  {
    if s != [] && IsSpace(s[|s| - 1]) {
      RStripSpec(s[..|s| - 1]);
    }
  }

  /** `strip` removes whitespace from both ends and nowhere else: the result
      is the piece of `s` that starts after the leading whitespace, everything
      outside it is whitespace, and it neither starts nor ends with whitespace. */
  lemma StripSpec(s: string)
    ensures var r, lo := Strip(s), |s| - |LStrip(s)|;
      0 <= lo && lo + |r| <= |s| && r == s[lo..lo + |r|] &&
      (forall i :: 0 <= i < lo ==> IsSpace(s[i])) &&
      (forall i :: lo + |r| <= i < |s| ==> IsSpace(s[i])) &&
      (r == [] || (!IsSpace(r[0]) && !IsSpace(r[|r| - 1])))
  {
    LStripSpec(s);
    var l := LStrip(s);
    RStripSpec(l);
    var r := RStrip(l);
    var lo := |s| - |l|;
    assert r == s[lo..lo + |r|];
    forall i | lo + |r| <= i < |s| ensures IsSpace(s[i]) {
      assert s[i] == l[i - lo];
    }
    if r != [] {
      assert r[0] == l[0];
    }
  }

  /** A string that neither starts nor ends with whitespace is its own
      `strip()`. */
  lemma StripTrimmed(s: string)
    requires s == [] || (!IsSpace(s[0]) && !IsSpace(s[|s| - 1]))
    ensures Strip(s) == s
  {
    assert LStrip(s) == s;
    assert RStrip(s) == s;
  }

  /** `s.rstrip(c)`: the prefix left after dropping every trailing `c`. */
  function RStripChar(s: string, c: char): string {
    if s != [] && s[|s| - 1] == c then RStripChar(s[..|s| - 1], c) else s
  }

  /** `s.lstrip(c)`: the suffix left after dropping every leading `c`. */
  function LStripChar(s: string, c: char): string {
    if s != [] && s[0] == c then LStripChar(s[1..], c) else s
  }

  /** `s.strip(c)`. */
  function StripChar(s: string, c: char): string {
    RStripChar(LStripChar(s, c), c)
  }

  /** `rstrip(c)` removes a run of `c` at the end, and only that. */
  lemma {:induction false} RStripCharSpec(s: string, c: char)
    ensures var r := RStripChar(s, c);
      |r| <= |s| && r == s[..|r|] &&
      (forall i :: |r| <= i < |s| ==> s[i] == c) &&
      (r == [] || r[|r| - 1] != c)
    decreases |s|
  {
    if s != [] && s[|s| - 1] == c {
      RStripCharSpec(s[..|s| - 1], c);
    }
  }

  /** `lstrip(c)` removes a run of `c` at the start, and only that. */
  lemma {:induction false} LStripCharSpec(s: string, c: char)
    ensures var r := LStripChar(s, c);
      |r| <= |s| && r == s[|s| - |r|..] &&
      (forall i :: 0 <= i < |s| - |r| ==> s[i] == c) &&
      (r == [] || r[0] != c)
    decreases |s|
  {
    if s != [] && s[0] == c {
      LStripCharSpec(s[1..], c);
    }
  }

  /** `strip(c)` leaves no `c` at either end. */
  lemma StripCharSpec(s: string, c: char)
    ensures var r := StripChar(s, c); r == [] || (r[0] != c && r[|r| - 1] != c)
  {
    var l := LStripChar(s, c);
    LStripCharSpec(s, c);
    RStripCharSpec(l, c);
    var r := RStripChar(l, c);
    if r != [] {
      assert r[0] == l[0];
    }
  }

  /** `s.startswith(prefix)`. */
  predicate StartsWith(s: string, prefix: string) {
    |prefix| <= |s| && s[..|prefix|] == prefix
  }

  // ---------------------------------------------------------------------------
  // replace
  // ---------------------------------------------------------------------------

  /** `s.replace(pat, rep)` for a non-empty `pat`: every occurrence found by a
      left-to-right scan, without overlaps, is replaced. */
  function Replace(s: string, pat: string, rep: string): string
    requires |pat| > 0
    decreases |s|
  {
    if |s| < |pat| then s
    else if s[..|pat|] == pat then rep + Replace(s[|pat|..], pat, rep)
    else [s[0]] + Replace(s[1..], pat, rep)
  }

  /** Text that does not contain the pattern's first character passes
      through `replace` untouched, whatever follows it. */
  lemma {:induction false} ReplaceSkips(x: string, y: string, pat: string, rep: string)
    requires |pat| > 0 && pat[0] !in x
    ensures Replace(x + y, pat, rep) == x + Replace(y, pat, rep)
    decreases |x|
  {
    if x != [] {
      var s := x + y;
      assert s[0] == x[0];
      if |s| >= |pat| {
        assert s[..|pat|][0] != pat[0];
      }
      assert s[1..] == x[1..] + y;
      ReplaceSkips(x[1..], y, pat, rep);
    } else {
      assert x + y == y;
    }
  }

  /** The pattern sits in `s` at position `i`, compared from its `j`-th
      character on. */
  predicate MatchesAt(s: string, pat: string, i: nat, j: nat)
    requires i + |pat| <= |s| && j <= |pat|
    decreases |pat| - j
  {
    j == |pat| || (s[i + j] == pat[j] && MatchesAt(s, pat, i, j + 1))
  }

  lemma {:induction false} MatchesAtSlice(s: string, pat: string, i: nat, j: nat)
    requires i + |pat| <= |s| && j <= |pat|
    ensures MatchesAt(s, pat, i, j) <==> s[i + j..i + |pat|] == pat[j..]
    decreases |pat| - j
  {
    if j < |pat| {
      MatchesAtSlice(s, pat, i, j + 1);
      assert s[i + j..i + |pat|] == [s[i + j]] + s[i + j + 1..i + |pat|];
      assert pat[j..] == [pat[j]] + pat[j + 1..];
    }
  }

  /** An occurrence of the pattern starts somewhere in `[i, end)`. */
  predicate OccursIn(s: string, pat: string, i: nat, end: nat)
    decreases end - i
  {
    i < end && i + |pat| <= |s| && (MatchesAt(s, pat, i, 0) || OccursIn(s, pat, i + 1, end))
  }

  /** `pat in s`. */
  predicate Occurs(s: string, pat: string)
  {
    OccursIn(s, pat, 0, |s|)
  }

  function Min(a: int, b: int): int {
    if a <= b then a else b
  }

  /** No occurrence can start where the pattern's `j`-th character would
      have to fall on text that does not contain it. */
  lemma {:induction false} NoStartByChar(s: string, pat: string, j: nat, i: nat, end: nat)
    requires j < |pat| && i <= end
    requires pat[j] !in s[Min(i + j, |s|)..Min(end + j, |s|)]
    ensures !OccursIn(s, pat, i, end)
    decreases end - i
  {
    if i < end && i + |pat| <= |s| {
      var window := s[Min(i + j, |s|)..Min(end + j, |s|)];
      assert s[i + j] == window[0];
      assert s[i..i + |pat|][j] == s[i + j];
      MatchesAtSlice(s, pat, i, 0);
      assert s[Min(i + 1 + j, |s|)..Min(end + j, |s|)] == window[1..];
      NoStartByChar(s, pat, j, i + 1, end);
    }
  }

  /** A string that lacks one of the pattern's characters does not contain
      the pattern. */
  lemma NoOccurrenceByChar(s: string, pat: string, j: nat)
    requires j < |pat| && pat[j] !in s
    ensures !Occurs(s, pat)
  {
    var window := s[Min(j, |s|)..Min(|s| + j, |s|)];
    assert window == s[Min(j, |s|)..];
    assert forall k :: 0 <= k < |window| ==> window[k] == s[k + Min(j, |s|)];
    NoStartByChar(s, pat, j, 0, |s|);
  }

  /** Where no occurrence starts, `replace` copies the text through. */
  lemma {:induction false} ReplaceUntil(s: string, pat: string, rep: string, i: nat, end: nat)
    requires |pat| > 0 && i <= end <= |s| && !OccursIn(s, pat, i, end)
    ensures Replace(s[i..], pat, rep) == s[i..end] + Replace(s[end..], pat, rep)
    decreases end - i
  {
    if i < end {
      var t := s[i..];
      if i + |pat| > |s| {
        assert Replace(s[end..], pat, rep) == s[end..];
        assert t == s[i..end] + s[end..];
      } else {
        MatchesAtSlice(s, pat, i, 0);
        assert t[..|pat|] == s[i..i + |pat|];
        assert t[1..] == s[i + 1..];
        ReplaceUntil(s, pat, rep, i + 1, end);
        assert s[i..end] == [s[i]] + s[i + 1..end];
      }
    }
  }

  /** Without an occurrence of the pattern, `replace` changes nothing. */
  lemma ReplaceNoOccurrence(s: string, pat: string, rep: string)
    requires |pat| > 0 && !Occurs(s, pat)
    ensures Replace(s, pat, rep) == s
  {
    ReplaceUntil(s, pat, rep, 0, |s|);
    assert s[0..] == s && s[0..|s|] == s;
  }

  /** A single occurrence, preceded by text without the pattern's first
      character, is the only thing `replace` changes. */
  lemma ReplaceSingle(x: string, pat: string, y: string, rep: string)
    requires |pat| > 0 && pat[0] !in x && !Occurs(y, pat)
    ensures Replace(x + pat + y, pat, rep) == x + rep + y
  {
    ReplaceSkips(x, pat + y, pat, rep);
    ReplaceHit(y, pat, rep);
    ReplaceNoOccurrence(y, pat, rep);
    assert x + pat + y == x + (pat + y);
  }

  /** A single occurrence at a known position of a string, with no
      occurrence starting before it or after it. */
  lemma ReplaceSingleAt(s: string, pat: string, k: nat, rep: string)
    requires |pat| > 0 && k + |pat| <= |s| && s[k..k + |pat|] == pat
    requires !OccursIn(s, pat, 0, k) && !Occurs(s[k + |pat|..], pat)
    ensures Replace(s, pat, rep) == s[..k] + rep + s[k + |pat|..]
  {
    var y := s[k + |pat|..];
    assert Replace(s[k..], pat, rep) == rep + y by {
      assert s[k..] == pat + y by {
        assert s[k..] == s[k..k + |pat|] + s[k + |pat|..];
      }
      ReplaceHit(y, pat, rep);
      ReplaceNoOccurrence(y, pat, rep);
    }
    ReplaceUntil(s, pat, rep, 0, k);
    assert s[0..] == s;
  }
  /** The same three facts, stated through a character of the pattern that
      is missing from the text where no occurrence may start. */
  lemma ReplaceAbsentByChar(s: string, pat: string, rep: string, j: nat)
    requires j < |pat| && pat[j] !in s
    ensures Replace(s, pat, rep) == s
  {
    NoOccurrenceByChar(s, pat, j);
    ReplaceNoOccurrence(s, pat, rep);
  }

  lemma ReplaceSingleByChar(x: string, pat: string, y: string, rep: string, j: nat)
    requires j < |pat| && pat[0] !in x && pat[j] !in y
    ensures Replace(x + pat + y, pat, rep) == x + rep + y
  {
    NoOccurrenceByChar(y, pat, j);
    ReplaceSingle(x, pat, y, rep);
  }

  lemma ReplaceSingleAtByChar(s: string, pat: string, k: nat, rep: string, j: nat)
    requires j < |pat| && k + |pat| <= |s| && s[k..k + |pat|] == pat
    requires pat[j] !in s[Min(j, |s|)..Min(k + j, |s|)] && pat[j] !in s[k + |pat|..]
    ensures Replace(s, pat, rep) == s[..k] + rep + s[k + |pat|..]
  {
    NoStartByChar(s, pat, j, 0, k);
    NoOccurrenceByChar(s[k + |pat|..], pat, j);
    ReplaceSingleAt(s, pat, k, rep);
  }


  /** A tail that lacks the pattern's last character can hold no part of an
      occurrence, so `replace` passes it through after the rest. */
  lemma {:induction false} ReplaceKeepsTail(y: string, t: string, pat: string, rep: string)
    requires |pat| > 0 && pat[|pat| - 1] !in t
    ensures Replace(y + t, pat, rep) == Replace(y, pat, rep) + t
    decreases |y|
  {
    var s := y + t;
    if y == [] {
      assert s == t;
      ReplaceAbsentByChar(t, pat, rep, |pat| - 1);
    } else if |s| < |pat| {
    } else if s[..|pat|] == pat {
      assert |pat| <= |y|;
      assert y[..|pat|] == s[..|pat|];
      assert s[|pat|..] == y[|pat|..] + t;
      ReplaceKeepsTail(y[|pat|..], t, pat, rep);
    } else {
      assert s[0] == y[0];
      assert s[1..] == y[1..] + t;
      ReplaceKeepsTail(y[1..], t, pat, rep);
      if |y| >= |pat| {
        assert y[..|pat|] == s[..|pat|];
      }
    }
  }

  /** Hence a string without the pattern's first character is unchanged. */
  lemma ReplaceAbsent(s: string, pat: string, rep: string)
    requires |pat| > 0 && pat[0] !in s
    ensures Replace(s, pat, rep) == s
  {
    ReplaceSkips(s, [], pat, rep);
    assert s + [] == s;
  }

  /** An occurrence at the front is replaced and the scan resumes after it. */
  lemma ReplaceHit(y: string, pat: string, rep: string)
    requires |pat| > 0
    ensures Replace(pat + y, pat, rep) == rep + Replace(y, pat, rep)
  {
    var s := pat + y;
    assert s[..|pat|] == pat;
    assert s[|pat|..] == y;
  }

  /** A piece that starts with the pattern's first character, differs from
      the pattern at the second character and contains that first character
      nowhere else also passes through untouched. */
  lemma ReplaceMisses(p: string, y: string, pat: string, rep: string)
    requires |pat| >= 2 && |p| >= 2
    requires p[0] == pat[0] && p[1] != pat[1] && pat[0] !in p[1..]
    ensures Replace(p + y, pat, rep) == p + Replace(y, pat, rep)
  {
    var s := p + y;
    if |s| < |pat| {
      assert Replace(y, pat, rep) == y;
    } else {
      assert s[..|pat|] != pat by { assert s[..|pat|][1] == p[1]; }
      assert Replace(s, pat, rep) == [s[0]] + Replace(s[1..], pat, rep);
      assert s[1..] == p[1..] + y;
      ReplaceSkips(p[1..], y, pat, rep);
      assert [p[0]] + p[1..] == p;
    }
  }

  // ---------------------------------------------------------------------------
  // join, split, splitlines
  // ---------------------------------------------------------------------------

  /** `sep.join(parts)`. */
  function Join(parts: seq<string>, sep: string): string
    decreases |parts|
  {
    if |parts| == 0 then []
    else if |parts| == 1 then parts[0]
    else parts[0] + sep + Join(parts[1..], sep)
  }

  /** `s.split(pat)` for a non-empty `pat`: the pieces between the occurrences
      found by a left-to-right scan; there is always at least one piece. */
  function SplitOn(s: string, pat: string): (r: seq<string>)
    requires |pat| > 0
    ensures |r| >= 1
    decreases |s|
  {
    if |s| < |pat| then [s]
    else if s[..|pat|] == pat then [[]] + SplitOn(s[|pat|..], pat)
    else
      var rest := SplitOn(s[1..], pat);
      [[s[0]] + rest[0]] + rest[1..]
  }

  /** Splitting on a character and joining the pieces back gives the text. */
  lemma {:induction false} JoinSplitChar(s: string, c: char)
    ensures Join(SplitOn(s, [c]), [c]) == s
    decreases |s|
  {
    if |s| >= 1 {
      var rest := SplitOn(s[1..], [c]);
      JoinSplitChar(s[1..], c);
      if s[..1] == [c] {
        assert SplitOn(s, [c]) == [[]] + rest;
        if |rest| == 1 {
          assert Join([[]] + rest, [c]) == [] + [c] + rest[0];
        } else {
          assert ([[]] + rest)[1..] == rest;
        }
        assert s == [c] + s[1..];
      } else {
        var r := [[s[0]] + rest[0]] + rest[1..];
        assert SplitOn(s, [c]) == r;
        if |rest| == 1 {
          assert Join(r, [c]) == [s[0]] + rest[0];
        } else {
          assert r[1..] == rest[1..];
          assert Join(rest, [c]) == rest[0] + [c] + Join(rest[1..], [c]);
        }
        assert s == [s[0]] + s[1..];
      }
    }
  }

  /** Splitting `p c rest`, where `p` has no `c`, yields `p` and then the
      pieces of `rest`. */
  lemma {:induction false} SplitOnCharAfter(p: string, rest: string, c: char)
    requires c !in p
    ensures SplitOn(p + [c] + rest, [c]) == [p] + SplitOn(rest, [c])
    decreases |p|
  {
    var s := p + [c] + rest;
    if p == [] {
      assert s[..1] == [c];
      assert s[1..] == rest;
    } else {
      assert s[..1] != [c] by { assert s[..1][0] == p[0]; }
      assert s[1..] == p[1..] + [c] + rest;
      SplitOnCharAfter(p[1..], rest, c);
      assert [p[0]] + p[1..] == p;
    }
  }

  /** A string without `c` is a single piece. */
  lemma {:induction false} SplitOnCharNone(p: string, c: char)
    requires c !in p
    ensures SplitOn(p, [c]) == [p]
    decreases |p|
  {
    if p != [] {
      assert p[..1] != [c] by { assert p[..1][0] == p[0]; }
      SplitOnCharNone(p[1..], c);
      assert [p[0]] + p[1..] == p;
    }
  }

  /** Joining pieces that do not contain `c` and splitting again gives the
      pieces back. */
  lemma {:induction false} SplitJoinChar(parts: seq<string>, c: char)
    requires |parts| >= 1
    requires forall k :: 0 <= k < |parts| ==> c !in parts[k]
    ensures SplitOn(Join(parts, [c]), [c]) == parts
    decreases |parts|
  {
    if |parts| == 1 {
      SplitOnCharNone(parts[0], c);
    } else {
      SplitJoinChar(parts[1..], c);
      SplitOnCharAfter(parts[0], Join(parts[1..], [c]), c);
      assert [parts[0]] + parts[1..] == parts;
    }
  }

  /** `s.splitlines()` for text whose only line break is `\n`: the pieces
      between line feeds, without the empty piece after a final line feed. */
  function SplitLines(s: string): (r: seq<string>)
    ensures forall k :: 0 <= k < |r| ==> '\n' !in r[k]
  {
    if s == [] then []
    else
      var pieces := SplitOn(s, "\n");
      SplitOnHasNoSeparator(s, '\n');
      if pieces[|pieces| - 1] == [] then pieces[..|pieces| - 1] else pieces
  }

  /** No piece of a split on `c` contains `c`. */
  lemma {:induction false} SplitOnHasNoSeparator(s: string, c: char)
    ensures forall k :: 0 <= k < |SplitOn(s, [c])| ==> c !in SplitOn(s, [c])[k]
    decreases |s|
  {
    if |s| >= 1 {
      SplitOnHasNoSeparator(s[1..], c);
      if s[..1] != [c] {
        assert s[0] != c by { assert s[..1][0] == s[0]; }
        var rest := SplitOn(s[1..], [c]);
        var r := [[s[0]] + rest[0]] + rest[1..];
        assert SplitOn(s, [c]) == r;
        forall k | 0 <= k < |r| ensures c !in r[k] {
          if k > 0 { assert r[k] == rest[k]; }
        }
      }
    }
  }

  /** `"\n".join(lines).splitlines() == lines` whenever no line holds a line
      feed and the last line is not empty. */
  lemma SplitLinesJoin(lines: seq<string>)
    requires forall k :: 0 <= k < |lines| ==> '\n' !in lines[k]
    requires lines == [] || lines[|lines| - 1] != []
    ensures SplitLines(Join(lines, "\n")) == lines
  {
    if lines != [] {
      SplitJoinChar(lines, '\n');
      if Join(lines, "\n") == [] {
        JoinEmpty(lines, "\n");
      }
    }
  }

  /** A join of pieces whose last piece is not empty is not empty. */
  lemma {:induction false} JoinEmpty(parts: seq<string>, sep: string)
    requires |parts| >= 1 && parts[|parts| - 1] != []
    ensures Join(parts, sep) != []
    decreases |parts|
  {
    if |parts| > 1 {
      JoinEmpty(parts[1..], sep);
    }
  }

  // ---------------------------------------------------------------------------
  // split() and word counts
  // ---------------------------------------------------------------------------

  /** Position `i` begins a whitespace-separated word. */
  predicate WordStartAt(s: string, i: nat)
    requires i < |s|
  {
    !IsSpace(s[i]) && (i == 0 || IsSpace(s[i - 1]))
  }

  /** `len(s.split())`: the number of maximal runs of non-whitespace. */
  function WordCount(s: string): nat
    decreases |s|
  {
    if s == [] then 0
    else WordCount(s[..|s| - 1]) + (if WordStartAt(s, |s| - 1) then 1 else 0)
  }

  /** Words never run across whitespace: counting the two sides of a join
      at a whitespace boundary counts the whole. */
  lemma {:induction false} WordCountConcat(x: string, y: string)
    requires x == [] || y == [] || IsSpace(x[|x| - 1]) || IsSpace(y[0])
    ensures WordCount(x + y) == WordCount(x) + WordCount(y)
    decreases |y|
  {
    if y == [] {
      assert x + y == x;
    } else {
      var s := x + y;
      var y' := y[..|y| - 1];
      assert s[..|s| - 1] == x + y';
      WordCountConcat(x, y');
      if |y| >= 2 {
        assert s[|s| - 2] == y[|y| - 2];
      }
      assert WordStartAt(s, |s| - 1) == WordStartAt(y, |y| - 1);
    }
  }

  // ---------------------------------------------------------------------------
  // lower()
  // ---------------------------------------------------------------------------

  function LowerChar(c: char): char {
    if 'A' <= c <= 'Z' then (c as int - 'A' as int + 'a' as int) as char else c
  }

  /** `s.lower()` on the ASCII letters. */
  function Lower(s: string): (r: string)
    ensures |r| == |s| && forall i :: 0 <= i < |s| ==> r[i] == LowerChar(s[i])
  {
    seq(|s|, i requires 0 <= i < |s| => LowerChar(s[i]))
  }

  // ---------------------------------------------------------------------------
  // Decimal text of integers: f"{n}", int(text), strftime's zero padding
  // ---------------------------------------------------------------------------

  predicate IsDigit(c: char) {
    '0' <= c <= '9'
  }

  predicate AllDigits(s: string) {
    forall i :: 0 <= i < |s| ==> IsDigit(s[i])
  }

  function DigitChar(d: nat): (c: char)
    requires d < 10
    ensures IsDigit(c)
  {
    ('0' as int + d) as char
  }

  /** The number a string of decimal digits denotes. */
  function DigitsValue(s: string): nat
    requires AllDigits(s)
    decreases |s|
  {
    if s == [] then 0
    else DigitsValue(s[..|s| - 1]) * 10 + (s[|s| - 1] as int - '0' as int)
  }

  /** `str(n)` for a natural number: its digits, most significant first. */
  function NatToString(n: nat): (r: string)
    ensures |r| >= 1 && AllDigits(r)
    ensures r[0] == '0' ==> n == 0
  {
    if n < 10 then [DigitChar(n)] else NatToString(n / 10) + [DigitChar(n % 10)]
  }

  /** `str(i)`. */
  function IntToString(i: int): (r: string)
    ensures |r| >= 1 && forall k :: 0 <= k < |r| ==> IsDigit(r[k]) || r[k] == '-'
  {
    if i < 0 then "-" + NatToString(-i) else NatToString(i)
  }

  /** `int(text)`: optional surrounding whitespace, an optional sign and at
      least one digit; anything else is Python's `ValueError` (`None`). */
  function ParseInt(text: string): Option<int> {
    var t := Strip(text);
    if |t| >= 2 && (t[0] == '-' || t[0] == '+') && AllDigits(t[1..]) then
      var magnitude: int := DigitsValue(t[1..]);
      Some(if t[0] == '-' then -magnitude else magnitude)
    else if |t| >= 1 && AllDigits(t) then Some(DigitsValue(t))
    else None
  }

  lemma {:induction false} NatToStringValue(n: nat)
    ensures DigitsValue(NatToString(n)) == n
  {
    if n >= 10 {
      NatToStringValue(n / 10);
      var s := NatToString(n);
      assert s[..|s| - 1] == NatToString(n / 10);
    }
  }

  /** `int(str(i)) == i`. */
  lemma ParseIntRoundTrip(i: int)
    ensures ParseInt(IntToString(i)) == Some(i)
  {
    var s := IntToString(i);
    assert forall k :: 0 <= k < |s| ==> !IsSpace(s[k]);
    StripTrimmed(s);
    if i < 0 {
      NegativeRoundTrip(-i);
    } else {
      NatToStringValue(i);
      assert s[0] != '-' && s[0] != '+';
    }
  }

  lemma NegativeRoundTrip(n: nat)
    requires n > 0
    ensures ParseInt("-" + NatToString(n)) == Some(0 - n)
  {
    var d := NatToString(n);
    var s := "-" + d;
    assert forall k :: 0 <= k < |s| ==> !IsSpace(s[k]);
    StripTrimmed(s);
    NatToStringValue(n);
    assert s[1..] == d;
  }

  function Zeros(n: nat): (r: string)
    ensures |r| == n && forall k :: 0 <= k < n ==> r[k] == '0'
  {
    seq(n, k => '0')
  }

  /** Leading zeros do not change the value of a digit string. */
  lemma {:induction false} ZerosValue(z: string, d: string)
    requires forall k :: 0 <= k < |z| ==> z[k] == '0'
    requires AllDigits(d)
    ensures AllDigits(z + d) && DigitsValue(z + d) == DigitsValue(d)
    decreases |d|
  {
    var s := z + d;
    assert AllDigits(s) by {
      forall k | 0 <= k < |s| ensures IsDigit(s[k]) {
        if k < |z| { assert s[k] == z[k]; } else { assert s[k] == d[k - |z|]; }
      }
    }
    if d == [] {
      assert s == z;
      AllZerosValue(z);
    } else {
      assert s[..|s| - 1] == z + d[..|d| - 1];
      ZerosValue(z, d[..|d| - 1]);
    }
  }

  lemma {:induction false} AllZerosValue(z: string)
    requires forall k :: 0 <= k < |z| ==> z[k] == '0'
    ensures AllDigits(z) && DigitsValue(z) == 0
    decreases |z|
  {
    if z != [] {
      AllZerosValue(z[..|z| - 1]);
    }
  }

  /** strftime's zero-padded field: the decimal digits of `n`, padded on the
      left with `0` up to `width` characters. */
  function ZeroPad(n: nat, width: nat): (r: string)
    ensures AllDigits(r) && DigitsValue(r) == n
    ensures |r| == if |NatToString(n)| >= width then |NatToString(n)| else width
  {
    var d := NatToString(n);
    NatToStringValue(n);
    if |d| >= width then d
    else
      ZerosValue(Zeros(width - |d|), d);
      Zeros(width - |d|) + d
  }
}

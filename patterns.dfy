/** The three regular expressions of the role migrator, each written as a
    small matcher over `seq<char>` (no general regex engine):
      - `re.split(r'(### @[\w-]+)', text)`, which cuts the role document into
        role sections and keeps the headings;
      - `re.search(r'@([\w-]+)', heading).group(1)`, which takes the role name
        out of a heading;
      - `re.sub(r'8\.\s+.*', repl, text)`, the instrumentation rewrite.
    `\w` is read as ASCII `[A-Za-z0-9_]` and `\s` as ASCII whitespace. */
module RolePatterns {
  import opened Wrappers
  import opened PyText

  /** `\w` on ASCII. */
  predicate IsWordChar(c: char)
  {
    ('a' <= c <= 'z') || ('A' <= c <= 'Z') || ('0' <= c <= '9') || c == '_'
  }

  /** The class `[\w-]` of role-name characters. */
  predicate IsNameChar(c: char)
  {
    IsWordChar(c) || c == '-'
  }

  /** Length of the longest run of role-name characters starting at `i`:
      what a greedy `[\w-]*` takes. */
  function NameRun(s: string, i: nat): (n: nat)
    requires i <= |s|
    ensures i + n <= |s| && (i + n == |s| || !IsNameChar(s[i + n]))
    ensures forall k :: i <= k < i + n ==> IsNameChar(s[k])
    decreases |s| - i
  {
    if i < |s| && IsNameChar(s[i]) then 1 + NameRun(s, i + 1) else 0
  }

  // ---------------------------------------------------------------------
  // re.split(r'(### @[\w-]+)', text)
  // ---------------------------------------------------------------------

  const HeadingLead := "### @"

  /** A match of `### @[\w-]+` starts at `i`. */
  predicate HeadingStartsAt(s: string, i: int)
  {
    OccursAt(s, HeadingLead, i) && i + 5 < |s| && IsNameChar(s[i + 5])
  }

  /** `h` is a whole match of `### @[\w-]+`. */
  predicate IsHeading(h: string)
  {
    |h| > 5 && StartsWith(h, HeadingLead) && forall k :: 5 <= k < |h| ==> IsNameChar(h[k])
  }

  /** No match of the heading pattern starts anywhere in `t`. */
  predicate HeadingFree(t: string)
  {
    forall j :: 0 <= j < |t| ==> !HeadingStartsAt(t, j)
  }

  /** The greedy match at `i`: the lead and the longest name run after it. */
  function HeadingLength(s: string, i: nat): (n: nat)
    requires i <= |s| && HeadingStartsAt(s, i)
    ensures i + n <= |s| && IsHeading(s[i..i + n])
    ensures i + n == |s| || !IsNameChar(s[i + n])
  {
    var n := 5 + NameRun(s, i + 5);
    assert s[i..i + n][..5] == s[i..i + 5];
    n
  }

  /** A match in a prefix of `s` is a match in `s`. */
  lemma HeadingInPrefix(s: string, e: int, j: int)
    requires 0 <= j && 0 <= e <= |s| && HeadingStartsAt(s[..e], j)
    ensures HeadingStartsAt(s, j)
  {
    assert s[..e][j..j + 5] == s[j..j + 5];
  }

  /** A match in a suffix of `s` is a match in `s`, shifted. */
  lemma HeadingInSuffix(s: string, d: int, j: int)
    requires 0 <= d <= |s| && 0 <= j && HeadingStartsAt(s[d..], j)
    ensures HeadingStartsAt(s, j + d)
  {
    OccursInSuffix(s, d, HeadingLead, j);
  }

  /** The shape `re.split` with one capturing group gives: an odd-length list
      whose even entries hold no match and whose odd entries are whole
      (maximal) matches. */
  predicate WellSplit(parts: seq<string>)
  {
    && |parts| % 2 == 1
    && (forall k :: 0 <= k < |parts| && k % 2 == 1 ==> IsHeading(parts[k]))
    && (forall k :: 0 <= k < |parts| && k % 2 == 0 ==> HeadingFree(parts[k]))
    && (forall k :: 0 <= k < |parts| - 1 && k % 2 == 1 ==> parts[k + 1] == [] || !IsNameChar(parts[k + 1][0]))
  }

  lemma WellSplitCons(a: string, h: string, rest: seq<string>)
    requires HeadingFree(a) && IsHeading(h) && WellSplit(rest)
    requires rest[0] == [] || !IsNameChar(rest[0][0])
    ensures WellSplit([a, h] + rest)
  {
    HeadingsCons(a, h, rest);
    FreeCons(a, h, rest);
    BoundaryCons(a, h, rest);
  }

  lemma HeadingsCons(a: string, h: string, rest: seq<string>)
    requires IsHeading(h) && forall k :: 0 <= k < |rest| && k % 2 == 1 ==> IsHeading(rest[k])
    ensures forall k :: 0 <= k < |rest| + 2 && k % 2 == 1 ==> IsHeading(([a, h] + rest)[k])
  {
    var parts := [a, h] + rest;
    forall k | 0 <= k < |parts| && k % 2 == 1 ensures IsHeading(parts[k]) {
      if k > 1 { assert parts[k] == rest[k - 2] && (k - 2) % 2 == 1; }
    }
  }

  lemma FreeCons(a: string, h: string, rest: seq<string>)
    requires HeadingFree(a) && forall k :: 0 <= k < |rest| && k % 2 == 0 ==> HeadingFree(rest[k])
    ensures forall k :: 0 <= k < |rest| + 2 && k % 2 == 0 ==> HeadingFree(([a, h] + rest)[k])
  {
    var parts := [a, h] + rest;
    forall k | 0 <= k < |parts| && k % 2 == 0 ensures HeadingFree(parts[k]) {
      if k > 1 { assert parts[k] == rest[k - 2] && (k - 2) % 2 == 0; }
    }
  }

  lemma BoundaryCons(a: string, h: string, rest: seq<string>)
    requires |rest| > 0 && (rest[0] == [] || !IsNameChar(rest[0][0]))
    requires forall k :: 0 <= k < |rest| - 1 && k % 2 == 1 ==> rest[k + 1] == [] || !IsNameChar(rest[k + 1][0])
    ensures forall k :: 0 <= k < |rest| + 1 && k % 2 == 1 ==>
      ([a, h] + rest)[k + 1] == [] || !IsNameChar(([a, h] + rest)[k + 1][0])
  {
    var parts := [a, h] + rest;
    forall k | 0 <= k < |parts| - 1 && k % 2 == 1
      ensures parts[k + 1] == [] || !IsNameChar(parts[k + 1][0])
    {
      if k > 1 { assert parts[k + 1] == rest[k - 1] && (k - 2) % 2 == 1; }
    }
  }

  /** The text before the leftmost match at `i` holds no match. */
  lemma PrefixHeadingFree(s: string, i: nat)
    requires i <= |s|
    requires forall j :: 0 <= j < i ==> !HeadingStartsAt(s, j)
    ensures HeadingFree(s[..i])
  {
    forall j | 0 <= j < i ensures !HeadingStartsAt(s[..i], j) {
      if HeadingStartsAt(s[..i], j) { HeadingInPrefix(s, i, j); }
    }
  }

  lemma ConcatThree(a: string, h: string, rest: seq<string>, t: string)
    requires Concat(rest) == t
    ensures Concat([a, h] + rest) == a + h + t
  {
    ConcatAppend([a, h], rest);
    assert Concat([a, h]) == a + (h + Concat([]));
  }

  lemma FirstOfConcat(rest: seq<string>, t: string)
    requires |rest| > 0 && Concat(rest) == t
    ensures |t| > 0 ==> rest[0] == [] || rest[0][0] == t[0]
  {
    assert Concat(rest) == rest[0] + Concat(rest[1..]);
  }

  /** The scan of `re.split` from index `i` of `s`, no match starting before
      `i`: the text before the leftmost match, the match (the pattern's one
      capturing group), then the split of the rest. */
  function SplitFrom(s: string, i: nat): (parts: seq<string>)
    requires i <= |s|
    requires forall j :: 0 <= j < i ==> !HeadingStartsAt(s, j)
    ensures WellSplit(parts)
    ensures Concat(parts) == s
    decreases |s|, |s| - i
  {
    if i == |s| then
      assert HeadingFree(s);
      assert Concat([s]) == s + Concat([]);
      [s]
    else if HeadingStartsAt(s, i) then
      var e := i + HeadingLength(s, i);
      var rest := SplitFrom(s[e..], 0);
      PrefixHeadingFree(s, i);
      ConcatThree(s[..i], s[i..e], rest, s[e..]);
      assert s[..i] + s[i..e] + s[e..] == s;
      FirstOfConcat(rest, s[e..]);
      WellSplitCons(s[..i], s[i..e], rest);
      [s[..i], s[i..e]] + rest
    else
      SplitFrom(s, i + 1)
  }

  /** `re.split(r'(### @[\w-]+)', s)`: an odd-length list, the preamble first,
      then heading and section text alternately; joining it gives back `s`. */
  function SplitRoleSections(s: string): (parts: seq<string>)
    ensures WellSplit(parts)
    ensures Concat(parts) == s
  {
    SplitFrom(s, 0)
  }

  // ---------------------------------------------------------------------
  // re.search(r'@([\w-]+)', heading).group(1)
  // ---------------------------------------------------------------------

  /** The leftmost `@` at or after `j` that a name character follows, and the
      greedy name run after it. */
  function SearchFrom(h: string, j: nat): (r: Option<string>)
    requires j <= |h|
    decreases |h| - j
  {
    if j + 1 >= |h| then None
    else if h[j] == '@' && IsNameChar(h[j + 1]) then Some(h[j + 1..j + 1 + NameRun(h, j + 1)])
    else SearchFrom(h, j + 1)
  }

  /** `re.search(r'@([\w-]+)', h)`, as the captured group, or `None` for no match. */
  function SearchRoleName(h: string): Option<string>
  {
    SearchFrom(h, 0)
  }

  /** Every heading that the split yields has a role name: all of it after
      `### @`.  So the `.group(1)` call of the migrator never fails. */
  lemma HeadingRoleName(h: string)
    requires IsHeading(h)
    ensures SearchRoleName(h) == Some(h[5..])
  {
    assert h[..5] == HeadingLead;
    assert h[0] == '#' && h[1] == '#' && h[2] == '#' && h[3] == ' ' && h[4] == '@';
    var n := NameRun(h, 5);
    assert 5 + n == |h|;
    assert SearchFrom(h, 4) == Some(h[5..5 + n]);
    assert SearchFrom(h, 3) == SearchFrom(h, 4);
    assert SearchFrom(h, 2) == SearchFrom(h, 3);
    assert SearchFrom(h, 1) == SearchFrom(h, 2);
    assert SearchFrom(h, 0) == SearchFrom(h, 1);
    assert h[5..5 + n] == h[5..];
    assert SearchRoleName(h) == SearchFrom(h, 0);
  }

  // ---------------------------------------------------------------------
  // re.sub(r'8\.\s+.*', repl, text)
  // ---------------------------------------------------------------------

  /** Length of the longest run of whitespace starting at `i` (greedy `\s*`). */
  function SpaceRun(s: string, i: nat): (n: nat)
    requires i <= |s|
    ensures i + n <= |s| && (i + n == |s| || !IsSpace(s[i + n]))
    ensures forall k :: i <= k < i + n ==> IsSpace(s[k])
    decreases |s| - i
  {
    if i < |s| && IsSpace(s[i]) then 1 + SpaceRun(s, i + 1) else 0
  }

  /** Length of the longest run of characters other than a line feed starting
      at `i` (greedy `.*`: `.` does not match a newline). */
  function LineRun(s: string, i: nat): (n: nat)
    requires i <= |s|
    ensures i + n <= |s| && (i + n == |s| || s[i + n] == '\n')
    ensures forall k :: i <= k < i + n ==> s[k] != '\n'
    decreases |s| - i
  {
    if i < |s| && s[i] != '\n' then 1 + LineRun(s, i + 1) else 0
  }

  /** A match of `8\.\s+.*` starts at `i`. */
  predicate EightStartsAt(s: string, i: int)
  {
    0 <= i && i + 2 < |s| && s[i] == '8' && s[i + 1] == '.' && IsSpace(s[i + 2])
  }

  /** The match at `i`: `8.`, the longest whitespace run (which may take line
      feeds), then the rest of the line it stops in. */
  function EightMatchLength(s: string, i: nat): (n: nat)
    requires EightStartsAt(s, i)
    ensures 3 <= n && i + n <= |s|
    ensures i + n == |s| || s[i + n] == '\n'
  {
    var w := SpaceRun(s, i + 2);
    2 + w + LineRun(s, i + 2 + w)
  }

  /** The scan of `re.sub` from index `i`: the text before the leftmost match,
      the replacement, then the substitution in the rest.  As in the
      source's pattern, nothing anchors `8\.`: it also matches the end of
      `18.` or `28.`. */
  function SubFrom(s: string, i: nat, repl: string): (r: string)
    requires i <= |s|
    ensures (forall j :: i <= j < |s| ==> !EightStartsAt(s, j)) ==> r == s
    ensures (exists j :: i <= j < |s| && EightStartsAt(s, j)) ==> Contains(r, repl)
    decreases |s|, |s| - i
  {
    if i == |s| then s
    else if EightStartsAt(s, i) then
      var rest := SubFrom(s[i + EightMatchLength(s, i)..], 0, repl);
      ContainsMiddle(s[..i], repl, rest);
      s[..i] + repl + rest
    else
      SubFrom(s, i + 1, repl)
  }

  /** `re.sub(r'8\.\s+.*', repl, s)`: every leftmost, non-overlapping match is
      replaced by `repl` (which holds no backslash, so it is taken literally). */
  function SubInstrumentation(s: string, repl: string): (r: string)
    ensures (forall j :: 0 <= j < |s| ==> !EightStartsAt(s, j)) ==> r == s
    ensures (exists j :: 0 <= j < |s| && EightStartsAt(s, j)) ==> Contains(r, repl)
  {
    SubFrom(s, 0, repl)
  }

  /** Wherever `8. ` occurs the pattern matches, so the replacement appears. */
  lemma EightSpaceMatches(s: string, repl: string)
    requires Contains(s, "8. ")
    ensures Contains(SubInstrumentation(s, repl), repl)
  {
    var i :| 0 <= i <= |s| - 3 && OccursAt(s, "8. ", i);
    CharAt(s, "8. ", i, 0);
    CharAt(s, "8. ", i, 1);
    CharAt(s, "8. ", i, 2);
    assert EightStartsAt(s, i);
  }

  /** Positions before the first match are copied unchanged. */
  lemma {:induction false} SubSkips(s: string, i: nat, k: nat, repl: string)
    requires i <= k <= |s|
    requires forall j :: i <= j < k ==> !EightStartsAt(s, j)
    ensures SubFrom(s, i, repl) == SubFrom(s, k, repl)
    decreases k - i
  {
    if i < k {
      SubSkips(s, i + 1, k, repl);
    }
  }

  /** `re.sub` copies the text before the leftmost match, writes the
      replacement in place of the whole match, and goes on after it.  When
      no match starts after that one, the rest is copied unchanged. */
  lemma SubAtFirstMatch(s: string, repl: string, i: nat)
    requires EightStartsAt(s, i) && forall j :: 0 <= j < i ==> !EightStartsAt(s, j)
    ensures SubInstrumentation(s, repl)
      == s[..i] + repl + SubInstrumentation(s[i + EightMatchLength(s, i)..], repl)
    ensures (forall j :: i + EightMatchLength(s, i) <= j < |s| ==> !EightStartsAt(s, j)) ==>
      SubInstrumentation(s, repl) == s[..i] + repl + s[i + EightMatchLength(s, i)..]
  {
    SubSkips(s, 0, i, repl);
    var d := i + EightMatchLength(s, i);
    if forall j :: d <= j < |s| ==> !EightStartsAt(s, j) {
      NoMatchInSuffix(s, d);
      SubWithoutMatch(s[d..], repl);
    }
  }

  lemma NoMatchInSuffix(s: string, d: nat)
    requires d <= |s| && forall j :: d <= j < |s| ==> !EightStartsAt(s, j)
    ensures forall j :: 0 <= j < |s| - d ==> !EightStartsAt(s[d..], j)
  {
    forall j | 0 <= j < |s| - d
      ensures !EightStartsAt(s[d..], j)
    {
      EightInSuffix(s, d, j);
    }
  }

  lemma SubWithoutMatch(s: string, repl: string)
    requires forall j :: 0 <= j < |s| ==> !EightStartsAt(s, j)
    ensures SubInstrumentation(s, repl) == s
  {
  }

  /** Matches in a suffix are the matches in the whole text, shifted. */
  lemma EightInSuffix(s: string, d: nat, j: nat)
    requires d <= |s|
    ensures EightStartsAt(s[d..], j) <==> EightStartsAt(s, j + d)
  {
    if j + 2 < |s| - d {
      assert s[d..][j] == s[j + d] && s[d..][j + 1] == s[j + d + 1] && s[d..][j + 2] == s[j + d + 2];
    }
  }

  /** A run that stops where `LineRun` would stop is the one it finds. */
  lemma LineRunIs(s: string, i: nat, n: nat)
    requires i + n <= |s|
    requires forall k :: i <= k < i + n ==> s[k] != '\n'
    requires i + n == |s| || s[i + n] == '\n'
    ensures LineRun(s, i) == n
  {
  }

  /** A run that stops where `SpaceRun` would stop is the one it finds. */
  lemma SpaceRunIs(s: string, i: nat, n: nat)
    requires i + n <= |s|
    requires forall k :: i <= k < i + n ==> IsSpace(s[k])
    requires i + n == |s| || !IsSpace(s[i + n])
    ensures SpaceRun(s, i) == n
  {
  }

  /** Text in which no `8` occurs is left as it is. */
  lemma SubWithoutEight(s: string, repl: string)
    ensures '8' !in s ==> SubInstrumentation(s, repl) == s
  {
  }

  /** The whitespace run of `\s+` crosses line ends, so when an item `8.`
      ends its line, the match takes the whole next line as well: that line
      is replaced, not kept. */
  lemma SubSwallowsNextLine(line: string, rest: string, repl: string)
    requires |line| > 0 && !IsSpace(line[0]) && '\n' !in line
    requires '8' !in rest && (rest == [] || rest[0] == '\n')
    ensures SubInstrumentation("8. \n" + line + rest, repl) == repl + rest
  {
    var s := "8. \n" + line + rest;
    EightLineMatch(line, rest);
    assert s[4 + |line|..] == rest;
    SubWithoutEight(rest, repl);
    assert s[..0] == [];
  }

  /** The match at the start of `8. `, a line feed and a line that does not
      start with whitespace runs to the end of that line. */
  lemma EightLineMatch(line: string, rest: string)
    requires |line| > 0 && !IsSpace(line[0]) && '\n' !in line
    requires rest == [] || rest[0] == '\n'
    ensures EightStartsAt("8. \n" + line + rest, 0)
    ensures EightMatchLength("8. \n" + line + rest, 0) == 4 + |line|
  {
    var s := "8. \n" + line + rest;
    assert s[0] == '8' && s[1] == '.' && s[2] == ' ' && s[3] == '\n';
    assert s[4] == line[0];
    SpaceRunIs(s, 2, 2);
    forall k | 4 <= k < 4 + |line| ensures s[k] != '\n' {
      assert s[k] == line[k - 4];
    }
    if rest != [] { assert s[4 + |line|] == rest[0]; }
    LineRunIs(s, 4, |line|);
  }
}

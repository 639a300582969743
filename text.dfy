/** The Python `str` operations that the migrator and the file catalogue use,
    written out over `seq<char>`: substring `in`, `startswith`, `replace`,
    `strip`, `join`, concatenation of a list and string ordering. */
module PyText {

  /** `m` occurs in `s` starting at index `i`. */
  predicate OccursAt(s: string, m: string, i: int)
  {
    0 <= i && i + |m| <= |s| && s[i..i + |m|] == m
  }

  /** Python's `m in s`. */
  predicate Contains(s: string, m: string)
  {
    exists i :: 0 <= i <= |s| - |m| && OccursAt(s, m, i)
  }

  /** Python's `s.startswith(p)`. */
  predicate StartsWith(s: string, p: string)
  {
    |p| <= |s| && s[..|p|] == p
  }

  predicate EndsWith(s: string, p: string)
  {
    |p| <= |s| && s[|s| - |p|..] == p
  }

  /** A suffix of all but the last character, extended by that character,
      is a suffix of the whole. */
  lemma EndsWithSnoc(s: string, t: string)
    requires |s| > 0 && EndsWith(s[..|s| - 1], t)
    ensures EndsWith(s, t + [s[|s| - 1]])
  {
    var front := s[..|s| - 1];
    assert s[|s| - |t| - 1..] == front[|front| - |t|..] + [s[|s| - 1]];
  }

  lemma ContainsMiddle(a: string, m: string, b: string)
    ensures Contains(a + m + b, m)
  {
    var s := a + m + b;
    assert s[|a|..|a| + |m|] == m;
    assert OccursAt(s, m, |a|);
  }

  lemma ContainsLeft(a: string, b: string, m: string)
    requires Contains(a, m)
    ensures Contains(a + b, m)
  {
    var i :| 0 <= i <= |a| - |m| && OccursAt(a, m, i);
    assert (a + b)[i..i + |m|] == a[i..i + |m|];
    assert OccursAt(a + b, m, i);
  }

  lemma ContainsRight(a: string, b: string, m: string)
    requires Contains(b, m)
    ensures Contains(a + b, m)
  {
    var i :| 0 <= i <= |b| - |m| && OccursAt(b, m, i);
    assert (a + b)[|a| + i..|a| + i + |m|] == b[i..i + |m|];
    assert OccursAt(a + b, m, |a| + i);
  }

  /** A string containing `t` contains everything `t` contains. */
  lemma ContainsWithin(s: string, t: string, m: string)
    requires Contains(s, t) && Contains(t, m)
    ensures Contains(s, m)
  {
    var i :| 0 <= i <= |s| - |t| && OccursAt(s, t, i);
    var j :| 0 <= j <= |t| - |m| && OccursAt(t, m, j);
    assert s[i..i + |t|] == t;
    forall k | 0 <= k < |m|
      ensures s[i + j..i + j + |m|][k] == m[k]
    {
      assert m[k] == t[j..j + |m|][k] == t[j + k];
      assert t[j + k] == s[i..i + |t|][j + k];
    }
    assert OccursAt(s, m, i + j);
  }

  /** A string lacking some character of `m` does not contain `m`. */
  lemma CharAbsent(s: string, m: string, j: int)
    requires 0 <= j < |m| && m[j] !in s
    ensures !Contains(s, m)
  {
    forall i | 0 <= i <= |s| - |m|
      ensures !OccursAt(s, m, i)
    {
      assert s[i..i + |m|][j] == s[i + j];
    }
  }

  /** An occurrence of `m` in `a + "\n" + b` that cannot span the newline lies in `a` or in `b`. */
  lemma AbsentAroundNewline(a: string, b: string, m: string)
    requires '\n' !in m && !Contains(a, m) && !Contains(b, m)
    ensures !Contains(a + "\n" + b, m)
  {
    var s := a + "\n" + b;
    forall i | 0 <= i <= |s| - |m|
      ensures !OccursAt(s, m, i)
    {
      if i + |m| <= |a| {
        assert s[i..i + |m|] == a[i..i + |m|];
        assert !OccursAt(a, m, i);
      } else if i > |a| {
        assert s[i..i + |m|] == b[i - |a| - 1..i - |a| - 1 + |m|];
        assert !OccursAt(b, m, i - |a| - 1);
      } else {
        assert s[i..i + |m|][|a| - i] == '\n';
      }
    }
  }

  /** Python's `s.replace(p, q)`: every occurrence of `p`, found left to right
      without overlaps, is replaced by `q`.  Python also defines the empty
      pattern, which no caller here uses. */
  function ReplaceAll(s: string, p: string, q: string): string
    requires |p| > 0
    decreases |s|
  {
    if |s| < |p| then s
    else if s[..|p|] == p then q + ReplaceAll(s[|p|..], p, q)
    else [s[0]] + ReplaceAll(s[1..], p, q)
  }

  /** With no occurrence of the pattern, `replace` is a silent no-op. */
  lemma {:induction false} ReplaceAllAbsent(s: string, p: string, q: string)
    requires |p| > 0 && !Contains(s, p)
    ensures ReplaceAll(s, p, q) == s
    decreases |s|
  {
    if |s| >= |p| {
      assert !OccursAt(s, p, 0);
      assert s == [s[0]] + s[1..];
      if Contains(s[1..], p) {
        ContainsRight([s[0]], s[1..], p);
      }
      ReplaceAllAbsent(s[1..], p, q);
    }
  }

  /** Text before the first occurrence of the pattern is copied unchanged. */
  lemma {:induction false} ReplaceAllKeepsPrefix(s: string, p: string, q: string, k: int)
    requires |p| > 0 && 0 <= k <= |s|
    requires forall j :: 0 <= j < k ==> !OccursAt(s, p, j)
    ensures ReplaceAll(s, p, q) == s[..k] + ReplaceAll(s[k..], p, q)
    decreases k
  {
    if k > 0 {
      if |s| < |p| {
        assert s[..k] + s[k..] == s;
      } else {
        ReplaceAllSkip(s, p, q);
        NoneInTail(s, p, k);
        ReplaceAllKeepsPrefix(s[1..], p, q, k - 1);
        ConsPrefix(s, k, ReplaceAll(s[1..], p, q), ReplaceAll(s[k..], p, q));
      }
    }
  }

  /** Positions free of the pattern stay free once the first character is
      dropped. */
  lemma NoneInTail(s: string, p: string, k: int)
    requires 0 < k <= |s|
    requires forall j :: 0 <= j < k ==> !OccursAt(s, p, j)
    ensures forall j :: 0 <= j < k - 1 ==> !OccursAt(s[1..], p, j)
  {
    forall j | 0 <= j < k - 1
      ensures !OccursAt(s[1..], p, j)
    {
      OccursInSuffix(s, 1, p, j);
    }
  }

  /** Putting the first character back in front of a copied prefix. */
  lemma ConsPrefix(s: string, k: int, y: string, z: string)
    requires 0 < k <= |s| && y == s[1..][..k - 1] + z
    ensures [s[0]] + y == s[..k] + z
  {
    assert [s[0]] + s[1..][..k - 1] == s[..k];
  }

  /** `p` occurs at `i` and nowhere before it. */
  predicate FirstAt(s: string, p: string, i: int)
  {
    OccursAt(s, p, i) && forall j :: 0 <= j < i ==> !OccursAt(s, p, j)
  }

  /** `replace` copies the text before the first occurrence, writes the
      replacement in place of that occurrence, and goes on after it. */
  lemma ReplaceAllFirst(s: string, p: string, q: string, i: int)
    requires |p| > 0 && FirstAt(s, p, i)
    ensures ReplaceAll(s, p, q) == s[..i] + q + ReplaceAll(s[i + |p|..], p, q)
  {
    ReplaceAllKeepsPrefix(s, p, q, i);
    ReplaceAllAtFront(s, p, q, i);
  }

  /** `replace(p, b + p)` inserts `b` in front of every occurrence of `p`:
      in front of the first one, then the same in the rest.  With a single
      occurrence, `b` is inserted there and everything else is kept. */
  lemma ReplaceAllBefore(s: string, p: string, b: string, i: int)
    requires |p| > 0 && FirstAt(s, p, i)
    ensures ReplaceAll(s, p, b + p) == s[..i] + b + p + ReplaceAll(s[i + |p|..], p, b + p)
    ensures (forall j :: OccursAt(s, p, j) ==> j == i) ==> ReplaceAll(s, p, b + p) == s[..i] + b + s[i..]
  {
    ReplaceAllFirst(s, p, b + p, i);
    if forall j :: OccursAt(s, p, j) ==> j == i {
      ReplaceAllBeforeOnce(s, p, b, i);
    }
  }

  lemma ReplaceAllBeforeOnce(s: string, p: string, b: string, i: int)
    requires |p| > 0 && OccursAt(s, p, i)
    requires forall j :: OccursAt(s, p, j) ==> j == i
    ensures ReplaceAll(s, p, b + p) == s[..i] + b + s[i..]
  {
    ReplaceAllOnce(s, p, b + p, i);
    var x, y := s[..i], s[i + |p|..];
    assert s[i..] == p + y;
    assert x + (b + p) + y == x + b + (p + y);
  }

  /** The suffix from an occurrence starts with the replacement. */
  lemma ReplaceAllAtFront(s: string, p: string, q: string, i: int)
    requires |p| > 0 && OccursAt(s, p, i)
    ensures ReplaceAll(s[i..], p, q) == q + ReplaceAll(s[i + |p|..], p, q)
  {
    OccursInSuffix(s, i, p, 0);
    ReplaceAllHit(s[i..], p, q);
    assert s[i..][|p|..] == s[i + |p|..];
  }

  /** With a single occurrence, `replace` rewrites that occurrence and keeps
      everything around it. */
  lemma ReplaceAllOnce(s: string, p: string, q: string, i: int)
    requires |p| > 0 && OccursAt(s, p, i)
    requires forall j :: OccursAt(s, p, j) ==> j == i
    ensures ReplaceAll(s, p, q) == s[..i] + q + s[i + |p|..]
  {
    ReplaceAllFirst(s, p, q, i);
    var rest := s[i + |p|..];
    if Contains(rest, p) {
      var j :| 0 <= j <= |rest| - |p| && OccursAt(rest, p, j);
      OccursInSuffix(s, i + |p|, p, j);
      assert false;
    }
    ReplaceAllAbsent(rest, p, q);
  }

  /** A position where the pattern does not start is copied unchanged. */
  lemma ReplaceAllSkip(s: string, p: string, q: string)
    requires 0 < |p| <= |s| && !OccursAt(s, p, 0)
    ensures ReplaceAll(s, p, q) == [s[0]] + ReplaceAll(s[1..], p, q)
  {
    assert s[0..|p|] == s[..|p|];
  }

  /** When the pattern occurs, the replacement text appears in the result. */
  lemma {:induction false} ReplaceAllInserts(s: string, p: string, q: string)
    requires |p| > 0 && Contains(s, p)
    ensures Contains(ReplaceAll(s, p, q), q)
    decreases |s|
  {
    var i :| 0 <= i <= |s| - |p| && OccursAt(s, p, i);
    if OccursAt(s, p, 0) {
      ReplaceAllHit(s, p, q);
      ContainsMiddle([], q, ReplaceAll(s[|p|..], p, q));
      assert [] + q + ReplaceAll(s[|p|..], p, q) == ReplaceAll(s, p, q);
    } else {
      ReplaceAllSkip(s, p, q);
      OccursInSuffix(s, 1, p, i - 1);
      ReplaceAllInserts(s[1..], p, q);
      ContainsRight([s[0]], ReplaceAll(s[1..], p, q), q);
    }
  }

  /** An occurrence of `p` and an occurrence of `m` can never overlap: `m`
      lacks the first character of `p`, and wherever `m`'s first character
      appears inside `p` past its start, `m`'s second character does not
      follow it. */
  predicate CannotOverlap(p: string, m: string)
  {
    && |p| > 0 && |m| > 1
    && (forall k :: 0 <= k < |m| ==> m[k] != p[0])
    && (forall k :: 1 <= k < |p| && p[k] == m[0] ==> k + 1 < |p| && p[k + 1] != m[1])
  }

  lemma Disjoint(s: string, p: string, m: string, i: int, j: int)
    requires CannotOverlap(p, m) && OccursAt(s, m, i) && OccursAt(s, p, j)
    ensures j + |p| <= i || i + |m| <= j
  {
    if j <= i < j + |p| {
      CharAt(s, m, i, 0);
      CharAt(s, p, j, i - j);
      if i > j {
        CharAt(s, m, i, 1);
        CharAt(s, p, j, i - j + 1);
      }
      assert false;
    } else if i < j < i + |m| {
      CharAt(s, p, j, 0);
      CharAt(s, m, i, j - i);
      assert false;
    }
  }

  lemma CharAt(s: string, m: string, i: int, k: int)
    requires OccursAt(s, m, i) && 0 <= k < |m|
    ensures s[i + k] == m[k]
  {
    assert s[i..i + |m|][k] == s[i + k];
  }

  /** Occurrences in a suffix are the occurrences in the whole string, shifted. */
  lemma OccursInSuffix(s: string, d: int, m: string, j: int)
    requires 0 <= d <= |s| && 0 <= j
    ensures OccursAt(s[d..], m, j) <==> OccursAt(s, m, j + d)
  {
    if 0 <= j && j + |m| <= |s| - d {
      assert s[d..][j..j + |m|] == s[j + d..j + d + |m|];
    }
  }

  /** `replace` keeps an occurrence of `m` that no occurrence of the pattern overlaps. */
  lemma {:induction false} ReplaceAllKeepsAt(s: string, p: string, q: string, m: string, i: int)
    requires |p| > 0 && |m| > 0 && OccursAt(s, m, i)
    requires forall j :: OccursAt(s, p, j) ==> j + |p| <= i || i + |m| <= j
    ensures Contains(ReplaceAll(s, p, q), m)
    decreases |s|
  {
    if |s| < |p| {
      assert OccursAt(ReplaceAll(s, p, q), m, i);
    } else if OccursAt(s, p, 0) {
      ReplaceAllHit(s, p, q);
      OccursInSuffix(s, |p|, m, i - |p|);
      ApartInSuffix(s, |p|, p, m, i);
      ReplaceAllKeepsAt(s[|p|..], p, q, m, i - |p|);
      ContainsRight(q, ReplaceAll(s[|p|..], p, q), m);
    } else if i == 0 {
      ReplaceAllKeepsFront(s, p, q, m);
    } else {
      ReplaceAllSkip(s, p, q);
      OccursInSuffix(s, 1, m, i - 1);
      ApartInSuffix(s, 1, p, m, i);
      ReplaceAllKeepsAt(s[1..], p, q, m, i - 1);
      ContainsRight([s[0]], ReplaceAll(s[1..], p, q), m);
    }
  }

  /** `m` at the front, overlapped by no occurrence of the pattern, is
      copied to the front of the result. */
  lemma ReplaceAllKeepsFront(s: string, p: string, q: string, m: string)
    requires |p| > 0 && StartsWith(s, m)
    requires forall j :: 0 <= j < |m| ==> !OccursAt(s, p, j)
    ensures Contains(ReplaceAll(s, p, q), m)
  {
    ReplaceAllKeepsPrefix(s, p, q, |m|);
    var r := ReplaceAll(s, p, q);
    assert r == m + ReplaceAll(s[|m|..], p, q);
    assert r[0..|m|] == m;
    assert OccursAt(r, m, 0);
  }

  /** An occurrence of the pattern at the front is replaced. */
  lemma ReplaceAllHit(s: string, p: string, q: string)
    requires 0 < |p| <= |s| && OccursAt(s, p, 0)
    ensures ReplaceAll(s, p, q) == q + ReplaceAll(s[|p|..], p, q)
  {
    assert s[0..|p|] == s[..|p|];
  }

  /** Occurrences of `p` apart from the one of `m` at `i` stay apart in the
      suffix from `d`. */
  lemma ApartInSuffix(s: string, d: int, p: string, m: string, i: int)
    requires 0 <= d <= |s|
    requires forall j :: OccursAt(s, p, j) ==> j + |p| <= i || i + |m| <= j
    ensures forall j :: OccursAt(s[d..], p, j) ==> j + |p| <= i - d || i - d + |m| <= j
  {
    forall j | OccursAt(s[d..], p, j)
      ensures j + |p| <= i - d || i - d + |m| <= j
    {
      OccursInSuffix(s, d, p, j);
    }
  }

  /** `replace` keeps every string that cannot overlap the pattern. */
  lemma ReplaceAllKeeps(s: string, p: string, q: string, m: string)
    requires CannotOverlap(p, m) && Contains(s, m)
    ensures Contains(ReplaceAll(s, p, q), m)
  {
    var i :| 0 <= i <= |s| - |m| && OccursAt(s, m, i);
    forall j | OccursAt(s, p, j)
      ensures j + |p| <= i || i + |m| <= j
    {
      Disjoint(s, p, m, i, j);
    }
    ReplaceAllKeepsAt(s, p, q, m, i);
  }

  /** Python's `str.isspace` on ASCII: tab, line feed, vertical tab, form
      feed, carriage return, the four information separators and space. */
  predicate IsSpace(c: char)
  {
    ('\t' <= c <= '\r') || ('\U{1C}' <= c <= '\U{1F}') || c == ' '
  }

  /** The number of whitespace characters `s` starts with. */
  function LeadingSpaces(s: string): (n: nat)
    ensures n <= |s| && (n == |s| || !IsSpace(s[n]))
    ensures forall k :: 0 <= k < n ==> IsSpace(s[k])
    decreases |s|
  {
    if |s| > 0 && IsSpace(s[0]) then 1 + LeadingSpaces(s[1..]) else 0
  }

  /** The number of whitespace characters `s` ends with. */
  function TrailingSpaces(s: string): (n: nat)
    ensures n <= |s| && (n == |s| || !IsSpace(s[|s| - 1 - n]))
    ensures forall k :: |s| - n <= k < |s| ==> IsSpace(s[k])
    decreases |s|
  {
    if |s| > 0 && IsSpace(s[|s| - 1]) then 1 + TrailingSpaces(s[..|s| - 1]) else 0
  }

  /** Python's `s.strip()` with no argument, on ASCII whitespace: the slice of
      `s` left once the whitespace at both ends is removed. */
  function Strip(s: string): (r: string)
    ensures r == [] || (!IsSpace(r[0]) && !IsSpace(r[|r| - 1]))
    ensures exists i :: 0 <= i <= |s| - |r| && OccursAt(s, r, i)
                        && (forall k :: 0 <= k < i ==> IsSpace(s[k]))
                        && (forall k :: i + |r| <= k < |s| ==> IsSpace(s[k]))
  {
    var i := LeadingSpaces(s);
    var n := TrailingSpaces(s[i..]);
    StripEnds(s, i, n);
    SpacesAfter(s, i, n);
    assert OccursAt(s, s[i..|s| - n], i);
    s[i..|s| - n]
  }

  /** What is left after stripping starts and ends with a non-space. */
  lemma StripEnds(s: string, i: nat, n: nat)
    requires i == LeadingSpaces(s) && n == TrailingSpaces(s[i..])
    ensures i <= |s| - n
    ensures var r := s[i..|s| - n]; r == [] || (!IsSpace(r[0]) && !IsSpace(r[|r| - 1]))
  {
    var t := s[i..];
    if i < |s| - n {
      assert s[i..|s| - n][0] == s[i];
      assert s[|s| - n - 1] == t[|t| - 1 - n];
    }
  }

  /** Whitespace at the end of a suffix is whitespace at the end of the
      whole string. */
  lemma SpacesAfter(s: string, i: nat, n: nat)
    requires i + n <= |s|
    requires forall k :: |s| - i - n <= k < |s| - i ==> IsSpace(s[i..][k])
    ensures forall k :: |s| - n <= k < |s| ==> IsSpace(s[k])
  {
    forall k | |s| - n <= k < |s| ensures IsSpace(s[k]) {
      assert s[k] == s[i..][k - i];
    }
  }

  /** Python's `sep.join(items)`. */
  function Join(items: seq<string>, sep: string): string
  {
    if |items| == 0 then ""
    else if |items| == 1 then items[0]
    else items[0] + sep + Join(items[1..], sep)
  }

  /** The concatenation of a list of strings, in order. */
  function Concat(parts: seq<string>): string
  {
    if parts == [] then "" else parts[0] + Concat(parts[1..])
  }

  lemma {:induction false} ConcatAppend(xs: seq<string>, ys: seq<string>)
    ensures Concat(xs + ys) == Concat(xs) + Concat(ys)
  {
    if xs != [] {
      assert (xs + ys)[1..] == xs[1..] + ys;
      ConcatAppend(xs[1..], ys);
    } else {
      assert xs + ys == ys;
    }
  }

  /** Python's `a <= b` on strings: lexicographic by code point, a proper
      prefix first. */
  predicate StrLe(a: string, b: string)
    decreases |a|
  {
    |a| == 0 || (|b| > 0 && (a[0] < b[0] || (a[0] == b[0] && StrLe(a[1..], b[1..]))))
  }

  lemma {:induction false} StrLeTotal(a: string, b: string)
    ensures StrLe(a, b) || StrLe(b, a)
    decreases |a|
  {
    if |a| > 0 && |b| > 0 && a[0] == b[0] {
      StrLeTotal(a[1..], b[1..]);
    }
  }

  lemma {:induction false} StrLeTrans(a: string, b: string, c: string)
    requires StrLe(a, b) && StrLe(b, c)
    ensures StrLe(a, c)
    decreases |a|
  {
    if |a| > 0 && a[0] == b[0] && b[0] == c[0] {
      StrLeTrans(a[1..], b[1..], c[1..]);
    }
  }
}

/**
 * The string operations the two services borrow from Python, restricted to ASCII:
 * `str.lower`, `str.title`, `str.replace('_', ' ')`, the substring test `w in s`,
 * and `sorted` on a set of strings (code-point lexicographic order).
 */
module Strings {

  /** Cutting a slice in two. */
  lemma SliceSplit(s: string, a: nat, b: nat, c: nat)
    requires a <= b <= c <= |s|
    ensures s[a..c] == s[a..b] + s[b..c]
  {
  }

  /** Cutting a suffix in two. */
  lemma SuffixSplit(s: string, a: nat, b: nat)
    requires a <= b <= |s|
    ensures s[a..] == s[a..b] + s[b..]
  {
  }

  /** A slice of a slice is a slice. */
  lemma SubSlice(s: string, lo: nat, hi: nat, i: nat, j: nat)
    requires lo <= hi <= |s| && i <= j <= hi - lo
    ensures s[lo..hi][i..j] == s[lo + i..lo + j]
  {
    assert forall k :: 0 <= k < j - i ==> s[lo..hi][i..j][k] == s[lo + i + k];
  }

  /** Cutting a joined string at or before the join, and right at it. */
  lemma JoinSlices(x: string, y: string, i: nat)
    requires i <= |x|
    ensures (x + y)[..i] == x[..i]
    ensures (x + y)[|x|..] == y
  {
  }

  /** Proof step only: regroups a concatenation so that the solver can match its parts. */
  lemma AppendAssoc(x: string, y: string, z: string)
    ensures (x + y) + z == x + (y + z)
  {
  }

  predicate IsUpper(c: char) { 'A' <= c <= 'Z' }

  predicate IsLower(c: char) { 'a' <= c <= 'z' }

  /** The ASCII cased characters: the only ones `lower`, `upper` and `title` change. */
  predicate IsLetter(c: char) { IsUpper(c) || IsLower(c) }

  function LowerChar(c: char): (r: char)
    ensures IsUpper(c) ==> IsLower(r)
    ensures !IsUpper(c) ==> r == c
  {
    if IsUpper(c) then (c as int + 32) as char else c
  }

  function UpperChar(c: char): (r: char)
    ensures IsLower(c) ==> IsUpper(r)
    ensures !IsLower(c) ==> r == c
  {
    if IsLower(c) then (c as int - 32) as char else c
  }

  /** `s.lower()`: every character lowered, nothing else changes. */
  function Lower(s: string): (r: string)
    ensures |r| == |s|
    ensures forall i :: 0 <= i < |s| ==> r[i] == LowerChar(s[i])
  {
    if s == [] then [] else [LowerChar(s[0])] + Lower(s[1..])
  }

  /** `s.replace('_', ' ')`. */
  function UnderscoresToSpaces(s: string): (r: string)
    ensures |r| == |s|
    ensures forall i :: 0 <= i < |s| ==> r[i] == (if s[i] == '_' then ' ' else s[i])
  {
    if s == [] then [] else [if s[0] == '_' then ' ' else s[0]] + UnderscoresToSpaces(s[1..])
  }

  /**
   * `s.title()` as CPython computes it: a character is lowered when the character
   * before it is cased, and upper-cased otherwise.
   */
  function Title(s: string): string
  {
    TitleAfter(s, false)
  }

  function TitleAfter(s: string, previousIsCased: bool): (r: string)
    ensures |r| == |s|
  {
    if s == [] then []
    else
      [if previousIsCased then LowerChar(s[0]) else UpperChar(s[0])]
      + TitleAfter(s[1..], IsLetter(s[0]))
  }

  /** A word of the title-cased text starts at `k` when `k` is 0 or follows a non-letter. */
  predicate StartsWord(s: string, k: nat)
    requires k < |s|
  {
    k == 0 || !IsLetter(s[k - 1])
  }

  /** The character-wise description of `Title`: word starts are upper-cased, the rest lowered. */
  lemma {:induction false} TitleAt(s: string, k: nat)
    requires k < |s|
    ensures |Title(s)| == |s|
    ensures Title(s)[k] == if StartsWord(s, k) then UpperChar(s[k]) else LowerChar(s[k])
  {
    TitleAfterAt(s, false, k);
  }

  lemma {:induction false} TitleAfterAt(s: string, previousIsCased: bool, k: nat)
    requires k < |s|
    ensures TitleAfter(s, previousIsCased)[k] ==
      if (if k == 0 then previousIsCased else IsLetter(s[k - 1])) then LowerChar(s[k]) else UpperChar(s[k])
  {
    if k > 0 {
      TitleAfterAt(s[1..], IsLetter(s[0]), k - 1);
      if k > 1 {
        assert s[1..][k - 2] == s[k - 1];
      }
    }
  }

  /**
   * `s.replace('_', ' ').title()` character by character: an underscore becomes a space, and
   * since neither is a letter both start a new word.
   */
  lemma TitleOfSpacedAt(s: string, k: nat)
    requires k < |s|
    ensures |Title(UnderscoresToSpaces(s))| == |s|
    ensures Title(UnderscoresToSpaces(s))[k] ==
      if s[k] == '_' then ' '
      else if StartsWord(s, k) then UpperChar(s[k])
      else LowerChar(s[k])
  {
    var spaced := UnderscoresToSpaces(s);
    TitleAt(spaced, k);
    if k > 0 {
      assert spaced[k - 1] == if s[k - 1] == '_' then ' ' else s[k - 1];
    }
    assert StartsWord(spaced, k) == StartsWord(s, k);
  }

  /** `w` occurs in `s` at position `i`. */
  predicate OccursAt(s: string, w: string, i: int)
  {
    0 <= i && i + |w| <= |s| && s[i..i + |w|] == w
  }

  /** Python's `w in s` on strings. */
  function Contains(s: string, w: string): (r: bool)
    ensures r <==> exists i :: OccursAt(s, w, i)
  {
    ContainsFrom(s, w, 0)
  }

  function ContainsFrom(s: string, w: string, from: nat): (r: bool)
    ensures r <==> exists i :: from <= i && OccursAt(s, w, i)
    decreases |s| - from
  {
    if from + |w| > |s| then false
    else if s[from..from + |w|] == w then assert OccursAt(s, w, from); true
    else ContainsFrom(s, w, from + 1)
  }

  /** Python's `any(w in s for w in words)`, word by word from the left. */
  predicate ContainsAny(s: string, words: seq<string>)
  {
    words != [] && (Contains(s, words[0]) || ContainsAny(s, words[1..]))
  }

  /** `any` holds exactly when one of the words occurs in `s`. */
  lemma {:induction false} ContainsAnyIff(s: string, words: seq<string>)
    ensures ContainsAny(s, words) <==> exists w :: w in words && Contains(s, w)
  {
    if words != [] {
      ContainsAnyIff(s, words[1..]);
      assert words == [words[0]] + words[1..];
    }
  }

  /** Python's `<` on `str`: lexicographic on code points, a proper prefix comes first. */
  predicate Less(a: string, b: string)
  {
    if a == [] then b != []
    else if b == [] then false
    else a[0] < b[0] || (a[0] == b[0] && Less(a[1..], b[1..]))
  }

  lemma {:induction false} LessIrreflexive(a: string)
    ensures !Less(a, a)
  {
    if a != [] {
      LessIrreflexive(a[1..]);
    }
  }

  lemma {:induction false} LessTransitive(a: string, b: string, c: string)
    requires Less(a, b) && Less(b, c)
    ensures Less(a, c)
  {
    if a != [] && b != [] && c != [] && a[0] == b[0] == c[0] {
      LessTransitive(a[1..], b[1..], c[1..]);
    }
  }

  lemma {:induction false} LessTotal(a: string, b: string)
    requires a != b
    ensures Less(a, b) || Less(b, a)
  {
    if a != [] && b != [] && a[0] == b[0] {
      assert a == [a[0]] + a[1..] && b == [b[0]] + b[1..];
      LessTotal(a[1..], b[1..]);
    }
  }

  predicate StrictlySorted(s: seq<string>)
  {
    forall i, j :: 0 <= i < j < |s| ==> Less(s[i], s[j])
  }

  /** Inserts a new element into a strictly sorted list, keeping it strictly sorted. */
  function Insert(s: seq<string>, x: string): (r: seq<string>)
    requires StrictlySorted(s) && x !in s
    ensures StrictlySorted(r)
    ensures multiset(r) == multiset(s) + multiset{x}
  {
    if s == [] then [x]
    else if Less(x, s[0]) then
      PrependBelowHead(x, s);
      [x] + s
    else
      LessTotal(x, s[0]);
      var tail := Insert(s[1..], x);
      assert s == [s[0]] + s[1..];
      PrependBelowAll(s, x, tail);
      [s[0]] + tail
  }

  lemma PrependBelowHead(x: string, s: seq<string>)
    requires StrictlySorted(s) && s != [] && Less(x, s[0])
    ensures StrictlySorted([x] + s)
  {
    forall j | 0 < j < |s| ensures Less(x, s[j]) {
      LessTransitive(x, s[0], s[j]);
    }
  }

  lemma PrependBelowAll(s: seq<string>, x: string, tail: seq<string>)
    requires StrictlySorted(s) && s != [] && Less(s[0], x)
    requires StrictlySorted(tail) && multiset(tail) == multiset(s[1..]) + multiset{x}
    ensures StrictlySorted([s[0]] + tail)
  {
    forall j | 0 <= j < |tail| ensures Less(s[0], tail[j]) {
      assert tail[j] in multiset(tail);
      if tail[j] != x {
        assert tail[j] in s[1..];
      }
    }
  }

  lemma LessAsymmetric(a: string, b: string)
    ensures !(Less(a, b) && Less(b, a))
  {
    if Less(a, b) && Less(b, a) {
      LessTransitive(a, b, a);
      LessIrreflexive(a);
    }
  }

  /** The head of a strictly sorted list is below every other element of it. */
  lemma SortedHeadIsLeast(s: seq<string>, x: string)
    requires StrictlySorted(s) && x in s
    ensures x == s[0] || Less(s[0], x)
  {
  }

  lemma SortedTail(s: seq<string>, x: string)
    requires StrictlySorted(s) && s != []
    ensures x in s[1..] <==> x in s && x != s[0]
  {
    if x in s[1..] {
      var i :| 1 <= i < |s| && s[i] == x;
      LessIrreflexive(x);
    }
    if x in s && x != s[0] {
      var i :| 0 <= i < |s| && s[i] == x;
      assert s[1..][i - 1] == x;
    }
  }

  lemma NonEmptyHasMember(s: seq<string>)
    ensures s != [] ==> s[0] in s
  {
  }

  /** Two strictly sorted lists with the same elements are equal: sorting a set is deterministic. */
  lemma {:induction false} SortedUnique(a: seq<string>, b: seq<string>)
    requires StrictlySorted(a) && StrictlySorted(b)
    requires forall x :: x in a <==> x in b
    ensures a == b
  {
    NonEmptyHasMember(a);
    NonEmptyHasMember(b);
    if a != [] && b != [] {
      SortedHeadIsLeast(a, b[0]);
      SortedHeadIsLeast(b, a[0]);
      LessAsymmetric(a[0], b[0]);
      forall x ensures x in a[1..] <==> x in b[1..] {
        SortedTail(a, x);
        SortedTail(b, x);
      }
      SortedUnique(a[1..], b[1..]);
      assert a == [a[0]] + a[1..] && b == [b[0]] + b[1..];
    }
  }

  /** `sorted(list(names))`: the names of the set, each once, in increasing order. */
  method SortNames(names: set<string>) returns (r: seq<string>)
    ensures StrictlySorted(r)
    ensures forall x :: x in r <==> x in names
    ensures |r| == |names|
  {
    r := [];
    var rest := names;
    while rest != {}
      invariant rest <= names
      invariant StrictlySorted(r)
      invariant forall x :: x in r <==> x in names && x !in rest
      invariant |r| + |rest| == |names|
      decreases rest
    {
      var x :| x in rest;
      assert x !in r;
      r := Insert(r, x);
      assert forall y :: y in r <==> y in multiset(r);
      rest := rest - {x};
    }
  }
}

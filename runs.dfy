/**
 * A paragraph as python-docx presents it: an ordered, fixed-length array of runs, each with
 * its own text (and, not modelled, its own styling).  The paragraph's text is the run texts
 * joined.  `ReplaceTextInParagraph` rewrites one span of that text in place, touching only
 * the runs the span overlaps, so every run keeps its identity and its position.
 */
module Runs {
  import Strings

  /** `paragraph.text`: the run texts joined in order. */
  function Concat(rs: seq<string>): string
  {
    if rs == [] then [] else Concat(rs[..|rs| - 1]) + rs[|rs| - 1]
  }

  /** Where run `k` starts in the paragraph text: the `start` of its `runs_info` entry. */
  function Offset(rs: seq<string>, k: nat): nat
    requires k <= |rs|
  {
    if k == 0 then 0 else Offset(rs, k - 1) + |rs[k - 1]|
  }

  /** Run `k`'s interval `[start, end)` overlaps the span `[s, e)`. */
  predicate Overlaps(rs: seq<string>, k: nat, s: nat, e: nat)
    requires k < |rs|
  {
    Offset(rs, k) < e && Offset(rs, k + 1) > s
  }

  /** The indices of the runs among the first `n` that overlap `[s, e)`, in order. */
  function AffectedUpTo(rs: seq<string>, s: nat, e: nat, n: nat): (a: seq<nat>)
    requires n <= |rs|
    ensures forall q :: 0 <= q < |a| ==> a[q] < n
  {
    if n == 0 then []
    else AffectedUpTo(rs, s, e, n - 1) + (if Overlaps(rs, n - 1, s, e) then [n - 1] else [])
  }

  /** `affected_runs`: the indices of all runs that overlap `[s, e)`. */
  function Affected(rs: seq<string>, s: nat, e: nat): seq<nat>
  {
    AffectedUpTo(rs, s, e, |rs|)
  }

  // ---------------------------------------------------------------------------
  // Offsets and the joined text
  // ---------------------------------------------------------------------------

  lemma {:induction false} OffsetMono(rs: seq<string>, i: nat, j: nat)
    requires i <= j <= |rs|
    ensures Offset(rs, i) <= Offset(rs, j)
    decreases j - i
  {
    if i < j {
      OffsetMono(rs, i, j - 1);
    }
  }

  /** The offset of run `k` is the length of the text of the runs before it. */
  lemma {:induction false} OffsetIsLength(rs: seq<string>, k: nat)
    requires k <= |rs|
    ensures Offset(rs, k) == |Concat(rs[..k])|
  {
    if k > 0 {
      OffsetIsLength(rs, k - 1);
      assert rs[..k][..k - 1] == rs[..k - 1];
    }
  }

  /** The text of the first `n` runs is the first `Offset(rs, n)` characters of the paragraph. */
  lemma {:induction false} ConcatPrefix(rs: seq<string>, n: nat, m: nat)
    requires n <= m <= |rs|
    ensures Offset(rs, n) <= |Concat(rs[..m])|
    ensures Concat(rs[..n]) == Concat(rs[..m])[..Offset(rs, n)]
    decreases m - n
  {
    OffsetIsLength(rs, n);
    OffsetIsLength(rs, m);
    OffsetMono(rs, n, m);
    if n < m {
      ConcatPrefix(rs, n, m - 1);
      assert rs[..m][..m - 1] == rs[..m - 1];
      OffsetIsLength(rs, m - 1);
      OffsetMono(rs, n, m - 1);
      assert Concat(rs[..m]) == Concat(rs[..m - 1]) + rs[m - 1];
    } else {
      assert Concat(rs[..n]) == Concat(rs[..m])[..|Concat(rs[..n])|];
    }
  }

  /** Run `k` occupies exactly `[Offset(rs, k), Offset(rs, k + 1))` of the paragraph text. */
  lemma RunInText(rs: seq<string>, k: nat)
    requires k < |rs|
    ensures Offset(rs, k + 1) <= |Concat(rs)|
    ensures Concat(rs)[Offset(rs, k)..Offset(rs, k + 1)] == rs[k]
  {
    var t := Concat(rs);
    assert rs[..|rs|] == rs;
    ConcatPrefix(rs, k, |rs|);
    ConcatPrefix(rs, k + 1, |rs|);
    assert rs[..k + 1][..k] == rs[..k];
    assert Concat(rs[..k + 1]) == Concat(rs[..k]) + rs[k];
    OffsetIsLength(rs, k);
    assert t[..Offset(rs, k + 1)] == Concat(rs[..k]) + rs[k];
    assert t[Offset(rs, k)..Offset(rs, k + 1)] == t[..Offset(rs, k + 1)][Offset(rs, k)..];
  }

  /** The text of the first `n` runs, as a prefix of the paragraph text. */
  lemma PrefixInText(rs: seq<string>, n: nat)
    requires n <= |rs|
    ensures Offset(rs, n) <= |Concat(rs)|
    ensures Concat(rs[..n]) == Concat(rs)[..Offset(rs, n)]
  {
    assert rs[..|rs|] == rs;
    ConcatPrefix(rs, n, |rs|);
  }

  lemma OffsetOfAll(rs: seq<string>)
    ensures Offset(rs, |rs|) == |Concat(rs)|
  {
    OffsetIsLength(rs, |rs|);
    assert rs[..|rs|] == rs;
  }

  // ---------------------------------------------------------------------------
  // The affected runs form one block
  // ---------------------------------------------------------------------------

  /** A run between two runs that overlap the span overlaps it too. */
  lemma OverlapBetween(rs: seq<string>, s: nat, e: nat, i: nat, m: nat, j: nat)
    requires i < m < j < |rs|
    requires Overlaps(rs, i, s, e) && Overlaps(rs, j, s, e)
    ensures Overlaps(rs, m, s, e)
  {
    OffsetMono(rs, m, j);
    OffsetMono(rs, i + 1, m + 1);
  }

  /** The affected list holds exactly the runs that overlap the span. */
  lemma {:induction false} AffectedMembers(rs: seq<string>, s: nat, e: nat, n: nat)
    requires n <= |rs|
    ensures forall k: nat :: k in AffectedUpTo(rs, s, e, n) <==> k < n && Overlaps(rs, k, s, e)
  {
    if n > 0 {
      AffectedMembers(rs, s, e, n - 1);
    }
  }

  /** When run `n - 1` overlaps the span, the affected run found before it is run `n - 2`. */
  lemma LastAffectedBefore(rs: seq<string>, s: nat, e: nat, n: nat)
    requires 0 < n <= |rs| && Overlaps(rs, n - 1, s, e) && AffectedUpTo(rs, s, e, n - 1) != []
    ensures n >= 2
    ensures AffectedUpTo(rs, s, e, n - 1)[|AffectedUpTo(rs, s, e, n - 1)| - 1] == n - 2
  {
    var a := AffectedUpTo(rs, s, e, n - 1);
    AffectedMembers(rs, s, e, n - 1);
    AffectedIncreasing(rs, s, e, n - 1);
    var last := a[|a| - 1];
    assert last in a;
    assert forall x :: x in a ==> x <= last;
    if last < n - 2 {
      OverlapBetween(rs, s, e, last, n - 2, n - 1);
    }
  }

  /** The affected runs are listed in increasing order. */
  lemma {:induction false} AffectedIncreasing(rs: seq<string>, s: nat, e: nat, n: nat)
    requires n <= |rs|
    ensures forall p, q :: 0 <= p < q < |AffectedUpTo(rs, s, e, n)| ==> AffectedUpTo(rs, s, e, n)[p] < AffectedUpTo(rs, s, e, n)[q]
  {
    if n > 0 {
      AffectedIncreasing(rs, s, e, n - 1);
    }
  }

  /** The affected runs are consecutive: the `q`-th of them is the `q`-th run after the first. */
  lemma {:induction false} AffectedConsecutive(rs: seq<string>, s: nat, e: nat, n: nat)
    requires n <= |rs|
    ensures forall q :: 0 <= q < |AffectedUpTo(rs, s, e, n)| ==>
      AffectedUpTo(rs, s, e, n)[q] == AffectedUpTo(rs, s, e, n)[0] + q
  {
    if n > 0 {
      var a := AffectedUpTo(rs, s, e, n - 1);
      AffectedConsecutive(rs, s, e, n - 1);
      if Overlaps(rs, n - 1, s, e) && a != [] {
        LastAffectedBefore(rs, s, e, n);
        assert AffectedUpTo(rs, s, e, n) == a + [n - 1];
      }
    }
  }

  /**
   * Runs `first` to `last` form the affected block of the span `[s, e)`: the span starts in
   * the first of them and ends in the last of them.
   */
  predicate Block(rs: seq<string>, s: nat, e: nat, first: nat, last: nat)
  {
    && first <= last < |rs|
    && Offset(rs, first) <= s < Offset(rs, first + 1)
    && Offset(rs, last) < e <= Offset(rs, last + 1)
  }

  /**
   * The affected runs are the block from the first to the last of them: every run in between
   * overlaps the span, and the cut positions fall inside the first and the last run.
   */
  lemma AffectedBounds(rs: seq<string>, s: nat, e: nat)
    requires s <= e <= |Concat(rs)|
    requires Affected(rs, s, e) != []
    ensures Block(rs, s, e, Affected(rs, s, e)[0], Affected(rs, s, e)[|Affected(rs, s, e)| - 1])
    ensures |Affected(rs, s, e)| == Affected(rs, s, e)[|Affected(rs, s, e)| - 1] - Affected(rs, s, e)[0] + 1
    ensures forall q :: 0 <= q < |Affected(rs, s, e)| ==> Affected(rs, s, e)[q] == Affected(rs, s, e)[0] + q
  {
    var a := Affected(rs, s, e);
    AffectedMembers(rs, s, e, |rs|);
    AffectedConsecutive(rs, s, e, |rs|);
    var first, last := a[0], a[|a| - 1];
    assert first in a && last in a;
    if first > 0 {
      assert first - 1 !in a;
      OffsetMono(rs, first - 1, first);
    }
    if last + 1 < |rs| {
      assert last + 1 !in a;
      OffsetMono(rs, last + 1, last + 2);
    } else {
      OffsetOfAll(rs);
    }
  }

  /** Every run of a block overlaps the span. */
  lemma BlockOverlaps(rs: seq<string>, s: nat, e: nat, first: nat, last: nat, k: nat)
    requires Block(rs, s, e, first, last) && first <= k <= last
    ensures Overlaps(rs, k, s, e)
  {
    OffsetMono(rs, k, last);
    OffsetMono(rs, first + 1, k + 1);
  }

  // ---------------------------------------------------------------------------
  // What the rewrite does to each run
  // ---------------------------------------------------------------------------

  /**
   * The text of run `k` once the block `[first, last]` is rewritten with the cuts `cutStart`
   * (in the first run) and `cutEnd` (in the last run): runs outside the block are untouched;
   * a single affected run becomes its text before the cut, the replacement, and its text after
   * the cut; with several, the first keeps its text before the cut followed by the
   * replacement, the last keeps its text after the cut, and those between become empty.
   */
  function RewrittenRun(rs: seq<string>, first: nat, last: nat, cutStart: nat, cutEnd: nat, replacement: string, k: nat): string
    requires first <= last < |rs| && k < |rs|
    requires cutStart <= |rs[first]| && cutEnd <= |rs[last]|
  {
    if k < first || last < k then rs[k]
    else if first == last then rs[first][..cutStart] + replacement + rs[first][cutEnd..]
    else if k == first then rs[first][..cutStart] + replacement
    else if k == last then rs[last][cutEnd..]
    else ""
  }

  /** Run `k` of `ns` is run `k` of `rs` after the block `[first, last]` is rewritten. */
  predicate RewrittenAt(rs: seq<string>, ns: seq<string>, s: nat, e: nat, replacement: string, first: nat, last: nat, k: nat)
    requires Block(rs, s, e, first, last) && |ns| == |rs| && k < |rs|
  {
    ns[k] == RewrittenRun(rs, first, last, s - Offset(rs, first), e - Offset(rs, last), replacement, k)
  }

  /** The text of run `k` after the span `[s, e)` of the paragraph is replaced. */
  function NewText(rs: seq<string>, s: nat, e: nat, replacement: string, k: nat): string
    requires s <= e <= |Concat(rs)| && k < |rs|
  {
    var a := Affected(rs, s, e);
    if a == [] then rs[k]
    else
      AffectedBounds(rs, s, e);
      var first, last := a[0], a[|a| - 1];
      RewrittenRun(rs, first, last, s - Offset(rs, first), e - Offset(rs, last), replacement, k)
  }

  /** `t` is the text the runs `rs` lay out: run `k` occupies `[Offset(rs, k), Offset(rs, k + 1))`. */
  predicate Layout(rs: seq<string>, t: string)
  {
    Offset(rs, |rs|) == |t| && forall k :: 0 <= k < |rs| ==> RunAt(rs, t, k)
  }

  /** Run `k` of `rs` stands in `t` at its offset. */
  predicate RunAt(rs: seq<string>, t: string, k: nat)
    requires k < |rs|
  {
    Offset(rs, k + 1) <= |t| && rs[k] == t[Offset(rs, k)..Offset(rs, k + 1)]
  }

  /** The joined text is laid out by its runs. */
  lemma ConcatLayout(rs: seq<string>)
    ensures Layout(rs, Concat(rs))
  {
    OffsetOfAll(rs);
    forall k | 0 <= k < |rs|
      ensures RunAt(rs, Concat(rs), k)
    {
      RunInText(rs, k);
    }
  }

  /**
   * What the joined text `c` of the rewritten runs before offset `off` (the start of run `n`)
   * is: before the block, the old text `t`; inside it, the old text before the span followed
   * by the replacement; after it, that followed by the old text from the end of the span.
   */
  predicate PrefixShape(t: string, s: nat, e: nat, replacement: string, first: nat, last: nat, n: nat, off: nat, c: string)
    requires off <= |t| && s <= e <= |t|
  {
    && (n <= first ==> c == t[..off])
    && (first < n <= last ==> c == t[..s] + replacement)
    && (last < n ==> e <= off && c == t[..s] + replacement + t[e..off])
  }

  lemma ExtendBefore(t: string, ok: nat, ok1: nat, c: string, v: string)
    requires ok <= ok1 <= |t| && c == t[..ok] && v == t[ok..ok1]
    ensures c + v == t[..ok1]
  {
    Strings.SliceSplit(t, 0, ok, ok1);
  }

  lemma ExtendSingle(t: string, ok: nat, s: nat, e: nat, ok1: nat, r: string, c: string, v: string)
    requires ok <= s <= e <= ok1 <= |t| && c == t[..ok] && v == t[ok..s] + r + t[e..ok1]
    ensures c + v == t[..s] + r + t[e..ok1]
  {
    Strings.SliceSplit(t, 0, ok, s);
    Strings.AppendAssoc(t[..ok], t[ok..s] + r, t[e..ok1]);
    Strings.AppendAssoc(t[..ok], t[ok..s], r);
  }

  lemma ExtendFirst(t: string, ok: nat, s: nat, r: string, c: string, v: string)
    requires ok <= s <= |t| && c == t[..ok] && v == t[ok..s] + r
    ensures c + v == t[..s] + r
  {
    Strings.SliceSplit(t, 0, ok, s);
    Strings.AppendAssoc(t[..ok], t[ok..s], r);
  }

  lemma ExtendAfter(t: string, s: nat, e: nat, ok: nat, ok1: nat, r: string, c: string, v: string)
    requires s <= e <= ok <= ok1 <= |t| && c == t[..s] + r + t[e..ok] && v == t[ok..ok1]
    ensures c + v == t[..s] + r + t[e..ok1]
  {
    Strings.SliceSplit(t, e, ok, ok1);
    Strings.AppendAssoc(t[..s] + r, t[e..ok], t[ok..ok1]);
  }

  /** Appending the next rewritten run keeps the shape of the joined prefix. */
  lemma PrefixShapeStep(rs: seq<string>, t: string, s: nat, e: nat, replacement: string, first: nat, last: nat, k: nat, c: string)
    requires s < e <= |t| && k < |rs| && Block(rs, s, e, first, last)
    requires RunAt(rs, t, k)
    requires PrefixShape(t, s, e, replacement, first, last, k, Offset(rs, k), c)
    ensures PrefixShape(t, s, e, replacement, first, last, k + 1, Offset(rs, k + 1),
      c + RewrittenRun(rs, first, last, s - Offset(rs, first), e - Offset(rs, last), replacement, k))
  {
    if k < first {
      StepBefore(rs, t, s, e, replacement, first, last, k, c);
    } else if k == first {
      StepFirst(rs, t, s, e, replacement, first, last, k, c);
    } else if k <= last {
      StepInside(rs, t, s, e, replacement, first, last, k, c);
    } else {
      StepAfter(rs, t, s, e, replacement, first, last, k, c);
    }
  }

  lemma StepBefore(rs: seq<string>, t: string, s: nat, e: nat, replacement: string, first: nat, last: nat, k: nat, c: string)
    requires s < e <= |t| && k < |rs| && Block(rs, s, e, first, last) && k < first
    requires RunAt(rs, t, k)
    requires PrefixShape(t, s, e, replacement, first, last, k, Offset(rs, k), c)
    ensures PrefixShape(t, s, e, replacement, first, last, k + 1, Offset(rs, k + 1),
      c + RewrittenRun(rs, first, last, s - Offset(rs, first), e - Offset(rs, last), replacement, k))
  {
    ExtendBefore(t, Offset(rs, k), Offset(rs, k + 1), c, rs[k]);
  }

  lemma StepFirst(rs: seq<string>, t: string, s: nat, e: nat, replacement: string, first: nat, last: nat, k: nat, c: string)
    requires s < e <= |t| && k < |rs| && Block(rs, s, e, first, last) && k == first
    requires RunAt(rs, t, k)
    requires PrefixShape(t, s, e, replacement, first, last, k, Offset(rs, k), c)
    ensures PrefixShape(t, s, e, replacement, first, last, k + 1, Offset(rs, k + 1),
      c + RewrittenRun(rs, first, last, s - Offset(rs, first), e - Offset(rs, last), replacement, k))
  {
    var ok, ok1 := Offset(rs, k), Offset(rs, k + 1);
    Strings.SubSlice(t, ok, ok1, 0, s - ok);
    if first == last {
      Strings.SubSlice(t, ok, ok1, e - ok, ok1 - ok);
      ExtendSingle(t, ok, s, e, ok1, replacement, c, t[ok..s] + replacement + t[e..ok1]);
    } else {
      ExtendFirst(t, ok, s, replacement, c, t[ok..s] + replacement);
    }
  }

  lemma StepInside(rs: seq<string>, t: string, s: nat, e: nat, replacement: string, first: nat, last: nat, k: nat, c: string)
    requires s < e <= |t| && k < |rs| && Block(rs, s, e, first, last) && first < k <= last
    requires RunAt(rs, t, k)
    requires PrefixShape(t, s, e, replacement, first, last, k, Offset(rs, k), c)
    ensures PrefixShape(t, s, e, replacement, first, last, k + 1, Offset(rs, k + 1),
      c + RewrittenRun(rs, first, last, s - Offset(rs, first), e - Offset(rs, last), replacement, k))
  {
    var ok, ok1 := Offset(rs, k), Offset(rs, k + 1);
    if k == last {
      Strings.SubSlice(t, ok, ok1, e - ok, ok1 - ok);
    } else {
      assert c + "" == c;
    }
  }

  lemma StepAfter(rs: seq<string>, t: string, s: nat, e: nat, replacement: string, first: nat, last: nat, k: nat, c: string)
    requires s < e <= |t| && k < |rs| && Block(rs, s, e, first, last) && last < k
    requires RunAt(rs, t, k)
    requires PrefixShape(t, s, e, replacement, first, last, k, Offset(rs, k), c)
    ensures PrefixShape(t, s, e, replacement, first, last, k + 1, Offset(rs, k + 1),
      c + RewrittenRun(rs, first, last, s - Offset(rs, first), e - Offset(rs, last), replacement, k))
  {
    OffsetMono(rs, last + 1, k);
    ExtendAfter(t, s, e, Offset(rs, k), Offset(rs, k + 1), replacement, c, rs[k]);
  }

  /** The joined text of the first `n` rewritten runs has the shape `PrefixShape` describes. */
  lemma {:induction false} RewritePrefix(rs: seq<string>, ns: seq<string>, t: string, s: nat, e: nat, replacement: string, first: nat, last: nat, n: nat)
    requires s < e <= |t| && Layout(rs, t) && Block(rs, s, e, first, last) && |ns| == |rs| && n <= |rs|
    requires forall k :: 0 <= k < |rs| ==> RewrittenAt(rs, ns, s, e, replacement, first, last, k)
    ensures Offset(rs, n) <= |t|
    ensures PrefixShape(t, s, e, replacement, first, last, n, Offset(rs, n), Concat(ns[..n]))
  {
    if n == 0 {
      assert t[..0] == [];
    } else {
      RewritePrefix(rs, ns, t, s, e, replacement, first, last, n - 1);
      assert RewrittenAt(rs, ns, s, e, replacement, first, last, n - 1);
      assert ns[..n][..n - 1] == ns[..n - 1];
      assert Concat(ns[..n]) == Concat(ns[..n - 1]) + ns[n - 1];
      PrefixShapeStep(rs, t, s, e, replacement, first, last, n - 1, Concat(ns[..n - 1]));
    }
  }

  /** Rewriting a block run by run replaces the span in the joined text. */
  lemma BlockSplices(rs: seq<string>, ns: seq<string>, s: nat, e: nat, replacement: string, first: nat, last: nat)
    requires s < e <= |Concat(rs)| && Block(rs, s, e, first, last) && |ns| == |rs|
    requires forall k :: 0 <= k < |rs| ==> RewrittenAt(rs, ns, s, e, replacement, first, last, k)
    ensures Concat(ns) == Concat(rs)[..s] + replacement + Concat(rs)[e..]
  {
    ConcatLayout(rs);
    RewritePrefix(rs, ns, Concat(rs), s, e, replacement, first, last, |rs|);
    assert ns[..|rs|] == ns;
  }

  /** A non-empty span inside the text overlaps at least one run. */
  lemma SpanHasRun(rs: seq<string>, s: nat, e: nat)
    requires s < e <= |Concat(rs)|
    ensures Affected(rs, s, e) != []
  {
    OffsetOfAll(rs);
    var k := RunContaining(rs, s, |rs|);
    AffectedMembers(rs, s, e, |rs|);
    assert k in Affected(rs, s, e);
  }

  /** The run among the first `n` whose interval contains position `p`. */
  lemma {:induction false} RunContaining(rs: seq<string>, p: nat, n: nat) returns (k: nat)
    requires n <= |rs| && p < Offset(rs, n)
    ensures k < n && Offset(rs, k) <= p < Offset(rs, k + 1)
  {
    if p < Offset(rs, n - 1) {
      k := RunContaining(rs, p, n - 1);
    } else {
      k := n - 1;
    }
  }

  /**
   * The splice equation: replacing the non-empty span `[s, e)` run by run leaves the paragraph
   * text equal to the old text with the span replaced.
   */
  lemma RewriteSplices(rs: seq<string>, ns: seq<string>, s: nat, e: nat, replacement: string)
    requires s < e <= |Concat(rs)| && |ns| == |rs|
    requires forall k :: 0 <= k < |rs| ==> ns[k] == NewText(rs, s, e, replacement, k)
    ensures Concat(ns) == Concat(rs)[..s] + replacement + Concat(rs)[e..]
  {
    SpanHasRun(rs, s, e);
    var a := Affected(rs, s, e);
    AffectedBounds(rs, s, e);
    BlockSplices(rs, ns, s, e, replacement, a[0], a[|a| - 1]);
  }

  /** Only the runs that overlap the span can change. */
  lemma NewTextOutside(rs: seq<string>, s: nat, e: nat, replacement: string, k: nat)
    requires s <= e <= |Concat(rs)| && k < |rs| && !Overlaps(rs, k, s, e)
    ensures NewText(rs, s, e, replacement, k) == rs[k]
  {
    var a := Affected(rs, s, e);
    if a != [] {
      AffectedBounds(rs, s, e);
      forall j | a[0] <= j <= a[|a| - 1] ensures Overlaps(rs, j, s, e) {
        BlockOverlaps(rs, s, e, a[0], a[|a| - 1], j);
      }
    }
  }

  /** With an affected block, each run's new text is the block rewrite of it. */
  lemma NewTextInBlock(rs: seq<string>, s: nat, e: nat, replacement: string, first: nat, last: nat)
    requires s <= e <= |Concat(rs)| && Affected(rs, s, e) != []
    requires first == Affected(rs, s, e)[0] && last == Affected(rs, s, e)[|Affected(rs, s, e)| - 1]
    ensures Block(rs, s, e, first, last)
    ensures forall k :: 0 <= k < |rs| ==>
      NewText(rs, s, e, replacement, k) ==
        RewrittenRun(rs, first, last, s - Offset(rs, first), e - Offset(rs, last), replacement, k)
  {
    AffectedBounds(rs, s, e);
  }

  /**
   * When the span overlaps exactly one run, that run becomes its text before the span, the
   * replacement and its text after the span, and every other run keeps its text.
   */
  lemma OneRunAffected(rs: seq<string>, s: nat, e: nat, replacement: string, k: nat)
    requires s <= e <= |Concat(rs)| && Affected(rs, s, e) == [k]
    ensures k < |rs| && Offset(rs, k) <= s && e <= Offset(rs, k + 1)
    ensures forall j :: 0 <= j < |rs| ==>
      NewText(rs, s, e, replacement, j) ==
        if j == k then rs[k][..s - Offset(rs, k)] + replacement + rs[k][e - Offset(rs, k)..] else rs[j]
  {
    AffectedBounds(rs, s, e);
  }

  /**
   * When the span overlaps several runs, the first becomes its text before the span followed by
   * the replacement, the last its text after the span, the runs between them become empty, and
   * every run the span does not overlap keeps its text.
   */
  lemma SeveralRunsAffected(rs: seq<string>, s: nat, e: nat, replacement: string, first: nat, last: nat)
    requires s <= e <= |Concat(rs)| && |Affected(rs, s, e)| >= 2
    requires first == Affected(rs, s, e)[0] && last == Affected(rs, s, e)[|Affected(rs, s, e)| - 1]
    ensures first < last < |rs|
    ensures Offset(rs, first) <= s < Offset(rs, first + 1) && Offset(rs, last) < e <= Offset(rs, last + 1)
    ensures NewText(rs, s, e, replacement, first) == rs[first][..s - Offset(rs, first)] + replacement
    ensures NewText(rs, s, e, replacement, last) == rs[last][e - Offset(rs, last)..]
    ensures forall j :: first < j < last ==> NewText(rs, s, e, replacement, j) == ""
    ensures forall j :: 0 <= j < |rs| && (j < first || last < j) ==> NewText(rs, s, e, replacement, j) == rs[j]
    ensures forall j :: 0 <= j < |rs| ==> (first <= j <= last <==> Overlaps(rs, j, s, e))
  {
    AffectedBounds(rs, s, e);
    AffectedMembers(rs, s, e, |rs|);
    forall j | 0 <= j < |rs| ensures first <= j <= last <==> Overlaps(rs, j, s, e) {
      if first <= j <= last {
        BlockOverlaps(rs, s, e, first, last, j);
      }
    }
  }

  /** When no run overlaps the span, the rewrite leaves every run as it was. */
  lemma NoneAffected(rs: seq<string>, s: nat, e: nat, replacement: string)
    requires s <= e <= |Concat(rs)| && Affected(rs, s, e) == []
    ensures forall k :: 0 <= k < |rs| ==> NewText(rs, s, e, replacement, k) == rs[k]
  {
  }

  // ---------------------------------------------------------------------------
  // The rewrite in place
  // ---------------------------------------------------------------------------

  /** One entry of `runs_info`: the run, its interval in the paragraph text, and its text. */
  datatype RunInfo = RunInfo(index: nat, start: nat, end: nat, text: string)

  /** The `runs_info` entry of run `k`. */
  function InfoOf(rs: seq<string>, k: nat): RunInfo
    requires k < |rs|
  {
    RunInfo(k, Offset(rs, k), Offset(rs, k + 1), rs[k])
  }

  /** The loop that builds `runs_info`: each run with its interval, accumulating the offset. */
  method CollectRunsInfo(runs: array<string>) returns (info: seq<RunInfo>)
    ensures |info| == runs.Length
    ensures forall q :: 0 <= q < |info| ==> info[q] == InfoOf(runs[..], q)
  {
    info := [];
    var pos := 0;
    for i := 0 to runs.Length
      invariant |info| == i && pos == Offset(runs[..], i)
      invariant forall q :: 0 <= q < i ==> info[q] == InfoOf(runs[..], q)
    {
      info := info + [RunInfo(i, pos, pos + |runs[i]|, runs[i])];
      pos := pos + |runs[i]|;
    }
  }

  /** The loop that builds `affected_runs`: the entries whose interval overlaps `[start, end)`. */
  method SelectAffected(info: seq<RunInfo>, start: nat, end: nat, ghost rs: seq<string>) returns (affected: seq<RunInfo>)
    requires |info| == |rs| && forall q :: 0 <= q < |info| ==> info[q] == InfoOf(rs, q)
    ensures |affected| == |Affected(rs, start, end)|
    ensures forall q :: 0 <= q < |affected| ==> affected[q] == InfoOf(rs, Affected(rs, start, end)[q])
  {
    affected := [];
    for i := 0 to |info|
      invariant |affected| == |AffectedUpTo(rs, start, end, i)|
      invariant forall q :: 0 <= q < |affected| ==> affected[q] == InfoOf(rs, AffectedUpTo(rs, start, end, i)[q])
    {
      if info[i].start < end && info[i].end > start {
        affected := affected + [info[i]];
      }
    }
  }

  /**
   * The writes of `_replace_text_in_paragraph` once the affected entries are known: a single
   * affected run gets the replacement spliced into it; with several, the runs strictly between
   * the first and the last are emptied, the first keeps its text before the cut followed by the
   * replacement, and the last keeps its text after the cut.
   */
  method RewriteBlock(runs: array<string>, affected: seq<RunInfo>, cutStart: nat, cutEnd: nat, replacement: string,
                      ghost first: nat, ghost last: nat)
    requires first <= last < runs.Length && |affected| == last - first + 1
    requires forall q :: 0 <= q < |affected| ==> affected[q].index == first + q
    requires affected[0].text == runs[first] && affected[|affected| - 1].text == runs[last]
    requires cutStart <= |runs[first]| && cutEnd <= |runs[last]|
    modifies runs
    ensures forall k :: 0 <= k < runs.Length ==>
      runs[k] == RewrittenRun(old(runs[..]), first, last, cutStart, cutEnd, replacement, k)
  {
    ghost var rs := runs[..];
    var head := affected[0];
    var tail := affected[|affected| - 1];
    if |affected| == 1 {
      runs[head.index] := head.text[..cutStart] + replacement + head.text[cutEnd..];
    } else {
      for i := 1 to |affected| - 1
        invariant forall k :: 0 <= k < runs.Length ==> runs[k] == if first < k < first + i then "" else rs[k]
      {
        runs[affected[i].index] := "";
      }
      runs[head.index] := head.text[..cutStart] + replacement;
      runs[tail.index] := tail.text[cutEnd..];
    }
  }

  /** A block rewrite of the affected runs is the rewrite `NewText` describes, and it splices the text. */
  lemma BlockRewriteIsNewText(rs: seq<string>, ns: seq<string>, s: nat, e: nat, replacement: string, first: nat, last: nat)
    requires s <= e <= |Concat(rs)| && Affected(rs, s, e) != []
    requires first == Affected(rs, s, e)[0] && last == Affected(rs, s, e)[|Affected(rs, s, e)| - 1]
    requires Block(rs, s, e, first, last) && |ns| == |rs|
    requires forall k :: 0 <= k < |rs| ==>
      ns[k] == RewrittenRun(rs, first, last, s - Offset(rs, first), e - Offset(rs, last), replacement, k)
    ensures forall k :: 0 <= k < |rs| ==> ns[k] == NewText(rs, s, e, replacement, k)
    ensures s < e ==> Concat(ns) == Concat(rs)[..s] + replacement + Concat(rs)[e..]
  {
    NewTextInBlock(rs, s, e, replacement, first, last);
    if s < e {
      assert forall k :: 0 <= k < |rs| ==> RewrittenAt(rs, ns, s, e, replacement, first, last, k);
      BlockSplices(rs, ns, s, e, replacement, first, last);
    }
  }

  /** The selected entries describe the block of affected runs, with the cuts inside its ends. */
  lemma SelectedBlock(rs: seq<string>, s: nat, e: nat, affected: seq<RunInfo>, first: nat, last: nat)
    requires s <= e <= |Concat(rs)| && affected != []
    requires |affected| == |Affected(rs, s, e)|
    requires forall q :: 0 <= q < |affected| ==> affected[q] == InfoOf(rs, Affected(rs, s, e)[q])
    requires first == Affected(rs, s, e)[0] && last == Affected(rs, s, e)[|affected| - 1]
    ensures Block(rs, s, e, first, last) && |affected| == last - first + 1
    ensures forall q :: 0 <= q < |affected| ==> affected[q].index == first + q
    ensures affected[0] == InfoOf(rs, first) && affected[|affected| - 1] == InfoOf(rs, last)
    ensures Offset(rs, first) <= s && s - Offset(rs, first) <= |rs[first]|
    ensures Offset(rs, last) <= e && e - Offset(rs, last) <= |rs[last]|
  {
    AffectedBounds(rs, s, e);
  }

  /**
   * `_replace_text_in_paragraph`: replaces the span `[start, end)` of the paragraph text by
   * `replacement`, run by run, keeping every run in its place.
   */
  method ReplaceTextInParagraph(runs: array<string>, start: nat, end: nat, replacement: string)
    requires start <= end <= |Concat(runs[..])|
    modifies runs
    ensures forall k :: 0 <= k < runs.Length ==> runs[k] == NewText(old(runs[..]), start, end, replacement, k)
    ensures start < end ==> Concat(runs[..]) == old(Concat(runs[..]))[..start] + replacement + old(Concat(runs[..]))[end..]
  {
    ghost var rs := runs[..];
    var info := CollectRunsInfo(runs);
    var affected := SelectAffected(info, start, end, rs);
    if start < end {
      SpanHasRun(rs, start, end);
    }
    if affected == [] {
      NoneAffected(rs, start, end, replacement);
    } else {
      RewriteSelected(runs, affected, start, end, replacement);
    }
  }

  /**
   * The rewrite once the affected runs are selected: the first keeps its text before the span
   * followed by the replacement, the last its text after the span, and those between are emptied.
   */
  method RewriteSelected(runs: array<string>, affected: seq<RunInfo>, start: nat, end: nat, replacement: string)
    requires start <= end <= |Concat(runs[..])| && affected != []
    requires |affected| == |Affected(runs[..], start, end)|
    requires forall q :: 0 <= q < |affected| ==> affected[q] == InfoOf(runs[..], Affected(runs[..], start, end)[q])
    modifies runs
    ensures forall k :: 0 <= k < runs.Length ==> runs[k] == NewText(old(runs[..]), start, end, replacement, k)
    ensures start < end ==> Concat(runs[..]) == old(Concat(runs[..]))[..start] + replacement + old(Concat(runs[..]))[end..]
  {
    ghost var rs := runs[..];
    ghost var a := Affected(rs, start, end);
    ghost var f, l := a[0], a[|a| - 1];
    SelectedBlock(rs, start, end, affected, f, l);
    var first := affected[0];
    var last := affected[|affected| - 1];
    var cutStart := start - first.start;
    var cutEnd := end - last.start;
    RewriteBlock(runs, affected, cutStart, cutEnd, replacement, f, l);
    BlockRewriteIsNewText(rs, runs[..], start, end, replacement, f, l);
  }
}

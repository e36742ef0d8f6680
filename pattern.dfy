/**
 * The placeholder pattern `\{\{(\w+)\}\}` shared by both services, and the three regular
 * expression operations they apply to it: `re.search` (is there a placeholder at all),
 * `re.finditer` / `re.findall` (all matches, left to right, not overlapping) and `re.sub`
 * (replace every match by a value computed from its name).
 *
 * `\w` is restricted to the ASCII word characters.  Because `}` is not a word character,
 * the greedy `\w+` never has to give characters back: the pattern matches at position `i`
 * exactly when `{{`, the longest non-empty run of word characters and `}}` follow each other
 * from `i`.
 */
module Pattern {
  import opened Wrappers
  import Strings

  predicate IsWordChar(c: char)
  {
    'a' <= c <= 'z' || 'A' <= c <= 'Z' || '0' <= c <= '9' || c == '_'
  }

  /** What `(\w+)` captures. */
  predicate IsName(n: string)
  {
    |n| > 0 && forall k :: 0 <= k < |n| ==> IsWordChar(n[k])
  }

  /** The placeholder text for a name, `{{name}}`. */
  function Token(name: string): string
  {
    "{{" + name + "}}"
  }

  /** The text `{{name}}` stands in `s` at position `i`. */
  predicate TokenAt(s: string, name: string, i: int)
  {
    0 <= i && i + |name| + 4 <= |s| && s[i..i + |name| + 4] == Token(name)
  }

  /** One match: the captured name and its span `[start, end)` in the searched text. */
  datatype Match = Match(name: string, start: nat, end: nat)

  /** End of the longest run of word characters starting at `i`. */
  function WordEnd(s: string, i: nat): (e: nat)
    requires i <= |s|
    ensures i <= e <= |s|
    ensures forall k :: i <= k < e ==> IsWordChar(s[k])
    ensures e == |s| || !IsWordChar(s[e])
    decreases |s| - i
  {
    if i < |s| && IsWordChar(s[i]) then WordEnd(s, i + 1) else i
  }

  /** The match of the pattern anchored at position `i`, if any. */
  function MatchAt(s: string, i: nat): (r: Option<Match>)
    requires i <= |s|
    ensures r.Some? ==>
      && r.value.start == i
      && r.value.end == i + |r.value.name| + 4 <= |s|
      && IsName(r.value.name)
  {
    if i + 2 <= |s| && s[i] == '{' && s[i + 1] == '{' then
      var e := WordEnd(s, i + 2);
      if i + 2 < e && e + 2 <= |s| && s[e] == '}' && s[e + 1] == '}' then
        Some(Match(s[i + 2..e], i, e + 2))
      else
        None
    else
      None
  }

  /** A match spells out `{{name}}` in the text, over exactly its span. */
  lemma MatchAtSpells(s: string, i: nat)
    requires i <= |s| && MatchAt(s, i).Some?
    ensures TokenAt(s, MatchAt(s, i).value.name, i)
  {
    var e := WordEnd(s, i + 2);
    assert s[i..e + 2] == s[i..i + 2] + s[i + 2..e] + s[e..e + 2];
  }

  lemma {:induction false} WordEndIs(s: string, i: nat, j: nat)
    requires i <= j <= |s|
    requires forall k :: i <= k < j ==> IsWordChar(s[k])
    requires j == |s| || !IsWordChar(s[j])
    ensures WordEnd(s, i) == j
    decreases j - i
  {
    if i < j {
      WordEndIs(s, i + 1, j);
    }
  }

  /** Wherever the text `{{name}}` stands, the pattern matches it there, with that name. */
  lemma MatchAtToken(s: string, i: nat, name: string)
    requires IsName(name)
    requires i + |name| + 4 <= |s| && s[i..i + |name| + 4] == Token(name)
    ensures MatchAt(s, i) == Some(Match(name, i, i + |name| + 4))
  {
    var t := Token(name);
    var e := i + 2 + |name|;
    forall k | 0 <= k < |t|
      ensures s[i + k] == t[k]
    {
      assert s[i..i + |name| + 4][k] == s[i + k];
    }
    assert s[i] == t[0] == '{' && s[i + 1] == t[1] == '{';
    assert s[e] == t[2 + |name|] == '}' && s[e + 1] == t[3 + |name|] == '}';
    forall k | i + 2 <= k < e
      ensures s[k] == name[k - i - 2]
    {
      assert s[k] == t[k - i];
    }
    WordEndIs(s, i + 2, e);
    assert s[i + 2..e] == name;
  }

  /** Non-empty spans inside `[lo, hi)`, in increasing order and not overlapping. */
  predicate Spans(ms: seq<Match>, lo: nat, hi: nat)
    decreases |ms|
  {
    ms == [] || (lo <= ms[0].start < ms[0].end <= hi && Spans(ms[1..], ms[0].end, hi))
  }

  /** The bounds `Spans` puts on each span, and the order between any two of them. */
  lemma {:induction false} SpansBounds(ms: seq<Match>, lo: nat, hi: nat)
    requires Spans(ms, lo, hi)
    ensures forall k :: 0 <= k < |ms| ==> lo <= ms[k].start < ms[k].end <= hi
    ensures forall k, l :: 0 <= k < l < |ms| ==> ms[k].end <= ms[l].start
    decreases |ms|
  {
    if ms != [] {
      SpansBounds(ms[1..], ms[0].end, hi);
      assert forall k :: 1 <= k < |ms| ==> ms[k] == ms[1..][k - 1];
    }
  }

  /** `re.finditer(pattern, s)` resumed at position `i`: scan left to right, resuming after each match. */
  function Scan(s: string, i: nat): (ms: seq<Match>)
    requires i <= |s|
    ensures Spans(ms, i, |s|)
    ensures forall k :: 0 <= k < |ms| ==> i <= ms[k].start < ms[k].end <= |s|
    decreases |s| - i
  {
    if i == |s| then []
    else
      match MatchAt(s, i)
      case Some(m) => [m] + Scan(s, m.end)
      case None => Scan(s, i + 1)
  }

  /** Every match the scan reports is a match of the pattern at its start position. */
  lemma {:induction false} ScanSound(s: string, i: nat, k: nat)
    requires i <= |s| && k < |Scan(s, i)|
    ensures MatchAt(s, Scan(s, i)[k].start) == Some(Scan(s, i)[k])
    decreases |s| - i
  {
    match MatchAt(s, i)
    case Some(m) =>
      if k > 0 {
        ScanSound(s, m.end, k - 1);
      }
    case None =>
      ScanSound(s, i + 1, k);
  }

  /** All matches in `s`, as `re.finditer` yields them. */
  function FindAll(s: string): seq<Match>
  {
    Scan(s, 0)
  }

  /** The names `re.findall` returns for `s`, as a set. */
  function NamesIn(s: string): set<string>
  {
    set m | m in FindAll(s) :: m.name
  }

  /** `re.search(pattern, s)` succeeds: the pattern matches at some position. */
  predicate ContainsPlaceholders(s: string)
  {
    exists i :: 0 <= i < |s| && MatchAt(s, i).Some?
  }

  /**
   * The scan misses no match: every position where the pattern matches is either the start
   * of a reported match or lies strictly inside one.
   */
  lemma {:induction false} ScanComplete(s: string, i: nat, p: nat)
    requires i <= p < |s| && MatchAt(s, p).Some?
    ensures exists k :: 0 <= k < |Scan(s, i)| && Scan(s, i)[k].start <= p < Scan(s, i)[k].end
    decreases |s| - i
  {
    var ms := Scan(s, i);
    match MatchAt(s, i)
    case Some(m) =>
      if p < m.end {
        assert ms[0] == m;
      } else {
        ScanComplete(s, m.end, p);
        var k :| 0 <= k < |Scan(s, m.end)| && Scan(s, m.end)[k].start <= p < Scan(s, m.end)[k].end;
        assert ms[k + 1] == Scan(s, m.end)[k];
      }
    case None =>
      assert i != p;
      ScanComplete(s, i + 1, p);
  }

  /** The `re.search` test agrees with the scan: a text contains a placeholder iff the scan finds one. */
  lemma ContainsIffFound(s: string)
    ensures ContainsPlaceholders(s) <==> FindAll(s) != []
  {
    if ContainsPlaceholders(s) {
      var p :| 0 <= p < |s| && MatchAt(s, p).Some?;
      ScanComplete(s, 0, p);
    }
    if FindAll(s) != [] {
      ScanSound(s, 0, 0);
    }
  }

  /** Every name `re.findall` reports stands in the text as `{{name}}`, at its match. */
  lemma FoundNamesAreTokens(s: string, name: string)
    requires name in NamesIn(s)
    ensures IsName(name)
    ensures exists i :: TokenAt(s, name, i)
  {
    var k :| 0 <= k < |FindAll(s)| && FindAll(s)[k].name == name;
    var m := FindAll(s)[k];
    ScanSound(s, 0, k);
    MatchAtSpells(s, m.start);
  }

  /**
   * Matches cannot nest: no position strictly inside a match starts another one, since after
   * the opening `{{` come word characters and then `}}`, none of them a `{`.
   */
  lemma NoNested(s: string, p: nat)
    requires p <= |s| && MatchAt(s, p).Some?
    ensures forall q :: p < q < MatchAt(s, p).value.end ==> MatchAt(s, q).None?
  {
    var e := WordEnd(s, p + 2);
    forall q | p < q < MatchAt(s, p).value.end ensures MatchAt(s, q).None? {
      if q == p + 1 {
        assert IsWordChar(s[p + 2]);
      } else if q < e {
        assert IsWordChar(s[q]);
      }
    }
  }

  /** Every match of the pattern in the text is reported by the scan, with its name and span. */
  lemma ScanFindsEvery(s: string, p: nat)
    requires p < |s| && MatchAt(s, p).Some?
    ensures MatchAt(s, p).value in FindAll(s)
  {
    ScanComplete(s, 0, p);
    var k :| 0 <= k < |Scan(s, 0)| && Scan(s, 0)[k].start <= p < Scan(s, 0)[k].end;
    var m := Scan(s, 0)[k];
    ScanSound(s, 0, k);
    NoNested(s, m.start);
    assert m.start == p;
  }

  /** Wherever `{{name}}` stands in the text, `re.findall` returns `name`. */
  lemma TokenFound(s: string, name: string, i: nat)
    requires IsName(name) && TokenAt(s, name, i)
    ensures name in NamesIn(s)
  {
    MatchAtToken(s, i, name);
    ScanFindsEvery(s, i);
  }

  /** `re.findall` returns a name exactly when the name is a word that stands in the text as `{{name}}`. */
  lemma NamesInIff(s: string, name: string)
    ensures name in NamesIn(s) <==> IsName(name) && exists i :: TokenAt(s, name, i)
  {
    if name in NamesIn(s) {
      FoundNamesAreTokens(s, name);
    }
    if IsName(name) && exists i :: TokenAt(s, name, i) {
      var i :| TokenAt(s, name, i);
      TokenFound(s, name, i);
    }
  }

  /** The matches found after the end of the `j`-th match are the matches after it. */
  lemma {:induction false} ScanAfter(s: string, i: nat, j: nat)
    requires i <= |s| && j < |Scan(s, i)|
    ensures Scan(s, Scan(s, i)[j].end) == Scan(s, i)[j + 1..]
    decreases |s| - i
  {
    var ms := Scan(s, i);
    match MatchAt(s, i)
    case Some(m) =>
      if j > 0 {
        ScanAfter(s, m.end, j - 1);
        assert ms[j] == Scan(s, m.end)[j - 1];
        assert ms[j + 1..] == Scan(s, m.end)[j..];
      }
    case None =>
      ScanAfter(s, i + 1, j);
  }

  // ---------------------------------------------------------------------------
  // re.sub
  // ---------------------------------------------------------------------------

  /** What an unresolved name is replaced by: generation re-emits `{{name}}`, the preview `{{ name }}`. */
  datatype Fallback = Verbatim | Spaced

  /** `str(user_data.get(name, fallback))`, with the mapping's values already strings. */
  function Resolve(data: map<string, string>, name: string, fallback: Fallback): string
  {
    if name in data then data[name]
    else
      match fallback
      case Verbatim => Token(name)
      case Spaced => "{{ " + name + " }}"
  }

  /**
   * Replaces the spans `ms` of `s[i..]`: the text between spans is copied, and each span is
   * replaced by the value resolved for its name.
   */
  function Splice(s: string, i: nat, ms: seq<Match>, data: map<string, string>, fallback: Fallback): string
    requires i <= |s| && Spans(ms, i, |s|)
    decreases |ms|
  {
    if ms == [] then s[i..]
    else s[i..ms[0].start] + (Resolve(data, ms[0].name, fallback) + Splice(s, ms[0].end, ms[1..], data, fallback))
  }

  /** `re.sub` from position `i` on: every match the left-to-right scan reports is replaced. */
  function SubstituteFrom(s: string, i: nat, data: map<string, string>, fallback: Fallback): string
    requires i <= |s|
  {
    Splice(s, i, Scan(s, i), data, fallback)
  }

  /** `re.sub(pattern, replace, s)`. */
  function Substitute(s: string, data: map<string, string>, fallback: Fallback): string
  {
    SubstituteFrom(s, 0, data, fallback)
  }

  /** Splicing from a position in the gap before the first span copies the rest of the gap first. */
  lemma {:induction false} SpliceGap(s: string, a: nat, b: nat, ms: seq<Match>, data: map<string, string>, fallback: Fallback)
    requires a <= b <= |s| && Spans(ms, b, |s|)
    ensures Spans(ms, a, |s|)
    ensures Splice(s, a, ms, data, fallback) == s[a..b] + Splice(s, b, ms, data, fallback)
  {
    if ms == [] {
      Strings.SliceSplit(s, a, b, |s|);
    } else {
      var p := ms[0].start;
      Strings.SliceSplit(s, a, b, p);
      Strings.AppendAssoc(s[a..b], s[b..p], Resolve(data, ms[0].name, fallback) + Splice(s, ms[0].end, ms[1..], data, fallback));
    }
  }

  /** Splicing from the start of the first span: its value, then the splice after it. */
  lemma {:induction false} SpliceAtSpan(s: string, ms: seq<Match>, data: map<string, string>, fallback: Fallback)
    requires ms != [] && Spans(ms, ms[0].start, |s|)
    ensures Spans(ms[1..], ms[0].end, |s|)
    ensures Splice(s, ms[0].start, ms, data, fallback) ==
      Resolve(data, ms[0].name, fallback) + Splice(s, ms[0].end, ms[1..], data, fallback)
  {
    var p := ms[0].start;
    assert s[p..p] == [];
  }

  /** Every span spells `{{name}}` over exactly that span. */
  predicate Spelled(s: string, ms: seq<Match>)
    decreases |ms|
  {
    ms == [] ||
      (&& ms[0].end == ms[0].start + |ms[0].name| + 4
       && TokenAt(s, ms[0].name, ms[0].start)
       && Spelled(s, ms[1..]))
  }

  /** Every match the scan reports spells its placeholder. */
  lemma {:induction false} ScanSpelled(s: string, i: nat)
    requires i <= |s|
    ensures Spelled(s, Scan(s, i))
    decreases |s| - i
  {
    if i < |s| {
      match MatchAt(s, i)
      case Some(m) =>
        MatchAtSpells(s, i);
        ScanSpelled(s, m.end);
        assert Scan(s, i)[1..] == Scan(s, m.end);
      case None =>
        ScanSpelled(s, i + 1);
    }
  }

  /** Splicing spans that each spell their own unresolved placeholder gives the text back. */
  lemma {:induction false} SpliceUnresolved(s: string, i: nat, ms: seq<Match>, data: map<string, string>)
    requires i <= |s| && Spans(ms, i, |s|) && Spelled(s, ms)
    requires forall m :: m in ms ==> m.name !in data
    ensures Splice(s, i, ms, data, Verbatim) == s[i..]
    decreases |ms|
  {
    if ms != [] {
      var m := ms[0];
      assert m in ms;
      SpliceUnresolved(s, m.end, ms[1..], data);
      SpliceKeepsHead(s, i, ms, data);
    }
  }

  /** A first span that holds its own unresolved placeholder is copied through. */
  lemma SpliceKeepsHead(s: string, i: nat, ms: seq<Match>, data: map<string, string>)
    requires i <= |s| && Spans(ms, i, |s|) && ms != []
    requires ms[0].end == ms[0].start + |ms[0].name| + 4 && TokenAt(s, ms[0].name, ms[0].start)
    requires ms[0].name !in data
    requires Splice(s, ms[0].end, ms[1..], data, Verbatim) == s[ms[0].end..]
    ensures Splice(s, i, ms, data, Verbatim) == s[i..]
  {
    var m := ms[0];
    calc {
      Splice(s, i, ms, data, Verbatim);
      s[i..m.start] + (s[m.start..m.end] + s[m.end..]);
      { Strings.SuffixSplit(s, m.start, m.end); }
      s[i..m.start] + s[m.start..];
      { Strings.SuffixSplit(s, i, m.start); }
      s[i..];
    }
  }

  /** With no resolvable name among the matches, generation leaves the text exactly as it was. */
  lemma UnresolvedIsIdentity(s: string, data: map<string, string>)
    requires forall m :: m in FindAll(s) ==> m.name !in data
    ensures Substitute(s, data, Verbatim) == s
  {
    ScanSpelled(s, 0);
    SpliceUnresolved(s, 0, FindAll(s), data);
  }

  /** An empty mapping makes generation the identity on text. */
  lemma EmptyMappingIsIdentity(s: string)
    ensures Substitute(s, map[], Verbatim) == s
  {
    UnresolvedIsIdentity(s, map[]);
  }

  /** Where every spliced name is resolved, the fallback plays no part. */
  lemma {:induction false} SpliceResolved(s: string, i: nat, ms: seq<Match>, data: map<string, string>)
    requires i <= |s| && Spans(ms, i, |s|)
    requires forall k :: 0 <= k < |ms| ==> ms[k].name in data
    ensures Splice(s, i, ms, data, Spaced) == Splice(s, i, ms, data, Verbatim)
    decreases |ms|
  {
    if ms != [] {
      SpliceResolved(s, ms[0].end, ms[1..], data);
    }
  }

  /** When every matched name is in the mapping, the preview's text and the generated text agree. */
  lemma PreviewAgreesWhenResolved(s: string, data: map<string, string>)
    requires forall m :: m in FindAll(s) ==> m.name in data
    ensures Substitute(s, data, Spaced) == Substitute(s, data, Verbatim)
  {
    SpliceResolved(s, 0, FindAll(s), data);
  }

  /** A lone placeholder whose name is missing: generation keeps `{{name}}`, the preview shows `{{ name }}`. */
  lemma MissingNameFallbacks(name: string, data: map<string, string>)
    requires IsName(name) && name !in data
    ensures Substitute(Token(name), data, Verbatim) == Token(name)
    ensures Substitute(Token(name), data, Spaced) == "{{ " + name + " }}"
  {
    var s := Token(name);
    assert |s| == |name| + 4;
    assert s[0..|name| + 4] == s;
    MatchAtToken(s, 0, name);
    var ms := Scan(s, 0);
    assert ms == [Match(name, 0, |s|)] + Scan(s, |s|);
    assert ms == [Match(name, 0, |s|)];
    assert s[0..0] == [] && s[|s|..] == [];
    assert Splice(s, |s|, [], data, Verbatim) == [];
    assert Splice(s, |s|, [], data, Spaced) == [];
  }
}

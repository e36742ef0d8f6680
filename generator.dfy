/**
 * `DocumentGenerator`: fills in a template by replacing every `{{name}}` with the value the
 * user gave for `name`, run by run, so that every run keeps its styling.  Each paragraph's
 * matches are replaced from the right so that the spans of those to their left stay valid;
 * the paragraph text then ends up as `re.sub` would have made it.
 */
module Generator {
  import opened Wrappers
  import Strings
  import Runs
  import Pattern
  import Docx

  type Paragraph = Docx.Paragraph

  /**
   * The paragraph, whose runs held `template`, now holds the template text with every match
   * substituted; a template text in which the pattern finds nothing leaves every run as it was
   * (`Pattern.ContainsIffFound`: that is exactly when `re.search` fails on it).
   */
  predicate Filled(p: Paragraph, template: seq<string>, data: map<string, string>)
    reads p
  {
    && Docx.Text(p) == Pattern.Substitute(Runs.Concat(template), data, Pattern.Verbatim)
    && (Pattern.FindAll(Runs.Concat(template)) == [] ==> p[..] == template)
  }

  // ---------------------------------------------------------------------------
  // One paragraph
  // ---------------------------------------------------------------------------

  /** Where the not-yet-replaced tail begins once the matches from `j` on are replaced. */
  function Edge(ms: seq<Pattern.Match>, j: nat): nat
    requires j <= |ms|
  {
    if j == 0 then 0 else ms[j - 1].end
  }

  /** The paragraph text once the matches from `j` on are replaced and the others not yet. */
  function PartlyFilled(t: string, ms: seq<Pattern.Match>, j: nat, data: map<string, string>): (r: string)
    requires j <= |ms| && Pattern.Spans(ms, 0, |t|)
    ensures j == 0 ==> r == Pattern.Splice(t, 0, ms, data, Pattern.Verbatim)
  {
    SpansFrom(ms, |t|, j);
    var e := Edge(ms, j);
    t[..e] + Pattern.Splice(t, e, ms[j..], data, Pattern.Verbatim)
  }

  /** The matches from `j` on lie beyond the end of match `j - 1`. */
  lemma {:induction false} SpansAfter(ms: seq<Pattern.Match>, lo: nat, hi: nat, j: nat)
    requires 0 < j <= |ms| && Pattern.Spans(ms, lo, hi)
    ensures ms[j - 1].end <= hi && Pattern.Spans(ms[j..], ms[j - 1].end, hi)
    decreases j
  {
    if j > 1 {
      SpansAfter(ms[1..], ms[0].end, hi, j - 1);
      assert ms[1..][j - 1..] == ms[j..];
    }
  }

  /** The matches from `j` on lie beyond the edge of the replaced part. */
  lemma SpansFrom(ms: seq<Pattern.Match>, hi: nat, j: nat)
    requires j <= |ms| && Pattern.Spans(ms, 0, hi)
    ensures Edge(ms, j) <= hi && Pattern.Spans(ms[j..], Edge(ms, j), hi)
  {
    if j == 0 {
      assert ms[0..] == ms;
    } else {
      SpansAfter(ms, 0, hi, j);
    }
  }

  /** With no match replaced yet, the paragraph still holds the template text. */
  lemma NothingFilled(t: string, ms: seq<Pattern.Match>, data: map<string, string>)
    requires ms != [] && Pattern.Spans(ms, 0, |t|)
    ensures PartlyFilled(t, ms, |ms|, data) == t
  {
    SpansFrom(ms, |t|, |ms|);
    var e := Edge(ms, |ms|);
    Strings.SliceSplit(t, 0, e, |t|);
  }

  /**
   * Replacing the span of match `j - 1` in the partly filled text by its value fills one
   * more match: the text left of the span is still the template's.
   */
  lemma FillOneMore(t: string, ms: seq<Pattern.Match>, j: nat, data: map<string, string>, c: string)
    requires 0 < j <= |ms| && Pattern.Spans(ms, 0, |t|)
    requires c == PartlyFilled(t, ms, j, data)
    ensures ms[j - 1].start < ms[j - 1].end <= |c|
    ensures c[..ms[j - 1].start] + Pattern.Resolve(data, ms[j - 1].name, Pattern.Verbatim) + c[ms[j - 1].end..]
      == PartlyFilled(t, ms, j - 1, data)
  {
    var m := ms[j - 1];
    SpansFrom(ms, |t|, j);
    SpansFrom(ms, |t|, j - 1);
    var tail := Pattern.Splice(t, m.end, ms[j..], data, Pattern.Verbatim);
    Strings.JoinSlices(t[..m.end], tail, m.start);
    assert t[..m.end][..m.start] == t[..m.start];
    FillJoin(t, ms, j, data);
  }

  /** The partly filled text with one more match filled, written out around that match. */
  lemma FillJoin(t: string, ms: seq<Pattern.Match>, j: nat, data: map<string, string>)
    requires 0 < j <= |ms| && Pattern.Spans(ms, 0, |t|)
    ensures ms[j - 1].start < ms[j - 1].end == Edge(ms, j) <= |t| && Pattern.Spans(ms[j..], ms[j - 1].end, |t|)
    ensures t[..ms[j - 1].start] + Pattern.Resolve(data, ms[j - 1].name, Pattern.Verbatim)
        + Pattern.Splice(t, ms[j - 1].end, ms[j..], data, Pattern.Verbatim)
      == PartlyFilled(t, ms, j - 1, data)
  {
    var m := ms[j - 1];
    var v := Pattern.Resolve(data, m.name, Pattern.Verbatim);
    SpansFrom(ms, |t|, j);
    SpansFrom(ms, |t|, j - 1);
    var e0 := Edge(ms, j - 1);
    var tail := Pattern.Splice(t, m.end, ms[j..], data, Pattern.Verbatim);
    SpliceFromEdge(t, ms, j, data);
    assert PartlyFilled(t, ms, j - 1, data) == t[..e0] + (t[e0..m.start] + (v + tail));
    Strings.SliceSplit(t, 0, e0, m.start);
    Strings.AppendAssoc(t[..e0], t[e0..m.start], v + tail);
    Strings.AppendAssoc(t[..m.start], v, tail);
  }

  /** From the edge, the splice copies the gap up to match `j - 1`, then its value, then the rest. */
  lemma SpliceFromEdge(t: string, ms: seq<Pattern.Match>, j: nat, data: map<string, string>)
    requires 0 < j <= |ms| && Pattern.Spans(ms, 0, |t|)
    ensures Edge(ms, j - 1) <= ms[j - 1].start < ms[j - 1].end <= |t|
    ensures Pattern.Spans(ms[j - 1..], Edge(ms, j - 1), |t|) && Pattern.Spans(ms[j..], ms[j - 1].end, |t|)
    ensures Pattern.Splice(t, Edge(ms, j - 1), ms[j - 1..], data, Pattern.Verbatim)
      == t[Edge(ms, j - 1)..ms[j - 1].start]
        + (Pattern.Resolve(data, ms[j - 1].name, Pattern.Verbatim) + Pattern.Splice(t, ms[j - 1].end, ms[j..], data, Pattern.Verbatim))
  {
    var m := ms[j - 1];
    SpansFrom(ms, |t|, j - 1);
    var e0 := Edge(ms, j - 1);
    var rest := ms[j - 1..];
    assert rest[1..] == ms[j..];
    Pattern.SpliceGap(t, e0, m.start, rest, data, Pattern.Verbatim);
    Pattern.SpliceAtSpan(t, rest, data, Pattern.Verbatim);
  }

  /**
   * `_process_paragraphs` for one paragraph: skip it when it holds no placeholder; otherwise
   * replace its matches from the last to the first, each by its value or, for a name the data
   * lacks, by the placeholder itself.
   */
  method ProcessParagraph(p: Paragraph, data: map<string, string>)
    modifies p
    ensures Filled(p, old(p[..]), data)
  {
    var text := Runs.Concat(p[..]);
    if !Pattern.ContainsPlaceholders(text) {
      Pattern.ContainsIffFound(text);
      return;
    }
    var ms := Pattern.FindAll(text);
    if ms == [] {
      return;
    }
    ReplaceFromRight(p, text, ms, data);
  }

  /** `for match in reversed(placeholders)`: the matches replaced from the last to the first. */
  method ReplaceFromRight(p: Paragraph, text: string, ms: seq<Pattern.Match>, data: map<string, string>)
    requires ms != [] && Pattern.Spans(ms, 0, |text|)
    requires Runs.Concat(p[..]) == text
    modifies p
    ensures Runs.Concat(p[..]) == Pattern.Splice(text, 0, ms, data, Pattern.Verbatim)
  {
    NothingFilled(text, ms, data);
    var j := |ms|;
    while j > 0
      invariant 0 <= j <= |ms|
      invariant Runs.Concat(p[..]) == PartlyFilled(text, ms, j, data)
    {
      ReplaceMatch(p, text, ms, j, data);
      j := j - 1;
    }
  }

  /**
   * The body of the loop over the reversed matches: the value for match `j - 1` (or the
   * placeholder itself when the data lacks its name) replaces the match's span.
   */
  method ReplaceMatch(p: Paragraph, text: string, ms: seq<Pattern.Match>, j: nat, data: map<string, string>)
    requires 0 < j <= |ms| && Pattern.Spans(ms, 0, |text|)
    requires Runs.Concat(p[..]) == PartlyFilled(text, ms, j, data)
    modifies p
    ensures Runs.Concat(p[..]) == PartlyFilled(text, ms, j - 1, data)
  {
    var m := ms[j - 1];
    var value := Pattern.Resolve(data, m.name, Pattern.Verbatim);
    FillOneMore(text, ms, j, data, Runs.Concat(p[..]));
    Runs.ReplaceTextInParagraph(p, m.start, m.end, value);
  }

  // ---------------------------------------------------------------------------
  // The walks over the document
  // ---------------------------------------------------------------------------

  /** `_process_paragraphs`: every listed paragraph is filled in. */
  method ProcessParagraphs(ps: seq<Paragraph>, data: map<string, string>)
    requires Docx.Distinct(ps)
    modifies set p | p in ps
    ensures forall p :: p in ps ==> Filled(p, old(p[..]), data)
  {
    for i := 0 to |ps|
      invariant forall k :: 0 <= k < i ==> Filled(ps[k], old(ps[k][..]), data)
      invariant forall k :: i <= k < |ps| ==> ps[k][..] == old(ps[k][..])
    {
      label Before:
      ProcessParagraph(ps[i], data);
      forall k | 0 <= k < |ps| && k != i
        ensures ps[k][..] == old@Before(ps[k][..])
      {
        assert ps[k] != ps[i];
      }
    }
  }

  /** The innermost loop of `_process_tables`: every paragraph of every cell of a row. */
  method ProcessCells(cs: seq<Docx.Cell>, data: map<string, string>)
    requires Docx.Distinct(Docx.CellsParagraphs(cs))
    modifies set p | p in Docx.CellsParagraphs(cs)
    ensures forall p :: p in Docx.CellsParagraphs(cs) ==> Filled(p, old(p[..]), data)
  {
    ghost var all := Docx.CellsParagraphs(cs);
    assert old(allocated(all));
    assert forall p :: p in all ==> old(allocated(p));
    for i := 0 to |cs|
      invariant forall p :: p in Docx.CellsParagraphs(cs[..i]) ==> p in all && Filled(p, old(p[..]), data)
      invariant forall p :: p in all && p !in Docx.CellsParagraphs(cs[..i]) ==> p[..] == old(p[..])
    {
      Docx.CellsStep(cs, i);
      Docx.NextBatch(all, Docx.CellsParagraphs(cs[..i]), cs[i].paragraphs);
      ProcessParagraphs(cs[i].paragraphs, data);
    }
    assert cs[..|cs|] == cs;
  }

  /** The middle loop of `_process_tables`: every cell of every row of a table. */
  method ProcessRows(rs: seq<Docx.Row>, data: map<string, string>)
    requires Docx.Distinct(Docx.RowsParagraphs(rs))
    modifies set p | p in Docx.RowsParagraphs(rs)
    ensures forall p :: p in Docx.RowsParagraphs(rs) ==> Filled(p, old(p[..]), data)
  {
    ghost var all := Docx.RowsParagraphs(rs);
    assert old(allocated(all));
    assert forall p :: p in all ==> old(allocated(p));
    for i := 0 to |rs|
      invariant forall p :: p in Docx.RowsParagraphs(rs[..i]) ==> p in all && Filled(p, old(p[..]), data)
      invariant forall p :: p in all && p !in Docx.RowsParagraphs(rs[..i]) ==> p[..] == old(p[..])
    {
      Docx.RowsStep(rs, i);
      Docx.NextBatch(all, Docx.RowsParagraphs(rs[..i]), Docx.CellsParagraphs(rs[i].cells));
      ProcessCells(rs[i].cells, data);
    }
    assert rs[..|rs|] == rs;
  }

  /** `_process_tables`: every paragraph of every cell of every row of every table is filled in. */
  method ProcessTables(ts: seq<Docx.Table>, data: map<string, string>)
    requires Docx.Distinct(Docx.TablesParagraphs(ts))
    modifies set p | p in Docx.TablesParagraphs(ts)
    ensures forall p :: p in Docx.TablesParagraphs(ts) ==> Filled(p, old(p[..]), data)
  {
    ghost var all := Docx.TablesParagraphs(ts);
    assert old(allocated(all));
    assert forall p :: p in all ==> old(allocated(p));
    for i := 0 to |ts|
      invariant forall p :: p in Docx.TablesParagraphs(ts[..i]) ==> p in all && Filled(p, old(p[..]), data)
      invariant forall p :: p in all && p !in Docx.TablesParagraphs(ts[..i]) ==> p[..] == old(p[..])
    {
      Docx.TablesStep(ts, i);
      Docx.NextBatch(all, Docx.TablesParagraphs(ts[..i]), Docx.RowsParagraphs(ts[i].rows));
      ProcessRows(ts[i].rows, data);
    }
    assert ts[..|ts|] == ts;
  }

  /**
   * A header or a footer: its paragraphs, then its tables.  The source passes each table to
   * `_process_tables` on its own; one call on the whole list visits the same paragraphs in the
   * same order.
   */
  method ProcessPart(part: Docx.Part, data: map<string, string>)
    requires Docx.Distinct(Docx.PartParagraphs(part))
    modifies set p | p in Docx.PartParagraphs(part)
    ensures forall p :: p in Docx.PartParagraphs(part) ==> Filled(p, old(p[..]), data)
  {
    ghost var all := Docx.PartParagraphs(part);
    assert old(allocated(all));
    assert forall p :: p in all ==> old(allocated(p));
    ghost var tables := Docx.TablesParagraphs(part.tables);
    Docx.NextBatch(all, [], part.paragraphs);
    Docx.NextBatch(all, part.paragraphs, tables);
    ProcessParagraphs(part.paragraphs, data);
    assert forall p :: p in tables ==> p[..] == old(p[..]);
    ProcessTables(part.tables, data);
    assert forall p :: p in part.paragraphs ==> Filled(p, old(p[..]), data);
  }

  /** `_process_headers_footers`: the header and then the footer of every section. */
  method ProcessHeadersFooters(ss: seq<Docx.Section>, data: map<string, string>)
    requires Docx.Distinct(Docx.SectionsParagraphs(ss))
    modifies set p | p in Docx.SectionsParagraphs(ss)
    ensures forall p :: p in Docx.SectionsParagraphs(ss) ==> Filled(p, old(p[..]), data)
  {
    ghost var all := Docx.SectionsParagraphs(ss);
    assert old(allocated(all));
    assert forall p :: p in all ==> old(allocated(p));
    ghost var done: seq<Paragraph> := [];
    for si := 0 to |ss|
      invariant done == Docx.SectionsParagraphs(ss[..si])
      invariant forall p :: p in done ==> p in all && Filled(p, old(p[..]), data)
      invariant forall p :: p in all && p !in done ==> p[..] == old(p[..])
    {
      var section := ss[si];
      Docx.PartStep(ss, si);
      Docx.NextBatch(all, done, Docx.PartParagraphs(section.header));
      ProcessPart(section.header, data);
      done := done + Docx.PartParagraphs(section.header);
      Docx.NextBatch(all, done, Docx.PartParagraphs(section.footer));
      ProcessPart(section.footer, data);
      done := done + Docx.PartParagraphs(section.footer);
    }
    assert ss[..|ss|] == ss;
  }

  /**
   * `generate_document`: the body paragraphs, the top-level tables, then the headers and
   * footers; every paragraph of the walk ends up filled in.
   */
  method GenerateDocument(doc: Docx.Document, data: map<string, string>)
    requires Docx.Distinct(Docx.GeneratedParagraphs(doc))
    modifies set p | p in Docx.GeneratedParagraphs(doc)
    ensures forall p :: p in Docx.GeneratedParagraphs(doc) ==> Filled(p, old(p[..]), data)
  {
    ghost var all := Docx.GeneratedParagraphs(doc);
    assert old(allocated(all));
    assert forall p :: p in all ==> old(allocated(p));
    ghost var body, tables, sections := doc.paragraphs, Docx.TablesParagraphs(doc.tables), Docx.SectionsParagraphs(doc.sections);
    Docx.NextBatch(all, [], body);
    Docx.NextBatch(all, body, tables);
    Docx.NextBatch(all, body + tables, sections);
    ProcessParagraphs(doc.paragraphs, data);
    assert forall p :: p in tables + sections ==> p[..] == old(p[..]);
    ProcessTables(doc.tables, data);
    assert forall p :: p in body ==> Filled(p, old(p[..]), data);
    assert forall p :: p in sections ==> p[..] == old(p[..]);
    ProcessHeadersFooters(doc.sections, data);
    assert forall p :: p in body + tables ==> Filled(p, old(p[..]), data);
  }
}

/**
 * The two read-only helpers `DocumentGenerator` offers for debugging a template: the list of
 * placeholders it uses, and a preview of what filling it in would do to each paragraph of the
 * body and of the top-level tables.
 */
module Inspection {
  import opened Wrappers
  import Strings
  import Pattern
  import Docx
  import Parser

  type Paragraph = Docx.Paragraph

  // ---------------------------------------------------------------------------
  // `get_template_placeholders`
  // ---------------------------------------------------------------------------

  /**
   * `get_template_placeholders`: the scan `_extract_placeholders` makes (body paragraphs,
   * top-level table cells, header and footer paragraphs), sorted; `[]` when loading fails.
   */
  method GetTemplatePlaceholders(loaded: Result<Docx.Document, string>) returns (r: seq<string>)
    ensures loaded.Failure? ==> r == []
    ensures loaded.Success? ==>
      && Strings.StrictlySorted(r)
      && forall x :: x in r <==> x in Parser.NamesOf(Docx.ScannedParagraphs(loaded.value))
  {
    match loaded
    case Failure(_) =>
      r := [];
    case Success(doc) =>
      r := Parser.ExtractPlaceholders(doc);
  }

  /** Both services list a template's placeholders alike: one sorted list per set of names. */
  lemma PlaceholderListsAgree(doc: Docx.Document, a: seq<string>, b: seq<string>)
    requires Strings.StrictlySorted(a) && Strings.StrictlySorted(b)
    requires forall x :: x in a <==> x in Parser.NamesOf(Docx.ScannedParagraphs(doc))
    requires forall x :: x in b <==> x in Parser.NamesOf(Docx.ScannedParagraphs(doc))
    ensures a == b
  {
    Strings.SortedUnique(a, b);
  }

  // ---------------------------------------------------------------------------
  // `preview_replacements`
  // ---------------------------------------------------------------------------

  /** Where a previewed paragraph is: a body paragraph, or a paragraph of a top-level table cell. */
  datatype Location =
    | Body(index: nat)
    | TableCell(table: nat, row: nat, cell: nat, paragraph: nat)

  /** One line of the preview: a paragraph's text and what filling it in would make of it. */
  datatype Replacement = Replacement(location: Location, original: string, replaced: string)

  /** What `preview_replacements` returns: `error` is set exactly on failure. */
  datatype PreviewResult = PreviewResult(
    success: bool,
    error: Option<string>,
    replacements: seq<Replacement>,
    total: nat)

  /** The paragraph a location designates, if the document has one there. */
  function Locate(doc: Docx.Document, loc: Location): Option<Paragraph>
  {
    match loc
    case Body(i) =>
      if i < |doc.paragraphs| then Some(doc.paragraphs[i]) else None
    case TableCell(t, r, c, q) =>
      if && t < |doc.tables|
         && r < |doc.tables[t].rows|
         && c < |doc.tables[t].rows[r].cells|
         && q < |doc.tables[t].rows[r].cells[c].paragraphs|
      then Some(doc.tables[t].rows[r].cells[c].paragraphs[q])
      else None
  }

  /**
   * The preview line for a paragraph text: one when the pattern finds a placeholder in it (the
   * scan finds a match exactly when `re.search` does, `Pattern.ContainsIffFound`).
   */
  function Entry(loc: Location, text: string, data: map<string, string>): seq<Replacement>
  {
    if Pattern.FindAll(text) != [] then [Replacement(loc, text, Pattern.Substitute(text, data, Pattern.Spaced))]
    else []
  }

  /** How a paragraph's text, at a location, becomes lines of a listing. */
  type LineMaker = (Location, string) -> seq<Replacement>

  /** The preview's lines: `Entry` with the mapping the preview is for. */
  function PreviewLine(data: map<string, string>): LineMaker
  {
    (loc, text) => Entry(loc, text, data)
  }

  /** The lines for the listed paragraphs, at the listed locations, in order. */
  function Lines(ps: seq<Paragraph>, locs: seq<Location>, line: LineMaker): seq<Replacement>
    requires |ps| == |locs|
    reads set p | p in ps
  {
    if ps == [] then []
    else Lines(ps[..|ps| - 1], locs[..|locs| - 1], line) + line(locs[|locs| - 1], Docx.Text(ps[|ps| - 1]))
  }

  /** The preview lines for the listed paragraphs, at the listed locations, in order. */
  function Previews(ps: seq<Paragraph>, locs: seq<Location>, data: map<string, string>): seq<Replacement>
    requires |ps| == |locs|
    reads set p | p in ps
  {
    Lines(ps, locs, PreviewLine(data))
  }

  /** The locations `enumerate` gives the body paragraphs. */
  function BodyLocations(n: nat): (locs: seq<Location>)
    ensures |locs| == n
  {
    seq(n, i requires 0 <= i => Body(i))
  }

  /** The locations `enumerate` gives the paragraphs of cell `c` of row `r` of table `t`. */
  function ParagraphLocations(t: nat, r: nat, c: nat, n: nat): seq<Location>
  {
    seq(n, q requires 0 <= q => TableCell(t, r, c, q))
  }

  /** The locations of the paragraphs of the cells of row `r` of table `t`, in walk order. */
  function CellLocations(t: nat, r: nat, cs: seq<Docx.Cell>): (locs: seq<Location>)
    ensures |locs| == |Docx.CellsParagraphs(cs)|
  {
    if cs == [] then []
    else CellLocations(t, r, cs[..|cs| - 1]) + ParagraphLocations(t, r, |cs| - 1, |cs[|cs| - 1].paragraphs|)
  }

  /** The locations of the paragraphs of the rows of table `t`, in walk order. */
  function RowLocations(t: nat, rs: seq<Docx.Row>): (locs: seq<Location>)
    ensures |locs| == |Docx.RowsParagraphs(rs)|
  {
    if rs == [] then [] else RowLocations(t, rs[..|rs| - 1]) + CellLocations(t, |rs| - 1, rs[|rs| - 1].cells)
  }

  /** The locations of the paragraphs of the top-level tables, in walk order. */
  function TableLocations(ts: seq<Docx.Table>): (locs: seq<Location>)
    ensures |locs| == |Docx.TablesParagraphs(ts)|
  {
    if ts == [] then [] else TableLocations(ts[..|ts| - 1]) + RowLocations(|ts| - 1, ts[|ts| - 1].rows)
  }

  /** The paragraphs `preview_replacements` looks at: the body's, then the top-level tables' cells'. */
  function PreviewedParagraphs(doc: Docx.Document): seq<Paragraph>
  {
    doc.paragraphs + Docx.TablesParagraphs(doc.tables)
  }

  function PreviewedLocations(doc: Docx.Document): (locs: seq<Location>)
    ensures |locs| == |PreviewedParagraphs(doc)|
  {
    BodyLocations(|doc.paragraphs|) + TableLocations(doc.tables)
  }

  /** The preview lines of a document, in the order `preview_replacements` appends them. */
  function PreviewOf(doc: Docx.Document, data: map<string, string>): seq<Replacement>
    reads set p | p in PreviewedParagraphs(doc)
  {
    Previews(PreviewedParagraphs(doc), PreviewedLocations(doc), data)
  }

  // ---------------------------------------------------------------------------
  // The locations designate the walk's paragraphs
  // ---------------------------------------------------------------------------

  /** The `i`-th location of a row's cells names the `i`-th paragraph of the walk. */
  lemma {:induction false} CellLocationAt(t: nat, r: nat, cs: seq<Docx.Cell>, i: nat)
    requires i < |Docx.CellsParagraphs(cs)|
    ensures var loc := CellLocations(t, r, cs)[i];
      && loc.TableCell? && loc.table == t && loc.row == r
      && loc.cell < |cs| && loc.paragraph < |cs[loc.cell].paragraphs|
      && cs[loc.cell].paragraphs[loc.paragraph] == Docx.CellsParagraphs(cs)[i]
  {
    var init := cs[..|cs| - 1];
    var n := |Docx.CellsParagraphs(init)|;
    if i < n {
      CellLocationAt(t, r, init, i);
    }
  }

  /** The `i`-th location of a table's rows names the `i`-th paragraph of the walk. */
  lemma {:induction false} RowLocationAt(t: nat, rs: seq<Docx.Row>, i: nat)
    requires i < |Docx.RowsParagraphs(rs)|
    ensures var loc := RowLocations(t, rs)[i];
      && loc.TableCell? && loc.table == t
      && loc.row < |rs| && loc.cell < |rs[loc.row].cells|
      && loc.paragraph < |rs[loc.row].cells[loc.cell].paragraphs|
      && rs[loc.row].cells[loc.cell].paragraphs[loc.paragraph] == Docx.RowsParagraphs(rs)[i]
  {
    var init := rs[..|rs| - 1];
    var n := |Docx.RowsParagraphs(init)|;
    if i < n {
      RowLocationAt(t, init, i);
    } else {
      CellLocationAt(t, |rs| - 1, rs[|rs| - 1].cells, i - n);
    }
  }

  /** The `i`-th location of the tables names the `i`-th paragraph of the walk. */
  lemma {:induction false} TableLocationAt(ts: seq<Docx.Table>, i: nat)
    requires i < |Docx.TablesParagraphs(ts)|
    ensures var loc := TableLocations(ts)[i];
      && loc.TableCell? && loc.table < |ts| && loc.row < |ts[loc.table].rows|
      && loc.cell < |ts[loc.table].rows[loc.row].cells|
      && loc.paragraph < |ts[loc.table].rows[loc.row].cells[loc.cell].paragraphs|
      && ts[loc.table].rows[loc.row].cells[loc.cell].paragraphs[loc.paragraph] == Docx.TablesParagraphs(ts)[i]
  {
    var init := ts[..|ts| - 1];
    var n := |Docx.TablesParagraphs(init)|;
    if i < n {
      TableLocationAt(init, i);
    } else {
      RowLocationAt(|ts| - 1, ts[|ts| - 1].rows, i - n);
    }
  }

  /** Every location the preview uses designates the paragraph at that point of the walk. */
  lemma LocationAt(doc: Docx.Document, i: nat)
    requires i < |PreviewedParagraphs(doc)|
    ensures Locate(doc, PreviewedLocations(doc)[i]) == Some(PreviewedParagraphs(doc)[i])
  {
    var n := |doc.paragraphs|;
    if n <= i {
      TableLocationAt(doc.tables, i - n);
    }
  }

  /** Each paragraph of a row's cells has its location at some point of the walk. */
  lemma {:induction false} CellLocationOf(t: nat, r: nat, cs: seq<Docx.Cell>, c: nat, q: nat) returns (i: nat)
    requires c < |cs| && q < |cs[c].paragraphs|
    ensures i < |Docx.CellsParagraphs(cs)|
    ensures CellLocations(t, r, cs)[i] == TableCell(t, r, c, q)
  {
    var init := cs[..|cs| - 1];
    var n := |Docx.CellsParagraphs(init)|;
    if c < |cs| - 1 {
      assert init[c] == cs[c];
      i := CellLocationOf(t, r, init, c, q);
    } else {
      i := n + q;
    }
  }

  /** Each paragraph of a table's cells has its location at some point of the walk. */
  lemma {:induction false} RowLocationOf(t: nat, rs: seq<Docx.Row>, r: nat, c: nat, q: nat) returns (i: nat)
    requires r < |rs| && c < |rs[r].cells| && q < |rs[r].cells[c].paragraphs|
    ensures i < |Docx.RowsParagraphs(rs)|
    ensures RowLocations(t, rs)[i] == TableCell(t, r, c, q)
  {
    var init := rs[..|rs| - 1];
    var n := |Docx.RowsParagraphs(init)|;
    if r < |rs| - 1 {
      assert init[r] == rs[r];
      i := RowLocationOf(t, init, r, c, q);
    } else {
      var j := CellLocationOf(t, r, rs[r].cells, c, q);
      i := n + j;
    }
  }

  /** Each paragraph of the top-level tables' cells has its location at some point of the walk. */
  lemma {:induction false} TableLocationOf(ts: seq<Docx.Table>, t: nat, r: nat, c: nat, q: nat) returns (i: nat)
    requires t < |ts| && r < |ts[t].rows| && c < |ts[t].rows[r].cells| && q < |ts[t].rows[r].cells[c].paragraphs|
    ensures i < |Docx.TablesParagraphs(ts)|
    ensures TableLocations(ts)[i] == TableCell(t, r, c, q)
  {
    var init := ts[..|ts| - 1];
    var n := |Docx.TablesParagraphs(init)|;
    if t < |ts| - 1 {
      assert init[t] == ts[t];
      i := TableLocationOf(init, t, r, c, q);
    } else {
      var j := RowLocationOf(t, ts[t].rows, r, c, q);
      i := n + j;
    }
  }

  // ---------------------------------------------------------------------------
  // What the preview lists
  // ---------------------------------------------------------------------------

  /** A line is listed exactly when the line maker gives it for one of the listed paragraphs. */
  lemma {:induction false} LinesMembers(ps: seq<Paragraph>, locs: seq<Location>, line: LineMaker, e: Replacement)
    requires |ps| == |locs|
    ensures e in Lines(ps, locs, line) <==> exists i :: 0 <= i < |ps| && e in line(locs[i], Docx.Text(ps[i]))
  {
    if ps != [] {
      var n := |ps| - 1;
      LinesMembers(ps[..n], locs[..n], line, e);
      if e in Lines(ps[..n], locs[..n], line) {
        var i :| 0 <= i < n && e in line(locs[..n][i], Docx.Text(ps[..n][i]));
        assert ps[..n][i] == ps[i] && locs[..n][i] == locs[i];
      }
      forall i | 0 <= i < |ps| && e in line(locs[i], Docx.Text(ps[i])) ensures e in Lines(ps, locs, line) {
        if i < n {
          assert ps[..n][i] == ps[i] && locs[..n][i] == locs[i];
        }
      }
    }
  }

  /**
   * A line is in the preview of the listed paragraphs exactly when some paragraph of the list has
   * a placeholder, the line has its location and text, and the text with every placeholder filled
   * in, a missing name shown as `{{ name }}`.
   */
  lemma PreviewsMembers(ps: seq<Paragraph>, locs: seq<Location>, data: map<string, string>, e: Replacement)
    requires |ps| == |locs|
    ensures e in Previews(ps, locs, data) <==>
      exists i :: 0 <= i < |ps| && Pattern.ContainsPlaceholders(Docx.Text(ps[i])) &&
        e == Replacement(locs[i], Docx.Text(ps[i]), Pattern.Substitute(Docx.Text(ps[i]), data, Pattern.Spaced))
  {
    LinesMembers(ps, locs, PreviewLine(data), e);
    forall i | 0 <= i < |ps|
      ensures e in PreviewLine(data)(locs[i], Docx.Text(ps[i])) <==>
        Pattern.ContainsPlaceholders(Docx.Text(ps[i])) &&
        e == Replacement(locs[i], Docx.Text(ps[i]), Pattern.Substitute(Docx.Text(ps[i]), data, Pattern.Spaced))
    {
      assert PreviewLine(data)(locs[i], Docx.Text(ps[i])) == Entry(locs[i], Docx.Text(ps[i]), data);
      Pattern.ContainsIffFound(Docx.Text(ps[i]));
    }
  }

  /**
   * Every line of a document's preview names, by its location, a body or top-level cell
   * paragraph whose text has a placeholder, and shows that text and the text filled in.
   */
  lemma PreviewSound(doc: Docx.Document, data: map<string, string>, e: Replacement)
    requires e in PreviewOf(doc, data)
    ensures Locate(doc, e.location).Some?
    ensures e.original == Docx.Text(Locate(doc, e.location).value)
    ensures Pattern.ContainsPlaceholders(e.original)
    ensures e.replaced == Pattern.Substitute(e.original, data, Pattern.Spaced)
  {
    var ps, locs := PreviewedParagraphs(doc), PreviewedLocations(doc);
    PreviewsMembers(ps, locs, data, e);
    var i :| 0 <= i < |ps| && Pattern.ContainsPlaceholders(Docx.Text(ps[i])) &&
      e == Replacement(locs[i], Docx.Text(ps[i]), Pattern.Substitute(Docx.Text(ps[i]), data, Pattern.Spaced));
    LocationAt(doc, i);
  }

  /** Every body paragraph whose text has a placeholder gets its line in the preview. */
  lemma PreviewCoversBody(doc: Docx.Document, data: map<string, string>, i: nat)
    requires i < |doc.paragraphs| && Pattern.ContainsPlaceholders(Docx.Text(doc.paragraphs[i]))
    ensures var text := Docx.Text(doc.paragraphs[i]);
      Replacement(Body(i), text, Pattern.Substitute(text, data, Pattern.Spaced)) in PreviewOf(doc, data)
  {
    var ps, locs := PreviewedParagraphs(doc), PreviewedLocations(doc);
    var text := Docx.Text(doc.paragraphs[i]);
    assert ps[i] == doc.paragraphs[i] && locs[i] == Body(i);
    PreviewsMembers(ps, locs, data, Replacement(Body(i), text, Pattern.Substitute(text, data, Pattern.Spaced)));
  }

  /** Every top-level table cell paragraph whose text has a placeholder gets its line in the preview. */
  lemma PreviewCoversCells(doc: Docx.Document, data: map<string, string>, t: nat, r: nat, c: nat, q: nat)
    requires Locate(doc, TableCell(t, r, c, q)).Some?
    requires Pattern.ContainsPlaceholders(Docx.Text(Locate(doc, TableCell(t, r, c, q)).value))
    ensures var text := Docx.Text(Locate(doc, TableCell(t, r, c, q)).value);
      Replacement(TableCell(t, r, c, q), text, Pattern.Substitute(text, data, Pattern.Spaced)) in PreviewOf(doc, data)
  {
    var ps, locs := PreviewedParagraphs(doc), PreviewedLocations(doc);
    var j := TableLocationOf(doc.tables, t, r, c, q);
    var i := |doc.paragraphs| + j;
    TableLocationAt(doc.tables, j);
    assert locs[i] == TableCell(t, r, c, q);
    assert ps[i] == Locate(doc, TableCell(t, r, c, q)).value;
    var text := Docx.Text(ps[i]);
    PreviewsMembers(ps, locs, data, Replacement(TableCell(t, r, c, q), text, Pattern.Substitute(text, data, Pattern.Spaced)));
  }

  /** Previewing two lists one after the other previews their concatenation. */
  lemma PreviewsAppend(a: seq<Paragraph>, la: seq<Location>, b: seq<Paragraph>, lb: seq<Location>, data: map<string, string>)
    requires |a| == |la| && |b| == |lb|
    ensures Previews(a + b, la + lb, data) == Previews(a, la, data) + Previews(b, lb, data)
  {
    LinesAppend(a, la, b, lb, PreviewLine(data));
  }

  lemma {:induction false} LinesAppend(a: seq<Paragraph>, la: seq<Location>, b: seq<Paragraph>, lb: seq<Location>, line: LineMaker)
    requires |a| == |la| && |b| == |lb|
    ensures Lines(a + b, la + lb, line) == Lines(a, la, line) + Lines(b, lb, line)
    decreases |b|
  {
    if b == [] {
      assert a + b == a && la + lb == la;
    } else {
      var n := |b| - 1;
      assert (a + b)[..|a + b| - 1] == a + b[..n];
      assert (la + lb)[..|la + lb| - 1] == la + lb[..n];
      LinesAppend(a, la, b[..n], lb[..n], line);
    }
  }

  // ---------------------------------------------------------------------------
  // The loops of `preview_replacements`
  // ---------------------------------------------------------------------------

  /**
   * `for i, paragraph in enumerate(...)`: a line for each listed paragraph whose text has a
   * placeholder, appended to `acc`.
   */
  method PreviewParagraphs(ps: seq<Paragraph>, locs: seq<Location>, data: map<string, string>, acc: seq<Replacement>)
    returns (r: seq<Replacement>)
    requires |ps| == |locs|
    ensures r == acc + Previews(ps, locs, data)
  {
    r := acc;
    for i := 0 to |ps|
      invariant r == acc + Previews(ps[..i], locs[..i], data)
    {
      var original := Docx.Text(ps[i]);
      PreviewsSnoc(ps, locs, i, data);
      Pattern.ContainsIffFound(original);
      if Pattern.ContainsPlaceholders(original) {
        var replaced := Pattern.Substitute(original, data, Pattern.Spaced);
        r := r + [Replacement(locs[i], original, replaced)];
      }
    }
    assert ps[..|ps|] == ps && locs[..|locs|] == locs;
  }

  /** The preview of one more paragraph adds its line. */
  lemma PreviewsSnoc(ps: seq<Paragraph>, locs: seq<Location>, i: nat, data: map<string, string>)
    requires |ps| == |locs| && i < |ps|
    ensures Previews(ps[..i + 1], locs[..i + 1], data)
      == Previews(ps[..i], locs[..i], data) + Entry(locs[i], Docx.Text(ps[i]), data)
  {
    assert ps[..i + 1][..i] == ps[..i] && locs[..i + 1][..i] == locs[..i];
  }

  /** Proof step only: regroups the accumulated lines after one more batch is appended. */
  lemma AppendAssoc(a: seq<Replacement>, b: seq<Replacement>, c: seq<Replacement>)
    ensures a + b + c == a + (b + c)
  {
  }

  /** One more cell previews its paragraphs after those of the cells before it. */
  lemma CellsStep(t: nat, r: nat, cs: seq<Docx.Cell>, c: nat, data: map<string, string>)
    requires c < |cs|
    ensures Previews(Docx.CellsParagraphs(cs[..c + 1]), CellLocations(t, r, cs[..c + 1]), data)
      == Previews(Docx.CellsParagraphs(cs[..c]), CellLocations(t, r, cs[..c]), data)
      + Previews(cs[c].paragraphs, ParagraphLocations(t, r, c, |cs[c].paragraphs|), data)
  {
    Docx.CellsStep(cs, c);
    assert cs[..c + 1][..c] == cs[..c];
    PreviewsAppend(Docx.CellsParagraphs(cs[..c]), CellLocations(t, r, cs[..c]), cs[c].paragraphs,
      ParagraphLocations(t, r, c, |cs[c].paragraphs|), data);
  }

  /** One more row previews its cells after the rows before it. */
  lemma RowsStep(t: nat, rs: seq<Docx.Row>, r: nat, data: map<string, string>)
    requires r < |rs|
    ensures Previews(Docx.RowsParagraphs(rs[..r + 1]), RowLocations(t, rs[..r + 1]), data)
      == Previews(Docx.RowsParagraphs(rs[..r]), RowLocations(t, rs[..r]), data)
      + Previews(Docx.CellsParagraphs(rs[r].cells), CellLocations(t, r, rs[r].cells), data)
  {
    Docx.RowsStep(rs, r);
    assert rs[..r + 1][..r] == rs[..r];
    PreviewsAppend(Docx.RowsParagraphs(rs[..r]), RowLocations(t, rs[..r]), Docx.CellsParagraphs(rs[r].cells),
      CellLocations(t, r, rs[r].cells), data);
  }

  /** One more table previews its rows after the tables before it. */
  lemma TablesStep(ts: seq<Docx.Table>, t: nat, data: map<string, string>)
    requires t < |ts|
    ensures Previews(Docx.TablesParagraphs(ts[..t + 1]), TableLocations(ts[..t + 1]), data)
      == Previews(Docx.TablesParagraphs(ts[..t]), TableLocations(ts[..t]), data)
      + Previews(Docx.RowsParagraphs(ts[t].rows), RowLocations(t, ts[t].rows), data)
  {
    Docx.TablesStep(ts, t);
    assert ts[..t + 1][..t] == ts[..t];
    PreviewsAppend(Docx.TablesParagraphs(ts[..t]), TableLocations(ts[..t]), Docx.RowsParagraphs(ts[t].rows),
      RowLocations(t, ts[t].rows), data);
  }

  /** `for cell_idx, cell in enumerate(row.cells)`. */
  method PreviewCells(t: nat, r: nat, cs: seq<Docx.Cell>, data: map<string, string>, acc: seq<Replacement>)
    returns (out: seq<Replacement>)
    ensures out == acc + Previews(Docx.CellsParagraphs(cs), CellLocations(t, r, cs), data)
  {
    out := acc;
    for c := 0 to |cs|
      invariant out == acc + Previews(Docx.CellsParagraphs(cs[..c]), CellLocations(t, r, cs[..c]), data)
    {
      ghost var before := Docx.CellsParagraphs(cs[..c]);
      forall p | p in before ensures allocated(p) {
        Docx.CellsMember(cs[..c], p);
      }
      ghost var done := Previews(before, CellLocations(t, r, cs[..c]), data);
      var locs := ParagraphLocations(t, r, c, |cs[c].paragraphs|);
      out := PreviewParagraphs(cs[c].paragraphs, locs, data, out);
      assert done == Previews(before, CellLocations(t, r, cs[..c]), data);
      CellsStep(t, r, cs, c, data);
      AppendAssoc(acc, done, Previews(cs[c].paragraphs, locs, data));
    }
    assert cs[..|cs|] == cs;
  }

  /** `for row_idx, row in enumerate(table.rows)`. */
  method PreviewRows(t: nat, rs: seq<Docx.Row>, data: map<string, string>, acc: seq<Replacement>)
    returns (out: seq<Replacement>)
    ensures out == acc + Previews(Docx.RowsParagraphs(rs), RowLocations(t, rs), data)
  {
    out := acc;
    for r := 0 to |rs|
      invariant out == acc + Previews(Docx.RowsParagraphs(rs[..r]), RowLocations(t, rs[..r]), data)
    {
      ghost var before := Docx.RowsParagraphs(rs[..r]);
      forall p | p in before ensures allocated(p) {
        Docx.RowsMember(rs[..r], p);
        var k :| 0 <= k < r && p in Docx.CellsParagraphs(rs[..r][k].cells);
        Docx.CellsMember(rs[..r][k].cells, p);
      }
      ghost var done := Previews(before, RowLocations(t, rs[..r]), data);
      out := PreviewCells(t, r, rs[r].cells, data, out);
      assert done == Previews(before, RowLocations(t, rs[..r]), data);
      RowsStep(t, rs, r, data);
      AppendAssoc(acc, done, Previews(Docx.CellsParagraphs(rs[r].cells), CellLocations(t, r, rs[r].cells), data));
    }
    assert rs[..|rs|] == rs;
  }

  /** `for table_idx, table in enumerate(doc.tables)`. */
  method PreviewTables(ts: seq<Docx.Table>, data: map<string, string>, acc: seq<Replacement>)
    returns (out: seq<Replacement>)
    ensures out == acc + Previews(Docx.TablesParagraphs(ts), TableLocations(ts), data)
  {
    out := acc;
    for t := 0 to |ts|
      invariant out == acc + Previews(Docx.TablesParagraphs(ts[..t]), TableLocations(ts[..t]), data)
    {
      ghost var before := Docx.TablesParagraphs(ts[..t]);
      forall p | p in before ensures allocated(p) {
        Docx.TablesMemberCell(ts[..t], p);
      }
      ghost var done := Previews(before, TableLocations(ts[..t]), data);
      out := PreviewRows(t, ts[t].rows, data, out);
      assert done == Previews(before, TableLocations(ts[..t]), data);
      TablesStep(ts, t, data);
      AppendAssoc(acc, done, Previews(Docx.RowsParagraphs(ts[t].rows), RowLocations(t, ts[t].rows), data));
    }
    assert ts[..|ts|] == ts;
  }

  /**
   * `preview_replacements`: the preview lines of the body paragraphs, then of the top-level table
   * cells, and their number; a template that fails to load (`loaded` is its error) gives none.
   */
  method PreviewReplacements(loaded: Result<Docx.Document, string>, data: map<string, string>) returns (r: PreviewResult)
    ensures loaded.Failure? ==> r == PreviewResult(false, Some(loaded.error), [], 0)
    ensures loaded.Success? ==>
      && r.success && r.error == None
      && r.replacements == PreviewOf(loaded.value, data)
      && r.total == |r.replacements|
  {
    match loaded
    case Failure(e) =>
      r := PreviewResult(false, Some(e), [], 0);
    case Success(doc) =>
      ghost var body, cells := doc.paragraphs, Docx.TablesParagraphs(doc.tables);
      forall p | p in cells ensures allocated(p) {
        Docx.TablesMemberCell(doc.tables, p);
      }
      var bodyLocs := BodyLocations(|doc.paragraphs|);
      var replacements := PreviewParagraphs(doc.paragraphs, bodyLocs, data, []);
      ghost var done := Previews(body, bodyLocs, data);
      assert replacements == done;
      replacements := PreviewTables(doc.tables, data, replacements);
      assert done == Previews(body, bodyLocs, data);
      PreviewsAppend(body, bodyLocs, cells, TableLocations(doc.tables), data);
      r := PreviewResult(true, None, replacements, |replacements|);
  }
}

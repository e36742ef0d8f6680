/**
 * `TemplateParser`: reads the placeholder names a template uses and turns them into the form
 * schema the front end shows.  The names are gathered from the body paragraphs, the cells of
 * the top-level tables and the header and footer paragraphs, then sorted.
 */
module Parser {
  import opened Wrappers
  import Strings
  import Pattern
  import Docx
  import Schema

  type Paragraph = Docx.Paragraph

  /** The names the pattern finds in the listed paragraphs, all together. */
  function NamesOf(ps: seq<Paragraph>): set<string>
    reads set p | p in ps
  {
    if ps == [] then {} else NamesOf(ps[..|ps| - 1]) + Pattern.NamesIn(Docx.Text(ps[|ps| - 1]))
  }

  /** A name is gathered exactly when the pattern finds it in one of the listed paragraphs. */
  lemma NamesOfMembers(ps: seq<Paragraph>, x: string)
    ensures x in NamesOf(ps) <==> exists p :: p in ps && x in Pattern.NamesIn(Docx.Text(p))
  {
    if x in NamesOf(ps) {
      NamesOfSound(ps, x);
    }
    forall p | p in ps && x in Pattern.NamesIn(Docx.Text(p)) ensures x in NamesOf(ps) {
      var i :| 0 <= i < |ps| && ps[i] == p;
      NamesOfComplete(ps, x, i);
    }
  }

  lemma {:induction false} NamesOfSound(ps: seq<Paragraph>, x: string)
    requires x in NamesOf(ps)
    ensures exists i :: 0 <= i < |ps| && x in Pattern.NamesIn(Docx.Text(ps[i]))
  {
    var init := ps[..|ps| - 1];
    if x !in Pattern.NamesIn(Docx.Text(ps[|ps| - 1])) {
      NamesOfSound(init, x);
      var i :| 0 <= i < |init| && x in Pattern.NamesIn(Docx.Text(init[i]));
      assert init[i] == ps[i];
    }
  }

  lemma {:induction false} NamesOfComplete(ps: seq<Paragraph>, x: string, i: nat)
    requires i < |ps| && x in Pattern.NamesIn(Docx.Text(ps[i]))
    ensures x in NamesOf(ps)
  {
    if i < |ps| - 1 {
      var init := ps[..|ps| - 1];
      assert init[i] == ps[i];
      NamesOfComplete(init, x, i);
    }
  }

  /** Gathering from two lists one after the other gathers the union. */
  lemma {:induction false} NamesOfAppend(a: seq<Paragraph>, b: seq<Paragraph>)
    ensures NamesOf(a + b) == NamesOf(a) + NamesOf(b)
    decreases |b|
  {
    if b == [] {
      assert a + b == a;
    } else {
      var b' := b[..|b| - 1];
      assert (a + b)[..|a + b| - 1] == a + b';
      NamesOfAppend(a, b');
    }
  }

  /** Proof step only: regroups the gathered names after one more batch is added. */
  lemma UnionAssoc(a: set<string>, b: set<string>, c: set<string>)
    ensures a + b + c == a + (b + c)
  {
  }

  /** One more paragraph adds the names found in it. */
  lemma NamesOfStep(ps: seq<Paragraph>, i: nat)
    requires i < |ps|
    ensures NamesOf(ps[..i + 1]) == NamesOf(ps[..i]) + Pattern.NamesIn(Docx.Text(ps[i]))
  {
    assert ps[..i + 1][..i] == ps[..i];
  }

  /** `placeholders.update(re.findall(pattern, paragraph.text))` for each listed paragraph. */
  method GatherNames(ps: seq<Paragraph>, names: set<string>) returns (r: set<string>)
    ensures r == names + NamesOf(ps)
  {
    r := names;
    for i := 0 to |ps|
      invariant r == names + NamesOf(ps[..i])
    {
      NamesOfStep(ps, i);
      r := r + Pattern.NamesIn(Docx.Text(ps[i]));
    }
    assert ps[..|ps|] == ps;
  }

  /** The cells of a row, one after the other. */
  method GatherCells(cells: seq<Docx.Cell>, names: set<string>) returns (r: set<string>)
    ensures r == names + NamesOf(Docx.CellsParagraphs(cells))
  {
    r := names;
    for i := 0 to |cells|
      invariant r == names + NamesOf(Docx.CellsParagraphs(cells[..i]))
    {
      forall p | p in Docx.CellsParagraphs(cells[..i]) ensures allocated(p) {
        Docx.CellsMember(cells[..i], p);
      }
      r := GatherNames(cells[i].paragraphs, r);
      Docx.CellsStep(cells, i);
      NamesOfAppend(Docx.CellsParagraphs(cells[..i]), cells[i].paragraphs);
      UnionAssoc(names, NamesOf(Docx.CellsParagraphs(cells[..i])), NamesOf(cells[i].paragraphs));
    }
    assert cells[..|cells|] == cells;
  }

  /** The rows of a table, one after the other. */
  method GatherRows(rows: seq<Docx.Row>, names: set<string>) returns (r: set<string>)
    ensures r == names + NamesOf(Docx.RowsParagraphs(rows))
  {
    r := names;
    for i := 0 to |rows|
      invariant r == names + NamesOf(Docx.RowsParagraphs(rows[..i]))
    {
      forall p | p in Docx.RowsParagraphs(rows[..i]) ensures allocated(p) {
        Docx.RowsMember(rows[..i], p);
        var k :| 0 <= k < i && p in Docx.CellsParagraphs(rows[..i][k].cells);
        Docx.CellsMember(rows[..i][k].cells, p);
      }
      r := GatherCells(rows[i].cells, r);
      Docx.RowsStep(rows, i);
      NamesOfAppend(Docx.RowsParagraphs(rows[..i]), Docx.CellsParagraphs(rows[i].cells));
      UnionAssoc(names, NamesOf(Docx.RowsParagraphs(rows[..i])), NamesOf(Docx.CellsParagraphs(rows[i].cells)));
    }
    assert rows[..|rows|] == rows;
  }

  /** `for table in doc.tables: for row in table.rows: for cell in row.cells: ...`. */
  method GatherTables(tables: seq<Docx.Table>, names: set<string>) returns (r: set<string>)
    ensures r == names + NamesOf(Docx.TablesParagraphs(tables))
  {
    r := names;
    for i := 0 to |tables|
      invariant r == names + NamesOf(Docx.TablesParagraphs(tables[..i]))
    {
      forall p | p in Docx.TablesParagraphs(tables[..i]) ensures allocated(p) {
        Docx.TablesMemberCell(tables[..i], p);
      }
      r := GatherRows(tables[i].rows, r);
      Docx.TablesStep(tables, i);
      NamesOfAppend(Docx.TablesParagraphs(tables[..i]), Docx.RowsParagraphs(tables[i].rows));
      UnionAssoc(names, NamesOf(Docx.TablesParagraphs(tables[..i])), NamesOf(Docx.RowsParagraphs(tables[i].rows)));
    }
    assert tables[..|tables|] == tables;
  }

  /** One more section adds the names of its header, then those of its footer. */
  lemma SectionStep(sections: seq<Docx.Section>, i: nat)
    requires i < |sections|
    ensures NamesOf(Docx.SectionsTextParagraphs(sections[..i + 1]))
      == NamesOf(Docx.SectionsTextParagraphs(sections[..i]))
      + NamesOf(sections[i].header.paragraphs) + NamesOf(sections[i].footer.paragraphs)
  {
    var before, header, footer := Docx.SectionsTextParagraphs(sections[..i]), sections[i].header.paragraphs, sections[i].footer.paragraphs;
    assert sections[..i + 1][..i] == sections[..i];
    assert Docx.SectionsTextParagraphs(sections[..i + 1]) == before + header + footer;
    NamesOfAppend(before, header);
    NamesOfAppend(before + header, footer);
  }

  /** `for section in doc.sections:` the header's paragraphs, then the footer's. */
  method GatherSections(sections: seq<Docx.Section>, names: set<string>) returns (r: set<string>)
    ensures r == names + NamesOf(Docx.SectionsTextParagraphs(sections))
  {
    r := names;
    for i := 0 to |sections|
      invariant r == names + NamesOf(Docx.SectionsTextParagraphs(sections[..i]))
    {
      ghost var before := Docx.SectionsTextParagraphs(sections[..i]);
      forall p | p in before ensures allocated(p) {
        Docx.SectionsTextMember(sections[..i], p);
      }
      ghost var seen := NamesOf(before);
      r := GatherNames(sections[i].header.paragraphs, r);
      r := GatherNames(sections[i].footer.paragraphs, r);
      assert seen == NamesOf(before);
      SectionStep(sections, i);
    }
    assert sections[..|sections|] == sections;
  }

  /**
   * `_extract_placeholders`: the names used in the body paragraphs, the top-level table cells
   * and the header and footer paragraphs, each once, in increasing order.
   */
  method ExtractPlaceholders(doc: Docx.Document) returns (r: seq<string>)
    ensures Strings.StrictlySorted(r)
    ensures forall x :: x in r <==> x in NamesOf(Docx.ScannedParagraphs(doc))
  {
    ghost var body, tables, sections := doc.paragraphs, Docx.TablesParagraphs(doc.tables), Docx.SectionsTextParagraphs(doc.sections);
    forall p | p in tables ensures allocated(p) {
      Docx.TablesMemberCell(doc.tables, p);
    }
    forall p | p in sections ensures allocated(p) {
      Docx.SectionsTextMember(doc.sections, p);
    }
    var names := GatherNames(doc.paragraphs, {});
    names := GatherTables(doc.tables, names);
    names := GatherSections(doc.sections, names);
    NamesOfAppend(body, tables);
    NamesOfAppend(body + tables, sections);
    UnionAssoc(NamesOf(body), NamesOf(tables), NamesOf(sections));
    assert names == NamesOf(Docx.ScannedParagraphs(doc));
    r := Strings.SortNames(names);
  }

  /** What `parse_template` returns: `error` is set exactly on failure. */
  datatype ParseResult = ParseResult(
    success: bool,
    error: Option<string>,
    placeholders: seq<string>,
    schema: Schema.FormSchema,
    fieldCount: nat)

  /**
   * `parse_template`: the placeholders of the loaded template, the schema built from them and
   * their count; a template that fails to load (`loaded` is its error) gives the empty result.
   */
  method ParseTemplate(loaded: Result<Docx.Document, string>) returns (r: ParseResult)
    ensures loaded.Failure? ==> r == ParseResult(false, Some(loaded.error), [], Schema.FormSchema([]), 0)
    ensures loaded.Success? ==>
      && r.success && r.error == None
      && Strings.StrictlySorted(r.placeholders)
      && (forall x :: x in r.placeholders <==> x in NamesOf(Docx.ScannedParagraphs(loaded.value)))
      && r.schema == Schema.SchemaOf(r.placeholders)
      && r.fieldCount == |r.placeholders|
  {
    match loaded
    case Failure(e) =>
      r := ParseResult(false, Some(e), [], Schema.FormSchema([]), 0);
    case Success(doc) =>
      var placeholders := ExtractPlaceholders(doc);
      forall p | p in Docx.ScannedParagraphs(doc) ensures allocated(p) {
        Scanned(doc, p);
      }
      var schema := Schema.GenerateSchema(placeholders);
      r := ParseResult(true, None, placeholders, schema, |placeholders|);
  }

  /** The paragraphs a scan reads belong to the document. */
  lemma Scanned(doc: Docx.Document, p: Paragraph)
    requires p in Docx.ScannedParagraphs(doc)
    ensures allocated(p)
  {
    if p in Docx.TablesParagraphs(doc.tables) {
      Docx.TablesMemberCell(doc.tables, p);
    } else if p in Docx.SectionsTextParagraphs(doc.sections) {
      Docx.SectionsTextMember(doc.sections, p);
    }
  }
}

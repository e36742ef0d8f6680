/**
 * The parts of a Word document the two services walk, as python-docx exposes them: body
 * paragraphs, top-level tables (rows of cells of paragraphs), and for each section a header
 * and a footer, each with paragraphs and tables.  A paragraph is its array of run texts; the
 * tree around the paragraphs is a value, since neither service changes it.
 */
module Docx {
  import Runs

  /** A paragraph: its runs' texts, in order; the runs themselves are never added or removed. */
  type Paragraph = array<string>

  datatype Cell = Cell(paragraphs: seq<Paragraph>)

  datatype Row = Row(cells: seq<Cell>)

  datatype Table = Table(rows: seq<Row>)

  /** A header or a footer. */
  datatype Part = Part(paragraphs: seq<Paragraph>, tables: seq<Table>)

  datatype Section = Section(header: Part, footer: Part)

  datatype Document = Document(paragraphs: seq<Paragraph>, tables: seq<Table>, sections: seq<Section>)

  /** `paragraph.text`. */
  function Text(p: Paragraph): string
    reads p
  {
    Runs.Concat(p[..])
  }

  // ---------------------------------------------------------------------------
  // The paragraphs each walk visits, in the order it visits them
  // ---------------------------------------------------------------------------

  /** `for cell in row.cells: for paragraph in cell.paragraphs`. */
  function CellsParagraphs(cs: seq<Cell>): seq<Paragraph>
  {
    if cs == [] then [] else CellsParagraphs(cs[..|cs| - 1]) + cs[|cs| - 1].paragraphs
  }

  /** `for row in table.rows: for cell in row.cells: ...`. */
  function RowsParagraphs(rs: seq<Row>): seq<Paragraph>
  {
    if rs == [] then [] else RowsParagraphs(rs[..|rs| - 1]) + CellsParagraphs(rs[|rs| - 1].cells)
  }

  /** `for table in tables: for row in table.rows: ...`. */
  function TablesParagraphs(ts: seq<Table>): seq<Paragraph>
  {
    if ts == [] then [] else TablesParagraphs(ts[..|ts| - 1]) + RowsParagraphs(ts[|ts| - 1].rows)
  }

  /** A header or footer as the generator walks it: its paragraphs, then its tables' cells. */
  function PartParagraphs(part: Part): seq<Paragraph>
  {
    part.paragraphs + TablesParagraphs(part.tables)
  }

  /** The generator's walk of the sections: header, then footer, section by section. */
  function SectionsParagraphs(ss: seq<Section>): seq<Paragraph>
  {
    if ss == [] then []
    else SectionsParagraphs(ss[..|ss| - 1]) + PartParagraphs(ss[|ss| - 1].header) + PartParagraphs(ss[|ss| - 1].footer)
  }

  /** The scanners' walk of the sections: header and footer paragraphs only, no tables. */
  function SectionsTextParagraphs(ss: seq<Section>): seq<Paragraph>
  {
    if ss == [] then []
    else SectionsTextParagraphs(ss[..|ss| - 1]) + ss[|ss| - 1].header.paragraphs + ss[|ss| - 1].footer.paragraphs
  }

  /** Every paragraph `generate_document` fills in, in order. */
  function GeneratedParagraphs(doc: Document): seq<Paragraph>
  {
    doc.paragraphs + TablesParagraphs(doc.tables) + SectionsParagraphs(doc.sections)
  }

  /** Every paragraph `_extract_placeholders` and `get_template_placeholders` read, in order. */
  function ScannedParagraphs(doc: Document): seq<Paragraph>
  {
    doc.paragraphs + TablesParagraphs(doc.tables) + SectionsTextParagraphs(doc.sections)
  }

  /** The scanners read only paragraphs the generator fills in (they skip header/footer tables). */
  lemma {:induction false} ScannedAreGenerated(doc: Document, p: Paragraph)
    requires p in ScannedParagraphs(doc)
    ensures p in GeneratedParagraphs(doc)
  {
    if p in SectionsTextParagraphs(doc.sections) {
      SectionsTextWithin(doc.sections, p);
    }
  }

  lemma {:induction false} SectionsTextWithin(ss: seq<Section>, p: Paragraph)
    requires p in SectionsTextParagraphs(ss)
    ensures p in SectionsParagraphs(ss)
  {
    var last := ss[|ss| - 1];
    if p in SectionsTextParagraphs(ss[..|ss| - 1]) {
      SectionsTextWithin(ss[..|ss| - 1], p);
    }
  }

  /** A paragraph in the walk of some cells belongs to one of them. */
  lemma {:induction false} CellsMember(cs: seq<Cell>, p: Paragraph)
    requires p in CellsParagraphs(cs)
    ensures exists k :: 0 <= k < |cs| && p in cs[k].paragraphs
  {
    if p !in cs[|cs| - 1].paragraphs {
      CellsMember(cs[..|cs| - 1], p);
      var k :| 0 <= k < |cs| - 1 && p in cs[..|cs| - 1][k].paragraphs;
      assert cs[k] == cs[..|cs| - 1][k];
    }
  }

  lemma {:induction false} RowsMember(rs: seq<Row>, p: Paragraph)
    requires p in RowsParagraphs(rs)
    ensures exists k :: 0 <= k < |rs| && p in CellsParagraphs(rs[k].cells)
  {
    if p !in CellsParagraphs(rs[|rs| - 1].cells) {
      RowsMember(rs[..|rs| - 1], p);
      var k :| 0 <= k < |rs| - 1 && p in CellsParagraphs(rs[..|rs| - 1][k].cells);
      assert rs[k] == rs[..|rs| - 1][k];
    }
  }

  lemma {:induction false} TablesMember(ts: seq<Table>, p: Paragraph)
    requires p in TablesParagraphs(ts)
    ensures exists k :: 0 <= k < |ts| && p in RowsParagraphs(ts[k].rows)
  {
    if p !in RowsParagraphs(ts[|ts| - 1].rows) {
      TablesMember(ts[..|ts| - 1], p);
      var k :| 0 <= k < |ts| - 1 && p in RowsParagraphs(ts[..|ts| - 1][k].rows);
      assert ts[k] == ts[..|ts| - 1][k];
    }
  }

  /** A paragraph in the walk of some tables belongs to one of their cells. */
  lemma TablesMemberCell(ts: seq<Table>, p: Paragraph)
    requires p in TablesParagraphs(ts)
    ensures exists k, l, m ::
              && 0 <= k < |ts| && 0 <= l < |ts[k].rows| && 0 <= m < |ts[k].rows[l].cells|
              && p in ts[k].rows[l].cells[m].paragraphs
  {
    TablesMember(ts, p);
    var k :| 0 <= k < |ts| && p in RowsParagraphs(ts[k].rows);
    RowsMember(ts[k].rows, p);
    var l :| 0 <= l < |ts[k].rows| && p in CellsParagraphs(ts[k].rows[l].cells);
    CellsMember(ts[k].rows[l].cells, p);
  }

  lemma {:induction false} SectionsTextMember(ss: seq<Section>, p: Paragraph)
    requires p in SectionsTextParagraphs(ss)
    ensures exists k :: 0 <= k < |ss| && (p in ss[k].header.paragraphs || p in ss[k].footer.paragraphs)
  {
    var last := ss[|ss| - 1];
    if p !in last.header.paragraphs && p !in last.footer.paragraphs {
      SectionsTextMember(ss[..|ss| - 1], p);
      var k :| 0 <= k < |ss| - 1 && (p in ss[..|ss| - 1][k].header.paragraphs || p in ss[..|ss| - 1][k].footer.paragraphs);
      assert ss[k] == ss[..|ss| - 1][k];
    }
  }

  // ---------------------------------------------------------------------------
  // Distinct paragraphs
  // ---------------------------------------------------------------------------

  /** No paragraph is listed twice. */
  predicate Distinct(ps: seq<Paragraph>)
  {
    forall i, j :: 0 <= i < j < |ps| ==> ps[i] != ps[j]
  }

  /** The two halves of a list without repeats are without repeats and share no paragraph. */
  lemma DistinctAppend(a: seq<Paragraph>, b: seq<Paragraph>)
    requires Distinct(a + b)
    ensures Distinct(a) && Distinct(b)
    ensures forall p :: p in a ==> p !in b
  {
    forall i, j | 0 <= i < j < |a| ensures a[i] != a[j] {
      assert (a + b)[i] == a[i] && (a + b)[j] == a[j];
    }
    forall i, j | 0 <= i < j < |b| ensures b[i] != b[j] {
      assert (a + b)[|a| + i] == b[i] && (a + b)[|a| + j] == b[j];
    }
    forall i, j | 0 <= i < |a| && 0 <= j < |b| ensures a[i] != b[j] {
      assert (a + b)[i] == a[i] && (a + b)[|a| + j] == b[j];
    }
  }

  /** Proof step only: a prefix of a distinct list is distinct. */
  lemma DistinctPrefix(a: seq<Paragraph>, b: seq<Paragraph>)
    requires a <= b && Distinct(b)
    ensures Distinct(a)
  {
  }

  /** Proof step only: the prefix order is kept under a common front part. */
  lemma PrefixAppend(x: seq<Paragraph>, a: seq<Paragraph>, b: seq<Paragraph>)
    requires a <= b
    ensures x + a <= x + b
  {
    assert (x + b)[..|x + a|] == x + b[..|a|];
  }

  /** Proof step only: the prefix order is transitive. */
  lemma PrefixTrans(a: seq<Paragraph>, b: seq<Paragraph>, c: seq<Paragraph>)
    requires a <= b && b <= c
    ensures a <= c
  {
  }

  /** Walking the first `i` cells lists a prefix of walking them all. */
  lemma {:induction false} CellsPrefix(cs: seq<Cell>, i: nat)
    requires i <= |cs|
    ensures CellsParagraphs(cs[..i]) <= CellsParagraphs(cs)
    decreases |cs| - i
  {
    if i < |cs| {
      CellsPrefix(cs, i + 1);
      assert cs[..i + 1][..i] == cs[..i];
    } else {
      assert cs[..i] == cs;
    }
  }

  lemma {:induction false} RowsPrefix(rs: seq<Row>, i: nat)
    requires i <= |rs|
    ensures RowsParagraphs(rs[..i]) <= RowsParagraphs(rs)
    decreases |rs| - i
  {
    if i < |rs| {
      RowsPrefix(rs, i + 1);
      assert rs[..i + 1][..i] == rs[..i];
    } else {
      assert rs[..i] == rs;
    }
  }

  lemma {:induction false} TablesPrefix(ts: seq<Table>, i: nat)
    requires i <= |ts|
    ensures TablesParagraphs(ts[..i]) <= TablesParagraphs(ts)
    decreases |ts| - i
  {
    if i < |ts| {
      TablesPrefix(ts, i + 1);
      assert ts[..i + 1][..i] == ts[..i];
    } else {
      assert ts[..i] == ts;
    }
  }

  lemma {:induction false} SectionsPrefix(ss: seq<Section>, i: nat)
    requires i <= |ss|
    ensures SectionsParagraphs(ss[..i]) <= SectionsParagraphs(ss)
    decreases |ss| - i
  {
    if i < |ss| {
      SectionsPrefix(ss, i + 1);
      assert ss[..i + 1][..i] == ss[..i];
    } else {
      assert ss[..i] == ss;
    }
  }

  /**
   * The next batch of a walk without repeats: when the paragraphs walked so far followed by
   * the batch are a prefix of the whole walk, the batch has no repeats, lies in the walk, and
   * shares no paragraph with those walked so far.
   */
  lemma NextBatch(all: seq<Paragraph>, done: seq<Paragraph>, batch: seq<Paragraph>)
    requires Distinct(all) && done + batch <= all
    ensures Distinct(batch)
    ensures forall p :: p in batch ==> p in all && p !in done
  {
    DistinctPrefix(done + batch, all);
    DistinctAppend(done, batch);
    forall p | p in batch ensures p in all {
      var i :| 0 <= i < |batch| && batch[i] == p;
      assert all[|done| + i] == (done + batch)[|done| + i];
    }
  }

  /** The next cell's paragraphs come next in the walk of a row's cells. */
  lemma CellsStep(cs: seq<Cell>, i: nat)
    requires i < |cs|
    ensures CellsParagraphs(cs[..i + 1]) == CellsParagraphs(cs[..i]) + cs[i].paragraphs
    ensures CellsParagraphs(cs[..i + 1]) <= CellsParagraphs(cs)
  {
    assert cs[..i + 1][..i] == cs[..i];
    CellsPrefix(cs, i + 1);
  }

  /** The next row's cells come next in the walk of a table's rows. */
  lemma RowsStep(rs: seq<Row>, i: nat)
    requires i < |rs|
    ensures RowsParagraphs(rs[..i + 1]) == RowsParagraphs(rs[..i]) + CellsParagraphs(rs[i].cells)
    ensures RowsParagraphs(rs[..i + 1]) <= RowsParagraphs(rs)
  {
    assert rs[..i + 1][..i] == rs[..i];
    RowsPrefix(rs, i + 1);
  }

  /** The next table's rows come next in the walk of a list of tables. */
  lemma TablesStep(ts: seq<Table>, i: nat)
    requires i < |ts|
    ensures TablesParagraphs(ts[..i + 1]) == TablesParagraphs(ts[..i]) + RowsParagraphs(ts[i].rows)
    ensures TablesParagraphs(ts[..i + 1]) <= TablesParagraphs(ts)
  {
    assert ts[..i + 1][..i] == ts[..i];
    TablesPrefix(ts, i + 1);
  }

  /** A header or footer comes whole in the generator's walk of the sections. */
  lemma PartStep(ss: seq<Section>, si: nat)
    requires si < |ss|
    ensures SectionsParagraphs(ss[..si]) + PartParagraphs(ss[si].header) <= SectionsParagraphs(ss)
    ensures SectionsParagraphs(ss[..si]) + PartParagraphs(ss[si].header) + PartParagraphs(ss[si].footer)
      == SectionsParagraphs(ss[..si + 1])
    ensures SectionsParagraphs(ss[..si + 1]) <= SectionsParagraphs(ss)
  {
    assert ss[..si + 1][..si] == ss[..si];
    SectionsPrefix(ss, si + 1);
  }
}

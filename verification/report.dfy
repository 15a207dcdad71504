/**
 The PDF export `generate_pdf` (dashboard.py:361-426), modelled as the ordered
 list of items it draws: the logo, two centred title lines, then one section
 per grouping (Categoria, Hospital, Centro de Custo), each a heading followed
 by one line per group.
 */
module Report {
  import opened Records
  import opened Filtering
  import opened Aggregation
  import opened Percentages
  import opened Dashboard

  datatype PdfItem = Logo | Title(text: string) | Heading(text: string) | Entry(line: Share)

  const ReportTitle := "Relatório de Gastos - Apura SUS"
  const ReportSubtitle := "GABINETE DO SECRETÁRIO ADJUNTO DE GESTÃO HOSPITALAR"
  const CategoryHeading := "Gastos por Categoria:"
  const HospitalHeading := "Gastos por Hospital:"
  const CostCenterHeading := "Gastos por Centro de Custo:"

  /** One line item per group of a breakdown, in order. */
  function Body(shares: seq<Share>): (items: seq<PdfItem>)
    ensures |items| == |shares|
    ensures forall i :: 0 <= i < |shares| ==> items[i] == Entry(shares[i])
  {
    seq(|shares|, i requires 0 <= i < |shares| => Entry(shares[i]))
  }

  /** A heading followed directly by one line per group of a breakdown. */
  function Section(heading: string, shares: seq<Share>): (items: seq<PdfItem>)
    ensures |items| == |shares| + 1
    ensures items[0] == Heading(heading)
    ensures forall i :: 0 <= i < |shares| ==> items[i + 1] == Entry(shares[i])
  {
    [Heading(heading)] + Body(shares)
  }

  /** The page: logo, titles, and the three sections in their fixed order. */
  function Layout(categories: seq<Share>, hospitals: seq<Share>, costCenters: seq<Share>): seq<PdfItem>
  {
    [Logo, Title(ReportTitle), Title(ReportSubtitle)]
      + Section(CategoryHeading, categories)
      + Section(HospitalHeading, hospitals)
      + Section(CostCenterHeading, costCenters)
  }

  /** `generate_pdf`: read heading by heading, the export pairs Categoria,
      Hospital and Centro de Custo, in that order, each with the breakdown of
      the filtered rows by that column. With no row passing it does not fail:
      it holds the logo, the titles and the three headings with no lines
      under them. */
  function GeneratePdf(rows: seq<Row>, sel: Selection): (doc: seq<PdfItem>)
    ensures var filtered := FilterRows(rows, sel);
      SectionsOf(doc) ==
        [(CategoryHeading, Breakdown(filtered, Category)),
         (HospitalHeading, Breakdown(filtered, Hospital)),
         (CostCenterHeading, Breakdown(filtered, CostCenter))]
    ensures (forall r :: r in rows ==> !Passes(r, sel)) ==>
      doc == [Logo, Title(ReportTitle), Title(ReportSubtitle),
              Heading(CategoryHeading), Heading(HospitalHeading), Heading(CostCenterHeading)]
  {
    var filtered := FilterRows(rows, sel);
    var categories := Breakdown(filtered, Category);
    var hospitals := Breakdown(filtered, Hospital);
    var costCenters := Breakdown(filtered, CostCenter);
    LayoutSections(categories, hospitals, costCenters);
    NothingPassesNoLines(rows, sel);
    Layout(categories, hospitals, costCenters)
  }

  /** With no row passing, every breakdown of the filtered rows is empty. */
  lemma NothingPassesNoLines(rows: seq<Row>, sel: Selection)
    ensures (forall r :: r in rows ==> !Passes(r, sel)) ==>
      && Breakdown(FilterRows(rows, sel), Category) == []
      && Breakdown(FilterRows(rows, sel), Hospital) == []
      && Breakdown(FilterRows(rows, sel), CostCenter) == []
  {
    if forall r :: r in rows ==> !Passes(r, sel) {
      EmptyIffNothingPasses(rows, sel);
      assert FilterRows(rows, sel) == [];
    }
  }

  /** The headings of a document, in order. */
  function Headings(doc: seq<PdfItem>): seq<string>
    decreases |doc|
  {
    if |doc| == 0 then []
    else (if doc[0].Heading? then [doc[0].text] else []) + Headings(doc[1..])
  }

  /** The group lines of a document, in order. */
  function Entries(doc: seq<PdfItem>): seq<Share>
    decreases |doc|
  {
    if |doc| == 0 then []
    else (if doc[0].Entry? then [doc[0].line] else []) + Entries(doc[1..])
  }

  lemma {:induction false} HeadingsAppend(a: seq<PdfItem>, b: seq<PdfItem>)
    ensures Headings(a + b) == Headings(a) + Headings(b)
    decreases |a|
  {
    if |a| == 0 {
      assert a + b == b;
    } else {
      assert (a + b)[1..] == a[1..] + b;
      HeadingsAppend(a[1..], b);
    }
  }

  lemma {:induction false} EntriesAppend(a: seq<PdfItem>, b: seq<PdfItem>)
    ensures Entries(a + b) == Entries(a) + Entries(b)
    decreases |a|
  {
    if |a| == 0 {
      assert a + b == b;
    } else {
      assert (a + b)[0] == a[0];
      assert (a + b)[1..] == a[1..] + b;
      EntriesAppend(a[1..], b);
      assert Entries(a + b) == (if a[0].Entry? then [a[0].line] else []) + Entries(a[1..] + b);
    }
  }

  lemma {:induction false} SectionContents(heading: string, shares: seq<Share>)
    ensures Headings(Section(heading, shares)) == [heading]
    ensures Entries(Section(heading, shares)) == shares
    decreases |shares|
  {
    var body := Body(shares);
    assert Section(heading, shares) == [Heading(heading)] + body;
    HeadingsAppend([Heading(heading)], body);
    EntriesAppend([Heading(heading)], body);
    BodyContents(shares);
  }

  lemma {:induction false} BodyContents(shares: seq<Share>)
    ensures Headings(Body(shares)) == []
    ensures Entries(Body(shares)) == shares
    decreases |shares|
  {
    var body := Body(shares);
    if |shares| > 0 {
      BodyContents(shares[1..]);
      assert body[1..] == Body(shares[1..]);
      assert shares == [shares[0]] + shares[1..];
    }
  }

  /** The group lines at the front of a document, up to its first heading. */
  function LeadingEntries(doc: seq<PdfItem>): seq<Share>
    decreases |doc|
  {
    if |doc| == 0 || doc[0].Heading? then []
    else (if doc[0].Entry? then [doc[0].line] else []) + LeadingEntries(doc[1..])
  }

  /** The sections of a document as a reader sees them: each heading paired
      with the group lines printed under it, up to the next heading. */
  function SectionsOf(doc: seq<PdfItem>): seq<(string, seq<Share>)>
    decreases |doc|
  {
    if |doc| == 0 then []
    else if doc[0].Heading? then [(doc[0].text, LeadingEntries(doc[1..]))] + SectionsOf(doc[1..])
    else SectionsOf(doc[1..])
  }

  /** Items that are not headings start no section. */
  lemma {:induction false} SkipNonHeadings(doc: seq<PdfItem>, rest: seq<PdfItem>)
    requires forall i :: 0 <= i < |doc| ==> !doc[i].Heading?
    ensures SectionsOf(doc + rest) == SectionsOf(rest)
    decreases |doc|
  {
    if |doc| == 0 {
      assert doc + rest == rest;
    } else {
      assert (doc + rest)[0] == doc[0];
      assert (doc + rest)[1..] == doc[1..] + rest;
      SkipNonHeadings(doc[1..], rest);
    }
  }

  /** The lines of a body all belong to the heading before it. */
  lemma {:induction false} LeadingEntriesOfBody(shares: seq<Share>, rest: seq<PdfItem>)
    ensures LeadingEntries(Body(shares) + rest) == shares + LeadingEntries(rest)
    decreases |shares|
  {
    var body := Body(shares);
    if |shares| == 0 {
      assert body + rest == rest;
    } else {
      assert (body + rest)[0] == Entry(shares[0]);
      assert (body + rest)[1..] == Body(shares[1..]) + rest;
      LeadingEntriesOfBody(shares[1..], rest);
      assert shares == [shares[0]] + shares[1..];
    }
  }

  /** A heading, its body and what follows, when what follows is the next
      heading or nothing, read back as that heading with exactly the body's
      lines. */
  lemma HeadingThenBody(heading: string, shares: seq<Share>, rest: seq<PdfItem>)
    requires rest == [] || rest[0].Heading?
    ensures SectionsOf([Heading(heading)] + (Body(shares) + rest)) == [(heading, shares)] + SectionsOf(rest)
  {
    var doc := [Heading(heading)] + (Body(shares) + rest);
    assert doc[0] == Heading(heading);
    assert doc[1..] == Body(shares) + rest;
    LeadingEntriesOfBody(shares, rest);
    assert LeadingEntries(rest) == [];
    assert shares + [] == shares;
    SkipNonHeadings(Body(shares), rest);
  }

  /** A section followed by the next heading (or by nothing) reads back as
      its heading with exactly its lines. */
  lemma SectionThenRest(heading: string, shares: seq<Share>, rest: seq<PdfItem>)
    requires rest == [] || rest[0].Heading?
    ensures SectionsOf(Section(heading, shares) + rest) == [(heading, shares)] + SectionsOf(rest)
  {
    assert Section(heading, shares) + rest == [Heading(heading)] + (Body(shares) + rest);
    HeadingThenBody(heading, shares, rest);
  }

  /** Under each of the three headings, in order, sit exactly the lines of
      the breakdown it names. */
  lemma LayoutSections(categories: seq<Share>, hospitals: seq<Share>, costCenters: seq<Share>)
    ensures SectionsOf(Layout(categories, hospitals, costCenters)) ==
      [(CategoryHeading, categories), (HospitalHeading, hospitals), (CostCenterHeading, costCenters)]
  {
    var head: seq<PdfItem> := [Logo, Title(ReportTitle), Title(ReportSubtitle)];
    var s1 := Section(CategoryHeading, categories);
    var s2 := Section(HospitalHeading, hospitals);
    var s3 := Section(CostCenterHeading, costCenters);
    Reassociate(head, s1, s2, s3);
    var tail3 := s3 + [];
    var tail2 := s2 + tail3;
    var tail1 := s1 + tail2;
    SectionThenRest(CostCenterHeading, costCenters, []);
    SectionThenRest(HospitalHeading, hospitals, tail3);
    SectionThenRest(CategoryHeading, categories, tail2);
    SkipNonHeadings(head, tail1);
  }

  lemma Reassociate(a: seq<PdfItem>, b: seq<PdfItem>, c: seq<PdfItem>, d: seq<PdfItem>)
    ensures a + b + c + d == a + (b + (c + (d + [])))
  {
    assert d + [] == d;
  }

  lemma HeadingsOfFour(a: seq<PdfItem>, b: seq<PdfItem>, c: seq<PdfItem>, d: seq<PdfItem>)
    ensures Headings(a + b + c + d) == Headings(a) + Headings(b) + Headings(c) + Headings(d)
  {
    HeadingsAppend(a + b + c, d);
    HeadingsAppend(a + b, c);
    HeadingsAppend(a, b);
  }

  lemma EntriesOfFour(a: seq<PdfItem>, b: seq<PdfItem>, c: seq<PdfItem>, d: seq<PdfItem>,
                      x: seq<Share>, y: seq<Share>, z: seq<Share>)
    requires Entries(a) == [] && Entries(b) == x && Entries(c) == y && Entries(d) == z
    ensures Entries(a + b + c + d) == x + y + z
  {
    EntriesAppend(a + b + c, d);
    EntriesAppend(a + b, c);
    EntriesAppend(a, b);
    assert [] + x == x;
  }

  lemma LayoutHeadings(categories: seq<Share>, hospitals: seq<Share>, costCenters: seq<Share>)
    ensures Headings(Layout(categories, hospitals, costCenters)) == [CategoryHeading, HospitalHeading, CostCenterHeading]
  {
    var head: seq<PdfItem> := [Logo, Title(ReportTitle), Title(ReportSubtitle)];
    HeadingsOfFour(head, Section(CategoryHeading, categories), Section(HospitalHeading, hospitals),
      Section(CostCenterHeading, costCenters));
    SectionContents(CategoryHeading, categories);
    SectionContents(HospitalHeading, hospitals);
    SectionContents(CostCenterHeading, costCenters);
    FrontMatter(head);
  }

  lemma LayoutEntries(categories: seq<Share>, hospitals: seq<Share>, costCenters: seq<Share>)
    ensures Entries(Layout(categories, hospitals, costCenters)) == categories + hospitals + costCenters
  {
    var head: seq<PdfItem> := [Logo, Title(ReportTitle), Title(ReportSubtitle)];
    SectionContents(CategoryHeading, categories);
    SectionContents(HospitalHeading, hospitals);
    SectionContents(CostCenterHeading, costCenters);
    FrontMatter(head);
    EntriesOfFour(head, Section(CategoryHeading, categories), Section(HospitalHeading, hospitals),
      Section(CostCenterHeading, costCenters), categories, hospitals, costCenters);
  }

  lemma LayoutContents(categories: seq<Share>, hospitals: seq<Share>, costCenters: seq<Share>)
    ensures Headings(Layout(categories, hospitals, costCenters)) == [CategoryHeading, HospitalHeading, CostCenterHeading]
    ensures Entries(Layout(categories, hospitals, costCenters)) == categories + hospitals + costCenters
  {
    LayoutHeadings(categories, hospitals, costCenters);
    LayoutEntries(categories, hospitals, costCenters);
  }

  /** Logo and title items contribute no heading and no group line. */
  lemma {:induction false} FrontMatter(doc: seq<PdfItem>)
    requires forall i :: 0 <= i < |doc| ==> doc[i].Logo? || doc[i].Title?
    ensures Headings(doc) == [] && Entries(doc) == []
    decreases |doc|
  {
    if |doc| > 0 {
      FrontMatter(doc[1..]);
    }
  }

  /** The document has the three sections in the order Categoria, Hospital,
      Centro de Custo, and none for Subcategoria; its group lines are those of
      the three breakdowns of the filtered rows, in that order. */
  lemma PdfStructure(rows: seq<Row>, sel: Selection)
    ensures Headings(GeneratePdf(rows, sel)) == [CategoryHeading, HospitalHeading, CostCenterHeading]
    ensures var filtered := FilterRows(rows, sel);
      Entries(GeneratePdf(rows, sel)) ==
        Breakdown(filtered, Category) + Breakdown(filtered, Hospital) + Breakdown(filtered, CostCenter)
  {
    var filtered := FilterRows(rows, sel);
    LayoutContents(Breakdown(filtered, Category), Breakdown(filtered, Hospital), Breakdown(filtered, CostCenter));
  }

  /** Both callbacks filter with the same predicate: when rows pass, the
      export's sections list the same lines as the dashboard's category and
      hospital breakdowns and its cost-center chart. */
  lemma PdfAgreesWithDashboard(rows: seq<Row>, sel: Selection, nClicks: nat)
    requires exists r :: r in rows && Passes(r, sel)
    ensures var v := UpdateDashboard(rows, sel, nClicks);
      && v.categoryInfo.Lines? && v.hospitalInfo.Lines? && v.costCenterChart.Bar?
      && Entries(GeneratePdf(rows, sel)) == v.categoryInfo.lines + v.hospitalInfo.lines + v.costCenterChart.bars
  {
    PdfStructure(rows, sel);
    EmptyIffNothingPasses(rows, sel);
  }
}

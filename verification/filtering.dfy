/**
 The filter shared by the dashboard callback (dashboard.py:214-219) and the
 PDF export (dashboard.py:363-368): a row is kept when its month, hospital,
 cost center and category are each among the selected values (`isin`).
 */
module Filtering {
  import opened Records

  /** The values of the four dropdowns: `date-filter`, `hospital-filter`,
      `cost-center-filter` and `category-filter`. An empty list matches
      nothing. */
  datatype Selection = Selection(
    dates: seq<string>,
    hospitals: seq<string>,
    costCenters: seq<string>,
    categories: seq<string>
  )

  predicate Passes(r: Row, sel: Selection)
  {
    && r.date in sel.dates
    && r.hospital in sel.hospitals
    && r.costCenter in sel.costCenters
    && r.category in sel.categories
  }

  /** `df[mask]`: the rows that pass, in their original order, each as often
      as it occurs in `rows`. */
  function FilterRows(rows: seq<Row>, sel: Selection): (kept: seq<Row>)
    ensures |kept| <= |rows|
    ensures forall i :: 0 <= i < |kept| ==> Passes(kept[i], sel)
    ensures forall r :: multiset(kept)[r] == if Passes(r, sel) then multiset(rows)[r] else 0
    decreases |rows|
  {
    if |rows| == 0 then []
    else
      var rest := FilterRows(rows[1..], sel);
      assert rows == [rows[0]] + rows[1..];
      if Passes(rows[0], sel) then [rows[0]] + rest else rest
  }

  /** `a` is `b` with some rows left out and the others in their order. */
  predicate SubsequenceOf(a: seq<Row>, b: seq<Row>)
    decreases |b|
  {
    if |a| == 0 then true
    else if |b| == 0 then false
    else (a[0] == b[0] && SubsequenceOf(a[1..], b[1..])) || SubsequenceOf(a, b[1..])
  }

  /** The mask keeps the sheet's row order. */
  lemma {:induction false} FilterKeepsOrder(rows: seq<Row>, sel: Selection)
    ensures SubsequenceOf(FilterRows(rows, sel), rows)
    decreases |rows|
  {
    if |rows| > 0 {
      var kept := FilterRows(rows, sel);
      var rest := FilterRows(rows[1..], sel);
      FilterKeepsOrder(rows[1..], sel);
      if Passes(rows[0], sel) {
        assert kept[0] == rows[0] && kept[1..] == rest;
      } else {
        assert kept == rest;
      }
    }
  }

  /** Membership in the filtered subset, both directions. */
  lemma FilterMembership(rows: seq<Row>, sel: Selection, r: Row)
    ensures r in FilterRows(rows, sel) <==> r in rows && Passes(r, sel)
  {
    var kept := FilterRows(rows, sel);
    assert r in kept <==> multiset(kept)[r] > 0;
    assert r in rows <==> multiset(rows)[r] > 0;
  }

  /** The subset is empty exactly when no row passes. */
  lemma EmptyIffNothingPasses(rows: seq<Row>, sel: Selection)
    ensures FilterRows(rows, sel) == [] <==> forall r :: r in rows ==> !Passes(r, sel)
  {
    var kept := FilterRows(rows, sel);
    if kept != [] {
      FilterMembership(rows, sel, kept[0]);
    } else {
      forall r | r in rows
        ensures !Passes(r, sel)
      {
        FilterMembership(rows, sel, r);
      }
    }
  }

  /** An empty selection in any one dimension empties the subset. */
  lemma EmptySelectionMatchesNothing(rows: seq<Row>, sel: Selection)
    requires sel.dates == [] || sel.hospitals == [] || sel.costCenters == [] || sel.categories == []
    ensures FilterRows(rows, sel) == []
  {
    EmptyIffNothingPasses(rows, sel);
  }
}

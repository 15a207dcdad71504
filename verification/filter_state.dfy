/**
 The dropdown options and their initial values (dashboard.py:94-133), and the
 "Selecionar Todos" callback for cost centers (dashboard.py:347-350).
 */
module FilterState {
  import opened Records
  import opened Filtering

  predicate Distinct(xs: seq<string>)
  {
    forall i, j :: 0 <= i < j < |xs| ==> xs[i] != xs[j]
  }

  /** The position of the first occurrence of `x` in `xs`. */
  function FirstIndex(xs: seq<string>, x: string): (i: nat)
    requires x in xs
    ensures i < |xs| && xs[i] == x
    ensures forall j :: 0 <= j < i ==> xs[j] != x
    decreases |xs|
  {
    if xs[0] == x then 0 else 1 + FirstIndex(xs[1..], x)
  }

  /** Appending to a list does not move the first occurrence of a value
      already in it. */
  lemma FirstIndexPrefix(xs: seq<string>, ys: seq<string>, x: string)
    requires x in xs
    ensures FirstIndex(xs + ys, x) == FirstIndex(xs, x)
  {
    var i := FirstIndex(xs, x);
    var k := FirstIndex(xs + ys, x);
    assert (xs + ys)[i] == x;
    assert forall j :: 0 <= j < |xs| ==> (xs + ys)[j] == xs[j];
  }

  /** `Series.unique()`: every value once, in order of first appearance. */
  function Unique(xs: seq<string>): (u: seq<string>)
    ensures forall x :: x in u <==> x in xs
    ensures Distinct(u)
    ensures |u| <= |xs|
    ensures forall i, j :: 0 <= i < j < |u| ==> FirstIndex(xs, u[i]) < FirstIndex(xs, u[j])
    ensures |xs| > 0 ==> |u| > 0 && u[0] == xs[0]
    decreases |xs|
  {
    if |xs| == 0 then []
    else
      var init := xs[..|xs| - 1];
      var last := xs[|xs| - 1];
      assert xs == init + [last];
      var u := Unique(init);
      forall x | x in init
        ensures FirstIndex(xs, x) == FirstIndex(init, x) < |init|
      {
        FirstIndexPrefix(init, [last], x);
      }
      if last in u then u
      else
        assert FirstIndex(xs, last) == |init|;
        u + [last]
  }

  /** Appending a new value to a list appends it to its `unique()`. */
  lemma UniqueSnoc(init: seq<string>, last: string)
    requires last !in init
    ensures Unique(init + [last]) == Unique(init) + [last]
  {
    var xs := init + [last];
    assert xs[..|xs| - 1] == init;
    assert last !in Unique(init);
  }

  /** A list that already has no repeats is its own `unique()`. */
  lemma {:induction false} UniqueOfDistinct(xs: seq<string>)
    requires Distinct(xs)
    ensures Unique(xs) == xs
    decreases |xs|
  {
    if |xs| > 0 {
      var init := xs[..|xs| - 1];
      var last := xs[|xs| - 1];
      assert xs == init + [last];
      assert forall i :: 0 <= i < |init| ==> init[i] == xs[i];
      UniqueOfDistinct(init);
      UniqueSnoc(init, last);
    }
  }

  /** The distinct values of a column, as offered by its dropdown. */
  function Domain(rows: seq<Row>, c: Column): (d: seq<string>)
    ensures Distinct(d)
    ensures forall x :: x in d <==> x in ColumnValues(rows, c)
    ensures forall x :: x in d <==> exists r :: r in rows && Field(r, c) == x
    ensures forall i, j :: 0 <= i < j < |d| ==>
      FirstIndex(ColumnValues(rows, c), d[i]) < FirstIndex(ColumnValues(rows, c), d[j])
    ensures |rows| > 0 ==> |d| > 0 && d[0] == Field(rows[0], c)
  {
    var vs := ColumnValues(rows, c);
    assert forall x :: x in vs <==> exists r :: r in rows && Field(r, c) == x by {
      forall x | x in vs ensures exists r :: r in rows && Field(r, c) == x {
        var i :| 0 <= i < |vs| && vs[i] == x;
        assert rows[i] in rows;
      }
    }
    Unique(vs)
  }

  /** The initial `value` of each dropdown: the first distinct value of its
      column, as a one-element list. On an empty sheet `unique()[0]` raises
      IndexError and there is no initial state. */
  function InitialSelection(rows: seq<Row>): (s: Option<Selection>)
    ensures s.Some? <==> |rows| > 0
    ensures s.Some? ==>
      && s.value.dates == [rows[0].date]
      && s.value.hospitals == [rows[0].hospital]
      && s.value.costCenters == [rows[0].costCenter]
      && s.value.categories == [rows[0].category]
  {
    if |rows| == 0 then None
    else
      Some(Selection(
        [Domain(rows, Date)[0]],
        [Domain(rows, Hospital)[0]],
        [Domain(rows, CostCenter)[0]],
        [Domain(rows, Category)[0]]))
  }

  /** The initial selection lets the first row through, so the dashboard
      does not start in the "no data" state. */
  lemma InitialSelectionKeepsFirstRow(rows: seq<Row>)
    requires |rows| > 0
    ensures Passes(rows[0], InitialSelection(rows).value)
    ensures FilterRows(rows, InitialSelection(rows).value) != []
  {
    FilterMembership(rows, InitialSelection(rows).value, rows[0]);
  }

  /** The "Selecionar Todos" callback. With no click yet (`n_clicks == 0`)
      it returns `no_update`; otherwise the cost-center dropdown receives all
      distinct cost centers in first-seen order. */
  function SelectAllCostCenters(rows: seq<Row>, nClicks: nat, current: Selection): (s: Selection)
    ensures nClicks == 0 ==> s == current
    ensures s.dates == current.dates && s.hospitals == current.hospitals && s.categories == current.categories
    ensures nClicks > 0 ==> Distinct(s.costCenters)
    ensures nClicks > 0 ==> forall x :: x in s.costCenters <==> exists r :: r in rows && r.costCenter == x
    // in order of first appearance in the `Centro de Custo` column
    ensures nClicks > 0 ==> forall x :: x in s.costCenters <==> x in ColumnValues(rows, CostCenter)
    ensures nClicks > 0 ==> forall i, j :: 0 <= i < j < |s.costCenters| ==>
      FirstIndex(ColumnValues(rows, CostCenter), s.costCenters[i]) < FirstIndex(ColumnValues(rows, CostCenter), s.costCenters[j])
  {
    if nClicks > 0 then current.(costCenters := Domain(rows, CostCenter)) else current
  }

  /** Clicking again gives the same selection. */
  lemma SelectAllIdempotent(rows: seq<Row>, n: nat, m: nat, sel: Selection)
    requires n > 0
    ensures SelectAllCostCenters(rows, m, SelectAllCostCenters(rows, n, sel)) == SelectAllCostCenters(rows, n, sel)
  {
  }

  /** After "select all", the cost-center filter no longer excludes any row
      of the sheet: a row passes exactly when the other three filters let it
      through. */
  lemma SelectAllLiftsCostCenterFilter(rows: seq<Row>, n: nat, sel: Selection, r: Row)
    requires n > 0
    requires r in rows
    ensures Passes(r, SelectAllCostCenters(rows, n, sel)) <==>
      r.date in sel.dates && r.hospital in sel.hospitals && r.category in sel.categories
  {
    assert Field(r, CostCenter) == r.costCenter;
  }
}

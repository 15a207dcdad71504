/**
 The `Percentual` column: `100 * sum / table total`, where the total is that
 same table's `Valor` column summed (dashboard.py:230, 253, 276, 299).
 */
module Percentages {
  import opened Records
  import opened Aggregation
  import opened StringOrder

  /** One line of a breakdown: key, summed value and percentage. The
      percentage is None where pandas would produce NaN or infinity, because
      the table total is zero and the source divides without a guard. */
  datatype Share = Share(key: string, sum: real, percent: Option<real>)

  function Percent(sum: real, total: real): (p: Option<real>)
    ensures p.Some? <==> total != 0.0
    ensures p.Some? ==> p.value * total == 100.0 * sum
  {
    if total == 0.0 then None else Some(100.0 * sum / total)
  }

  /** The lines of `t`, each with its percentage of `total`. */
  function SharesOf(t: Table, total: real): (s: seq<Share>)
    ensures |s| == |t|
    ensures forall i :: 0 <= i < |t| ==> s[i] == Share(t[i].key, t[i].sum, Percent(t[i].sum, total))
    decreases |t|
  {
    if |t| == 0 then []
    else [Share(t[0].key, t[0].sum, Percent(t[0].sum, total))] + SharesOf(t[1..], total)
  }

  /** A table with its `Percentual` column, computed against its own total. */
  function WithPercentages(t: Table): seq<Share>
  {
    SharesOf(t, TableTotal(t))
  }

  /** The sum of the percentages of a breakdown (absent ones add nothing). */
  function PercentSum(s: seq<Share>): real
    decreases |s|
  {
    if |s| == 0 then 0.0
    else (match s[0].percent case Some(p) => p case None => 0.0) + PercentSum(s[1..])
  }

  lemma DivisionDistributes(a: real, b: real, d: real)
    requires d != 0.0
    ensures a / d + b / d == (a + b) / d
  {
  }

  lemma DivisionCancels(a: real, d: real)
    requires d != 0.0
    ensures a * d / d == a
  {
  }

  lemma {:induction false} PercentSumOf(t: Table, total: real)
    requires total != 0.0
    ensures PercentSum(SharesOf(t, total)) == 100.0 * TableTotal(t) / total
    decreases |t|
  {
    var s := SharesOf(t, total);
    if |t| > 0 {
      assert s[1..] == SharesOf(t[1..], total);
      PercentSumOf(t[1..], total);
      DivisionDistributes(100.0 * t[0].sum, 100.0 * TableTotal(t[1..]), total);
    }
  }

  /** When a table's total is not zero, every line has a percentage and the
      percentages add up to exactly 100. */
  lemma PercentagesSumToHundred(t: Table)
    requires TableTotal(t) != 0.0
    ensures forall i :: 0 <= i < |t| ==> WithPercentages(t)[i].percent.Some?
    ensures PercentSum(WithPercentages(t)) == 100.0
  {
    var total := TableTotal(t);
    assert WithPercentages(t) == SharesOf(t, total);
    PercentSumOfOwnTotal(t, total);
  }

  lemma PercentSumOfOwnTotal(t: Table, total: real)
    requires total != 0.0 && TableTotal(t) == total
    ensures PercentSum(SharesOf(t, total)) == 100.0
  {
    PercentSumOf(t, total);
    DivisionCancels(100.0, total);
  }

  /** When a table's total is zero, no line has a finite percentage. */
  lemma ZeroTotalHasNoPercentages(t: Table)
    requires TableTotal(t) == 0.0
    ensures forall i :: 0 <= i < |t| ==> WithPercentages(t)[i].percent.None?
  {
  }

  predicate HasKey(s: seq<Share>, k: string)
  {
    exists i :: 0 <= i < |s| && s[i].key == k
  }

  /** The breakdown of `rows` by column `c`, as charted and listed: one line
      per distinct value of the column among the rows, in string order, each
      with the sum over exactly its rows and its percentage of the rows'
      total; the lines add up to that total. */
  function Breakdown(rows: seq<Row>, c: Column): (b: seq<Share>)
    ensures forall k :: HasKey(b, k) <==> exists r :: r in rows && Field(r, c) == k
    ensures forall i, j :: 0 <= i < j < |b| ==> Less(b[i].key, b[j].key)
    ensures forall i, j :: 0 <= i < j < |b| ==> b[i].key != b[j].key
    ensures forall i :: 0 <= i < |b| ==>
      && b[i].sum == Total(Where(rows, c, b[i].key))
      && b[i].percent == Percent(b[i].sum, Total(rows))
    ensures SumOfSums(b) == Total(rows)
  {
    BreakdownKeys(rows, c);
    BreakdownSums(rows, c);
    WithPercentages(GroupBy(rows, c))
  }

  /** The keys of the shares of a group-by are the distinct values the
      column takes among the rows, in string order. */
  lemma BreakdownKeys(rows: seq<Row>, c: Column)
    ensures var b := WithPercentages(GroupBy(rows, c));
      && (forall k :: HasKey(b, k) <==> exists r :: r in rows && Field(r, c) == k)
      && (forall i, j :: 0 <= i < j < |b| ==> Less(b[i].key, b[j].key))
      && (forall i, j :: 0 <= i < j < |b| ==> b[i].key != b[j].key)
  {
    var t := GroupBy(rows, c);
    var b := WithPercentages(t);
    GroupByEntries(rows, c);
    forall k | exists r :: r in rows && Field(r, c) == k
      ensures HasKey(b, k)
    {
      assert k in Keys(t);
      var g :| g in t && g.key == k;
      var i :| 0 <= i < |t| && t[i] == g;
      assert b[i].key == k;
    }
    forall k | HasKey(b, k)
      ensures exists r :: r in rows && Field(r, c) == k
    {
      var i :| 0 <= i < |b| && b[i].key == k;
      assert t[i] in t;
      assert k in Keys(t);
    }
    forall i, j | 0 <= i < j < |b|
      ensures Less(b[i].key, b[j].key) && b[i].key != b[j].key
    {
      LessIrreflexive(t[i].key);
    }
  }

  /** Each line of the shares of a group-by holds the sum over exactly its
      key's rows and its percentage of the rows' total, which is also the
      table's own total; the lines add up to that total. */
  lemma BreakdownSums(rows: seq<Row>, c: Column)
    ensures var b := WithPercentages(GroupBy(rows, c));
      && (forall i :: 0 <= i < |b| ==>
            && b[i].sum == Total(Where(rows, c, b[i].key))
            && b[i].percent == Percent(b[i].sum, Total(rows)))
      && SumOfSums(b) == Total(rows)
  {
    var t := GroupBy(rows, c);
    GroupByEntries(rows, c);
    SumOfSharesIsTableTotal(t, TableTotal(t));
  }

  /** The sum of the `Valor` column of a breakdown. */
  function SumOfSums(s: seq<Share>): real
    decreases |s|
  {
    if |s| == 0 then 0.0 else s[0].sum + SumOfSums(s[1..])
  }

  lemma {:induction false} SumOfSharesIsTableTotal(t: Table, total: real)
    ensures SumOfSums(SharesOf(t, total)) == TableTotal(t)
    decreases |t|
  {
    if |t| > 0 {
      assert SharesOf(t, total)[1..] == SharesOf(t[1..], total);
      SumOfSharesIsTableTotal(t[1..], total);
    }
  }
}

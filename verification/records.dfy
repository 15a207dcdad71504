/**
 The rows of the expense sheet, after loading has normalised `Data` to a
 month label and coerced `Valor` to a number (dashboard.py:28-31).
 */
module Records {

  /** A value that may be absent. */
  datatype Option<+T> = None | Some(value: T)

  /** One expense record. `value` is None where `to_numeric(errors='coerce')`
      could not parse the cell and pandas holds NaN. */
  datatype Row = Row(
    date: string,         // Data, as a month label such as "2024-03"
    hospital: string,     // Hospital
    costCenter: string,   // Centro de Custo
    category: string,     // Categoria
    subcategory: string,  // Subcategoria
    value: Option<real>   // Valor
  )

  /** The columns the dashboard filters or groups by. */
  datatype Column = Date | Hospital | CostCenter | Category | Subcategory

  /** The columns the dashboard charts: every column but the month. */
  datatype Grouping = ByCategory | BySubcategory | ByHospital | ByCostCenter

  function GroupColumn(g: Grouping): (c: Column)
    ensures c != Date
  {
    match g
    case ByCategory => Category
    case BySubcategory => Subcategory
    case ByHospital => Hospital
    case ByCostCenter => CostCenter
  }

  function Field(r: Row, c: Column): string
  {
    match c
    case Date => r.date
    case Hospital => r.hospital
    case CostCenter => r.costCenter
    case Category => r.category
    case Subcategory => r.subcategory
  }

  /** What a row contributes to a pandas `sum`: NaN is skipped, so it adds 0. */
  function Amount(r: Row): real
  {
    match r.value
    case Some(v) => v
    case None => 0.0
  }

  /** `Series.sum()` over the `Valor` column of `rows`. */
  function Total(rows: seq<Row>): real
    decreases |rows|
  {
    if |rows| == 0 then 0.0 else Amount(rows[0]) + Total(rows[1..])
  }

  /** The values of one column, in row order. */
  function ColumnValues(rows: seq<Row>, c: Column): (vs: seq<string>)
    ensures |vs| == |rows|
    ensures forall i :: 0 <= i < |rows| ==> vs[i] == Field(rows[i], c)
  {
    seq(|rows|, i requires 0 <= i < |rows| => Field(rows[i], c))
  }

  /** The sum is additive over concatenation, so it does not depend on how
      the rows are split into groups. */
  lemma {:induction false} TotalAppend(a: seq<Row>, b: seq<Row>)
    ensures Total(a + b) == Total(a) + Total(b)
    decreases |a|
  {
    if |a| > 0 {
      assert (a + b)[0] == a[0];
      assert (a + b)[1..] == a[1..] + b;
      TotalAppend(a[1..], b);
    } else {
      assert a + b == b;
    }
  }

  /** A row whose `Valor` could not be parsed leaves the sum unchanged. */
  lemma AbsentValueAddsNothing(a: seq<Row>, r: Row, b: seq<Row>)
    requires r.value.None?
    ensures Total(a + [r] + b) == Total(a + b)
  {
    TotalAppend(a + [r], b);
    TotalAppend(a, [r]);
    TotalAppend(a, b);
    assert Total([r]) == Amount(r) + Total([]);
  }
}

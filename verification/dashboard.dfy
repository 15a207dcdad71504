/**
 The `update_dashboard` callback (dashboard.py:202-341): the colour mode from
 the button's click count, the filtered subset, the four bar charts, the
 total line, the three text breakdowns and the button label.
 */
module Dashboard {
  import opened StringOrder
  import opened Records
  import opened Filtering
  import opened Aggregation
  import opened Percentages

  /** Shown in place of every text output when no row passes the filters. */
  const NoDataMessage := "Nenhum dado encontrado para os filtros selecionados."

  /** Colour-blind mode is on after an odd number of clicks. */
  function IsDaltonicMode(nClicks: nat): bool
  {
    nClicks % 2 == 1
  }

  /** A stored flag flipped once per click, starting off: the behaviour the
      parity rule must reproduce however often the callback runs. */
  function FlagAfterToggles(n: nat): bool
  {
    if n == 0 then false else !FlagAfterToggles(n - 1)
  }

  lemma {:induction false} ParityMatchesToggling(n: nat)
    ensures IsDaltonicMode(n) == FlagAfterToggles(n)
  {
    if n > 0 {
      ParityMatchesToggling(n - 1);
    }
  }

  /** `px.colors.qualitative.Plotly` or the colour-blind safe `Safe`. */
  datatype Palette = PlotlyPalette | SafePalette

  function PaletteFor(nClicks: nat): (p: Palette)
    ensures p == SafePalette <==> nClicks % 2 == 1
  {
    if IsDaltonicMode(nClicks) then SafePalette else PlotlyPalette
  }

  /** A figure output: `{}` or a bar chart of one breakdown. */
  datatype Chart = NoFigure | Bar(grouping: Grouping, bars: seq<Share>, palette: Palette)

  /** A text output: a fixed message, the total line
      ("Valor Total: R$ ..."), or one line per group. */
  datatype Display = Notice(text: string) | ValorTotal(amount: real) | Lines(lines: seq<Share>)

  /** The nine outputs of the callback, in order. */
  datatype View = View(
    categoryChart: Chart,
    subcategoryChart: Chart,
    hospitalChart: Chart,
    costCenterChart: Chart,
    total: Display,
    categoryInfo: Display,
    subcategoryInfo: Display,
    hospitalInfo: Display,
    buttonLabel: string
  )

  /** The chart output for a grouping. */
  function ChartOf(v: View, g: Grouping): Chart
  {
    match g
    case ByCategory => v.categoryChart
    case BySubcategory => v.subcategoryChart
    case ByHospital => v.hospitalChart
    case ByCostCenter => v.costCenterChart
  }

  function UpdateDashboard(rows: seq<Row>, sel: Selection, nClicks: nat): (v: View)
    ensures v.total.Notice? <==> forall r :: r in rows ==> !Passes(r, sel)
    ensures v.total.Notice? ==>
      && v.categoryChart == NoFigure && v.subcategoryChart == NoFigure
      && v.hospitalChart == NoFigure && v.costCenterChart == NoFigure
      && v.total == Notice(NoDataMessage)
      && v.categoryInfo == v.total && v.subcategoryInfo == v.total && v.hospitalInfo == v.total
    // the empty branch maps the mode to the opposite label of the normal one
    ensures v.buttonLabel == "Modo Normal" <==> (IsDaltonicMode(nClicks) != v.total.Notice?)
    ensures v.buttonLabel == "Modo Normal" || v.buttonLabel == "Modo Daltonismo"
    // "Valor Total" is the sum of `Valor` over exactly the rows that pass
    ensures !v.total.Notice? ==> v.total == ValorTotal(Total(FilterRows(rows, sel)))
    // the text breakdowns list exactly the groups their charts draw
    ensures !v.total.Notice? ==>
      && v.categoryChart.Bar? && v.categoryInfo == Lines(v.categoryChart.bars)
      && v.subcategoryChart.Bar? && v.subcategoryInfo == Lines(v.subcategoryChart.bars)
      && v.hospitalChart.Bar? && v.hospitalInfo == Lines(v.hospitalChart.bars)
      && v.costCenterChart.Bar?
  {
    var daltonic := IsDaltonicMode(nClicks);
    var filtered := FilterRows(rows, sel);
    EmptyIffNothingPasses(rows, sel);
    if filtered == [] then
      View(NoFigure, NoFigure, NoFigure, NoFigure,
           Notice(NoDataMessage), Notice(NoDataMessage), Notice(NoDataMessage), Notice(NoDataMessage),
           if daltonic then "Modo Daltonismo" else "Modo Normal")
    else
      var palette := PaletteFor(nClicks);
      var category := Breakdown(filtered, Category);
      var subcategory := Breakdown(filtered, Subcategory);
      var hospital := Breakdown(filtered, Hospital);
      var costCenter := Breakdown(filtered, CostCenter);
      View(Bar(ByCategory, category, palette), Bar(BySubcategory, subcategory, palette),
           Bar(ByHospital, hospital, palette), Bar(ByCostCenter, costCenter, palette),
           ValorTotal(Total(filtered)), Lines(category), Lines(subcategory), Lines(hospital),
           if daltonic then "Modo Normal" else "Modo Daltonismo")
  }

  /** The breakdown of the passing rows by a column lists exactly the values
      the passing rows of the sheet take in that column. */
  lemma PassingKeys(rows: seq<Row>, sel: Selection, c: Column)
    ensures forall k :: HasKey(Breakdown(FilterRows(rows, sel), c), k) <==>
      exists r :: r in rows && Passes(r, sel) && Field(r, c) == k
  {
    var filtered := FilterRows(rows, sel);
    var bars := Breakdown(filtered, c);
    forall k
      ensures HasKey(bars, k) <==> exists r :: r in rows && Passes(r, sel) && Field(r, c) == k
    {
      if HasKey(bars, k) {
        var r :| r in filtered && Field(r, c) == k;
        FilterMembership(rows, sel, r);
      }
      if exists r :: r in rows && Passes(r, sel) && Field(r, c) == k {
        var r :| r in rows && Passes(r, sel) && Field(r, c) == k;
        FilterMembership(rows, sel, r);
      }
    }
  }

  /** On the non-empty path, each chart draws the breakdown of the passing
      rows by its column. */
  lemma ChartDrawsBreakdown(rows: seq<Row>, sel: Selection, nClicks: nat, g: Grouping)
    requires exists r :: r in rows && Passes(r, sel)
    ensures ChartOf(UpdateDashboard(rows, sel, nClicks), g) ==
      Bar(g, Breakdown(FilterRows(rows, sel), GroupColumn(g)), PaletteFor(nClicks))
    ensures UpdateDashboard(rows, sel, nClicks).total == ValorTotal(Total(FilterRows(rows, sel)))
  {
    EmptyIffNothingPasses(rows, sel);
  }

  /** The bars of each chart: one per value of the column among the rows
      that pass, in string order, no value twice, each the sum of `Valor` over exactly the
      passing rows with that value, together adding up to the total line,
      drawn in the palette of the current mode. */
  lemma ChartFaithful(rows: seq<Row>, sel: Selection, nClicks: nat, g: Grouping)
    requires exists r :: r in rows && Passes(r, sel)
    ensures ChartOf(UpdateDashboard(rows, sel, nClicks), g).Bar?
    ensures UpdateDashboard(rows, sel, nClicks).total.ValorTotal?
    ensures var bars := ChartOf(UpdateDashboard(rows, sel, nClicks), g).bars;
      && (forall k :: HasKey(bars, k) <==> exists r :: r in rows && Passes(r, sel) && Field(r, GroupColumn(g)) == k)
      && (forall i, j :: 0 <= i < j < |bars| ==> Less(bars[i].key, bars[j].key))
      && (forall i, j :: 0 <= i < j < |bars| ==> bars[i].key != bars[j].key)
      && (forall i :: 0 <= i < |bars| ==>
            bars[i].sum == Total(Where(FilterRows(rows, sel), GroupColumn(g), bars[i].key)))
    ensures SumOfSums(ChartOf(UpdateDashboard(rows, sel, nClicks), g).bars) == UpdateDashboard(rows, sel, nClicks).total.amount
    ensures ChartOf(UpdateDashboard(rows, sel, nClicks), g).palette == (if nClicks % 2 == 1 then SafePalette else PlotlyPalette)
  {
    var c := GroupColumn(g);
    var filtered := FilterRows(rows, sel);
    ChartDrawsBreakdown(rows, sel, nClicks, g);
    PassingKeys(rows, sel, c);
  }

  /** Each bar's percentage is taken of the total line's amount, so when that
      amount is not zero every chart's percentages add up to 100. */
  lemma ChartPercentages(rows: seq<Row>, sel: Selection, nClicks: nat, g: Grouping)
    requires exists r :: r in rows && Passes(r, sel)
    ensures ChartOf(UpdateDashboard(rows, sel, nClicks), g).Bar?
    ensures var bars := ChartOf(UpdateDashboard(rows, sel, nClicks), g).bars;
      var amount := UpdateDashboard(rows, sel, nClicks).total.amount;
      && (forall i :: 0 <= i < |bars| ==> bars[i].percent == Percent(bars[i].sum, amount))
      && (amount != 0.0 ==> PercentSum(bars) == 100.0)
  {
    var c := GroupColumn(g);
    var filtered := FilterRows(rows, sel);
    EmptyIffNothingPasses(rows, sel);
    if Total(filtered) != 0.0 {
      PercentagesSumToHundred(GroupBy(filtered, c));
    }
  }
}

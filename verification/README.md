# Apura-SUS dashboard: filter-and-aggregate core

A Dafny model of the computational core of `dashboard.py`, a Dash dashboard of
hospital expenses. The core is the filter shared by the dashboard and the PDF
export, the four `groupby("…")["Valor"].sum()` tables with their `Percentual`
column, the "no data" branch, the colour-mode rule driven by the button's click
count, the "Selecionar Todos" rule for cost centers, and the ordered content of
the exported PDF.

Modules, one per component:

- `Records` (`records.dfy`): one row of the sheet, the five columns, and the
  four of them the dashboard groups by (all but the month). `Valor` is `Option<real>`.
  `None` stands for a cell that `to_numeric(errors='coerce')` turned into NaN.
  `Total` is pandas' `sum`, where NaN adds nothing.
- `StringOrder` (`string_order.dfy`): Python's code-point order on `str`. pandas
  uses it to sort group keys.
- `Filtering` (`filtering.dfy`): the `isin` mask over the four dropdowns,
  written once. The dashboard callback and the export both use it.
- `FilterState` (`filter_state.dfy`): `unique()`, the dropdown options, the initial
  one-element selections and the select-all callback.
- `Aggregation` (`aggregation.dfy`): group-by-sum as a key-sorted table. Rows are
  inserted one at a time. The result is checked against a reference sum over
  each key's rows.
- `Percentages` (`percentages.dfy`): `100 * sum / table total`. This is `None`
  where pandas would produce NaN or infinity because the total is zero.
- `Dashboard` (`dashboard.dfy`): the nine outputs of `update_dashboard`.
- `Report` (`report.dfy`): the items `generate_pdf` draws, in order.
- `WorkedExample` (`worked_example.dfy`): two rows, one per category, run through
  the dashboard callback.

Behaviour kept exactly as the code has it:

- An empty selection in any dimension matches nothing.
- Group tables come out sorted by key, because `groupby` sorts by default.
- Each table's percentages use that table's own total. Because every row has a
  string key, that total equals the `Valor Total` amount, and this is proved.
- The empty branch returns `{}` for the four figures and the same message for
  the four text outputs.
- The empty branch maps the colour mode to the opposite button label from the
  normal branch. Both mappings are modelled as written. So, for the same click
  count, the label changes when the filters stop matching any row.
- The export has no empty-subset branch. It keeps its three headings and lists
  no lines under them.

- The export prints each group's percentage next to its sum. It has no summary
  of the selected filters and no Subcategoria section.
- The palette is one of two choices: `Plotly` or `Safe`.

## Model

| member | source | states |
|---|---|---|
| Records.Total | dashboard.py:226 | Definition: the `Valor` sum of a list of rows, where an absent value counts as zero. Its partners are `TotalAppend` and `AbsentValueAddsNothing`. |
| Records.TotalAppend | dashboard.py:226 | The `Valor` sum of two concatenated row lists is the sum of their sums, so no grouping of rows changes the total. |
| Records.AbsentValueAddsNothing | dashboard.py:31 | A row whose `Valor` was coerced to NaN leaves the sum unchanged: absent values count as zero. |
| Filtering.Passes | dashboard.py:214-219 | Definition: a row passes when its month, hospital, cost center and category are each in the selected list. The export applies the same mask at dashboard.py:363-368. |
| Filtering.FilterRows | dashboard.py:214-219 | The filtered subset keeps only rows whose month, hospital, cost center and category are all selected. Every row that passes keeps its multiplicity, and its length never exceeds the input's. |
| Filtering.FilterKeepsOrder | dashboard.py:214-219 | The filtered subset is a subsequence of the sheet: the rows that pass keep their original order. |
| Filtering.FilterMembership | dashboard.py:214-219 | A row is in the filtered subset if and only if it is in the sheet and all four of its dimension values are among the selected lists. |
| Filtering.EmptyIffNothingPasses | dashboard.py:214-222 | The subset is empty exactly when no row of the sheet passes the filters, which is the condition of the "no data" branch. |
| Filtering.EmptySelectionMatchesNothing | dashboard.py:214-219 | An empty selection in any one of the four dimensions empties the subset. |
| FilterState.FirstIndex | dashboard.py:349 | The first-occurrence position of a value holds that value, and no earlier position does. |
| FilterState.FirstIndexPrefix | dashboard.py:349 | Appending to a list does not move the first occurrence of a value already in it. |
| FilterState.Unique | dashboard.py:349 | `unique()` has the same values as its input, each once, in order of first appearance. Its first element is the input's first element. |
| FilterState.UniqueOfDistinct | dashboard.py:349 | A list without repeats is its own `unique()`. |
| FilterState.Domain | dashboard.py:109 | A dropdown's options are the distinct values the column takes in the sheet, in first-seen order. The first option is the first row's value. |
| FilterState.InitialSelection | dashboard.py:95-133 | Each dropdown starts with a one-element list holding the first row's value for that column. An empty sheet has no initial state, because `unique()[0]` fails there. |
| FilterState.InitialSelectionKeepsFirstRow | dashboard.py:95-133 | The initial selections let the first row through, so the first render is not the "no data" state. |
| FilterState.SelectAllCostCenters | dashboard.py:347-350 | At 0 clicks the selection is unchanged (`no_update`). Otherwise the cost-center list becomes exactly the distinct cost centers, without repeats, in order of first appearance in the column. The other three lists are never touched. |
| FilterState.SelectAllIdempotent | dashboard.py:347-350 | Running the callback again, with any click count, after a non-zero click leaves the selection as the first run set it. |
| FilterState.SelectAllLiftsCostCenterFilter | dashboard.py:347-350 | After select-all, a row of the sheet passes if and only if its month, hospital and category are selected. The cost-center filter excludes nothing. |
| Aggregation.Insert | dashboard.py:229 | Adding one row's amount under its key keeps the table sorted. It adds the key to the key set and raises only that key's sum, by the amount. The table total grows by the same amount. |
| Aggregation.Where | dashboard.py:229 | The rows of one group are exactly the rows carrying that key, with their multiplicities. |
| Aggregation.GroupBy | dashboard.py:229 | The table is sorted by key. Its keys are exactly the column's values among the rows. Each key's sum is the `Valor` sum over that key's rows. The table total equals the rows' total. |
| Aggregation.GroupByEntries | dashboard.py:229 | Every line of the table holds the sum over exactly its key's rows. A value is a key if and only if some row carries it. |
| Percentages.Percent | dashboard.py:230 | A percentage exists exactly when the table total is non-zero. It is the value p with p × total = 100 × sum. |
| Percentages.SharesOf | dashboard.py:230 | Each line keeps its key and sum and gets its percentage of the given total. |
| Percentages.WithPercentages | dashboard.py:230 | Definition: a table with its `Percentual` column, each line's percentage taken of that same table's total. Its partners are `PercentagesSumToHundred` and `ZeroTotalHasNoPercentages`. |
| Percentages.PercentagesSumToHundred | dashboard.py:230 | When a table's own total is non-zero, every line has a percentage and the percentages add up to exactly 100. |
| Percentages.ZeroTotalHasNoPercentages | dashboard.py:230 | When a table's total is zero, no line has a finite percentage, because the source divides without a guard. |
| Percentages.Breakdown | dashboard.py:229-230 | The breakdown behind each chart, info list and PDF section (also dashboard.py:393-394). It has one line per distinct value of the column among the rows, in string order, no value twice. Each line holds the sum over exactly its key's rows and its percentage of the rows' total. The lines add up to that total. |
| Percentages.BreakdownKeys | dashboard.py:229-230 | The shares of a group-by list each distinct value of the column among the rows exactly once, in string order, and nothing else. This proves the key clauses of `Breakdown`. |
| Percentages.BreakdownSums | dashboard.py:229-230 | Each line of the shares of a group-by holds its key's sum and its percentage of the rows' total. The lines add up to that total. This proves the sum clauses of `Breakdown`. |
| Dashboard.IsDaltonicMode | dashboard.py:204 | Definition: colour-blind mode is on after an odd number of clicks. Its partner is `ParityMatchesToggling`. |
| Dashboard.ParityMatchesToggling | dashboard.py:204 | Colour-blind mode after n clicks, taken from parity, equals a stored flag that starts off and flips once per click. |
| Dashboard.PaletteFor | dashboard.py:207-211 | The safe palette is used exactly when the click count is odd. |
| Dashboard.UpdateDashboard | dashboard.py:202-341 | The outputs are the "no data" ones exactly when no row passes. Then the four figures are `{}` and the total and three info outputs are all the fixed message. The label is "Modo Normal" when colour-blind mode is on and rows pass, or when it is off and none pass; otherwise it is "Modo Daltonismo". Otherwise the total line holds the `Valor` sum over exactly the rows that pass, and every info output lists the same lines its chart draws. |
| Dashboard.PassingKeys | dashboard.py:214-232 | Grouping the passing rows by a column yields a key exactly when some row of the sheet passes all four filters and has that value in the column. |
| Dashboard.ChartFaithful | dashboard.py:226-318 | On the non-empty path, each of the four charts has one bar per value of its column among the passing rows, in string order, no value twice. Each bar's sum is the `Valor` sum over exactly the passing rows with that value. The bar sums add up to the `Valor Total` amount, and the palette follows click parity. |
| Dashboard.ChartPercentages | dashboard.py:226-299 | Each bar's percentage is taken of the total, not of another table's total. When that total is non-zero, each chart's percentages add up to 100. |
| Report.Body | dashboard.py:395-396 | The lines of a section are one entry per group of the breakdown, in the breakdown's order. |
| Report.Section | dashboard.py:389-397 | A section is its heading first, followed directly by one entry per group of the breakdown, in order. |
| Report.HeadingsAppend | dashboard.py:389-417 | The headings of a concatenated document are those of its parts, in order. |
| Report.EntriesAppend | dashboard.py:389-417 | The group lines of a concatenated document are those of its parts, in order. |
| Report.LayoutContents | dashboard.py:379-417 | After the logo and titles, the page has exactly the headings Categoria, Hospital and Centro de Custo, in that order. Its lines are the three given breakdowns in that order. |
| Report.GeneratePdf | dashboard.py:361-417 | Read heading by heading, the export has three sections: Categoria, Hospital and Centro de Custo, in that order. Each holds exactly the breakdown of the filtered rows by that column. With no row passing, it does not fail: it is the logo, the two titles and the three headings with no lines. |
| Report.PdfStructure | dashboard.py:389-417 | The export has the three sections in the order Categoria, Hospital, Centro de Custo and none for Subcategoria. Its lines are the three breakdowns of the filtered rows. |
| Report.SkipNonHeadings | dashboard.py:376-417 | Logo, title and line items open no section, so they leave the document's sections unchanged. |
| Report.LeadingEntriesOfBody | dashboard.py:389-417 | All lines of a section's body belong to the heading before it, ahead of whatever follows. |
| Report.SectionThenRest | dashboard.py:389-417 | A section followed by the next heading, or by the end, reads back as its heading paired with exactly its own lines. |
| Report.LayoutSections | dashboard.py:379-417 | Read heading by heading, the page has three sections: Categoria, Hospital, Centro de Custo. Each holds exactly the lines of the breakdown it names. |
| Report.PdfAgreesWithDashboard | dashboard.py:363-368 | The export filters with the same predicate as the dashboard. When rows pass, its lines are the dashboard's category lines, then its hospital lines, then its cost-center bars. |
| WorkedExample.TwoCategories | dashboard.py:222-230 | Two rows of 100 (Supplies) and 300 (Staff) that are both selected give a total of 400. The categories are listed Staff then Supplies, at 75% and 25%, and at 0 clicks the label is "Modo Daltonismo". |

## Left out

- Data loading (dashboard.py:16-31) is not modelled. This covers the file-extension dispatch, `read_csv` and `read_excel`, the month conversion by `to_datetime(...).to_period('M')`, and `to_numeric`. Rows arrive already normalised, with `Valor` as a present or absent number.
- Every text cell is taken as a string. Blank cells are not modelled: pandas reads them as NaN and `groupby` drops rows whose key is NaN. The proofs that every table's total equals `Valor Total` rely on this.
- The Dash layout, the Flask server, the startup `print` and `app.run` (dashboard.py:11-13, 34, 37-183, 428-431) are markup, I/O and network plumbing.
- Plotly figure construction (dashboard.py:231-318) is a library call. Only the chart's column, its bars and the palette choice are kept. Colour values, styling and `texttemplate` rendering are not.
- FPDF drawing (dashboard.py:371-426) is not modelled: fonts, cell sizes, alignment, `ln` spacing, the image file, `output().encode('latin1')` and `send_bytes`. The document is the ordered list of logo, title, heading and line items.
- Floating-point arithmetic is not modelled. Sums and percentages are exact reals, so IEEE rounding is out. Division by a zero total is one absent percentage, and NaN is not told apart from ±infinity.
- The `:,.2f` and `.2f` formatting is not modelled. This covers the `Valor Total: R$ …` text, the `label: R$ sum (p%)` lines and the bar labels. Displays carry the key, the sum and the percentage instead of the formatted string.
- Dash's callback dispatch is not modelled: `prevent_initial_call`, the download button's click count (which only triggers the export), and the single global frame shared by all browser sessions. Callbacks are modelled as pure functions of the sheet, the selections and the click counts.

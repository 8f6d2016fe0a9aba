# Replenishment order calculator — verified model

`PedidosPrueba1.py` is a small Streamlit page. A user pastes a
whitespace-separated stock table, one row per branch (*sucursal*), and the
page computes how many units to order for each active branch. It also shows
the net total still to order once the stock held in the three warehouses
(*bodegas*) is taken off, and a colour-coded view of warehouse stock. This
project models the computation core of that script in Dafny and proves
properties of it:

- **Parsing** (`TableParser`). The pasted text becomes a header and rows of
  fields, split on runs of spaces and tabs. Blank lines are skipped. A row
  whose width differs from the header is an error.
- **Normalisation** (`Normalizer`). This covers:
  - cleaning header names (strip, then remove dots);
  - finding the branch column (the first name starting with `suc`, in any
    case);
  - zero-padding branch codes to four characters;
  - coercing every other column to integers (the cell is cut at the first
    `/` or `|`, an empty result counts as `0`, then `int()` is applied);
  - keeping the raw stock in `Exi_raw` and clipping `Exi` at 0;
  - checking the eight required columns.

  The in-place rewriting of the data frame is the class `Frame`, driven by
  `NormalizeTable`. The value-level functions (`Normalize` and its stages)
  are the specification that each of its methods is proved against.
- **Demand** (`Demand`). This covers:
  - the set of active branches (`0001`..`0027` without `0010` and `0020`);
  - the three masks that pick a `Prom` regime;
  - the order quantity `Pedido`.

  The column writes on `df_act` are the class `ActiveFrame`, driven by
  `OrderQuantities`. `Prom` takes quarter values only: 1, a mean of four
  integers, or an integer. So the model keeps `4·Prom` as an integer, and
  numpy's rounding (half to even) becomes exact integer arithmetic. A
  separate definition over the reals, with `ceil` and round-half-even, is
  proved equal to the quarter model.
- **Report** (`Report`). This covers:
  - the order lines with `Pedido > 0`;
  - the clipped warehouse stock `stock_wh`;
  - `total_net = max(0, Σ Pedido − stock_wh)`;
  - the warehouse view, with each raw stock classified as positive, zero or
    negative (the colour choice, without the HTML);
  - the whole pipeline from pasted text to report (`ReportOf`), with
    `ComputeOrderReport` proved equal to it.

`Outcomes` holds the error kinds and `Result`/`Option`. `Numerals` holds
decimal rendering and parsing of integers, i.e. `str(int)` and `int(str)`.

The model follows the script even where one might expect otherwise:

- Coerced values keep their sign. Only `Exi` is clipped, so `V30D`, `VF` or
  the period sums may be negative, and a negative `VF` falls in no mask
  (its `Prom` stays 0).
- A table without a `suc…` column fails with the error
  `MissingColumn("suc*")`. The script itself raises an `IndexError` at
  line 52.
- A table without `Exi` fails at line 65, before the required-column loop.
  It gives `MissingColumn("Exi")` even when a column earlier in the
  required list is also missing.
- Names are stripped before dots are removed, so a name made of a dot, a
  vertical tab and `A` cleans to the vertical tab followed by `A`.

## Model

| member | source | states |
|---|---|---|
| Numerals.ParseInt | PedidosPrueba1.py:61 | `int()` on a decimal string: success exactly on digits, or on `+` or `-` followed by digits; the value is the digits' value, negated after `-` |
| Numerals.ParseShowInt | PedidosPrueba1.py:57-61 | parsing the decimal rendering of any integer gives that integer back, so `astype(str)` then `astype(int)` keeps numeric cells |
| Numerals.DigitsValueOfShowNat | PedidosPrueba1.py:53 | the digits written for a natural number have that number as their value |
| Numerals.DigitsValueLeadingZeros | PedidosPrueba1.py:53 | leading zeros do not change a digit string's value |
| TableParser.ParseTable | PedidosPrueba1.py:45 | the first line with fields is the header and the later ones the rows; success exactly when every row has the header's width, giving a non-empty header of non-empty separator-free names; empty input exactly when no line has a field; otherwise the first row whose width differs, reported with its position, the header's width and its own width |
| TableParser.ParseTableEmptyInput | PedidosPrueba1.py:39-45 | the empty-input error arises only for text made entirely of whitespace |
| TableParser.NonBlankHasHeader | PedidosPrueba1.py:39-45 | text that is not blank always yields a header line |
| TableParser.RunsAreTokens | PedidosPrueba1.py:45 | every field produced by the splitter is non-empty and contains no separator |
| TableParser.RunCharsOccur | PedidosPrueba1.py:45 | every character of every field occurs in the input line |
| TableParser.RunIsSlice | PedidosPrueba1.py:45 | every field is a contiguous slice of the input line |
| TableParser.RunsCoverAt | PedidosPrueba1.py:45 | every non-separator position of a line lies inside a field that is the slice of the line around it, so splitting loses no character |
| TableParser.RunsOfJoin | PedidosPrueba1.py:45 | splitting fields joined by one separator gives the same fields back |
| TableParser.ParseRender | PedidosPrueba1.py:45 | round trip: any well-formed table of separator-free fields, written out with spaces and newlines, parses back to itself |
| Normalizer.StripLeft | PedidosPrueba1.py:49 | the result is a suffix of the input, only whitespace was removed, and it does not start with whitespace |
| Normalizer.StripRight | PedidosPrueba1.py:49 | the result is a prefix of the input, only whitespace was removed, and it does not end with whitespace |
| Normalizer.Strip | PedidosPrueba1.py:49 | the result neither starts nor ends with whitespace |
| Normalizer.StripPadded | PedidosPrueba1.py:49 | the input is the stripped name at some offset with only whitespace before and after it |
| Normalizer.RemoveDots | PedidosPrueba1.py:49 | the result contains no `.` and a name without dots is unchanged |
| Normalizer.RemoveDotsAppend | PedidosPrueba1.py:49 | dot removal on a concatenation is the concatenation of the two removals, so the other characters stay in order |
| Normalizer.RemoveDotsChar | PedidosPrueba1.py:49 | a single `.` is removed and any other character is kept |
| Normalizer.CleanName | PedidosPrueba1.py:49 | a cleaned column name (stripped, then every dot deleted) contains no dot |
| Normalizer.CleanNameExample | PedidosPrueba1.py:49 | `V30D.` cleans to `V30D` |
| Normalizer.CleanNameShape | PedidosPrueba1.py:49 | a cleaned name has no dot, and a name without dots is only stripped |
| Normalizer.BranchColumn | PedidosPrueba1.py:52 | the first column whose name starts with `suc` in any case; none exactly when no name does |
| Normalizer.ZFill4 | PedidosPrueba1.py:53 | width at least 4; long codes unchanged; short codes left-padded with zeros after any sign |
| Normalizer.ZFillKeepsValue | PedidosPrueba1.py:53 | padding a numeric code keeps its integer value |
| Normalizer.ZFillIdempotent | PedidosPrueba1.py:53 | padding twice is padding once |
| Normalizer.CutAtSeparator | PedidosPrueba1.py:59 | the longest prefix without `/` or `\|`, and the next character, if any, is one of them |
| Normalizer.ParseCell | PedidosPrueba1.py:57-61 | with `t` the part before the first `/` or `\|`: an empty `t` reads as 0; otherwise the cell parses exactly when `t` is digits, optionally after one sign, and a digit string reads as its value |
| Normalizer.ParseCellIgnoresSuffix | PedidosPrueba1.py:57-61 | a number followed by `/` or `\|` and anything reads as that number; a bare number reads as itself |
| Normalizer.ParseCellEmpty | PedidosPrueba1.py:60 | an empty cell, or one starting with a separator, reads as 0 |
| Normalizer.ParseCellExamples | PedidosPrueba1.py:57-61 | `12/bo` reads as 12 and `7\|x` as 7 |
| Normalizer.ParseCellRejects | PedidosPrueba1.py:61 | a non-digit before any separator (other than a leading sign) makes the cell unparseable |
| Normalizer.ParseCellRejectsAbc | PedidosPrueba1.py:61 | `abc` is unparseable |
| Normalizer.FirstNone | PedidosPrueba1.py:61 | the first cell that does not parse; none exactly when all parse |
| Normalizer.ClipColumn | PedidosPrueba1.py:66 | `clip(lower=0)`: same length, every value at least 0, non-negative values kept and negative ones replaced by 0 |
| Normalizer.IndexOf | PedidosPrueba1.py:65 | the first position of a column name; none exactly when the name is absent |
| Normalizer.FirstBadColumn | PedidosPrueba1.py:54-62 | the first non-branch column with an unparseable cell; none exactly when all parse |
| Normalizer.Coerced | PedidosPrueba1.py:54-62 | on success the branch column is untouched, every other column is numeric and keeps its length; failure is an invalid-cell error |
| Normalizer.CoercedFailsAt | PedidosPrueba1.py:54-62 | coercion fails at the first column, in column order, that holds an unparseable cell |
| Normalizer.CoercedWhenAllParse | PedidosPrueba1.py:54-62 | when every non-branch column parses, coercion gives each column's numeric version |
| Normalizer.CoercedCell | PedidosPrueba1.py:57-61 | each coerced cell is the number parsed from the raw text at the same row and column |
| Normalizer.WithRawStock | PedidosPrueba1.py:65-66 | fails exactly when `Exi` is absent, with `MissingColumn("Exi")`; otherwise adds `Exi_raw`, keeps the branch column and numeric columns |
| Normalizer.RawStockColumns | PedidosPrueba1.py:65-66 | `Exi_raw` holds the old `Exi`, `Exi` holds its clip at 0, and every other column is unchanged |
| Normalizer.RawStockNames | PedidosPrueba1.py:65 | the only name the step can add is `Exi_raw` |
| Normalizer.FirstMissing | PedidosPrueba1.py:69-72 | the first required name absent from the columns; none exactly when all are present |
| Normalizer.FirstMissingNone | PedidosPrueba1.py:69 | no required name is missing exactly when all eight of `V30D V60D Exi VF 1T 2T 3T 4T` are present |
| Normalizer.Normalize | PedidosPrueba1.py:49-72 | one record per row; the branch error arises exactly when no column starts with `suc`; every other failure is a missing column or an invalid cell |
| Normalizer.NormalizeOkExactly | PedidosPrueba1.py:49-72 | a run succeeds exactly when there is a `suc` column, every other column parses and all eight required columns are present; an unparseable cell gives an invalid-cell error, and a missing required column gives a missing-column error naming an absent column |
| Normalizer.NormalizeSteps | PedidosPrueba1.py:49-72 | a successful run has a branch column, coerces, adds `Exi_raw`, passes the required check and yields the records built from the final columns |
| Normalizer.NormalizeStages | PedidosPrueba1.py:49-72 | a successful run yields the stage results from which the records are read |
| Normalizer.NormalizeNeedsColumns | PedidosPrueba1.py:52-72 | a successful run implies a `suc` column and all eight required columns among the cleaned names |
| Normalizer.ReadRow | PedidosPrueba1.py:49-66 | the independent reading of one raw row: the padded branch cell as id, each required field parsed from the cell under its cleaned name, `Exi_raw` as parsed and `Exi` clipped at 0; the partner of `NormalizeReadsRows` |
| Normalizer.IdReadsRow | PedidosPrueba1.py:53 | each record's branch id is the zero-padded raw branch cell of its row |
| Normalizer.FieldReadsRow | PedidosPrueba1.py:54-62 | each numeric field of a record is the number parsed from its row's cell under that cleaned name |
| Normalizer.DemandReadsRow | PedidosPrueba1.py:54-62 | `V30D`, `V60D` and `VF` of each record come from the row's own cells |
| Normalizer.PeriodsReadRow | PedidosPrueba1.py:54-62 | `1T`..`4T` of each record come from the row's own cells |
| Normalizer.StockReadsRow | PedidosPrueba1.py:65-66 | `Exi_raw` is the parsed raw stock cell and `Exi` is its clip at 0 |
| Normalizer.NormalizeReadsRows | PedidosPrueba1.py:49-66 | record i is exactly what reading row i of the raw table field by field gives |
| Normalizer.NormalizeClipsStock | PedidosPrueba1.py:65-66 | every record's `Exi` is its `Exi_raw` clipped at 0 |
| Normalizer.Frame.constructor | PedidosPrueba1.py:45 | the frame holds the parsed header and the table's columns |
| Normalizer.Frame.CleanHeader | PedidosPrueba1.py:49 | every column name is cleaned and the columns are untouched |
| Normalizer.Frame.PadBranch | PedidosPrueba1.py:53 | only the branch column changes, each cell zero-padded |
| Normalizer.Frame.CoerceNumeric | PedidosPrueba1.py:54-62 | the loop computes the coerced columns; otherwise it stops with the error of the first bad column, leaving the columns before that one converted |
| Normalizer.Frame.KeepRawStock | PedidosPrueba1.py:65-66 | the frame becomes the raw-stock split, or it reports the missing `Exi` and leaves the frame unchanged |
| Normalizer.Frame.CheckColumns | PedidosPrueba1.py:69-72 | no error exactly when all required columns are present; otherwise, the first missing one in list order |
| Normalizer.NormalizeTable | PedidosPrueba1.py:45-72 | driving the frame through its steps gives exactly the value-level normalisation |
| Demand.Pad4Shape | PedidosPrueba1.py:75 | `f"{i:04d}"` for i below 100 has four digits with value i |
| Demand.Pad4Exactly | PedidosPrueba1.py:75 | a string is the padded form of i exactly when it has four digits with value i |
| Demand.ActiveIds | PedidosPrueba1.py:75 | `[f"{i:04d}" for i in range(1,28) if i not in (10,20)]`, characterised by `ActiveIdsExactly` and `ActiveIdsCount` |
| Demand.IsActive | PedidosPrueba1.py:77 | membership in the active list, the `isin(active)` test |
| Demand.IsWarehouse | PedidosPrueba1.py:76 | membership in `0100 0105 0106`, the `isin(warehouses)` test of line 109 |
| Demand.ActiveIdsExactly | PedidosPrueba1.py:75 | an id is active exactly when it has four digits with a value in 1..27 other than 10 and 20 |
| Demand.ActiveIdsCount | PedidosPrueba1.py:75 | there are 25 active ids |
| Demand.ExcludedIdsNotActive | PedidosPrueba1.py:75-76 | the warehouses `0100 0105 0106` and the ids `0010 0020` are not active |
| Demand.ActiveRows | PedidosPrueba1.py:77 | the kept records are exactly the input records with an active id, each as many times as in the input |
| Demand.ActiveRowsAppend | PedidosPrueba1.py:77 | filtering a concatenation concatenates the filters, so kept records stay in input order |
| Demand.ActiveRowsOne | PedidosPrueba1.py:77 | a single record is kept exactly when its id is active |
| Demand.NoHistory | PedidosPrueba1.py:80 | `VF > 0` and the four periods sum to 0 |
| Demand.WithHistory | PedidosPrueba1.py:81 | `VF > 0` and not the no-history case |
| Demand.NoForecast | PedidosPrueba1.py:82 | `VF == 0` |
| Demand.MasksPartition | PedidosPrueba1.py:80-82 | the three masks are pairwise disjoint and cover exactly the records with `VF ≥ 0` |
| Demand.CeilHalf | PedidosPrueba1.py:96 | the least integer c with x ≤ 2c |
| Demand.PromQuarters | PedidosPrueba1.py:85-98 | `4·Prom` is 4 with no history, `max(4, ΣT)` with history, `4·ceil((V30D+V60D)/2)·days` with no forecast, and 0 for negative `VF` |
| Demand.RoundQuarters | PedidosPrueba1.py:101 | a nearest integer to q/4, with ties going to the even neighbour |
| Demand.Pedido | PedidosPrueba1.py:101 | zero when `Prom ≤ Exi`, otherwise a nearest integer to `Prom − Exi`, with ties even |
| Demand.ScenarioNoForecast | PedidosPrueba1.py:95-101 | 10 and 11 sold, no forecast, 3 days, 5 in stock: Prom 33 and an order of 28 |
| Demand.ScenarioWithHistory | PedidosPrueba1.py:91-101 | periods 2 3 1 0: Prom 1.5, ordering 2 when the stock is 0 and 0 when it is 1 |
| Demand.ScenarioNoHistory | PedidosPrueba1.py:88-101 | with Prom 1 the order is 1 on an empty shelf and 0 otherwise |
| Demand.CeilReal | PedidosPrueba1.py:96 | `np.ceil`: the least integer not below x |
| Demand.RoundHalfEven | PedidosPrueba1.py:101 | `round`: the floor of x or the next integer, within one half of x, and even when x lies exactly halfway |
| Demand.PromReal | PedidosPrueba1.py:85-98 | the real-valued `Prom`: 0, then 1 on the no-history mask, the mean of the periods but at least 1 on the with-history mask, and `ceil((V30D+V60D)/2)·days` on the no-forecast mask |
| Demand.PedidoReal | PedidosPrueba1.py:101 | the real-valued `Pedido`: `round(clip(Prom − Exi, 0))`, never negative |
| Demand.CeilHalfIsCeil | PedidosPrueba1.py:96 | the integer half-ceiling equals the real `ceil(x / 2)` |
| Demand.RoundQuartersIsRound | PedidosPrueba1.py:101 | rounding in quarters equals real round-half-even of q/4 |
| Demand.PromMatchesReal | PedidosPrueba1.py:85-98 | the quarter model of `Prom` is four times the real-valued `Prom` |
| Demand.PedidoMatchesReal | PedidosPrueba1.py:101 | the quarter model of `Pedido` equals the real-valued one |
| Demand.ActiveFrame.constructor | PedidosPrueba1.py:77-85 | the frame holds the active records, each `Prom` is 0, and there is no `Pedido` column yet |
| Demand.ActiveFrame.MarkNoHistory | PedidosPrueba1.py:88 | rows in the no-history mask get `Prom` 1; other rows are unchanged |
| Demand.ActiveFrame.MarkWithHistory | PedidosPrueba1.py:91-92 | rows in the with-history mask get the mean of their periods, at least 1; other rows are unchanged |
| Demand.ActiveFrame.MarkNoForecast | PedidosPrueba1.py:95-98 | rows in the no-forecast mask get `ceil((V30D+V60D)/2)·days`; other rows are unchanged |
| Demand.ActiveFrame.ComputePedido | PedidosPrueba1.py:101 | the `Pedido` column is `Pedido(Prom, Exi)` row by row, and `Prom` is unchanged |
| Demand.MarksComposeToProm | PedidosPrueba1.py:85-98 | the three mask writes in source order, starting from 0, give `PromQuarters` on every row |
| Demand.PedidoOf | PedidosPrueba1.py:101 | one row's order from its quarter `Prom` and `Exi`, equal to `PedidoReal` by `PedidoMatchesReal` |
| Demand.PedidosOf | PedidosPrueba1.py:101 | one order per row, non-negative and equal to the real-valued reading `round(max(0, Prom − Exi))` of that row |
| Demand.OrderQuantities | PedidosPrueba1.py:77-101 | the frame's rows are the active records and its `Pedido` column is their order quantities |
| Report.Requested | PedidosPrueba1.py:102-106 | every row with a positive order is listed with its branch and quantity, and every listed line is such a row's |
| Report.RequestedAppend | PedidosPrueba1.py:102-106 | selecting from concatenated rows concatenates the selections, so lines keep the row order |
| Report.RequestedOne | PedidosPrueba1.py:102-106 | a single row is listed exactly when its order is positive |
| Report.RequestedIsOrdersOf | PedidosPrueba1.py:102-106 | the listed orders equal the direct definition: active records with a positive `Pedido`, in input order |
| Report.OrdersAreActive | PedidosPrueba1.py:75-106 | every order line is for an active branch, never a warehouse, `0010` or `0020`, and has a positive quantity |
| Report.TotalNet | PedidosPrueba1.py:110 | the net total is non-negative, at least ordered minus stock, and either 0 or exactly that difference |
| Report.OrderSumIsLineSum | PedidosPrueba1.py:110 | the sum of the `Pedido` column equals the sum of the listed quantities, since zero orders add nothing |
| Report.StockWh | PedidosPrueba1.py:109 | the sum of `Exi` over the records whose id is a warehouse |
| Report.StockWhNonNegative | PedidosPrueba1.py:109 | warehouse stock summed from clipped `Exi` is never negative |
| Report.SignOf | PedidosPrueba1.py:134 | positive, negative or zero exactly as the raw stock is above, below or equal to 0 |
| Report.WarehouseView | PedidosPrueba1.py:119-123 | every warehouse record is listed with its raw stock and that stock's sign, and every line is such a record's |
| Report.WarehouseViewAppend | PedidosPrueba1.py:119-123 | the view of concatenated records concatenates the views, so lines keep the input order |
| Report.WarehouseViewOne | PedidosPrueba1.py:119-123 | a single record is listed exactly when it is a warehouse, with its raw stock and sign |
| Report.StockWhFromView | PedidosPrueba1.py:109-123 | `stock_wh` equals the sum of the view's raw stocks with negatives counted as 0 |
| Report.WarehouseScenario | PedidosPrueba1.py:109-134 | warehouses at 50, −3 and 0 give `stock_wh` 50, and signs positive, negative and zero |
| Report.ReportEmptyInput | PedidosPrueba1.py:39-41 | the empty-input error arises exactly for blank text |
| Report.ReportFrom | PedidosPrueba1.py:75-123 | from the normalised records: the net total from the order sum and `stock_wh`, the order lines of the active rows and the warehouse view |
| Report.ReportOf | PedidosPrueba1.py:39-123 | the whole value-level run: blank input, a parse error or a normalisation error stops it with that error, otherwise `ReportFrom` of the records |
| Report.ReportMeaning | PedidosPrueba1.py:102-123 | a report's orders, total and warehouse view are those of the normalised records, and its total is non-negative |
| Report.ComputeOrderReport | PedidosPrueba1.py:39-110 | the imperative pipeline (blank check, parse, frame normalisation, order frame) returns exactly `ReportOf` |

## Left out

- The Streamlit interface is not modelled. That covers the buttons, the
  text area, `st.stop`, the placeholder and the `HTML` table. A stop after
  an error message is an `Err` result. The `days` input's `min_value=1`
  (line 34) is a precondition.
- The clipboard (`pyperclip`, lines 16-21) is I/O and is left out.
- Colours and markup of the warehouse table (lines 125-143) are left out.
  Only the tri-state sign the colour is chosen from is kept.
- `pandas.read_csv` is modelled as a plain whitespace tokeniser without
  type inference, quoting, comments, `NaN` for short rows or the index
  column pandas makes from a longer first row. Any row whose width differs
  from the header is a `MalformedRow` error. Every cell is kept as text,
  so `astype(str)` is the identity. For the numeric columns this gives the
  same integers as the script, by `Numerals.ParseShowInt`.
- The branch column is kept as pasted text. pandas reads an all-integer
  branch column as integers, so the script turns `00003` and `+3` into
  `0003` at line 53, an active branch. The model pads the text to `00003`
  and `+003`, which are not active.
- Duplicate column names are not renamed as pandas does (`X.1`). Names
  that only coincide after the cleanup at line 49, such as `Exi` and
  `Exi.`, make `df['Exi']` a two-column frame in the script, so lines 57-61
  raise. The model reads the first column with that cleaned name and
  goes on.
- `int()` is modelled on ASCII digits with an optional sign. Python also
  accepts surrounding whitespace, underscores between digits and non-ASCII
  digits. Those inputs are rejected by the model.
- Integers are unbounded. int64 overflow in `astype(int)` and float
  precision of very large sales figures in `Prom` are not modelled. The
  real-valued reference is exact.
- Normalizer.NumColumn: its contract states only shape (numeric, same
  length). The value of each cell is stated by `Normalizer.CoercedCell`.
- The name `suc*` in the missing-branch error is a label of the model. The
  source's `IndexError` carries no column name.

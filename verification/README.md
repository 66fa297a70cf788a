# Testing-method evaluation: a Dafny model

This project models the evaluation pipeline of a small web application that
scores three testing methods ("Метод A", "Метод B", "Метод C") against five
criteria. The user submits a form with three numbers per criterion. The
application then:

1. reads the fields `crit_<i>_val_<j>` into a 5 × 3 grid, where a missing or
   unparseable field counts as 0 (module `Grid`);
2. scores each method as the sum over the criteria of the criterion's average
   times a weight taken from a fixed table (module `Scoring`);
3. ranks the methods by score, highest first, with a stable sort, so tied
   methods keep their list order (module `Ranking`);
4. renders one result line per method and appends one entry (date, grid,
   ranking) to the process-wide history. The history can be cleared (modules
   `Analysis` and `History`);
5. exports the history as rows: an empty history gives a "history empty"
   message; otherwise there is a header row and one row per (entry, result)
   pair, each holding the date, the method, the score and the five criterion
   averages (module `Export`).

The parts of the code that work step by step are imperative Dafny, each proved
equal to a specification function:

- the grid-building loops (`Grid.ParseGrid`, specified by `GridOf`);
- the `total +=` loop (`Scoring.EvaluateMethod`, specified by `Total`);
- the in-place sort (`Ranking.SortByScoreDesc`, an insertion sort on an
  `array` specified by `SortDesc`);
- the text and export loops (`Analysis.ResultText`, `Export.ExportRows`).

The history is a class whose `seq` field the methods reassign. All arithmetic is
over exact `real`s.

The source sorts with the language's built-in stable sort. The model sorts by
insertion. `Ranking.StableSortUnique` proves that every list which is sorted
descending and keeps the order of equal scores equals `SortDesc`. So the
result does not depend on the sorting algorithm.

The inputs the source obtains from its framework or its runtime are
parameters:

- the form, already parsed field by field (`Grid.Form` maps a key to
  `Numeric(v)` or `NotNumeric`; an absent key is a missing field);
- the timestamp, an opaque string;
- the rendering of a score as text (`show: real -> string`).

## Model

| member | source | states |
|---|---|---|
| Grid.ParseGrid | app/main.py:35-45 | the nested loops build exactly `GridOf(form)` |
| Grid.GridOfShape | app/main.py:35-45 | the grid has exactly CriteriaCount (5) rows of ValuesPerCriterion (3) values, and cell (i, j) is the value read from field `crit_i_val_j` |
| Grid.GridCell | app/main.py:39-44 | a cell is the parsed number when its field parses, and 0 when the field is missing or does not parse |
| Grid.FieldKeysDistinct | app/main.py:39 | different cells are read from different field names |
| Grid.CellIgnoresOtherFields | app/main.py:39-44 | two forms that agree on field `crit_i_val_j` give the same cell (i, j), whatever their other fields hold |
| Grid.SetFieldChangesOneCell | app/main.py:36-45 | replacing one field changes its own cell as the parse rule says and leaves every other cell unchanged |
| Scoring.EvaluateMethod | app/main.py:48-58 | the accumulation loop returns `Total(m, g)`, the sum over rows of row average times weight |
| Scoring.WeightTable | app/main.py:52-57 | on a 5 × 3 grid, method A scores 1.5 × (avg0 + avg1) + 0.8 × (avg2 + avg3 + avg4); B scores 0.8 × (avg0 + avg1) + 1.5 × (avg2 + avg3) + 0.8 × avg4; C scores 0.5 × (avg0 + … + avg3) + 2.0 × avg4 |
| Scoring.TotalOfFiveRows | app/main.py:50-57 | over five rows the total is the five average-times-weight terms added up |
| Scoring.WeightPositive | app/main.py:52-57 | every weight of the table is positive |
| Scoring.ZeroGridScoresZero | app/main.py:49-57 | a grid of zeros scores 0 for every method |
| Scoring.AverageMonotone | app/main.py:51 | a row that is at least as large in every cell has at least as large an average |
| Scoring.TotalMonotone | app/main.py:48-57 | raising cells of the grid never lowers a method's score |
| Ranking.InsertAt | app/main.py:65 | one insertion step moves an element left past the strictly lower scores, so the array becomes `Insert` of the sorted prefix followed by the untouched rest |
| Ranking.SortByScoreDesc | app/main.py:65 | the in-place sort leaves the array equal to `SortDesc` of its old contents |
| Ranking.SortPermutes | app/main.py:65 | the sorted list is a permutation of the input |
| Ranking.SortIsStableSort | app/main.py:65 | the sorted list is in non-increasing score order, and for every score the elements with that score appear in their input order |
| Ranking.SortedTiesDetermine | app/main.py:65 | two lists in descending order with the same elements of each score, in the same order, are equal |
| Ranking.StableSortUnique | app/main.py:65 | every stable descending sort of a list equals `SortDesc` of it |
| Ranking.SortedIsFixed | app/main.py:65 | a list already in descending order is left unchanged |
| Ranking.RankMethods | app/main.py:60-65 | scoring the methods in TEST_METHODS order and sorting gives `Ranked(g)` |
| Ranking.RankedIsStableSort | app/main.py:60-65 | the ranking has three entries, is a permutation of the three (method, score) pairs in list order, and is a stable descending sort of them |
| Ranking.TiedScoresKeepListOrder | app/main.py:60-65 | when all three methods score the same, the ranking is A, B, C |
| Analysis.ResultText | app/main.py:68-70 | the text is the heading followed by one `<method>: <score> балів` line per result, in ranked order |
| Analysis.OneLinePerResult | app/main.py:69-70 | when names and rendered scores hold no line break, the result lines hold exactly one line break per result |
| Analysis.Analyze | app/main.py:33-85 | an analysis appends exactly one entry (the given date, the parsed grid, its ranking), keeps the earlier entries, reports the new history length, and returns the result text for the ranking |
| Analysis.EmptyFormRanksInListOrder | app/main.py:35-65 | a form with no usable field ranks A, B, C, each with score 0 |
| History.HistoryStore.constructor | app/main.py:19 | the history starts empty |
| History.HistoryStore.Append | app/main.py:78 | the history becomes the old history plus the one new entry |
| History.HistoryStore.Clear | app/main.py:126-130 | whatever it held, the history becomes empty, and the call reports "Історія очищена" with count 0: `clear_history` always reports count 0, not the number of entries it removed |
| Export.BuildRow | app/main.py:106-114 | a data row is [date, method, score] followed by the average of each criterion row |
| Export.ExportRows | app/main.py:88-114 | the export loops produce exactly `ExportOf(h)`: the empty message for an empty history, otherwise the header followed by the data rows |
| Export.ExportEmptyIffNoEntries | app/main.py:90-91 | the export is the "Історія порожня" message exactly when the history is empty |
| Export.DataRowsCount | app/main.py:104-114 | there is one data row per (entry, result) pair |
| Export.DataRowAt | app/main.py:104-114 | result r of entry k is on data row (results of entries before k) + r, so rows follow history order and, within an entry, ranked order |
| Export.DataRowCovers | app/main.py:104-114 | every data row is the row of some result of some entry |
| Export.ExportRowWidths | app/main.py:97-114 | every row of the sheet, the header included, has 3 + 5 = 8 cells |
| Export.RecordedHistoryRowCount | app/main.py:73-114 | a history of recorded analyses exports 1 + 3 × (number of entries) rows |

## Left out

- Scoring.EvaluateMethod: returns the exact total. The source rounds it with `round(total, 2)` on binary floating point, which is not modelled.
- Ranking.RankMethods: ranks the exact totals. In the source, totals that round to the same two-decimal value tie (for example 1.001 and 1.004 both become 1.0), so the source keeps TEST_METHODS order where the model may rank them apart.
- Export.BuildRow: the averages are exact. The source rounds each one with `round(avg, 2)`.
- Parsing of field text with `float(...)` is not modelled. The form arrives already parsed. Values such as `inf` and `nan` have no counterpart in `real`. A non-text form value (an uploaded file) raises an uncaught error in the source; that case is not modelled.
- Rendering a score with `str(float)` is not modelled. It is the parameter `show`.
- `datetime.now().strftime(...)` is not modelled. The date is a parameter.
- FastAPI routing, template rendering, static-file mounting and the index page (`read_root`) are not modelled. They are framework I/O.
- Workbook creation, the sheet title, `BytesIO`, `StreamingResponse` and the HTTP headers of the export are not modelled. They are foreign library calls. The model stops at the rows handed to the workbook.
- Concurrent requests touching the global history are not modelled. In particular, `clear_history` rebinds the global name rather than emptying the list in place; under concurrency that difference could matter. The model treats it as replacing the store's contents.

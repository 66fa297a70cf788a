/**
 * The export endpoint, up to the point where rows are handed to the
 * spreadsheet library: an empty history gives the "history empty" message;
 * otherwise there is one header row and then one row per (entry, result) pair,
 * in history order and, within an entry, in ranked order.
 */
module Export {
  import opened Grid
  import opened Scoring
  import opened Ranking
  import opened History

  /** A spreadsheet cell: text, or a number. */
  datatype Cell = Text(text: string) | Number(value: real)

  type Row = seq<Cell>

  datatype ExportOutcome = HistoryEmpty(message: string) | Sheet(rows: seq<Row>)

  const EmptyMessage: string := "Історія порожня"

  /** The columns before the criterion averages: date, method, score. */
  const LeadingColumns: nat := 3

  function CriterionHeading(crit: nat): string {
    "Критерій " + Decimal(crit) + " (середнє)"
  }

  function Header(): Row {
    [Text("Дата оцінки"), Text("Метод тестування"), Text("Бали")]
      + seq(CriteriaCount, k requires 0 <= k => Text(CriterionHeading(k + 1)))
  }

  /** Each entry's grid must have a value in every row for its averages to exist. */
  predicate Exportable(h: seq<Entry>) {
    forall k :: 0 <= k < |h| ==> RowsNonEmpty(h[k].criteria)
  }

  function Averages(criteria: Grid): seq<Cell>
    requires RowsNonEmpty(criteria)
  {
    seq(|criteria|, i requires 0 <= i < |criteria| => Number(Average(criteria[i])))
  }

  /** The row for one result of one entry. */
  function DataRow(e: Entry, r: MethodScore): Row
    requires RowsNonEmpty(e.criteria)
  {
    [Text(e.date), Text(r.name), Number(r.score)] + Averages(e.criteria)
  }

  function EntryRows(e: Entry): seq<Row>
    requires RowsNonEmpty(e.criteria)
  {
    seq(|e.results|, k requires 0 <= k < |e.results| => DataRow(e, e.results[k]))
  }

  function DataRows(h: seq<Entry>): seq<Row>
    requires Exportable(h)
  {
    if h == [] then [] else DataRows(h[..|h| - 1]) + EntryRows(h[|h| - 1])
  }

  function ExportOf(h: seq<Entry>): ExportOutcome
    requires Exportable(h)
  {
    if h == [] then HistoryEmpty(EmptyMessage) else Sheet([Header()] + DataRows(h))
  }

  /** The number of results over all entries. */
  function ResultCount(h: seq<Entry>): nat {
    if h == [] then 0 else ResultCount(h[..|h| - 1]) + |h[|h| - 1].results|
  }

  /** Builds the row for one result, appending the criterion averages one by one. */
  method BuildRow(e: Entry, r: MethodScore) returns (row: Row)
    requires RowsNonEmpty(e.criteria)
    ensures row == DataRow(e, r)
  {
    row := [Text(e.date), Text(r.name), Number(r.score)];
    var c := 0;
    while c < |e.criteria|
      invariant 0 <= c <= |e.criteria|
      invariant row == DataRow(e, r)[..LeadingColumns + c]
    {
      var values := e.criteria[c];
      row := row + [Number(Sum(values) / |values| as real)];
      c := c + 1;
    }
  }

  /** The export loops: the header, then for each entry, for each result, one row. */
  method ExportRows(h: seq<Entry>) returns (out: ExportOutcome)
    requires Exportable(h)
    ensures out == ExportOf(h)
  {
    if |h| == 0 {
      return HistoryEmpty(EmptyMessage);
    }
    var headers: Row := [Text("Дата оцінки"), Text("Метод тестування"), Text("Бали")];
    var crit := 1;
    while crit < CriteriaCount + 1
      invariant 1 <= crit <= CriteriaCount + 1
      invariant headers == Header()[..LeadingColumns + crit - 1]
    {
      headers := headers + [Text(CriterionHeading(crit))];
      crit := crit + 1;
    }
    assert headers == Header();
    assert h[..0] == [];
    var rows: seq<Row> := [headers];
    var e := 0;
    while e < |h|
      invariant 0 <= e <= |h|
      invariant rows == [Header()] + DataRows(h[..e])
    {
      var entry := h[e];
      var r := 0;
      while r < |entry.results|
        invariant 0 <= r <= |entry.results|
        invariant rows == [Header()] + DataRows(h[..e]) + EntryRows(entry)[..r]
      {
        var row := BuildRow(entry, entry.results[r]);
        rows := rows + [row];
        r := r + 1;
      }
      assert h[..e + 1][..e] == h[..e];
      assert EntryRows(entry)[..r] == EntryRows(entry);
      e := e + 1;
    }
    assert h[..e] == h;
    out := Sheet(rows);
  }

  /** The export is the empty-history message exactly when there is no entry. */
  lemma ExportEmptyIffNoEntries(h: seq<Entry>)
    requires Exportable(h)
    ensures ExportOf(h).HistoryEmpty? <==> h == []
    ensures ExportOf(h).HistoryEmpty? ==> ExportOf(h).message == EmptyMessage
  {
  }

  /** There is one data row per (entry, result) pair. */
  lemma {:induction false} DataRowsCount(h: seq<Entry>)
    requires Exportable(h)
    ensures |DataRows(h)| == ResultCount(h)
  {
    if h != [] {
      DataRowsCount(h[..|h| - 1]);
    }
  }

  /**
   * Result r of entry k is on the data row that follows the rows of the entries
   * before k and the results before r: history order, then ranked order.
   */
  lemma {:induction false} DataRowAt(h: seq<Entry>, k: nat, r: nat)
    requires Exportable(h)
    requires k < |h| && r < |h[k].results|
    ensures ResultCount(h[..k]) + r < |DataRows(h)|
    ensures DataRows(h)[ResultCount(h[..k]) + r] == DataRow(h[k], h[k].results[r])
  {
    var n := |h| - 1;
    var front := h[..n];
    DataRowsCount(front);
    if k == n {
      assert h[..k] == front;
    } else {
      assert front[..k] == h[..k];
      DataRowAt(front, k, r);
    }
  }

  /** Every row of the sheet, the header included, has 3 + 5 = 8 cells. */
  lemma ExportRowWidths(h: seq<Entry>)
    requires forall k :: 0 <= k < |h| ==> WellShaped(h[k].criteria)
    ensures Exportable(h)
    ensures ExportOf(h).Sheet? ==>
      forall i :: 0 <= i < |ExportOf(h).rows| ==> |ExportOf(h).rows[i]| == LeadingColumns + CriteriaCount
  {
    assert Exportable(h);
    if h != [] {
      var rows := ExportOf(h).rows;
      DataRowsCount(h);
      forall i | 0 <= i < |rows|
        ensures |rows[i]| == LeadingColumns + CriteriaCount
      {
        if i > 0 {
          DataRowCovers(h, i - 1);
        }
      }
    }
  }

  /** Every data row is the row of some result of some entry. */
  lemma {:induction false} DataRowCovers(h: seq<Entry>, i: nat)
    requires Exportable(h) && i < |DataRows(h)|
    ensures exists k, r :: 0 <= k < |h| && 0 <= r < |h[k].results| && DataRows(h)[i] == DataRow(h[k], h[k].results[r])
  {
    var n := |h| - 1;
    var front := h[..n];
    DataRowsCount(front);
    if i < |DataRows(front)| {
      DataRowCovers(front, i);
      var k, r :| 0 <= k < |front| && 0 <= r < |front[k].results| && DataRows(front)[i] == DataRow(front[k], front[k].results[r]);
      assert DataRows(h)[i] == DataRow(h[k], h[k].results[r]);
    } else {
      var r := i - |DataRows(front)|;
      assert DataRows(h)[i] == DataRow(h[n], h[n].results[r]);
    }
  }

  /** A history of recorded analyses exports 1 + 3 * |h| rows: the header and one per method per entry. */
  lemma {:induction false} RecordedHistoryRowCount(h: seq<Entry>)
    requires forall k :: 0 <= k < |h| ==> Recorded(h[k])
    ensures Exportable(h)
    ensures ResultCount(h) == |TestMethods| * |h|
    ensures h != [] ==> |ExportOf(h).rows| == 1 + |TestMethods| * |h|
  {
    if h != [] {
      RecordedHistoryRowCount(h[..|h| - 1]);
      RankedIsStableSort(h[|h| - 1].criteria);
      DataRowsCount(h);
    }
  }
}

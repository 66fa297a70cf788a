/**
 * The analysis endpoint: parse the form into a grid, rank the methods, render
 * the result text and record the analysis in the history. The timestamp is a
 * parameter, and so is the rendering of a score as text.
 */
module Analysis {
  import opened Grid
  import opened Scoring
  import opened Ranking
  import opened History

  const ResultHeading: string := "Результати оцінки методів:\n\n"

  /** The line reporting one ranked result: `<method>: <score> балів`. */
  function ResultLine(r: MethodScore, show: real -> string): string {
    r.name + ": " + show(r.score) + " балів\n"
  }

  /** The lines of the results, in the order given. */
  function ResultLines(rs: seq<MethodScore>, show: real -> string): string {
    if rs == [] then "" else ResultLines(rs[..|rs| - 1], show) + ResultLine(rs[|rs| - 1], show)
  }

  /** Builds the result text line by line, in ranked order. */
  method ResultText(results: seq<MethodScore>, show: real -> string) returns (text: string)
    ensures text == ResultHeading + ResultLines(results, show)
  {
    text := ResultHeading;
    var k := 0;
    while k < |results|
      invariant 0 <= k <= |results|
      invariant text == ResultHeading + ResultLines(results[..k], show)
    {
      text := text + ResultLine(results[k], show);
      assert results[..k + 1][..k] == results[..k];
      k := k + 1;
    }
    assert results[..k] == results;
  }

  function Newlines(s: string): nat {
    if s == [] then 0 else Newlines(s[..|s| - 1]) + (if s[|s| - 1] == '\n' then 1 else 0)
  }

  lemma {:induction false} NewlinesAppend(a: string, b: string)
    ensures Newlines(a + b) == Newlines(a) + Newlines(b)
  {
    if b == [] {
      assert a + b == a;
    } else {
      assert (a + b)[..|a + b| - 1] == a + b[..|b| - 1];
      NewlinesAppend(a, b[..|b| - 1]);
    }
  }

  lemma {:induction false} NoNewlines(s: string)
    requires '\n' !in s
    ensures Newlines(s) == 0
  {
    if s != [] {
      assert s == s[..|s| - 1] + [s[|s| - 1]];
      NoNewlines(s[..|s| - 1]);
    }
  }

  /**
   * The result lines hold one line per result: as long as method names and
   * rendered scores contain no line break, there is exactly one per result.
   */
  lemma {:induction false} OneLinePerResult(rs: seq<MethodScore>, show: real -> string)
    requires forall k :: 0 <= k < |rs| ==> '\n' !in rs[k].name && '\n' !in show(rs[k].score)
    ensures Newlines(ResultLines(rs, show)) == |rs|
  {
    if rs != [] {
      var r := rs[|rs| - 1];
      OneLinePerResult(rs[..|rs| - 1], show);
      NoNewlines(r.name + ": " + show(r.score) + " балів");
      NewlinesAppend(r.name + ": " + show(r.score) + " балів", "\n");
      assert ResultLine(r, show) == r.name + ": " + show(r.score) + " балів" + "\n";
      NewlinesAppend(ResultLines(rs[..|rs| - 1], show), ResultLine(r, show));
    }
  }

  /**
   * One analysis: the grid is read from the form, the methods are ranked, and
   * exactly one entry holding the date, the grid and the ranking is appended.
   * The reported count is the new length of the history.
   */
  method Analyze(store: HistoryStore, form: Form, date: string, show: real -> string)
    returns (text: string, historyCount: nat)
    requires store.Valid()
    modifies store
    ensures store.Valid()
    ensures store.entries == old(store.entries) + [Entry(date, GridOf(form), Ranked(GridOf(form)))]
    ensures historyCount == |store.entries| == |old(store.entries)| + 1
    ensures text == ResultHeading + ResultLines(Ranked(GridOf(form)), show)
  {
    var criteria := ParseGrid(form);
    GridOfShape(form);
    var results := RankMethods(criteria);
    text := ResultText(results, show);
    store.Append(Entry(date, criteria, results));
    historyCount := |store.entries|;
  }

  /** A form with no usable field ranks every method at 0, in list order. */
  lemma EmptyFormRanksInListOrder(form: Form)
    requires forall i, j :: 0 <= i < CriteriaCount && 0 <= j < ValuesPerCriterion ==>
      FieldKey(i, j) !in form || form[FieldKey(i, j)].NotNumeric?
    ensures Ranked(GridOf(form)) == [MethodScore(TestMethods[0], 0.0), MethodScore(TestMethods[1], 0.0),
                                     MethodScore(TestMethods[2], 0.0)]
  {
    var g := GridOf(form);
    GridOfShape(form);
    ZeroGridScoresZero(0, g);
    ZeroGridScoresZero(1, g);
    ZeroGridScoresZero(2, g);
    TiedScoresKeepListOrder(g);
  }
}

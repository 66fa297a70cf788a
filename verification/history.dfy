/**
 * The analysis history: a process-wide list to which every analysis appends
 * one entry, and which the clear endpoint replaces by an empty list.
 */
module History {
  import opened Grid
  import opened Ranking

  /** One recorded analysis: when it ran, the grid it read and the ranked results. */
  datatype Entry = Entry(date: string, criteria: Grid, results: seq<MethodScore>)

  /** An entry as the analysis endpoint records it: a grid of the fixed shape and its ranking. */
  ghost predicate Recorded(e: Entry) {
    WellShaped(e.criteria) && e.results == Ranked(e.criteria)
  }

  const ClearedMessage: string := "Історія очищена"

  class HistoryStore {
    /** The entries, oldest first. */
    var entries: seq<Entry>

    ghost predicate Valid()
      reads this
    {
      forall k :: 0 <= k < |entries| ==> Recorded(entries[k])
    }

    /** The history starts empty when the process starts. */
    constructor ()
      ensures Valid() && entries == []
    {
      entries := [];
    }

    /** Appends exactly one entry; the earlier entries are unchanged. */
    method Append(e: Entry)
      requires Valid() && Recorded(e)
      modifies this
      ensures Valid()
      ensures entries == old(entries) + [e]
    {
      entries := entries + [e];
    }

    /** Replaces the history by an empty one, whatever it held, and reports count 0. */
    method Clear() returns (message: string, count: nat)
      modifies this
      ensures Valid() && entries == []
      ensures message == ClearedMessage
      ensures count == |entries| == 0
    {
      entries := [];
      message, count := ClearedMessage, 0;
    }
  }
}

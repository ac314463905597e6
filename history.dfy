/**
 * The result record every game emits and the history log it is appended to.
 * The browser's key-value store (one JSON array under one key) is modelled by
 * the `entries` field of a `HistoryStore`: each game reads the whole list,
 * appends its record and writes the whole list back.
 */
module History {
  import opened Wrappers

  datatype GameType = Reflex | Calculation | Memory | Riddle

  /** One finished session. `date` is the ISO-8601 text of the finishing time, taken as given. */
  datatype GameResult = GameResult(date: string, kind: GameType, score: int, details: Option<string>)

  class HistoryStore {
    var entries: seq<GameResult>

    /** The list found under the history key; nothing stored reads as the empty list. */
    constructor (stored: seq<GameResult>)
      ensures entries == stored
    {
      entries := stored;
    }

    /** Reading the key back: the whole list, in insertion order. */
    method Load() returns (h: seq<GameResult>)
      ensures h == entries
    {
      h := entries;
    }

    /**
     * Read the list, add one record at the end and write the list back:
     * every earlier record keeps its value and its position.
     */
    method Append(r: GameResult)
      modifies this
      ensures entries == old(entries) + [r]
      ensures |entries| == |old(entries)| + 1 && entries[|entries| - 1] == r
      ensures forall i :: 0 <= i < |old(entries)| ==> entries[i] == old(entries)[i]
    {
      var history := Load();
      entries := history + [r];
    }
  }
}

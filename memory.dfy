/**
 * The sequence-memory game (pages/MemoryGame.tsx), "Simon" on a 3x3 grid.
 * Each level appends one random cell to the sequence, plays the whole
 * sequence back, then has the player tap it in order. Completing the
 * sequence moves to the next level; the first wrong tap ends the game and
 * appends one MEMORY record worth 100 points per completed level.
 */
module Memory {
  import opened Wrappers
  import opened History
  import Text

  datatype GridState = Idle | Showing | Input | GameOver

  const GridSize: nat := 3
  const Cells: nat := GridSize * GridSize

  /** `nextLevel`'s new sequence: `current` and one more cell, drawn as `floor(random * 9)`. */
  function Extend(current: seq<nat>, draw: nat): (next: seq<nat>)
    requires draw < Cells
    ensures |next| == |current| + 1 && current < next
    ensures next[|current|] == draw && next[|current|] <= 8
  {
    current + [draw]
  }

  /** What a tap on cell `index` does, given the sequence and what has been tapped so far. */
  datatype Verdict = Mismatch | Matched | Complete

  /** Judges a tap: the taps so far stay a prefix of the sequence, or the game is lost. */
  function Judge(target: seq<nat>, typed: seq<nat>, index: nat): (v: Verdict)
    requires typed < target
    ensures v == Mismatch <==> !(typed + [index] <= target)
    ensures v == Complete <==> typed + [index] == target
  {
    if index != target[|typed|] then
      assert (typed + [index])[|typed|] == index;
      Mismatch
    else
      assert typed + [index] == target[..|typed| + 1];
      if |typed| + 1 == |target| then Complete else Matched
  }

  /** The MEMORY record for a game lost at `level`: 100 points per completed level. */
  function Record(date: string, level: nat): (r: GameResult)
    requires level >= 1
    ensures r.kind == Memory && r.date == date && r.score >= 0 && r.details.Some?
  {
    GameResult(date, Memory, (level - 1) * 100, Some("Level " + Text.NatToString(level)))
  }

  /** The details text names the level, which `parseInt` reads back after "Level ". */
  lemma RecordCarriesLevel(date: string, level: nat)
    requires level >= 1
    ensures Record(date, level).score == 100 * level - 100
    ensures Record(date, level).details.value[..6] == "Level "
    ensures Text.ParseInt(Record(date, level).details.value[6..]) == Some(level)
  {
    var d := Record(date, level).details.value;
    assert d[6..] == Text.NatToString(level) + "";
    Text.ParseIntOfNat(level, "");
  }

  /** Losing at level 4 scores 300, with details "Level 4". */
  lemma LevelFourExample(date: string)
    ensures Record(date, 4) == GameResult(date, Memory, 300, Some("Level 4"))
  {
    assert Text.NatToString(4) == "4";
    assert "Level " + Text.NatToString(4) == "Level 4";
  }

  class MemoryGame {
    var sequence: seq<nat>
    /** The cells tapped so far in this level. */
    var userSequence: seq<nat>
    var state: GridState
    var level: nat
    /** The argument of the scheduled `nextLevel` call, while one is pending. */
    var scheduled: Option<seq<nat>>

    ghost predicate Valid()
      reads this
    {
      && level >= 1
      && (forall i :: 0 <= i < |sequence| ==> sequence[i] < Cells)
      && userSequence <= sequence
      && (state == Showing ==> userSequence == [])
      && (state != Idle ==> |sequence| == level && |userSequence| < |sequence| && scheduled.None?)
      && (state == Idle && scheduled.Some? ==> scheduled.value == sequence && |sequence| + 1 == level)
      && (state == Idle && scheduled.None? ==> sequence == [] && userSequence == [] && level == 1)
    }

    constructor ()
      ensures Valid() && state == Idle && level == 1
      ensures sequence == [] && userSequence == [] && scheduled.None?
    {
      sequence := [];
      userSequence := [];
      state := Idle;
      level := 1;
      scheduled := None;
    }

    /**
     * The start button, shown in IDLE at level 1 and in GAME_OVER: reset to
     * level 1 and schedule the first level, built from the empty sequence.
     */
    method Start()
      requires Valid() && (state == GameOver || (state == Idle && level == 1))
      modifies this
      ensures Valid() && state == Idle && level == 1
      ensures sequence == [] && userSequence == [] && scheduled == Some([])
    {
      sequence := [];
      userSequence := [];
      level := 1;
      state := Idle;
      scheduled := Some([]);
    }

    /** Show `current` and one more cell: SHOWING, with nothing tapped yet. */
    method NextLevel(current: seq<nat>, draw: nat)
      requires draw < Cells
      modifies this
      ensures sequence == Extend(current, draw) && userSequence == [] && state == Showing
      ensures level == old(level) && scheduled == old(scheduled)
    {
      sequence := Extend(current, draw);
      userSequence := [];
      state := Showing;
    }

    /**
     * The scheduled `nextLevel` call runs with the draw `draw`. The sequence
     * grows by exactly one cell, keeping the old one as its prefix. With no
     * call pending this changes nothing.
     */
    method LevelTimerFires(draw: nat)
      requires Valid() && draw < Cells
      modifies this
      ensures Valid()
      ensures old(scheduled).Some? ==>
        && sequence == old(sequence) + [draw] && |sequence| == level && level == old(level)
        && userSequence == [] && state == Showing && scheduled.None?
      ensures old(scheduled).None? ==>
        && sequence == old(sequence) && userSequence == old(userSequence) && state == old(state) && level == old(level)
        && scheduled == old(scheduled)
    {
      if scheduled.Some? {
        var current := scheduled.value;
        scheduled := None;
        NextLevel(current, draw);
      }
    }

    /**
     * Playback: each cell of the sequence is lit and then cleared, in order,
     * once; only afterwards does the grid take input. `frames` lists the
     * highlighted cell after each change (`None` for no highlight).
     */
    method PlaySequence() returns (frames: seq<Option<nat>>)
      requires Valid() && state == Showing
      modifies this
      ensures Valid() && state == Input
      ensures sequence == old(sequence) && userSequence == old(userSequence) && level == old(level)
      ensures |frames| == 2 * |sequence|
      ensures forall i :: 0 <= i < |sequence| ==> frames[2 * i] == Some(sequence[i]) && frames[2 * i + 1].None?
    {
      frames := [];
      for i := 0 to |sequence|
        invariant |frames| == 2 * i
        invariant forall j :: 0 <= j < i ==> frames[2 * j] == Some(sequence[j]) && frames[2 * j + 1].None?
      {
        frames := frames + [Some(sequence[i]), None];
      }
      state := Input;
    }

    /**
     * A tap on cell `index`. Outside INPUT it changes nothing. A tap that
     * keeps the taps a prefix of the sequence is recorded, and completing
     * the sequence moves up a level and schedules the next one on the same
     * sequence. Any other tap ends the game and appends its record.
     */
    method CellClick(index: nat, date: string, store: HistoryStore)
      requires Valid() && index < Cells
      modifies this, store
      ensures Valid() && sequence == old(sequence)
      ensures old(state) != Input ==>
        && state == old(state) && userSequence == old(userSequence) && level == old(level)
        && scheduled == old(scheduled) && store.entries == old(store.entries)
      ensures old(state) == Input && !(old(userSequence) + [index] <= sequence) ==>
        && state == GameOver && userSequence == old(userSequence) && level == old(level)
        && store.entries == old(store.entries) + [Record(date, level)]
      ensures old(state) == Input && old(userSequence) + [index] <= sequence ==>
        && userSequence == old(userSequence) + [index] && store.entries == old(store.entries)
        && (userSequence == sequence ==> state == Idle && level == old(level) + 1 && scheduled == Some(sequence))
        && (userSequence != sequence ==> state == Input && level == old(level))
    {
      if state != Input {
        return;
      }
      var verdict := Judge(sequence, userSequence, index);
      if verdict == Mismatch {
        state := GameOver;
        SaveScore(date, store);
      } else {
        userSequence := userSequence + [index];
        if verdict == Complete {
          level := level + 1;
          state := Idle;
          scheduled := Some(sequence);
        }
      }
    }

    /** Append the MEMORY record for the level reached. */
    method SaveScore(date: string, store: HistoryStore)
      requires level >= 1
      modifies store
      ensures store.entries == old(store.entries) + [Record(date, level)]
    {
      store.Append(Record(date, level));
    }
  }
}

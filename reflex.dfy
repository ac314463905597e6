/**
 * The reaction-time game (pages/ReflexGame.tsx). A session is up to five
 * rounds: the page waits a random 2-5 s, turns green, and measures how long
 * the player takes to click. Clicking before the green light voids the round.
 * After the fifth measured round the rounded mean gives the score, and one
 * REFLEX record is appended to the history.
 */
module Reflex {
  import opened Wrappers
  import opened History
  import Text

  /** The page's states. `Ready` is declared by the page but no handler ever enters it. */
  datatype GameState = Idle | Waiting | Ready | Click | Result | TooEarly

  const MaxAttempts: nat := 5
  const MinDelay: nat := 2000
  const DelayRange: nat := 3000

  /** The round's delay `Math.floor(Math.random() * 3000) + 2000`, for the draw `floor(random * 3000)`. */
  function Delay(draw: nat): (ms: nat)
    requires draw < DelayRange
    ensures 2000 <= ms <= 4999
    ensures ms - MinDelay == draw
  {
    MinDelay + draw
  }

  function Sum(xs: seq<nat>): nat {
    if |xs| == 0 then 0 else Sum(xs[..|xs| - 1]) + xs[|xs| - 1]
  }

  /** `Math.round(s / n)` on naturals: the integer nearest to s/n, a half rounded up. */
  function RoundedQuotient(s: nat, n: nat): (q: nat)
    requires n > 0
    ensures 2 * (n * q) <= 2 * s + n < 2 * (n * q) + 2 * n
  {
    (2 * s + n) / (2 * n)
  }

  /** The rounded mean reaction time of a session. */
  function Average(xs: seq<nat>): nat
    requires |xs| > 0
  {
    RoundedQuotient(Sum(xs), |xs|)
  }

  /** `1000 - avg` when that is positive, otherwise 0. */
  function Score(avg: nat): (score: int)
    ensures 0 <= score <= 1000
    ensures score > 0 <==> avg < 1000
    ensures score > 0 ==> score + avg == 1000
  {
    if 1000 - avg > 0 then 1000 - avg else 0
  }

  function Details(avg: nat): string {
    "Avg: " + Text.NatToString(avg) + "ms"
  }

  /** The REFLEX record a finished session appends. */
  function Record(date: string, attempts: seq<nat>): (r: GameResult)
    requires |attempts| > 0
    ensures r.kind == Reflex && r.date == date && 0 <= r.score <= 1000 && r.details.Some?
  {
    var avg := Average(attempts);
    GameResult(date, Reflex, Score(avg), Some(Details(avg)))
  }

  lemma {:induction false} SumBounds(xs: seq<nat>, lo: nat, hi: nat)
    requires forall i :: 0 <= i < |xs| ==> lo <= xs[i] <= hi
    ensures |xs| * lo <= Sum(xs) <= |xs| * hi
  {
    if |xs| > 0 {
      var n := |xs| - 1;
      var init := xs[..n];
      assert forall i :: 0 <= i < |init| ==> init[i] == xs[i];
      SumBounds(init, lo, hi);
      assert Sum(xs) == Sum(init) + xs[n];
      MulSucc(lo, n);
      MulSucc(hi, n);
    }
  }

  /** The rounded mean lies between the fastest and the slowest attempt. */
  lemma AverageWithin(xs: seq<nat>, lo: nat, hi: nat)
    requires |xs| > 0
    requires forall i :: 0 <= i < |xs| ==> lo <= xs[i] <= hi
    ensures lo <= Average(xs) <= hi
  {
    SumBounds(xs, lo, hi);
    RoundedQuotientWithin(Sum(xs), |xs|, lo, hi);
  }

  lemma RoundedQuotientWithin(s: nat, n: nat, lo: nat, hi: nat)
    requires n > 0 && n * lo <= s <= n * hi
    ensures lo <= RoundedQuotient(s, n) <= hi
  {
    var q := RoundedQuotient(s, n);
    if q < lo {
      MulMonotone(n, q + 1, lo);
      MulSucc(n, q);
      assert false;
    }
    if q > hi {
      MulMonotone(n, hi + 1, q);
      MulSucc(n, hi);
      assert false;
    }
  }

  lemma MulSucc(n: nat, a: nat)
    ensures n * (a + 1) == n * a + n
    ensures (a + 1) * n == a * n + n
  {
  }

  lemma MulMonotone(k: nat, a: nat, b: nat)
    requires a <= b
    ensures k * a <= k * b
  {
  }

  /** A faster session never scores lower. */
  lemma ScoreAntitone(avg1: nat, avg2: nat)
    requires avg1 <= avg2
    ensures Score(avg2) <= Score(avg1)
  {
  }

  /** The details text carries the average: `parseInt` reads it back after "Avg: ". */
  lemma DetailsCarryAverage(avg: nat)
    ensures |Details(avg)| > 5 && Details(avg)[..5] == "Avg: "
    ensures Text.ParseInt(Details(avg)[5..]) == Some(avg)
  {
    var tail := Text.NatToString(avg) + "ms";
    assert Details(avg) == "Avg: " + tail;
    assert Details(avg)[5..] == tail;
    Text.ParseIntOfNat(avg, "ms");
  }

  /** Five attempts of 250, 300, 280, 260 and 310 ms average 280 ms and score 720. */
  lemma FiveAttemptExample()
    ensures Average([250, 300, 280, 260, 310]) == 280
    ensures Record("d", [250, 300, 280, 260, 310]) == GameResult("d", Reflex, 720, Some("Avg: 280ms"))
  {
    assert Sum([250]) == 250;
    assert Sum([250, 300]) == 550;
    assert Sum([250, 300, 280]) == 830;
    assert [250, 300, 280, 260][..3] == [250, 300, 280];
    assert Sum([250, 300, 280, 260]) == 1090;
    assert [250, 300, 280, 260, 310][..4] == [250, 300, 280, 260];
    assert Sum([250, 300, 280, 260, 310]) == 1400;
    assert Text.NatToString(2) == "2";
    assert Text.NatToString(28) == "28";
    assert Text.NatToString(280) == "280";
    assert Score(280) == 720;
    assert Details(280) == "Avg: 280ms";
    assert Average([250, 300, 280, 260, 310]) == 280;
  }

  class ReflexGame {
    var state: GameState
    /** The last measured reaction time, shown in RESULT. */
    var reactionTime: Option<nat>
    var attempts: seq<nat>
    /** The time the screen turned green. */
    var startTime: nat
    /** The delay of the scheduled WAITING-to-CLICK transition, while one is pending. */
    var pending: Option<nat>
    var mounted: bool

    ghost predicate Valid()
      reads this
    {
      && state != Ready
      && |attempts| <= MaxAttempts
      && (state != Idle ==> |attempts| < MaxAttempts)
      && (state == Idle ==> |attempts| == 0 || |attempts| == MaxAttempts)
      && (pending.Some? ==> state == Waiting && 2000 <= pending.value <= 4999)
      && (mounted && state == Waiting ==> pending.Some?)
      && (!mounted ==> pending.None?)
      && (state == Result ==> |attempts| > 0 && reactionTime == Some(attempts[|attempts| - 1]))
    }

    constructor ()
      ensures Valid() && mounted
      ensures state == Idle && attempts == [] && pending.None? && reactionTime.None?
    {
      state := Idle;
      reactionTime := None;
      attempts := [];
      startTime := 0;
      pending := None;
      mounted := true;
    }

    /** Enter WAITING and schedule the switch to CLICK after `Delay(draw)` ms. */
    method NextRound(draw: nat)
      requires draw < DelayRange
      modifies this
      ensures state == Waiting && reactionTime.None? && pending == Some(Delay(draw))
      ensures attempts == old(attempts) && startTime == old(startTime) && mounted == old(mounted)
    {
      state := Waiting;
      reactionTime := None;
      pending := Some(Delay(draw));
    }

    /** The start button, shown only in IDLE: empty the attempts and begin round one. */
    method Start(draw: nat)
      requires Valid() && mounted && state == Idle
      requires draw < DelayRange
      modifies this
      ensures Valid() && mounted
      ensures state == Waiting && attempts == [] && pending == Some(Delay(draw)) && reactionTime.None?
    {
      attempts := [];
      NextRound(draw);
    }

    /** The "next" button, shown only in RESULT: the next round, attempts kept. */
    method Next(draw: nat)
      requires Valid() && mounted && state == Result
      requires draw < DelayRange
      modifies this
      ensures Valid() && mounted
      ensures state == Waiting && attempts == old(attempts) && pending == Some(Delay(draw)) && reactionTime.None?
    {
      NextRound(draw);
    }

    /** The retry button, shown only in TOO_EARLY: the voided round again, attempts kept. */
    method Retry(draw: nat)
      requires Valid() && mounted && state == TooEarly
      requires draw < DelayRange
      modifies this
      ensures Valid() && mounted
      ensures state == Waiting && attempts == old(attempts) && pending == Some(Delay(draw)) && reactionTime.None?
    {
      NextRound(draw);
    }

    /**
     * The scheduled transition fires at time `now`: the screen turns green.
     * A transition that was cancelled never fires, so with nothing pending
     * this changes nothing.
     */
    method TimerFires(now: nat)
      requires Valid()
      modifies this
      ensures Valid()
      ensures old(pending).Some? ==> state == Click && startTime == now && pending.None?
      ensures old(pending).None? ==> state == old(state) && startTime == old(startTime)
      ensures attempts == old(attempts) && reactionTime == old(reactionTime) && mounted == old(mounted)
      ensures old(pending).None? ==> pending.None?
    {
      if pending.Some? {
        state := Click;
        startTime := now;
        pending := None;
      }
    }

    /**
     * A click at time `now`. Too early (WAITING): cancel the pending
     * transition and void the round. In CLICK: record `now - startTime`,
     * then show RESULT, or finish after the fifth attempt. In any other
     * state: nothing.
     */
    method HandleClick(now: nat, date: string, store: HistoryStore)
      requires Valid() && mounted
      requires state == Click ==> startTime <= now
      modifies this, store
      ensures Valid() && mounted
      ensures old(state) == Waiting ==>
        && state == TooEarly && pending.None? && attempts == old(attempts) && store.entries == old(store.entries)
        && reactionTime == old(reactionTime) && startTime == old(startTime)
      ensures old(state) == Click ==>
        && attempts == old(attempts) + [now - old(startTime)]
        && reactionTime == Some(now - old(startTime)) && startTime == old(startTime)
        && (|attempts| < MaxAttempts ==> state == Result && store.entries == old(store.entries))
        && (|attempts| == MaxAttempts ==> state == Idle && store.entries == old(store.entries) + [Record(date, attempts)])
      ensures old(state) !in {Waiting, Click} ==>
        && state == old(state) && attempts == old(attempts) && pending == old(pending) && store.entries == old(store.entries)
        && reactionTime == old(reactionTime) && startTime == old(startTime)
    {
      if state == Waiting {
        pending := None;
        state := TooEarly;
      } else if state == Click {
        var time := now - startTime;
        reactionTime := Some(time);
        var newAttempts := attempts + [time];
        attempts := newAttempts;
        if |newAttempts| >= MaxAttempts {
          Finish(newAttempts, date, store);
        } else {
          state := Result;
        }
      }
    }

    /** Back to IDLE, and append the session's REFLEX record to the history. */
    method Finish(finalAttempts: seq<nat>, date: string, store: HistoryStore)
      requires |finalAttempts| > 0
      modifies this, store
      ensures state == Idle && store.entries == old(store.entries) + [Record(date, finalAttempts)]
      ensures attempts == old(attempts) && reactionTime == old(reactionTime)
      ensures pending == old(pending) && mounted == old(mounted) && startTime == old(startTime)
    {
      state := Idle;
      store.Append(Record(date, finalAttempts));
    }

    /** Leaving the page cancels the pending transition, so no timer outlives the page. */
    method Teardown()
      requires Valid()
      modifies this
      ensures Valid() && !mounted && pending.None?
      ensures state == old(state) && attempts == old(attempts) && reactionTime == old(reactionTime)
      ensures startTime == old(startTime)
    {
      pending := None;
      mounted := false;
    }
  }
}

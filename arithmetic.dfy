/**
 * The arithmetic speed game (pages/MathGame.tsx). For 30 seconds the page
 * shows one problem `a op b` at a time; a correct answer scores a point and
 * brings the next problem. When the countdown reaches zero one CALCULATION
 * record with ten points per correct answer is appended to the history.
 */
module Arithmetic {
  import opened Wrappers
  import opened History
  import Text

  datatype Op = Plus | Minus | Times

  datatype Problem = Problem(a: nat, op: Op, b: nat)

  /**
   * The random draws of one `generateProblem` call, each already floored:
   * the operator index in [0, 3), the operands in [0, 20), and the two
   * operands drawn again in [0, 12) when the operator is `*`.
   */
  datatype Draws = Draws(op: nat, a: nat, b: nat, ma: nat, mb: nat)

  const Duration: nat := 30

  predicate DrawsInRange(d: Draws) {
    d.op < 3 && d.a < 20 && d.b < 20 && d.ma < 12 && d.mb < 12
  }

  /** The operand ranges the generator keeps to, per operator. */
  predicate WellFormed(p: Problem) {
    match p.op
    case Plus => 1 <= p.a <= 20 && 1 <= p.b <= 20
    case Minus => 1 <= p.b <= p.a <= 20
    case Times => 1 <= p.a <= 12 && 1 <= p.b <= 12
  }

  function OpAt(i: nat): Op
    requires i < 3
  {
    [Plus, Minus, Times][i]
  }

  function OpChar(op: Op): char {
    match op
    case Plus => '+'
    case Minus => '-'
    case Times => '*'
  }

  /** The operator a character stands for in a problem text. */
  function CharOp(c: char): (r: Option<Op>)
    ensures r.Some? ==> OpChar(r.value) == c
  {
    if c == '+' then Some(Plus) else if c == '-' then Some(Minus) else if c == '*' then Some(Times) else None
  }

  /**
   * `generateProblem`'s operand selection: `-` swaps its operands when the
   * first is smaller, `*` discards the first two operands for two in [1, 12].
   */
  function Generate(d: Draws): (p: Problem)
    requires DrawsInRange(d)
    ensures WellFormed(p)
    ensures p.op == OpAt(d.op)
  {
    var op := OpAt(d.op);
    var a, b := d.a + 1, d.b + 1;
    if op == Minus then
      if a < b then Problem(b, op, a) else Problem(a, op, b)
    else if op == Times then
      Problem(d.ma + 1, op, d.mb + 1)
    else
      Problem(a, op, b)
  }

  /** What `a op b` evaluates to. */
  function Eval(p: Problem): int {
    match p.op
    case Plus => p.a + p.b
    case Minus => p.a - p.b
    case Times => p.a * p.b
  }

  /** Every problem within the ranges is produced by some draws: the ranges are exact. */
  lemma GenerateCovers(p: Problem)
    requires WellFormed(p)
    ensures exists d :: DrawsInRange(d) && Generate(d) == p
  {
    var d := match p.op
      case Plus => Draws(0, p.a - 1, p.b - 1, 0, 0)
      case Minus => Draws(1, p.a - 1, p.b - 1, 0, 0)
      case Times => Draws(2, 0, 0, p.a - 1, p.b - 1);
    assert DrawsInRange(d) && Generate(d) == p;
  }

  /** A generated problem's answer is never negative, and at most 12 * 12. */
  lemma AnswerBounds(p: Problem)
    requires WellFormed(p)
    ensures 0 <= Eval(p) <= 144
    ensures p.op == Minus ==> Eval(p) <= 19
  {
    if p.op == Times {
      assert p.a * p.b <= 12 * p.b <= 144;
    }
  }

  /** The problem text the page shows, `${a} ${op} ${b}`. */
  function Render(p: Problem): string {
    Text.NatToString(p.a) + [' ', OpChar(p.op), ' '] + Text.NatToString(p.b)
  }

  /** Reads a text of the form `digits op digits`, with one space on each side of the operator. */
  function ParseProblem(s: string): Option<Problem> {
    var k := Text.DigitPrefixLen(s);
    if k == 0 || |s| < k + 4 || s[k] != ' ' || s[k + 2] != ' ' || CharOp(s[k + 1]).None? then None
    else
      var rest := s[k + 3..];
      if Text.DigitPrefixLen(rest) != |rest| then None
      else Some(Problem(Text.DigitsValue(s[..k]), CharOp(s[k + 1]).value, Text.DigitsValue(rest)))
  }

  /** `eval` of a problem text: the value of `a op b`, or `None` for any other text. */
  function EvalText(s: string): Option<int> {
    match ParseProblem(s)
    case None => None
    case Some(p) => Some(Eval(p))
  }

  /** The shown text reads back as the same problem. */
  lemma ParseRender(p: Problem)
    ensures ParseProblem(Render(p)) == Some(p)
  {
    var op := p.op;
    assert CharOp(OpChar(op)) == Some(op);
    ParseJoined(Text.NatToString(p.a), OpChar(op), Text.NatToString(p.b));
    Text.DigitsValueOfNat(p.a);
    Text.DigitsValueOfNat(p.b);
  }

  lemma ParseJoined(da: string, c: char, db: string)
    requires |da| > 0 && Text.AllDigits(da) && |db| > 0 && Text.AllDigits(db)
    requires CharOp(c).Some?
    ensures ParseProblem(da + [' ', c, ' '] + db) == Some(Problem(Text.DigitsValue(da), CharOp(c).value, Text.DigitsValue(db)))
  {
    var tail := [' ', c, ' '] + db;
    var s := da + [' ', c, ' '] + db;
    assert s == da + tail;
    Text.DigitPrefixLenOfDigits(da, tail);
    var k := |da|;
    assert s[k] == ' ' && s[k + 1] == c && s[k + 2] == ' ';
    assert s[..k] == da;
    assert s[k + 3..] == db;
    Text.DigitPrefixLenOfDigits(db, "");
    assert db + "" == db;
  }

  /** `eval` of the shown text is the answer of the problem it shows. */
  lemma EvalRender(p: Problem)
    ensures EvalText(Render(p)) == Some(Eval(p))
  {
    ParseRender(p);
  }

  /** The CALCULATION record for `correct` correct answers: ten points each. */
  function Record(date: string, correct: nat): (r: GameResult)
    ensures r.kind == Calculation && r.date == date && r.score >= 0 && r.details.Some?
  {
    GameResult(date, Calculation, correct * 10, Some(Text.NatToString(correct) + "問正解"))
  }

  /** The details text starts with the count, which `parseInt` reads back; the score is ten per answer. */
  lemma RecordCarriesCount(date: string, correct: nat)
    ensures Record(date, correct).score == 10 * correct
    ensures Text.ParseInt(Record(date, correct).details.value) == Some(correct)
  {
    Text.ParseIntOfNat(correct, "問正解");
  }

  /** Twelve correct answers score 120, with details "12問正解". */
  lemma TwelveCorrectExample(date: string)
    ensures Record(date, 12) == GameResult(date, Calculation, 120, Some("12問正解"))
  {
    assert Text.NatToString(1) == "1";
    assert Text.NatToString(12) == "12";
    assert Text.NatToString(12) + "問正解" == "12問正解";
  }

  class MathGame {
    var isPlaying: bool
    /** The problem text on screen. */
    var problem: string
    /** The stored answer to it; `None` until the first problem. */
    var answer: Option<int>
    /** The text in the answer box. */
    var userAnswer: string
    /** Correct answers so far. */
    var score: nat
    var timeLeft: nat
    /** The problem on screen, of which `problem` is the text. */
    ghost var live: Problem
    /** Countdown ticks since the last start. */
    ghost var elapsed: nat

    ghost predicate Valid()
      reads this
    {
      && timeLeft + elapsed == Duration
      && (isPlaying ==> timeLeft > 0 && answer.Some?)
      && (!isPlaying ==> timeLeft == Duration || timeLeft == 0)
      && (answer.None? ==> problem == "")
      && (answer.Some? ==>
            WellFormed(live) && problem == Render(live) && answer == Some(Eval(live)) && EvalText(problem) == answer)
    }

    constructor ()
      ensures Valid() && !isPlaying && timeLeft == Duration && score == 0
      ensures problem == "" && answer.None? && userAnswer == ""
    {
      isPlaying := false;
      problem := "";
      answer := None;
      userAnswer := "";
      score := 0;
      timeLeft := Duration;
      elapsed := 0;
    }

    /** Put a fresh problem on screen, with its answer. */
    method GenerateProblem(d: Draws)
      requires DrawsInRange(d)
      modifies this
      ensures live == Generate(d) && problem == Render(live) && answer == Some(Eval(live))
      ensures EvalText(problem) == answer
      ensures isPlaying == old(isPlaying) && score == old(score) && timeLeft == old(timeLeft)
      ensures userAnswer == old(userAnswer) && elapsed == old(elapsed)
    {
      var p := Generate(d);
      problem := Render(p);
      answer := Some(Eval(p));
      live := p;
      EvalRender(p);
    }

    /** The start button, shown only while not playing. The answer box keeps its text. */
    method Start(d: Draws)
      requires Valid() && !isPlaying
      requires DrawsInRange(d)
      modifies this
      ensures Valid() && isPlaying
      ensures score == 0 && timeLeft == Duration && elapsed == 0
      ensures live == Generate(d) && answer == Some(Eval(live))
      ensures userAnswer == old(userAnswer)
    {
      score := 0;
      timeLeft := Duration;
      elapsed := 0;
      isPlaying := true;
      GenerateProblem(d);
    }

    /** Typing in the answer box. */
    method EditAnswer(text: string)
      requires Valid()
      modifies this
      ensures Valid() && userAnswer == text
      ensures isPlaying == old(isPlaying) && score == old(score) && timeLeft == old(timeLeft)
      ensures problem == old(problem) && answer == old(answer)
    {
      userAnswer := text;
    }

    /**
     * Submitting the answer box (the form exists only while playing). Text
     * that `parseInt` cannot read changes nothing; a correct answer scores
     * and brings the next problem; a wrong one changes neither. The box is
     * cleared in both of the latter cases.
     */
    method Submit(d: Draws)
      requires Valid() && isPlaying
      requires DrawsInRange(d)
      modifies this
      ensures Valid() && isPlaying
      ensures timeLeft == old(timeLeft) && elapsed == old(elapsed)
      ensures Text.ParseInt(old(userAnswer)).None? ==>
        score == old(score) && problem == old(problem) && answer == old(answer) && userAnswer == old(userAnswer)
      ensures Text.ParseInt(old(userAnswer)).Some? && old(answer) == Text.ParseInt(old(userAnswer)) ==>
        score == old(score) + 1 && live == Generate(d) && answer == Some(Eval(live)) && userAnswer == ""
      ensures Text.ParseInt(old(userAnswer)).Some? && old(answer) != Text.ParseInt(old(userAnswer)) ==>
        score == old(score) && problem == old(problem) && answer == old(answer) && userAnswer == ""
    {
      var val := Text.ParseInt(userAnswer);
      if val.None? {
        return;
      }
      if answer == val {
        score := score + 1;
        GenerateProblem(d);
      }
      userAnswer := "";
    }

    /**
     * One second of the countdown, together with the effect that follows it:
     * while playing, `timeLeft` drops by one, and on reaching zero the game
     * ends and appends its record. When not playing no countdown runs.
     */
    method Tick(date: string, store: HistoryStore)
      requires Valid()
      modifies this, store
      ensures Valid()
      ensures old(isPlaying) ==> timeLeft == old(timeLeft) - 1 && elapsed == old(elapsed) + 1
      ensures old(isPlaying) ==> (isPlaying <==> elapsed < Duration)
      ensures old(isPlaying) && !isPlaying ==> timeLeft == 0 && store.entries == old(store.entries) + [Record(date, score)]
      ensures isPlaying || !old(isPlaying) ==> store.entries == old(store.entries)
      ensures !old(isPlaying) ==> !isPlaying && timeLeft == old(timeLeft)
      ensures score == old(score) && problem == old(problem) && answer == old(answer) && userAnswer == old(userAnswer)
    {
      if isPlaying && timeLeft > 0 {
        timeLeft := timeLeft - 1;
        elapsed := elapsed + 1;
      }
      if timeLeft == 0 && isPlaying {
        EndGame(date, store);
      }
    }

    /** Stop playing and append the CALCULATION record for the current score. */
    method EndGame(date: string, store: HistoryStore)
      modifies this, store
      ensures !isPlaying && store.entries == old(store.entries) + [Record(date, score)]
      ensures score == old(score) && timeLeft == old(timeLeft) && elapsed == old(elapsed)
      ensures problem == old(problem) && answer == old(answer) && userAnswer == old(userAnswer) && live == old(live)
    {
      isPlaying := false;
      store.Append(Record(date, score));
    }
  }
}

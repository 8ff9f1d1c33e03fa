/**
 * The automatic tuning search: a fixed walk through the gain space, one trial
 * per step, scored by a placeholder error that measures the distance of the
 * gains from a fixed target.
 *
 * Gains are exact reals, so the step sizes and the stop threshold are exact;
 * the rounding of binary floating point is not modelled.
 */
module Tuning {
  import opened Wrappers
  import opened Protocol
  import opened Leaderboard

  /** One candidate controller configuration. */
  datatype Gains = Gains(kp: real, ki: real, kd: real, alpha: real)

  /** Where every tuning run starts. */
  const Initial: Gains := Gains(1.0, 0.5, 0.1, 0.9)

  /** The gains at which the placeholder error is zero. */
  const Target: Gains := Gains(1.2, 0.6, 0.2, 0.7)

  /** A run stops once alpha is at or below this value. */
  const StopAlpha: real := 0.5

  /** The number of trials a run records when nothing stops it early. */
  const FullRun: nat := 40

  function Abs(x: real): real { if x < 0.0 then -x else x }

  /** The placeholder error: the summed distance of each gain from the target. */
  function PlaceholderError(g: Gains): (e: real)
    ensures e >= 0.0
  {
    Abs(g.alpha - 0.7) + Abs(g.kp - 1.2) + Abs(g.ki - 0.6) + Abs(g.kd - 0.2)
  }

  /** The fixed step from one candidate to the next: the three gains grow and alpha shrinks. */
  function Step(g: Gains): (r: Gains)
    ensures r.kp > g.kp && r.ki > g.ki && r.kd > g.kd && r.alpha < g.alpha
  {
    Gains(g.kp + 0.1, g.ki + 0.05, g.kd + 0.01, g.alpha - 0.01)
  }

  predicate StopReached(g: Gains) { g.alpha <= StopAlpha }

  /** The candidate after n steps from Initial. */
  function GainsAfter(n: nat): Gains {
    if n == 0 then Initial else Step(GainsAfter(n - 1))
  }

  /** The leaderboard row a trial of g records. */
  function TrialOf(g: Gains): (t: Trial)
    ensures t.kp == g.kp && t.ki == g.ki && t.kd == g.kd && t.alpha == g.alpha
    ensures t.error >= 0.0
  {
    Trial(g.kp, g.ki, g.kd, g.alpha, PlaceholderError(g))
  }

  /** The commands one trial sends: a controller reset, then the four gains in a fixed order. */
  function TrialCommands(g: Gains): (r: seq<Command>)
    ensures |r| == 5 && r[0] == ResetPid && ResetPid !in r[1..]
    ensures r[1].SetKp? && r[2].SetKi? && r[3].SetKd? && r[4].SetAlpha?
    ensures [r[1].value, r[2].value, r[3].value, r[4].value] == [g.kp, g.ki, g.kd, g.alpha]
  {
    [ResetPid, SetKp(g.kp), SetKi(g.ki), SetKd(g.kd), SetAlpha(g.alpha)]
  }

  /** Everything the first n trials of a run send. */
  function RunTrace(n: nat): seq<Command> {
    if n == 0 then [] else RunTrace(n - 1) + TrialCommands(GainsAfter(n - 1))
  }

  /** The leaderboard after the first n trials of a run, starting from board. */
  function RunBoard(board: seq<Trial>, n: nat): seq<Trial> {
    if n == 0 then board else Update(RunBoard(board, n - 1), TrialOf(GainsAfter(n - 1)))
  }

  /**
   * How many trials a run records when the operator's stop, if any, is seen
   * at the loop-top check after `stop` trials: the run ends there or at the
   * stop condition, whichever comes first.
   */
  function RunLength(stop: Option<nat>): (n: nat)
    ensures n <= FullRun
  {
    match stop
    case None => FullRun
    case Some(k) => Min(k, FullRun)
  }

  // ---------------------------------------------------------------------
  // Lemmas

  /** The placeholder error is zero at the target gains and nowhere else. */
  lemma ErrorZeroExactlyAtTarget(g: Gains)
    ensures PlaceholderError(g) == 0.0 <==> g == Target
  {
  }

  /** After n steps every gain has moved n step sizes. */
  lemma {:induction false} GainsAfterClosedForm(n: nat)
    ensures GainsAfter(n) == Gains(1.0 + 0.1 * n as real, 0.5 + 0.05 * n as real,
                                   0.1 + 0.01 * n as real, 0.9 - 0.01 * n as real)
  {
    if n > 0 {
      GainsAfterClosedForm(n - 1);
    }
  }

  /** The stop condition first holds after exactly forty steps. */
  lemma StopsAfterForty(n: nat)
    ensures StopReached(GainsAfter(n)) <==> n >= FullRun
  {
    GainsAfterClosedForm(n);
  }

  /** Each trial's commands sit, in order, at their own five places of the run's trace. */
  lemma {:induction false} RunTraceLayout(n: nat, i: nat)
    requires i < n
    ensures |RunTrace(n)| == 5 * n
    ensures RunTrace(n)[5 * i..5 * i + 5] == TrialCommands(GainsAfter(i))
  {
    var prev, last := RunTrace(n - 1), TrialCommands(GainsAfter(n - 1));
    RunTraceLength(n - 1);
    RunTraceStep(n - 1);
    if i < n - 1 {
      RunTraceLayout(n - 1, i);
      SliceInPrefix(prev, last, 5 * i, 5 * i + 5);
    } else {
      SliceIsSuffix(prev, last);
    }
  }

  /** A slice that lies in the first part of a concatenation is a slice of that part. */
  lemma SliceInPrefix(a: seq<Command>, b: seq<Command>, lo: nat, hi: nat)
    requires lo <= hi <= |a|
    ensures (a + b)[lo..hi] == a[lo..hi]
  {
  }

  /** The slice after the first part of a concatenation is the second part. */
  lemma SliceIsSuffix(a: seq<Command>, b: seq<Command>)
    ensures (a + b)[|a|..|a| + |b|] == b
  {
  }

  lemma {:induction false} RunTraceLength(n: nat)
    ensures |RunTrace(n)| == 5 * n
  {
    if n > 0 {
      RunTraceLength(n - 1);
    }
  }

  /** Every trial a run records has alpha above the stop threshold (or was on the board before). */
  lemma {:induction false} RunRecordsAboveStop(board: seq<Trial>, n: nat, t: Trial)
    requires n <= FullRun
    requires t in RunBoard(board, n)
    ensures t in board || t.alpha > StopAlpha
  {
    if n > 0 {
      RunRowOrigin(board, n, t);
      if t in RunBoard(board, n - 1) {
        RunRecordsAboveStop(board, n - 1, t);
      } else {
        TrialAboveStop(n - 1);
      }
    }
  }

  /** A row on the board after n trials was there after n - 1 trials or is the n-th trial's row. */
  lemma RunRowOrigin(board: seq<Trial>, n: nat, t: Trial)
    requires n > 0 && t in RunBoard(board, n)
    ensures t in RunBoard(board, n - 1) || t == TrialOf(GainsAfter(n - 1))
  {
    RunBoardStep(board, n);
    UpdateRowOrigin(RunBoard(board, n - 1), TrialOf(GainsAfter(n - 1)), t);
  }

  /** The first trial of every run sends exactly: reset, kp 1.0, ki 0.5, kd 0.1, alpha 0.9. */
  lemma RunOpensWithInitialGains(n: nat)
    requires n > 0
    ensures RunTrace(n)[..5] == [ResetPid, SetKp(1.0), SetKi(0.5), SetKd(0.1), SetAlpha(0.9)]
  {
    RunTraceLayout(n, 0);
  }

  /** A run keeps the leaderboard sorted and at most three rows long. */
  lemma {:induction false} RunBoardBounded(board: seq<Trial>, n: nat)
    requires Sorted(board) && |board| <= Capacity
    ensures Sorted(RunBoard(board, n)) && |RunBoard(board, n)| == Min(Capacity, |board| + n)
  {
    if n > 0 {
      RunBoardBounded(board, n - 1);
      RunBoardStep(board, n);
    }
  }

  /** The trials of a full run all have alpha above the stop threshold. */
  lemma TrialAboveStop(i: nat)
    requires i < FullRun
    ensures TrialOf(GainsAfter(i)).alpha > StopAlpha
  {
    StopsAfterForty(i);
  }

  /** What a run leaves on a valid board: still valid, and every new row above the stop threshold. */
  lemma RunBoardFacts(board: seq<Trial>, n: nat)
    requires Sorted(board) && |board| <= Capacity && n <= FullRun
    ensures Sorted(RunBoard(board, n)) && |RunBoard(board, n)| <= Capacity
    ensures forall t :: t in RunBoard(board, n) ==> t in board || t.alpha > StopAlpha
  {
    RunBoardBounded(board, n);
    forall t | t in RunBoard(board, n) ensures t in board || t.alpha > StopAlpha {
      RunRecordsAboveStop(board, n, t);
    }
  }

  lemma RunTraceStep(n: nat)
    ensures RunTrace(n + 1) == RunTrace(n) + TrialCommands(GainsAfter(n))
  {
  }

  lemma RunBoardStep(board: seq<Trial>, n: nat)
    requires n > 0
    ensures RunBoard(board, n) == Update(RunBoard(board, n - 1), TrialOf(GainsAfter(n - 1)))
  {
  }
}

/**
 * The desk-side application object: the flags the operator's buttons flip,
 * the leaderboard, the latest telemetry angle, and the command lines written
 * to the serial port, kept as the sequence `sent` in the order written.
 *
 * Threads, sleeps, the widget toolkit and the serial driver are not modelled:
 * each loop of the source is a method that consumes its inputs as parameters
 * (the telemetry lines that arrive, the loop-top check at which the operator's
 * stop is seen).
 */
module App {
  import opened Wrappers
  import opened Protocol
  import opened Leaderboard
  import opened Telemetry
  import opened Tuning

  class BalancingRobotApp {
    /** Whether the telemetry reader keeps polling. */
    var running: bool
    /** Whether the motor half-bridges were last switched on. */
    var bridgeState: bool
    /** Whether an automatic tuning run is active (or requested). */
    var testing: bool
    /** The best trials so far, best first. */
    var bestCombinations: seq<Trial>
    /** The angle the angle label last showed (the source keeps it only as the label's text). */
    var latestAngle: real
    /** Every command line written to the serial port, oldest first. */
    var sent: seq<Command>

    constructor ()
      ensures running && !bridgeState && !testing
      ensures bestCombinations == [] && latestAngle == 0.0 && sent == []
    {
      running := true;
      bridgeState := false;
      testing := false;
      bestCombinations := [];
      latestAngle := 0.0;
      sent := [];
    }

    /** Writes one command line to the robot. */
    method SendCommand(c: Command)
      modifies this`sent
      ensures sent == old(sent) + [c]
    {
      sent := sent + [c];
    }

    /** Asks the firmware to clear its controller state. */
    method ResetPid()
      modifies this`sent
      ensures sent == old(sent) + [Command.ResetPid]
    {
      SendCommand(Command.ResetPid);
    }

    /** Records a trial: append, stable-sort by error, keep the best three. */
    method UpdateBestCombinations(kp: real, ki: real, kd: real, alpha: real, error: real)
      modifies this`bestCombinations
      ensures bestCombinations == Update(old(bestCombinations), Trial(kp, ki, kd, alpha, error))
      ensures |bestCombinations| <= Capacity && Sorted(bestCombinations)
    {
      bestCombinations := Update(bestCombinations, Trial(kp, ki, kd, alpha, error));
    }

    /** Switches the half-bridges over, telling the robot which way. */
    method ToggleBridge()
      modifies this`bridgeState, this`sent
      ensures bridgeState == !old(bridgeState)
      ensures sent == old(sent) + [if old(bridgeState) then BridgeOff else BridgeOn]
    {
      if bridgeState {
        SendCommand(BridgeOff);
        bridgeState := false;
      } else {
        SendCommand(BridgeOn);
        bridgeState := true;
      }
    }

    /**
     * The start button: starts a tuning run when none is active, and
     * otherwise stops the active one. `spawned` says whether a run starts.
     */
    method StartTesting() returns (spawned: bool)
      modifies this`testing
      ensures testing == !old(testing)
      ensures spawned == !old(testing)
    {
      if !testing {
        testing := true;
        spawned := true;
      } else {
        testing := false;
        spawned := false;
      }
    }

    /**
     * One pass of the tuning loop's body: score g, reset the controller, send
     * the four gains, record the trial, and step to the next candidate.
     */
    method TuningIteration(g: Gains) returns (next: Gains)
      modifies this`sent, this`bestCombinations
      ensures sent == old(sent) + TrialCommands(g)
      ensures bestCombinations == Update(old(bestCombinations), TrialOf(g))
      ensures next == Step(g)
    {
      var error := PlaceholderError(g);
      ResetPid();
      SendCommand(SetKp(g.kp));
      SendCommand(SetKi(g.ki));
      SendCommand(SetKd(g.kd));
      SendCommand(SetAlpha(g.alpha));
      UpdateBestCombinations(g.kp, g.ki, g.kd, g.alpha, error);
      next := Gains(g.kp + 0.1, g.ki + 0.05, g.kd + 0.01, g.alpha - 0.01);
    }

    /** The n-th trial of a run: one loop body, seen as a step of the run's trace and board. */
    method RunTrial(g: Gains, ghost n: nat, ghost sent0: seq<Command>, ghost board0: seq<Trial>)
      returns (next: Gains)
      requires g == GainsAfter(n)
      requires sent == sent0 + RunTrace(n)
      requires bestCombinations == RunBoard(board0, n)
      modifies this`sent, this`bestCombinations
      ensures next == GainsAfter(n + 1)
      ensures sent == sent0 + RunTrace(n + 1)
      ensures bestCombinations == RunBoard(board0, n + 1)
      ensures next.alpha <= StopAlpha <==> n + 1 >= FullRun
    {
      StopsAfterForty(n + 1);
      RunBoardStep(board0, n + 1);
      RunTraceStep(n);
      next := TuningIteration(g);
      assert sent == sent0 + (RunTrace(n) + TrialCommands(g));
    }

    /**
     * The tuning run. `stop` is the operator's stop request: Some(k) means the
     * button was pressed while the k-th trial was under way (or before the
     * first, for k = 0), so the loop-top check after k trials sees it.
     */
    method RunTesting(stop: Option<nat>) returns (trials: nat)
      modifies this`testing, this`sent, this`bestCombinations
      ensures !testing
      ensures trials == if old(testing) then RunLength(stop) else 0
      ensures sent == old(sent) + RunTrace(trials)
      ensures bestCombinations == RunBoard(old(bestCombinations), trials)
    {
      ghost var sent0, board0 := sent, bestCombinations;
      ghost var expected := if testing then RunLength(stop) else 0;
      var g := Initial;
      trials := 0;
      if stop == Some(0) {
        testing := false;
      }
      while testing
        invariant g == GainsAfter(trials)
        invariant trials <= expected
        invariant testing ==> trials < expected && expected == RunLength(stop)
        invariant !testing ==> trials == expected
        invariant sent == sent0 + RunTrace(trials)
        invariant bestCombinations == RunBoard(board0, trials)
        decreases FullRun - trials
      {
        g := RunTrial(g, trials, sent0, board0);
        trials := trials + 1;
        if g.alpha <= StopAlpha {
          testing := false;
          break;
        }
        if stop == Some(trials) {
          testing := false;
        }
      }
    }

    /**
     * One telemetry line: strip it, drop the angle label if it leads, parse
     * the rest; a line that does not parse leaves the angle as it was.
     */
    method ReadFrame(line: string, parse: string -> Option<real>) returns (decoded: bool)
      modifies this`latestAngle
      ensures decoded == DecodeFrame(line, parse).Some?
      ensures latestAngle == if decoded then DecodeFrame(line, parse).value else old(latestAngle)
    {
      var response := Strip(line);
      if StartsWith(response, AngleLabel) {
        response := Strip(RemoveAll(response, AngleLabel));
      }
      var angle := parse(response);
      match angle
      case Some(a) =>
        latestAngle := a;
        decoded := true;
      case None =>
        decoded := false;
    }

    /**
     * The telemetry reader: while running, takes the lines that arrive, in
     * order, and shows the angle of each one that parses.
     */
    method ReadAngles(frames: seq<string>, parse: string -> Option<real>) returns (updates: nat)
      modifies this`latestAngle
      ensures latestAngle == LatestAngle(old(latestAngle), if running then frames else [], parse)
      ensures updates == CountDecoded(if running then frames else [], parse)
    {
      var i := 0;
      updates := 0;
      while running && i < |frames|
        invariant 0 <= i <= |frames|
        invariant !running ==> i == 0
        invariant latestAngle == LatestAngle(old(latestAngle), frames[..i], parse)
        invariant updates == CountDecoded(frames[..i], parse)
      {
        OutcomesStep(old(latestAngle), frames, parse, i);
        var decoded := ReadFrame(frames[i], parse);
        if decoded {
          updates := updates + 1;
        }
        i := i + 1;
      }
      assert running ==> frames[..i] == frames;
    }

    /** The exit button: stops the telemetry reader and any tuning run. */
    method ExitApp()
      modifies this`running, this`testing
      ensures !running && !testing
    {
      running := false;
      testing := false;
    }
  }
}

# Balancing robot: automatic PID tuning controller

This project models the desk-side controller of the self-balancing robot,
the `BalancingRobotApp` object in
`examples/balancingRobot/balancingRobot/auto_pid.py`. The object drives the
robot's firmware over a serial line. The operator has three buttons:

- switch the motor half-bridges on or off;
- start or stop an automatic tuning run;
- exit.

A tuning run walks a fixed path through the controller gains
(kp, ki, kd and the complementary-filter weight alpha). Each trial:

1. resets the firmware's controller;
2. sends the four gains;
3. scores them with a placeholder error, the summed distance from fixed target gains;
4. keeps the three best trials on a leaderboard.

A background reader decodes the angle telemetry the firmware prints, such as
`Angle: 12.5` or `-3.0`, and shows the last reading that parses.

The model has six modules:

- `Wrappers` holds `Option`.
- `Protocol` holds the outbound commands as values.
- `Leaderboard` is the best-combinations list. Python's stable `sorted` by
  error is an insertion sort. It is proved sorted, a permutation and stable,
  and to be the only sequence with those three properties.
- `Tuning` holds the gain walk, the placeholder error, and the command trace
  and leaderboard of a whole run, written as functions of the trial count.
- `Telemetry` decodes one line:
  1. strip whitespace;
  2. if the line starts with `Angle:`, delete every `Angle:` and strip again;
  3. parse the rest.

  It also defines the latest angle after a stream of lines.
- `App` is the class `BalancingRobotApp`. Its fields are the ones the source
  updates: `running`, `bridgeState`, `testing` and `bestCombinations`. The
  source keeps no angle field and only rewrites the angle label's text
  (line 67), so the field `latestAngle` stands for the value that label
  shows. Every command written to the serial port is appended to the field
  `sent`, in the order written. Each method is proved against the
  functions above, and the properties of those functions are lemmas.

The source's threads and loops become methods that take what arrives from
outside as parameters:

- the telemetry lines;
- the float parser, as a partial function from text to a real;
- the operator's stop request, given as the number of trials after which
  the loop-top check of `while self.testing` sees `testing` cleared.

Gains are exact reals. An uninterrupted run therefore records exactly
40 trials, from alpha 0.90 down to 0.51.

## Model

| member | source | states |
|---|---|---|
| Leaderboard.Update | examples/balancingRobot/balancingRobot/auto_pid.py:73-78 | the new board has min(3, old length + 1) rows and is sorted by ascending error |
| Leaderboard.SortByError | examples/balancingRobot/balancingRobot/auto_pid.py:78 | the stable sort by error keeps the length; what it computes is stated by SortIsSorted, SortPermutes, SortIsStable and StableSortIsUnique |
| Leaderboard.SortIsSorted | examples/balancingRobot/balancingRobot/auto_pid.py:78 | the sort used for the board returns its rows in ascending order of error |
| Leaderboard.SortPermutes | examples/balancingRobot/balancingRobot/auto_pid.py:78 | the sort returns exactly the rows it was given, each as often (a permutation) |
| Leaderboard.SortIsStable | examples/balancingRobot/balancingRobot/auto_pid.py:78 | the sort is stable: for every error value, the rows with that error keep their input order |
| Leaderboard.StableSortIsUnique | examples/balancingRobot/balancingRobot/auto_pid.py:78 | any sorted rearrangement that keeps every error group in input order equals the model's sort, so the model computes the sort the source calls |
| Leaderboard.SortOfSorted | examples/balancingRobot/balancingRobot/auto_pid.py:78 | sorting an already sorted board leaves it unchanged |
| Leaderboard.InsertPermutes | examples/balancingRobot/balancingRobot/auto_pid.py:76-78 | inserting a trial adds exactly that trial to the rows |
| Leaderboard.InsertKeepsSorted | examples/balancingRobot/balancingRobot/auto_pid.py:76-78 | inserting into a sorted board keeps it sorted |
| Leaderboard.InsertIsStable | examples/balancingRobot/balancingRobot/auto_pid.py:76-78 | an inserted trial lands after every earlier row with the same error |
| Leaderboard.UpdateOfSorted | examples/balancingRobot/balancingRobot/auto_pid.py:76-78 | on a sorted board the update places the newcomer after every row with an equal or smaller error, then cuts to three |
| Leaderboard.TiedNewcomerDropped | examples/balancingRobot/balancingRobot/auto_pid.py:76-78 | on a full board, a newcomer whose error equals or exceeds the third row's is dropped and the board is unchanged (the tie rule) |
| Leaderboard.BetterNewcomerKept | examples/balancingRobot/balancingRobot/auto_pid.py:76-78 | a newcomer strictly better than the third row, or arriving at a board of fewer than three rows, is on the new board |
| Leaderboard.UpdateKeepsTheBest | examples/balancingRobot/balancingRobot/auto_pid.py:76-78 | every kept row has an error no greater than that of every dropped row |
| Leaderboard.UpdateDrawsFromInput | examples/balancingRobot/balancingRobot/auto_pid.py:76-78 | the new board's rows are drawn from the old board plus the newcomer, each at most as often |
| Leaderboard.UpdateRowOrigin | examples/balancingRobot/balancingRobot/auto_pid.py:76-78 | every row of the new board was on the old board or is the newcomer |
| Leaderboard.InsertAllBounded | examples/balancingRobot/balancingRobot/auto_pid.py:73-78 | after any sequence of updates a valid board stays sorted, with min(3, old length + number of updates) rows |
| Tuning.PlaceholderError | examples/balancingRobot/balancingRobot/auto_pid.py:112 | the placeholder error is never negative |
| Tuning.ErrorZeroExactlyAtTarget | examples/balancingRobot/balancingRobot/auto_pid.py:112 | the placeholder error is zero if and only if the gains are kp 1.2, ki 0.6, kd 0.2, alpha 0.7 |
| Tuning.TrialOf | examples/balancingRobot/balancingRobot/auto_pid.py:112-125 | a trial's row carries the gains it was run with and a non-negative error |
| Tuning.Step | examples/balancingRobot/balancingRobot/auto_pid.py:128-131 | one step raises kp, ki and kd and lowers alpha; GainsAfterClosedForm and StopsAfterForty state where n steps lead |
| Tuning.TrialCommands | examples/balancingRobot/balancingRobot/auto_pid.py:115-119 | a trial sends five commands: one reset, first, then kp, ki, kd and alpha carrying exactly the trial's gains; RunTraceLayout places them in the run's trace |
| Tuning.GainsAfterClosedForm | examples/balancingRobot/balancingRobot/auto_pid.py:109-131 | after n steps the gains are kp 1.0 + 0.1n, ki 0.5 + 0.05n, kd 0.1 + 0.01n and alpha 0.9 - 0.01n |
| Tuning.StopsAfterForty | examples/balancingRobot/balancingRobot/auto_pid.py:128-137 | the stop condition alpha <= 0.5 holds after n steps if and only if n >= 40 |
| Tuning.RunLength | examples/balancingRobot/balancingRobot/auto_pid.py:110-137 | a run records at most 40 trials |
| Tuning.TrialAboveStop | examples/balancingRobot/balancingRobot/auto_pid.py:128-137 | every one of the first 40 trials has alpha above 0.5 |
| Tuning.RunTraceLength | examples/balancingRobot/balancingRobot/auto_pid.py:114-119 | n trials send exactly 5n commands |
| Tuning.RunTraceLayout | examples/balancingRobot/balancingRobot/auto_pid.py:114-119 | trial i's commands are positions 5i to 5i+4 of the trace, in the order reset, kp, ki, kd, alpha, and carry that trial's gains before the step |
| Tuning.RunOpensWithInitialGains | examples/balancingRobot/balancingRobot/auto_pid.py:109-119 | a run's first five commands are reset, kp 1.0, ki 0.5, kd 0.1, alpha 0.9 |
| Tuning.RunBoardBounded | examples/balancingRobot/balancingRobot/auto_pid.py:124-125 | a run keeps a valid board sorted, with min(3, old length + trials) rows |
| Tuning.RunRecordsAboveStop | examples/balancingRobot/balancingRobot/auto_pid.py:124-137 | every row on the board after a run was there before or has alpha above 0.5 |
| Tuning.RunBoardFacts | examples/balancingRobot/balancingRobot/auto_pid.py:107-137 | a run leaves a valid board sorted and at most three rows long, and every new row has alpha above 0.5 |
| Telemetry.TrimStart | examples/balancingRobot/balancingRobot/auto_pid.py:52 | the result is a suffix of the text and does not start with whitespace |
| Telemetry.TrimEnd | examples/balancingRobot/balancingRobot/auto_pid.py:52 | the result is a prefix of the text and does not end with whitespace |
| Telemetry.Strip | examples/balancingRobot/balancingRobot/auto_pid.py:52-56 | the result has no whitespace at either end and is no longer than the text; StripMeetsDefinition and StripIsUnique tie it to "whitespace removed from both ends and nothing else" |
| Telemetry.StripMeetsDefinition | examples/balancingRobot/balancingRobot/auto_pid.py:52 | strip removes whitespace from both ends of the text and nothing else |
| Telemetry.StripIsUnique | examples/balancingRobot/balancingRobot/auto_pid.py:52 | any text obtained by removing all leading and trailing whitespace is the result of strip |
| Telemetry.StripIdempotent | examples/balancingRobot/balancingRobot/auto_pid.py:52-56 | stripping twice gives the same as stripping once |
| Telemetry.StripUnchanged | examples/balancingRobot/balancingRobot/auto_pid.py:52 | a text whose first and last characters are not whitespace is its own strip |
| Telemetry.StripLeadingSpace | examples/balancingRobot/balancingRobot/auto_pid.py:56 | stripping whitespace followed by a text without surrounding whitespace gives that text |
| Telemetry.RemoveAll | examples/balancingRobot/balancingRobot/auto_pid.py:56 | deleting the label never lengthens the text; RemoveAllAtFirst, RemoveAllAbsent and RemoveAllDropsLeading state the single left-to-right pass |
| Telemetry.RemoveAllAtFirst | examples/balancingRobot/balancingRobot/auto_pid.py:56 | the text before the first occurrence of the label is kept, that occurrence is deleted, and the pass continues after it |
| Telemetry.RemoveAllAbsent | examples/balancingRobot/balancingRobot/auto_pid.py:56 | deleting the label from a text that does not contain it changes nothing |
| Telemetry.RemoveAllDropsLeading | examples/balancingRobot/balancingRobot/auto_pid.py:56 | a leading label is deleted |
| Telemetry.CleanFrame | examples/balancingRobot/balancingRobot/auto_pid.py:52-56 | the text handed to the parser has no surrounding whitespace and is no longer than the line |
| Telemetry.DecodeFrame | examples/balancingRobot/balancingRobot/auto_pid.py:52-59 | an unlabelled line is parsed stripped; a labelled line whose rest holds no further label is parsed as that rest, stripped |
| Telemetry.LabelledFrame | examples/balancingRobot/balancingRobot/auto_pid.py:55-56 | a line that strips to "Angle:" plus a text holding no further label is cleaned to that text, stripped |
| Telemetry.UnlabelledFrame | examples/balancingRobot/balancingRobot/auto_pid.py:52-55 | a line whose strip does not start with "Angle:" is only stripped |
| Telemetry.InnerLabelRemoved | examples/balancingRobot/balancingRobot/auto_pid.py:55-56 | every occurrence of the label is deleted, not only the leading one: "Angle:", whitespace, a character c that is neither whitespace nor 'A', "Angle:" and a non-empty tail that holds no label and does not end in whitespace are cleaned to c and the tail ("Angle: 1Angle:2" gives "12") |
| Telemetry.PlainFrame | examples/balancingRobot/balancingRobot/auto_pid.py:52-59 | a line with no surrounding whitespace that does not start with "Angle:" goes to the parser whole |
| Telemetry.LabelledNumber | examples/balancingRobot/balancingRobot/auto_pid.py:55-59 | "Angle:", whitespace and any number text that holds no label and has no surrounding whitespace are cleaned to the number text |
| Telemetry.DecodeSpacedReading | examples/balancingRobot/balancingRobot/auto_pid.py:55-59 | "Angle: " followed by any number text holding no label decodes to what the parser makes of that text |
| Telemetry.DecodeTightReading | examples/balancingRobot/balancingRobot/auto_pid.py:55-59 | "Angle:" directly followed by any number text holding no label decodes to what the parser makes of that text |
| Telemetry.OutcomeAt | examples/balancingRobot/balancingRobot/auto_pid.py:50-59 | the i-th outcome of a stream is the decoding of its i-th line |
| Telemetry.NoDecodeKeepsAngle | examples/balancingRobot/balancingRobot/auto_pid.py:53-62 | when no line parses, the shown angle stays the one before and no update happens |
| Telemetry.LatestIsLastDecoded | examples/balancingRobot/balancingRobot/auto_pid.py:50-62 | the shown angle is the value of the last line that parses |
| Telemetry.MixedStream | examples/balancingRobot/balancingRobot/auto_pid.py:50-62 | for any number texts n1 and n2 that hold no label and have no surrounding whitespace, and any junk line that does not decode, the stream "Angle: n1", junk, "Angle:n2", "" causes exactly two updates and leaves n2's value |
| App.BalancingRobotApp.constructor | examples/balancingRobot/balancingRobot/auto_pid.py:11-21 | a new app is running, with the bridge off, no run active, an empty board, the angle label at 0.0 and nothing sent |
| App.BalancingRobotApp.SendCommand | examples/balancingRobot/balancingRobot/auto_pid.py:141-143 | exactly the given command is appended to what was sent |
| App.BalancingRobotApp.ResetPid | examples/balancingRobot/balancingRobot/auto_pid.py:149-151 | exactly one reset command is appended to what was sent |
| App.BalancingRobotApp.UpdateBestCombinations | examples/balancingRobot/balancingRobot/auto_pid.py:73-78 | the board becomes the update of the old board by the given trial and stays sorted, with at most three rows |
| App.BalancingRobotApp.ToggleBridge | examples/balancingRobot/balancingRobot/auto_pid.py:85-94 | the bridge state flips, and exactly one command is sent: "bridge off" if the bridge was on, otherwise "bridge on" |
| App.BalancingRobotApp.StartTesting | examples/balancingRobot/balancingRobot/auto_pid.py:96-105 | the testing flag flips, and a run starts exactly when none was active |
| App.BalancingRobotApp.TuningIteration | examples/balancingRobot/balancingRobot/auto_pid.py:112-131 | one iteration sends the five commands of the trial with the gains before the step, records those gains with their error on the board, and returns the stepped gains |
| App.BalancingRobotApp.RunTrial | examples/balancingRobot/balancingRobot/auto_pid.py:110-137 | the n-th iteration extends the run's trace and board by the n-th trial, and the new gains reach the stop condition exactly when n + 1 >= 40 |
| App.BalancingRobotApp.RunTesting | examples/balancingRobot/balancingRobot/auto_pid.py:107-137 | a run ends with testing cleared after RunLength(stop) trials (none if testing was already off); the commands sent and the board are those of exactly that many trials |
| App.BalancingRobotApp.ReadFrame | examples/balancingRobot/balancingRobot/auto_pid.py:52-62 | a line that decodes sets the angle to the decoded value, and one that does not leaves the angle unchanged |
| App.BalancingRobotApp.ReadAngles | examples/balancingRobot/balancingRobot/auto_pid.py:48-63 | while running, the angle ends at the stream's latest decoded value and the number of updates is the number of lines that parse; when not running, nothing changes |
| App.BalancingRobotApp.ExitApp | examples/balancingRobot/balancingRobot/auto_pid.py:153-156 | exiting leaves both running and testing false |

## Left out

- The widget toolkit is not modelled: the window, the labels, the button colours and texts, the display of the current gains and the leaderboard text with its two-decimal error (`update_angle_label`, `update_pid_label`, lines 65-71, 79-83), and `root.destroy` on exit.
- Serial I/O is reduced to the list of commands written. The model does not cover the text rendering of gain values on the wire (Python's float formatting), the UTF-8 encoding, the firmware's acknowledgement line that `send_command` reads and prints, or a port that fails mid-run.
- Telemetry bytes are taken as already-decoded text. The UTF-8 decoding that silently drops undecodable bytes is not modelled.
- The float parser is a parameter, a partial function from text to a real. The printing of rejected lines is left out.
- Threads, sleeps and the `in_waiting` polling are not modelled. Each loop is a method over the inputs that arrive. Races between the reader, the tuning thread and the buttons are not modelled, including a second run started while one is still running.
- ReadAngles: the reader's `running` check is taken at the start only, because no other thread can clear it in the model. An exit in the middle of a stream is therefore not modelled.
- RunTesting: the gains are exact reals, so an uninterrupted run records exactly 40 trials. The source steps binary floats (lines 128-134): after 40 steps its alpha is just below 0.5 (about 0.49999999999999967), so its run also stops after 40 trials, but the gains it sends and records carry rounding error that the model does not capture.
- RunTesting: the operator's stop is seen only at the loop-top check, given by the parameter `stop`. A stop pressed during an iteration lets that iteration finish, as in the source.
- A start request that is ignored while a run is active does not exist in the source: start_testing toggles (lines 96-105), so pressing start during a run stops it, and StartTesting models exactly that.
- The `main` function (port configuration and opening the connection) is not modelled.

# Wink-code command centre: the input state machine

This project models the frame loop of ECOS. ECOS is a webcam "command centre".
A thumbs-up wakes it. The user then enters a binary code by winking: the right
eye alone gives 1, the left eye alone gives 0. Once the code has `max_digit`
symbols, it is looked up in a table of commands. A match shows SUCCESS and
runs the command's action. No match shows FAIL. After `reset_delay` the
screen returns to STANDBY.

The camera, the landmark detectors and everything drawn on screen are
external. A tick sees an abstract frame: an optional hand pose (the y
coordinates of hand landmarks 3, 4, 6, 8, 10 and 12) and an optional face,
reduced to "left eye closed" and "right eye closed". The clock is an integer
number of milliseconds passed in by the host. So the default `input_delay` of
1.0 s is 1000 and the default `reset_delay` of 3.0 s is 3000.

Modules, leaves first:

- `Types` (types.dfy): frames, commands, the configuration record, the four
  phases, and the built-in default configuration `DefaultConfig`.
- `Classifier` (classifier.dfy): the thumbs-up test.
- `Debouncer` (debouncer.dfy): which symbol an eye state stands for, and the
  latch/cooldown logic for one face frame.
- `Matcher` (matcher.dfy): first-match lookup. It has two forms: a recursive
  specification `FirstMatch`, and the table scan `FindCommand`, a loop that
  stops at the first equal code.
- `Machine` (machine.dfy): everything the loop carries between iterations, as
  the value `Snapshot`. Also:
  - `Step`, one iteration as a function;
  - the action requested (`Emitted`) and the stop flag (`KeepsRunning`);
  - the invariant `Inv`;
  - runs of ticks (`Run`, `AcceptTimes`);
  - the lemmas.
- `SessionLoop` (session.dfy): the class `Session`. Its fields are the loop's
  variables. `Tick` is the loop body, written imperatively, and is proved equal
  to `Step`. `Tick` returns the action id to dispatch (if any) and whether the
  host should keep running.
- `Scenarios` (scenarios.dfy): concrete sessions worked through tick by tick.

## Model

| member | source | states |
|---|---|---|
| `Classifier.ThumbsUpIgnoresPlacement` | main.py:88-91 | The thumbs-up test (thumb tip above the thumb joint, index and middle tips below their middle joints) compares landmarks of one hand only. Moving the hand vertically or scaling it by a positive factor does not change the verdict. |
| `Debouncer.Candidate` | main.py:116-118 | An eye state stands for 1 exactly when the right eye alone is closed. It stands for 0 exactly when the left eye alone is closed. It stands for no symbol when both eyes, or neither, are closed. |
| `Debouncer.Debounce` | main.py:111-126 | A symbol comes out exactly when all of these hold: the latch is open, `now - last_input_time >= input_delay`, one eye alone is closed, and the sequence has room. A symbol sets the latch and restarts the cooldown at `now`. Otherwise the timestamp is kept. A set latch opens only when both eyes are open. With the latch open and no symbol, the latch is set only by the both-eyes pause gesture outside the cooldown. |
| `Matcher.FirstMatch` | main.py:128-140 | Returns the index of a command whose code equals the sequence, with no earlier row equal. Returns none exactly when no row is equal. |
| `Matcher.FindCommand` | main.py:129-139 | The in-order scan with `break` returns exactly `FirstMatch`. |
| `Matcher.EarlierDuplicateWins` | main.py:130-137 | When two rows have the same code, the later one is never reported. |
| `Machine.InitialValid` | main.py:54-61 | The start state (STANDBY, empty sequence, latch open, timers 0) satisfies the invariant. |
| `Machine.StepPreservesInv` | main.py:80-210 | Every tick keeps the invariant. The sequence never exceeds `max_digit` and holds only 0s and 1s. STANDBY has an empty sequence. INPUT never holds a full sequence (except the empty one when `max_digit` is 0). SUCCESS holds a full sequence whose first matching row is the triggered name and action. FAIL holds a full sequence that no row matches. |
| `Machine.AcceptedSymbol` | main.py:111-123 | A symbol is appended exactly on ticks that meet all of: INPUT, a face, the latch open, the cooldown over, one eye alone closed, room left. The symbol is 1 iff the right eye alone is closed and 0 iff the left eye alone is closed. The tick also sets the latch and sets `last_input_time := now`. On every other tick `last_input_time` is unchanged and the sequence is unchanged or emptied. |
| `Machine.PauseGesture` | main.py:113-116 | Both eyes closed, with the latch open and the cooldown over: the latch is set. No symbol is added and `last_input_time` is unchanged. |
| `Machine.LatchedDebouncer` | main.py:113-126 | While latched, no symbol is appended and the timestamp stays. The latch opens iff the frame has a face with both eyes open. |
| `Machine.CompletionDecides` | main.py:128-142 | A face frame in INPUT that leaves the sequence full goes to SUCCESS with the name and action of the first matching row, or to FAIL when no row matches. Either way `state_timer := now`. Every other INPUT tick stays in INPUT. |
| `Machine.FullSequenceLeavesInput` | main.py:120-142 | The tick that accepts the last digit leaves INPUT for SUCCESS or FAIL on that same tick. |
| `Machine.NoFaceNoChange` | main.py:100-103 | A frame without a face leaves every variable unchanged in INPUT. |
| `Machine.ActivationOnlyInStandby` | main.py:80-94 | In STANDBY, a thumbs-up gives INPUT with an empty sequence and the reloaded configuration. It keeps the latch, `last_input_time` and the triggered fields. Any other STANDBY frame changes nothing. Outside STANDBY the hand is ignored. |
| `Machine.ResultTimeout` | main.py:163-210 | In SUCCESS or FAIL the state returns to STANDBY with an empty sequence exactly when `now - state_timer > reset_delay` (strictly). Before that nothing changes. A terminating action leaves the state alone and stops the loop. |
| `Machine.SuccessRepeatsAction` | main.py:164-208 | The action is requested on every tick spent in SUCCESS. A tick that does not time out stays in SUCCESS, and the next tick requests the same action again. |
| `Machine.RunPreservesInv` | main.py:65-210 | The invariant, and so the length bound, holds after any number of iterations. |
| `Machine.AcceptedSymbolsAreSpaced` | main.py:111-123 | Over any run, each accepted symbol's time is at least `input_delay` after the previous accepted symbol. This includes the one before the run, as `last_input_time`, and holds across resets and reactivations. |
| `Machine.HeldWinkChangesNothing` | main.py:113-128 | A latched INPUT state with room left stays exactly as it is, accepting nothing, for as long as the eyes never open together. |
| `Machine.LatchedHoldAcceptsNothing` | main.py:113-126 | Once the latch is set, a wink held over any frames accepts no symbol. This holds in every phase, so it also covers a latch carried across a reset and a new activation. |
| `Machine.HeldWinkAcceptsAtMostOne` | main.py:111-126 | A wink held over any number of frames yields at most one symbol, however it starts: latched or not, inside the cooldown or not, with any room left. |
| `Machine.OneSymbolPerWink` | main.py:113-126 | A held wink whose first frame is accepted yields exactly one symbol, at the time of that frame. This includes the last digit. When the digit is not the last, the whole held run ends in the state the first frame produced: INPUT, with exactly that symbol appended. |
| `SessionLoop.Session.constructor` | main.py:54-61 | A new session is the start state with the start-up configuration. |
| `SessionLoop.Session.Tick` | main.py:80-210 | The loop body. The new state is `Step` of the old one. The emitted action is the triggered `action_id` exactly when the old phase is SUCCESS. The loop stops exactly when that action is `terminate_app`. The invariant is kept. |
| `SessionLoop.Session.ReadEyes` | main.py:111-126 | The in-place debouncer and guarded append match the debouncer specification. |
| `SessionLoop.Session.CheckCode` | main.py:128-142 | The in-place command lookup matches the completion rule. |
| `SessionLoop.Session.ShowResult` | main.py:163-210 | The result screen: it emits the action in SUCCESS and stops on `terminate_app` before the timeout check; otherwise it times out to STANDBY. |
| `Scenarios.ScenarioMatchingCode` | main.py:100-142 | Left, open, right, open, left against the table {010} with no cooldown ends in SUCCESS with sequence 010. |
| `Scenarios.ScenarioMatchingCodeSymbols` | main.py:111-123 | In that run, exactly the three winks are accepted, at times 10, 30 and 50. |
| `Scenarios.ScenarioUnknownCode` | main.py:128-142 | Three right winks enter 111, which the table {010} does not contain, so the run ends in FAIL with the timer set. |
| `Scenarios.ScenarioHeldWink` | main.py:113-126 | A right wink held for five frames with two digits gives the sequence 1, still in INPUT, latched. |
| `Scenarios.ScenarioPause` | main.py:113-126 | Both eyes closed, then both open: latched, then released, with no symbol added. |
| `Scenarios.ScenarioThumbInInput` | main.py:80-100 | A thumbs-up during INPUT changes nothing. |
| `Scenarios.ScenarioRoundTrip` | main.py:80-210 | From the start state: thumbs-up, the code 010 with a one-second cooldown, then SUCCESS requesting the action. The machine is unchanged 3000 ms after success and is back in STANDBY with an empty sequence at 3001 ms. |
| `Scenarios.DefaultLogin` | main.py:11-19 | With the built-in configuration, 010101 triggers DEFAULT LOGIN with action `login`. |

## Behaviour of the code worth knowing

- Activation (main.py:91-94) empties the sequence and reloads the
  configuration. It does not clear `wink_active` or `last_input_time` (see
  `Machine.ActivationOnlyInStandby`). A latch still set at the end of one
  session, and a recent timestamp, carry over into the next session.
- The action is dispatched on every iteration spent in SUCCESS, before the
  timeout check (main.py:164-208; see `Machine.SuccessRepeatsAction`). With
  `play_youtube`, the 5-second sleep outlasts the default 3-second reset delay,
  so the browser opens twice: once on entry and once on the tick that then
  times out.
- `terminate_app` calls `exit(0)` before the timeout check (main.py:189-198).
  The model stops the loop (`keepRunning` false) and leaves the state as it
  was.
- The model emits any triggered action id. The code acts only on
  `play_youtube` and `terminate_app`; any other id, including the default
  `login`, does nothing (main.py:173-201).
- A candidate symbol that does not fit any more is dropped without setting the
  latch (main.py:120-122). In reachable states, INPUT holds a full sequence
  only when `max_digit` is 0, so that is the only case in which the guard fires.

## Left out

- Camera capture, flipping and colour conversion, the mediapipe detectors, all
  drawing and windows, the `q` key and the end-of-stream `break`
  (main.py:32-36, 63-75, 81-83, 144-158, 165-206, 212-217): I/O and user
  interface.
- `calculate_distance` and `get_blink_ratio` (main.py:38-49): floating-point
  geometry. The frame carries the two eye-closed booleans directly, so
  `blink_threshold` is not part of `Config`. In the source a zero eye width
  gives ratio 0, which counts as closed for any positive threshold.
- Reading `config.json` in `load_config` (main.py:21-28): file I/O. The
  startup configuration is the constructor's parameter. What the reload on
  activation returns is the `loaded` parameter of `Tick`. A file whose
  `max_digit` is negative or not an integer, or that lacks a key (the source
  would raise), is not modelled.
- `webbrowser.open`, `pyautogui.press`, `time.sleep` and `exit`
  (main.py:181-198): foreign side effects. They become the emitted action id
  and the `keepRunning` flag.
- `time.time()` (main.py:75): the clock is the `now` parameter, in whole
  milliseconds. The source's float seconds are not modelled below 1 ms.
- The loop over detected hands (main.py:86): the hand detector is created
  with `max_num_hands=1` (main.py:33), so a frame carries at most one hand.
- `print` output (main.py:95, 124, 136, 182, 185, 195): console logging.
- Machine.AcceptedSymbolsAreSpaced: stated for runs in which every reload
  returns the session's current configuration. If a reload changes
  `input_delay` between sessions, the first symbol of the new session is
  spaced by the new delay. This follows from `Machine.AcceptedSymbol` but is
  not stated as a run lemma.

/** The frame loop's mutable state as one object; `Tick` is the body of the
    loop with the camera, drawing and operating-system effects taken out. */
module SessionLoop {
  import opened Types
  import opened Classifier
  import opened Matcher
  import opened Machine

  class Session {
    var phase: Phase
    var sequence: seq<int>
    var winkActive: bool
    var stateTimer: int
    var lastInputTime: int
    var triggeredName: string
    var triggeredAction: string
    var config: Config

    /** The state as a value, for stating what a tick does. */
    function State(): Snapshot
      reads this
    {
      Snapshot(phase, sequence, winkActive, stateTimer, lastInputTime,
               triggeredName, triggeredAction, config)
    }

    ghost predicate Valid()
      reads this
    {
      Inv(State())
    }

    /** A fresh session in STANDBY with the configuration loaded at start-up. */
    constructor (config: Config)
      ensures Valid() && State() == Initial(config)
    {
      phase := Standby;
      sequence := [];
      winkActive := false;
      stateTimer := 0;
      lastInputTime := 0;
      triggeredName := "";
      triggeredAction := "";
      this.config := config;
    }

    /** One iteration: `frame` is what the detectors found, `now` the clock
        reading in milliseconds, and `loaded` what reloading the configuration
        returns. Returns the action to dispatch, if any, and whether the host
        loop goes on. */
    method Tick(frame: Frame, now: int, loaded: Config) returns (emitted: Option<string>, keepRunning: bool)
      requires Valid()
      modifies this
      ensures Valid()
      ensures State() == Step(old(State()), TickInput(frame, now, loaded))
      ensures emitted == Emitted(old(State()))
      ensures keepRunning == KeepsRunning(old(State()))
    {
      ghost var before := State();
      emitted, keepRunning := None, true;
      if phase == Standby {
        if frame.hand.Some? && ThumbsUp(frame.hand.value) {
          phase := Input;
          sequence := [];
          config := loaded;
        }
      } else if phase == Input {
        if frame.face.Some? {
          ReadEyes(frame.face.value, now);
          CheckCode(now);
        }
      } else {
        emitted, keepRunning := ShowResult(now);
      }
      StepPreservesInv(before, TickInput(frame, now, loaded));
    }

    /** The wink debouncer and the guarded append on one face frame. */
    method ReadEyes(eyes: EyeState, now: int)
      modifies this
      ensures State() == AfterDebounce(old(State()), eyes, now)
    {
      var inCooldown := now - lastInputTime < config.inputDelay;
      if !winkActive {
        var inputVal: Option<int> := None;
        if !inCooldown {
          if eyes.leftClosed && eyes.rightClosed {
            winkActive := true;
          } else if eyes.rightClosed && !eyes.leftClosed {
            inputVal := Some(1);
          } else if eyes.leftClosed && !eyes.rightClosed {
            inputVal := Some(0);
          }
        }
        if inputVal.Some? && |sequence| < config.maxDigit {
          sequence := sequence + [inputVal.value];
          winkActive := true;
          lastInputTime := now;
        }
      } else if !eyes.leftClosed && !eyes.rightClosed {
        winkActive := false;
      }
    }

    /** A full sequence is looked up in the command table. */
    method CheckCode(now: int)
      modifies this
      ensures State() == Complete(old(State()), now)
    {
      if |sequence| == config.maxDigit {
        var found := FindCommand(sequence, config.commands);
        if found.Some? {
          phase := Success;
          triggeredName := config.commands[found.value].name;
          triggeredAction := config.commands[found.value].actionId;
        } else {
          phase := Fail;
        }
        stateTimer := now;
      }
    }

    /** The result screen: in SUCCESS request the triggered action (a
        terminating one ends the loop at once), then time out to STANDBY. */
    method ShowResult(now: int) returns (emitted: Option<string>, keepRunning: bool)
      requires phase == Success || phase == Fail
      modifies this
      ensures State() == Step(old(State()), TickInput(Frame(None, None), now, old(config)))
      ensures emitted == Emitted(old(State()))
      ensures keepRunning == KeepsRunning(old(State()))
    {
      emitted, keepRunning := None, true;
      if phase == Success {
        emitted := Some(triggeredAction);
        if triggeredAction == TerminateAction {
          keepRunning := false;
          return;
        }
      }
      if now - stateTimer > config.resetDelay {
        phase := Standby;
        sequence := [];
      }
    }
  }
}

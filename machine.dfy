/** The session state machine STANDBY -> INPUT -> SUCCESS/FAIL -> STANDBY as a
    function of the state before a tick and what the tick observes. This is
    the specification the `Session` class is proved against. */
module Machine {
  import opened Types
  import opened Classifier
  import opened Debouncer
  import opened Matcher

  /** Every variable the frame loop carries from one iteration to the next. */
  datatype Snapshot = Snapshot(
    phase: Phase,
    sequence: seq<int>,
    winkActive: bool,
    stateTimer: int,
    lastInputTime: int,
    triggeredName: string,
    triggeredAction: string,
    config: Config)

  /** What one iteration sees: the frame, the clock, and what loading the
      configuration would return at this moment (used only on activation). */
  datatype TickInput = TickInput(frame: Frame, now: int, loaded: Config)

  /** The state before the first frame. */
  function Initial(config: Config): Snapshot
  {
    Snapshot(Standby, [], false, 0, 0, "", "", config)
  }

  /** A thumbs-up is in view. */
  predicate Activates(f: Frame)
  {
    f.hand.Some? && ThumbsUp(f.hand.value)
  }

  /** The debouncer and the bounded accumulator on one face frame. */
  function AfterDebounce(s: Snapshot, e: EyeState, now: int): Snapshot
  {
    var d := Debounce(s.winkActive, s.lastInputTime, e, now, s.config.inputDelay,
                      |s.sequence| < s.config.maxDigit);
    s.(sequence := if d.symbol.Some? then s.sequence + [d.symbol.value] else s.sequence,
       winkActive := d.winkActive,
       lastInputTime := d.lastInputTime)
  }

  /** A full sequence is looked up and decides the result state. */
  function Complete(s: Snapshot, now: int): Snapshot
  {
    if |s.sequence| != s.config.maxDigit then s
    else
      match FirstMatch(s.sequence, s.config.commands)
      case Some(i) =>
        s.(phase := Success,
           triggeredName := s.config.commands[i].name,
           triggeredAction := s.config.commands[i].actionId,
           stateTimer := now)
      case None => s.(phase := Fail, stateTimer := now)
  }

  /** The result screen times out back to STANDBY. */
  function Expire(s: Snapshot, now: int): Snapshot
  {
    if now - s.stateTimer > s.config.resetDelay then s.(phase := Standby, sequence := [])
    else s
  }

  /** One iteration of the frame loop. A terminating action ends the loop
      before the timeout is looked at, so it leaves the state as it was. */
  function Step(s: Snapshot, t: TickInput): Snapshot
  {
    match s.phase
    case Standby =>
      if Activates(t.frame) then s.(phase := Input, sequence := [], config := t.loaded) else s
    case Input =>
      if t.frame.face.None? then s else Complete(AfterDebounce(s, t.frame.face.value, t.now), t.now)
    case Success =>
      if s.triggeredAction == TerminateAction then s else Expire(s, t.now)
    case Fail =>
      Expire(s, t.now)
  }

  /** The action requested of the host in this iteration. */
  function Emitted(s: Snapshot): Option<string>
  {
    if s.phase == Success then Some(s.triggeredAction) else None
  }

  /** Whether the host loop goes on after this iteration. */
  predicate KeepsRunning(s: Snapshot)
  {
    !(s.phase == Success && s.triggeredAction == TerminateAction)
  }

  /** The triggered command is the first row of the table matching the full sequence. */
  predicate Triggered(s: Snapshot)
  {
    var m := FirstMatch(s.sequence, s.config.commands);
    |s.sequence| == s.config.maxDigit && m.Some? &&
    s.triggeredName == s.config.commands[m.value].name &&
    s.triggeredAction == s.config.commands[m.value].actionId
  }

  /** What holds between any two iterations. */
  predicate Inv(s: Snapshot)
  {
    |s.sequence| <= s.config.maxDigit &&
    (forall i :: 0 <= i < |s.sequence| ==> s.sequence[i] == 0 || s.sequence[i] == 1) &&
    (s.phase == Standby ==> s.sequence == []) &&
    (s.phase == Input ==> |s.sequence| < s.config.maxDigit || s.sequence == []) &&
    (s.phase == Success ==> Triggered(s)) &&
    (s.phase == Fail ==>
       |s.sequence| == s.config.maxDigit && FirstMatch(s.sequence, s.config.commands).None?)
  }

  /** The tick accepts a symbol: INPUT, a face, the latch open, the cooldown
      over, one eye alone closed, and room left in the sequence. */
  predicate Accepts(s: Snapshot, t: TickInput)
  {
    s.phase == Input && t.frame.face.Some? && !s.winkActive &&
    t.now - s.lastInputTime >= s.config.inputDelay &&
    Candidate(t.frame.face.value).Some? &&
    |s.sequence| < s.config.maxDigit
  }

  /** The symbol an accepting tick appends. */
  function SymbolOf(t: TickInput): int
    requires t.frame.face.Some? && Candidate(t.frame.face.value).Some?
  {
    Candidate(t.frame.face.value).value
  }

  /** Iterations one after another. */
  function Run(s: Snapshot, ts: seq<TickInput>): Snapshot
    decreases |ts|
  {
    if ts == [] then s else Run(Step(s, ts[0]), ts[1..])
  }

  /** The clock readings of the ticks that accepted a symbol, in order. */
  function AcceptTimes(s: Snapshot, ts: seq<TickInput>): seq<int>
    decreases |ts|
  {
    if ts == [] then []
    else (if Accepts(s, ts[0]) then [ts[0].now] else []) + AcceptTimes(Step(s, ts[0]), ts[1..])
  }

  /** Every time in `ts` is at least `d` after the one before it, the first at
      least `d` after `prev`. */
  predicate Spaced(prev: int, ts: seq<int>, d: int)
    decreases |ts|
  {
    ts == [] || (ts[0] - prev >= d && Spaced(ts[0], ts[1..], d))
  }

  // ---------------------------------------------------------------------
  // One tick
  // ---------------------------------------------------------------------

  lemma InitialValid(config: Config)
    ensures Inv(Initial(config))
  {
  }

  /** Every tick keeps the invariant; in particular the sequence never grows
      past `maxDigit` and a full sequence never stays in INPUT. */
  lemma StepPreservesInv(s: Snapshot, t: TickInput)
    requires Inv(s)
    ensures Inv(Step(s, t))
  {
  }

  /** A symbol is appended exactly on the ticks `Accepts` names: the symbol
      is 1 for the right eye alone and 0 for the left eye alone, the latch is
      set and the cooldown restarts at `now`. On every other tick the
      timestamp stays and the sequence either stays or is emptied. */
  lemma AcceptedSymbol(s: Snapshot, t: TickInput)
    ensures Accepts(s, t) ==>
      var e := t.frame.face.value;
      Step(s, t).sequence == s.sequence + [SymbolOf(t)] &&
      (SymbolOf(t) == 1 <==> e.rightClosed && !e.leftClosed) &&
      (SymbolOf(t) == 0 <==> e.leftClosed && !e.rightClosed) &&
      Step(s, t).winkActive && Step(s, t).lastInputTime == t.now
    ensures !Accepts(s, t) ==>
      Step(s, t).lastInputTime == s.lastInputTime &&
      (Step(s, t).sequence == s.sequence || Step(s, t).sequence == [])
  {
  }

  /** Both eyes closed while the debouncer is open and out of cooldown: the
      latch is set and nothing else the debouncer owns changes. */
  lemma PauseGesture(s: Snapshot, t: TickInput)
    requires s.phase == Input && !s.winkActive
    requires t.frame.face == Some(EyeState(true, true))
    requires t.now - s.lastInputTime >= s.config.inputDelay
    ensures Step(s, t).winkActive
    ensures Step(s, t).sequence == s.sequence
    ensures Step(s, t).lastInputTime == s.lastInputTime
  {
  }

  /** While latched, no symbol is appended; the latch opens exactly on a face
      frame with both eyes open. */
  lemma LatchedDebouncer(s: Snapshot, t: TickInput)
    requires s.phase == Input && s.winkActive
    ensures Step(s, t).sequence == s.sequence
    ensures Step(s, t).lastInputTime == s.lastInputTime
    ensures !Step(s, t).winkActive <==>
      t.frame.face.Some? && !t.frame.face.value.leftClosed && !t.frame.face.value.rightClosed
  {
  }

  /** A face frame that leaves a full sequence behind moves to SUCCESS with the
      first matching command, or to FAIL when no row matches; either way the
      result timer starts at `now`. No other INPUT tick leaves INPUT. */
  lemma CompletionDecides(s: Snapshot, t: TickInput)
    requires s.phase == Input
    ensures var n := Step(s, t); var m := FirstMatch(n.sequence, n.config.commands);
      (t.frame.face.Some? && |n.sequence| == n.config.maxDigit ==>
         n.stateTimer == t.now &&
         (m.Some? ==> n.phase == Success &&
                      n.triggeredName == n.config.commands[m.value].name &&
                      n.triggeredAction == n.config.commands[m.value].actionId) &&
         (m.None? ==> n.phase == Fail)) &&
      (t.frame.face.None? || |n.sequence| != n.config.maxDigit ==> n.phase == Input)
  {
  }

  /** The tick that accepts the last digit also leaves INPUT: the machine
      never waits in INPUT with a full sequence. */
  lemma FullSequenceLeavesInput(s: Snapshot, t: TickInput)
    requires Accepts(s, t) && |s.sequence| + 1 == s.config.maxDigit
    ensures Step(s, t).phase == Success || Step(s, t).phase == Fail
    ensures Step(s, t).stateTimer == t.now
  {
    CompletionDecides(s, t);
  }

  /** A frame without a face changes nothing in INPUT. */
  lemma NoFaceNoChange(s: Snapshot, t: TickInput)
    requires s.phase == Input && t.frame.face.None?
    ensures Step(s, t) == s
  {
  }

  /** Only STANDBY looks at the hand: there a thumbs-up enters INPUT with an
      empty sequence and the freshly loaded configuration, and keeps the
      debouncer's latch and timestamp; any other frame changes nothing. In
      every other state the hand is ignored. */
  lemma ActivationOnlyInStandby(s: Snapshot, t: TickInput)
    ensures s.phase == Standby && Activates(t.frame) ==>
      Step(s, t) == s.(phase := Input, sequence := [], config := t.loaded)
    ensures s.phase == Standby && !Activates(t.frame) ==> Step(s, t) == s
    ensures s.phase != Standby ==>
      Step(s, t) == Step(s, t.(frame := t.frame.(hand := None)))
  {
  }

  /** The result screen returns to STANDBY with an empty sequence exactly when
      strictly more than `resetDelay` has passed; before that nothing changes.
      A terminating action stops the loop and leaves the state alone. */
  lemma ResultTimeout(s: Snapshot, t: TickInput)
    requires s.phase == Success || s.phase == Fail
    ensures !KeepsRunning(s) ==> Step(s, t) == s
    ensures KeepsRunning(s) ==>
      (Step(s, t).phase == Standby <==> t.now - s.stateTimer > s.config.resetDelay)
    ensures KeepsRunning(s) && t.now - s.stateTimer > s.config.resetDelay ==>
      Step(s, t) == s.(phase := Standby, sequence := [])
    ensures KeepsRunning(s) && t.now - s.stateTimer <= s.config.resetDelay ==>
      Step(s, t) == s
  {
  }

  /** The action is requested on every tick spent in SUCCESS, not only on
      the first: a tick that does not time out leaves the machine in SUCCESS
      and the next tick requests the same action again. */
  lemma SuccessRepeatsAction(s: Snapshot, t: TickInput)
    requires s.phase == Success && s.triggeredAction != TerminateAction
    requires t.now - s.stateTimer <= s.config.resetDelay
    ensures Emitted(s) == Some(s.triggeredAction)
    ensures Emitted(Step(s, t)) == Some(s.triggeredAction)
  {
  }

  // ---------------------------------------------------------------------
  // Runs of ticks
  // ---------------------------------------------------------------------

  lemma {:induction false} RunPreservesInv(s: Snapshot, ts: seq<TickInput>)
    requires Inv(s)
    ensures Inv(Run(s, ts))
    decreases |ts|
  {
    if ts != [] {
      StepPreservesInv(s, ts[0]);
      RunPreservesInv(Step(s, ts[0]), ts[1..]);
    }
  }

  /** `ss` lists the state before each tick of `ts` and the state after the last. */
  predicate Follows(ss: seq<Snapshot>, ts: seq<TickInput>)
  {
    |ss| == |ts| + 1 && forall k :: 0 <= k < |ts| ==> Step(ss[k], ts[k]) == ss[k + 1]
  }

  /** A run ends in the last state of any trace that follows it tick by tick. */
  lemma {:induction false} RunFollows(ss: seq<Snapshot>, ts: seq<TickInput>)
    requires Follows(ss, ts)
    ensures Run(ss[0], ts) == ss[|ts|]
    decreases |ts|
  {
    if ts != [] {
      assert Follows(ss[1..], ts[1..]) by {
        forall k | 0 <= k < |ts[1..]| ensures Step(ss[1..][k], ts[1..][k]) == ss[1..][k + 1] {
          assert ss[1..][k] == ss[k + 1] && ts[1..][k] == ts[k + 1] && ss[1..][k + 1] == ss[k + 2];
        }
      }
      RunFollows(ss[1..], ts[1..]);
    }
  }

  /** Accepted symbols are at least `inputDelay` apart, counting from the
      last accepted symbol before the run, as long as reloading returns the
      same configuration. */
  lemma {:induction false} AcceptedSymbolsAreSpaced(s: Snapshot, ts: seq<TickInput>)
    requires forall i :: 0 <= i < |ts| ==> ts[i].loaded == s.config
    ensures Spaced(s.lastInputTime, AcceptTimes(s, ts), s.config.inputDelay)
    decreases |ts|
  {
    if ts != [] {
      var n := Step(s, ts[0]);
      AcceptedSymbol(s, ts[0]);
      assert n.config == s.config;
      assert forall i :: 0 <= i < |ts[1..]| ==> ts[1..][i].loaded == n.config by {
        forall i | 0 <= i < |ts[1..]| ensures ts[1..][i].loaded == n.config {
          assert ts[1..][i] == ts[i + 1];
        }
      }
      AcceptedSymbolsAreSpaced(n, ts[1..]);
      if Accepts(s, ts[0]) {
        assert AcceptTimes(s, ts) == [ts[0].now] + AcceptTimes(n, ts[1..]);
        assert AcceptTimes(s, ts)[1..] == AcceptTimes(n, ts[1..]);
      } else {
        assert AcceptTimes(s, ts) == AcceptTimes(n, ts[1..]);
      }
    }
  }

  /** The eyes keep at least one eye closed (or the face is lost). */
  predicate Holding(t: TickInput)
  {
    t.frame.face.None? || t.frame.face.value.leftClosed || t.frame.face.value.rightClosed
  }

  /** A held wink is latched: while the eyes never open together, a latched
      INPUT state with room left does not change at all. */
  lemma {:induction false} HeldWinkChangesNothing(s: Snapshot, ts: seq<TickInput>)
    requires s.phase == Input && s.winkActive && |s.sequence| < s.config.maxDigit
    requires forall i :: 0 <= i < |ts| ==> Holding(ts[i])
    ensures Run(s, ts) == s
    ensures AcceptTimes(s, ts) == []
    decreases |ts|
  {
    if ts != [] {
      assert Holding(ts[0]);
      assert Step(s, ts[0]) == s;
      assert forall i :: 0 <= i < |ts[1..]| ==> Holding(ts[1..][i]) by {
        forall i | 0 <= i < |ts[1..]| ensures Holding(ts[1..][i]) {
          assert ts[1..][i] == ts[i + 1];
        }
      }
      HeldWinkChangesNothing(s, ts[1..]);
    }
  }

  /** Holding a wink keeps a set latch set in every phase, so a held wink
      that has already latched accepts nothing more, even across a reset and
      a new activation. */
  lemma {:induction false} LatchedHoldAcceptsNothing(s: Snapshot, ts: seq<TickInput>)
    requires s.winkActive
    requires forall i :: 0 <= i < |ts| ==> Holding(ts[i])
    ensures AcceptTimes(s, ts) == []
    decreases |ts|
  {
    if ts != [] {
      assert Holding(ts[0]);
      assert Step(s, ts[0]).winkActive;
      assert forall i :: 0 <= i < |ts[1..]| ==> Holding(ts[1..][i]) by {
        forall i | 0 <= i < |ts[1..]| ensures Holding(ts[1..][i]) {
          assert ts[1..][i] == ts[i + 1];
        }
      }
      LatchedHoldAcceptsNothing(Step(s, ts[0]), ts[1..]);
    }
  }

  /** However a held wink starts (latch open or set, inside the cooldown or
      not, with room for one digit or for many), it yields at most one
      symbol. */
  lemma {:induction false} HeldWinkAcceptsAtMostOne(s: Snapshot, ts: seq<TickInput>)
    requires forall i :: 0 <= i < |ts| ==> Holding(ts[i])
    ensures |AcceptTimes(s, ts)| <= 1
    decreases |ts|
  {
    if ts != [] {
      assert forall i :: 0 <= i < |ts[1..]| ==> Holding(ts[1..][i]) by {
        forall i | 0 <= i < |ts[1..]| ensures Holding(ts[1..][i]) {
          assert ts[1..][i] == ts[i + 1];
        }
      }
      if Accepts(s, ts[0]) {
        AcceptedSymbol(s, ts[0]);
        LatchedHoldAcceptsNothing(Step(s, ts[0]), ts[1..]);
      } else {
        HeldWinkAcceptsAtMostOne(Step(s, ts[0]), ts[1..]);
      }
    }
  }

  /** One wink held over many frames yields exactly one symbol: the first
      frame that is accepted appends it and every later frame of the same wink
      is ignored. When the digit is not the last, the session also stays in
      INPUT with exactly that symbol added. */
  lemma OneSymbolPerWink(s: Snapshot, first: TickInput, rest: seq<TickInput>)
    requires Accepts(s, first)
    requires forall i :: 0 <= i < |rest| ==> Holding(rest[i])
    ensures AcceptTimes(s, [first] + rest) == [first.now]
    ensures |s.sequence| + 1 < s.config.maxDigit ==>
      Run(s, [first] + rest) == Step(s, first) && Step(s, first).phase == Input &&
      Run(s, [first] + rest).sequence == s.sequence + [SymbolOf(first)]
  {
    var ts := [first] + rest;
    assert ts[0] == first && ts[1..] == rest;
    AcceptedSymbol(s, first);
    var n := Step(s, first);
    LatchedHoldAcceptsNothing(n, rest);
    if |s.sequence| + 1 < s.config.maxDigit {
      assert n.phase == Input;
      HeldWinkChangesNothing(n, rest);
    }
  }
}

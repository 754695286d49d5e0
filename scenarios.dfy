/** Concrete runs of the state machine: typical wink-code sessions, worked
    through tick by tick. Each run lists the state after
    every tick and then chains the steps with `RunFollows`. */
module Scenarios {
  import opened Types
  import opened Matcher
  import opened Machine

  const Open := EyeState(false, false)
  const LeftWink := EyeState(true, false)
  const RightWink := EyeState(false, true)
  const BothClosed := EyeState(true, true)
  const Thumb := HandPose(0.5, 0.4, 0.5, 0.6, 0.5, 0.6)

  /** A three-digit table with the single code 010 and no cooldown. */
  const Code010 := Config(3, 0, 3000, [Command("OPEN", [0, 1, 0], PlayAction)])

  function Face(e: EyeState, now: int, c: Config): TickInput
  {
    TickInput(Frame(None, Some(e)), now, c)
  }

  /** INPUT with an empty sequence and an open debouncer. */
  function Entered(c: Config): Snapshot
  {
    Snapshot(Input, [], false, 0, 0, "", "", c)
  }

  // --- left, open, right, open, left, open with the table {010} ---------

  const MatchingTicks := [Face(LeftWink, 10, Code010), Face(Open, 20, Code010),
                          Face(RightWink, 30, Code010), Face(Open, 40, Code010),
                          Face(LeftWink, 50, Code010), Face(Open, 60, Code010)]

  function MatchingStates(): seq<Snapshot>
  {
    var s0 := Entered(Code010);
    var s1 := s0.(sequence := [0], winkActive := true, lastInputTime := 10);
    var s2 := s1.(winkActive := false);
    var s3 := s2.(sequence := [0, 1], winkActive := true, lastInputTime := 30);
    var s4 := s3.(winkActive := false);
    var s5 := s4.(phase := Success, sequence := [0, 1, 0], winkActive := true, lastInputTime := 50,
                  stateTimer := 50, triggeredName := "OPEN", triggeredAction := PlayAction);
    [s0, s1, s2, s3, s4, s5, s5]
  }

  lemma MatchingStepsFirst()
    ensures forall k :: 0 <= k < 3 ==> Step(MatchingStates()[k], MatchingTicks[k]) == MatchingStates()[k + 1]
    ensures forall k :: 0 <= k < 3 ==> (Accepts(MatchingStates()[k], MatchingTicks[k]) <==> k % 2 == 0)
  {
    var ss, ts := MatchingStates(), MatchingTicks;
    assert Step(ss[0], ts[0]) == ss[1] && Accepts(ss[0], ts[0]);
    assert Step(ss[1], ts[1]) == ss[2] && !Accepts(ss[1], ts[1]);
    assert Step(ss[2], ts[2]) == ss[3] && Accepts(ss[2], ts[2]);
  }

  lemma MatchingStepsLast()
    ensures forall k :: 3 <= k < 6 ==> Step(MatchingStates()[k], MatchingTicks[k]) == MatchingStates()[k + 1]
    ensures forall k :: 3 <= k < 6 ==> (Accepts(MatchingStates()[k], MatchingTicks[k]) <==> k % 2 == 0)
  {
    var ss, ts := MatchingStates(), MatchingTicks;
    assert Step(ss[3], ts[3]) == ss[4] && !Accepts(ss[3], ts[3]);
    assert Step(ss[4], ts[4]) == ss[5] && Accepts(ss[4], ts[4]);
    assert Step(ss[5], ts[5]) == ss[6] && !Accepts(ss[5], ts[5]);
  }

  lemma MatchingSteps()
    ensures Follows(MatchingStates(), MatchingTicks)
    ensures forall k :: 0 <= k < 6 ==> (Accepts(MatchingStates()[k], MatchingTicks[k]) <==> k % 2 == 0)
  {
    MatchingStepsFirst();
    MatchingStepsLast();
  }

  /** Left, open, right, open, left: the code 010 matches, so the session
      reaches SUCCESS. */
  lemma ScenarioMatchingCode()
    ensures var n := Run(Entered(Code010), MatchingTicks);
      n.sequence == [0, 1, 0] && n.phase == Success && n.triggeredAction == PlayAction
  {
    MatchingSteps();
    RunFollows(MatchingStates(), MatchingTicks);
  }

  lemma MatchingSymbolsLast()
    ensures AcceptTimes(MatchingStates()[3], MatchingTicks[3..]) == [50]
  {
    var ss, ts := MatchingStates(), MatchingTicks;
    MatchingStepsLast();
    forall k | 3 <= k < 6 ensures ts[k..][0] == ts[k] && ts[k..][1..] == ts[k + 1..] { }
    assert AcceptTimes(ss[6], ts[6..]) == [];
    assert AcceptTimes(ss[5], ts[5..]) == [];
    assert AcceptTimes(ss[4], ts[4..]) == [50];
  }

  /** In the same run exactly the three winks are accepted as symbols. */
  lemma ScenarioMatchingCodeSymbols()
    ensures AcceptTimes(Entered(Code010), MatchingTicks) == [10, 30, 50]
  {
    var ss, ts := MatchingStates(), MatchingTicks;
    MatchingStepsFirst();
    MatchingSymbolsLast();
    forall k | 0 <= k < 3 ensures ts[k..][0] == ts[k] && ts[k..][1..] == ts[k + 1..] { }
    assert AcceptTimes(ss[2], ts[2..]) == [30] + [50];
    assert AcceptTimes(ss[1], ts[1..]) == [30, 50];
    assert AcceptTimes(ss[0], ts[0..]) == [10] + [30, 50];
    assert ts[0..] == ts;
  }

  // --- three right winks with the table {010} -----------------------------

  const UnknownTicks := [Face(RightWink, 10, Code010), Face(Open, 20, Code010),
                         Face(RightWink, 30, Code010), Face(Open, 40, Code010),
                         Face(RightWink, 50, Code010)]

  function UnknownStates(): seq<Snapshot>
  {
    var s0 := Entered(Code010);
    var s1 := s0.(sequence := [1], winkActive := true, lastInputTime := 10);
    var s2 := s1.(winkActive := false);
    var s3 := s2.(sequence := [1, 1], winkActive := true, lastInputTime := 30);
    var s4 := s3.(winkActive := false);
    var s5 := s4.(phase := Fail, sequence := [1, 1, 1], winkActive := true, lastInputTime := 50,
                  stateTimer := 50);
    [s0, s1, s2, s3, s4, s5]
  }

  lemma UnknownSteps()
    ensures forall k :: 0 <= k < 3 ==> Step(UnknownStates()[k], UnknownTicks[k]) == UnknownStates()[k + 1]
  {
    var ss, ts := UnknownStates(), UnknownTicks;
    assert Step(ss[0], ts[0]) == ss[1];
    assert Step(ss[1], ts[1]) == ss[2];
    assert Step(ss[2], ts[2]) == ss[3];
  }

  /** Three right winks enter 111, which no row matches: FAIL. */
  lemma ScenarioUnknownCode()
    ensures var n := Run(Entered(Code010), UnknownTicks);
      n.sequence == [1, 1, 1] && n.phase == Fail && n.stateTimer == 50
  {
    var ss, ts := UnknownStates(), UnknownTicks;
    UnknownSteps();
    assert Step(ss[3], ts[3]) == ss[4];
    assert Code010.commands[0].code[0] != [1, 1, 1][0];
    assert FirstMatch([1, 1, 1], Code010.commands) == None;
    assert Step(ss[4], ts[4]) == ss[5];
    RunFollows(ss, ts);
  }

  // --- a right wink held for five frames, two digits ---------------------

  const TwoDigits := Code010.(maxDigit := 2)

  const HeldTicks := [Face(RightWink, 10, TwoDigits), Face(RightWink, 20, TwoDigits),
                      Face(RightWink, 30, TwoDigits), Face(RightWink, 40, TwoDigits),
                      Face(RightWink, 50, TwoDigits)]

  /** A right wink held for five frames enters one symbol; with two digits
      the session stays in INPUT waiting for the second. */
  lemma ScenarioHeldWink()
    ensures var n := Run(Entered(TwoDigits), HeldTicks);
      n.sequence == [1] && n.phase == Input && n.winkActive
  {
    var s0 := Entered(TwoDigits);
    var s1 := s0.(sequence := [1], winkActive := true, lastInputTime := 10);
    var ss, ts := [s0, s1, s1, s1, s1, s1], HeldTicks;
    assert Step(ss[0], ts[0]) == ss[1];
    assert forall k :: 1 <= k < 5 ==> Step(ss[k], ts[k]) == ss[k + 1];
    RunFollows(ss, ts);
  }

  // --- both eyes closed, then open ---------------------------------------

  /** Closing both eyes latches without a symbol; opening them releases the
      latch, still without a symbol. */
  lemma ScenarioPause()
    ensures var s := Entered(Code010);
      var t1 := Face(BothClosed, 10, Code010);
      Step(s, t1).winkActive && Step(s, t1).sequence == [] &&
      Run(s, [t1, Face(Open, 20, Code010)]) == s
  {
    var s := Entered(Code010);
    var ss, ts := [s, s.(winkActive := true), s], [Face(BothClosed, 10, Code010), Face(Open, 20, Code010)];
    assert Step(ss[0], ts[0]) == ss[1] && Step(ss[1], ts[1]) == ss[2];
    RunFollows(ss, ts);
  }

  /** A thumbs-up during INPUT has no effect. */
  lemma ScenarioThumbInInput()
    ensures var s := Entered(Code010).(sequence := [0]);
      Step(s, TickInput(Frame(Some(Thumb), None), 10, DefaultConfig)) == s
  {
  }

  // --- STANDBY -> INPUT -> SUCCESS -> STANDBY with a one-second cooldown ---

  const Cooled := Code010.(inputDelay := 1000)

  const RoundTicks := [TickInput(Frame(Some(Thumb), None), 5000, Cooled),
                       Face(LeftWink, 6000, Cooled), Face(Open, 6500, Cooled),
                       Face(RightWink, 7000, Cooled), Face(Open, 7500, Cooled),
                       Face(LeftWink, 8000, Cooled)]

  function RoundStates(): seq<Snapshot>
  {
    var s0 := Entered(Cooled);
    var s1 := s0.(sequence := [0], winkActive := true, lastInputTime := 6000);
    var s2 := s1.(winkActive := false);
    var s3 := s2.(sequence := [0, 1], winkActive := true, lastInputTime := 7000);
    var s4 := s3.(winkActive := false);
    var s5 := s4.(phase := Success, sequence := [0, 1, 0], winkActive := true, lastInputTime := 8000,
                  stateTimer := 8000, triggeredName := "OPEN", triggeredAction := PlayAction);
    [Initial(DefaultConfig), s0, s1, s2, s3, s4, s5]
  }

  lemma RoundStepsFirst()
    ensures forall k :: 0 <= k < 3 ==> Step(RoundStates()[k], RoundTicks[k]) == RoundStates()[k + 1]
  {
    var ss, ts := RoundStates(), RoundTicks;
    assert Step(ss[0], ts[0]) == ss[1];
    assert Step(ss[1], ts[1]) == ss[2];
    assert Step(ss[2], ts[2]) == ss[3];
  }

  lemma RoundStepsLast()
    ensures forall k :: 3 <= k < 6 ==> Step(RoundStates()[k], RoundTicks[k]) == RoundStates()[k + 1]
  {
    var ss, ts := RoundStates(), RoundTicks;
    assert Step(ss[3], ts[3]) == ss[4];
    assert Step(ss[4], ts[4]) == ss[5];
    assert Step(ss[5], ts[5]) == ss[6];
  }

  /** The whole round: thumbs-up, the code 010 respecting the one-second
      cooldown, the command's action on the result screen, and after more than
      three seconds STANDBY again with an empty sequence. */
  lemma ScenarioRoundTrip()
    ensures var n := Run(Initial(DefaultConfig), RoundTicks);
      n.phase == Success && Emitted(n) == Some(PlayAction) &&
      Step(n, Face(Open, 11000, Cooled)) == n &&
      Step(n, Face(Open, 11001, Cooled)).phase == Standby &&
      Step(n, Face(Open, 11001, Cooled)).sequence == []
  {
    RoundStepsFirst();
    RoundStepsLast();
    RunFollows(RoundStates(), RoundTicks);
  }

  /** With the built-in configuration, 010101 triggers DEFAULT LOGIN. */
  lemma DefaultLogin()
    ensures var s := Entered(DefaultConfig).(sequence := [0, 1, 0, 1, 0], lastInputTime := 1000);
      var n := Step(s, Face(RightWink, 2000, DefaultConfig));
      n.phase == Success && n.triggeredName == "DEFAULT LOGIN" && n.triggeredAction == "login"
  {
  }
}

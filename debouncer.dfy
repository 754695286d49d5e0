/** Turns per-frame eye closure into at most one symbol per wink, with a
    minimum gap between accepted symbols and a "both eyes" pause gesture. */
module Debouncer {
  import opened Types

  /** The symbol one eye state stands for: 1 for the right eye alone, 0 for
      the left eye alone, nothing when both or neither are closed. */
  function Candidate(e: EyeState): (r: Option<int>)
    ensures r == Some(1) <==> e.rightClosed && !e.leftClosed
    ensures r == Some(0) <==> e.leftClosed && !e.rightClosed
    ensures r.None? <==> e.leftClosed == e.rightClosed
  {
    if e.leftClosed && e.rightClosed then None
    else if e.rightClosed then Some(1)
    else if e.leftClosed then Some(0)
    else None
  }

  /** The debouncer's new latch and timestamp, and the symbol to append. */
  datatype Debounced = Debounced(winkActive: bool, lastInputTime: int, symbol: Option<int>)

  /** One face frame through the debouncer. `room` says whether the sequence
      still has space; a candidate that does not fit is dropped without
      latching. */
  function Debounce(winkActive: bool, lastInputTime: int, e: EyeState, now: int,
                    inputDelay: int, room: bool): (r: Debounced)
    // a symbol is produced exactly when the latch is open, the cooldown is
    // over, one eye alone is closed and the sequence has room
    ensures r.symbol.Some? <==>
      !winkActive && now - lastInputTime >= inputDelay && Candidate(e).Some? && room
    // an accepted symbol latches the debouncer and restarts the cooldown
    ensures r.symbol.Some? ==>
      r.symbol == Candidate(e) && r.winkActive && r.lastInputTime == now
    ensures r.symbol.None? ==> r.lastInputTime == lastInputTime
    // a latched debouncer is released only by a frame with both eyes open
    ensures winkActive ==> (r.winkActive <==> e.leftClosed || e.rightClosed)
    // with the latch open, only the pause gesture latches without a symbol
    ensures !winkActive && r.symbol.None? ==>
      (r.winkActive <==> now - lastInputTime >= inputDelay && e.leftClosed && e.rightClosed)
  {
    if winkActive then
      Debounced(e.leftClosed || e.rightClosed, lastInputTime, None)
    else
      var inCooldown := now - lastInputTime < inputDelay;
      var pause := !inCooldown && e.leftClosed && e.rightClosed;
      var inputVal := if inCooldown then None else Candidate(e);
      if inputVal.Some? && room then Debounced(true, now, inputVal)
      else Debounced(pause, lastInputTime, None)
  }
}

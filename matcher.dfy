/** First-match lookup of an entered sequence in the command table. */
module Matcher {
  import opened Types

  /** The index of the first command, in table order, whose code equals `s`. */
  function FirstMatch(s: seq<int>, commands: seq<Command>): (r: Option<nat>)
    ensures r.Some? ==> r.value < |commands| && commands[r.value].code == s
    ensures r.Some? ==> forall j :: 0 <= j < r.value ==> commands[j].code != s
    ensures r.None? ==> forall j :: 0 <= j < |commands| ==> commands[j].code != s
  {
    if commands == [] then None
    else if commands[0].code == s then Some(0)
    else
      match FirstMatch(s, commands[1..])
      case Some(k) => Some(k + 1)
      case None => None
  }

  /** The table scan: walk the commands in order and stop at the first equal code. */
  method FindCommand(s: seq<int>, commands: seq<Command>) returns (r: Option<nat>)
    ensures r == FirstMatch(s, commands)
  {
    r := None;
    var i := 0;
    while i < |commands|
      invariant 0 <= i <= |commands|
      invariant forall j :: 0 <= j < i ==> commands[j].code != s
    {
      if s == commands[i].code {
        r := Some(i);
        break;
      }
      i := i + 1;
    }
    var m := FirstMatch(s, commands);
    assert m.Some? ==> m.value >= i;
  }

  /** Ties go to the earlier row: a later command with a duplicate code is
      never the match. */
  lemma EarlierDuplicateWins(s: seq<int>, commands: seq<Command>, i: nat, j: nat)
    requires i < j < |commands| && commands[i].code == commands[j].code
    ensures FirstMatch(s, commands) != Some(j)
  {
  }
}

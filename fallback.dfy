/**
 * "Try strategies in order, first success wins": the shape shared by the
 * ffmpeg path search, the framerate and device-name retries and the chain
 * of capture methods. Each attempt's outcome is an input.
 */
module Fallback {
  import opened Wrappers

  /** The position of the first candidate whose attempt succeeds. */
  function FirstSuccessIndex<T>(candidates: seq<T>, succeeds: T -> bool): (r: Option<nat>)
    ensures r.Some? ==> r.value < |candidates| && succeeds(candidates[r.value])
    ensures r.Some? ==> forall j :: 0 <= j < r.value ==> !succeeds(candidates[j])
    ensures r.None? ==> forall j :: 0 <= j < |candidates| ==> !succeeds(candidates[j])
  {
    if |candidates| == 0 then None
    else if succeeds(candidates[0]) then Some(0)
    else
      match FirstSuccessIndex(candidates[1..], succeeds)
      case None => None
      case Some(i) => Some(i + 1)
  }

  /**
   * Tries the candidates one after the other with a counter, as the
   * callback chains do, and stops at the first success. `attempts` is how
   * many were tried: up to and including the winner, or all of them.
   */
  method TryInOrder<T>(candidates: seq<T>, succeeds: T -> bool) returns (winner: Option<nat>, attempts: nat)
    ensures winner == FirstSuccessIndex(candidates, succeeds)
    ensures attempts == if winner.Some? then winner.value + 1 else |candidates|
  {
    var i := 0;
    while i < |candidates|
      invariant 0 <= i <= |candidates|
      invariant forall j :: 0 <= j < i ==> !succeeds(candidates[j])
    {
      if succeeds(candidates[i]) {
        return Some(i), i + 1;
      }
      i := i + 1;
    }
    return None, |candidates|;
  }
}

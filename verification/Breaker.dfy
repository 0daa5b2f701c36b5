/**
 The auto-compact gate and its circuit breaker.
 */
module Breaker {

  /** What running the shrink stages would come to: an exception, or a new token estimate. */
  datatype Stages = Raise | Reach(estimate: int)

  /** One call of the gate. */
  datatype Gate = Gate(estimate: int, threshold: int, stages: Stages)

  datatype Event = Quiet | Reset | Failure | Tripped

  datatype Observed = Observed(failures: nat, event: Event, ran: bool)

  /** The outcome of one gate call with `failures` consecutive failures behind it. */
  function Observe(failures: nat, maximum: int, g: Gate): Observed {
    if g.estimate < g.threshold then Observed(0, if failures > 0 then Reset else Quiet, false)
    else if failures >= maximum then Observed(failures, Quiet, false)
    else if g.stages.Raise? || g.stages.estimate >= g.threshold then
      Observed(failures + 1, if failures + 1 >= maximum then Tripped else Failure, true)
    else Observed(0, if failures > 0 then Reset else Quiet, true)
  }

  class Pipeline {
    const maximum: int
    var failures: nat

    constructor (maximum: int)
      ensures this.maximum == maximum && failures == 0
    {
      this.maximum := maximum;
      failures := 0;
    }

    /** The read-only predicate says exactly whether `AutoCompact` would run the stages now. */
    method ShouldCompact(g: Gate) returns (imminent: bool)
      ensures imminent == Observe(failures, maximum, g).ran
    {
      if g.estimate < g.threshold { return false; }
      if failures >= maximum { return false; }
      return true;
    }

    method RecordFailure() returns (event: Event)
      modifies this
      ensures failures == old(failures) + 1 && event == if failures >= maximum then Tripped else Failure
    {
      failures := failures + 1;
      event := if failures >= maximum then Tripped else Failure;
    }

    method AutoCompact(g: Gate) returns (event: Event, ran: bool)
      modifies this
      ensures Observed(failures, event, ran) == Observe(old(failures), maximum, g)
    {
      if g.estimate < g.threshold {
        event := if failures > 0 then Reset else Quiet;
        failures := 0;
        return event, false;
      }
      if failures >= maximum { return Quiet, false; }
      if g.stages.Raise? || g.stages.estimate >= g.threshold {
        event := RecordFailure();
        return event, true;
      }
      event := if failures > 0 then Reset else Quiet;
      failures := 0;
      return event, true;
    }
  }

  // ----- Whole runs

  /** The failure count before call `k` of a run that starts from a clean breaker. */
  ghost function Count(maximum: int, gates: seq<Gate>, k: nat): nat
    requires k <= |gates|
  {
    if k == 0 then 0 else Observe(Count(maximum, gates, k - 1), maximum, gates[k - 1]).failures
  }

  ghost function EventAt(maximum: int, gates: seq<Gate>, k: nat): Event
    requires k < |gates|
  {
    Observe(Count(maximum, gates, k), maximum, gates[k]).event
  }

  ghost predicate RanAt(maximum: int, gates: seq<Gate>, k: nat)
    requires k < |gates|
  {
    Observe(Count(maximum, gates, k), maximum, gates[k]).ran
  }

  lemma {:induction false} CountBounded(maximum: int, gates: seq<Gate>, k: nat)
    requires k <= |gates| && maximum > 0
    ensures Count(maximum, gates, k) <= maximum
    decreases k
  {
    if k > 0 { CountBounded(maximum, gates, k - 1); }
  }

  /** A call over the threshold whose stages raise, or do not bring the estimate below it. */
  predicate Failing(g: Gate) {
    g.estimate >= g.threshold && (g.stages.Raise? || g.stages.estimate >= g.threshold)
  }

  /** Failing calls from a clean count on are counted one by one. */
  lemma {:induction false} StreakCounts(maximum: int, gates: seq<Gate>, from: nat, n: nat)
    requires from + n <= |gates| && n <= maximum && Count(maximum, gates, from) == 0
    requires forall i :: from <= i < from + n ==> Failing(gates[i])
    ensures Count(maximum, gates, from + n) == n
  {
    if n > 0 { StreakCounts(maximum, gates, from, n - 1); }
  }

  /** A count below the maximum is the length of the streak of failing calls just before. */
  lemma {:induction false} CountIsStreak(maximum: int, gates: seq<Gate>, k: nat)
    requires k <= |gates| && Count(maximum, gates, k) < maximum
    ensures var n := Count(maximum, gates, k);
            && n <= k && Count(maximum, gates, k - n) == 0
            && forall i :: k - n <= i < k ==> Failing(gates[i])
    decreases k
  {
    if Count(maximum, gates, k) > 0 { CountIsStreak(maximum, gates, k - 1); }
  }

  /** The breaker trips on a call exactly when that call completes `maximum` failing calls in a row
      from a clean count. */
  lemma TripsIffStreak(maximum: int, gates: seq<Gate>, k: nat)
    requires maximum > 0 && k < |gates|
    ensures EventAt(maximum, gates, k) == Tripped <==>
            && k + 1 >= maximum && Count(maximum, gates, k + 1 - maximum) == 0
            && forall i :: k + 1 - maximum <= i <= k ==> Failing(gates[i])
  {
    if EventAt(maximum, gates, k) == Tripped { CountIsStreak(maximum, gates, k); }
    if k + 1 >= maximum && Count(maximum, gates, k + 1 - maximum) == 0
       && forall i :: k + 1 - maximum <= i <= k ==> Failing(gates[i]) {
      StreakCounts(maximum, gates, k + 1 - maximum, maximum - 1);
    }
  }

  /** Once tripped, the count stays at its maximum until a reset. */
  lemma {:induction false} TrippedLasts(maximum: int, gates: seq<Gate>, i: nat, j: nat)
    requires maximum > 0 && i < j <= |gates| && EventAt(maximum, gates, i) == Tripped
    requires forall k :: i < k < j ==> EventAt(maximum, gates, k) != Reset
    ensures Count(maximum, gates, j) == maximum
    decreases j - i
  {
    CountBounded(maximum, gates, j);
    if j > i + 1 {
      assert EventAt(maximum, gates, j - 1) != Reset;
      TrippedLasts(maximum, gates, i, j - 1);
    }
  }

  /** Between two trips there is a reset. */
  lemma TrippedOncePerReset(maximum: int, gates: seq<Gate>, i: nat, j: nat)
    requires maximum > 0 && i < j < |gates|
    requires EventAt(maximum, gates, i) == Tripped && EventAt(maximum, gates, j) == Tripped
    ensures exists k :: i < k < j && EventAt(maximum, gates, k) == Reset
  {
    if forall k :: i < k < j ==> EventAt(maximum, gates, k) != Reset {
      TrippedLasts(maximum, gates, i, j);
    }
  }

  /** After a trip no stage runs while the estimate stays at or above the threshold. */
  lemma NoStageAfterTrip(maximum: int, gates: seq<Gate>, i: nat, j: nat)
    requires maximum > 0 && i < j < |gates| && EventAt(maximum, gates, i) == Tripped
    requires forall k :: i < k <= j ==> gates[k].estimate >= gates[k].threshold
    ensures !RanAt(maximum, gates, j) && EventAt(maximum, gates, j) == Quiet
    decreases j - i
  {
    if j > i + 1 {
      forall k | i < k < j ensures EventAt(maximum, gates, k) == Quiet { NoStageAfterTrip(maximum, gates, i, k); }
    }
    TrippedLasts(maximum, gates, i, j);
  }

  /** A breaker with no tolerance never runs a stage and never speaks. */
  lemma {:induction false} ZeroMaximumNeverRuns(maximum: int, gates: seq<Gate>, k: nat)
    requires maximum <= 0 && k < |gates|
    ensures !RanAt(maximum, gates, k) && EventAt(maximum, gates, k) == Quiet && Count(maximum, gates, k + 1) == 0
    decreases k
  {
    if k > 0 { ZeroMaximumNeverRuns(maximum, gates, k - 1); }
  }

  // ----- When stages do run

  predicate Over(g: Gate) { g.estimate >= g.threshold }

  /** A trip lies behind call `k`, and every call since was over the threshold. */
  ghost predicate TripBehind(maximum: int, gates: seq<Gate>, k: nat)
    requires k <= |gates|
  {
    exists i :: 0 <= i < k && EventAt(maximum, gates, i) == Tripped && forall j :: i < j < k ==> Over(gates[j])
  }

  lemma {:induction false} FullIffTripBehind(maximum: int, gates: seq<Gate>, k: nat)
    requires maximum > 0 && k <= |gates|
    ensures Count(maximum, gates, k) == maximum <==> TripBehind(maximum, gates, k)
    decreases k
  {
    if TripBehind(maximum, gates, k) {
      var i :| 0 <= i < k && EventAt(maximum, gates, i) == Tripped && forall j :: i < j < k ==> Over(gates[j]);
      forall j | i < j < k ensures EventAt(maximum, gates, j) != Reset { NoStageAfterTrip(maximum, gates, i, j); }
      TrippedLasts(maximum, gates, i, k);
    }
    if Count(maximum, gates, k) == maximum {
      FullIffTripBehind(maximum, gates, k - 1);
      CountBounded(maximum, gates, k - 1);
      if Count(maximum, gates, k - 1) == maximum {
        var i :| 0 <= i < k - 1 && EventAt(maximum, gates, i) == Tripped
                 && forall j :: i < j < k - 1 ==> Over(gates[j]);
        assert forall j :: i < j < k ==> Over(gates[j]);
      } else {
        assert EventAt(maximum, gates, k - 1) == Tripped;
      }
    }
  }

  /** Over every run: stages run at a call if and only if it is over the threshold and there is no trip behind it
      since which every call was over the threshold. */
  lemma RunsIff(maximum: int, gates: seq<Gate>, k: nat)
    requires maximum > 0 && k < |gates|
    ensures RanAt(maximum, gates, k) <==> Over(gates[k]) && !TripBehind(maximum, gates, k)
  {
    FullIffTripBehind(maximum, gates, k);
    CountBounded(maximum, gates, k);
  }

  /** What each event says of the call and of the failure count. */
  lemma EventsTell(maximum: int, gates: seq<Gate>, k: nat)
    requires maximum > 0 && k < |gates|
    ensures EventAt(maximum, gates, k) in {Failure, Tripped} <==> RanAt(maximum, gates, k) && Failing(gates[k])
    ensures EventAt(maximum, gates, k) == Reset <==>
            Count(maximum, gates, k) > 0 && (!Over(gates[k]) || (RanAt(maximum, gates, k) && !Failing(gates[k])))
    ensures EventAt(maximum, gates, k) == Reset <==>
            Count(maximum, gates, k) > 0 && Count(maximum, gates, k + 1) == 0
    ensures EventAt(maximum, gates, k) in {Failure, Tripped} <==>
            Count(maximum, gates, k + 1) == Count(maximum, gates, k) + 1
  {
    CountBounded(maximum, gates, k);
  }
}

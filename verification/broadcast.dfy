/**
  Latency-compensated broadcast (`emitToListeners`). A first pass over the
  members of the "listeners" room folds their latencies into two accumulators,
  `maxLatency` (starting at 0) and `minLatency` (starting at `maxDelay`); a
  second pass schedules, for every member, one deferred send of the event
  after `(maxLatency - minLatency) - (latency - minLatency)` milliseconds, so
  that every member's delay plus its latency is the same `maxLatency`.
  Scheduled sends are returned as records; firing them is not modelled.
 */
module Broadcast {
  import opened Base

  /** One member of the "listeners" room with its current latency estimate (ms). */
  datatype Listener = Listener(id: Id, latency: real)

  /** A deferred unicast: after `delay` ms emit `event` with `args` to `target`. */
  datatype Send<A> = Send(target: Id, delay: real, event: string, args: seq<A>)

  /** Every latency lies in `[0, maxDelay]`, the range a pong estimate is meant to keep. */
  predicate InRange(ls: seq<Listener>, maxDelay: real)
  {
    forall i :: 0 <= i < |ls| ==> 0.0 <= ls[i].latency <= maxDelay
  }

  /** The `maxLatency` accumulator after the first pass over `ls`, in room order. */
  function MaxLatency(ls: seq<Listener>): (hi: real)
    ensures 0.0 <= hi
    ensures forall i :: 0 <= i < |ls| ==> ls[i].latency <= hi
    ensures hi == 0.0 || exists i :: 0 <= i < |ls| && ls[i].latency == hi
  {
    if |ls| == 0 then 0.0
    else Max(ls[|ls| - 1].latency, MaxLatency(ls[..|ls| - 1]))
  }

  /** The `minLatency` accumulator after the first pass over `ls`, in room order. */
  function MinLatency(ls: seq<Listener>, maxDelay: real): (lo: real)
    ensures lo <= maxDelay
    ensures forall i :: 0 <= i < |ls| ==> lo <= ls[i].latency
    ensures lo == maxDelay || exists i :: 0 <= i < |ls| && ls[i].latency == lo
  {
    if |ls| == 0 then maxDelay
    else Min(ls[|ls| - 1].latency, MinLatency(ls[..|ls| - 1], maxDelay))
  }

  /** The largest latency of a non-empty room, independent of any accumulator. */
  function Largest(ls: seq<Listener>): (hi: real)
    requires |ls| > 0
  {
    if |ls| == 1 then ls[0].latency else Max(ls[0].latency, Largest(ls[1..]))
  }

  /** The smallest latency of a non-empty room, independent of any accumulator. */
  function Smallest(ls: seq<Listener>): (lo: real)
    requires |ls| > 0
  {
    if |ls| == 1 then ls[0].latency else Min(ls[0].latency, Smallest(ls[1..]))
  }

  /** The sends the second pass schedules: one per member, in room order. */
  function Schedule<A>(ls: seq<Listener>, ev: string, args: seq<A>, maxDelay: real): (sends: seq<Send<A>>)
    ensures |sends| == |ls|
    ensures forall i :: 0 <= i < |ls| ==>
      sends[i].target == ls[i].id && sends[i].event == ev && sends[i].args == args
    ensures forall i :: 0 <= i < |ls| ==> sends[i].delay + ls[i].latency == MaxLatency(ls)
    ensures forall i :: 0 <= i < |ls| ==>
      0.0 <= sends[i].delay <= MaxLatency(ls) - MinLatency(ls, maxDelay)
  {
    var hi := MaxLatency(ls);
    var lo := MinLatency(ls, maxDelay);
    seq(|ls|, i requires 0 <= i < |ls| => Send(ls[i].id, (hi - lo) - (ls[i].latency - lo), ev, args))
  }

  /** The first pass of `emitToListeners`: both accumulators in one loop. */
  method Accumulate(ls: seq<Listener>, maxDelay: real) returns (maxLatency: real, minLatency: real)
    ensures maxLatency == MaxLatency(ls) && minLatency == MinLatency(ls, maxDelay)
  {
    maxLatency := 0.0;
    minLatency := maxDelay;
    var i := 0;
    while i < |ls|
      invariant 0 <= i <= |ls|
      invariant maxLatency == MaxLatency(ls[..i])
      invariant minLatency == MinLatency(ls[..i], maxDelay)
    {
      AccumulatorsStep(ls, i, maxDelay);
      maxLatency := Max(ls[i].latency, maxLatency);
      minLatency := Min(ls[i].latency, minLatency);
      i := i + 1;
    }
    assert ls[..i] == ls;
  }

  /** One more member folds into both accumulators. */
  lemma AccumulatorsStep(ls: seq<Listener>, i: int, maxDelay: real)
    requires 0 <= i < |ls|
    ensures MaxLatency(ls[..i + 1]) == Max(ls[i].latency, MaxLatency(ls[..i]))
    ensures MinLatency(ls[..i + 1], maxDelay) == Min(ls[i].latency, MinLatency(ls[..i], maxDelay))
  {
    assert ls[..i + 1][..i] == ls[..i];
  }

  /** The two passes of `emitToListeners` as written, with mutable accumulators. */
  method EmitToListeners<A>(ls: seq<Listener>, ev: string, args: seq<A>, maxDelay: real)
    returns (sends: seq<Send<A>>)
    ensures sends == Schedule(ls, ev, args, maxDelay)
  {
    var maxLatency, minLatency := Accumulate(ls, maxDelay);
    sends := [];
    var j := 0;
    while j < |ls|
      invariant 0 <= j <= |ls|
      invariant |sends| == j
      invariant forall k :: 0 <= k < j ==>
        sends[k] == Send(ls[k].id, (maxLatency - minLatency) - (ls[k].latency - minLatency), ev, args)
    {
      var delay := (maxLatency - minLatency) - (ls[j].latency - minLatency);
      sends := sends + [Send(ls[j].id, delay, ev, args)];
      j := j + 1;
    }
    assert forall k :: 0 <= k < |ls| ==> sends[k] == Schedule(ls, ev, args, maxDelay)[k];
  }

  /** `Largest` is attained by some member and bounds every member. */
  lemma {:induction false} LargestIsMaximum(ls: seq<Listener>)
    requires |ls| > 0
    ensures exists i :: 0 <= i < |ls| && ls[i].latency == Largest(ls)
    ensures forall i :: 0 <= i < |ls| ==> ls[i].latency <= Largest(ls)
  {
    if |ls| > 1 {
      LargestIsMaximum(ls[1..]);
      var k :| 0 <= k < |ls[1..]| && ls[1..][k].latency == Largest(ls[1..]);
      assert ls[k + 1] == ls[1..][k];
      if ls[0].latency < Largest(ls[1..]) {
        assert ls[k + 1].latency == Largest(ls);
      } else {
        assert ls[0].latency == Largest(ls);
      }
      forall i | 0 <= i < |ls|
        ensures ls[i].latency <= Largest(ls)
      {
        if i > 0 {
          assert ls[i] == ls[1..][i - 1];
        }
      }
    } else {
      assert ls[0].latency == Largest(ls);
    }
  }

  /** `Smallest` is attained by some member and bounds every member from below. */
  lemma {:induction false} SmallestIsMinimum(ls: seq<Listener>)
    requires |ls| > 0
    ensures exists i :: 0 <= i < |ls| && ls[i].latency == Smallest(ls)
    ensures forall i :: 0 <= i < |ls| ==> Smallest(ls) <= ls[i].latency
  {
    if |ls| > 1 {
      SmallestIsMinimum(ls[1..]);
      var k :| 0 <= k < |ls[1..]| && ls[1..][k].latency == Smallest(ls[1..]);
      assert ls[k + 1] == ls[1..][k];
      if Smallest(ls[1..]) < ls[0].latency {
        assert ls[k + 1].latency == Smallest(ls);
      } else {
        assert ls[0].latency == Smallest(ls);
      }
      forall i | 0 <= i < |ls|
        ensures Smallest(ls) <= ls[i].latency
      {
        if i > 0 {
          assert ls[i] == ls[1..][i - 1];
        }
      }
    } else {
      assert ls[0].latency == Smallest(ls);
    }
  }

  /** Whatever the latencies, the `maxLatency` accumulator is the true maximum
      raised to at least its starting value 0. */
  lemma MaxLatencyIsRaisedLargest(ls: seq<Listener>)
    requires |ls| > 0
    ensures MaxLatency(ls) == Max(0.0, Largest(ls))
  {
    LargestIsMaximum(ls);
  }

  /** Whatever the latencies, the `minLatency` accumulator is the true minimum
      lowered to at most its starting value `maxDelay`. */
  lemma MinLatencyIsLoweredSmallest(ls: seq<Listener>, maxDelay: real)
    requires |ls| > 0
    ensures MinLatency(ls, maxDelay) == Min(maxDelay, Smallest(ls))
  {
    SmallestIsMinimum(ls);
  }

  /** Each accumulator is the true extreme exactly when its starting value does
      not overshoot it: the largest latency is at least 0, the smallest at most
      `maxDelay`. */
  lemma AccumulatorsExactIff(ls: seq<Listener>, maxDelay: real)
    requires |ls| > 0
    ensures MaxLatency(ls) == Largest(ls) <==> 0.0 <= Largest(ls)
    ensures MinLatency(ls, maxDelay) == Smallest(ls) <==> Smallest(ls) <= maxDelay
  {
    MaxLatencyIsRaisedLargest(ls);
    MinLatencyIsLoweredSmallest(ls, maxDelay);
  }

  /** With every latency in `[0, maxDelay]` the accumulators are exactly the
      largest and the smallest latency of the room. */
  lemma AccumulatorsExactInRange(ls: seq<Listener>, maxDelay: real)
    requires |ls| > 0 && InRange(ls, maxDelay)
    ensures MaxLatency(ls) == Largest(ls)
    ensures MinLatency(ls, maxDelay) == Smallest(ls)
  {
    MaxLatencyIsRaisedLargest(ls);
    MinLatencyIsLoweredSmallest(ls, maxDelay);
    LargestIsMaximum(ls);
    SmallestIsMinimum(ls);
  }

  /** In range, a member gets delay 0 exactly when it has the largest latency. */
  lemma ZeroDelayIffSlowest<A>(ls: seq<Listener>, ev: string, args: seq<A>, maxDelay: real, i: int)
    requires InRange(ls, maxDelay) && 0 <= i < |ls|
    ensures Schedule(ls, ev, args, maxDelay)[i].delay == 0.0 <==> ls[i].latency == Largest(ls)
  {
    AccumulatorsExactInRange(ls, maxDelay);
  }

  /** In range, a member gets the whole spread `Largest - Smallest` as delay
      exactly when it has the smallest latency. */
  lemma FullDelayIffFastest<A>(ls: seq<Listener>, ev: string, args: seq<A>, maxDelay: real, i: int)
    requires InRange(ls, maxDelay) && 0 <= i < |ls|
    ensures Schedule(ls, ev, args, maxDelay)[i].delay == Largest(ls) - Smallest(ls)
        <==> ls[i].latency == Smallest(ls)
  {
    AccumulatorsExactInRange(ls, maxDelay);
  }

  /** In range, the delays of a non-empty room span exactly `[0, Largest - Smallest]`:
      every delay lies inside, the slowest member gets 0 and the fastest the whole spread. */
  lemma DelaySpreadInRange<A>(ls: seq<Listener>, ev: string, args: seq<A>, maxDelay: real)
    requires |ls| > 0 && InRange(ls, maxDelay)
    ensures var sends := Schedule(ls, ev, args, maxDelay);
      && (forall i :: 0 <= i < |ls| ==> 0.0 <= sends[i].delay <= Largest(ls) - Smallest(ls))
      && (exists i :: 0 <= i < |ls| && sends[i].delay == 0.0)
      && (exists i :: 0 <= i < |ls| && sends[i].delay == Largest(ls) - Smallest(ls))
  {
    AccumulatorsExactInRange(ls, maxDelay);
    LargestIsMaximum(ls);
    SmallestIsMinimum(ls);
    var sends := Schedule(ls, ev, args, maxDelay);
    var slowest :| 0 <= slowest < |ls| && ls[slowest].latency == Largest(ls);
    var fastest :| 0 <= fastest < |ls| && ls[fastest].latency == Smallest(ls);
    assert sends[slowest].delay == 0.0;
    assert sends[fastest].delay == Largest(ls) - Smallest(ls);
  }

  /** Out of range the accumulators are not the true extremes: a room whose only
      member has a negative latency has `maxLatency` 0, so nobody gets delay 0. */
  lemma NegativeLatencyLeavesNoZeroDelay()
    ensures Schedule<int>([Listener("a", -1.0)], "play", [], 100.0)[0].delay == 1.0
  {
  }

  /** Latencies 10, 50 and 30 ms give delays 40, 0 and 20 ms: all three arrive 50 ms
      after emission. */
  lemma ThreeListenersExample()
    ensures var sends := Schedule<int>([Listener("A", 10.0), Listener("B", 50.0), Listener("C", 30.0)],
                                       "play", [], 100.0);
      sends[0].delay == 40.0 && sends[1].delay == 0.0 && sends[2].delay == 20.0
  {
  }
}

// The quota circuit breaker against its specification over the whole trace of outcomes.
module QuotaBreaker {
  import opened ApplyDomain

  datatype Event = QuotaHit | Success | OtherFailure

  function Apply(b: Breaker, e: Event, threshold: nat): Breaker {
    match e
    case QuotaHit => AfterQuota(b, threshold)
    case Success => AfterSuccess(b)
    case OtherFailure => b
  }

  function After(trace: seq<Event>, threshold: nat): Breaker {
    if trace == [] then Breaker(0, false)
    else Apply(After(trace[..|trace| - 1], threshold), trace[|trace| - 1], threshold)
  }

  // --- the trace specification ---

  function Quotas(trace: seq<Event>): nat {
    if trace == [] then 0
    else Quotas(trace[..|trace| - 1]) + if trace[|trace| - 1] == QuotaHit then 1 else 0
  }

  /** trace[i..j] holds at least threshold quota outcomes and no success. */
  predicate HotSegment(trace: seq<Event>, i: nat, j: nat, threshold: nat) {
    i <= j <= |trace| && Success !in trace[i..j] && Quotas(trace[i..j]) >= threshold
  }

  ghost predicate HasHotSegment(trace: seq<Event>, threshold: nat) {
    exists i: nat, j: nat :: HotSegment(trace, i, j, threshold)
  }

  /** The quota outcomes since the last success. */
  function Streak(trace: seq<Event>): nat {
    if trace == [] then 0
    else
      var n := |trace| - 1;
      match trace[n]
      case Success => 0
      case QuotaHit => Streak(trace[..n]) + 1
      case OtherFailure => Streak(trace[..n])
  }

  /** Streak is what a success-free suffix can hold at most, and some suffix holds it. */
  lemma {:induction false} StreakIsBest(trace: seq<Event>, i: nat)
    requires i <= |trace| && Success !in trace[i..]
    ensures Quotas(trace[i..]) <= Streak(trace)
  {
    if i < |trace| {
      var n := |trace| - 1;
      var tail := trace[i..];
      assert trace[n] == tail[|tail| - 1] && tail[..|tail| - 1] == trace[..n][i..];
      assert forall e :: e in trace[..n][i..] ==> e in tail;
      StreakIsBest(trace[..n], i);
    }
  }

  lemma {:induction false} StreakSuffix(trace: seq<Event>) returns (i: nat)
    ensures i <= |trace| && Success !in trace[i..] && Quotas(trace[i..]) == Streak(trace)
  {
    if trace == [] {
      i := 0;
    } else {
      var n := |trace| - 1;
      if trace[n] == Success {
        i := |trace|;
      } else {
        i := StreakSuffix(trace[..n]);
        var tail := trace[i..];
        assert tail == trace[..n][i..] + [trace[n]];
        assert tail[..|tail| - 1] == trace[..n][i..];
      }
    }
  }

  lemma SegmentOfPrefix(trace: seq<Event>, n: nat, i: nat, j: nat, threshold: nat)
    requires i <= j <= n <= |trace|
    ensures HotSegment(trace[..n], i, j, threshold) <==> HotSegment(trace, i, j, threshold)
  {
    assert trace[..n][i..j] == trace[i..j];
  }

  lemma {:induction false} HotSuffix(trace: seq<Event>, threshold: nat)
    requires Streak(trace) >= threshold
    ensures HasHotSegment(trace, threshold)
  {
    var i := StreakSuffix(trace);
    assert trace[i..|trace|] == trace[i..];
    assert HotSegment(trace, i, |trace|, threshold);
  }

  lemma HotPrefix(trace: seq<Event>, n: nat, threshold: nat)
    requires n <= |trace| && HasHotSegment(trace[..n], threshold)
    ensures HasHotSegment(trace, threshold)
  {
    var i: nat, j: nat :| HotSegment(trace[..n], i, j, threshold);
    SegmentOfPrefix(trace, n, i, j, threshold);
  }

  lemma {:induction false} HotEarlierOrNow(trace: seq<Event>, n: nat, i: nat, j: nat, threshold: nat)
    requires |trace| == n + 1 && HotSegment(trace, i, j, threshold)
    ensures HasHotSegment(trace[..n], threshold) || Streak(trace) >= threshold
  {
    if j <= n {
      SegmentOfPrefix(trace, n, i, j, threshold);
    } else {
      assert trace[i..j] == trace[i..];
      StreakIsBest(trace, i);
    }
  }

  /** A hot segment of a longer trace is one of the shorter trace, or a suffix. */
  lemma {:induction false} HotExtends(trace: seq<Event>, threshold: nat)
    requires trace != []
    ensures var n := |trace| - 1;
            HasHotSegment(trace, threshold) <==> HasHotSegment(trace[..n], threshold) || Streak(trace) >= threshold
  {
    var n := |trace| - 1;
    if HasHotSegment(trace[..n], threshold) {
      HotPrefix(trace, n, threshold);
    } else if Streak(trace) >= threshold {
      HotSuffix(trace, threshold);
    } else if HasHotSegment(trace, threshold) {
      var i: nat, j: nat :| HotSegment(trace, i, j, threshold);
      HotEarlierOrNow(trace, n, i, j, threshold);
    }
  }

  /** The breaker is tripped iff some segment of the trace holds `threshold` quota outcomes with
      no success between them; until then its streak counts the quotas since the last success. */
  lemma {:induction false} BreakerRefinesTrace(trace: seq<Event>, threshold: nat)
    requires threshold >= 1
    ensures After(trace, threshold).tripped <==> HasHotSegment(trace, threshold)
    ensures !After(trace, threshold).tripped ==> After(trace, threshold).streak == Streak(trace) < threshold
  {
    if trace != [] {
      BreakerRefinesTrace(trace[..|trace| - 1], threshold);
      HotExtends(trace, threshold);
    }
  }

  /** Tripping is permanent. */
  lemma {:induction false} TrippedStays(trace: seq<Event>, more: seq<Event>, threshold: nat)
    requires After(trace, threshold).tripped
    ensures After(trace + more, threshold).tripped
    decreases |more|
  {
    if more == [] {
      assert trace + more == trace;
    } else {
      var k := |more| - 1;
      assert (trace + more)[..|trace + more| - 1] == trace + more[..k];
      TrippedStays(trace, more[..k], threshold);
    }
  }

  /** One more outcome, seen from the breaker and from the trace. */
  lemma {:induction false} OneMoreOutcome(trace: seq<Event>, e: Event, threshold: nat)
    ensures After(trace + [e], threshold) == Apply(After(trace, threshold), e, threshold)
  {
    assert (trace + [e])[..|trace|] == trace;
  }

  lemma {:induction false} TripsAtFirstHotSegment(trace: seq<Event>, e: Event, threshold: nat)
    requires threshold >= 1
    ensures After(trace + [e], threshold) == Apply(After(trace, threshold), e, threshold)
    ensures !After(trace, threshold).tripped && After(trace + [e], threshold).tripped <==>
            !HasHotSegment(trace, threshold) && HasHotSegment(trace + [e], threshold)
  {
    OneMoreOutcome(trace, e, threshold);
    BreakerRefinesTrace(trace, threshold);
    BreakerRefinesTrace(trace + [e], threshold);
  }

  class CircuitBreaker {
    const threshold: nat
    var breaker: Breaker
    var cancels: nat             // how often the cancel function was called
    ghost var trace: seq<Event>
    ghost var trips: nat         // how many calls returned true

    ghost predicate Valid()
      reads this
    {
      && threshold >= 1
      && breaker == After(trace, threshold)
      && cancels == trips == if breaker.tripped then 1 else 0
    }

    constructor (configured: int)
      ensures Valid() && trace == [] && threshold == if configured <= 0 then 3 else configured
    {
      threshold := if configured <= 0 then 3 else configured;
      breaker := Breaker(0, false);
      cancels := 0;
      trace := [];
      trips := 0;
    }

    /** Cancels and returns true exactly at the outcome that completes the first hot segment. */
    method RecordQuotaOutcome() returns (justTripped: bool)
      requires Valid()
      modifies this
      ensures Valid() && trace == old(trace) + [QuotaHit]
      ensures justTripped <==> !HasHotSegment(old(trace), threshold) && HasHotSegment(trace, threshold)
      ensures trips == old(trips) + if justTripped then 1 else 0
    {
      TripsAtFirstHotSegment(trace, QuotaHit, threshold);
      trace := trace + [QuotaHit];
      if breaker.tripped {
        return false;
      }
      breaker := breaker.(streak := breaker.streak + 1);
      if breaker.streak >= threshold {
        breaker := breaker.(tripped := true);
        cancels := cancels + 1;
        trips := trips + 1;
        return true;
      }
      return false;
    }

    method RecordSuccess()
      requires Valid()
      modifies this
      ensures Valid() && trace == old(trace) + [Success] && trips == old(trips)
    {
      OneMoreOutcome(trace, Success, threshold);
      trace := trace + [Success];
      breaker := breaker.(streak := 0);
    }

    method Snapshot() returns (streak: nat)
      requires Valid()
      ensures streak == After(trace, threshold).streak
    {
      streak := breaker.streak;
    }
  }

  /** After the trip, quota outcomes no longer move the streak but successes still reset it, so
      the streak reported in the abort event is the threshold iff no success came after the trip. */
  lemma {:induction false} SnapshotAfterTrip(trace: seq<Event>, more: seq<Event>, threshold: nat)
    requires threshold >= 1 && trace != []
    requires After(trace, threshold).tripped && !After(trace[..|trace| - 1], threshold).tripped
    ensures After(trace + more, threshold).streak == if Success in more then 0 else threshold
    decreases |more|
  {
    if more == [] {
      assert trace + more == trace;
      BreakerRefinesTrace(trace[..|trace| - 1], threshold);
    } else {
      var k := |more| - 1;
      assert (trace + more)[..|trace + more| - 1] == trace + more[..k];
      assert more == more[..k] + [more[k]];
      TrippedStays(trace, more[..k], threshold);
      SnapshotAfterTrip(trace, more[..k], threshold);
    }
  }
}

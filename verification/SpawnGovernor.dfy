// The spawn governor: test-and-increment, clamped decrement, the polling Acquire and its retries.
module SpawnGovernor {

  const SATURATION_RETRY_BUDGET: nat := 9

  // --- the stored counter, with the holders it stands for ---

  datatype Op = Acquire(holder: nat) | Release(holder: nat)
  datatype State = State(active: nat, holders: set<nat>)

  function Next(max: nat, s: State, op: Op): State {
    match op
    case Acquire(h) => if s.active < max then State(s.active + 1, s.holders + {h}) else s
    case Release(h) => State(if s.active > 0 then s.active - 1 else 0, s.holders - {h})
  }

  function After(max: nat, s: State, ops: seq<Op>): State
    decreases |ops|
  {
    if ops == [] then s else After(max, Next(max, s, ops[0]), ops[1..])
  }

  /** Every acquire is by a newcomer and every release by a holder. */
  predicate Proper(max: nat, s: State, ops: seq<Op>)
    decreases |ops|
  {
    ops == [] ||
    ((if ops[0].Acquire? then ops[0].holder !in s.holders else ops[0].holder in s.holders)
     && Proper(max, Next(max, s, ops[0]), ops[1..]))
  }

  predicate Exact(max: nat, s: State) {
    s.active == |s.holders| && s.active <= max
  }

  /** While nobody releases what it does not hold, the counter is the number of holders, at most max. */
  lemma {:induction false} CounterIsExact(max: nat, s: State, ops: seq<Op>)
    requires Exact(max, s) && Proper(max, s, ops)
    ensures Exact(max, After(max, s, ops))
    decreases |ops|
  {
    if ops != [] {
      CounterIsExact(max, Next(max, s, ops[0]), ops[1..]);
    }
  }

  lemma {:induction false} Newcomers(holders: set<nat>) returns (n: nat)
    ensures forall h :: h in holders ==> h < n
    decreases |holders|
  {
    n := 0;
    if holders != {} {
      var h :| h in holders;
      var m := Newcomers(holders - {h});
      n := if h < m then m else h + 1;
      assert forall x :: x in holders ==> x == h || x in holders - {h};
    }
  }

  /** k newcomers numbered from n. */
  function Crowd(n: nat, k: nat): seq<Op>
    decreases k
  {
    if k == 0 then [] else [Acquire(n)] + Crowd(n + 1, k - 1)
  }

  lemma {:induction false} CrowdAdmitted(max: nat, s: State, n: nat, k: nat)
    requires s.active + k <= max && forall h :: h in s.holders ==> h < n
    ensures Proper(max, s, Crowd(n, k)) && |After(max, s, Crowd(n, k)).holders| == |s.holders| + k
    decreases k
  {
    if k > 0 {
      assert Crowd(n, k)[1..] == Crowd(n + 1, k - 1);
      CrowdAdmitted(max, Next(max, s, Acquire(n)), n + 1, k - 1);
    }
  }

  /** A release by a non-holder, such as a second release: the limit holds on every proper
      continuation exactly if no slot was held. The clamp alone does not make it harmless. */
  lemma {:induction false} SpuriousReleaseHarmlessIff(max: nat, s: State, h: nat)
    requires Exact(max, s) && h !in s.holders
    ensures var s' := Next(max, s, Release(h));
            (forall ops :: Proper(max, s', ops) ==> |After(max, s', ops).holders| <= max) <==> s.active == 0
  {
    var s' := Next(max, s, Release(h));
    assert s'.holders == s.holders;
    if s.active == 0 {
      forall ops | Proper(max, s', ops) ensures |After(max, s', ops).holders| <= max {
        CounterIsExact(max, s', ops);
      }
    } else {
      var n := Newcomers(s.holders);
      var ops := Crowd(n, max - s'.active);
      CrowdAdmitted(max, s', n, max - s'.active);
      assert |After(max, s', ops).holders| == max + 1;
    }
  }

  /** The stored counter. Nobody stores the holders; they are what the counter stands for. */
  class GovernorRepo {
    var active: nat
    ghost var holders: set<nat>

    constructor ()
      ensures View() == State(0, {})
    {
      active := 0;
      holders := {};
    }

    ghost function View(): State
      reads this
    {
      State(active, holders)
    }

    method TryAcquire(max: nat, ghost h: nat) returns (ok: bool, current: nat)
      modifies this
      ensures View() == Next(max, old(View()), Acquire(h))
      ensures current == active && (ok <==> active != old(active))
    {
      if active >= max {
        return false, active;
      }
      active := active + 1;
      holders := holders + {h};
      return true, active;
    }

    method Release(ghost h: nat)
      modifies this
      ensures forall max :: View() == Next(max, old(View()), Op.Release(h))
    {
      active := if active - 1 > 0 then active - 1 else 0;
      holders := holders - {h};
    }

    /** Any operations of other processes, one after the other. */
    method Perform(max: nat, ops: seq<Op>)
      modifies this
      ensures View() == After(max, old(View()), ops)
    {
      for i := 0 to |ops|
        invariant After(max, View(), ops[i..]) == After(max, old(View()), ops)
      {
        assert ops[i..][0] == ops[i] && ops[i..][1..] == ops[i + 1..];
        match ops[i] {
          case Acquire(h) => var _, _ := TryAcquire(max, h);
          case Release(h) => Release(h);
        }
      }
    }
  }

  // --- polling ---

  datatype Outcome = Granted | Saturated | Interrupted

  // Around poll i: what the others do before it, the clock after it, and whether the wait ends normally.
  datatype World = World(others: nat -> seq<Op>, clock: nat -> int, waited: nat -> bool)

  /** The counter poll i meets when every poll before it found no slot. */
  function Met(max: nat, s: State, w: World, i: nat): State {
    After(max, if i == 0 then s else Met(max, s, w, i - 1), w.others(i))
  }

  /** Poll i finds no slot, is before the deadline, and waits to the end. */
  predicate KeepsPolling(w: World, max: nat, s: State, start: int, maxWait: int, i: nat) {
    Met(max, s, w, i).active >= max && w.clock(i) < start + maxWait && w.waited(i)
  }

  /** Acquire: polls until the first poll that finds a slot, meets the deadline or is interrupted; a
      slot found at or after the deadline is still taken. Only a granted Acquire leaves a trace. */
  method AcquirePolling(repo: GovernorRepo, w: World, max: nat, ghost h: nat, start: int, maxWait: int, ghost last: nat)
      returns (r: Outcome, polls: nat)
    requires w.clock(last) >= start + maxWait
    modifies repo
    ensures 1 <= polls <= last + 1
    ensures forall i :: 0 <= i < polls - 1 ==> KeepsPolling(w, max, old(repo.View()), start, maxWait, i)
    ensures
      var met := Met(max, old(repo.View()), w, polls - 1);
      && (r == Granted <==> met.active < max)
      && (r == Saturated <==> met.active >= max && w.clock(polls - 1) >= start + maxWait)
      && repo.View() == if r == Granted then Next(max, met, Acquire(h)) else met
  {
    var deadline := start + maxWait;
    polls := 0;
    while true
      invariant polls <= last
      invariant forall i :: 0 <= i < polls ==> KeepsPolling(w, max, old(repo.View()), start, maxWait, i)
      invariant repo.View() == if polls == 0 then old(repo.View()) else Met(max, old(repo.View()), w, polls - 1)
      decreases last - polls
    {
      repo.Perform(max, w.others(polls));
      var ok, current := repo.TryAcquire(max, h);
      polls := polls + 1;
      if ok {
        return Granted, polls;
      }
      if w.clock(polls - 1) >= deadline {
        return Saturated, polls;
      }
      if !w.waited(polls - 1) {
        return Interrupted, polls;
      }
    }
  }

  predicate ProperBefore(max: nat, s: State, w: World, i: nat) {
    Proper(max, if i == 0 then s else Met(max, s, w, i - 1), w.others(i))
  }

  /** While nobody releases what it does not hold, every poll meets an exact counter, and a slot
      granted to a newcomer there makes one more holder, at most max in all. */
  lemma {:induction false} PollsMeetExactCounter(max: nat, s: State, w: World, i: nat, h: nat)
    requires Exact(max, s) && forall k :: 0 <= k <= i ==> ProperBefore(max, s, w, k)
    ensures var met := Met(max, s, w, i);
            Exact(max, met) && (h !in met.holders ==> Exact(max, Next(max, met, Acquire(h))))
  {
    if i > 0 {
      PollsMeetExactCounter(max, s, w, i - 1, h);
    }
    assert ProperBefore(max, s, w, i);
    CounterIsExact(max, if i == 0 then s else Met(max, s, w, i - 1), w.others(i));
  }

  /** acquireWithSaturationRetries: the first answer other than saturated within nine tries, unless
      the context ends during a pause. */
  method AcquireWithSaturationRetries(answer: nat -> Outcome, cancelled: nat -> bool) returns (r: Outcome, tries: nat)
    ensures 1 <= tries <= 9
    ensures forall i :: 0 <= i < tries - 1 ==> answer(i) == Saturated && !cancelled(i)
    ensures r == Granted <==> answer(tries - 1) == Granted
    ensures r == Saturated <==>
            tries == 9 && answer(tries - 1) == Saturated && !cancelled(tries - 1)
  {
    r, tries := Saturated, 0;
    while tries < SATURATION_RETRY_BUDGET
      invariant tries <= SATURATION_RETRY_BUDGET && r == Saturated
      invariant forall i :: 0 <= i < tries ==> answer(i) == Saturated && !cancelled(i)
    {
      r := answer(tries);
      tries := tries + 1;
      if r != Saturated {
        return;
      }
      if cancelled(tries - 1) {
        return Interrupted, tries;
      }
    }
  }
}

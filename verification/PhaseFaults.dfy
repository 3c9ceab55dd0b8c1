// What a pause, a rejection and a crash do to a phase in progress.
module PhaseFaults {
  import opened PhaseDomain
  import opened PhaseTable
  import opened PhaseLifecycle
  import opened PhaseRecords
  import opened PhaseRevival
  import opened PhaseProgress

  /** The index of the stored row of the phase being worked on. */
  function WorkSlot(s: State): nat
    requires s.work.Busy?
  {
    FindKey(s.rows, s.work.row.kind, s.work.row.attempts)
  }

  /** A pause for approval loses nothing: resuming goes on with the stored row and a fresh copy of the change. */
  lemma PauseThenResume(c: Config, s: State)
    requires Reachable(c, s) && s.work.Busy? && s.work.stage == Fresh && !(s.work.row.kind == Init && c.initService)
    ensures WorkSlot(s) < |s.rows| && s.rows[WorkSlot(s)] == s.work.row.(id := s.rows[WorkSlot(s)].id)
    ensures Next(c, Next(c, s, Pause), Resume(WorkSlot(s))) == s.(work := Busy(s.change, s.rows[WorkSlot(s)], Fresh))
  {
    ReachableInv(c, s);
  }

  /** Rejecting a paused phase stores exactly that row blocked and leaves nothing in progress. */
  lemma PauseThenReject(c: Config, s: State)
    requires Reachable(c, s) && s.work.Busy? && s.work.stage == Fresh && !(s.work.row.kind == Init && c.initService)
    requires s.work.row.status == Running
    ensures var k := WorkSlot(s);
            && k < |s.rows| && s.rows[k].status == Running
            && Next(c, Next(c, s, Pause), Reject(k)) ==
               s.(rows := s.rows[k := s.rows[k].(status := Blocked, confidence := 0.0)], work := Idle)
  {
    ReachableInv(c, s);
    QuietKeeps(c, s);
    RejectRunning(c, s.(work := Idle), WorkSlot(s));
  }

  lemma OnlyOneRunning(rows: seq<Row>, k: nat)
    requires k < |rows| && rows[k].status == Running && forall i :: 0 <= i < |rows| && i != k ==> !Live(rows[i])
    ensures Recovered(rows) == rows[k := rows[k].(status := Interrupted)]
  {
    forall i | 0 <= i < |rows| ensures Recovered(rows)[i] == rows[k := rows[k].(status := Interrupted)][i] {
      assert i != k ==> !Live(rows[i]);
    }
  }

  /** A crash while the only live phase is being worked on, then boot recovery: exactly that row is
      interrupted, and Run is refused on every continuation exactly if no earlier attempt of its type can
      be started until it lands on it. */
  lemma CrashStopsTheChangeIff(c: Config, s: State)
    requires Reachable(c, s) && s.work.Busy? && s.work.row.status == Running
    requires forall i :: 0 <= i < |s.rows| && i != WorkSlot(s) ==> !Live(s.rows[i])
    ensures var k, s' := WorkSlot(s), Next(c, Next(c, s, Crash), Recover);
            && k < |s.rows| && s' == s.(rows := s.rows[k := s.rows[k].(status := Interrupted)], work := Idle)
            && ((forall t :: Leads(c, s', t) ==> RunRefused(c, t)) <==> !CanRevive(s'.rows, k))
  {
    ReachableInv(c, s);
    OnlyOneRunning(s.rows, WorkSlot(s));
    CrashRecover(c, s);
    LeadsOnward(c, INITIAL, s, Rebooted(s));
    RunRefusedForeverIff(c, Rebooted(s), WorkSlot(s));
  }

  /** The first attempt of a phase has no earlier one: after a crash Run is refused for ever. */
  lemma CrashOfFirstAttempt(c: Config, s: State, t: State)
    requires Reachable(c, s) && s.work.Busy? && s.work.row.status == Running && s.work.row.attempts == 1
    requires forall i :: 0 <= i < |s.rows| && i != WorkSlot(s) ==> !Live(s.rows[i])
    requires Leads(c, Rebooted(s), t)
    ensures RunRefused(c, t)
  {
    ReachableInv(c, s);
    CrashRecover(c, s);
    CrashStopsTheChangeIff(c, s);
    assert forall i :: 0 <= i < |s.rows| ==> Rebooted(s).rows[i].attempts >= 1;
    assert !CanRevive(Rebooted(s).rows, WorkSlot(s));
  }

  /** A crash after the phase was saved but before the change advanced loses only the advance: the
      pointer and every row that is not running stay, and the phase can be named in a Run again. */
  lemma CrashBeforeAdvance(c: Config, s: State)
    requires Reachable(c, s) && s.work.Busy? && s.work.stage == Accepted
    ensures var s' := Next(c, Next(c, s, Crash), Recover);
            && WorkSlot(s) < |s.rows| && s' == Rebooted(s) && s'.rows[WorkSlot(s)] == s.rows[WorkSlot(s)]
            && (CanAdvance(s.work.change, s.work.row.kind) ==> NextAllowed(s'.change.at, s.work.row.kind))
  {
    ReachableInv(c, s);
    CrashRecover(c, s);
  }

  // --- a crash that can be undone ---

  lemma RunThenFail(c: Config, s: State, kind: PhaseType, id: nat)
    requires ReadyFor(c, s, kind) && !HasId(s.rows, id) && Latest(s.rows, kind) < 2
    ensures var t := s.(rows := s.rows + [Try(s.rows, kind, id).(status := Blocked)]);
            Leads(c, s, t) && ReadyFor(c, t, kind) && Latest(t.rows, kind) == Latest(s.rows, kind) + 1
  {
    var r := Try(s.rows, kind, id);
    var s1 := s.(rows := s.rows + [r], work := Busy(s.change, r, Fresh));
    var t := s.(rows := s.rows + [r.(status := Blocked)]);
    RunAccepted(c, s, kind, id);
    FailReopened(c, s1, r);
    LeadsOne(c, s, Run(kind, 0, id));
    assert s1.rows[|s.rows| := Failed(r)] == t.rows;
    LeadsBy(c, s, s1, Fail, t);
    StillReady(c, s, r.(status := Blocked), t);
  }

  lemma RunThenCrash(c: Config, s: State, kind: PhaseType, id: nat)
    requires ReadyFor(c, s, kind) && !HasId(s.rows, id)
    ensures var t := s.(rows := Recovered(s.rows + [Try(s.rows, kind, id)])); Leads(c, s, t) && Inv(c, t)
  {
    RunAccepted(c, s, kind, id);
    var s1 := AfterRun(s, kind, 0, id);
    LeadsOne(c, s, Run(kind, 0, id));
    CrashRecover(c, s1);
    LeadsOnward(c, s, s1, Rebooted(s1));
  }

  lemma BlockedApplyRevives(rows: seq<Row>, r1: Row, r2: Row)
    requires r1 == Row(r1.id, Apply, Blocked, 0.0, 3, 1) && r2 == Row(r2.id, Apply, Running, 0.0, 3, 2)
    ensures var rows' := Recovered(rows + [r1] + [r2]); rows'[|rows| + 1].status == Interrupted && CanRevive(rows', |rows| + 1)
  {
    var rows' := Recovered(rows + [r1] + [r2]);
    assert rows'[|rows|] == r1 && rows'[|rows| + 1] == r2.(status := Interrupted);
    assert Reviver(rows', |rows| + 1, |rows|);
  }

  lemma FirstBlocked(c: Config, s: State) returns (id: nat)
    requires ReadyFor(c, s, Apply) && Latest(s.rows, Apply) == 0
    ensures var t := s.(rows := s.rows + [Row(id, Apply, Blocked, 0.0, 3, 1)]);
            Leads(c, s, t) && ReadyFor(c, t, Apply) && Latest(t.rows, Apply) == 1
  {
    id := NewId(s.rows);
    RunThenFail(c, s, Apply, id);
  }

  lemma SecondCrashes(c: Config, s: State) returns (id: nat)
    requires ReadyFor(c, s, Apply) && Latest(s.rows, Apply) == 1
    ensures var t := s.(rows := Recovered(s.rows + [Row(id, Apply, Running, 0.0, 3, 2)])); Leads(c, s, t) && Inv(c, t)
  {
    id := NewId(s.rows);
    RunThenCrash(c, s, Apply, id);
  }

  lemma BlockedThenCrashed(c: Config, s: State) returns (r1: Row, r2: Row, t: State)
    requires ReadyFor(c, s, Apply) && Latest(s.rows, Apply) == 0
    ensures r1 == Row(r1.id, Apply, Blocked, 0.0, 3, 1) && r2 == Row(r2.id, Apply, Running, 0.0, 3, 2)
    ensures Leads(c, s, t) && Inv(c, t) && t.rows == Recovered(s.rows + [r1] + [r2])
  {
    var id := FirstBlocked(c, s);
    r1 := Row(id, Apply, Blocked, 0.0, 3, 1);
    var s1 := s.(rows := s.rows + [r1]);
    var id' := SecondCrashes(c, s1);
    r2 := Row(id', Apply, Running, 0.0, 3, 2);
    t := s1.(rows := Recovered(s1.rows + [r2]));
    LeadsOnward(c, s, s1, t);
  }

  lemma NoneOtherLive(rows: seq<Row>, r1: Row, r2: Row, at: nat)
    requires NoneLive(rows) && !Live(r1) && at == |rows| + 1
    ensures forall k :: 0 <= k < |rows| + 2 && k != at ==> !Live(Recovered(rows + [r1] + [r2])[k])
  {
  }

  lemma RevivableApply(c: Config) returns (s: State, at: nat)
    ensures Reachable(c, s) && Inv(c, s) && at < |s.rows| && s.rows[at].status == Interrupted
    ensures s.rows[at].kind == Apply && s.rows[at].attempts == 2 && CanRevive(s.rows, at)
    ensures forall k :: 0 <= k < |s.rows| && k != at ==> !Live(s.rows[k])
  {
    var s0 := CanReach(c, 5);
    ReadyNext(c, s0, 5);
    var r1, r2;
    r1, r2, s := BlockedThenCrashed(c, s0);
    LeadsOnward(c, INITIAL, s0, s);
    at := |s0.rows| + 1;
    BlockedApplyRevives(s0.rows, r1, r2);
    NoneOtherLive(s0.rows, r1, r2, at);
  }

  /** A reachable case: apply attempt 1 is blocked and attempt 2 interrupted by a crash. Resuming attempt 1
      leads to a state in which a Run is accepted again. */
  lemma InterruptedApplyCanBeRevived(c: Config) returns (s: State, at: nat, t: State)
    ensures Reachable(c, s) && at < |s.rows| && s.rows[at].status == Interrupted
    ensures s.rows[at].kind == Apply && s.rows[at].attempts == 2 && CanRevive(s.rows, at)
    ensures Leads(c, s, t) && at < |t.rows| && t.rows[at].status == Blocked && !RunRefused(c, t)
  {
    s, at := RevivableApply(c);
    t := ReviveLetsRunIn(c, s, at);
  }
}

// The lifecycle does what it is for: from a new change there is a run to completion, one accepted
// attempt per phase, and a phase that meets its conditions can always be run and accepted. The same
// steps also lead to states in which an older attempt can be started once more.
module PhaseProgress {
  import opened PhaseDomain
  import opened PhaseTable
  import opened PhaseLifecycle
  import opened PhaseRecords
  import opened PhaseRevival

  /** Nothing in flight or stranded, and the next phase would pass its checks on the next try. */
  ghost predicate ReadyFor(c: Config, s: State, kind: PhaseType) {
    && Inv(c, s) && s.work.Idle? && NoneLive(s.rows) && s.change.status == Active && kind in NextValid(s.change.at)
    && Latest(s.rows, kind) < 3
    && (kind == Apply ==> c.applyExecutor || DoneAtThreshold(s.rows, Tasks))
    && (kind == Archive ==> DoneAtThreshold(s.rows, Verify))
  }

  function Try(rows: seq<Row>, kind: PhaseType, id: nat): Row {
    Row(id, kind, Running, 0.0, 3, Latest(rows, kind) + 1)
  }

  lemma RunShape(c: Config, s: State, kind: PhaseType, id: nat)
    requires ReadyFor(c, s, kind) && !HasId(s.rows, id)
    ensures var r := Try(s.rows, kind, id);
            AfterRun(s, kind, 0, id) == s.(rows := s.rows + [r], work := Busy(s.change, r, Fresh))
  {
    PriorIsLatest(c, s.rows, kind);
    SaveNewRow(s.rows, Try(s.rows, kind, id));
  }

  lemma RunAccepted(c: Config, s: State, kind: PhaseType, id: nat)
    requires ReadyFor(c, s, kind) && !HasId(s.rows, id)
    ensures var r, s' := Try(s.rows, kind, id), AfterRun(s, kind, 0, id);
            && s' == s.(rows := s.rows + [r], work := Busy(s.change, r, Fresh))
            && Inv(c, s') && Extends(s.rows, s.rows + [r]) && FindKey(s.rows + [r], r.kind, r.attempts) == |s.rows|
  {
    var r := Try(s.rows, kind, id);
    RunShape(c, s, kind, id);
    RunKeeps(c, s, kind, 0, id);
    assert (s.rows + [r])[|s.rows|] == r;
    FindsKey(s.rows + [r], |s.rows|, r.kind, r.attempts);
  }

  /** Another row of the type does not change which laws the other types satisfy. */
  lemma DoneWithMore(c: Config, rows: seq<Row>, r: Row, kind: PhaseType)
    requires DoneAtThreshold(rows, kind) && r.kind != kind && r.attempts == Latest(rows, r.kind) + 1
    requires Unique(rows + [r])
    ensures DoneAtThreshold(rows + [r], kind)
  {
    LatestAppended(rows, r, kind);
    FindsKey(rows + [r], LatestIndex(rows, kind), kind, Latest(rows, kind));
  }

  lemma LawsPass(c: Config, s: State, kind: PhaseType, id: nat)
    requires ReadyFor(c, s, kind) && !HasId(s.rows, id)
    ensures ClearedToGo(c, s.rows + [Try(s.rows, kind, id)], Try(s.rows, kind, id))
  {
    RunAccepted(c, s, kind, id);
    if kind == Apply && !c.applyExecutor {
      DoneWithMore(c, s.rows, Try(s.rows, kind, id), Tasks);
    }
    if kind == Archive {
      DoneWithMore(c, s.rows, Try(s.rows, kind, id), Verify);
    }
  }

  lemma Checked(c: Config, s: State)
    requires Inv(c, s) && s.work.Busy? && s.work.stage == Fresh && ClearedToGo(c, s.rows, s.work.row)
    ensures Next(c, s, Check) == s.(work := s.work.(stage := Cleared)) && Inv(c, Next(c, s, Check))
  {
    CheckKeeps(c, s);
  }

  /** The state after Run and a passed check. */
  function Underway(s: State, kind: PhaseType, id: nat): State {
    var r := Try(s.rows, kind, id);
    s.(rows := s.rows + [r], work := Busy(s.change, r, Cleared))
  }

  lemma GetsUnderway(c: Config, s: State, kind: PhaseType, id: nat)
    requires ReadyFor(c, s, kind) && !HasId(s.rows, id)
    ensures Next(c, Next(c, s, Run(kind, 0, id)), Check) == Underway(s, kind, id) && Inv(c, Underway(s, kind, id))
    ensures FindKey(Underway(s, kind, id).rows, kind, Latest(s.rows, kind) + 1) == |s.rows|
  {
    var r := Try(s.rows, kind, id);
    var s1 := s.(rows := s.rows + [r], work := Busy(s.change, r, Fresh));
    RunAccepted(c, s, kind, id);
    LawsPass(c, s, kind, id);
    Checked(c, s1);
    assert Next(c, s, Run(kind, 0, id)) == s1;
  }

  lemma Advanced(c: Config, s: State)
    requires Inv(c, s) && s.work.Busy? && s.work.stage == Accepted && CanAdvance(s.work.change, s.work.row.kind)
    ensures var s', kind := Next(c, s, Advance), s.work.row.kind;
            && Inv(c, s')
            && s' == State(ChangeRow(if kind == Archive then Complete else Active, kind), s.rows, Idle,
                           if kind == Archive then s.archived + 1 else s.archived)
  {
    AdvanceKeeps(c, s);
  }

  lemma AppendedLatest(rows: seq<Row>, r: Row)
    requires r.attempts == Latest(rows, r.kind) + 1 && Unique(rows + [r])
    ensures LatestIndex(rows + [r], r.kind) == |rows|
  {
    LatestAppended(rows, r, r.kind);
    assert (rows + [r])[|rows|] == r;
    FindsKey(rows + [r], |rows|, r.kind, r.attempts);
  }

  lemma NoneLiveAppended(rows: seq<Row>, r: Row)
    requires NoneLive(rows) && !Live(r)
    ensures NoneLive(rows + [r])
  {
  }

  /** The state after a phase was run, accepted and advanced to. */
  function DoneNext(s: State, kind: PhaseType, id: nat): State {
    State(ChangeRow(if kind == Archive then Complete else Active, kind),
          s.rows + [Try(s.rows, kind, id).(status := Done, confidence := 1.0)], Idle,
          if kind == Archive then s.archived + 1 else s.archived)
  }

  lemma UnderwayLeads(c: Config, s: State, kind: PhaseType, id: nat)
    requires ReadyFor(c, s, kind) && !HasId(s.rows, id)
    ensures Leads(c, s, Underway(s, kind, id))
  {
    GetsUnderway(c, s, kind, id);
    LeadsOne(c, s, Run(kind, 0, id));
    LeadsBy(c, s, Next(c, s, Run(kind, 0, id)), Check, Underway(s, kind, id));
  }

  lemma UnderwayInv(c: Config, s: State, kind: PhaseType, id: nat)
    requires ReadyFor(c, s, kind) && !HasId(s.rows, id)
    ensures Inv(c, Underway(s, kind, id))
    ensures FindKey(Underway(s, kind, id).rows, kind, Latest(s.rows, kind) + 1) == |s.rows|
  {
    GetsUnderway(c, s, kind, id);
  }

  lemma LastPut(rows: seq<Row>, old_: Row, r: Row)
    ensures (rows + [old_])[|rows| := r] == rows + [r]
  {
  }

  lemma FinishUnderway(c: Config, s: State, kind: PhaseType, id: nat)
    requires ReadyFor(c, s, kind) && !HasId(s.rows, id)
    ensures var r := Try(s.rows, kind, id).(status := Done, confidence := 1.0);
            var s3 := s.(rows := s.rows + [r], work := Busy(s.change, r, Accepted));
            Next(c, Underway(s, kind, id), Finish(EnvDone, 1.0, false)) == s3 && Inv(c, s3)
  {
    var s2, r := Underway(s, kind, id), Try(s.rows, kind, id).(status := Done, confidence := 1.0);
    UnderwayInv(c, s, kind, id);
    FinishDone(c, s2);
    LastPut(s.rows, Try(s.rows, kind, id), r);
  }

  lemma FinishThenAdvance(c: Config, s: State, kind: PhaseType, id: nat)
    requires ReadyFor(c, s, kind) && !HasId(s.rows, id)
    ensures var s2 := Underway(s, kind, id);
            Next(c, Next(c, s2, Finish(EnvDone, 1.0, false)), Advance) == DoneNext(s, kind, id) && Inv(c, DoneNext(s, kind, id))
  {
    var r := Try(s.rows, kind, id).(status := Done, confidence := 1.0);
    FinishUnderway(c, s, kind, id);
    Advanced(c, s.(rows := s.rows + [r], work := Busy(s.change, r, Accepted)));
  }

  /** A phase whose conditions hold can be run, accepted and advanced to. */
  lemma PhaseCanBeDone(c: Config, s: State, kind: PhaseType, id: nat)
    requires ReadyFor(c, s, kind) && !HasId(s.rows, id)
    ensures var t := DoneNext(s, kind, id); Leads(c, s, t) && Inv(c, t) && NoneLive(t.rows) && DoneAtThreshold(t.rows, kind)
  {
    var s2, done := Underway(s, kind, id), Try(s.rows, kind, id).(status := Done, confidence := 1.0);
    UnderwayLeads(c, s, kind, id);
    FinishThenAdvance(c, s, kind, id);
    LeadsFurther(c, s, s2, Finish(EnvDone, 1.0, false));
    LeadsBy(c, s, Next(c, s2, Finish(EnvDone, 1.0, false)), Advance, DoneNext(s, kind, id));
    AppendedLatest(s.rows, done);
    NoneLiveAppended(s.rows, done);
    assert Threshold(kind) <= 1.0;
  }

  /** The phase at a place of the canonical order. */
  function PhaseAt(n: nat): (t: PhaseType)
    requires n <= 8
    ensures Position(t) == n
  {
    match n
    case 0 => Init
    case 1 => Explore
    case 2 => Proposal
    case 3 => Spec
    case 4 => Design
    case 5 => Tasks
    case 6 => Apply
    case 7 => Verify
    case _ => Archive
  }

  /** All phases up to place n done at the first attempt, none beyond started. */
  ghost predicate DoneUpTo(c: Config, s: State, n: nat)
    requires n <= 8
  {
    && Inv(c, s) && s.work.Idle? && NoneLive(s.rows) && s.change.at == PhaseAt(n)
    && s.change.status == (if n == 8 then Complete else Active)
    && (forall t: PhaseType :: Position(t) > n ==> Latest(s.rows, t) == 0)
    && (n > 0 ==> DoneAtThreshold(s.rows, PhaseAt(n)))
  }

  lemma ReadyNext(c: Config, s: State, n: nat)
    requires n < 8 && DoneUpTo(c, s, n)
    ensures ReadyFor(c, s, PhaseAt(n + 1)) && Latest(s.rows, PhaseAt(n + 1)) == 0
  {
    NextIsSuccessor(PhaseAt(n), PhaseAt(n + 1));
  }

  lemma OnePhaseFurther(c: Config, s: State, n: nat) returns (t: State)
    requires n < 8 && DoneUpTo(c, s, n)
    ensures Leads(c, s, t) && DoneUpTo(c, t, n + 1)
  {
    var kind := PhaseAt(n + 1);
    ReadyNext(c, s, n);
    var id := NewId(s.rows);
    PhaseCanBeDone(c, s, kind, id);
    t := DoneNext(s, kind, id);
    var done := Try(s.rows, kind, id).(status := Done, confidence := 1.0);
    forall u: PhaseType | Position(u) > n + 1 ensures Latest(s.rows + [done], u) == 0 {
      LatestAppended(s.rows, done, u);
    }
  }

  /** In every configuration a new change can be carried through its first n phases. */
  lemma {:induction false} CanReach(c: Config, n: nat) returns (s: State)
    requires n <= 8
    ensures Reachable(c, s) && DoneUpTo(c, s, n)
  {
    if n == 0 {
      s := INITIAL;
      LeadsTo(c, INITIAL);
    } else {
      var s0 := CanReach(c, n - 1);
      s := OnePhaseFurther(c, s0, n - 1);
      LeadsOnward(c, INITIAL, s0, s);
    }
  }

  lemma CanComplete(c: Config)
    ensures exists s :: Reachable(c, s) && s.change == ChangeRow(Complete, Archive) && s.archived == 1
  {
    var s := CanReach(c, 8);
  }

  // --- states in which records can be lost ---

  lemma FinishNeedsContext(c: Config, s: State)
    requires Inv(c, s) && s.work.Busy? && s.work.stage == Cleared && s.work.row.status == Running
    ensures var s', r := Next(c, s, Finish(EnvNeedsContext, 0.0, false)), s.work.row.(status := NeedsContext, confidence := 0.0);
            var k := FindKey(s.rows, r.kind, r.attempts);
            && Inv(c, s') && k < |s.rows| && s' == s.(rows := s.rows[k := r.(id := s.rows[k].id)], work := Idle)
  {
    var r := s.work.row;
    assert SoundRow(c, s.rows[FindKey(s.rows, r.kind, r.attempts)]);
    FinishedIsSound(c, r, Envelope(r.kind, EnvNeedsContext, 0.0), false);
    SettleOwn(c, s, Completed(r, Envelope(r.kind, EnvNeedsContext, 0.0)));
    FinishKeeps(c, s, Envelope(r.kind, EnvNeedsContext, 0.0), false);
  }

  lemma StillReady(c: Config, s: State, r: Row, s': State)
    requires ReadyFor(c, s, r.kind) && r.attempts == Latest(s.rows, r.kind) + 1 && r.attempts < 3 && !Live(r)
    requires s' == s.(rows := s.rows + [r]) && Inv(c, s')
    ensures ReadyFor(c, s', r.kind) && Latest(s'.rows, r.kind) == r.attempts
  {
    LatestAppended(s.rows, r, r.kind);
    if r.kind == Apply && !c.applyExecutor {
      DoneWithMore(c, s.rows, r, Tasks);
    }
    if r.kind == Archive {
      DoneWithMore(c, s.rows, r, Verify);
    }
  }

  lemma NeedsContextNext(c: Config, s: State, kind: PhaseType, id: nat)
    requires ReadyFor(c, s, kind) && !HasId(s.rows, id)
    ensures var t := s.(rows := s.rows + [Try(s.rows, kind, id).(status := NeedsContext)]);
            Next(c, Underway(s, kind, id), Finish(EnvNeedsContext, 0.0, false)) == t && Inv(c, t)
  {
    UnderwayInv(c, s, kind, id);
    FinishNeedsContext(c, Underway(s, kind, id));
    LastPut(s.rows, Try(s.rows, kind, id), Try(s.rows, kind, id).(status := NeedsContext));
  }

  /** A phase can end in needs-context and be ready for another attempt. */
  lemma PhaseCanNeedContext(c: Config, s: State, kind: PhaseType, id: nat)
    requires ReadyFor(c, s, kind) && !HasId(s.rows, id) && Latest(s.rows, kind) < 2
    ensures var t := s.(rows := s.rows + [Try(s.rows, kind, id).(status := NeedsContext)]);
            Leads(c, s, t) && ReadyFor(c, t, kind) && Latest(t.rows, kind) == Latest(s.rows, kind) + 1
  {
    var r := Try(s.rows, kind, id).(status := NeedsContext);
    var t := s.(rows := s.rows + [r]);
    UnderwayLeads(c, s, kind, id);
    NeedsContextNext(c, s, kind, id);
    LeadsBy(c, s, Underway(s, kind, id), Finish(EnvNeedsContext, 0.0, false), t);
    StillReady(c, s, r, t);
  }

  lemma FirstWaits(c: Config, s: State, kind: PhaseType) returns (id: nat)
    requires ReadyFor(c, s, kind) && Latest(s.rows, kind) == 0
    ensures var t := s.(rows := s.rows + [Waits(kind, id)]); Leads(c, s, t) && ReadyFor(c, t, kind) && Latest(t.rows, kind) == 1
  {
    id := NewId(s.rows);
    PhaseCanNeedContext(c, s, kind, id);
  }

  lemma SecondSucceeds(c: Config, s: State, kind: PhaseType) returns (id: nat, t: State)
    requires ReadyFor(c, s, kind) && Latest(s.rows, kind) == 1
    ensures Leads(c, s, t) && Inv(c, t) && t.work.Idle? && NoneLive(t.rows) && DoneAtThreshold(t.rows, kind)
    ensures t.change == ChangeRow(if kind == Archive then Complete else Active, kind) && t.rows == s.rows + [Succeeds(kind, id)]
  {
    id := NewId(s.rows);
    PhaseCanBeDone(c, s, kind, id);
    t := DoneNext(s, kind, id);
  }

  /** A needs-context attempt followed by a done one: the change stands at the phase, and the first
      attempt can be started once more. */
  lemma RecordAtRisk(c: Config, s: State, kind: PhaseType) returns (t: State, id: nat, id': nat)
    requires ReadyFor(c, s, kind) && Latest(s.rows, kind) == 0
    ensures Leads(c, s, t) && Inv(c, t) && t.work.Idle? && NoneLive(t.rows) && DoneAtThreshold(t.rows, kind)
    ensures t.change == ChangeRow(if kind == Archive then Complete else Active, kind)
    ensures t.rows == s.rows + [Waits(kind, id)] + [Succeeds(kind, id')]
  {
    id := FirstWaits(c, s, kind);
    var s1 := s.(rows := s.rows + [Waits(kind, id)]);
    id', t := SecondSucceeds(c, s1, kind);
    LeadsOnward(c, s, s1, t);
  }

  function Waits(kind: PhaseType, id: nat): Row {
    Row(id, kind, NeedsContext, 0.0, 3, 1)
  }

  function Succeeds(kind: PhaseType, id: nat): Row {
    Row(id, kind, Done, 1.0, 3, 2)
  }

  lemma LatestOfTwo(rows: seq<Row>, r1: Row, r2: Row, t: PhaseType)
    requires r1.attempts == Latest(rows, r1.kind) + 1 && r2.kind == r1.kind && r2.attempts == r1.attempts + 1
    ensures Latest(rows + [r1] + [r2], t) == if t == r1.kind then r2.attempts else Latest(rows, t)
  {
    LatestAppended(rows, r1, r1.kind);
    LatestAppended(rows, r1, t);
    LatestAppended(rows + [r1], r2, t);
  }

  /** With no attempt of the type before, the done one is its only record. */
  lemma OnlyOneDone(rows: seq<Row>, kind: PhaseType, id: nat, id': nat)
    requires Latest(rows, kind) == 0 && Unbroken(rows)
    ensures SoleRecord(rows + [Waits(kind, id)] + [Succeeds(kind, id')], |rows| + 1)
  {
    assert forall k :: 0 <= k < |rows| ==> rows[k].kind != kind;
  }

  lemma LosesOnlyRecord(c: Config, s: State, rows: seq<Row>, kind: PhaseType, id: nat, id': nat)
    requires Inv(c, s) && Unbroken(rows) && Latest(rows, kind) == 0 && s.rows == rows + [Waits(kind, id)] + [Succeeds(kind, id')]
    ensures var t := Next(c, ResumedAt(s, |rows|), Fail); Leads(c, s, t) && t.change == s.change && !HasAccepted(t.rows, kind)
  {
    var i := |rows|;
    LatestOfTwo(rows, Waits(kind, id), Succeeds(kind, id'), kind);
    CrashResumeFail(c, s, i);
    var s2 := ResumedAt(s, i);
    OverwriteStep(c, s2, Fail);
    FindsKey(s.rows, i + 1, kind, 2);
    OnlyOneDone(rows, kind, id, id');
    AcceptedAfterPut(s.rows, i + 1, Written(c, s2, Fail).(id := s.rows[i + 1].id), kind);
  }

  /** The failing case: every phase up to the pointer had been accepted, and after the resume of a
      needs-context attempt the one at the pointer is not. */
  lemma StandingCanFail(c: Config, n: nat) returns (s: State)
    requires 1 <= n <= 8
    ensures Reachable(c, s) && s.change.at == PhaseAt(n) && !HasAccepted(s.rows, PhaseAt(n)) && !Standing(s)
  {
    var kind := PhaseAt(n);
    var s0 := CanReach(c, n - 1);
    ReadyNext(c, s0, n - 1);
    var s1, id, id' := RecordAtRisk(c, s0, kind);
    LeadsOnward(c, INITIAL, s0, s1);
    LosesOnlyRecord(c, s1, s0.rows, kind, id, id');
    s := Next(c, ResumedAt(s1, |s0.rows|), Fail);
    LeadsOnward(c, INITIAL, s1, s);
  }

  lemma ExposedAfterArchive(rows: seq<Row>, id: nat, id': nat, r: Row)
    requires Latest(rows, Verify) == 0 && r.kind == Archive && r.attempts == Latest(rows, Archive) + 1
    ensures VerifyExposed(rows + [Waits(Verify, id)] + [Succeeds(Verify, id')] + [r])
  {
    var rows1 := rows + [Waits(Verify, id)] + [Succeeds(Verify, id')];
    LatestOfTwo(rows, Waits(Verify, id), Succeeds(Verify, id'), Verify);
    LatestOfTwo(rows, Waits(Verify, id), Succeeds(Verify, id'), Archive);
    LatestAppended(rows1, r, Verify);
    assert (rows1 + [r])[|rows|] == Waits(Verify, id);
  }

  /** From a change that stands at apply: verify needs context once, is done, and archive completes. */
  lemma VerifyAtRisk(c: Config, s: State) returns (t: State)
    requires DoneUpTo(c, s, 6)
    ensures Leads(c, s, t) && t.change == ChangeRow(Complete, Archive) && VerifyExposed(t.rows)
  {
    ReadyNext(c, s, 6);
    var s1, id, id' := RecordAtRisk(c, s, Verify);
    NextIsSuccessor(Verify, Archive);
    LatestOfTwo(s.rows, Waits(Verify, id), Succeeds(Verify, id'), Archive);
    var id2 := NewId(s1.rows);
    PhaseCanBeDone(c, s1, Archive, id2);
    t := DoneNext(s1, Archive, id2);
    LeadsOnward(c, s, s1, t);
    ExposedAfterArchive(s.rows, id, id', Try(s1.rows, Archive, id2).(status := Done, confidence := 1.0));
  }

  /** The failing case for a completed change: its latest verify attempt is no longer done. */
  lemma VerifiedCanFail(c: Config) returns (s: State)
    ensures Reachable(c, s) && s.change == ChangeRow(Complete, Archive) && !DoneAtThreshold(s.rows, Verify)
  {
    var s0 := CanReach(c, 6);
    var s1 := VerifyAtRisk(c, s0);
    LeadsOnward(c, INITIAL, s0, s1);
    s := ExposedIsLost(c, s1);
    LeadsOnward(c, INITIAL, s1, s);
  }
}

// Which steps overwrite the record of another attempt, and what that does to the guarantees that
// rest on the records: history, standing at a phase, and a verified completion.
module PhaseRecords {
  import opened PhaseDomain
  import opened PhaseTable
  import opened PhaseLifecycle

  /** An earlier attempt than the latest of its type, with budget left. */
  predicate Older(rows: seq<Row>, r: Row) {
    r.attempts < r.budget && r.attempts < Latest(rows, r.kind)
  }

  /** The action fails the phase being worked on. */
  predicate FailsWork(c: Config, s: State, a: Action) {
    s.work.Busy? &&
    match a
    case Fail => s.work.stage != Accepted
    case Check => s.work.stage == Fresh && !ClearedToGo(c, s.rows, s.work.row)
    case Finish(status, confidence, concerns) =>
      s.work.stage == Cleared
      && CompleteOutcome(s.work.row, Judged(c, Envelope(s.work.row.kind, status, confidence), concerns)) != Ok
    case _ => false
  }

  /** The action starts an older attempt once more: a resumed or rejected one, or a needs-context one
      that fails. Everything here can be read from the table before the call. */
  predicate Overwrites(c: Config, s: State, a: Action) {
    match a
    case Resume(at) => s.work.Idle? && at < |s.rows| && Reopens(s.rows[at]) && Older(s.rows, s.rows[at])
    case Reject(at) =>
      s.work.Idle? && at < |s.rows| && (s.rows[at].status == NeedsContext || s.rows[at].status == Interrupted)
      && Older(s.rows, s.rows[at])
    case _ => FailsWork(c, s, a) && s.work.row.status == NeedsContext && Older(s.rows, s.work.row)
  }

  /** The attempt that is started once more. */
  function Author(c: Config, s: State, a: Action): Row
    requires Overwrites(c, s, a)
  {
    if a.Resume? || a.Reject? then s.rows[a.at] else s.work.row
  }

  /** The index of the attempt that followed it. */
  function Victim(c: Config, s: State, a: Action): nat
    requires Overwrites(c, s, a)
  {
    FindKey(s.rows, Author(c, s, a).kind, Author(c, s, a).attempts + 1)
  }

  function Written(c: Config, s: State, a: Action): Row
    requires Overwrites(c, s, a)
  {
    if a.Resume? then Reopened(Author(c, s, a)) else FailedAttempt(Author(c, s, a))
  }

  lemma AuthorStored(c: Config, s: State, a: Action) returns (i: nat)
    requires Inv(c, s) && Overwrites(c, s, a)
    ensures i < |s.rows| && HasId(s.rows, Author(c, s, a).id) && SoundRow(c, Author(c, s, a))
    ensures Keyed(s.rows[i], Author(c, s, a).kind, Author(c, s, a).attempts)
  {
    i := if a.Resume? || a.Reject? then a.at else FindKey(s.rows, s.work.row.kind, s.work.row.attempts);
    assert SoundRow(c, s.rows[i]);
    assert HasId(s.rows, s.rows[i].id);
  }

  lemma WrittenIsLost(c: Config, s: State, a: Action)
    requires Overwrites(c, s, a) && SoundRow(c, Author(c, s, a))
    ensures var r, w := Author(c, s, a), Written(c, s, a);
            Keyed(w, r.kind, r.attempts + 1) && w.id == r.id && !AdvanceAllowed(w.status) && w.status != NeedsContext
            && w.budget == r.budget
  {
  }

  lemma WrittenKey(c: Config, s: State, a: Action)
    requires Overwrites(c, s, a)
    ensures Written(c, s, a).id == Author(c, s, a).id
    ensures Keyed(Written(c, s, a), Author(c, s, a).kind, Author(c, s, a).attempts + 1)
  {
  }

  lemma AuthorIsOlder(c: Config, s: State, a: Action)
    requires Overwrites(c, s, a)
    ensures Older(s.rows, Author(c, s, a))
  {
  }

  lemma OlderSave(rows: seq<Row>, i: nat, r: Row, w: Row)
    requires Unique(rows) && Unbroken(rows) && i < |rows| && Keyed(rows[i], r.kind, r.attempts) && Older(rows, r)
    requires HasId(rows, w.id) && Keyed(w, r.kind, r.attempts + 1)
    ensures var v := FindKey(rows, r.kind, r.attempts + 1);
            v < |rows| && Keyed(rows[v], w.kind, w.attempts) && Save(rows, w) == Stored(rows[v := w.(id := rows[v].id)])
  {
    SaveUnderNextNumber(rows, i, w);
  }

  lemma OverwriteSaves(c: Config, s: State, a: Action)
    requires Inv(c, s) && Overwrites(c, s, a)
    ensures var v, w := Victim(c, s, a), Written(c, s, a);
            v < |s.rows| && Keyed(s.rows[v], w.kind, w.attempts) && Save(s.rows, w) == Stored(s.rows[v := w.(id := s.rows[v].id)])
  {
    var i := AuthorStored(c, s, a);
    var r, w := Author(c, s, a), Written(c, s, a);
    WrittenKey(c, s, a);
    AuthorIsOlder(c, s, a);
    OlderSave(s.rows, i, r, w);
  }

  lemma OverwriteIsSave(c: Config, s: State, a: Action, rows': seq<Row>)
    requires Overwrites(c, s, a) && Save(s.rows, Written(c, s, a)) == Stored(rows')
    ensures Next(c, s, a).rows == rows' && Next(c, s, a).change == s.change
  {
    if FailsWork(c, s, a) {
      assert Next(c, s, a) == AfterFail(s);
    }
  }

  /** Such a step replaces the record of the following attempt by a running or blocked one, and nothing else. */
  lemma OverwriteStep(c: Config, s: State, a: Action)
    requires Inv(c, s) && Overwrites(c, s, a)
    ensures var v, w := Victim(c, s, a), Written(c, s, a);
            && v < |s.rows| && Keyed(s.rows[v], w.kind, w.attempts) && !AdvanceAllowed(w.status)
            && Next(c, s, a).rows == s.rows[v := w.(id := s.rows[v].id)] && Next(c, s, a).change == s.change
  {
    var v, w := Victim(c, s, a), Written(c, s, a);
    var i := AuthorStored(c, s, a);
    WrittenIsLost(c, s, a);
    OverwriteSaves(c, s, a);
    OverwriteIsSave(c, s, a, s.rows[v := w.(id := s.rows[v].id)]);
  }

  // --- history ---

  predicate Continues(x: Row, y: Row) {
    && y.id == x.id && y.kind == x.kind && y.attempts == x.attempts && y.budget == x.budget
    && (x.status != Running ==> y == x)
  }

  /** Later tables keep every row under its id, key and budget, and every row that was not running as it was. */
  ghost predicate Extends(a: seq<Row>, b: seq<Row>) {
    |a| <= |b| && forall i :: 0 <= i < |a| ==> Continues(a[i], b[i])
  }

  lemma FailExtends(c: Config, s: State)
    requires Inv(c, s) && s.work.Busy? && s.work.stage != Accepted
    requires !(s.work.row.status == NeedsContext && Older(s.rows, s.work.row))
    ensures Extends(s.rows, AfterFail(s).rows)
  {
    var r := s.work.row;
    var k := FindKey(s.rows, r.kind, r.attempts);
    assert SoundRow(c, s.rows[k]);
    if CanFail(r) {
      FailedIsSound(c, r);
      if r.status == Running {
        SettleOwn(c, s, FailedAttempt(r));
      } else {
        SaveUnderNextNumber(s.rows, k, FailedAttempt(r));
      }
    }
  }

  lemma FinishExtends(c: Config, s: State, e: Envelope, concerns: bool)
    requires Inv(c, s) && s.work.Busy? && s.work.stage == Cleared && CompleteOutcome(s.work.row, Judged(c, e, concerns)) == Ok
    ensures Extends(s.rows, AfterFinish(c, s, e, concerns).rows)
  {
    var k := FindKey(s.rows, s.work.row.kind, s.work.row.attempts);
    assert SoundRow(c, s.rows[k]);
    FinishedIsSound(c, s.work.row, e, concerns);
    SettleOwn(c, s, Completed(s.work.row, Judged(c, e, concerns)));
  }

  lemma ResumeExtends(c: Config, s: State, at: nat)
    requires Inv(c, s) && !Overwrites(c, s, Resume(at))
    ensures AfterResume(s, at).rows == s.rows
  {
    if s.work.Idle? && at < |s.rows| && Reopens(s.rows[at]) {
      ReopenSaves(c, s, at);
    }
  }

  lemma RejectRunning(c: Config, s: State, at: nat)
    requires Inv(c, s) && s.work.Idle? && at < |s.rows| && s.rows[at].status == Running
    ensures AfterReject(s, at) == s.(rows := s.rows[at := Failed(s.rows[at])])
  {
    SaveOverRow(s.rows, at, Failed(s.rows[at]));
  }

  lemma RejectRefused(c: Config, s: State, at: nat)
    requires Inv(c, s) && at < |s.rows| && s.rows[at].status != Running && !Older(s.rows, s.rows[at])
    ensures AfterReject(s, at) == s
  {
    if !IsTerminal(s.rows[at].status) && CanFail(s.rows[at]) {
      assert HasId(s.rows, s.rows[at].id);
      SaveUnderNextNumber(s.rows, at, FailedAttempt(s.rows[at]));
    }
  }

  lemma RejectExtends(c: Config, s: State, at: nat)
    requires Inv(c, s) && !Overwrites(c, s, Reject(at))
    ensures Extends(s.rows, AfterReject(s, at).rows)
  {
    if s.work.Idle? && at < |s.rows| {
      assert SoundRow(c, s.rows[at]);
      if s.rows[at].status == Running {
        RejectRunning(c, s, at);
      } else if !Older(s.rows, s.rows[at]) {
        RejectRefused(c, s, at);
      }
    }
  }

  /** Every other step keeps the whole history. */
  lemma OrdinaryStep(c: Config, s: State, a: Action)
    requires Inv(c, s) && !Overwrites(c, s, a)
    ensures Extends(s.rows, Next(c, s, a).rows)
  {
    if a.Run? {
      if AfterRun(s, a.kind, a.budget, a.id) != s {
        RunSaves(c, s, a.kind, a.budget, a.id);
      }
    } else if a.Resume? {
      ResumeExtends(c, s, a.at);
    } else if a.Reject? {
      RejectExtends(c, s, a.at);
    } else if FailsWork(c, s, a) {
      FailExtends(c, s);
    } else if a.Finish? && s.work.Busy? && s.work.stage == Cleared {
      FinishExtends(c, s, Envelope(s.work.row.kind, a.status, a.confidence), a.concerns);
    }
  }

  lemma ExtendsOnward(x: seq<Row>, y: seq<Row>, z: seq<Row>)
    requires Extends(x, y) && Extends(y, z)
    ensures Extends(x, z)
  {
    forall i | 0 <= i < |x| ensures Continues(x[i], z[i]) {
      assert Continues(x[i], y[i]) && Continues(y[i], z[i]);
    }
  }

  lemma HistoryOneMore(c: Config, run: seq<Action>, trace: seq<State>, k: nat)
    requires IsTrace(c, run, trace) && Reachable(c, trace[0]) && k < |run|
    requires !Overwrites(c, trace[k], run[k]) && Extends(trace[0].rows, trace[k].rows)
    ensures Extends(trace[0].rows, trace[k + 1].rows)
  {
    TraceReachable(c, run, trace, k);
    ReachableInv(c, trace[k]);
    TraceStep(c, run, trace, k);
    OrdinaryStep(c, trace[k], run[k]);
    ExtendsOnward(trace[0].rows, trace[k].rows, trace[k + 1].rows);
  }

  /** Over a run none of whose first k steps starts an older attempt once more, no record is overwritten. */
  lemma {:induction false} HistoryIsKept(c: Config, run: seq<Action>, trace: seq<State>, k: nat)
    requires IsTrace(c, run, trace) && Reachable(c, trace[0]) && k <= |run|
    requires forall i :: 0 <= i < k ==> !Overwrites(c, trace[i], run[i])
    ensures Extends(trace[0].rows, trace[k].rows)
  {
    if k > 0 {
      HistoryIsKept(c, run, trace, k - 1);
      HistoryOneMore(c, run, trace, k - 1);
    }
  }

  /** One step keeps all records exactly if it does not start an older attempt once more, or the attempt
      that followed had the same budget and either was running or held what is written over it. */
  lemma HistoryStepIff(c: Config, s: State, a: Action)
    requires Reachable(c, s)
    ensures Extends(s.rows, Next(c, s, a).rows) <==>
            (Overwrites(c, s, a) ==>
               var v, w := Victim(c, s, a), Written(c, s, a);
               && v < |s.rows| && s.rows[v].budget == Author(c, s, a).budget
               && (s.rows[v].status == Running || (s.rows[v].status == w.status && s.rows[v].confidence == w.confidence)))
  {
    ReachableInv(c, s);
    if Overwrites(c, s, a) {
      OverwriteStep(c, s, a);
      var j := AuthorStored(c, s, a);
      WrittenIsLost(c, s, a);
      var v := Victim(c, s, a);
      var w := Written(c, s, a).(id := s.rows[v].id);
      if Extends(s.rows, Next(c, s, a).rows) {
        assert Continues(s.rows[v], Next(c, s, a).rows[v]);
      } else {
        assert !Continues(s.rows[v], w);
      }
    } else {
      OrdinaryStep(c, s, a);
    }
  }

  // --- standing at a phase ---

  /** Every phase from explore to the pointer has an accepted attempt. */
  ghost predicate Standing(s: State) {
    forall t: PhaseType :: 1 <= Position(t) <= Position(s.change.at) ==> HasAccepted(s.rows, t)
  }

  /** Row k is the only accepted attempt of its phase type. */
  predicate SoleRecord(rows: seq<Row>, k: nat) {
    k < |rows| && AdvanceAllowed(rows[k].status)
    && forall i :: 0 <= i < |rows| && i != k && rows[i].kind == rows[k].kind ==> !AdvanceAllowed(rows[i].status)
  }

  /** The step overwrites the only accepted attempt of a phase that the change has passed. */
  predicate LosesRecord(c: Config, s: State, a: Action) {
    Overwrites(c, s, a) && 1 <= Position(Author(c, s, a).kind) <= Position(s.change.at) && SoleRecord(s.rows, Victim(c, s, a))
  }

  lemma AcceptedKept(a: seq<Row>, b: seq<Row>, kind: PhaseType)
    requires Extends(a, b) && HasAccepted(a, kind)
    ensures HasAccepted(b, kind)
  {
    var i :| 0 <= i < |a| && a[i].kind == kind && AdvanceAllowed(a[i].status);
    assert Continues(a[i], b[i]);
  }

  lemma AcceptedAfterPut(rows: seq<Row>, v: nat, w: Row, kind: PhaseType)
    requires v < |rows| && w.kind == rows[v].kind && !AdvanceAllowed(w.status)
    ensures HasAccepted(rows[v := w], kind) <==> HasAccepted(rows, kind) && !(kind == w.kind && SoleRecord(rows, v))
  {
    var rows' := rows[v := w];
    assert forall i :: 0 <= i < |rows| && i != v ==> rows'[i] == rows[i];
    if HasAccepted(rows', kind) {
      var i :| 0 <= i < |rows'| && rows'[i].kind == kind && AdvanceAllowed(rows'[i].status);
      assert rows[i].kind == kind && AdvanceAllowed(rows[i].status);
    } else if HasAccepted(rows, kind) {
      var i :| 0 <= i < |rows| && rows[i].kind == kind && AdvanceAllowed(rows[i].status);
      assert i == v;
    }
  }

  lemma StandingOverwritten(c: Config, s: State, a: Action)
    requires Inv(c, s) && Standing(s) && Overwrites(c, s, a)
    ensures Standing(Next(c, s, a)) <==> !LosesRecord(c, s, a)
  {
    OverwriteStep(c, s, a);
    var v := Victim(c, s, a);
    var w := Written(c, s, a).(id := s.rows[v].id);
    forall t: PhaseType
      ensures HasAccepted(Next(c, s, a).rows, t) <==> HasAccepted(s.rows, t) && !(t == w.kind && SoleRecord(s.rows, v))
    {
      AcceptedAfterPut(s.rows, v, w, t);
    }
  }

  lemma StandingOrdinary(c: Config, s: State, a: Action)
    requires Reachable(c, s) && Standing(s) && !Overwrites(c, s, a)
    ensures Standing(Next(c, s, a))
  {
    ReachableInv(c, s);
    OrdinaryStep(c, s, a);
    var s' := Next(c, s, a);
    forall t: PhaseType | 1 <= Position(t) <= Position(s'.change.at) ensures HasAccepted(s'.rows, t) {
      if t == s'.change.at && s'.change.at != s.change.at {
        AdvanceIsEarned(c, s, a);
      } else {
        StandingBefore(c, s, a, t);
        AcceptedKept(s.rows, s'.rows, t);
      }
    }
  }

  lemma StandingBefore(c: Config, s: State, a: Action, t: PhaseType)
    requires Reachable(c, s) && Standing(s) && 1 <= Position(t) <= Position(Next(c, s, a).change.at)
    requires t != Next(c, s, a).change.at || Next(c, s, a).change.at == s.change.at
    ensures HasAccepted(s.rows, t)
  {
    PointerMovesOneStep(c, s, a);
    assert Position(t) == Position(Next(c, s, a).change.at) ==> t == Next(c, s, a).change.at;
  }

  /** Standing at a phase keeps meaning that every phase up to it has an accepted attempt exactly as
      long as no step overwrites the only one. */
  lemma StandingStepIff(c: Config, s: State, a: Action)
    requires Reachable(c, s) && Standing(s)
    ensures Standing(Next(c, s, a)) <==> !LosesRecord(c, s, a)
  {
    ReachableInv(c, s);
    if Overwrites(c, s, a) {
      StandingOverwritten(c, s, a);
    } else {
      StandingOrdinary(c, s, a);
    }
  }

  lemma StandingOneMore(c: Config, run: seq<Action>, trace: seq<State>, k: nat)
    requires IsTrace(c, run, trace) && trace[0] == INITIAL && k < |run| && Standing(trace[k])
    ensures Standing(trace[k + 1]) <==> !LosesRecord(c, trace[k], run[k])
  {
    LeadsTo(c, INITIAL);
    TraceReachable(c, run, trace, k);
    TraceStep(c, run, trace, k);
    StandingStepIff(c, trace[k], run[k]);
  }

  lemma {:induction false} StandsIfNoneLost(c: Config, run: seq<Action>, trace: seq<State>, n: nat)
    requires IsTrace(c, run, trace) && trace[0] == INITIAL && n <= |run|
    requires forall k :: 0 <= k < n ==> !LosesRecord(c, trace[k], run[k])
    ensures Standing(trace[n])
  {
    if n > 0 {
      StandsIfNoneLost(c, run, trace, n - 1);
      StandingOneMore(c, run, trace, n - 1);
    }
  }

  /** Exactly the runs that keep the guarantee all along: those in which no step overwrites the only
      accepted attempt of a phase already passed. */
  lemma StandingThroughoutIff(c: Config, run: seq<Action>, trace: seq<State>)
    requires IsTrace(c, run, trace) && trace[0] == INITIAL
    ensures (forall k :: 0 <= k < |trace| ==> Standing(trace[k])) <==> (forall k :: 0 <= k < |run| ==> !LosesRecord(c, trace[k], run[k]))
  {
    if forall k :: 0 <= k < |run| ==> !LosesRecord(c, trace[k], run[k]) {
      forall k | 0 <= k < |trace| ensures Standing(trace[k]) {
        StandsIfNoneLost(c, run, trace, k);
      }
    } else {
      var k :| 0 <= k < |run| && LosesRecord(c, trace[k], run[k]);
      if Standing(trace[k]) {
        StandingOneMore(c, run, trace, k);
      }
    }
  }

  // --- a verified completion ---

  /** The step overwrites the latest verify attempt of a completed change. */
  predicate LosesVerify(c: Config, s: State, a: Action) {
    Overwrites(c, s, a) && Author(c, s, a).kind == Verify && Author(c, s, a).attempts + 1 == Latest(s.rows, Verify)
  }

  lemma WrittenIsSound(c: Config, s: State, a: Action)
    requires Inv(c, s) && Overwrites(c, s, a) && SoundRow(c, Author(c, s, a))
    ensures SoundRow(c, Written(c, s, a)) && !LiveOther(Written(c, s, a))
  {
    if a.Resume? {
      ReopenedIsSound(c, s.rows[a.at]);
      ReopenedIsApply(c, s, a.at);
    } else {
      FailedIsSound(c, Author(c, s, a));
    }
  }

  lemma WrittenReplaces(c: Config, s: State, a: Action)
    requires Inv(c, s) && Overwrites(c, s, a)
    ensures var v := Victim(c, s, a); v < |s.rows| && Replaces(c, s.rows[v], Written(c, s, a).(id := s.rows[v].id))
  {
    var i := AuthorStored(c, s, a);
    OverwriteSaves(c, s, a);
    WrittenIsSound(c, s, a);
  }

  lemma LatestVerifyWritten(c: Config, s: State, a: Action)
    requires Inv(c, s) && LosesVerify(c, s, a)
    ensures !DoneAtThreshold(Next(c, s, a).rows, Verify)
  {
    OverwriteStep(c, s, a);
    WrittenReplaces(c, s, a);
    var v, w := Victim(c, s, a), Written(c, s, a);
    PutKeeps(c, s.rows, v, w.(id := s.rows[v].id));
    FindsKey(Next(c, s, a).rows, v, Verify, Latest(s.rows, Verify));
  }

  lemma VerifyElsewhere(c: Config, s: State, a: Action)
    requires Inv(c, s) && Overwrites(c, s, a) && !LosesVerify(c, s, a) && DoneAtThreshold(s.rows, Verify)
    ensures DoneAtThreshold(Next(c, s, a).rows, Verify)
  {
    OverwriteStep(c, s, a);
    WrittenReplaces(c, s, a);
    var v, w := Victim(c, s, a), Written(c, s, a);
    DoneElsewhere(c, s.rows, v, w.(id := s.rows[v].id), Verify);
  }

  lemma DoneKept(a: seq<Row>, b: seq<Row>, kind: PhaseType)
    requires Unique(b) && Extends(a, b) && DoneAtThreshold(a, kind) && Latest(b, kind) == Latest(a, kind)
    ensures DoneAtThreshold(b, kind)
  {
    var k := LatestIndex(a, kind);
    assert Continues(a[k], b[k]);
    FindsKey(b, k, kind, Latest(b, kind));
  }

  /** Only Run adds an attempt, and only of its own type. */
  lemma LatestUnlessRun(c: Config, s: State, a: Action, kind: PhaseType)
    requires Inv(c, s) && !Overwrites(c, s, a) && !(a.Run? && a.kind == kind)
    ensures Latest(Next(c, s, a).rows, kind) == Latest(s.rows, kind)
  {
    OrdinaryStep(c, s, a);
    if a.Run? {
      if AfterRun(s, a.kind, a.budget, a.id) != s {
        RunSaves(c, s, a.kind, a.budget, a.id);
        LatestAppended(s.rows, Started(NewRow(s.rows, a.kind, a.budget, a.id)), kind);
      }
    } else {
      OnlyRunInserts(c, s, a);
      SameLatestTo(s.rows, Next(c, s, a).rows, |s.rows|, kind);
    }
  }

  lemma OnlyRunInserts(c: Config, s: State, a: Action)
    requires Inv(c, s) && !a.Run?
    ensures |Next(c, s, a).rows| == |s.rows|
  {
  }

  /** A completed change stays verified over a step exactly if the step does not start the attempt
      before the latest verify once more. */
  lemma VerifiedStepIff(c: Config, s: State, a: Action)
    requires Reachable(c, s) && s.change.at == Archive && DoneAtThreshold(s.rows, Verify)
    ensures DoneAtThreshold(Next(c, s, a).rows, Verify) <==> !LosesVerify(c, s, a)
  {
    ReachableInv(c, s);
    if LosesVerify(c, s, a) {
      LatestVerifyWritten(c, s, a);
    } else if Overwrites(c, s, a) {
      VerifyElsewhere(c, s, a);
    } else {
      VerifyUntouched(c, s, a);
    }
  }

  lemma VerifyUntouched(c: Config, s: State, a: Action)
    requires Inv(c, s) && s.change.at == Archive && DoneAtThreshold(s.rows, Verify) && !Overwrites(c, s, a)
    ensures DoneAtThreshold(Next(c, s, a).rows, Verify)
  {
    if !(a.Run? && a.kind == Verify) {
      StepKeeps(c, s, a);
      OrdinaryStep(c, s, a);
      LatestUnlessRun(c, s, a, Verify);
      DoneKept(s.rows, Next(c, s, a).rows, Verify);
    }
  }

  /** A needs-context attempt with budget left stands right before the latest verify attempt. */
  predicate VerifyExposed(rows: seq<Row>) {
    exists i :: 0 <= i < |rows| && rows[i].kind == Verify && rows[i].status == NeedsContext
                && rows[i].attempts + 1 == Latest(rows, Verify) && rows[i].attempts < rows[i].budget
  }

  lemma LosingExposes(c: Config, s: State, a: Action)
    requires Inv(c, s) && s.change.at == Archive && LosesVerify(c, s, a)
    ensures VerifyExposed(s.rows)
  {
    var i := AuthorStored(c, s, a);
    if a.Resume? || a.Reject? {
      assert !LiveOther(s.rows[a.at]);
      assert s.rows[a.at].kind == Verify;
    } else {
      var k := FindKey(s.rows, s.work.row.kind, s.work.row.attempts);
      assert s.rows[k].kind == Verify && s.rows[k].status == NeedsContext;
    }
  }

  lemma ExposedBeforeWrite(rows: seq<Row>, v: nat, w: Row)
    requires v < |rows| && Keyed(w, rows[v].kind, rows[v].attempts) && w.status != NeedsContext && VerifyExposed(rows[v := w])
    ensures VerifyExposed(rows)
  {
    var rows' := rows[v := w];
    var i :| 0 <= i < |rows'| && rows'[i].kind == Verify && rows'[i].status == NeedsContext
             && rows'[i].attempts + 1 == Latest(rows', Verify) && rows'[i].attempts < rows'[i].budget;
    PutSameLatest(rows, v, w, Verify);
    assert i != v && rows'[i] == rows[i];
  }

  lemma ExposedBeforeOrdinary(c: Config, s: State, rows': seq<Row>)
    requires Inv(c, s) && s.change.at == Archive && Extends(s.rows, rows') && Latest(rows', Verify) == Latest(s.rows, Verify)
    requires forall i :: |s.rows| <= i < |rows'| ==> rows'[i].kind != Verify
    requires VerifyExposed(rows')
    ensures VerifyExposed(s.rows)
  {
    var i :| 0 <= i < |rows'| && rows'[i].kind == Verify && rows'[i].status == NeedsContext
             && rows'[i].attempts + 1 == Latest(rows', Verify) && rows'[i].attempts < rows'[i].budget;
    assert i < |s.rows| && Continues(s.rows[i], rows'[i]);
    assert !LiveOther(s.rows[i]);
  }

  lemma ExposedBefore(c: Config, s: State, a: Action)
    requires Inv(c, s) && s.change.at == Archive && VerifyExposed(Next(c, s, a).rows)
    ensures VerifyExposed(s.rows)
  {
    if Overwrites(c, s, a) {
      OverwriteStep(c, s, a);
      var j := AuthorStored(c, s, a);
      WrittenIsLost(c, s, a);
      var v := Victim(c, s, a);
      ExposedBeforeWrite(s.rows, v, Written(c, s, a).(id := s.rows[v].id));
    } else if !(a.Run? && a.kind == Verify) {
      LatestUnlessRun(c, s, a, Verify);
      OrdinaryStep(c, s, a);
      NoNewVerify(c, s, a);
      ExposedBeforeOrdinary(c, s, Next(c, s, a).rows);
    }
  }

  lemma NoNewVerify(c: Config, s: State, a: Action)
    requires Inv(c, s) && !(a.Run? && a.kind == Verify)
    ensures forall i :: |s.rows| <= i < |Next(c, s, a).rows| ==> Next(c, s, a).rows[i].kind != Verify
  {
    if a.Run? {
      if AfterRun(s, a.kind, a.budget, a.id) != s {
        RunSaves(c, s, a.kind, a.budget, a.id);
      }
    } else {
      OnlyRunInserts(c, s, a);
    }
  }

  ghost predicate SafelyVerified(c: Config, s: State) {
    s.change.at == Archive && DoneAtThreshold(s.rows, Verify) && !VerifyExposed(s.rows)
  }

  lemma SafelyVerifiedStep(c: Config, s: State, a: Action)
    requires Reachable(c, s) && SafelyVerified(c, s)
    ensures SafelyVerified(c, Next(c, s, a))
  {
    ReachableInv(c, s);
    PointerMovesOneStep(c, s, a);
    assert Position(Next(c, s, a).change.at) == 8;
    if LosesVerify(c, s, a) {
      LosingExposes(c, s, a);
    }
    VerifiedStepIff(c, s, a);
    if VerifyExposed(Next(c, s, a).rows) {
      ExposedBefore(c, s, a);
    }
  }

  lemma {:induction false} SafelyVerifiedStays(c: Config, s: State, run: seq<Action>, k: nat)
    requires Reachable(c, s) && SafelyVerified(c, s) && k <= |run|
    ensures Reachable(c, StateAt(c, s, run, k)) && SafelyVerified(c, StateAt(c, s, run, k))
  {
    if k > 0 {
      SafelyVerifiedStays(c, s, run, k - 1);
      var before := StateAt(c, s, run, k - 1);
      LeadsFurther(c, INITIAL, before, run[k - 1]);
      SafelyVerifiedStep(c, before, run[k - 1]);
    }
  }

  /** The state when a needs-context attempt has just been resumed. */
  function ResumedAt(s: State, i: nat): State
    requires i < |s.rows|
  {
    s.(work := Busy(s.change, s.rows[i], Fresh))
  }

  lemma CrashThenResume(c: Config, s: State, i: nat)
    requires Inv(c, s) && i < |s.rows| && s.rows[i].status == NeedsContext
    ensures Leads(c, s, ResumedAt(s, i)) && Inv(c, ResumedAt(s, i))
  {
    var s1 := s.(work := Idle);
    QuietKeeps(c, s);
    ResumeKeeps(c, s1, i);
    LeadsByCrash(c, s);
    assert AfterResume(s1, i) == ResumedAt(s, i);
    LeadsBy(c, s, s1, Resume(i), ResumedAt(s, i));
  }

  /** Whatever is in progress dies, an older needs-context attempt is resumed and fails. */
  lemma CrashResumeFail(c: Config, s: State, i: nat)
    requires Inv(c, s) && i < |s.rows| && s.rows[i].status == NeedsContext && Older(s.rows, s.rows[i])
    ensures var s2 := ResumedAt(s, i);
            && Inv(c, s2) && Overwrites(c, s2, Fail) && Author(c, s2, Fail) == s.rows[i]
            && Leads(c, s, Next(c, s2, Fail))
  {
    CrashThenResume(c, s, i);
    LeadsFurther(c, s, ResumedAt(s, i), Fail);
  }

  /** The run that breaks it. */
  lemma ExposedIsLost(c: Config, s: State) returns (t: State)
    requires Reachable(c, s) && s.change.at == Archive && VerifyExposed(s.rows)
    ensures Leads(c, s, t) && t.change == s.change && !DoneAtThreshold(t.rows, Verify)
  {
    ReachableInv(c, s);
    var i :| 0 <= i < |s.rows| && s.rows[i].kind == Verify && s.rows[i].status == NeedsContext
             && s.rows[i].attempts + 1 == Latest(s.rows, Verify) && s.rows[i].attempts < s.rows[i].budget;
    CrashResumeFail(c, s, i);
    LatestVerifyWritten(c, ResumedAt(s, i), Fail);
    OverwriteStep(c, ResumedAt(s, i), Fail);
    t := Next(c, ResumedAt(s, i), Fail);
  }

  /** A completed change stays verified on every continuation exactly if no needs-context attempt with
      budget left stands right before its latest verify attempt. */
  lemma VerifiedForeverIff(c: Config, s: State)
    requires Reachable(c, s) && s.change.at == Archive && DoneAtThreshold(s.rows, Verify)
    ensures (forall t :: Leads(c, s, t) ==> DoneAtThreshold(t.rows, Verify)) <==> !VerifyExposed(s.rows)
  {
    if VerifyExposed(s.rows) {
      var t := ExposedIsLost(c, s);
    } else {
      forall t | Leads(c, s, t) ensures DoneAtThreshold(t.rows, Verify) {
        var run :| t == After(c, s, run);
        SafelyVerifiedStays(c, s, run, |run|);
      }
    }
  }
}

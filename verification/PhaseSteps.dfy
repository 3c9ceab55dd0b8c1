// What each call on a phase leaves in the table, spelled out row by row.
module PhaseSteps {
  import opened PhaseDomain
  import opened PhaseTable
  import opened PhaseLifecycle
  import opened PhaseRecords
  import opened PhaseRevival

  // --- Run ---

  function BudgetOf(budget: int): int { if budget <= 0 then 3 else budget }

  predicate Free(rows: seq<Row>) {
    forall i :: 0 <= i < |rows| ==> rows[i].status != Running && rows[i].status != Interrupted
  }

  /** The phase is the current one or the next, and its attempts so far are below the budget. */
  predicate MayRun(s: State, kind: PhaseType, budget: int) {
    && s.work.Idle? && Free(s.rows) && Latest(s.rows, kind) < BudgetOf(budget)
    && (kind == s.change.at || Position(kind) == Position(s.change.at) + 1)
  }

  lemma RunIfMay(c: Config, s: State, kind: PhaseType, budget: int, id: nat)
    requires Inv(c, s) && !HasId(s.rows, id) && MayRun(s, kind, budget)
    ensures Next(c, s, Run(kind, budget, id)) != s
  {
    NextIsSuccessor(s.change.at, kind);
    PriorIsLatest(c, s.rows, kind);
    AppendKeeps(c, s.rows, Started(NewRow(s.rows, kind, budget, id)));
  }

  lemma MayIfRun(c: Config, s: State, kind: PhaseType, budget: int, id: nat)
    requires Inv(c, s) && Next(c, s, Run(kind, budget, id)) != s
    ensures MayRun(s, kind, budget)
  {
    NextIsSuccessor(s.change.at, kind);
    PriorIsLatest(c, s.rows, kind);
  }

  /** Run is accepted exactly if nothing is in progress, no phase of the change is running or interrupted,
      the phase is the current one or the next, and its attempts so far are below the budget. It then adds
      one running row, the next attempt, and works on it with the change as stored. */
  lemma RunAcceptedIff(c: Config, s: State, kind: PhaseType, budget: int, id: nat)
    requires Reachable(c, s) && !HasId(s.rows, id)
    ensures var s', r := Next(c, s, Run(kind, budget, id)), Row(id, kind, Running, 0.0, BudgetOf(budget), Latest(s.rows, kind) + 1);
            && (s' != s <==> MayRun(s, kind, budget))
            && (s' != s ==> s' == s.(rows := s.rows + [r], work := Busy(s.change, r, Fresh)))
  {
    ReachableInv(c, s);
    if MayRun(s, kind, budget) {
      RunIfMay(c, s, kind, budget, id);
    }
    if Next(c, s, Run(kind, budget, id)) != s {
      MayIfRun(c, s, kind, budget, id);
      RunSaves(c, s, kind, budget, id);
    }
  }

  // --- starting an attempt once more ---

  /** There is a following attempt, and budget for this one to be started once more under its number. */
  predicate HasFollower(rows: seq<Row>, r: Row) {
    r.attempts < r.budget && r.attempts < Latest(rows, r.kind)
  }

  /** The index of the following attempt. */
  function Follower(rows: seq<Row>, r: Row): nat {
    FindKey(rows, r.kind, r.attempts + 1)
  }

  /** The record of the following attempt once r has been written over it; it keeps its id. */
  function WrittenOver(rows: seq<Row>, r: Row, status: PhaseStatus, confidence: real): seq<Row> {
    var j := Follower(rows, r);
    if j < |rows| then rows[j := Row(rows[j].id, r.kind, status, confidence, r.budget, r.attempts + 1)] else rows
  }

  /** The attempt as it is when started once more; a blocked apply starts without its confidence. */
  function Again(r: Row): Row {
    Row(r.id, r.kind, Running, if r.status == Blocked then 0.0 else r.confidence, r.budget, r.attempts + 1)
  }

  lemma ReopenedIsAgain(r: Row)
    ensures Reopens(r) <==> (r.status == Interrupted || (r.status == Blocked && r.kind == Apply)) && r.attempts < r.budget
    ensures Reopens(r) ==> Reopened(r) == Again(r)
  {
  }

  lemma ResumeReopens(c: Config, s: State, at: nat)
    requires Inv(c, s) && s.work.Idle? && at < |s.rows| && Reopens(s.rows[at]) && HasFollower(s.rows, s.rows[at])
    ensures var r := s.rows[at];
            AfterResume(s, at) == s.(rows := WrittenOver(s.rows, r, Running, Again(r).confidence), work := Busy(s.change, Again(r), Fresh))
  {
    ReopenedIsAgain(s.rows[at]);
    ReopenStep(c, s, at);
  }

  lemma ResumeDropped(c: Config, s: State, at: nat)
    requires Inv(c, s) && s.work.Idle? && at < |s.rows| && Reopens(s.rows[at]) && !HasFollower(s.rows, s.rows[at])
    ensures AfterResume(s, at) == s
  {
    ReopenedIsAgain(s.rows[at]);
    ReopenSaves(c, s, at);
    assert s.rows[at].attempts <= Latest(s.rows, s.rows[at].kind);
  }

  /** Resume, for every status a row can have: a running or needs-context attempt goes on as it is; an
      interrupted one and a blocked apply are started once more, which overwrites the following attempt if
      there is one and does nothing otherwise; all others are left alone. */
  lemma ResumeStores(c: Config, s: State, at: nat)
    requires Reachable(c, s) && s.work.Idle? && at < |s.rows|
    ensures var s', r := Next(c, s, Resume(at)), s.rows[at];
            s' ==
              if r.status == Running || r.status == NeedsContext then s.(work := Busy(s.change, r, Fresh))
              else if (r.status == Interrupted || (r.status == Blocked && r.kind == Apply)) && HasFollower(s.rows, r)
              then s.(rows := WrittenOver(s.rows, r, Running, Again(r).confidence), work := Busy(s.change, Again(r), Fresh))
              else s
  {
    ReachableInv(c, s);
    ReopenedIsAgain(s.rows[at]);
    if Reopens(s.rows[at]) {
      if HasFollower(s.rows, s.rows[at]) {
        ResumeReopens(c, s, at);
      } else {
        ResumeDropped(c, s, at);
      }
    }
  }

  lemma FailedAgain(rows: seq<Row>, r: Row)
    requires r.status == NeedsContext || r.status == Interrupted
    ensures var j := Follower(rows, r);
            j < |rows| ==> rows[j := FailedAttempt(r).(id := rows[j].id)] == WrittenOver(rows, r, Blocked, 0.0)
  {
  }

  lemma FailureWrites(c: Config, s: State, a: Action)
    requires Inv(c, s) && Overwrites(c, s, a) && !a.Resume?
    ensures var r := Author(c, s, a); var j := Follower(s.rows, r);
            && HasFollower(s.rows, r) && j < |s.rows|
            && Next(c, s, a).rows == s.rows[j := FailedAttempt(r).(id := s.rows[j].id)]
  {
    AuthorIsOlder(c, s, a);
    OverwriteStep(c, s, a);
  }

  lemma OverwriteByFailure(c: Config, s: State, a: Action)
    requires Inv(c, s) && Overwrites(c, s, a) && !a.Resume?
    requires Author(c, s, a).status == NeedsContext || Author(c, s, a).status == Interrupted
    ensures HasFollower(s.rows, Author(c, s, a))
    ensures Next(c, s, a).rows == WrittenOver(s.rows, Author(c, s, a), Blocked, 0.0)
  {
    FailureWrites(c, s, a);
    FailedAgain(s.rows, Author(c, s, a));
  }

  /** Reject, for every status: a running attempt becomes blocked without confidence; a needs-context or
      interrupted one is started once more and blocked, which lands on the following attempt if there is
      one and does nothing otherwise; a finished one is left alone. */
  lemma RejectStores(c: Config, s: State, at: nat)
    requires Reachable(c, s) && s.work.Idle? && at < |s.rows|
    ensures var s', r := Next(c, s, Reject(at)), s.rows[at];
            && s'.change == s.change && s'.work == s.work && s'.archived == s.archived
            && s'.rows ==
               if r.status == Running then s.rows[at := r.(status := Blocked, confidence := 0.0)]
               else if (r.status == NeedsContext || r.status == Interrupted) && HasFollower(s.rows, r)
               then WrittenOver(s.rows, r, Blocked, 0.0)
               else s.rows
  {
    ReachableInv(c, s);
    assert SoundRow(c, s.rows[at]);
    if s.rows[at].status == Running {
      RejectRunning(c, s, at);
    } else if Overwrites(c, s, Reject(at)) {
      OverwriteByFailure(c, s, Reject(at));
    } else if !Older(s.rows, s.rows[at]) {
      RejectRefused(c, s, at);
    }
  }

  /** A failure of the work in progress, the same way: a running attempt becomes blocked, a resumed
      needs-context one lands on the following attempt if there is one; the work ends. */
  lemma FailStoresAll(c: Config, s: State)
    requires Reachable(c, s) && s.work.Busy? && s.work.stage != Accepted
    ensures var s', r := Next(c, s, Fail), s.work.row;
            var k := FindKey(s.rows, r.kind, r.attempts);
            && k < |s.rows| && s'.change == s.change && s'.work.Idle? && s'.archived == s.archived
            && s'.rows ==
               if r.status == Running then s.rows[k := s.rows[k].(status := Blocked, confidence := 0.0)]
               else if HasFollower(s.rows, r) then WrittenOver(s.rows, r, Blocked, 0.0)
               else s.rows
  {
    ReachableInv(c, s);
    FailEndsWork(c, s);
    FailChangesRows(s);
    if s.work.row.status == Running {
      FailStores(c, s);
    } else if HasFollower(s.rows, s.work.row) {
      OverwriteByFailure(c, s, Fail);
    } else {
      FailDropped(c, s);
    }
  }

  lemma FailDropped(c: Config, s: State)
    requires Inv(c, s) && s.work.Busy? && s.work.row.status == NeedsContext && !HasFollower(s.rows, s.work.row)
    ensures AfterFail(s).rows == s.rows
  {
    var r := s.work.row;
    var k := FindKey(s.rows, r.kind, r.attempts);
    if CanFail(r) {
      assert s.rows[k].attempts <= Latest(s.rows, r.kind);
      SaveUnderNextNumber(s.rows, k, FailedAttempt(r));
    }
  }
}

// When an interrupted phase stays interrupted. Its own resume is refused, but an earlier attempt of
// the same type may be started once more and land on it.
module PhaseRevival {
  import opened PhaseDomain
  import opened PhaseTable
  import opened PhaseLifecycle
  import opened PhaseRecords

  /** Attempt i can be started over and over until it lands on row `at`: an apply attempt that was not
      accepted, or the needs-context attempt right before, with budget up to `at`. */
  predicate Reviver(rows: seq<Row>, at: nat, i: nat)
    requires at < |rows| && i < |rows|
  {
    && rows[i].kind == rows[at].kind && rows[i].attempts < rows[at].attempts <= rows[i].budget
    && (if rows[at].kind == Apply then !AdvanceAllowed(rows[i].status)
        else rows[i].status == NeedsContext && rows[i].attempts + 1 == rows[at].attempts)
  }

  predicate CanRevive(rows: seq<Row>, at: nat)
    requires at < |rows|
  {
    exists i :: 0 <= i < |rows| && Reviver(rows, at, i)
  }

  // --- without a reviver it stays ---

  lemma AuthorIsReviver(c: Config, s: State, a: Action, at: nat, i: nat)
    requires Inv(c, s) && at < |s.rows| && Overwrites(c, s, a)
    requires i < |s.rows| && s.rows[i].kind == s.rows[at].kind && s.rows[i].attempts < s.rows[at].attempts <= s.rows[i].budget
    requires s.rows[i] == Author(c, s, a).(id := s.rows[i].id)
    requires s.rows[at].kind == Apply || s.rows[i].attempts + 1 == s.rows[at].attempts
    ensures Reviver(s.rows, at, i)
  {
    if s.rows[at].kind != Apply {
      AuthorIsOlder(c, s, a);
      assert !LiveOther(s.rows[i]);
    }
  }

  lemma AuthorAt(c: Config, s: State, a: Action) returns (i: nat)
    requires Inv(c, s) && Overwrites(c, s, a)
    ensures i < |s.rows| && s.rows[i] == Author(c, s, a).(id := s.rows[i].id)
  {
    i := if a.Resume? || a.Reject? then a.at else FindKey(s.rows, s.work.row.kind, s.work.row.attempts);
  }

  lemma OverwriteSpares(c: Config, s: State, a: Action, at: nat)
    requires Inv(c, s) && at < |s.rows| && !CanRevive(s.rows, at) && Overwrites(c, s, a)
    ensures Victim(c, s, a) != at
    ensures Author(c, s, a).kind == s.rows[at].kind == Apply ==>
              !(Author(c, s, a).attempts < s.rows[at].attempts <= Author(c, s, a).budget)
  {
    var i := AuthorAt(c, s, a);
    OverwriteStep(c, s, a);
    AuthorIsOlder(c, s, a);
    WrittenKey(c, s, a);
    if s.rows[i].kind == s.rows[at].kind && s.rows[i].attempts < s.rows[at].attempts <= s.rows[i].budget
       && (s.rows[at].kind == Apply || s.rows[i].attempts + 1 == s.rows[at].attempts) {
      AuthorIsReviver(c, s, a, at, i);
    }
  }

  lemma WriteGivesNoReviver(rows: seq<Row>, at: nat, v: nat, w: Row)
    requires at < |rows| && v < |rows| && v != at && !CanRevive(rows, at)
    requires w.status != NeedsContext
    requires w.kind == rows[at].kind == Apply ==> !(w.attempts < rows[at].attempts <= w.budget)
    ensures !CanRevive(rows[v := w], at)
  {
    var rows' := rows[v := w];
    forall j | 0 <= j < |rows'| ensures !Reviver(rows', at, j) {
      assert !Reviver(rows, at, j);
    }
  }

  lemma OverwriteKeepsOthers(c: Config, s: State, a: Action, at: nat)
    requires Inv(c, s) && at < |s.rows| && !CanRevive(s.rows, at) && Overwrites(c, s, a)
    ensures var rows' := Next(c, s, a).rows; at < |rows'| && rows'[at] == s.rows[at] && !CanRevive(rows', at)
  {
    OverwriteSpares(c, s, a, at);
    OverwriteStep(c, s, a);
    var j := AuthorStored(c, s, a);
    WrittenIsLost(c, s, a);
    var v := Victim(c, s, a);
    WriteGivesNoReviver(s.rows, at, v, Written(c, s, a).(id := s.rows[v].id));
  }

  /** A running row of a type other than apply is the latest attempt, and so comes before no other. */
  lemma RunningIsNoReviver(c: Config, rows: seq<Row>, at: nat, j: nat)
    requires TableInv(c, rows) && at < |rows| && j < |rows| && rows[j].status == Running
    requires rows[j].kind == rows[at].kind != Apply
    ensures rows[at].attempts <= rows[j].attempts
  {
    assert LiveOther(rows[j]);
  }

  lemma ExtensionGivesNoReviver(c: Config, rows: seq<Row>, rows': seq<Row>, at: nat)
    requires TableInv(c, rows) && Extends(rows, rows') && at < |rows| && rows[at].status != Running && !CanRevive(rows, at)
    requires forall j :: |rows| <= j < |rows'| && rows'[j].kind == rows[at].kind ==> rows[at].attempts < rows'[j].attempts
    ensures rows'[at] == rows[at] && !CanRevive(rows', at)
  {
    assert Continues(rows[at], rows'[at]);
    forall j | 0 <= j < |rows'| ensures !Reviver(rows', at, j) {
      if j < |rows| {
        assert Continues(rows[j], rows'[j]) && !Reviver(rows, at, j);
        if rows[j].status == Running && rows[j].kind == rows[at].kind != Apply {
          RunningIsNoReviver(c, rows, at, j);
        }
      }
    }
  }

  lemma NewRowsAreLater(c: Config, s: State, a: Action, at: nat)
    requires Inv(c, s) && at < |s.rows|
    ensures var rows' := Next(c, s, a).rows;
            forall j :: |s.rows| <= j < |rows'| && rows'[j].kind == s.rows[at].kind ==> s.rows[at].attempts < rows'[j].attempts
  {
    if !a.Run? {
      OnlyRunInserts(c, s, a);
    } else if Next(c, s, a) != s {
      RunSaves(c, s, a.kind, a.budget, a.id);
    }
  }

  lemma RecordStep(c: Config, s: State, a: Action, at: nat)
    requires Inv(c, s) && at < |s.rows| && s.rows[at].status != Running && !CanRevive(s.rows, at)
    ensures var rows' := Next(c, s, a).rows; at < |rows'| && rows'[at] == s.rows[at] && !CanRevive(rows', at)
  {
    if Overwrites(c, s, a) {
      OverwriteKeepsOthers(c, s, a, at);
    } else {
      OrdinaryStep(c, s, a);
      NewRowsAreLater(c, s, a, at);
      ExtensionGivesNoReviver(c, s.rows, Next(c, s, a).rows, at);
    }
  }

  lemma {:induction false} RecordStays(c: Config, s: State, run: seq<Action>, k: nat, at: nat)
    requires Inv(c, s) && k <= |run| && at < |s.rows| && s.rows[at].status != Running && !CanRevive(s.rows, at)
    ensures var s' := StateAt(c, s, run, k);
            Inv(c, s') && at < |s'.rows| && s'.rows[at] == s.rows[at] && !CanRevive(s'.rows, at)
  {
    if k > 0 {
      RecordStays(c, s, run, k - 1, at);
      var before := StateAt(c, s, run, k - 1);
      StepKeeps(c, before, run[k - 1]);
      RecordStep(c, before, run[k - 1], at);
    }
  }

  // --- with one it does not ---

  /** The row that follows attempt i, once i has been started once more and has failed. */
  function PushedRow(rows: seq<Row>, i: nat, j: nat): Row
    requires i < |rows| && j < |rows|
  {
    Row(rows[j].id, rows[i].kind, Blocked, 0.0, rows[i].budget, rows[i].attempts + 1)
  }

  predicate Pushable(rows: seq<Row>, i: nat) {
    && i < |rows| && Older(rows, rows[i])
    && (rows[i].status == NeedsContext || (rows[i].kind == Apply && (rows[i].status == Blocked || rows[i].status == Interrupted)))
  }

  lemma PushedByFailure(rows: seq<Row>, i: nat, j: nat)
    requires Pushable(rows, i) && j < |rows|
    ensures rows[i].status == NeedsContext ==> FailedAttempt(rows[i]).(id := rows[j].id) == PushedRow(rows, i, j)
    ensures rows[i].status != NeedsContext ==> Failed(Reopened(rows[i])).(id := rows[j].id) == PushedRow(rows, i, j)
  {
  }

  /** The table after attempt i has been started once more and has failed. */
  function Pushed(rows: seq<Row>, i: nat): seq<Row>
    requires i < |rows|
  {
    var j := FindKey(rows, rows[i].kind, rows[i].attempts + 1);
    if j < |rows| then rows[j := PushedRow(rows, i, j)] else rows
  }

  lemma FailAfterResume(c: Config, s: State, i: nat)
    requires Pushable(s.rows, i) && s.rows[i].status == NeedsContext && Inv(c, ResumedAt(s, i))
    ensures var t := s.(rows := Pushed(s.rows, i), work := Idle); Next(c, ResumedAt(s, i), Fail) == t && Inv(c, t)
    ensures FindKey(s.rows, s.rows[i].kind, s.rows[i].attempts + 1) < |s.rows|
  {
    var s2 := ResumedAt(s, i);
    assert Overwrites(c, s2, Fail) && Author(c, s2, Fail) == s.rows[i];
    OverwriteStep(c, s2, Fail);
    PushedByFailure(s.rows, i, Victim(c, s2, Fail));
    FailKeeps(c, s2);
    FailEndsWork(c, s2);
    FailChangesRows(s2);
  }

  lemma FailChangesRows(s: State)
    requires s.work.Busy?
    ensures AfterFail(s) == s.(rows := AfterFail(s).rows, work := AfterFail(s).work)
  {
  }

  lemma PushNeedsContext(c: Config, s: State, i: nat)
    requires Inv(c, s) && Pushable(s.rows, i) && s.rows[i].status == NeedsContext
    ensures var t := s.(rows := Pushed(s.rows, i), work := Idle); Leads(c, s, t) && Inv(c, t)
    ensures FindKey(s.rows, s.rows[i].kind, s.rows[i].attempts + 1) < |s.rows|
  {
    CrashThenResume(c, s, i);
    FailAfterResume(c, s, i);
    LeadsBy(c, s, ResumedAt(s, i), Fail, s.(rows := Pushed(s.rows, i), work := Idle));
  }

  lemma FailReopened(c: Config, s: State, r: Row)
    requires Inv(c, s) && s.work.Busy? && s.work.row == r && s.work.stage == Fresh && r.status == Running
    ensures var k := FindKey(s.rows, r.kind, r.attempts);
            && k < |s.rows| && Next(c, s, Fail) == s.(rows := s.rows[k := Failed(r).(id := s.rows[k].id)], work := Idle)
            && Inv(c, Next(c, s, Fail))
  {
    assert SoundRow(c, s.rows[FindKey(s.rows, r.kind, r.attempts)]);
    SettleOwn(c, s, Failed(r));
    StepKeeps(c, s, Fail);
  }

  /** The state when an older attempt has just been reopened in place of the one that followed. */
  function ReopenedAt(s: State, i: nat): State
    requires i < |s.rows|
  {
    var r := Reopened(s.rows[i]);
    var j := FindKey(s.rows, r.kind, r.attempts);
    s.(rows := if j < |s.rows| then s.rows[j := r.(id := s.rows[j].id)] else s.rows, work := Busy(s.change, r, Fresh))
  }

  lemma ReopenLeads(c: Config, s: State, i: nat)
    requires Inv(c, s) && s.work.Idle? && Pushable(s.rows, i) && s.rows[i].status != NeedsContext
    ensures AfterResume(s, i) == ReopenedAt(s, i) && Inv(c, ReopenedAt(s, i))
    ensures FindKey(s.rows, s.rows[i].kind, s.rows[i].attempts + 1) < |s.rows|
  {
    ReopenStep(c, s, i);
    ReopenKeeps(c, s, i);
  }

  lemma CrashThenReopen(c: Config, s: State, i: nat)
    requires Inv(c, s) && Pushable(s.rows, i) && s.rows[i].status != NeedsContext
    ensures Leads(c, s, ReopenedAt(s, i)) && Inv(c, ReopenedAt(s, i))
    ensures FindKey(s.rows, s.rows[i].kind, s.rows[i].attempts + 1) < |s.rows|
  {
    var s1 := s.(work := Idle);
    QuietKeeps(c, s);
    ReopenLeads(c, s1, i);
    LeadsByCrash(c, s);
    LeadsBy(c, s, s1, Resume(i), ReopenedAt(s, i));
  }

  lemma FailAfterReopen(c: Config, s: State, i: nat)
    requires Pushable(s.rows, i) && s.rows[i].status != NeedsContext && Unique(s.rows) && Inv(c, ReopenedAt(s, i))
    requires FindKey(s.rows, s.rows[i].kind, s.rows[i].attempts + 1) < |s.rows|
    ensures var t := s.(rows := Pushed(s.rows, i), work := Idle); Next(c, ReopenedAt(s, i), Fail) == t && Inv(c, t)
  {
    var r, s2 := Reopened(s.rows[i]), ReopenedAt(s, i);
    var j := FindKey(s.rows, s.rows[i].kind, s.rows[i].attempts + 1);
    FindsKey(s2.rows, j, r.kind, r.attempts);
    FailReopened(c, s2, r);
    PushedByFailure(s.rows, i, j);
    assert s2.rows[j := PushedRow(s.rows, i, j)] == s.rows[j := PushedRow(s.rows, i, j)];
  }

  lemma PushReopened(c: Config, s: State, i: nat)
    requires Inv(c, s) && Pushable(s.rows, i) && s.rows[i].status != NeedsContext
    ensures var t := s.(rows := Pushed(s.rows, i), work := Idle); Leads(c, s, t) && Inv(c, t)
    ensures FindKey(s.rows, s.rows[i].kind, s.rows[i].attempts + 1) < |s.rows|
  {
    CrashThenReopen(c, s, i);
    FailAfterReopen(c, s, i);
    LeadsBy(c, s, ReopenedAt(s, i), Fail, s.(rows := Pushed(s.rows, i), work := Idle));
  }

  /** Start an older attempt once more and let it fail: the following attempt is blocked in its name. */
  lemma Push(c: Config, s: State, i: nat)
    requires Inv(c, s) && Pushable(s.rows, i)
    ensures var t := s.(rows := Pushed(s.rows, i), work := Idle); Leads(c, s, t) && Inv(c, t)
    ensures FindKey(s.rows, s.rows[i].kind, s.rows[i].attempts + 1) < |s.rows|
  {
    if s.rows[i].status == NeedsContext {
      PushNeedsContext(c, s, i);
    } else {
      PushReopened(c, s, i);
    }
  }

  lemma ReviverIsPushable(c: Config, s: State, at: nat, i: nat)
    requires Inv(c, s) && at < |s.rows| && i < |s.rows| && Reviver(s.rows, at, i) && s.rows[i].status != Running
    ensures Pushable(s.rows, i)
  {
    assert SoundRow(c, s.rows[i]);
    assert s.rows[at].attempts <= Latest(s.rows, s.rows[at].kind);
  }

  /** Exactly the attempts of one type after `low` and up to `high` have become blocked. */
  ghost predicate Blocks(rows: seq<Row>, rows': seq<Row>, kind: PhaseType, low: nat, high: nat) {
    |rows'| == |rows| && forall k {:trigger rows'[k]} :: 0 <= k < |rows| ==>
      if rows[k].kind == kind && low < rows[k].attempts <= high
      then Keyed(rows'[k], kind, rows[k].attempts) && rows'[k].status == Blocked
      else rows'[k] == rows[k]
  }

  lemma BlocksOnward(x: seq<Row>, y: seq<Row>, z: seq<Row>, kind: PhaseType, low: nat, mid: nat, high: nat)
    requires low <= mid <= high && Blocks(x, y, kind, low, mid) && Blocks(y, z, kind, mid, high)
    ensures Blocks(x, z, kind, low, high)
  {
    forall k | 0 <= k < |x|
      ensures if x[k].kind == kind && low < x[k].attempts <= high
              then Keyed(z[k], kind, x[k].attempts) && z[k].status == Blocked else z[k] == x[k]
    {
      assert y[k] == y[k];
    }
  }

  lemma PushBlocks(rows: seq<Row>, i: nat, j: nat)
    requires Unique(rows) && i < |rows| && j == FindKey(rows, rows[i].kind, rows[i].attempts + 1) && j < |rows|
    ensures Blocks(rows, Pushed(rows, i), rows[i].kind, rows[i].attempts, rows[i].attempts + 1)
  {
    forall k | 0 <= k < |rows| && Keyed(rows[k], rows[i].kind, rows[i].attempts + 1) ensures k == j {
      FindsKey(rows, k, rows[i].kind, rows[i].attempts + 1);
    }
  }

  /** One push: it lands on row `at`, or on another attempt that can be pushed on towards it. */
  lemma PushOnce(c: Config, s: State, at: nat, i: nat) returns (s1: State, j: nat)
    requires Inv(c, s) && at < |s.rows| && i < |s.rows| && Reviver(s.rows, at, i) && s.rows[i].status != Running
    ensures Leads(c, s, s1) && Inv(c, s1) && s1.work.Idle? && s1.change == s.change
    ensures Blocks(s.rows, s1.rows, s.rows[i].kind, s.rows[i].attempts, s.rows[i].attempts + 1)
    ensures j < |s.rows| && s1.rows[j].status == Blocked && Keyed(s1.rows[j], s.rows[i].kind, s.rows[i].attempts + 1)
    ensures j == at ==> s.rows[at].attempts == s.rows[i].attempts + 1
    ensures j == at || (s1.rows[at] == s.rows[at] && Reviver(s1.rows, at, j) && s1.rows[j].attempts == s.rows[i].attempts + 1)
  {
    ReviverIsPushable(c, s, at, i);
    Push(c, s, i);
    s1 := s.(rows := Pushed(s.rows, i), work := Idle);
    j := FindKey(s.rows, s.rows[i].kind, s.rows[i].attempts + 1);
    PushBlocks(s.rows, i, j);
    if s.rows[i].attempts + 1 == s.rows[at].attempts {
      FindsKey(s.rows, at, s.rows[at].kind, s.rows[at].attempts);
    } else {
      PushedIsReviver(s.rows, at, i, j);
    }
  }

  /** A chain of pushes that ends on row `at`. */
  lemma {:induction false} PushUntil(c: Config, s: State, at: nat, i: nat) returns (t: State)
    requires Inv(c, s) && at < |s.rows| && i < |s.rows| && Reviver(s.rows, at, i) && s.rows[i].status != Running
    ensures Leads(c, s, t) && Inv(c, t) && t.work.Idle? && t.change == s.change
    ensures Blocks(s.rows, t.rows, s.rows[i].kind, s.rows[i].attempts, s.rows[at].attempts)
    decreases s.rows[at].attempts - s.rows[i].attempts
  {
    var s1, j := PushOnce(c, s, at, i);
    if j == at {
      t := s1;
    } else {
      t := PushUntil(c, s1, at, j);
      LeadsOnward(c, s, s1, t);
      BlocksOnward(s.rows, s1.rows, t.rows, s.rows[i].kind, s.rows[i].attempts, s.rows[i].attempts + 1, s.rows[at].attempts);
    }
  }

  lemma PushedIsReviver(rows: seq<Row>, at: nat, i: nat, j: nat)
    requires at < |rows| && i < |rows| && Reviver(rows, at, i) && rows[i].attempts + 1 != rows[at].attempts
    requires j == FindKey(rows, rows[i].kind, rows[i].attempts + 1) && j < |rows|
    ensures Pushed(rows, i)[at] == rows[at] && Reviver(Pushed(rows, i), at, j) && Pushed(rows, i)[j].status == Blocked
    ensures Pushed(rows, i)[j].attempts == rows[i].attempts + 1
  {
    assert j != at;
  }

  lemma ReviverRecovered(rows: seq<Row>, at: nat) returns (i: nat)
    requires at < |rows| && rows[at].status != Running && CanRevive(rows, at)
    ensures i < |rows| && Reviver(Recovered(rows), at, i) && Recovered(rows)[i].status != Running
    ensures Recovered(rows)[at] == rows[at] && forall k :: 0 <= k < |rows| && Live(Recovered(rows)[k]) ==> Live(rows[k])
  {
    i :| 0 <= i < |rows| && Reviver(rows, at, i);
  }

  /** With a reviver, some continuation blocks the row, and brings no other back to life. */
  lemma Revive(c: Config, s: State, at: nat) returns (t: State)
    requires Inv(c, s) && at < |s.rows| && s.rows[at].status != Running && CanRevive(s.rows, at)
    ensures Leads(c, s, t) && Inv(c, t) && t.work.Idle? && |t.rows| == |s.rows| && t.rows[at].status == Blocked
    ensures forall k :: 0 <= k < |s.rows| && Live(t.rows[k]) ==> Live(s.rows[k])
  {
    CrashRecover(c, s);
    var i := ReviverRecovered(s.rows, at);
    t := PushUntil(c, Rebooted(s), at, i);
    LeadsOnward(c, s, Rebooted(s), t);
  }

  /** The record of an attempt that is neither running nor blocked is kept on every continuation exactly
      if the table holds no earlier attempt that can be started until it lands on it. */
  lemma RecordForeverIff(c: Config, s: State, at: nat)
    requires Reachable(c, s) && at < |s.rows| && s.rows[at].status != Running && s.rows[at].status != Blocked
    ensures (forall t :: Leads(c, s, t) ==> at < |t.rows| && t.rows[at] == s.rows[at]) <==> !CanRevive(s.rows, at)
  {
    ReachableInv(c, s);
    if CanRevive(s.rows, at) {
      var t := Revive(c, s, at);
    } else {
      forall t | Leads(c, s, t) ensures at < |t.rows| && t.rows[at] == s.rows[at] {
        var run :| t == After(c, s, run);
        RecordStays(c, s, run, |run|, at);
      }
    }
  }

  /** In particular an interrupted phase stays interrupted on every continuation exactly under that condition. */
  lemma InterruptedForeverIff(c: Config, s: State, at: nat)
    requires Reachable(c, s) && at < |s.rows| && s.rows[at].status == Interrupted
    ensures (forall t :: Leads(c, s, t) ==> at < |t.rows| && t.rows[at].status == Interrupted) <==> !CanRevive(s.rows, at)
  {
    RecordForeverIff(c, s, at);
    ReachableInv(c, s);
    if CanRevive(s.rows, at) {
      var t := Revive(c, s, at);
    }
  }

  // --- when Run is refused ---

  /** No Run, of whatever phase, budget and id, changes anything. */
  ghost predicate RunRefused(c: Config, s: State) {
    forall kind, budget, id :: Next(c, s, Run(kind, budget, id)) == s
  }

  lemma RunGetsIn(c: Config, s: State) returns (kind: PhaseType, budget: int, id: nat)
    requires Inv(c, s) && s.work.Idle? && NoneLive(s.rows)
    ensures Next(c, s, Run(kind, budget, id)) != s
  {
    kind := s.change.at;
    budget := Latest(s.rows, kind) + 1;
    id := NewId(s.rows);
    PriorIsLatest(c, s.rows, kind);
    AppendKeeps(c, s.rows, Started(NewRow(s.rows, kind, budget, id)));
  }

  /** With nothing in progress Run is refused exactly if some phase is running or interrupted. */
  lemma RunRefusedIff(c: Config, s: State)
    requires Inv(c, s) && s.work.Idle?
    ensures RunRefused(c, s) <==> !NoneLive(s.rows)
  {
    if NoneLive(s.rows) {
      var kind, budget, id := RunGetsIn(c, s);
    }
  }

  lemma ReviveLetsRunIn(c: Config, s: State, at: nat) returns (t: State)
    requires Inv(c, s) && at < |s.rows| && s.rows[at].status == Interrupted && CanRevive(s.rows, at)
    requires forall k :: 0 <= k < |s.rows| && k != at ==> !Live(s.rows[k])
    ensures Leads(c, s, t) && at < |t.rows| && t.rows[at].status == Blocked && !RunRefused(c, t)
  {
    t := Revive(c, s, at);
    assert NoneLive(t.rows);
    RunRefusedIff(c, t);
  }

  /** If it is the only phase running or interrupted, then Run is refused on every continuation exactly
      under the same condition. */
  lemma RunRefusedForeverIff(c: Config, s: State, at: nat)
    requires Reachable(c, s) && at < |s.rows| && s.rows[at].status == Interrupted
    requires forall k :: 0 <= k < |s.rows| && k != at ==> !Live(s.rows[k])
    ensures (forall t :: Leads(c, s, t) ==> RunRefused(c, t)) <==> !CanRevive(s.rows, at)
  {
    ReachableInv(c, s);
    if CanRevive(s.rows, at) {
      var t := ReviveLetsRunIn(c, s, at);
    } else {
      forall t | Leads(c, s, t) ensures RunRefused(c, t) {
        var run :| t == After(c, s, run);
        RecordStays(c, s, run, |run|, at);
        assert Live(t.rows[at]);
      }
    }
  }

  /** Resuming the interrupted phase itself changes nothing when it is the latest of its type. */
  lemma InterruptedNotResumed(c: Config, s: State, at: nat)
    requires Reachable(c, s) && at < |s.rows| && s.rows[at].status == Interrupted
    requires s.rows[at].attempts == Latest(s.rows, s.rows[at].kind)
    ensures Next(c, s, Resume(at)) == s
  {
    ReachableInv(c, s);
    ResumeExtends(c, s, at);
    if s.work.Idle? && Reopens(s.rows[at]) {
      ReopenSaves(c, s, at);
    }
  }
}

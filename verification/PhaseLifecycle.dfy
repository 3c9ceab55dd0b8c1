// The phases of one change, step by step: run, pause, check, finish, advance, abort, reject,
// crash, boot recovery and resume. At most one phase is being worked on at a time.
module PhaseLifecycle {
  import opened PhaseDomain
  import opened PhaseTable

  datatype Config = Config(initService: bool, applyExecutor: bool)

  // Fresh: scheduled; Cleared: past the checks; Accepted: saved done, change not yet advanced.
  datatype Stage = Fresh | Cleared | Accepted

  // A phase being worked on. The change is the copy read when the work was scheduled, the row the
  // in-memory phase.
  datatype Work = Idle | Busy(change: ChangeRow, row: Row, stage: Stage)

  datatype State = State(change: ChangeRow, rows: seq<Row>, work: Work, archived: nat)

  // Reject stands for a rejection that passed the approval-gate check.
  datatype Action =
    | Run(kind: PhaseType, budget: int, id: nat)
    | Pause
    | Check
    | Fail
    | Finish(status: EnvelopeStatus, confidence: real, concerns: bool)
    | Advance
    | Resume(at: nat)
    | Reject(at: nat)
    | Abort
    | Crash
    | Recover

  const INITIAL := State(ChangeRow(Active, Init), [], Idle, 0)

  // --- Run ---

  predicate NextAllowed(current: PhaseType, next: PhaseType) {
    current == next || next in NextValid(current)
  }

  predicate NoneLive(rows: seq<Row>) {
    forall i :: 0 <= i < |rows| ==> !Live(rows[i])
  }

  function PriorAttempts(rows: seq<Row>, kind: PhaseType): nat {
    var k := LatestIndex(rows, kind);
    if k < |rows| && (IsTerminal(rows[k].status) || rows[k].status == NeedsContext) then rows[k].attempts else 0
  }

  function NewRow(rows: seq<Row>, kind: PhaseType, budget: int, id: nat): Row {
    Row(id, kind, Pending, 0.0, if budget <= 0 then 3 else budget, PriorAttempts(rows, kind))
  }

  function AfterRun(s: State, kind: PhaseType, budget: int, id: nat): State {
    var p := NewRow(s.rows, kind, budget, id);
    if s.work.Busy? || HasId(s.rows, id) || !NextAllowed(s.change.at, kind) || !NoneLive(s.rows)
       || StartOutcome(p) != Ok then s
    else
      match Save(s.rows, Started(p))
      case IdConflict => s
      case Stored(rows') => s.(rows := rows', work := Busy(s.change, Started(p), Fresh))
  }

  // --- the work itself ---

  /** Init with the init service, and apply with the executor, skip the Iron Law check. */
  predicate Exempt(c: Config, kind: PhaseType) {
    (kind == Init && c.initService) || (kind == Apply && c.applyExecutor)
  }

  predicate DoneAtThreshold(rows: seq<Row>, kind: PhaseType) {
    var k := LatestIndex(rows, kind);
    k < |rows| && rows[k].status == Done && rows[k].confidence >= Threshold(kind)
  }

  /** Iron Laws 2, 3 and 5 for a phase about to be dispatched. */
  predicate LawsHold(rows: seq<Row>, r: Row) {
    && (r.kind == Apply ==> DoneAtThreshold(rows, Tasks))
    && (r.kind == Archive ==> DoneAtThreshold(rows, Verify))
    && r.attempts - 1 < 3
  }

  predicate ClearedToGo(c: Config, rows: seq<Row>, r: Row) {
    Exempt(c, r.kind) || LawsHold(rows, r)
  }

  /** Save the in-memory phase; keep working only if the change is still to be advanced. */
  function Settle(s: State, row: Row): State
    requires s.work.Busy?
  {
    match Save(s.rows, row)
    case IdConflict => s.(work := Idle)
    case Stored(rows') =>
      s.(rows := rows', work := if AdvanceAllowed(row.status) then s.work.(row := row, stage := Accepted) else Idle)
  }

  /** A synthetic blocked envelope with confidence 0. */
  function Failed(r: Row): Row {
    Completed(r, Envelope(r.kind, EnvBlocked, 0.0))
  }

  /** failPhase and Reject can store a failure: the phase is running, or can be started once more. */
  predicate CanFail(r: Row) {
    r.status == Running || StartOutcome(r) == Ok
  }

  /** What they store: a phase that is not running is started once more first. */
  function FailedAttempt(r: Row): Row {
    if r.status == Running then Failed(r) else Failed(Started(r))
  }

  function AfterFail(s: State): State
    requires s.work.Busy?
  {
    if CanFail(s.work.row) then Settle(s, FailedAttempt(s.work.row)) else s.(work := Idle)
  }

  /** The envelope after validation and the advisory critic; an apply executor's is not coerced. */
  function Judged(c: Config, e: Envelope, concerns: bool): Envelope {
    var e := if e.kind == Apply && c.applyExecutor then e else Coerced(e);
    if e.status == EnvDone && concerns then e.(status := EnvDoneWithConcerns) else e
  }

  /** Complete and save; an envelope that Complete refuses fails the phase. */
  function AfterFinish(c: Config, s: State, e: Envelope, concerns: bool): State
    requires s.work.Busy?
  {
    var e := Judged(c, e, concerns);
    if CompleteOutcome(s.work.row, e) == Ok then Settle(s, Completed(s.work.row, e)) else AfterFail(s)
  }

  function AfterCheck(c: Config, s: State): State
    requires s.work.Busy?
  {
    if ClearedToGo(c, s.rows, s.work.row) then s.(work := s.work.(stage := Cleared)) else AfterFail(s)
  }

  /** advanceChange: the copy is advanced and written over the stored change; archive also completes
      the change and enqueues phase.archived in the same transaction. */
  function AfterAdvance(s: State): State
    requires s.work.Busy?
  {
    var c, kind := s.work.change, s.work.row.kind;
    if !CanAdvance(c, kind) then s.(work := Idle)
    else if kind == Archive then State(ChangeRow(Complete, Archive), s.rows, Idle, s.archived + 1)
    else s.(change := c.(at := kind), work := Idle)
  }

  // --- Resume and Reject ---

  /** Resume starts again an interrupted phase or a blocked apply, while the budget lasts. */
  predicate Reopens(r: Row) {
    (r.status == Interrupted && StartOutcome(r) == Ok) || (r.status == Blocked && r.kind == Apply && RestartOutcome(r) == Ok)
  }

  function Reopened(r: Row): Row {
    if r.status == Interrupted then Started(r) else Restarted(r)
  }

  /** Running and needs-context phases are scheduled as they are; the others are saved as started first. */
  function AfterResume(s: State, at: nat): State {
    if s.work.Busy? || at >= |s.rows| then s
    else
      var r := s.rows[at];
      if r.status == Running || r.status == NeedsContext then s.(work := Busy(s.change, r, Fresh))
      else if !Reopens(r) then s
      else
        match Save(s.rows, Reopened(r))
        case IdConflict => s
        case Stored(rows') => s.(rows := rows', work := Busy(s.change, Reopened(r), Fresh))
  }

  function AfterReject(s: State, at: nat): State {
    if s.work.Busy? || at >= |s.rows| || IsTerminal(s.rows[at].status) || !CanFail(s.rows[at]) then s
    else
      match Save(s.rows, FailedAttempt(s.rows[at]))
      case IdConflict => s
      case Stored(rows') => s.(rows := rows')
  }

  /** One step; an action that is refused or out of turn changes nothing. */
  function Next(c: Config, s: State, a: Action): State {
    match a
    case Run(kind, budget, id) => AfterRun(s, kind, budget, id)
    case Pause =>
      if s.work.Busy? && s.work.stage == Fresh && !(s.work.row.kind == Init && c.initService) then s.(work := Idle) else s
    case Check => if s.work.Busy? && s.work.stage == Fresh then AfterCheck(c, s) else s
    case Fail => if s.work.Busy? && s.work.stage != Accepted then AfterFail(s) else s
    case Finish(status, confidence, concerns) =>
      if s.work.Busy? && s.work.stage == Cleared
      then AfterFinish(c, s, Envelope(s.work.row.kind, status, confidence), concerns)
      else s
    case Advance => if s.work.Busy? && s.work.stage == Accepted then AfterAdvance(s) else s
    case Resume(at) => AfterResume(s, at)
    case Reject(at) => AfterReject(s, at)
    case Abort => if s.change.status == Active then s.(change := s.change.(status := Aborted)) else s
    case Crash => s.(work := Idle)
    case Recover => if s.work.Idle? then s.(rows := Recovered(s.rows)) else s
  }

  /** The state after the first k actions. */
  function StateAt(c: Config, s: State, run: seq<Action>, k: nat): State
    requires k <= |run|
  {
    if k == 0 then s else Next(c, StateAt(c, s, run, k - 1), run[k - 1])
  }

  function After(c: Config, s: State, run: seq<Action>): State {
    StateAt(c, s, run, |run|)
  }

  /** Some run leads from s to t. */
  ghost predicate Leads(c: Config, s: State, t: State) {
    exists run :: t == After(c, s, run)
  }

  ghost predicate Reachable(c: Config, s: State) {
    Leads(c, INITIAL, s)
  }

  /** The states that a run goes through. */
  ghost predicate IsTrace(c: Config, run: seq<Action>, trace: seq<State>) {
    |trace| == |run| + 1 && forall i, j :: 0 <= i < j < |trace| && j == i + 1 ==> trace[j] == Next(c, trace[i], run[i])
  }

  lemma {:induction false} StateAtPrefix(c: Config, s: State, run: seq<Action>, more: seq<Action>, k: nat)
    requires k <= |run|
    ensures StateAt(c, s, run + more, k) == StateAt(c, s, run, k)
  {
    if k > 0 {
      StateAtPrefix(c, s, run, more, k - 1);
    }
  }

  lemma {:induction false} StateAtSuffix(c: Config, s: State, run: seq<Action>, more: seq<Action>, k: nat)
    requires k <= |more|
    ensures StateAt(c, s, run + more, |run| + k) == StateAt(c, After(c, s, run), more, k)
  {
    if k == 0 {
      StateAtPrefix(c, s, run, more, |run|);
    } else {
      StateAtSuffix(c, s, run, more, k - 1);
      var before := StateAt(c, s, run + more, |run| + k - 1);
      assert before == StateAt(c, After(c, s, run), more, k - 1);
      var last := (run + more)[|run| + k - 1];
      assert last == more[k - 1];
      assert StateAt(c, s, run + more, |run| + k) == Next(c, before, last);
    }
  }

  lemma LeadsTo(c: Config, s: State)
    ensures Leads(c, s, s)
  {
    assert s == After(c, s, []);
  }

  lemma LeadsOnward(c: Config, s: State, t: State, u: State)
    requires Leads(c, s, t) && Leads(c, t, u)
    ensures Leads(c, s, u)
  {
    var first :| t == After(c, s, first);
    var second :| u == After(c, t, second);
    StateAtSuffix(c, s, first, second, |second|);
    assert u == After(c, s, first + second);
  }

  lemma LeadsOne(c: Config, s: State, a: Action)
    ensures Leads(c, s, Next(c, s, a))
  {
    assert StateAt(c, s, [a], 0) == s;
    assert Next(c, s, a) == After(c, s, [a]);
  }

  lemma LeadsBy(c: Config, s: State, t: State, a: Action, u: State)
    requires Leads(c, s, t) && Next(c, t, a) == u
    ensures Leads(c, s, u)
  {
    LeadsFurther(c, s, t, a);
  }

  lemma LeadsByCrash(c: Config, s: State)
    ensures Leads(c, s, s.(work := Idle))
  {
    LeadsOne(c, s, Crash);
  }

  /** One more step of a run. */
  lemma LeadsFurther(c: Config, s: State, t: State, a: Action)
    requires Leads(c, s, t)
    ensures Leads(c, s, Next(c, t, a))
  {
    LeadsOne(c, t, a);
    LeadsOnward(c, s, t, Next(c, t, a));
  }

  // --- the invariant ---

  /** Only the first three attempts of a checked phase can be accepted. */
  predicate SoundRow(c: Config, r: Row) {
    Sound(r) && r.status != Pending
    && (r.attempts >= 4 && !Exempt(c, r.kind) ==> r.status != Done && r.status != DoneWithConcerns && r.status != NeedsContext)
  }

  predicate LiveOther(r: Row) {
    Live(r) && r.kind != Apply
  }

  predicate NoneLiveOther(rows: seq<Row>) {
    forall i :: 0 <= i < |rows| ==> !LiveOther(rows[i])
  }

  ghost predicate TableInv(c: Config, rows: seq<Row>) {
    && Unique(rows) && Unbroken(rows)
    && (forall i :: 0 <= i < |rows| ==> SoundRow(c, rows[i]))
    && (forall i, j {:trigger LiveOther(rows[i]), LiveOther(rows[j])} ::
          0 <= i < j < |rows| ==> !(LiveOther(rows[i]) && LiveOther(rows[j])))
    && (forall i {:trigger LiveOther(rows[i])} ::
          0 <= i < |rows| && LiveOther(rows[i]) ==> rows[i].attempts == Latest(rows, rows[i].kind))
  }

  ghost predicate ChangeInv(change: ChangeRow, rows: seq<Row>, archived: nat) {
    && (change.status == Complete <==> change.at == Archive)
    && archived == (if change.status == Complete then 1 else 0)
    && (change.at == Archive ==> forall i :: 0 <= i < |rows| && LiveOther(rows[i]) ==> rows[i].kind == Archive)
  }

  /** The stored row of the phase being worked on says what the in-memory one says. */
  predicate StoredAs(rows: seq<Row>, r: Row) {
    var k := FindKey(rows, r.kind, r.attempts);
    k < |rows| && rows[k] == r.(id := rows[k].id) && HasId(rows, r.id)
  }

  predicate StageFits(c: Config, rows: seq<Row>, r: Row, stage: Stage) {
    && (if stage == Accepted then AdvanceAllowed(r.status) else r.status == Running || r.status == NeedsContext)
    && (stage == Cleared ==> Exempt(c, r.kind) || r.attempts <= 3)
    && (stage != Fresh && r.kind == Archive ==> DoneAtThreshold(rows, Verify))
    && (stage == Accepted && r.kind != Apply ==> NoneLiveOther(rows))
  }

  predicate CopyFits(copy: ChangeRow, change: ChangeRow) {
    copy.at == change.at && (copy.status == change.status || (copy.status == Active && change.status == Aborted))
  }

  ghost predicate WorkInv(c: Config, change: ChangeRow, rows: seq<Row>, work: Work) {
    work.Busy? ==> StoredAs(rows, work.row) && StageFits(c, rows, work.row, work.stage) && CopyFits(work.change, change)
  }

  ghost predicate Inv(c: Config, s: State) {
    TableInv(c, s.rows) && ChangeInv(s.change, s.rows, s.archived) && WorkInv(c, s.change, s.rows, s.work)
  }

  // --- writes to the table ---

  /** r may take the place of old: same id and key, sound, and live only where old was. */
  predicate Replaces(c: Config, old_: Row, r: Row) {
    r.id == old_.id && Keyed(r, old_.kind, old_.attempts) && SoundRow(c, r) && (LiveOther(r) ==> LiveOther(old_))
  }

  lemma PutSameLatest(rows: seq<Row>, k: nat, r: Row, kind: PhaseType)
    requires k < |rows| && Keyed(r, rows[k].kind, rows[k].attempts)
    ensures Latest(rows[k := r], kind) == Latest(rows, kind)
  {
    SameLatestTo(rows, rows[k := r], |rows|, kind);
  }

  /** A table that keeps its keys and revives nothing is as good. */
  lemma RewriteKeeps(c: Config, a: seq<Row>, b: seq<Row>)
    requires TableInv(c, a) && |a| == |b| && forall i :: 0 <= i < |a| ==> Replaces(c, a[i], b[i])
    ensures TableInv(c, b) && forall kind :: Latest(b, kind) == Latest(a, kind)
  {
    assert SameKeys(a, b);
    SameKeysKept(a, b);
    forall kind ensures Latest(b, kind) == Latest(a, kind) {
      SameLatest(a, b, kind);
    }
  }

  lemma PutKeeps(c: Config, rows: seq<Row>, k: nat, r: Row)
    requires TableInv(c, rows) && k < |rows| && Replaces(c, rows[k], r)
    ensures TableInv(c, rows[k := r]) && forall kind :: Latest(rows[k := r], kind) == Latest(rows, kind)
  {
    forall i | 0 <= i < |rows| ensures Replaces(c, rows[i], rows[k := r][i]) {
      assert SoundRow(c, rows[i]);
    }
    RewriteKeeps(c, rows, rows[k := r]);
  }

  lemma PutKeepsIds(rows: seq<Row>, k: nat, r: Row, id: nat)
    requires k < |rows| && r.id == rows[k].id && HasId(rows, id)
    ensures HasId(rows[k := r], id)
  {
    var i :| 0 <= i < |rows| && rows[i].id == id;
    assert rows[k := r][i].id == id;
  }

  /** A write elsewhere leaves the latest done row of a type where it was. */
  lemma DoneElsewhere(c: Config, rows: seq<Row>, k: nat, r: Row, kind: PhaseType)
    requires TableInv(c, rows) && k < |rows| && Replaces(c, rows[k], r) && !Keyed(r, kind, Latest(rows, kind))
    requires DoneAtThreshold(rows, kind)
    ensures DoneAtThreshold(rows[k := r], kind)
  {
    PutKeeps(c, rows, k, r);
    FindsKey(rows[k := r], LatestIndex(rows, kind), kind, Latest(rows, kind));
  }

  lemma AppendKeeps(c: Config, rows: seq<Row>, r: Row)
    requires TableInv(c, rows) && NoneLive(rows) && !HasId(rows, r.id) && r.attempts == Latest(rows, r.kind) + 1
    requires SoundRow(c, r)
    ensures Save(rows, r) == Stored(rows + [r]) && TableInv(c, rows + [r])
  {
    SaveNewRow(rows, r);
    LatestAppended(rows, r, r.kind);
  }

  lemma PriorIsLatest(c: Config, rows: seq<Row>, kind: PhaseType)
    requires TableInv(c, rows) && NoneLive(rows)
    ensures PriorAttempts(rows, kind) == Latest(rows, kind)
  {
    var k := LatestIndex(rows, kind);
    if k < |rows| {
      assert SoundRow(c, rows[k]);
    } else {
      assert !HasKey(rows, kind, Latest(rows, kind));
    }
  }

  // --- every step keeps the invariant ---

  lemma RunSaves(c: Config, s: State, kind: PhaseType, budget: int, id: nat)
    requires Inv(c, s) && AfterRun(s, kind, budget, id) != s
    ensures var r := Started(NewRow(s.rows, kind, budget, id));
            && AfterRun(s, kind, budget, id) == s.(rows := s.rows + [r], work := Busy(s.change, r, Fresh))
            && r.kind == kind && r.status == Running && r.attempts == Latest(s.rows, kind) + 1
            && TableInv(c, s.rows + [r]) && NextAllowed(s.change.at, kind) && NoneLive(s.rows)
  {
    PriorIsLatest(c, s.rows, kind);
    AppendKeeps(c, s.rows, Started(NewRow(s.rows, kind, budget, id)));
  }

  lemma AppendedIsStored(rows: seq<Row>, r: Row)
    requires Unique(rows + [r])
    ensures StoredAs(rows + [r], r)
  {
    assert (rows + [r])[|rows|] == r;
    FindsKey(rows + [r], |rows|, r.kind, r.attempts);
  }

  lemma RunKeeps(c: Config, s: State, kind: PhaseType, budget: int, id: nat)
    requires Inv(c, s)
    ensures Inv(c, AfterRun(s, kind, budget, id))
  {
    if AfterRun(s, kind, budget, id) != s {
      var r := Started(NewRow(s.rows, kind, budget, id));
      RunSaves(c, s, kind, budget, id);
      AppendedIsStored(s.rows, r);
      NextIsSuccessor(s.change.at, kind);
    }
  }

  /** A write of a sound row that is not live keeps the change's part. */
  lemma PutKeepsChange(c: Config, s: State, k: nat, r: Row)
    requires Inv(c, s) && k < |s.rows| && Replaces(c, s.rows[k], r)
    ensures TableInv(c, s.rows[k := r]) && ChangeInv(s.change, s.rows[k := r], s.archived)
  {
    PutKeeps(c, s.rows, k, r);
  }

  /** The in-memory phase, still running, is saved over its own row. */
  lemma SettleOwn(c: Config, s: State, row: Row)
    requires Inv(c, s) && s.work.Busy? && s.work.row.status == Running && SoundRow(c, row) && !Live(row)
    requires row == s.work.row.(status := row.status, confidence := row.confidence)
    ensures var k := FindKey(s.rows, row.kind, row.attempts);
            && k < |s.rows| && s.rows[k] == s.work.row.(id := s.rows[k].id) && Replaces(c, s.rows[k], row.(id := s.rows[k].id))
            && Settle(s, row) == s.(rows := s.rows[k := row.(id := s.rows[k].id)],
                                    work := if AdvanceAllowed(row.status) then s.work.(row := row, stage := Accepted) else Idle)
  {
    SaveOverRow(s.rows, FindKey(s.rows, row.kind, row.attempts), row);
  }

  lemma PutIsStored(rows: seq<Row>, k: nat, r: Row)
    requires Unique(rows) && k < |rows| && Keyed(rows[k], r.kind, r.attempts) && HasId(rows, r.id)
    ensures StoredAs(rows[k := r.(id := rows[k].id)], r)
  {
    var rows' := rows[k := r.(id := rows[k].id)];
    assert Unique(rows');
    FindsKey(rows', k, r.kind, r.attempts);
    PutKeepsIds(rows, k, r.(id := rows[k].id), r.id);
  }

  lemma OnlyLiveOther(c: Config, rows: seq<Row>, k: nat, r: Row)
    requires TableInv(c, rows) && k < |rows| && LiveOther(rows[k]) && !Live(r)
    ensures NoneLiveOther(rows[k := r])
  {
  }

  lemma SettleAcceptedFits(c: Config, s: State, row: Row)
    requires Inv(c, s) && s.work.Busy? && s.work.stage == Cleared && s.work.row.status == Running
    requires SoundRow(c, row) && AdvanceAllowed(row.status)
    requires row == s.work.row.(status := row.status, confidence := row.confidence)
    ensures var k := FindKey(s.rows, row.kind, row.attempts);
            k < |s.rows| && StageFits(c, s.rows[k := row.(id := s.rows[k].id)], row, Accepted)
  {
    SettleOwn(c, s, row);
    var k := FindKey(s.rows, row.kind, row.attempts);
    var r := row.(id := s.rows[k].id);
    if row.kind == Archive {
      DoneElsewhere(c, s.rows, k, r, Verify);
    }
    if row.kind != Apply {
      OnlyLiveOther(c, s.rows, k, r);
    }
  }

  lemma SettleKeeps(c: Config, s: State, row: Row)
    requires Inv(c, s) && s.work.Busy? && s.work.stage != Accepted && s.work.row.status == Running
    requires row == s.work.row.(status := row.status, confidence := row.confidence) && SoundRow(c, row) && !Live(row)
    requires AdvanceAllowed(row.status) ==> s.work.stage == Cleared
    ensures Inv(c, Settle(s, row))
  {
    SettleOwn(c, s, row);
    var k := FindKey(s.rows, row.kind, row.attempts);
    PutKeepsChange(c, s, k, row.(id := s.rows[k].id));
    if AdvanceAllowed(row.status) {
      SettleAcceptedFits(c, s, row);
      PutIsStored(s.rows, k, row);
    }
  }

  /** An attempt saved under the next number, blocked or running: refused for the latest attempt, else
      put in place of the attempt that followed. */
  lemma SaveNextKeeps(c: Config, s: State, i: nat, r: Row)
    requires Inv(c, s) && i < |s.rows| && HasId(s.rows, r.id) && Keyed(r, s.rows[i].kind, s.rows[i].attempts + 1)
    requires SoundRow(c, r) && !LiveOther(r)
    ensures Save(s.rows, r) == IdConflict <==> s.rows[i].attempts == Latest(s.rows, s.rows[i].kind)
    ensures Save(s.rows, r).Stored? ==>
              var j := FindKey(s.rows, r.kind, r.attempts);
              && j < |s.rows| && j != i && Replaces(c, s.rows[j], r.(id := s.rows[j].id))
              && Save(s.rows, r) == Stored(s.rows[j := r.(id := s.rows[j].id)])
              && TableInv(c, s.rows[j := r.(id := s.rows[j].id)])
              && ChangeInv(s.change, s.rows[j := r.(id := s.rows[j].id)], s.archived)
  {
    SaveUnderNextNumber(s.rows, i, r);
    if Save(s.rows, r).Stored? {
      var j := FindKey(s.rows, r.kind, r.attempts);
      PutKeepsChange(c, s, j, r.(id := s.rows[j].id));
    }
  }

  lemma FailedIsSound(c: Config, r: Row)
    requires SoundRow(c, r) && CanFail(r)
    ensures SoundRow(c, FailedAttempt(r)) && !Live(FailedAttempt(r)) && !AdvanceAllowed(FailedAttempt(r).status)
  {
  }

  lemma FailKeeps(c: Config, s: State)
    requires Inv(c, s) && s.work.Busy? && s.work.stage != Accepted
    ensures Inv(c, AfterFail(s))
  {
    var k := FindKey(s.rows, s.work.row.kind, s.work.row.attempts);
    assert SoundRow(c, s.rows[k]);
    if CanFail(s.work.row) {
      FailedIsSound(c, s.work.row);
      if s.work.row.status == Running {
        SettleKeeps(c, s, FailedAttempt(s.work.row));
      } else {
        SaveNextKeeps(c, s, k, FailedAttempt(s.work.row));
      }
    }
  }

  lemma FinishedIsSound(c: Config, r: Row, e: Envelope, concerns: bool)
    requires SoundRow(c, r) && (Exempt(c, r.kind) || r.attempts <= 3)
    requires CompleteOutcome(r, Judged(c, e, concerns)) == Ok
    ensures SoundRow(c, Completed(r, Judged(c, e, concerns))) && !Live(Completed(r, Judged(c, e, concerns)))
  {
  }

  lemma FinishKeeps(c: Config, s: State, e: Envelope, concerns: bool)
    requires Inv(c, s) && s.work.Busy? && s.work.stage == Cleared
    ensures Inv(c, AfterFinish(c, s, e, concerns))
  {
    var e' := Judged(c, e, concerns);
    assert SoundRow(c, s.rows[FindKey(s.rows, s.work.row.kind, s.work.row.attempts)]);
    if CompleteOutcome(s.work.row, e') == Ok {
      FinishedIsSound(c, s.work.row, e, concerns);
      SettleKeeps(c, s, Completed(s.work.row, e'));
    } else {
      FailKeeps(c, s);
    }
  }

  lemma CheckKeeps(c: Config, s: State)
    requires Inv(c, s) && s.work.Busy? && s.work.stage == Fresh
    ensures Inv(c, AfterCheck(c, s))
  {
    if !ClearedToGo(c, s.rows, s.work.row) {
      FailKeeps(c, s);
    }
  }

  lemma AdvanceKeeps(c: Config, s: State)
    requires Inv(c, s) && s.work.Busy? && s.work.stage == Accepted
    ensures Inv(c, AfterAdvance(s)) && AfterAdvance(s).rows == s.rows
    ensures AfterAdvance(s).change.at == s.change.at || AfterAdvance(s).change.at in NextValid(s.change.at)
  {
    NextIsSuccessor(s.change.at, s.work.row.kind);
  }

  lemma RowIsStored(rows: seq<Row>, at: nat)
    requires Unique(rows) && at < |rows|
    ensures StoredAs(rows, rows[at])
  {
    FindsKey(rows, at, rows[at].kind, rows[at].attempts);
  }

  lemma ReopenedIsSound(c: Config, r: Row)
    requires SoundRow(c, r) && Reopens(r)
    ensures SoundRow(c, Reopened(r)) && Reopened(r).status == Running && Keyed(Reopened(r), r.kind, r.attempts + 1)
  {
  }

  /** An interrupted phase other than apply is the latest of its type, so it cannot be started again. */
  lemma ReopenedIsApply(c: Config, s: State, at: nat)
    requires Inv(c, s) && at < |s.rows| && Reopens(s.rows[at]) && s.rows[at].attempts < Latest(s.rows, s.rows[at].kind)
    ensures s.rows[at].kind == Apply
  {
    if s.rows[at].kind != Apply {
      assert LiveOther(s.rows[at]);
    }
  }

  lemma ReopenSaves(c: Config, s: State, at: nat)
    requires Inv(c, s) && at < |s.rows| && Reopens(s.rows[at])
    ensures var r := s.rows[at]; var j := FindKey(s.rows, r.kind, r.attempts + 1);
            if r.attempts == Latest(s.rows, r.kind) then Save(s.rows, Reopened(r)) == IdConflict
            else
              && j < |s.rows| && j != at && r.kind == Apply
              && Save(s.rows, Reopened(r)) == Stored(s.rows[j := Reopened(r).(id := s.rows[j].id)])
              && TableInv(c, s.rows[j := Reopened(r).(id := s.rows[j].id)])
              && ChangeInv(s.change, s.rows[j := Reopened(r).(id := s.rows[j].id)], s.archived)
  {
    assert SoundRow(c, s.rows[at]);
    ReopenedIsSound(c, s.rows[at]);
    assert HasId(s.rows, s.rows[at].id);
    SaveUnderNextNumber(s.rows, at, Reopened(s.rows[at]));
    if s.rows[at].attempts < Latest(s.rows, s.rows[at].kind) {
      ReopenedIsApply(c, s, at);
      SaveNextKeeps(c, s, at, Reopened(s.rows[at]));
    }
  }

  /** What a resume of an older attempt does: the attempt that followed runs again as this one. */
  lemma ReopenStep(c: Config, s: State, at: nat)
    requires Inv(c, s) && s.work.Idle? && at < |s.rows| && Reopens(s.rows[at])
    requires s.rows[at].attempts < Latest(s.rows, s.rows[at].kind)
    ensures var r := Reopened(s.rows[at]); var j := FindKey(s.rows, r.kind, r.attempts);
            && j < |s.rows| && j != at && r.kind == Apply && r.status == Running
            && AfterResume(s, at) == s.(rows := s.rows[j := r.(id := s.rows[j].id)], work := Busy(s.change, r, Fresh))
            && StoredAs(AfterResume(s, at).rows, r)
  {
    ReopenSaves(c, s, at);
    assert HasId(s.rows, s.rows[at].id);
    PutIsStored(s.rows, FindKey(s.rows, s.rows[at].kind, s.rows[at].attempts + 1), Reopened(s.rows[at]));
  }

  lemma ReopenKeeps(c: Config, s: State, at: nat)
    requires Inv(c, s) && s.work.Idle? && at < |s.rows| && Reopens(s.rows[at])
    ensures Inv(c, AfterResume(s, at))
  {
    ReopenSaves(c, s, at);
    if s.rows[at].attempts < Latest(s.rows, s.rows[at].kind) {
      ReopenStep(c, s, at);
    }
  }

  lemma ResumeKeeps(c: Config, s: State, at: nat)
    requires Inv(c, s)
    ensures Inv(c, AfterResume(s, at))
  {
    if s.work.Idle? && at < |s.rows| {
      if Reopens(s.rows[at]) {
        ReopenKeeps(c, s, at);
      } else {
        RowIsStored(s.rows, at);
      }
    }
  }

  lemma RejectKeeps(c: Config, s: State, at: nat)
    requires Inv(c, s)
    ensures Inv(c, AfterReject(s, at))
  {
    if s.work.Idle? && at < |s.rows| && !IsTerminal(s.rows[at].status) && CanFail(s.rows[at]) {
      assert SoundRow(c, s.rows[at]);
      FailedIsSound(c, s.rows[at]);
      assert HasId(s.rows, s.rows[at].id);
      if s.rows[at].status == Running {
        SaveOverRow(s.rows, at, Failed(s.rows[at]));
        PutKeepsChange(c, s, at, Failed(s.rows[at]));
      } else {
        SaveNextKeeps(c, s, at, FailedAttempt(s.rows[at]));
      }
    }
  }

  lemma InterruptReplaces(c: Config, r: Row)
    requires SoundRow(c, r)
    ensures Replaces(c, r, Interrupt(r))
  {
  }

  lemma RecoverKeeps(c: Config, s: State)
    requires Inv(c, s) && s.work.Idle?
    ensures Inv(c, s.(rows := Recovered(s.rows)))
  {
    forall i | 0 <= i < |s.rows| ensures Replaces(c, s.rows[i], Recovered(s.rows)[i]) {
      InterruptReplaces(c, s.rows[i]);
    }
    RewriteKeeps(c, s.rows, Recovered(s.rows));
  }

  lemma QuietKeeps(c: Config, s: State)
    requires Inv(c, s)
    ensures Inv(c, s.(work := Idle))
    ensures s.change.status == Active ==> Inv(c, s.(change := s.change.(status := Aborted)))
  {
  }

  lemma WorkStepKeeps(c: Config, s: State, a: Action)
    requires Inv(c, s) && s.work.Busy? && (a.Check? || a.Fail? || a.Finish? || a.Advance?)
    ensures Inv(c, Next(c, s, a))
  {
    if a.Check? && s.work.stage == Fresh {
      CheckKeeps(c, s);
    } else if a.Fail? && s.work.stage != Accepted {
      FailKeeps(c, s);
    } else if a.Finish? && s.work.stage == Cleared {
      FinishKeeps(c, s, Envelope(s.work.row.kind, a.status, a.confidence), a.concerns);
    } else if a.Advance? && s.work.stage == Accepted {
      AdvanceKeeps(c, s);
    }
  }

  lemma StepKeeps(c: Config, s: State, a: Action)
    requires Inv(c, s)
    ensures Inv(c, Next(c, s, a))
  {
    QuietKeeps(c, s);
    if s.work.Busy? && (a.Check? || a.Fail? || a.Finish? || a.Advance?) {
      WorkStepKeeps(c, s, a);
    } else if a.Run? {
      RunKeeps(c, s, a.kind, a.budget, a.id);
    } else if a.Resume? {
      ResumeKeeps(c, s, a.at);
    } else if a.Reject? {
      RejectKeeps(c, s, a.at);
    } else if a.Recover? && s.work.Idle? {
      RecoverKeeps(c, s);
    }
  }

  /** The state after a crash and boot recovery. */
  function Rebooted(s: State): State {
    s.(rows := Recovered(s.rows), work := Idle)
  }

  lemma CrashRecover(c: Config, s: State)
    requires Inv(c, s)
    ensures Next(c, Next(c, s, Crash), Recover) == Rebooted(s) && Leads(c, s, Rebooted(s)) && Inv(c, Rebooted(s))
  {
    QuietKeeps(c, s);
    RecoverKeeps(c, s.(work := Idle));
    LeadsOne(c, s, Crash);
    LeadsFurther(c, s, Next(c, s, Crash), Recover);
  }

  lemma {:induction false} RunsKeep(c: Config, s: State, run: seq<Action>, k: nat)
    requires Inv(c, s) && k <= |run|
    ensures Inv(c, StateAt(c, s, run, k))
  {
    if k > 0 {
      RunsKeep(c, s, run, k - 1);
      StepKeeps(c, StateAt(c, s, run, k - 1), run[k - 1]);
    }
  }

  lemma TraceStep(c: Config, run: seq<Action>, trace: seq<State>, k: nat)
    requires IsTrace(c, run, trace) && k < |run|
    ensures trace[k + 1] == Next(c, trace[k], run[k])
  {
    assert k + 1 < |trace|;
  }

  lemma {:induction false} TraceReachable(c: Config, run: seq<Action>, trace: seq<State>, k: nat)
    requires IsTrace(c, run, trace) && Reachable(c, trace[0]) && k <= |run|
    ensures Reachable(c, trace[k])
  {
    if k > 0 {
      TraceReachable(c, run, trace, k - 1);
      TraceStep(c, run, trace, k - 1);
      LeadsFurther(c, INITIAL, trace[k - 1], run[k - 1]);
    }
  }

  lemma LeadsKeeps(c: Config, s: State, t: State)
    requires Inv(c, s) && Leads(c, s, t)
    ensures Inv(c, t)
  {
    var run :| t == After(c, s, run);
    RunsKeep(c, s, run, |run|);
  }

  lemma ReachableInv(c: Config, s: State)
    requires Reachable(c, s)
    ensures Inv(c, s)
  {
    LeadsKeeps(c, INITIAL, s);
  }

  // --- what holds in every run ---

  lemma OnlyAdvanceMoves(c: Config, s: State, a: Action)
    requires a != Advance
    ensures Next(c, s, a).change.at == s.change.at
  {
  }

  /** In every run the pointer stays or moves to the canonical successor. */
  lemma PointerMovesOneStep(c: Config, s: State, a: Action)
    requires Reachable(c, s)
    ensures Position(Next(c, s, a).change.at) in {Position(s.change.at), Position(s.change.at) + 1}
  {
    if a != Advance {
      OnlyAdvanceMoves(c, s, a);
    } else if s.work.Busy? && s.work.stage == Accepted {
      ReachableInv(c, s);
      AdvanceKeeps(c, s);
      NextIsSuccessor(s.change.at, Next(c, s, a).change.at);
    }
  }

  ghost predicate HasAccepted(rows: seq<Row>, kind: PhaseType) {
    exists i :: 0 <= i < |rows| && rows[i].kind == kind && AdvanceAllowed(rows[i].status)
  }

  /** A change is completed exactly when its pointer is at archive, and exactly when its one
      phase.archived event exists. */
  lemma CompletedOnce(c: Config, s: State)
    requires Reachable(c, s)
    ensures s.change.status == Complete <==> s.change.at == Archive
    ensures s.archived == if s.change.status == Complete then 1 else 0
  {
    ReachableInv(c, s);
  }

  /** The step that moves the pointer to a phase finds an accepted row of that phase, and the step that
      completes the change finds the latest verify attempt done with confidence at least 0.9. */
  lemma AdvanceIsEarned(c: Config, s: State, a: Action)
    requires Reachable(c, s) && Next(c, s, a).change.at != s.change.at
    ensures HasAccepted(s.rows, Next(c, s, a).change.at) && Next(c, s, a).rows == s.rows
    ensures Next(c, s, a).change.status == Complete ==> LatestDone(s.rows, Verify, 0.9)
  {
    ReachableInv(c, s);
    ThresholdValues(Verify);
    if a != Advance {
      OnlyAdvanceMoves(c, s, a);
    } else {
      AdvanceKeeps(c, s);
      var k := FindKey(s.rows, s.work.row.kind, s.work.row.attempts);
      assert s.rows[k].kind == s.work.row.kind && AdvanceAllowed(s.rows[k].status);
    }
  }

  /** The latest attempt of the type is done with at least this confidence. */
  predicate LatestDone(rows: seq<Row>, kind: PhaseType, confidence: real) {
    var k := LatestIndex(rows, kind);
    k < |rows| && rows[k].kind == kind && rows[k].attempts == Latest(rows, kind)
    && rows[k].status == Done && rows[k].confidence >= confidence
  }

  /** The Iron Law check lets a phase go on or fails it. Apart from init with its service and apply with its
      executor, a phase goes on exactly if it is within its first three attempts, an archive has a verify
      done at 0.9 before it, and an apply has tasks done at 0.8. */
  lemma IronLawGate(c: Config, s: State)
    requires Reachable(c, s) && s.work.Busy? && s.work.stage == Fresh
    ensures var s', r := Next(c, s, Check), s.work.row;
            && (s'.work.Busy? <==>
                  || (r.kind == Init && c.initService) || (r.kind == Apply && c.applyExecutor)
                  || (r.attempts <= 3 && (r.kind == Archive ==> LatestDone(s.rows, Verify, 0.9))
                      && (r.kind == Apply ==> LatestDone(s.rows, Tasks, 0.8))))
            && s' == if s'.work.Busy? then s.(work := s.work.(stage := Cleared)) else Next(c, s, Fail)
  {
    ReachableInv(c, s);
    FailEndsWork(c, s);
    ThresholdValues(Verify);
    ThresholdValues(Tasks);
  }

  /** What a failure stores: the row blocked, with no confidence and nothing else changed. */
  lemma FailStores(c: Config, s: State)
    requires Inv(c, s) && s.work.Busy? && s.work.stage != Accepted && s.work.row.status == Running
    ensures var k := FindKey(s.rows, s.work.row.kind, s.work.row.attempts);
            && k < |s.rows|
            && AfterFail(s) == s.(rows := s.rows[k := s.rows[k].(status := Blocked, confidence := 0.0)], work := Idle)
  {
    var r := s.work.row;
    assert SoundRow(c, s.rows[FindKey(s.rows, r.kind, r.attempts)]);
    FailedIsSound(c, r);
    SettleOwn(c, s, Failed(r));
  }

  /** Complete refuses only a done below the threshold from an apply executor without concerns. */
  predicate Refused(c: Config, kind: PhaseType, status: EnvelopeStatus, confidence: real, concerns: bool) {
    kind == Apply && c.applyExecutor && status == EnvDone && confidence < Threshold(Apply) && !concerns
  }

  lemma FinishRefused(c: Config, s: State, status: EnvelopeStatus, confidence: real, concerns: bool)
    requires s.work.Busy? && s.work.row.status == Running
    ensures CompleteOutcome(s.work.row, Judged(c, Envelope(s.work.row.kind, status, confidence), concerns)) == Ok <==>
            !Refused(c, s.work.row.kind, status, confidence, concerns)
  {
  }

  /** What the table holds after an envelope, for every status, confidence and verdict of the critic: done
      exactly for a done at the threshold without concerns; done with concerns exactly for such an envelope,
      for a done with concerns found, and for a done below the threshold that no apply executor sent;
      needs-context exactly for needs-context; blocked otherwise. The confidence is the envelope's, or none
      if the phase failed on it. */
  lemma FinishStores(c: Config, s: State, status: EnvelopeStatus, confidence: real, concerns: bool)
    requires Reachable(c, s) && s.work.Busy? && s.work.stage == Cleared && s.work.row.status == Running
    ensures var s', r := Next(c, s, Finish(status, confidence, concerns)), s.work.row;
            var k, high := FindKey(s.rows, r.kind, r.attempts), confidence >= Threshold(r.kind);
            && k < |s.rows| == |s'.rows| && s'.rows == s.rows[k := s'.rows[k]]
            && s'.rows[k] == s.rows[k].(status := s'.rows[k].status, confidence := s'.rows[k].confidence)
            && (s'.rows[k].status == Done <==> status == EnvDone && high && !concerns)
            && (s'.rows[k].status == DoneWithConcerns <==>
                  || status == EnvDoneWithConcerns
                  || (status == EnvDone && (concerns || (!high && !(r.kind == Apply && c.applyExecutor)))))
            && (s'.rows[k].status == NeedsContext <==> status == EnvNeedsContext)
            && (s'.rows[k].status == Blocked <==>
                  status == EnvBlocked || Refused(c, r.kind, status, confidence, concerns))
            && s'.rows[k].confidence == (if Refused(c, r.kind, status, confidence, concerns) then 0.0 else confidence)
            && (s'.work.Busy? <==> s'.rows[k].status == Done || s'.rows[k].status == DoneWithConcerns)
            && s'.change == s.change
  {
    ReachableInv(c, s);
    var r, e := s.work.row, Envelope(s.work.row.kind, status, confidence);
    assert SoundRow(c, s.rows[FindKey(s.rows, r.kind, r.attempts)]);
    FinishRefused(c, s, status, confidence, concerns);
    if Refused(c, r.kind, status, confidence, concerns) {
      FailStores(c, s);
    } else {
      FinishedIsSound(c, r, e, concerns);
      SettleOwn(c, s, Completed(r, Judged(c, e, concerns)));
    }
  }

  lemma FailEndsWork(c: Config, s: State)
    requires Inv(c, s) && s.work.Busy? && s.work.stage != Accepted
    ensures AfterFail(s).work.Idle?
  {
    if CanFail(s.work.row) {
      assert !AdvanceAllowed(FailedAttempt(s.work.row).status);
    }
  }

  /** When a done envelope is accepted: always, except from an apply executor below the threshold
      without concerns. Below the threshold it is accepted with concerns and advances all the same. */
  lemma DoneEnvelopeAcceptedIff(c: Config, s: State, confidence: real, concerns: bool)
    requires Reachable(c, s) && s.work.Busy? && s.work.stage == Cleared && s.work.row.status == Running
    ensures var s', kind := Next(c, s, Finish(EnvDone, confidence, concerns)), s.work.row.kind;
            && (s'.work.Busy? <==> !(kind == Apply && c.applyExecutor) || confidence >= Threshold(kind) || concerns)
            && (s'.work.Busy? ==>
                  && s'.work.stage == Accepted
                  && s'.work.row.status == (if confidence >= Threshold(kind) && !concerns then Done else DoneWithConcerns))
  {
    ReachableInv(c, s);
    var r, e := s.work.row, Judged(c, Envelope(s.work.row.kind, EnvDone, confidence), concerns);
    assert SoundRow(c, s.rows[FindKey(s.rows, r.kind, r.attempts)]);
    if CompleteOutcome(r, e) == Ok {
      FinishedIsSound(c, r, Envelope(r.kind, EnvDone, confidence), concerns);
      SettleOwn(c, s, Completed(r, e));
    } else {
      FailEndsWork(c, s);
    }
  }

  /** Attempts of each phase type are exactly 1 to the latest, one row each, within their own
      budget; done means at threshold; beyond the third attempt a checked phase is never accepted. */
  lemma AttemptHistory(c: Config, s: State, kind: PhaseType, n: nat)
    requires Reachable(c, s)
    ensures HasKey(s.rows, kind, n) <==> 1 <= n <= Latest(s.rows, kind)
    ensures forall i :: 0 <= i < |s.rows| && Keyed(s.rows[i], kind, n) ==>
              && n <= s.rows[i].budget && FindKey(s.rows, kind, n) == i
              && (s.rows[i].status == Done ==> s.rows[i].confidence >= Threshold(kind))
              && (n >= 4 && !Exempt(c, kind) ==> !AdvanceAllowed(s.rows[i].status))
  {
    ReachableInv(c, s);
    GapFree(s.rows, kind, n);
    assert forall i :: 0 <= i < |s.rows| ==> SoundRow(c, s.rows[i]);
  }

  /** An accepted Run adds one row, numbered one past the latest of its type, under a fresh key. */
  lemma RunAddsNextAttempt(c: Config, s: State, kind: PhaseType, budget: int, id: nat)
    requires Reachable(c, s) && Next(c, s, Run(kind, budget, id)) != s
    ensures var s' := Next(c, s, Run(kind, budget, id));
            && |s'.rows| == |s.rows| + 1 && s'.rows[..|s.rows|] == s.rows
            && Keyed(s'.rows[|s.rows|], kind, Latest(s.rows, kind) + 1) && s'.rows[|s.rows|].status == Running
            && !HasKey(s.rows, kind, Latest(s.rows, kind) + 1)
  {
    ReachableInv(c, s);
    RunSaves(c, s, kind, budget, id);
    GapFree(s.rows, kind, Latest(s.rows, kind) + 1);
  }

  /** A property that every step keeps holds after every run. */
  lemma {:induction false} Always(c: Config, s: State, run: seq<Action>, k: nat, p: State -> bool)
    requires Inv(c, s) && p(s) && k <= |run|
    requires forall t, a :: Inv(c, t) && p(t) ==> p(Next(c, t, a))
    ensures p(StateAt(c, s, run, k))
  {
    if k > 0 {
      Always(c, s, run, k - 1, p);
      RunsKeep(c, s, run, k - 1);
    }
  }

  // --- abort ---

  /** The work in progress can still end by writing its copy of the change. */
  predicate WillAdvance(c: Config, s: State) {
    && s.work.Busy? && CanAdvance(s.work.change, s.work.row.kind)
    && (s.work.stage != Accepted ==> s.work.row.status == Running)
    && (s.work.stage == Fresh ==> ClearedToGo(c, s.rows, s.work.row))
  }

  lemma AbortStep(c: Config, s: State, a: Action)
    requires Inv(c, s) && s.change.status == Aborted && !WillAdvance(c, s)
    ensures Next(c, s, a).change.status == Aborted && !WillAdvance(c, Next(c, s, a))
  {
    if s.work.Busy? && s.work.stage != Accepted {
      FailEndsWork(c, s);
    }
  }

  lemma {:induction false} AbortStays(c: Config, s: State, run: seq<Action>, k: nat)
    requires Inv(c, s) && s.change.status == Aborted && !WillAdvance(c, s) && k <= |run|
    ensures StateAt(c, s, run, k).change.status == Aborted && !WillAdvance(c, StateAt(c, s, run, k))
  {
    forall t, a | Inv(c, t) && t.change.status == Aborted && !WillAdvance(c, t)
      ensures Next(c, t, a).change.status == Aborted && !WillAdvance(c, Next(c, t, a))
    {
      AbortStep(c, t, a);
    }
    Always(c, s, run, k, (t: State) => t.change.status == Aborted && !WillAdvance(c, t));
  }

  lemma FullConfidenceIsDone(c: Config, r: Row)
    requires r.status == Running && SoundRow(c, r) && (Exempt(c, r.kind) || r.attempts <= 3)
    ensures var e := Judged(c, Envelope(r.kind, EnvDone, 1.0), false);
            CompleteOutcome(r, e) == Ok && Completed(r, e) == r.(status := Done, confidence := 1.0)
    ensures SoundRow(c, r.(status := Done, confidence := 1.0))
  {
    assert Threshold(r.kind) <= 1.0;
  }

  lemma FinishDone(c: Config, s: State)
    requires Inv(c, s) && s.work.Busy? && s.work.stage == Cleared && s.work.row.status == Running
    ensures var s', r := Next(c, s, Finish(EnvDone, 1.0, false)), s.work.row.(status := Done, confidence := 1.0);
            var k := FindKey(s.rows, r.kind, r.attempts);
            && Inv(c, s') && k < |s.rows|
            && s' == s.(rows := s.rows[k := r.(id := s.rows[k].id)], work := s.work.(row := r, stage := Accepted))
  {
    assert SoundRow(c, s.rows[FindKey(s.rows, s.work.row.kind, s.work.row.attempts)]);
    FullConfidenceIsDone(c, s.work.row);
    SettleOwn(c, s, s.work.row.(status := Done, confidence := 1.0));
    SettleKeeps(c, s, s.work.row.(status := Done, confidence := 1.0));
  }

  lemma AcceptedOverwrites(c: Config, s: State)
    requires WillAdvance(c, s) && s.work.stage == Accepted
    ensures Next(c, s, Advance).change.status != Aborted
  {
  }

  lemma ClearedWillFinish(c: Config, s: State)
    requires Inv(c, s) && WillAdvance(c, s) && s.work.stage == Cleared
    ensures var s' := Next(c, s, Finish(EnvDone, 1.0, false)); WillAdvance(c, s') && s'.work.stage == Accepted
  {
    FinishDone(c, s);
  }

  lemma FreshWillClear(c: Config, s: State)
    requires WillAdvance(c, s) && s.work.stage == Fresh
    ensures var s' := Next(c, s, Check); WillAdvance(c, s') && s'.work.stage == Cleared
  {
  }

  /** The rest of a run that overwrites an abort: pass the check, finish done, advance. */
  lemma AbortOverwritten(c: Config, s: State) returns (t: State)
    requires Inv(c, s) && WillAdvance(c, s)
    ensures Leads(c, s, t) && t.change.status != Aborted
  {
    var s1 := s;
    LeadsTo(c, s);
    if s.work.stage == Fresh {
      FreshWillClear(c, s);
      StepKeeps(c, s, Check);
      s1 := Next(c, s, Check);
      LeadsFurther(c, s, s, Check);
    }
    var s2 := s1;
    if s1.work.stage == Cleared {
      ClearedWillFinish(c, s1);
      s2 := Next(c, s1, Finish(EnvDone, 1.0, false));
      LeadsFurther(c, s, s1, Finish(EnvDone, 1.0, false));
    }
    AcceptedOverwrites(c, s2);
    LeadsFurther(c, s, s2, Advance);
    t := Next(c, s2, Advance);
  }

  /** An aborted change can become active or completed again exactly while a phase that was
      scheduled before the abort, and would move the pointer, is still able to pass its check. */
  lemma AbortIsFinalIff(c: Config, s: State)
    requires Reachable(c, s) && s.change.status == Aborted
    ensures (forall t :: Leads(c, s, t) ==> t.change.status == Aborted) <==> !WillAdvance(c, s)
  {
    ReachableInv(c, s);
    if WillAdvance(c, s) {
      var t := AbortOverwritten(c, s);
    } else {
      forall t | Leads(c, s, t) ensures t.change.status == Aborted {
        var run :| t == After(c, s, run);
        AbortStays(c, s, run, |run|);
      }
    }
  }
}

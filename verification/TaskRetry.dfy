// One task through runImplementWithRetry: the claim, up to three dispatches under the spawn
// governor, one fallback dispatch on a quota error, and what is left in memory and in storage.
module TaskRetry {
  import opened ApplyDomain
  import opened Options
  import opened ApplyRun

  /** The in-memory task aggregate. */
  class Task {
    var status: TaskStatus
    var attempts: nat

    constructor (s: TaskStatus, n: nat)
      ensures Value() == TaskState(s, n)
    {
      status := s;
      attempts := n;
    }

    function Value(): TaskState
      reads this
    {
      TaskState(status, attempts)
    }

    method Release() returns (ok: bool)
      modifies this`status
      ensures ok <==> old(status) == TaskClaimed || old(status) == TaskRunning
      ensures Value() == if ok then TaskState(TaskPending, old(attempts)) else old(Value())
    {
      if status != TaskClaimed && status != TaskRunning {
        return false;
      }
      status := TaskPending;
      return true;
    }

    /** Iron Law #5: the third failed attempt escalates and blocks the task. */
    method RecordAttempt(success: bool) returns (escalate: bool)
      modifies this`status, this`attempts
      ensures Value() == AfterAttempt(old(Value()), success)
      ensures escalate <==> !success && attempts >= 3
    {
      attempts := attempts + 1;
      if success {
        status := TaskDone;
        return false;
      }
      if attempts >= MAX_ATTEMPTS {
        status := TaskBlocked;
        return true;
      }
      status := TaskFailed;
      return false;
    }
  }

  /** What the world answers: context, governor and dispatcher at each attempt, and the fallback. */
  datatype World = World(
    cancelled: nat -> bool,
    granted: nat -> bool,
    reply: nat -> Reply,
    fallback: Option<Reply>)     // None: no fallback model configured

  /** Attempt i ran and failed without a quota error. */
  predicate OrdinaryFailure(w: World, i: nat) {
    !w.cancelled(i) && w.granted(i) && w.reply(i) == Fail
  }

  predicate Dispatched(w: World, i: nat) { !w.cancelled(i) && w.granted(i) }

  /** Attempt i was answered with success, directly or by the fallback model. */
  predicate Wins(w: World, i: nat) {
    Dispatched(w, i) && (w.reply(i) == Ok || (w.reply(i) == Quota && w.fallback == Some(Ok)))
  }

  predicate QuotaStops(w: World, i: nat) {
    Dispatched(w, i) && w.reply(i) == Quota && w.fallback != Some(Ok)
  }

  /** Dispatches left before the budget is spent; even a spent budget gets one more. */
  function Tries(attempts: nat): nat {
    if attempts < 3 then 3 - attempts else 1
  }

  /** A pending task after k ordinary failures. */
  function AfterFailures(attempts: nat, k: nat): TaskState {
    TaskState(if k == 0 then TaskPending else if k >= Tries(attempts) then TaskBlocked else TaskFailed, attempts + k)
  }

  datatype Stats = Stats(ok: bool, failures: nat, primary: nat, fallback: nat, acquires: nat, releases: nat)

  // --- the same task as a goroutine of the interleaved machine ---

  predicate Moved(c: Config, t: TaskRun, act: TaskAction, t': TaskRun) {
    TaskReady(t, act) && t' == TaskAfter(c, t, act)
  }

  /** A walk of one task goroutine through the steps of the interleaved machine. */
  ghost predicate TaskWalk(c: Config, ts: seq<TaskRun>, acts: seq<TaskAction>) {
    |ts| == |acts| + 1 &&
    forall i, j :: 0 <= i < j < |ts| && j == i + 1 ==> Moved(c, ts[i], acts[i], ts[j])
  }

  ghost predicate Walks(c: Config, from: TaskRun, to: TaskRun) {
    exists ts, acts :: TaskWalk(c, ts, acts) && ts[0] == from && ts[|acts|] == to
  }

  lemma WalksNowhere(c: Config, t: TaskRun)
    ensures Walks(c, t, t)
  {
    assert TaskWalk(c, [t], []);
  }

  lemma WalksOneMore(c: Config, from: TaskRun, t: TaskRun, act: TaskAction)
    requires Walks(c, from, t) && TaskReady(t, act)
    ensures Walks(c, from, TaskAfter(c, t, act))
  {
    var ts, acts :| TaskWalk(c, ts, acts) && ts[0] == from && ts[|acts|] == t;
    var ts', acts' := ts + [TaskAfter(c, t, act)], acts + [act];
    forall i, j | 0 <= i < j < |ts'| && j == i + 1 ensures Moved(c, ts'[i], acts'[i], ts'[j]) {
      if j < |ts| {
        assert Moved(c, ts[i], acts[i], ts[j]);
      }
    }
    assert TaskWalk(c, ts', acts');
  }

  /** One granted attempt of the walk: the slot, the reply, and the fallback's reply if there is one. */
  lemma WalksAttempt(c: Config, w: World, from: TaskRun, attempt: nat, task: TaskState)
    requires Walks(c, from, TaskRun(WantsSlot(attempt), task)) && c.fallback == w.fallback.Some?
    ensures w.reply(attempt) == Ok ==> Walks(c, from, TaskRun(Returned(true), AfterAttempt(task, true)))
    ensures w.reply(attempt) == Fail ==>
              var failed := AfterAttempt(task, false);
              Walks(c, from, TaskRun(if failed.status == TaskBlocked || attempt + 1 >= MAX_ATTEMPTS then Returned(false)
                                     else WantsSlot(attempt + 1), failed))
    ensures w.reply(attempt) == Quota ==>
              Walks(c, from, if w.fallback == Some(Ok) then TaskRun(Returned(true), AfterAttempt(task, true))
                             else TaskRun(Returned(false), task))
  {
    var t := TaskRun(WantsSlot(attempt), task);
    WalksOneMore(c, from, t, Grant);
    t := TaskRun(Dispatching(attempt), task);
    var reply := ApplyRun.Reply(w.reply(attempt), false);
    WalksOneMore(c, from, t, reply);
    if w.reply(attempt) == Quota && w.fallback.Some? {
      WalksOneMore(c, from, TaskAfter(c, t, reply), FallbackReply(w.fallback.value == Ok));
    }
  }

  // --- the operation ---

  /** A dispatch that got its slot: it wins, meets a quota stop, or fails and counts as an attempt. */
  method Attempt(task: Task, w: World, attempt: nat, ghost n: nat)
      returns (over: bool, ok: bool, failed: bool, fallback: nat)
    requires Dispatched(w, attempt) && attempt < Tries(n) && task.Value() == AfterFailures(n, attempt)
    modifies task
    ensures ok <==> Wins(w, attempt)
    ensures failed <==> OrdinaryFailure(w, attempt)
    ensures over <==> !failed || attempt + 1 == Tries(n)
    ensures task.Value() == if ok then TaskState(TaskDone, n + attempt + 1) else AfterFailures(n, attempt + if failed then 1 else 0)
    ensures fallback == if MeetsFallback(w, attempt) then 1 else 0
  {
    var reply := w.reply(attempt);
    fallback := 0;
    if reply == Quota {
      if w.fallback.Some? {
        fallback := 1;
        if w.fallback.value == Ok {
          var _ := task.RecordAttempt(true);
          return true, true, false, fallback;
        }
      }
      var released := task.Release();  // refused: the task was never claimed in memory
      return true, false, false, fallback;
    }
    var escalate := task.RecordAttempt(reply == Ok);
    return reply == Ok || escalate, reply == Ok, reply == Fail, fallback;
  }

  /** What the world makes of a pending task with n recorded attempts. `failures` counts the ordinary
      failures before the attempt that decided; everything else follows from it and from what that
      attempt saw. */
  ghost predicate Decides(w: World, n: nat, r: Stats, task: TaskState, row: TaskState) {
    && r.failures <= Tries(n) && (forall i :: 0 <= i < r.failures ==> OrdinaryFailure(w, i))
    && (r.failures < Tries(n) ==> !OrdinaryFailure(w, r.failures))
    // the outcome and the task in memory
    && (r.ok <==> r.failures < Tries(n) && Wins(w, r.failures))
    && task == (if r.ok then TaskState(TaskDone, n + r.failures + 1) else AfterFailures(n, r.failures))
    // dispatches and slots
    && r.primary == r.failures + (if r.failures < Tries(n) && Dispatched(w, r.failures) then 1 else 0)
    && r.fallback == (if r.failures < Tries(n) && MeetsFallback(w, r.failures) then 1 else 0)
    && r.acquires == r.releases == r.primary <= 3
    // the stored row: claimed, until a decision or a failed attempt is saved over it
    && row == if r.failures == 0 && !r.ok && !QuotaStops(w, 0) then TaskState(TaskClaimed, n) else task
  }

  predicate MeetsFallback(w: World, i: nat) {
    Dispatched(w, i) && w.reply(i) == Quota && w.fallback.Some?
  }

  /** The context ended or the governor refused before attempt k. */
  lemma StoppedBefore(w: World, n: nat, k: nat)
    requires k < Tries(n) && (forall i :: 0 <= i < k ==> OrdinaryFailure(w, i)) && !Dispatched(w, k)
    ensures Decides(w, n, Stats(false, k, k, 0, k, k), AfterFailures(n, k),
                    if k == 0 then TaskState(TaskClaimed, n) else AfterFailures(n, k))
  {
  }

  /** Attempt k won, met a quota stop, or was the last ordinary failure. */
  lemma DecidedBy(w: World, n: nat, k: nat, ok: bool, failed: bool, fallback: nat, task: TaskState)
    requires k < Tries(n) && (forall i :: 0 <= i < k ==> OrdinaryFailure(w, i)) && Dispatched(w, k)
    requires ok == Wins(w, k) && failed == OrdinaryFailure(w, k) && (failed ==> k + 1 == Tries(n))
    requires fallback == (if MeetsFallback(w, k) then 1 else 0)
    requires task == if ok then TaskState(TaskDone, n + k + 1) else AfterFailures(n, k + if failed then 1 else 0)
    ensures Decides(w, n, Stats(ok, k + (if failed then 1 else 0), k + 1, fallback, k + 1, k + 1), task, task)
  {
  }

  /** Blocked exactly if every try left was an ordinary failure. */
  lemma BlockedIff(w: World, n: nat, r: Stats, task: TaskState, row: TaskState)
    requires Decides(w, n, r, task, row)
    ensures task.status == TaskBlocked <==> forall i :: 0 <= i < Tries(n) ==> OrdinaryFailure(w, i)
  {
    if r.failures < Tries(n) {
      assert !OrdinaryFailure(w, r.failures);
    }
  }

  /** The stored row can be claimed again exactly if the very first attempt met a quota stop. */
  lemma ClaimableIff(w: World, n: nat, r: Stats, task: TaskState, row: TaskState)
    requires Decides(w, n, r, task, row)
    ensures row.status == TaskPending <==> QuotaStops(w, 0)
  {
    if r.failures > 0 {
      assert OrdinaryFailure(w, 0);
    }
  }

  lemma OneMoreFailure(n: nat, k: nat)
    requires k < Tries(n)
    ensures AfterAttempt(AfterFailures(n, k), false) == AfterFailures(n, k + 1)
    ensures AfterFailures(n, k + 1).status == TaskBlocked <==> k + 1 == Tries(n)
    ensures k + 1 < Tries(n) ==> k + 1 < MAX_ATTEMPTS
  {
  }

  lemma {:induction false} FailuresWalk(c: Config, w: World, from: TaskRun, n: nat, k: nat)
    requires Walks(c, from, TaskRun(WantsSlot(0), TaskState(TaskPending, n))) && c.fallback == w.fallback.Some?
    requires k < Tries(n) && forall i :: 0 <= i < k ==> OrdinaryFailure(w, i)
    ensures Walks(c, from, TaskRun(WantsSlot(k), AfterFailures(n, k)))
  {
    if k > 0 {
      FailuresWalk(c, w, from, n, k - 1);
      OneMoreFailure(n, k - 1);
      assert OrdinaryFailure(w, k - 1);
      WalksAttempt(c, w, from, k - 1, AfterFailures(n, k - 1));
    }
  }

  /** Whatever the world decides, a goroutine of the interleaved machine can do. */
  lemma DecidedIsWalk(c: Config, w: World, from: TaskRun, n: nat, r: Stats, task: TaskState, row: TaskState)
    requires Walks(c, from, TaskRun(WantsSlot(0), TaskState(TaskPending, n))) && c.fallback == w.fallback.Some?
    requires Decides(w, n, r, task, row)
    ensures Walks(c, from, TaskRun(Returned(r.ok), task))
  {
    var k := if r.failures < Tries(n) then r.failures else Tries(n) - 1;
    FailuresWalk(c, w, from, n, k);
    OneMoreFailure(n, k);
    assert k < r.failures ==> OrdinaryFailure(w, k);
    if Dispatched(w, k) {
      WalksAttempt(c, w, from, k, AfterFailures(n, k));
    } else {
      WalksOneMore(c, from, TaskRun(WantsSlot(k), AfterFailures(n, k)), Refuse);
    }
  }

  method DispatchClaimed(task: Task, w: World) returns (r: Stats, row: TaskState)
    requires task.status == TaskPending
    modifies task
    ensures Decides(w, old(task.attempts), r, task.Value(), row)
    ensures task.status == TaskBlocked <==> forall i :: 0 <= i < Tries(old(task.attempts)) ==> OrdinaryFailure(w, i)
  {
    row := TaskState(TaskClaimed, task.attempts);  // BoardRepo.ClaimTask changes the stored row only
    ghost var n := task.attempts;
    r := Stats(false, 0, 0, 0, 0, 0);
    for attempt := 0 to MAX_ATTEMPTS
      invariant attempt < Tries(n) && task.Value() == AfterFailures(n, attempt)
      invariant forall i :: 0 <= i < attempt ==> OrdinaryFailure(w, i)
      invariant r == Stats(false, attempt, attempt, 0, attempt, attempt)
      invariant row == if attempt == 0 then TaskState(TaskClaimed, n) else task.Value()
    {
      if w.cancelled(attempt) || !w.granted(attempt) {
        StoppedBefore(w, n, attempt);
        break;
      }
      var over, ok, failed, fallback := Attempt(task, w, attempt, n);
      row := task.Value();
      r := Stats(ok, r.failures + (if failed then 1 else 0), r.primary + 1, fallback, r.acquires + 1, r.releases + 1);
      if over {
        DecidedBy(w, n, attempt, ok, failed, fallback, row);
        break;
      }
    }
    BlockedIff(w, n, r, task.Value(), row);
  }

  /** The whole operation: a finished task is left alone, a task whose stored row is not pending
      cannot be claimed, and a pending task goes through the attempts. Whatever happens is what a
      goroutine of the interleaved machine can do from its queue. */
  method RunImplementWithRetry(task: Task, w: World, ghost c: Config) returns (r: Stats, row: TaskState)
    requires c.fallback == w.fallback.Some?
    modifies task
    ensures old(task.status) == TaskDone ==> r == Stats(true, 0, 0, 0, 0, 0)
    ensures old(task.status) != TaskDone && old(task.status) != TaskPending ==> r == Stats(false, 0, 0, 0, 0, 0)
    ensures old(task.status) != TaskPending ==> task.Value() == row == old(task.Value())
    ensures old(task.status) == TaskPending ==> Decides(w, old(task.attempts), r, task.Value(), row)
    ensures old(task.status) == TaskPending ==> (row.status == TaskPending <==> QuotaStops(w, 0))
    ensures r.ok ==> task.status == TaskDone
    ensures r.primary <= 3 && r.fallback <= 1 && r.acquires == r.releases
    ensures Walks(c, TaskRun(Queued, old(task.Value())), TaskRun(Returned(r.ok), task.Value()))
  {
    ghost var from := TaskRun(Queued, task.Value());
    WalksNowhere(c, from);
    WalksOneMore(c, from, from, Begin);
    if task.status == TaskDone {
      return Stats(true, 0, 0, 0, 0, 0), task.Value();
    }
    if task.status != TaskPending {
      return Stats(false, 0, 0, 0, 0, 0), task.Value();
    }
    ghost var n := task.attempts;
    r, row := DispatchClaimed(task, w);
    ClaimableIff(w, n, r, task.Value(), row);
    DecidedIsWalk(c, w, from, n, r, task.Value(), row);
  }

  /** The failing input: an ordinary failure and then a quota error. The row is left failed with one
      attempt, and the next Execute cannot claim it. */
  method QuotaAfterFailure(ghost c: Config) returns (row: TaskState, again: Stats)
    requires !c.fallback
    ensures row == TaskState(TaskFailed, 1) && again == Stats(false, 0, 0, 0, 0, 0)
  {
    var w := World(_ => false, _ => true, i => if i == 0 then Fail else Quota, None);
    var task := new Task(TaskPending, 0);
    var r;
    r, row := RunImplementWithRetry(task, w, c);
    assert OrdinaryFailure(w, 0) && !OrdinaryFailure(w, 1) && r.failures == 1;
    var resumed := new Task(row.status, row.attempts);
    var row';
    again, row' := RunImplementWithRetry(resumed, w, c);
  }
}

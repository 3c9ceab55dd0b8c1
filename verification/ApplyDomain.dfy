// The apply-phase aggregates: task, group and board statuses, the Iron Law #5
// attempt counter, the dispatcher's replies and the quota breaker, as values.
module ApplyDomain {

  const MAX_ATTEMPTS: nat := 3

  datatype TaskStatus = TaskPending | TaskClaimed | TaskRunning | TaskDone | TaskFailed | TaskBlocked
  datatype GroupStatus = GroupPending | GroupRunning | GroupCompleted | GroupFailed
  datatype BuildStatus = BuildPending | BuildSkipped | BuildPassed | BuildFailed

  datatype TaskState = TaskState(status: TaskStatus, attempts: nat)

  /** RecordAttempt on a task value: count the attempt, then Done, Failed or Blocked. */
  function AfterAttempt(t: TaskState, success: bool): TaskState {
    var n := t.attempts + 1;
    if success then TaskState(TaskDone, n)
    else if n >= MAX_ATTEMPTS then TaskState(TaskBlocked, n)
    else TaskState(TaskFailed, n)
  }

  datatype Reply = Ok | Fail | Quota

  datatype Breaker = Breaker(streak: nat, tripped: bool)

  /** recordQuotaOutcome: a tripped breaker ignores the outcome; otherwise the
      streak grows and the breaker trips when it reaches the threshold. */
  function AfterQuota(b: Breaker, threshold: nat): Breaker {
    if b.tripped then b else Breaker(b.streak + 1, b.streak + 1 >= threshold)
  }

  /** recordSuccess: the streak restarts, tripped or not. */
  function AfterSuccess(b: Breaker): Breaker {
    b.(streak := 0)
  }
}

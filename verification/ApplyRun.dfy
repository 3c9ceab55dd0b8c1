// One Execute of the apply phase as an interleaved machine. Every group has a
// goroutine (runAllGroups), every running group has one goroutine per task
// (runTeamLead), and all of them share the one-slot completion channels, the
// group semaphore, the spawn governor's counter and the quota breaker.
//
// A group is identified by its position on the board; a dependency outside the
// board stands for an id without a channel. Waiting is not a step: a goroutine
// that polls or blocks simply has no enabled action. Writing the results map is
// merged with the neighbouring Signal, since nobody reads it before wg.Wait.
module ApplyRun {
  import opened ApplyDomain
  import opened Options
  import opened Sums
  import Graphs

  datatype GroupSpec = GroupSpec(
    deps: seq<nat>,
    status: GroupStatus,
    tasks: seq<TaskState>,
    build: BuildStatus,
    buildAttempts: nat)

  datatype Config = Config(
    groups: seq<GroupSpec>,
    groupCap: nat,      // MaxParallelGroups
    implCap: nat,       // MaxParallelImplementsPerGroup
    maxSlots: nat,      // spawn governor Max
    otherSlots: nat,    // slots held outside this Execute
    threshold: nat,     // quota breaker threshold
    fallback: bool,     // a fallback model is configured
    cancellable: bool)  // the caller may cancel the context

  // --- goroutine states ---

  datatype TaskPc =
    | Queued                      // waiting for the per-group implement semaphore
    | WantsSlot(attempt: nat)     // polling the spawn governor
    | Dispatching(attempt: nat)   // holding a spawn slot
    | FallingBack                 // fallback dispatch, which takes no slot
    | Returned(ok: bool)          // outcome stored in taskOutcomes
    | Abandoned                   // cancelled while queued; no outcome stored

  datatype TaskRun = TaskRun(pc: TaskPc, task: TaskState)

  datatype Outcome = Outcome(failed: bool, tasksDone: nat)

  datatype GroupPc =
    | Skipping                                          // completed in an earlier Execute
    | Waiting(i: nat)                                   // blocked on the channel of deps[i]
    | Republishing(i: nat, dep: nat, depFailed: bool)   // took the token of deps[i], must put it back
    | WantsGroup                                        // before the group semaphore
    | WantsLead                                         // polling for the team-lead's own slot
    | Leading                                           // task goroutines are running
    | Detecting                                         // tasks joined, looking for a build manifest
    | Building                                          // inside the build feedback loop
    | Leaving(outcome: Outcome)                         // team-lead returned, slot still held
    | Reporting(outcome: Outcome)                       // slot released, outcome not yet published
    | Closing                                           // published, semaphore still held
    | Finished

  datatype GroupRun = GroupRun(
    deps: seq<nat>,
    pc: GroupPc,
    degraded: bool,
    tasks: seq<TaskRun>,
    status: GroupStatus,
    build: BuildStatus,
    buildAttempts: nat,
    sent: seq<bool>,             // history: the failed flags this group signalled
    result: Option<Outcome>,
    entered: nat)                // history: how often runTeamLead was entered

  datatype State = State(
    gs: seq<GroupRun>,
    channels: seq<Option<bool>>,
    sem: nat,
    active: nat,
    leaked: nat,                 // history: releases lost to a cancelled context
    breaker: Breaker,
    cancelled: bool,
    faulted: bool)               // history: a timeout, an unknown dependency or a refused acquire

  datatype TaskAction =
    | Begin | ClaimFails | Abandon | Grant | Refuse
    | Reply(reply: Reply, lost: bool)
    | FallbackReply(ok: bool)

  datatype Action =
    | Skip(g: nat)
    | Receive(g: nat)
    | Republish(g: nat)
    | WaitFails(g: nat)
    | TakeGroup(g: nat)
    | DropGroup(g: nat)
    | TakeLead(g: nat)
    | RefuseLead(g: nat)
    | TaskStep(g: nat, t: nat, act: TaskAction)
    | Join(g: nat)
    | NoManifest(g: nat)
    | Manifest(g: nat)
    | Build(g: nat, ok: bool)
    | ReleaseLead(g: nat, lost: bool)
    | Report(g: nat)
    | Close(g: nat)
    | Cancel

  // --- weights ---

  predicate HoldsImpl(t: TaskRun) {
    t.pc.WantsSlot? || t.pc.Dispatching? || t.pc.FallingBack?
  }

  predicate Settled(t: TaskRun) {
    t.pc.Returned? || t.pc.Abandoned?
  }

  function ImplWeight(t: TaskRun): nat { if HoldsImpl(t) then 1 else 0 }
  function DispatchWeight(t: TaskRun): nat { if t.pc.Dispatching? then 1 else 0 }
  function OkWeight(t: TaskRun): nat { if t.pc == Returned(true) then 1 else 0 }

  predicate HoldsSem(g: GroupRun) {
    g.pc.WantsLead? || HoldsLead(g) || g.pc.Reporting? || g.pc.Closing?
  }

  predicate HoldsLead(g: GroupRun) {
    g.pc.Leading? || g.pc.Detecting? || g.pc.Building? || g.pc.Leaving?
  }

  function SemWeight(g: GroupRun): nat { if HoldsSem(g) then 1 else 0 }
  function LeadWeight(g: GroupRun): nat { if HoldsLead(g) then 1 else 0 }
  function ImplSlots(g: GroupRun): nat { Sum(g.tasks, DispatchWeight) }
  function SlotWeight(g: GroupRun): nat { LeadWeight(g) + ImplSlots(g) }

  predicate InHand(g: GroupRun, d: nat) {
    g.pc.Republishing? && g.pc.dep == d
  }

  function HandWeight(d: nat): GroupRun -> nat {
    (g: GroupRun) => if InHand(g, d) then 1 else 0
  }

  function TasksDone(g: GroupRun): nat { Sum(g.tasks, OkWeight) }

  // --- initial state ---

  function AfterDep(deps: seq<nat>, i: nat): GroupPc {
    if i < |deps| then Waiting(i) else WantsGroup
  }

  function InitTasks(ts: seq<TaskState>): (r: seq<TaskRun>)
    ensures |r| == |ts|
    ensures forall i :: 0 <= i < |r| ==> r[i] == TaskRun(Queued, ts[i])
  {
    seq(|ts|, i requires 0 <= i < |ts| => TaskRun(Queued, ts[i]))
  }

  function InitGroup(g: GroupSpec): GroupRun {
    GroupRun(g.deps, if g.status == GroupCompleted then Skipping else AfterDep(g.deps, 0), false,
             InitTasks(g.tasks), g.status, g.build, g.buildAttempts, [], None, 0)
  }

  function Init(c: Config): State {
    State(seq(|c.groups|, i requires 0 <= i < |c.groups| => InitGroup(c.groups[i])),
          seq(|c.groups|, i => None),
          0, c.otherSlots, 0, Breaker(0, false), false, false)
  }

  // --- when an action is enabled ---

  predicate AllSettled(r: GroupRun) {
    forall t :: 0 <= t < |r.tasks| ==> Settled(r.tasks[t])
  }

  predicate HadFailure(r: GroupRun) {
    exists t :: 0 <= t < |r.tasks| && r.tasks[t].pc == Returned(false)
  }

  /** The action fits the state of the task goroutine itself. */
  predicate TaskReady(t: TaskRun, act: TaskAction) {
    match act
    case Begin => t.pc.Queued?
    case ClaimFails => t.pc.Queued? && t.task.status != TaskDone
    case Abandon => t.pc.Queued?
    case Grant => t.pc.WantsSlot?
    case Refuse => t.pc.WantsSlot?
    case Reply(_, _) => t.pc.Dispatching?
    case FallbackReply(_) => t.pc.FallingBack?
  }

  predicate TaskEnabled(c: Config, s: State, r: GroupRun, t: nat, act: TaskAction) {
    r.pc.Leading? && t < |r.tasks| && TaskReady(r.tasks[t], act) &&
    match act
    case Begin => Sum(r.tasks, ImplWeight) < c.implCap
    case ClaimFails => Sum(r.tasks, ImplWeight) < c.implCap
    case Abandon => s.cancelled
    case Grant => s.active < c.maxSlots
    case Reply(_, lost) => lost ==> s.cancelled
    case _ => true
  }

  /** The action fits the state of the group goroutine itself. */
  predicate Ready(r: GroupRun, a: Action) {
    match a
    case Skip(_) => r.pc.Skipping?
    case Receive(_) => r.pc.Waiting? && r.pc.i < |r.deps|
    case Republish(_) => r.pc.Republishing?
    case WaitFails(_) => r.pc.Waiting?
    case TakeGroup(_) => r.pc.WantsGroup?
    case DropGroup(_) => r.pc.WantsGroup?
    case TakeLead(_) => r.pc.WantsLead?
    case RefuseLead(_) => r.pc.WantsLead?
    case TaskStep(_, t, act) => r.pc.Leading? && t < |r.tasks| && TaskReady(r.tasks[t], act)
    case Join(_) => r.pc.Leading? && AllSettled(r)
    case NoManifest(_) => r.pc.Detecting?
    case Manifest(_) => r.pc.Detecting?
    case Build(_, _) => r.pc.Building?
    case ReleaseLead(_, _) => r.pc.Leaving?
    case Report(_) => r.pc.Reporting?
    case Close(_) => r.pc.Closing?
    case Cancel => true
  }

  predicate Enabled(c: Config, s: State, a: Action) {
    if a.Cancel? then c.cancellable && !s.cancelled else
    a.g < |s.gs| && Ready(s.gs[a.g], a) &&
    var r := s.gs[a.g];
    match a
    case Receive(_) => r.deps[r.pc.i] < |s.channels| && s.channels[r.deps[r.pc.i]].Some?
    case TakeGroup(_) => s.sem < c.groupCap
    case DropGroup(_) => s.cancelled
    case TakeLead(_) => s.active < c.maxSlots
    case TaskStep(_, t, act) => TaskEnabled(c, s, r, t, act)
    case ReleaseLead(_, lost) => lost ==> s.cancelled
    case _ => true
  }

  // --- what an action does to its own goroutine ---

  /** A task goroutine once its claim is decided: done before, claimed, or refused. */
  function Claim(t: TaskState): TaskPc {
    if t.status == TaskDone then Returned(true)
    else if t.status == TaskPending then WantsSlot(0)
    else Returned(false)
  }

  function AfterReply(c: Config, t: TaskRun, reply: Reply): TaskRun
    requires t.pc.Dispatching?
  {
    match reply
    case Ok => TaskRun(Returned(true), AfterAttempt(t.task, true))
    case Fail =>
      var task := AfterAttempt(t.task, false);
      if task.status == TaskBlocked || t.pc.attempt + 1 >= MAX_ATTEMPTS then TaskRun(Returned(false), task)
      else TaskRun(WantsSlot(t.pc.attempt + 1), task)
    case Quota => if c.fallback then t.(pc := FallingBack) else t.(pc := Returned(false))
  }

  function TaskAfter(c: Config, t: TaskRun, act: TaskAction): TaskRun
    requires TaskReady(t, act)
  {
    match act
    case Begin => t.(pc := Claim(t.task))
    case ClaimFails => t.(pc := Returned(false))
    case Abandon => t.(pc := Abandoned)
    case Grant => t.(pc := Dispatching(t.pc.attempt))
    case Refuse => t.(pc := Returned(false))
    case Reply(reply, _) => AfterReply(c, t, reply)
    case FallbackReply(ok) => if ok then TaskRun(Returned(true), AfterAttempt(t.task, true)) else t.(pc := Returned(false))
  }

  /** The end of a group: its signal and its entry in the results map. */
  function Announced(r: GroupRun, failed: bool, result: Option<Outcome>, pc: GroupPc): GroupRun {
    r.(pc := pc, sent := r.sent + [failed], result := result)
  }

  function GroupAfter(c: Config, r: GroupRun, a: Action, token: bool): GroupRun
    requires Ready(r, a)
  {
    match a
    case Skip(_) => Announced(r, false, Some(Outcome(false, |r.tasks|)), Finished)
    case Receive(_) => r.(pc := Republishing(r.pc.i, r.deps[r.pc.i], token))
    case Republish(_) =>
      r.(pc := if r.pc.depFailed then WantsGroup else AfterDep(r.deps, r.pc.i + 1), degraded := r.pc.depFailed)
    case WaitFails(_) => Announced(r, true, Some(Outcome(true, 0)), Finished)
    case TakeGroup(_) => r.(pc := WantsLead)
    case DropGroup(_) => Announced(r, true, None, Finished)
    case TakeLead(_) =>
      if r.status == GroupPending then r.(pc := Leading, status := GroupRunning, entered := r.entered + 1)
      else r.(pc := Leaving(Outcome(true, 0)), entered := r.entered + 1)
    case RefuseLead(_) => Announced(r, true, Some(Outcome(true, 0)), Closing)
    case TaskStep(_, t, act) => r.(tasks := r.tasks[t := TaskAfter(c, r.tasks[t], act)])
    case Join(_) =>
      if HadFailure(r) then r.(pc := Leaving(Outcome(true, TasksDone(r))), status := GroupFailed)
      else r.(pc := Detecting)
    case NoManifest(_) =>
      if r.build == BuildPending then
        r.(pc := Leaving(Outcome(false, TasksDone(r))), build := BuildSkipped, status := GroupCompleted)
      else
        r.(pc := Leaving(Outcome(true, TasksDone(r))), status := GroupFailed)
    case Manifest(_) => r.(pc := Building)
    case Build(_, ok) =>
      var r' := r.(buildAttempts := r.buildAttempts + 1);
      if ok then
        r'.(pc := Leaving(Outcome(false, TasksDone(r))), build := BuildPassed, status := GroupCompleted)
      else if r'.buildAttempts >= MAX_ATTEMPTS then
        r'.(pc := Leaving(Outcome(true, TasksDone(r))), build := BuildFailed, status := GroupFailed)
      else r'
    case ReleaseLead(_, _) => r.(pc := Reporting(r.pc.outcome))
    case Report(_) => Announced(r, r.pc.outcome.failed, Some(r.pc.outcome), Closing)
    case Close(_) => r.(pc := Finished)
    case Cancel => r
  }

  // --- what an action does to the shared state ---

  /** DAGCoordinator.Signal: a non-blocking send into a one-slot channel. */
  function Send(ch: seq<Option<bool>>, g: nat, failed: bool): seq<Option<bool>> {
    if g < |ch| && ch[g].None? then ch[g := Some(failed)] else ch
  }

  function ChannelsAfter(ch: seq<Option<bool>>, r: GroupRun, a: Action): seq<Option<bool>>
    requires Ready(r, a)
  {
    match a
    case Skip(g) => Send(ch, g, false)
    case Receive(_) => if r.deps[r.pc.i] < |ch| then ch[r.deps[r.pc.i] := None] else ch
    case Republish(_) => Send(ch, r.pc.dep, r.pc.depFailed)
    case WaitFails(g) => Send(ch, g, true)
    case DropGroup(g) => Send(ch, g, true)
    case RefuseLead(g) => Send(ch, g, true)
    case Report(g) => Send(ch, g, r.pc.outcome.failed)
    case _ => ch
  }

  function SemAfter(sem: nat, a: Action): nat {
    if a.TakeGroup? then sem + 1
    else if a.Close? && sem > 0 then sem - 1
    else sem
  }

  predicate TakesSlot(a: Action) {
    a.TakeLead? || (a.TaskStep? && a.act.Grant?)
  }

  predicate FreesSlot(a: Action) {
    a.ReleaseLead? || (a.TaskStep? && a.act.Reply?)
  }

  /** The release ran on a cancelled context and never reached the counter. */
  predicate LosesSlot(a: Action) {
    if a.ReleaseLead? then a.lost else a.TaskStep? && a.act.Reply? && a.act.lost
  }

  /** The governor's counter: test-and-increment Acquire, decrement clamped at zero. */
  function ActiveAfter(active: nat, a: Action): nat {
    if TakesSlot(a) then active + 1
    else if FreesSlot(a) && !LosesSlot(a) && active > 0 then active - 1
    else active
  }

  function BreakerAfter(c: Config, b: Breaker, a: Action): Breaker {
    if !a.TaskStep? then b else
    match a.act
    case Reply(Ok, _) => AfterSuccess(b)
    case Reply(Quota, _) => if c.fallback then b else AfterQuota(b, c.threshold)
    case FallbackReply(ok) => if ok then AfterSuccess(b) else AfterQuota(b, c.threshold)
    case _ => b
  }

  /** Environmental failures: dependency timeout or unknown dependency, refused claim, refused acquire. */
  predicate Faulty(a: Action) {
    a.WaitFails? || a.RefuseLead? || (a.TaskStep? && (a.act.ClaimFails? || a.act.Refuse?))
  }

  /** The token a Receive takes out of its channel. */
  function Token(s: State, a: Action): bool
    requires !a.Cancel? ==> a.g < |s.gs| && Ready(s.gs[a.g], a)
  {
    if !a.Receive? then false else
    var d := s.gs[a.g].deps[s.gs[a.g].pc.i];
    d < |s.channels| && s.channels[d] == Some(true)
  }

  function Next(c: Config, s: State, a: Action): State
    requires Enabled(c, s, a)
  {
    if a.Cancel? then s.(cancelled := true) else
    var r := s.gs[a.g];
    var breaker := BreakerAfter(c, s.breaker, a);
    State(
      s.gs[a.g := GroupAfter(c, r, a, Token(s, a))],
      ChannelsAfter(s.channels, r, a),
      SemAfter(s.sem, a),
      ActiveAfter(s.active, a),
      if LosesSlot(a) then s.leaked + 1 else s.leaked,
      breaker,
      s.cancelled || breaker.tripped,
      s.faulted || (Faulty(a) && !s.cancelled))
  }

  ghost predicate Step(c: Config, s: State, s': State) {
    exists a :: Enabled(c, s, a) && s' == Next(c, s, a)
  }

  /** A run: the initial state followed by any interleaving of steps. */
  ghost predicate IsRun(c: Config, run: seq<State>) {
    |run| > 0 && run[0] == Init(c) &&
    forall i :: 0 <= i < |run| - 1 ==> Step(c, run[i], run[i + 1])
  }

  ghost predicate Reachable(c: Config, s: State) {
    exists run :: IsRun(c, run) && run[|run| - 1] == s
  }

  predicate AllFinished(s: State) {
    forall g :: 0 <= g < |s.gs| ==> s.gs[g].pc.Finished?
  }

  /** Who waits for whom, by position; dependencies outside the board are not edges. */
  function WaitGraph(c: Config): Graphs.Graph {
    map g | 0 <= g < |c.groups| :: c.groups[g].deps
  }
}

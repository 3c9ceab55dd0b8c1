// What every step of an apply run keeps.
module ApplyInvariants {
  import opened ApplyDomain
  import opened Options
  import opened ApplyRun
  import opened Sums

  predicate WellFormed(c: Config) {
    c.groupCap >= 1 && c.implCap >= 1 && c.threshold >= 1 && c.otherSlots <= c.maxSlots
  }

  predicate Shape(c: Config, s: State) {
    |s.gs| == |s.channels| == |c.groups| &&
    forall g :: 0 <= g < |s.gs| ==> s.gs[g].deps == c.groups[g].deps && |s.gs[g].tasks| == |c.groups[g].tasks|
  }

  // --- counters: semaphore, governor, breaker ---

  ghost predicate Counters(c: Config, s: State) {
    && s.sem == Sum(s.gs, SemWeight)
    && s.sem <= c.groupCap
    && s.active == c.otherSlots + s.leaked + Sum(s.gs, SlotWeight)
    && s.active <= c.maxSlots
    && (s.leaked > 0 ==> s.cancelled)
  }

  predicate Flags(c: Config, s: State) {
    && (s.breaker.tripped ==> s.cancelled)
    && (s.cancelled && !c.cancellable ==> s.breaker.tripped)
    && (!s.breaker.tripped ==> s.breaker.streak < c.threshold)
  }

  // --- signal tokens ---

  function ChannelWeight(ch: Option<bool>): nat { if ch.Some? then 1 else 0 }

  ghost predicate Kept(s: State, d: nat)
    requires d < |s.gs| == |s.channels|
  {
    && ChannelWeight(s.channels[d]) + Sum(s.gs, HandWeight(d)) == |s.gs[d].sent|
    && |s.gs[d].sent| <= 1
    && (s.channels[d].Some? ==> s.gs[d].sent == [s.channels[d].value])
  }

  predicate HandOk(s: State, r: GroupRun) {
    r.pc.Republishing? ==> r.pc.dep < |s.gs| && s.gs[r.pc.dep].sent == [r.pc.depFailed]
  }

  ghost predicate Tokens(s: State)
    requires |s.gs| == |s.channels|
  {
    && (forall d :: 0 <= d < |s.gs| ==> Kept(s, d))
    && (forall g :: 0 <= g < |s.gs| ==> HandOk(s, s.gs[g]))
  }

  // --- waiting ---

  /** The first k dependencies of r have all signalled success. */
  predicate SucceededUpTo(s: State, r: GroupRun, k: nat)
  {
    k <= |r.deps| && forall j :: 0 <= j < k ==> r.deps[j] < |s.gs| && s.gs[r.deps[j]].sent == [false]
  }

  predicate FirstFailureAt(s: State, r: GroupRun, k: nat) {
    k < |r.deps| && SucceededUpTo(s, r, k) && r.deps[k] < |s.gs| && s.gs[r.deps[k]].sent == [true]
  }

  predicate PastWaiting(r: GroupRun) {
    r.pc.WantsGroup? || HoldsSem(r) || r.entered > 0
  }

  ghost predicate Waited(s: State, r: GroupRun) {
    && (r.pc.Waiting? ==> SucceededUpTo(s, r, r.pc.i))
    && (r.pc.Republishing? ==> SucceededUpTo(s, r, r.pc.i))
    && (PastWaiting(r) ==>
          if r.degraded then exists k :: FirstFailureAt(s, r, k)
          else SucceededUpTo(s, r, |r.deps|))
  }

  ghost predicate Waits(s: State) {
    forall g :: 0 <= g < |s.gs| ==> Waited(s, s.gs[g])
  }

  // --- local facts of one group ---

  predicate TaskLocal(t0: TaskState, t: TaskRun, cancelled: bool) {
    match t.pc
    case Queued => t.task == t0
    case WantsSlot(a) => TrialOk(t0, t.task, a)
    case Dispatching(a) => TrialOk(t0, t.task, a)
    case FallingBack => t.task.status != TaskDone
    case Returned(ok) => ok <==> t.task.status == TaskDone
    case Abandoned => cancelled && t.task == t0
  }

  /** The a-th trial of a claimed task: a ordinary failures were recorded so far. */
  predicate TrialOk(t0: TaskState, t: TaskState, a: nat) {
    t0.status == TaskPending && a < MAX_ATTEMPTS && t.attempts == t0.attempts + a &&
    (a == 0 ==> t == t0) && (a > 0 ==> t.status == TaskFailed)
  }

  predicate TasksLocal(spec: GroupSpec, r: GroupRun, cancelled: bool) {
    |r.tasks| == |spec.tasks| &&
    forall t :: 0 <= t < |r.tasks| ==> TaskLocal(spec.tasks[t], r.tasks[t], cancelled)
  }

  predicate Untouched(spec: GroupSpec, r: GroupRun) {
    r.tasks == InitTasks(spec.tasks) && r.status == spec.status && r.build == spec.build &&
    r.buildAttempts == spec.buildAttempts && r.entered == 0
  }

  /** What the outcome of a team-lead says about its group. */
  predicate Reported(spec: GroupSpec, r: GroupRun, o: Outcome, cancelled: bool) {
    r.entered == 1 && spec.status != GroupCompleted && TasksLocal(spec, r, cancelled) &&
    if spec.status != GroupPending then o == Outcome(true, 0) && r.tasks == InitTasks(spec.tasks)
    else
      && AllSettled(r) && o.tasksDone == TasksDone(r)
      && (!o.failed ==> !HadFailure(r) && (r.build == BuildPassed || r.build == BuildSkipped) && r.status == GroupCompleted)
      && (o.failed ==> r.status == GroupFailed && (HadFailure(r) || r.build == BuildFailed || spec.build != BuildPending))
  }

  predicate Ended(spec: GroupSpec, r: GroupRun, cancelled: bool, faulted: bool) {
    match r.result
    case Some(o) =>
      r.sent == [o.failed] &&
      if r.entered > 0 then Reported(spec, r, o, cancelled)
      else if spec.status == GroupCompleted then Untouched(spec, r) && o == Outcome(false, |r.tasks|)
      else Untouched(spec, r) && o == Outcome(true, 0) && (cancelled || faulted)
    case None => r.sent == [true] && Untouched(spec, r) && cancelled
  }

  predicate Local(spec: GroupSpec, r: GroupRun, cancelled: bool, faulted: bool) {
    r.deps == spec.deps && |r.tasks| == |spec.tasks| &&
    match r.pc
    case Skipping => Untouched(spec, r) && r.sent == [] && spec.status == GroupCompleted
    case Waiting(i) => Untouched(spec, r) && r.sent == [] && spec.status != GroupCompleted && i < |r.deps| && !r.degraded
    case Republishing(i, d, _) =>
      Untouched(spec, r) && r.sent == [] && spec.status != GroupCompleted && i < |r.deps| && r.deps[i] == d && !r.degraded
    case WantsGroup => Untouched(spec, r) && r.sent == [] && spec.status != GroupCompleted
    case WantsLead => Untouched(spec, r) && r.sent == [] && spec.status != GroupCompleted
    case Leading => r.sent == [] && r.entered == 1 && spec.status == GroupPending &&
                    r.build == spec.build && TasksLocal(spec, r, cancelled)
    case Detecting => r.sent == [] && r.entered == 1 && spec.status == GroupPending &&
                      r.build == spec.build && TasksLocal(spec, r, cancelled) && AllSettled(r) && !HadFailure(r)
    case Building => r.sent == [] && r.entered == 1 && spec.status == GroupPending &&
                     TasksLocal(spec, r, cancelled) && AllSettled(r) && !HadFailure(r)
    case Leaving(o) => r.sent == [] && Reported(spec, r, o, cancelled)
    case Reporting(o) => r.sent == [] && Reported(spec, r, o, cancelled)
    case Closing => Ended(spec, r, cancelled, faulted)
    case Finished => Ended(spec, r, cancelled, faulted)
  }

  ghost predicate Locals(c: Config, s: State)
    requires Shape(c, s)
  {
    forall g :: 0 <= g < |s.gs| ==> Local(c.groups[g], s.gs[g], s.cancelled, s.faulted)
  }

  ghost predicate Inv(c: Config, s: State) {
    Shape(c, s) && Counters(c, s) && Flags(c, s) && Tokens(s) && Waits(s) && Locals(c, s)
  }

  // --- initially ---

  lemma InitLocal(spec: GroupSpec)
    ensures Local(spec, InitGroup(spec), false, false)
    ensures SlotWeight(InitGroup(spec)) == 0
  {
    SumZero(InitTasks(spec.tasks), DispatchWeight);
  }

  lemma InitLocals(c: Config)
    ensures Shape(c, Init(c)) && Locals(c, Init(c)) && Sum(Init(c).gs, SlotWeight) == 0
  {
    var s := Init(c);
    forall g | 0 <= g < |s.gs| ensures Local(c.groups[g], s.gs[g], false, false) && SlotWeight(s.gs[g]) == 0 {
      InitLocal(c.groups[g]);
    }
    SumZero(s.gs, SlotWeight);
  }

  lemma InitTokens(c: Config)
    ensures Tokens(Init(c)) && Sum(Init(c).gs, SemWeight) == 0
  {
    var s := Init(c);
    SumZero(s.gs, SemWeight);
    forall d | 0 <= d < |s.gs| ensures Kept(s, d) {
      SumZero(s.gs, HandWeight(d));
    }
  }

  lemma InitInv(c: Config)
    requires WellFormed(c)
    ensures Inv(c, Init(c))
  {
    InitLocals(c);
    InitTokens(c);
  }

  // --- local facts are kept ---

  lemma LocalMonotone(spec: GroupSpec, r: GroupRun, cancelled: bool, faulted: bool, cancelled': bool, faulted': bool)
    requires Local(spec, r, cancelled, faulted)
    requires (cancelled ==> cancelled') && (faulted ==> faulted')
    ensures Local(spec, r, cancelled', faulted')
  {
  }

  lemma TaskLocalKept(c: Config, t0: TaskState, t: TaskRun, act: TaskAction, cancelled: bool)
    requires TaskReady(t, act) && TaskLocal(t0, t, cancelled) && (act.Abandon? ==> cancelled)
    ensures TaskLocal(t0, TaskAfter(c, t, act), cancelled)
  {
  }

  /** Actions before the team-lead starts. */
  predicate Early(a: Action) {
    a.Skip? || a.Receive? || a.Republish? || a.WaitFails? || a.TakeGroup? || a.DropGroup? || a.TakeLead? || a.RefuseLead?
  }

  lemma EarlyLocalKept(c: Config, spec: GroupSpec, r: GroupRun, a: Action, token: bool, cancelled: bool, faulted: bool)
    requires Early(a) && Ready(r, a) && Local(spec, r, cancelled, faulted) && (a.DropGroup? ==> cancelled)
    ensures Local(spec, GroupAfter(c, r, a, token), cancelled, faulted || (Faulty(a) && !cancelled))
  {
    match a case _ => {}
  }

  lemma BuildLocalKept(c: Config, spec: GroupSpec, r: GroupRun, a: Action, token: bool, cancelled: bool, faulted: bool)
    requires a.Join? || a.NoManifest? || a.Manifest? || a.Build?
    requires Ready(r, a) && Local(spec, r, cancelled, faulted)
    ensures Local(spec, GroupAfter(c, r, a, token), cancelled, faulted)
  {
    match a case _ => {}
  }

  lemma LateLocalKept(c: Config, spec: GroupSpec, r: GroupRun, a: Action, token: bool, cancelled: bool, faulted: bool)
    requires a.ReleaseLead? || a.Report? || a.Close?
    requires Ready(r, a) && Local(spec, r, cancelled, faulted)
    ensures Local(spec, GroupAfter(c, r, a, token), cancelled, faulted)
  {
    match a case _ => {}
  }

  lemma TaskStepLocalKept(c: Config, spec: GroupSpec, r: GroupRun, a: Action, cancelled: bool, faulted: bool)
    requires a.TaskStep? && Ready(r, a) && Local(spec, r, cancelled, faulted) && (a.act.Abandon? ==> cancelled)
    ensures Local(spec, GroupAfter(c, r, a, false), cancelled, faulted)
  {
    TaskLocalKept(c, spec.tasks[a.t], r.tasks[a.t], a.act, cancelled);
  }

  lemma GroupLocalKept(c: Config, spec: GroupSpec, r: GroupRun, a: Action, token: bool, cancelled: bool, faulted: bool)
    requires !a.Cancel? && Ready(r, a) && Local(spec, r, cancelled, faulted) && (a.TaskStep? ==> !token)
    requires a.DropGroup? || (a.TaskStep? && a.act.Abandon?) ==> cancelled
    ensures Local(spec, GroupAfter(c, r, a, token), cancelled, faulted || (Faulty(a) && !cancelled))
  {
    if Early(a) {
      EarlyLocalKept(c, spec, r, a, token, cancelled, faulted);
    } else {
      if a.TaskStep? {
        TaskStepLocalKept(c, spec, r, a, cancelled, faulted);
      } else if a.ReleaseLead? || a.Report? || a.Close? {
        LateLocalKept(c, spec, r, a, token, cancelled, faulted);
      } else {
        BuildLocalKept(c, spec, r, a, token, cancelled, faulted);
      }
      LocalMonotone(spec, GroupAfter(c, r, a, token), cancelled, faulted, cancelled, faulted || (Faulty(a) && !cancelled));
    }
  }

  lemma MoverLocalAfter(c: Config, s: State, a: Action)
    requires Enabled(c, s, a) && !a.Cancel? && a.g < |c.groups| && Local(c.groups[a.g], s.gs[a.g], s.cancelled, s.faulted)
    ensures var s' := Next(c, s, a); |s'.gs| == |s.gs| && Local(c.groups[a.g], s'.gs[a.g], s'.cancelled, s'.faulted)
  {
    var s' := Next(c, s, a);
    GroupLocalKept(c, c.groups[a.g], s.gs[a.g], a, Token(s, a), s.cancelled, s.faulted);
    LocalMonotone(c.groups[a.g], s'.gs[a.g], s.cancelled, s'.faulted, s'.cancelled, s'.faulted);
  }

  lemma OtherStays(c: Config, s: State, a: Action, g: nat)
    requires Enabled(c, s, a) && g < |s.gs| && (a.Cancel? || g != a.g)
    ensures var s' := Next(c, s, a);
            && |s'.gs| == |s.gs| && s'.gs[g] == s.gs[g]
            && (s.cancelled ==> s'.cancelled) && (s.faulted ==> s'.faulted)
  {
  }

  lemma LocalAfter(c: Config, s: State, a: Action, g: nat)
    requires Shape(c, s) && g < |s.gs| && Local(c.groups[g], s.gs[g], s.cancelled, s.faulted) && Enabled(c, s, a)
    ensures var s' := Next(c, s, a); |s'.gs| == |s.gs| && Local(c.groups[g], s'.gs[g], s'.cancelled, s'.faulted)
  {
    if !a.Cancel? && g == a.g {
      MoverLocalAfter(c, s, a);
    } else {
      OtherStays(c, s, a, g);
      LocalMonotone(c.groups[g], s.gs[g], s.cancelled, s.faulted, Next(c, s, a).cancelled, Next(c, s, a).faulted);
    }
  }

  lemma LocalsKept(c: Config, s: State, a: Action)
    requires Shape(c, s) && Locals(c, s) && Enabled(c, s, a)
    ensures Shape(c, Next(c, s, a)) && Locals(c, Next(c, s, a))
  {
    var s' := Next(c, s, a);
    forall g | 0 <= g < |s.gs| ensures Local(c.groups[g], s'.gs[g], s'.cancelled, s'.faulted) {
      LocalAfter(c, s, a, g);
    }
  }

  // --- counters are kept ---

  function One(b: bool): nat { if b then 1 else 0 }

  lemma TaskSlots(c: Config, r: GroupRun, a: Action)
    requires a.TaskStep? && Ready(r, a)
    ensures ImplSlots(GroupAfter(c, r, a, false)) + One(FreesSlot(a)) == ImplSlots(r) + One(TakesSlot(a))
  {
    SumUpdate(r.tasks, a.t, TaskAfter(c, r.tasks[a.t], a.act), DispatchWeight);
  }

  lemma GroupWeights(c: Config, r: GroupRun, a: Action, token: bool)
    requires Ready(r, a) && !a.Cancel?
    ensures var r' := GroupAfter(c, r, a, token);
            && SemWeight(r') + One(a.Close?) == SemWeight(r) + One(a.TakeGroup?)
            && SlotWeight(r') + One(FreesSlot(a)) == SlotWeight(r) + One(TakesSlot(a))
  {
    if a.TaskStep? {
      TaskSlots(c, r, a);
    }
  }

  /** How the sums of the holders move with one action. */
  lemma HoldersDelta(c: Config, s: State, a: Action)
    requires Enabled(c, s, a) && !a.Cancel?
    ensures var gs' := Next(c, s, a).gs;
            && Sum(gs', SemWeight) + One(a.Close?) == Sum(s.gs, SemWeight) + One(a.TakeGroup?)
            && Sum(gs', SlotWeight) + One(FreesSlot(a)) == Sum(s.gs, SlotWeight) + One(TakesSlot(a))
  {
    var r := s.gs[a.g];
    var r' := GroupAfter(c, r, a, Token(s, a));
    GroupWeights(c, r, a, Token(s, a));
    SumUpdate(s.gs, a.g, r', SemWeight);
    SumUpdate(s.gs, a.g, r', SlotWeight);
  }

  lemma CountersKept(c: Config, s: State, a: Action)
    requires Counters(c, s) && Enabled(c, s, a)
    ensures Counters(c, Next(c, s, a))
  {
    if !a.Cancel? {
      HoldersDelta(c, s, a);
    }
  }

  lemma FlagsKept(c: Config, s: State, a: Action)
    requires c.threshold >= 1 && Flags(c, s) && Enabled(c, s, a)
    ensures Flags(c, Next(c, s, a))
  {
  }

  // --- tokens are kept ---

  /** A group signals at most once, and a signal that was sent stays as it was. */
  lemma SentKept(c: Config, s: State, a: Action, d: nat)
    requires Shape(c, s) && Locals(c, s) && Enabled(c, s, a) && d < |s.gs|
    ensures var s' := Next(c, s, a);
            |s'.gs| == |s.gs| && |s'.gs[d].sent| <= 1 && (s.gs[d].sent != [] ==> s'.gs[d].sent == s.gs[d].sent)
  {
    LocalAfter(c, s, a, d);
  }

  /** Only Receive puts a token into a hand and only Republish takes one out. */
  lemma HandDelta(c: Config, s: State, a: Action, d: nat)
    requires Enabled(c, s, a) && !a.Cancel?
    ensures var r := s.gs[a.g];
            Sum(Next(c, s, a).gs, HandWeight(d)) + One(a.Republish? && r.pc.dep == d)
            == Sum(s.gs, HandWeight(d)) + One(a.Receive? && r.deps[r.pc.i] == d)
  {
    SumUpdate(s.gs, a.g, GroupAfter(c, s.gs[a.g], a, Token(s, a)), HandWeight(d));
  }

  /** The action signals for its own group. */
  predicate Signals(a: Action) {
    a.Skip? || a.WaitFails? || a.DropGroup? || a.RefuseLead? || a.Report?
  }

  /** The action moves the token of d: sends it, takes it, or puts it back. */
  predicate Touches(s: State, a: Action, d: nat)
    requires !a.Cancel? && a.g < |s.gs| && Ready(s.gs[a.g], a)
  {
    var r := s.gs[a.g];
    (a.g == d && Signals(a)) || (a.Receive? && r.deps[r.pc.i] == d) || (a.Republish? && r.pc.dep == d)
  }

  lemma OtherTokenStays(c: Config, s: State, a: Action, d: nat)
    requires Shape(c, s) && Enabled(c, s, a) && !a.Cancel? && d < |s.gs| && !Touches(s, a, d)
    ensures var s' := Next(c, s, a);
            && |s'.gs| == |s'.channels| == |s.gs| && s'.channels[d] == s.channels[d] && s'.gs[d].sent == s.gs[d].sent
            && Sum(s'.gs, HandWeight(d)) == Sum(s.gs, HandWeight(d))
  {
    HandDelta(c, s, a, d);
  }

  lemma TouchedTokenKept(c: Config, s: State, a: Action, d: nat)
    requires Shape(c, s) && Locals(c, s) && Tokens(s) && Enabled(c, s, a) && !a.Cancel? && d < |s.gs| && Touches(s, a, d)
    ensures var s' := Next(c, s, a); |s'.gs| == |s'.channels| == |s.gs| && Kept(s', d)
  {
    HandDelta(c, s, a, d);
    SumAtLeast(s.gs, a.g, HandWeight(d));
    assert Local(c.groups[a.g], s.gs[a.g], s.cancelled, s.faulted);
    assert Kept(s, d) && HandOk(s, s.gs[a.g]);
  }

  lemma TokenKept(c: Config, s: State, a: Action, d: nat)
    requires Shape(c, s) && Locals(c, s) && Tokens(s) && Enabled(c, s, a) && !a.Cancel? && d < |s.gs|
    ensures var s' := Next(c, s, a); |s'.gs| == |s'.channels| == |s.gs| && Kept(s', d)
  {
    if Touches(s, a, d) {
      TouchedTokenKept(c, s, a, d);
    } else {
      OtherTokenStays(c, s, a, d);
      assert Kept(s, d);
    }
  }

  lemma TokensKept(c: Config, s: State, a: Action)
    requires Shape(c, s) && Locals(c, s) && Tokens(s) && Enabled(c, s, a)
    ensures var s' := Next(c, s, a); |s'.gs| == |s'.channels| && Tokens(s')
  {
    var s' := Next(c, s, a);
    if a.Cancel? {
      forall d | 0 <= d < |s.gs| ensures Kept(s', d) { assert Kept(s, d); }
      forall g | 0 <= g < |s.gs| ensures HandOk(s', s'.gs[g]) { assert HandOk(s, s.gs[g]); }
    } else {
      forall d | 0 <= d < |s.gs| ensures Kept(s', d) { TokenKept(c, s, a, d); }
      forall g | 0 <= g < |s.gs| ensures HandOk(s', s'.gs[g]) { HandKept(c, s, a, g); }
    }
  }

  lemma OtherHandKept(c: Config, s: State, a: Action, g: nat)
    requires Shape(c, s) && Locals(c, s) && Tokens(s) && Enabled(c, s, a) && !a.Cancel? && g < |s.gs| && g != a.g
    ensures var s' := Next(c, s, a); |s'.gs| == |s.gs| && HandOk(s', s'.gs[g])
  {
    assert HandOk(s, s.gs[g]);
    assert Next(c, s, a).gs[g] == s.gs[g];
    if s.gs[g].pc.Republishing? {
      SentKept(c, s, a, s.gs[g].pc.dep);
    }
  }

  lemma MoversHandKept(c: Config, s: State, a: Action)
    requires Shape(c, s) && Locals(c, s) && Tokens(s) && Enabled(c, s, a) && !a.Cancel?
    ensures var s' := Next(c, s, a); |s'.gs| == |s.gs| && HandOk(s', s'.gs[a.g])
  {
    var r' := Next(c, s, a).gs[a.g];
    if r'.pc.Republishing? {
      assert Kept(s, r'.pc.dep);
      SentKept(c, s, a, r'.pc.dep);
    }
  }

  lemma HandKept(c: Config, s: State, a: Action, g: nat)
    requires Shape(c, s) && Locals(c, s) && Tokens(s) && Enabled(c, s, a) && !a.Cancel? && g < |s.gs|
    ensures var s' := Next(c, s, a); |s'.gs| == |s.gs| && HandOk(s', s'.gs[g])
  {
    if g == a.g {
      MoversHandKept(c, s, a);
    } else {
      OtherHandKept(c, s, a, g);
    }
  }

  // --- waiting is kept ---

  lemma SucceededKept(c: Config, s: State, a: Action, r: GroupRun, k: nat)
    requires Shape(c, s) && Locals(c, s) && Enabled(c, s, a) && SucceededUpTo(s, r, k)
    ensures SucceededUpTo(Next(c, s, a), r, k)
  {
    forall j | 0 <= j < k ensures Next(c, s, a).gs[r.deps[j]].sent == [false] {
      SentKept(c, s, a, r.deps[j]);
    }
  }

  lemma FirstFailureKept(c: Config, s: State, a: Action, r: GroupRun, k: nat)
    requires Shape(c, s) && Locals(c, s) && Enabled(c, s, a) && FirstFailureAt(s, r, k)
    ensures FirstFailureAt(Next(c, s, a), r, k)
  {
    SucceededKept(c, s, a, r, k);
    SentKept(c, s, a, r.deps[k]);
  }

  /** What a group record says about its dependencies stays true while others move. */
  lemma WaitedStable(c: Config, s: State, a: Action, r: GroupRun)
    requires Shape(c, s) && Locals(c, s) && Enabled(c, s, a) && Waited(s, r)
    ensures Waited(Next(c, s, a), r)
  {
    if r.pc.Waiting? || r.pc.Republishing? {
      SucceededKept(c, s, a, r, r.pc.i);
    }
    if PastWaiting(r) {
      if r.degraded {
        var k :| FirstFailureAt(s, r, k);
        FirstFailureKept(c, s, a, r, k);
      } else {
        SucceededKept(c, s, a, r, |r.deps|);
      }
    }
  }

  /** Apart from Republish, an action leaves a group's position in its dependency list alone. */
  lemma PlaceKept(c: Config, r: GroupRun, a: Action, token: bool)
    requires Ready(r, a) && !a.Cancel? && !a.Republish?
    ensures var r' := GroupAfter(c, r, a, token);
            && r'.deps == r.deps && r'.degraded == r.degraded && !r'.pc.Waiting?
            && (r'.pc.Republishing? ==> r.pc.Waiting? && r'.pc.i == r.pc.i)
            && (PastWaiting(r') ==> PastWaiting(r))
  {
  }

  lemma WaitedRepublish(c: Config, s: State, a: Action)
    requires Shape(c, s) && Locals(c, s) && Tokens(s) && Waits(s) && Enabled(c, s, a) && a.Republish?
    ensures Waited(s, GroupAfter(c, s.gs[a.g], a, false))
  {
    var r := s.gs[a.g];
    var r' := GroupAfter(c, r, a, false);
    assert Waited(s, r) && HandOk(s, r) && Local(c.groups[a.g], r, s.cancelled, s.faulted);
    if r.pc.depFailed {
      assert FirstFailureAt(s, r', r.pc.i);
    } else {
      assert SucceededUpTo(s, r', r.pc.i + 1);
    }
  }

  /** The group that moves: its own record afterwards fits the signals seen so far. */
  lemma WaitedMoves(c: Config, s: State, a: Action)
    requires Shape(c, s) && Locals(c, s) && Tokens(s) && Waits(s) && Enabled(c, s, a) && !a.Cancel?
    ensures Waited(s, GroupAfter(c, s.gs[a.g], a, Token(s, a)))
  {
    if a.Republish? {
      WaitedRepublish(c, s, a);
    } else {
      var r := s.gs[a.g];
      assert Waited(s, r);
      PlaceKept(c, r, a, Token(s, a));
      if PastWaiting(r) && r.degraded {
        var k :| FirstFailureAt(s, r, k);
        assert FirstFailureAt(s, GroupAfter(c, r, a, Token(s, a)), k);
      }
    }
  }

  lemma WaitsKept(c: Config, s: State, a: Action)
    requires Shape(c, s) && Locals(c, s) && Tokens(s) && Waits(s) && Enabled(c, s, a)
    ensures Waits(Next(c, s, a))
  {
    var s' := Next(c, s, a);
    forall g | 0 <= g < |s'.gs| ensures Waited(s', s'.gs[g]) {
      if !a.Cancel? && g == a.g {
        WaitedMoves(c, s, a);
      }
      WaitedStable(c, s, a, s'.gs[g]);
    }
  }

  // --- every reachable state ---

  lemma StepKeepsInv(c: Config, s: State, a: Action)
    requires WellFormed(c) && Inv(c, s) && Enabled(c, s, a)
    ensures Inv(c, Next(c, s, a))
  {
    LocalsKept(c, s, a);
    CountersKept(c, s, a);
    FlagsKept(c, s, a);
    TokensKept(c, s, a);
    WaitsKept(c, s, a);
  }

  lemma {:induction false} RunInv(c: Config, run: seq<State>, i: nat)
    requires WellFormed(c) && IsRun(c, run) && i < |run|
    ensures Inv(c, run[i])
  {
    if i == 0 {
      InitInv(c);
    } else {
      RunInv(c, run, i - 1);
      assert Step(c, run[i - 1], run[i]);
      var a :| Enabled(c, run[i - 1], a) && run[i] == Next(c, run[i - 1], a);
      StepKeepsInv(c, run[i - 1], a);
    }
  }

  lemma ReachableInv(c: Config, s: State)
    requires WellFormed(c) && Reachable(c, s)
    ensures Inv(c, s)
  {
    var run :| IsRun(c, run) && run[|run| - 1] == s;
    RunInv(c, run, |run| - 1);
  }
}

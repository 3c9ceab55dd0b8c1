// The phase service on its objects: a stored change, the phases table, and the Phase and Change it
// holds in memory while it works. Every operation is one step of the lifecycle.
module PhaseService {
  import opened PhaseDomain
  import opened PhaseTable
  import opened PhaseLifecycle

  class Service {
    const config: Config
    const repo: PhaseRepo
    var change: ChangeRow    // the stored change
    var archived: nat        // the phase.archived rows of the outbox
    var phase: Phase?        // the phase in memory, while one is being worked on
    var copy: Change?        // the change as read when the work was scheduled
    var stage: Stage

    ghost predicate Shape()
      reads this
    {
      phase == null <==> copy == null
    }

    ghost function View(): State
      requires Shape()
      reads this, repo, phase, copy
    {
      State(change, repo.rows, if phase == null then Idle else Busy(copy.View(), phase.View(), stage), archived)
    }

    ghost predicate Valid()
      reads this, repo, phase, copy
    {
      Shape() && Inv(config, View())
    }

    constructor (c: Config, r: PhaseRepo)
      requires r.rows == []
      ensures Valid() && View() == INITIAL && config == c && repo == r
    {
      config, repo := c, r;
      change, archived := ChangeRow(Active, Init), 0;
      phase, copy, stage := null, null, Fresh;
    }

    /** Schedule the work on a phase with the change as it is stored now. */
    method Schedule(p: Phase)
      requires Shape() && p != phase
      modifies this`phase, this`copy, this`stage
      ensures Shape() && phase == p && copy != null && fresh(copy) && copy.View() == change && stage == Fresh
    {
      phase := p;
      copy := new Change.Hydrate(change);
      stage := Fresh;
    }

    method Run(kind: PhaseType, budget: int, id: nat)
      requires Valid()
      modifies this, repo
      ensures Valid() && View() == Next(config, old(View()), Action.Run(kind, budget, id))
    {
      StepKeeps(config, View(), Action.Run(kind, budget, id));
      if phase != null || HasId(repo.rows, id) || !NextAllowed(change.at, kind) || !NoneLive(repo.rows) {
        return;
      }
      var p := new Phase.Hydrate(NewRow(repo.rows, kind, budget, id));
      var started := p.Start();
      if started != Ok {
        return;
      }
      PriorIsLatest(config, repo.rows, kind);
      var saved := repo.Upsert(p.View());
      if saved {
        Schedule(p);
      }
    }

    /** Start once more if it is not running, then complete as blocked; errors are dropped. */
    static method Block(p: Phase) returns (ok: bool)
      modifies p
      ensures ok <==> CanFail(old(p.View()))
      ensures ok ==> p.View() == FailedAttempt(old(p.View()))
    {
      if p.status != Running {
        var _ := p.Start();
      }
      var completed := p.Complete(Envelope(p.kind, EnvBlocked, 0.0));
      ok := completed == Ok;
    }

    /** failPhase: start once more if it is not running, complete as blocked, save; errors are dropped. */
    method Fail()
      requires Valid() && phase != null && stage != Accepted
      modifies this, repo, phase, copy
      ensures Valid() && View() == Next(config, old(View()), Action.Fail)
    {
      StepKeeps(config, View(), Action.Fail);
      FailEndsWork(config, View());
      var blocked := Block(phase);
      if blocked {
        var _ := repo.Upsert(phase.View());
      }
      phase, copy := null, null;
    }

    /** The Iron Law check before dispatch. */
    method Check()
      requires Valid() && phase != null && stage == Fresh
      modifies this, repo, phase, copy
      ensures Valid() && View() == Next(config, old(View()), Action.Check)
    {
      StepKeeps(config, View(), Action.Check);
      if ClearedToGo(config, repo.rows, phase.View()) {
        stage := Cleared;
      } else {
        Fail();
      }
    }

    /** Save the phase in memory; keep it only if the change is still to be advanced. */
    method Store()
      requires Shape() && phase != null
      modifies this`phase, this`copy, this`stage, repo
      ensures Shape() && View() == Settle(old(View()), old(phase.View()))
    {
      var saved := repo.Upsert(phase.View());
      if saved && AdvanceAllowed(phase.status) {
        stage := Accepted;
      } else {
        phase, copy := null, null;
      }
    }

    /** An envelope came back: complete and save, or fail. */
    method Finish(status: EnvelopeStatus, confidence: real, concerns: bool)
      requires Valid() && phase != null && stage == Cleared
      modifies this, repo, phase, copy
      ensures Valid() && View() == Next(config, old(View()), Action.Finish(status, confidence, concerns))
    {
      StepKeeps(config, View(), Action.Finish(status, confidence, concerns));
      var e := Judged(config, Envelope(phase.kind, status, confidence), concerns);
      var completed := phase.Complete(e);
      if completed != Ok {
        Fail();
        return;
      }
      Store();
    }

    /** Advance the copy, and complete it after archive. */
    method AdvanceCopy(c: Change, kind: PhaseType) returns (ok: bool)
      modifies c
      ensures ok <==> CanAdvance(old(c.View()), kind)
      ensures ok ==> c.View() == if kind == Archive then ChangeRow(Complete, Archive) else old(c.View()).(at := kind)
    {
      var r := c.AdvancePhase(kind);
      if r == Ok && kind == Archive {
        r := c.MarkCompleted();
      }
      ok := r == Ok;
    }

    /** advanceChange: the copy is advanced and stored; archive also completes it and enqueues the event. */
    method Advance()
      requires Valid() && phase != null && stage == Accepted
      modifies this, copy
      ensures Valid() && View() == Next(config, old(View()), Action.Advance)
    {
      StepKeeps(config, View(), Action.Advance);
      var kind := phase.kind;
      var ok := AdvanceCopy(copy, kind);
      if ok {
        change := copy.View();
        archived := if kind == Archive then archived + 1 else archived;
      }
      phase, copy := null, null;
    }

    /** Start an interrupted phase again, or restart a blocked apply. */
    static method Reopen(p: Phase) returns (ok: bool)
      modifies p
      ensures ok <==> Reopens(old(p.View()))
      ensures ok ==> p.View() == Reopened(old(p.View()))
    {
      var started := Terminal;
      if p.status == Interrupted {
        started := p.Start();
      } else if p.status == Blocked && p.kind == Apply {
        started := p.Restart();
      }
      ok := started == Ok;
    }

    /** Resume: a running or needs-context phase is scheduled as it is, an interrupted one is started and
        a blocked apply restarted first. */
    method Resume(at: nat)
      requires Valid()
      modifies this, repo
      ensures Valid() && View() == Next(config, old(View()), Action.Resume(at))
    {
      StepKeeps(config, View(), Action.Resume(at));
      if phase != null || at >= |repo.rows| {
        return;
      }
      var p := new Phase.Hydrate(repo.rows[at]);
      if p.status == Running || p.status == NeedsContext {
        Schedule(p);
        return;
      }
      var reopened := Reopen(p);
      if reopened {
        var saved := repo.Upsert(p.View());
        if saved {
          Schedule(p);
        }
      }
    }

    method Reject(at: nat)
      requires Valid()
      modifies this, repo
      ensures Valid() && View() == Next(config, old(View()), Action.Reject(at))
    {
      StepKeeps(config, View(), Action.Reject(at));
      if phase != null || at >= |repo.rows| || IsTerminal(repo.rows[at].status) {
        return;
      }
      var p := new Phase.Hydrate(repo.rows[at]);
      var blocked := Block(p);
      if blocked {
        var _ := repo.Upsert(p.View());
      }
    }

    method Abort()
      requires Valid()
      modifies this`change
      ensures Valid() && View() == Next(config, old(View()), Action.Abort)
    {
      StepKeeps(config, View(), Action.Abort);
      var c := new Change.Hydrate(change);
      var aborted := c.Abort();
      if aborted == Ok {
        change := c.View();
      }
    }

    /** Boot recovery, with nothing in progress. */
    method Recover()
      requires Valid() && phase == null
      modifies repo
      ensures Valid() && View() == Next(config, old(View()), Action.Recover)
    {
      StepKeeps(config, View(), Action.Recover);
      var _ := repo.MarkStuckInterrupted();
    }
  }
}

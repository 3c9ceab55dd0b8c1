// Phase types, statuses, envelopes, and the Phase and Change aggregates.
module PhaseDomain {

  datatype PhaseType = Init | Explore | Proposal | Spec | Design | Tasks | Apply | Verify | Archive

  function NextValid(t: PhaseType): seq<PhaseType> {
    match t
    case Init => [Explore]
    case Explore => [Proposal]
    case Proposal => [Spec]
    case Spec => [Design]
    case Design => [Tasks]
    case Tasks => [Apply]
    case Apply => [Verify]
    case Verify => [Archive]
    case Archive => []
  }

  /** The place of a phase type in the canonical order. */
  function Position(t: PhaseType): nat {
    match t
    case Init => 0
    case Explore => 1
    case Proposal => 2
    case Spec => 3
    case Design => 4
    case Tasks => 5
    case Apply => 6
    case Verify => 7
    case Archive => 8
  }

  /** NextValid is strictly sequential: the canonical successor and nothing else. */
  lemma NextIsSuccessor(t: PhaseType, u: PhaseType)
    ensures u in NextValid(t) <==> Position(u) == Position(t) + 1
  {
    if u in NextValid(t) {
      assert u == NextValid(t)[0];
    }
    if Position(u) == Position(t) + 1 {
      assert NextValid(t)[0] == u;
    }
  }

  /** The canonical order by name. */
  lemma CanonicalOrder(t: PhaseType, u: PhaseType)
    ensures u in NextValid(t) <==>
            || (t == Init && u == Explore) || (t == Explore && u == Proposal) || (t == Proposal && u == Spec)
            || (t == Spec && u == Design) || (t == Design && u == Tasks) || (t == Tasks && u == Apply)
            || (t == Apply && u == Verify) || (t == Verify && u == Archive)
  {
    NextIsSuccessor(t, u);
  }

  function Threshold(t: PhaseType): real {
    match t
    case Explore => 0.5
    case Proposal => 0.7
    case Design => 0.7
    case Apply => 0.7
    case Spec => 0.8
    case Tasks => 0.8
    case Verify => 0.9
    case Archive => 0.9
    case Init => 0.0
  }

  /** The confidence that done takes, rising towards the end: half for explore, 0.7 for proposal, design and
      apply, 0.8 for the two that others build on, 0.9 for verify and archive, and none for init. */
  lemma ThresholdValues(t: PhaseType)
    ensures Threshold(t) ==
            if t in {Verify, Archive} then 0.9
            else if t in {Spec, Tasks} then 0.8
            else if t in {Proposal, Design, Apply} then 0.7
            else if t == Explore then 0.5
            else 0.0
  {
  }

  datatype PhaseStatus = Pending | Running | Done | DoneWithConcerns | Blocked | NeedsContext | Interrupted

  predicate IsTerminal(s: PhaseStatus) {
    s == Done || s == DoneWithConcerns || s == Blocked
  }

  predicate AdvanceAllowed(s: PhaseStatus) {
    s == Done || s == DoneWithConcerns
  }

  datatype EnvelopeStatus = EnvDone | EnvDoneWithConcerns | EnvBlocked | EnvNeedsContext
  datatype Envelope = Envelope(kind: PhaseType, status: EnvelopeStatus, confidence: real)

  /** Validator.Validate on a parsed envelope of the expected type. */
  function Coerced(e: Envelope): Envelope {
    if e.status == EnvDone && e.confidence < Threshold(e.kind) then e.(status := EnvDoneWithConcerns) else e
  }

  function StatusOf(s: EnvelopeStatus): PhaseStatus {
    match s
    case EnvDone => Done
    case EnvDoneWithConcerns => DoneWithConcerns
    case EnvBlocked => Blocked
    case EnvNeedsContext => NeedsContext
  }

  // One row of the phases table, and the persistent state of a Phase.
  datatype Row = Row(id: nat, kind: PhaseType, status: PhaseStatus, confidence: real, budget: int, attempts: nat)

  datatype Outcome = Ok | Terminal | BudgetExhausted | NotRunning | NotBlocked | Mismatch | BelowThreshold | InvalidTransition

  function StartOutcome(r: Row): Outcome {
    if IsTerminal(r.status) then Terminal else if r.attempts >= r.budget then BudgetExhausted else Ok
  }

  function Started(r: Row): Row {
    r.(status := Running, attempts := r.attempts + 1)
  }

  function CompleteOutcome(r: Row, e: Envelope): Outcome {
    if r.status != Running then NotRunning
    else if e.kind != r.kind then Mismatch
    else if e.status == EnvDone && e.confidence < Threshold(r.kind) then BelowThreshold
    else Ok
  }

  function Completed(r: Row, e: Envelope): Row {
    r.(status := StatusOf(e.status), confidence := e.confidence)
  }

  function RestartOutcome(r: Row): Outcome {
    if r.status != Blocked then (if IsTerminal(r.status) then Terminal else NotBlocked)
    else if r.attempts >= r.budget then BudgetExhausted
    else Ok
  }

  function Restarted(r: Row): Row {
    r.(status := Running, attempts := r.attempts + 1, confidence := 0.0)
  }

  /** What every history of a Phase keeps: attempts within budget, and done only at the threshold. */
  predicate Sound(r: Row) {
    r.attempts <= r.budget && (r.status == Done ==> r.confidence >= Threshold(r.kind))
  }

  class Phase {
    const id: nat
    const kind: PhaseType
    const budget: int
    var status: PhaseStatus
    var confidence: real
    var attempts: nat

    function View(): Row
      reads this
    {
      Row(id, kind, status, confidence, budget, attempts)
    }

    constructor Hydrate(r: Row)
      ensures View() == r
    {
      id, kind, budget := r.id, r.kind, r.budget;
      status, confidence, attempts := r.status, r.confidence, r.attempts;
    }

    method Start() returns (r: Outcome)
      modifies this
      ensures r == StartOutcome(old(View())) && (Sound(old(View())) || r == Ok ==> Sound(View()))
      ensures View() == if r == Ok then Started(old(View())) else old(View())
    {
      if status == Done || status == DoneWithConcerns || status == Blocked {
        return Terminal;
      }
      if attempts >= budget {
        return BudgetExhausted;
      }
      status := Running;
      attempts := attempts + 1;
      return Ok;
    }

    method Complete(e: Envelope) returns (r: Outcome)
      modifies this
      ensures r == CompleteOutcome(old(View()), e) && (Sound(old(View())) ==> Sound(View()))
      ensures View() == if r == Ok then Completed(old(View()), e) else old(View())
    {
      if status != Running {
        return NotRunning;
      }
      if e.kind != kind {
        return Mismatch;
      }
      var threshold := Threshold(kind);
      if e.status == EnvDone && e.confidence < threshold {
        return BelowThreshold;
      }
      confidence := e.confidence;
      match e.status {
        case EnvDone => status := Done;
        case EnvDoneWithConcerns => status := DoneWithConcerns;
        case EnvBlocked => status := Blocked;
        case EnvNeedsContext => status := NeedsContext;
      }
      return Ok;
    }

    method Restart() returns (r: Outcome)
      modifies this
      ensures r == RestartOutcome(old(View())) && (r == Ok ==> Sound(View()))
      ensures View() == if r == Ok then Restarted(old(View())) else old(View())
    {
      if status != Blocked {
        if IsTerminal(status) {
          return Terminal;
        }
        return NotBlocked;
      }
      if attempts >= budget {
        return BudgetExhausted;
      }
      status := Running;
      attempts := attempts + 1;
      confidence := 0.0;
      return Ok;
    }
  }

  datatype ChangeStatus = Active | Complete | Aborted
  datatype ChangeRow = ChangeRow(status: ChangeStatus, at: PhaseType)

  predicate CanAdvance(c: ChangeRow, next: PhaseType) {
    c.status == Active && next in NextValid(c.at)
  }

  class Change {
    var status: ChangeStatus
    var at: PhaseType

    function View(): ChangeRow
      reads this
    {
      ChangeRow(status, at)
    }

    constructor Hydrate(c: ChangeRow)
      ensures View() == c
    {
      status, at := c.status, c.at;
    }

    method AdvancePhase(next: PhaseType) returns (r: Outcome)
      modifies this
      ensures r == Ok <==> CanAdvance(old(View()), next)
      ensures r == Terminal <==> old(status) != Active
      ensures View() == if r == Ok then old(View()).(at := next) else old(View())
    {
      if status != Active {
        return Terminal;
      }
      var valid := NextValid(at);
      for i := 0 to |valid|
        invariant View() == old(View())
        invariant forall k :: 0 <= k < i ==> valid[k] != next
      {
        if valid[i] == next {
          at := next;
          return Ok;
        }
      }
      return InvalidTransition;
    }

    method MarkCompleted() returns (r: Outcome)
      modifies this
      ensures r == (if old(status) == Active then Ok else Terminal)
      ensures View() == if r == Ok then old(View()).(status := Complete) else old(View())
    {
      if status != Active {
        return Terminal;
      }
      status := Complete;
      return Ok;
    }

    method Abort() returns (r: Outcome)
      modifies this
      ensures r == (if old(status) == Active then Ok else Terminal)
      ensures View() == if r == Ok then old(View()).(status := Aborted) else old(View())
    {
      if status != Active {
        return Terminal;
      }
      status := Aborted;
      return Ok;
    }
  }
}

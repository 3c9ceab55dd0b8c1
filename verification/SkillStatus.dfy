// The six skill statuses and the guard map that PatchStatus enforces.
module SkillStatus {
  import opened TransitionPath

  datatype Status = Candidate | Validated | Active | Deprecated | Blocked | Archived

  const ALLOWED: Guard<Status> := map[
    Candidate := {Validated, Blocked},
    Validated := {Active, Blocked},
    Active := {Deprecated, Blocked},
    Deprecated := {Blocked},
    Blocked := {Candidate},
    Archived := {}
  ]

  /** The lifecycle, pair by pair: candidate, validated, active, deprecated, each reached only from the one
      before; any of them can be blocked; and only a blocked skill becomes a candidate again. */
  lemma HopsAreExactly(u: Status, v: Status)
    ensures Hop(ALLOWED, u, v) <==>
            || (u == Candidate && v == Validated)
            || (u == Validated && v == Active)
            || (u == Active && v == Deprecated)
            || (u == Blocked && v == Candidate)
            || (v == Blocked && (u == Candidate || u == Validated || u == Active || u == Deprecated))
  {
  }

  const STATUS_ORDER: seq<Status> := [Candidate, Validated, Active, Deprecated, Blocked, Archived]

  lemma OrderIsComplete()
    ensures forall u, v :: Hop(ALLOWED, u, v) ==> v in STATUS_ORDER
  {
    forall v: Status ensures v in STATUS_ORDER {
      match v
      case Candidate => assert STATUS_ORDER[0] == v;
      case Validated => assert STATUS_ORDER[1] == v;
      case Active => assert STATUS_ORDER[2] == v;
      case Deprecated => assert STATUS_ORDER[3] == v;
      case Blocked => assert STATUS_ORDER[4] == v;
      case Archived => assert STATUS_ORDER[5] == v;
    }
  }

  lemma Prepend(u: Status, v: Status, w: Status, p: seq<Status>)
    requires Hop(ALLOWED, u, v) && Leads(ALLOWED, v, w, p)
    ensures Leads(ALLOWED, u, w, [v] + p)
  {
    assert ([v] + p)[1..] == p;
  }

  lemma FromCandidate(v: Status) returns (p: seq<Status>)
    requires v != Archived
    ensures Leads(ALLOWED, Candidate, v, p)
  {
    p := [];
    if v == Blocked {
      Prepend(Candidate, Blocked, v, p);
      p := [Blocked] + p;
    } else if v != Candidate {
      if v != Validated {
        if v != Active {
          Prepend(Active, Deprecated, v, p);
          p := [Deprecated] + p;
        }
        Prepend(Validated, Active, v, p);
        p := [Active] + p;
      }
      Prepend(Candidate, Validated, v, p);
      p := [Validated] + p;
    }
  }

  /** From any status but archived, through blocked and candidate, to any other. */
  lemma Anywhere(u: Status, v: Status) returns (p: seq<Status>)
    requires u != Archived && v != Archived
    ensures Leads(ALLOWED, u, v, p)
  {
    p := FromCandidate(v);
    if u != Candidate {
      Prepend(Blocked, Candidate, v, p);
      p := [Candidate] + p;
      if u != Blocked {
        Prepend(u, Blocked, v, p);
        p := [Blocked] + p;
      }
    }
  }

  lemma {:induction false} ArchivedIsIsolated(u: Status, v: Status, p: seq<Status>)
    requires Leads(ALLOWED, u, v, p) && p != []
    ensures u != Archived && v != Archived
    decreases |p|
  {
    if |p| > 1 {
      ArchivedIsIsolated(p[0], v, p[1..]);
    }
  }

  /** A legal chain leads from u to v iff they are equal or neither is archived. */
  lemma ReachableStatuses(u: Status, v: Status)
    ensures Reaches(ALLOWED, u, v) <==> u == v || (u != Archived && v != Archived)
  {
    if u == v {
      assert Leads(ALLOWED, u, v, []);
    } else if u != Archived && v != Archived {
      var p := Anywhere(u, v);
    }
    forall p | Leads(ALLOWED, u, v, p) ensures u == v || (u != Archived && v != Archived) {
      if p != [] {
        ArchivedIsIsolated(u, v, p);
      }
    }
  }

  // --- the way a revert takes ---

  /** The status that this one is reached from, other than blocked. */
  function Before(v: Status): Status
    requires v != Blocked && v != Archived
  {
    match v
    case Candidate => Blocked
    case Validated => Candidate
    case Active => Validated
    case Deprecated => Active
  }

  function Depth(v: Status): nat {
    match v
    case Blocked => 0
    case Candidate => 1
    case Validated => 2
    case Active => 3
    case Deprecated => 4
    case Archived => 0
  }

  /** Straight on along the lifecycle if the target lies ahead, else through blocked and candidate. */
  function Route(u: Status, v: Status): seq<Status>
    requires u == v || (u != Archived && v != Archived)
    decreases Depth(v)
  {
    if u == v then [] else if v == Blocked then [Blocked] else Route(u, Before(v)) + [v]
  }

  lemma {:induction false} LeadsAppend(u: Status, v: Status, w: Status, p: seq<Status>)
    requires Leads(ALLOWED, u, v, p) && Hop(ALLOWED, v, w)
    ensures Leads(ALLOWED, u, w, p + [w])
    decreases |p|
  {
    if p != [] {
      LeadsAppend(p[0], v, w, p[1..]);
      assert (p + [w])[1..] == p[1..] + [w];
    }
  }

  lemma {:induction false} LeadsWithoutLast(u: Status, v: Status, p: seq<Status>)
    requires Leads(ALLOWED, u, v, p) && p != []
    ensures var w := End(u, p[..|p| - 1]); Leads(ALLOWED, u, w, p[..|p| - 1]) && Hop(ALLOWED, w, v)
    decreases |p|
  {
    if |p| > 1 {
      LeadsWithoutLast(p[0], v, p[1..]);
      assert p[..|p| - 1][1..] == p[1..][..|p| - 2];
    }
  }

  lemma {:induction false} RouteLeads(u: Status, v: Status)
    requires u == v || (u != Archived && v != Archived)
    ensures Leads(ALLOWED, u, v, Route(u, v))
    decreases Depth(v)
  {
    if u != v && v != Blocked {
      RouteLeads(u, Before(v));
      LeadsAppend(u, Before(v), v, Route(u, Before(v)));
    }
  }

  /** No legal chain is shorter than the route, and none but the route is as short: what the search finds
      does not depend on the order in which it visits. */
  lemma {:induction false} RouteIsOnlyShortest(u: Status, v: Status, p: seq<Status>)
    requires Leads(ALLOWED, u, v, p)
    ensures u == v || (u != Archived && v != Archived)
    ensures |Route(u, v)| <= |p| && (|Route(u, v)| == |p| ==> p == Route(u, v))
    decreases Depth(v)
  {
    if p != [] {
      ArchivedIsIsolated(u, v, p);
    }
    if u != v {
      var n := |p| - 1;
      LeadsWithoutLast(u, v, p);
      assert p == p[..n] + [v];
      if v == Blocked {
        assert |p| == 1 ==> p == [Blocked];
      } else {
        assert End(u, p[..n]) == Before(v);
        RouteIsOnlyShortest(u, Before(v), p[..n]);
      }
    }
  }
}

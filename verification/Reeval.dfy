// Retroactive re-evaluation of skills: plan, confirmed apply, audited revert.
module Reeval {
  import opened TransitionPath
  import opened SkillStatus

  datatype Skill = Skill(status: Status, rollbacks: nat)
  type Skills = map<nat, Skill>

  datatype Item = Item(skill: nat, prior: Status, next: Status)

  // A run is named by its place in the append-only audit trail, oldest first.
  datatype Mode = Apply | Revert(run: nat)
  datatype Run = Run(mode: Mode, items: seq<Item>)

  const PROMOTE_THRESHOLD: real := 0.20
  const DEMOTE_THRESHOLD: real := 0.05

  /** recompute: the retry-reduction proxy for a number of apply attempts. */
  function Metric(attempts: nat): real {
    (1.5 - attempts as real) / 1.5
  }

  /** evaluate: the proposed status. */
  function Proposed(current: Status, attempts: nat): Status {
    if Metric(attempts) >= PROMOTE_THRESHOLD && current == Validated then Active
    else if Metric(attempts) < DEMOTE_THRESHOLD && current == Active then Deprecated
    else current
  }

  /** In whole attempts: a validated skill is promoted on at most one, an active one demoted on
      two or more. No proposal is ever refused by the guard. */
  lemma GatesInAttempts(current: Status, attempts: nat)
    ensures Proposed(current, attempts) ==
            if attempts <= 1 && current == Validated then Active
            else if attempts >= 2 && current == Active then Deprecated
            else current
    ensures Proposed(current, attempts) == current || Hop(ALLOWED, current, Proposed(current, attempts))
  {
    if attempts <= 1 {
      assert Metric(attempts) >= (1.5 - 1.0) / 1.5;
    } else {
      assert attempts as real >= 2.0;
      assert Metric(attempts) <= (1.5 - 2.0) / 1.5;
    }
  }

  function AppliedSkill(s: Skill, attempts: nat): Skill {
    s.(status := Proposed(s.status, attempts))
  }

  function Applied(skills: Skills, attempts: nat -> nat): Skills {
    map id | id in skills :: AppliedSkill(skills[id], attempts(id))
  }

  // --- runs as change logs ---

  predicate Lists(items: seq<Item>, id: nat) {
    exists i :: 0 <= i < |items| && items[i].skill == id
  }

  predicate Distinct(items: seq<Item>) {
    forall i, j :: 0 <= i < j < |items| ==> items[i].skill != items[j].skill
  }

  predicate Records(it: Item, before: Skills, after: Skills) {
    && it.skill in before && it.skill in after
    && it.prior == before[it.skill].status && it.next == after[it.skill].status
    && it.prior != it.next && it.prior != Archived && it.next != Archived
  }

  /** items lists exactly the skills whose status differs, once each, with both statuses; archived
      is never one of them, so every change can be walked back. */
  ghost predicate Logs(items: seq<Item>, before: Skills, after: Skills) {
    && Distinct(items)
    && (forall i :: 0 <= i < |items| ==> Records(items[i], before, after))
    && (forall id :: id in before ==> id in after)
    && (forall id :: id in before && before[id].status != after[id].status ==> Lists(items, id))
  }

  lemma ListsGrow(items: seq<Item>, it: Item)
    ensures Lists(items + [it], it.skill)
    ensures forall id :: Lists(items + [it], id) <==> Lists(items, id) || id == it.skill
  {
    var grown := items + [it];
    assert grown[|items|] == it;
    forall id | Lists(items, id) ensures Lists(grown, id) {
      var i :| 0 <= i < |items| && items[i].skill == id;
      assert grown[i].skill == id;
    }
    forall id | Lists(grown, id) ensures Lists(items, id) || id == it.skill {
      var i :| 0 <= i < |grown| && grown[i].skill == id;
      if i < |items| {
        assert items[i].skill == id;
      }
    }
  }

  lemma LogGrows(items: seq<Item>, before: Skills, after: Skills, id: nat, s: Skill)
    requires Logs(items, before, after) && id in before && !Lists(items, id)
    requires s.status != before[id].status && s.status != Archived && before[id].status != Archived
    ensures Logs(items + [Item(id, before[id].status, s.status)], before, after[id := s])
  {
    ListsGrow(items, Item(id, before[id].status, s.status));
    assert forall i :: 0 <= i < |items| ==> items[i].skill != id;
  }

  // --- apply, one skill at a time ---

  /** The first k skills of the plan are dealt with, and items logs what that changed. */
  ghost predicate PlanDone(order: seq<nat>, k: nat, attempts: nat -> nat, before: Skills, now: Skills, items: seq<Item>)
    requires k <= |order|
  {
    && Logs(items, before, now) && before.Keys == now.Keys
    && (forall j :: 0 <= j < k ==> order[j] in now && now[order[j]] == AppliedSkill(before[order[j]], attempts(order[j])))
    && (forall id :: id in before && id !in order[..k] ==> now[id] == before[id] && !Lists(items, id))
    && (items == [] ==> now == before)
  }

  lemma PlanStep(order: seq<nat>, k: nat, attempts: nat -> nat, before: Skills, now: Skills, items: seq<Item>)
    requires k < |order| && PlanDone(order, k, attempts, before, now, items)
    requires order[k] in before && order[k] !in order[..k]
    ensures now[order[k]] == before[order[k]]
    ensures
      var id, s := order[k], AppliedSkill(before[order[k]], attempts(order[k]));
      if s.status == before[id].status then PlanDone(order, k + 1, attempts, before, now, items)
      else PlanDone(order, k + 1, attempts, before, now[id := s], items + [Item(id, before[id].status, s.status)])
  {
    var id, s := order[k], AppliedSkill(before[order[k]], attempts(order[k]));
    assert order[..k + 1] == order[..k] + [id];
    assert forall x :: x in order[..k] ==> x in order[..k + 1];
    assert forall j :: 0 <= j < k ==> order[j] in order[..k];
    if s.status != before[id].status {
      GatesInAttempts(before[id].status, attempts(id));
      LogGrows(items, before, now, id, s);
      ListsGrow(items, Item(id, before[id].status, s.status));
    }
  }

  // --- revert, one item at a time ---

  /** Where a revert leaves a skill: its prior status if a legal chain leads there, else where it is. */
  function Restored(current: Status, prior: Status): Status {
    if current != Archived && prior != Archived then prior else current
  }

  function RevertedSkill(s: Skill, prior: Status, emit: bool): Skill {
    var to := Restored(s.status, prior);
    Skill(to, s.rollbacks + if emit && to != s.status then 1 else 0)
  }

  /** after is the store once every item has been reverted; a rollback counter moves exactly for
      the skills that moved, and only when emit is set. */
  ghost predicate RevertedTo(items: seq<Item>, emit: bool, before: Skills, after: Skills) {
    && before.Keys == after.Keys
    && (forall i :: 0 <= i < |items| ==>
          items[i].skill in before && after[items[i].skill] == RevertedSkill(before[items[i].skill], items[i].prior, emit))
    && (forall id :: id in before && !Lists(items, id) ==> after[id] == before[id])
  }

  /** The first k items are reverted, and done logs what that changed. */
  ghost predicate RevertDone(items: seq<Item>, k: nat, emit: bool, before: Skills, now: Skills, done: seq<Item>)
    requires k <= |items|
  {
    && RevertedTo(items[..k], emit, before, now) && Logs(done, before, now)
    && (forall id :: Lists(done, id) ==> Lists(items[..k], id))
  }

  lemma NotListedYet(items: seq<Item>, k: nat)
    requires k < |items| && Distinct(items)
    ensures !Lists(items[..k], items[k].skill)
    ensures forall id :: Lists(items[..k + 1], id) <==> Lists(items[..k], id) || id == items[k].skill
  {
    assert items[..k + 1] == items[..k] + [items[k]];
    ListsGrow(items[..k], items[k]);
  }

  lemma RevertedOneMore(items: seq<Item>, k: nat, emit: bool, before: Skills, now: Skills)
    requires k < |items| && Distinct(items) && RevertedTo(items[..k], emit, before, now) && items[k].skill in before
    ensures now[items[k].skill] == before[items[k].skill]
    ensures RevertedTo(items[..k + 1], emit, before,
                       now[items[k].skill := RevertedSkill(before[items[k].skill], items[k].prior, emit)])
  {
    var id, s := items[k].skill, RevertedSkill(before[items[k].skill], items[k].prior, emit);
    var done := items[..k + 1];
    NotListedYet(items, k);
    forall i | 0 <= i < |done|
      ensures done[i].skill in before && now[id := s][done[i].skill] == RevertedSkill(before[done[i].skill], done[i].prior, emit)
    {
      if i < k {
        assert items[..k][i] == items[i] && items[i].skill != id;
      }
    }
  }

  lemma LoggedOneMore(done: seq<Item>, before: Skills, now: Skills, id: nat, s: Skill)
    requires Logs(done, before, now) && id in before && !Lists(done, id) && now[id] == before[id]
    requires s == before[id] || (s.status != before[id].status && s.status != Archived && before[id].status != Archived)
    ensures var done' := if s == before[id] then done else done + [Item(id, before[id].status, s.status)];
            Logs(done', before, now[id := s]) && forall x :: Lists(done', x) ==> Lists(done, x) || x == id
  {
    if s == before[id] {
      assert now[id := s] == now;
    } else {
      LogGrows(done, before, now, id, s);
      ListsGrow(done, Item(id, before[id].status, s.status));
    }
  }

  lemma RevertStep(items: seq<Item>, k: nat, emit: bool, before: Skills, now: Skills, done: seq<Item>)
    requires k < |items| && Distinct(items) && RevertDone(items, k, emit, before, now, done)
    requires items[k].skill in before
    ensures now[items[k].skill] == before[items[k].skill]
    ensures
      var id, s := items[k].skill, RevertedSkill(before[items[k].skill], items[k].prior, emit);
      RevertDone(items, k + 1, emit, before, now[id := s],
                 if s.status == before[id].status then done else done + [Item(id, before[id].status, s.status)])
  {
    var id, s := items[k].skill, RevertedSkill(before[items[k].skill], items[k].prior, emit);
    NotListedYet(items, k);
    RevertedOneMore(items, k, emit, before, now);
    LoggedOneMore(done, before, now, id, s);
  }

  // --- what one call does to the store and the trail ---

  ghost predicate ValidTrail(runs: seq<Run>) {
    forall k :: 0 <= k < |runs| ==> Distinct(runs[k].items)
  }

  predicate AlreadyReverted(runs: seq<Run>, k: nat) {
    exists j :: 0 <= j < |runs| && runs[j].mode == Revert(k)
  }

  ghost predicate ApplyCall(before: Skills, runs: seq<Run>, attempts: nat -> nat, after: Skills, runs': seq<Run>) {
    && after == Applied(before, attempts)
    && (after == before ==> runs' == runs)
    && (after != before ==> exists items :: Logs(items, before, after) && runs' == runs + [Run(Apply, items)])
  }

  ghost predicate RevertCall(k: nat, before: Skills, runs: seq<Run>, after: Skills, runs': seq<Run>) {
    && k < |runs|
    && RevertedTo(runs[k].items, !AlreadyReverted(runs, k), before, after)
    && exists items :: Logs(items, before, after) && runs' == runs + [Run(Revert(k), items)]
  }

  lemma PlanFinished(order: seq<nat>, attempts: nat -> nat, before: Skills, now: Skills, items: seq<Item>, runs: seq<Run>)
    requires PlanDone(order, |order|, attempts, before, now, items) && ValidTrail(runs)
    requires forall id :: id in before ==> id in order
    ensures var runs' := if items == [] then runs else runs + [Run(Apply, items)];
            ApplyCall(before, runs, attempts, now, runs') && ValidTrail(runs')
  {
    assert order[..|order|] == order;
    assert now == Applied(before, attempts);
    if items != [] {
      assert Records(items[0], before, now);
    }
  }

  lemma RevertFinished(k: nat, before: Skills, runs: seq<Run>, after: Skills, log: seq<Item>)
    requires k < |runs| && RevertDone(runs[k].items, |runs[k].items|, !AlreadyReverted(runs, k), before, after, log)
    ensures RevertCall(k, before, runs, after, runs + [Run(Revert(k), log)])
  {
    assert runs[k].items[..|runs[k].items|] == runs[k].items;
  }

  // --- laws over sequences of calls ---

  ghost predicate SameStatuses(a: Skills, b: Skills) {
    a.Keys == b.Keys && forall id :: id in a ==> a[id].status == b[id].status
  }

  /** Reverting a change log from the store it led to restores every status; each skill that had
      changed, and no other, gains one rollback if emit is set. */
  lemma RevertUndoesLog(items: seq<Item>, emit: bool, before: Skills, after: Skills, restored: Skills)
    requires Logs(items, before, after) && before.Keys == after.Keys && RevertedTo(items, emit, after, restored)
    ensures SameStatuses(restored, before)
    ensures forall id :: id in before ==>
              restored[id].rollbacks == after[id].rollbacks + if emit && before[id].status != after[id].status then 1 else 0
  {
    forall id | id in before
      ensures restored[id].status == before[id].status
      ensures restored[id].rollbacks == after[id].rollbacks + if emit && before[id].status != after[id].status then 1 else 0
    {
      if Lists(items, id) {
        var i :| 0 <= i < |items| && items[i].skill == id;
        assert Records(items[i], before, after);
      }
    }
  }

  /** RevertLast straight after an apply that changed something restores the statuses before it. */
  lemma RevertUndoesApply(before: Skills, runs: seq<Run>, attempts: nat -> nat, after: Skills, runs1: seq<Run>,
                          restored: Skills, runs2: seq<Run>)
    requires ApplyCall(before, runs, attempts, after, runs1) && after != before
    requires RevertCall(|runs1| - 1, after, runs1, restored, runs2)
    ensures SameStatuses(restored, before)
  {
    var items :| Logs(items, before, after) && runs1 == runs + [Run(Apply, items)];
    assert runs1[|runs1| - 1].items == items;
    RevertUndoesLog(items, !AlreadyReverted(runs1, |runs1| - 1), before, after, restored);
  }

  /** RevertLast twice: the second undoes the first. */
  lemma RevertLastTwice(a: Skills, runs: seq<Run>, b: Skills, runs1: seq<Run>, c: Skills, runs2: seq<Run>)
    requires |runs| > 0 && RevertCall(|runs| - 1, a, runs, b, runs1) && RevertCall(|runs1| - 1, b, runs1, c, runs2)
    ensures SameStatuses(c, a)
  {
    var items :| Logs(items, a, b) && runs1 == runs + [Run(Revert(|runs| - 1), items)];
    assert runs1[|runs1| - 1].items == items;
    RevertUndoesLog(items, !AlreadyReverted(runs1, |runs1| - 1), a, b, c);
  }

  /** Reverting the same run again changes nothing at all, not even a rollback counter. */
  lemma RevertSameRunTwice(k: nat, a: Skills, runs: seq<Run>, b: Skills, runs1: seq<Run>, c: Skills, runs2: seq<Run>)
    requires RevertCall(k, a, runs, b, runs1) && RevertCall(k, b, runs1, c, runs2)
    ensures c == b
  {
    var items := runs[k].items;
    assert runs1[|runs|].mode == Revert(k) && runs1[k] == runs[k];
    forall id | id in b ensures c[id] == b[id] {
      if Lists(items, id) {
        var i :| 0 <= i < |items| && items[i].skill == id;
        assert b[id] == RevertedSkill(a[id], items[i].prior, !AlreadyReverted(runs, k));
      }
    }
  }

  /** A second apply on the same usage changes nothing and leaves no run. */
  lemma ApplyTwice(a: Skills, runs: seq<Run>, attempts: nat -> nat, b: Skills, runs1: seq<Run>, c: Skills, runs2: seq<Run>)
    requires ApplyCall(a, runs, attempts, b, runs1) && ApplyCall(b, runs1, attempts, c, runs2)
    ensures c == b && runs2 == runs1
  {
    forall id | id in a ensures AppliedSkill(b[id], attempts(id)) == b[id] {
      GatesInAttempts(a[id].status, attempts(id));
      GatesInAttempts(b[id].status, attempts(id));
    }
  }

  predicate NothingToUndo(items: seq<Item>, skills: Skills) {
    forall i :: 0 <= i < |items| && items[i].skill in skills ==>
      Restored(skills[items[i].skill].status, items[i].prior) == skills[items[i].skill].status
  }

  /** RevertLast after an apply puts the statuses back exactly if the apply changed something or
      there is nothing left to undo in the run before it. */
  lemma RevertLastAfterApply(before: Skills, runs: seq<Run>, attempts: nat -> nat, after: Skills, runs1: seq<Run>,
                             restored: Skills, runs2: seq<Run>)
    requires ApplyCall(before, runs, attempts, after, runs1) && |runs1| > 0
    requires RevertCall(|runs1| - 1, after, runs1, restored, runs2)
    ensures SameStatuses(restored, before) <==>
            after != before ||
            NothingToUndo(runs[|runs| - 1].items, before)
  {
    if after != before {
      RevertUndoesApply(before, runs, attempts, after, runs1, restored, runs2);
    } else if SameStatuses(restored, before) {
      var items := runs[|runs| - 1].items;
      forall i | 0 <= i < |items| ensures Restored(before[items[i].skill].status, items[i].prior) == before[items[i].skill].status {
        assert restored[items[i].skill] == RevertedSkill(before[items[i].skill], items[i].prior, !AlreadyReverted(runs1, |runs1| - 1));
      }
    }
  }

  /** A re-evaluation that changes nothing, then RevertLast: the skill loses its earlier promotion. */
  lemma RevertLastReachesOlderRun()
    ensures
      var runs := [Run(Apply, [Item(0, Validated, Active)])];
      var before := map[0 := Skill(Active, 0)];
      && ApplyCall(before, runs, (id: nat) => 1, before, runs)
      && RevertCall(0, before, runs, map[0 := Skill(Validated, 1)], runs + [Run(Revert(0), [Item(0, Active, Validated)])])
  {
    GatesInAttempts(Active, 1);
    var item := Item(0, Active, Validated);
    var before, after := map[0 := Skill(Active, 0)], map[0 := Skill(Validated, 1)];
    assert [item][0].skill == 0;
    assert Logs([item], before, after);
    assert [Item(0, Validated, Active)][0].skill == 0;
  }

  // --- the log of status writes ---

  datatype PatchResult = Patched | NotFound | Forbidden
  datatype RevertResult = Reverted | NoSuchRun | SkillMissing
  // One status write: all statuses before it, the skill, and its new status.
  datatype StatusWrite = StatusWrite(before: map<nat, Status>, skill: nat, to: Status)

  predicate GuardedWrite(w: StatusWrite) {
    w.skill in w.before && Hop(ALLOWED, w.before[w.skill], w.to)
  }

  function Resulting(w: StatusWrite): map<nat, Status> {
    w.before[w.skill := w.to]
  }

  function Statuses(skills: Skills): map<nat, Status> {
    map id | id in skills :: skills[id].status
  }

  /** Every write was a legal hop from the status its skill had, each began where the one before ended,
      and together they lead from the first statuses to the present ones: nothing was written past them. */
  ghost predicate Explains(start: map<nat, Status>, writes: seq<StatusWrite>, now: map<nat, Status>) {
    && (forall i :: 0 <= i < |writes| ==> GuardedWrite(writes[i]))
    && (forall i, j :: 0 <= i < j < |writes| && j == i + 1 ==> writes[j].before == Resulting(writes[i]))
    && (if writes == [] then now == start else writes[0].before == start && now == Resulting(writes[|writes| - 1]))
  }

  lemma ExplainsOneMore(start: map<nat, Status>, writes: seq<StatusWrite>, now: map<nat, Status>, id: nat, to: Status)
    requires Explains(start, writes, now) && id in now && Hop(ALLOWED, now[id], to)
    ensures Explains(start, writes + [StatusWrite(now, id, to)], now[id := to])
  {
  }

  /** What the log can hold: a write to active starts at validated, one to validated at candidate, one to
      candidate at blocked, one to deprecated at active, and none touches an archived skill. */
  lemma WritesFollowLifecycle(start: map<nat, Status>, writes: seq<StatusWrite>, now: map<nat, Status>, i: nat)
    requires Explains(start, writes, now) && i < |writes|
    ensures writes[i].skill in writes[i].before
    ensures var from, to := writes[i].before[writes[i].skill], writes[i].to;
            && (to == Active ==> from == Validated) && (to == Validated ==> from == Candidate)
            && (to == Candidate ==> from == Blocked) && (to == Deprecated ==> from == Active)
            && (to == Blocked ==> from != Blocked) && from != Archived && to != Archived
  {
    assert GuardedWrite(writes[i]);
    HopsAreExactly(writes[i].before[writes[i].skill], writes[i].to);
  }

  lemma ExplainsOneLess(start: map<nat, Status>, writes: seq<StatusWrite>, now: map<nat, Status>)
    requires Explains(start, writes, now) && writes != []
    ensures Explains(start, writes[..|writes| - 1], writes[|writes| - 1].before)
  {
    var n := |writes| - 1;
    if n > 0 {
      assert writes[n].before == Resulting(writes[n - 1]);
    }
  }

  ghost predicate WrittenFrom(w: StatusWrite, id: nat, from: Status, to: Status) {
    w.skill == id && id in w.before && w.before[id] == from && w.to == to
  }

  lemma {:induction false} LastWriteTo(start: map<nat, Status>, writes: seq<StatusWrite>, now: map<nat, Status>, id: nat, from: Status, to: Status)
    returns (i: nat)
    requires Explains(start, writes, now) && id in start && start[id] != to
    requires forall u :: Hop(ALLOWED, u, to) ==> u == from
    ensures id in now && (now[id] == to ==>
              i < |writes| && WrittenFrom(writes[i], id, from, to) && Explains(start, writes[..i], writes[i].before))
    decreases |writes|
  {
    i := 0;
    if writes != [] {
      var n := |writes| - 1;
      var w := writes[n];
      assert GuardedWrite(w) && now == Resulting(w);
      ExplainsOneLess(start, writes, now);
      i := LastWriteTo(start, writes[..n], w.before, id, from, to);
      if w.skill == id && w.to == to {
        i := n;
      } else if now[id] == to {
        assert writes[..n][..i] == writes[..i];
      }
    }
  }

  /** A skill that was neither validated nor active at first and is active now was written from candidate
      to validated and then from validated to active: no write and no revert skips the validation. */
  lemma ActiveWasValidated(start: map<nat, Status>, writes: seq<StatusWrite>, now: map<nat, Status>, id: nat) returns (i: nat, j: nat)
    requires Explains(start, writes, now) && id in start && start[id] != Active && start[id] != Validated
    ensures id in now && (now[id] == Active ==>
              i < j < |writes| && WrittenFrom(writes[i], id, Candidate, Validated) && WrittenFrom(writes[j], id, Validated, Active))
  {
    forall u ensures Hop(ALLOWED, u, Active) ==> u == Validated { HopsAreExactly(u, Active); }
    forall u ensures Hop(ALLOWED, u, Validated) ==> u == Candidate { HopsAreExactly(u, Validated); }
    i := 0;
    j := LastWriteTo(start, writes, now, id, Validated, Active);
    if now[id] == Active {
      i := LastWriteTo(start, writes[..j], writes[j].before, id, Candidate, Validated);
    }
  }

  /** No write makes a skill archived or takes it out of the archive. */
  lemma {:induction false} ArchiveIsClosed(start: map<nat, Status>, writes: seq<StatusWrite>, now: map<nat, Status>, id: nat)
    requires Explains(start, writes, now) && id in start
    ensures id in now && (now[id] == Archived <==> start[id] == Archived)
    decreases |writes|
  {
    if writes != [] {
      var n := |writes| - 1;
      WritesFollowLifecycle(start, writes, now, n);
      ExplainsOneLess(start, writes, now);
      ArchiveIsClosed(start, writes[..n], writes[n].before, id);
    }
  }

  lemma StatusesUpdated(skills: Skills, id: nat, s: Skill)
    requires id in skills
    ensures Statuses(skills[id := s]) == Statuses(skills)[id := s.status]
    ensures s.status == skills[id].status ==> Statuses(skills[id := s]) == Statuses(skills)
  {
  }

  /** now is was and one write to the skill for each hop. */
  ghost predicate Hops(was: seq<StatusWrite>, now: seq<StatusWrite>, id: nat, path: seq<Status>) {
    && |now| == |was| + |path| && now[..|was|] == was
    && forall i :: |was| <= i < |now| ==> now[i].skill == id && now[i].to == path[i - |was|]
  }

  lemma HopsOneMore(was: seq<StatusWrite>, now: seq<StatusWrite>, id: nat, path: seq<Status>, k: nat, w: StatusWrite)
    requires k < |path| && Hops(was, now, id, path[..k]) && w.skill == id && w.to == path[k]
    ensures Hops(was, now + [w], id, path[..k + 1])
  {
    assert path[..k + 1] == path[..k] + [path[k]];
    assert (now + [w])[..|was|] == now[..|was|];
  }

  ghost predicate Shortest(from: Status, to: Status, path: seq<Status>) {
    Leads(ALLOWED, from, to, path) && forall p :: Leads(ALLOWED, from, to, p) ==> |path| <= |p|
  }

  /** The writes made are those of the one shortest way. */
  ghost predicate WalksRoute(was: seq<StatusWrite>, now: seq<StatusWrite>, id: nat, from: Status, to: Status) {
    (from == to || (from != Archived && to != Archived)) && Hops(was, now, id, Route(from, to))
  }

  // --- the service ---

  class Reevaluator {
    var skills: Skills
    var runs: seq<Run>
    ghost const start: map<nat, Status>  // the statuses there were at first
    ghost var writes: seq<StatusWrite>   // every status write ever made, oldest first

    constructor (s: Skills)
      ensures skills == s && runs == [] && writes == [] && start == Statuses(s) && Valid()
    {
      skills := s;
      runs := [];
      start := Statuses(s);
      writes := [];
    }

    /** The statuses are what the guarded writes made of the first ones. */
    ghost predicate Valid()
      reads this
    {
      ValidTrail(runs) && Explains(start, writes, Statuses(skills))
    }

    method PatchStatus(id: nat, to: Status) returns (r: PatchResult)
      requires Valid()
      modifies this`skills, this`writes
      ensures Valid()
      ensures r == NotFound <==> id !in old(skills)
      ensures r == Patched <==> id in old(skills) && Hop(ALLOWED, old(skills)[id].status, to)
      ensures r == Patched ==> skills == old(skills)[id := old(skills)[id].(status := to)]
      ensures r == Patched ==> writes == old(writes) + [StatusWrite(Statuses(old(skills)), id, to)]
      ensures r != Patched ==> skills == old(skills) && writes == old(writes)
    {
      if id !in skills {
        return NotFound;
      }
      var current := skills[id].status;
      if current !in ALLOWED || to !in ALLOWED[current] {
        return Forbidden;
      }
      ExplainsOneMore(start, writes, Statuses(skills), id, to);
      StatusesUpdated(skills, id, skills[id].(status := to));
      writes := writes + [StatusWrite(Statuses(skills), id, to)];
      skills := skills[id := skills[id].(status := to)];
      return Patched;
    }

    /** walk: one PatchStatus per hop. On a legal chain no hop is refused, and the log grows by the hops. */
    method Walk(id: nat, path: seq<Status>) returns (reached: Status, ok: bool)
      requires Valid() && id in skills && Legal(ALLOWED, skills[id].status, path)
      modifies this`skills, this`writes
      ensures Valid() && ok && reached == End(old(skills)[id].status, path)
      ensures skills == old(skills)[id := old(skills)[id].(status := reached)]
      ensures Hops(old(writes), writes, id, path)
    {
      reached := skills[id].status;
      for k := 0 to |path|
        invariant Valid() && Legal(ALLOWED, reached, path[k..])
        invariant End(reached, path[k..]) == End(old(skills)[id].status, path)
        invariant skills == old(skills)[id := old(skills)[id].(status := reached)]
        invariant Hops(old(writes), writes, id, path[..k])
      {
        assert path[k..][0] == path[k] && path[k..][1..] == path[k + 1..];
        HopsOneMore(old(writes), writes, id, path, k, StatusWrite(Statuses(skills), id, path[k]));
        var r := PatchStatus(id, path[k]);
        if r != Patched {
          return reached, false;
        }
        reached := path[k];
      }
      assert path[..|path|] == path;
      ok := true;
    }

    /** One skill of the plan: write the proposed status through the guard and log the change. */
    method ApplyOne(order: seq<nat>, k: nat, attempts: nat -> nat, ghost before: Skills, items: seq<Item>) returns (items': seq<Item>)
      requires Valid() && k < |order| && order[k] in before && order[k] !in order[..k]
      requires PlanDone(order, k, attempts, before, skills, items)
      modifies this`skills, this`writes
      ensures Valid() && PlanDone(order, k + 1, attempts, before, skills, items')
      ensures old(writes) <= writes && |writes| - |old(writes)| == |items'| - |items|
    {
      var id := order[k];
      PlanStep(order, k, attempts, before, skills, items);
      var current := skills[id].status;
      var proposed := Proposed(current, attempts(id));
      items' := items;
      if proposed != current {
        GatesInAttempts(current, attempts(id));
        var r := PatchStatus(id, proposed);
        items' := items + [Item(id, current, proposed)];
      }
    }

    /** Apply: unconfirmed it only plans; confirmed it writes every proposed status through the
        guard and, if anything changed, appends the exact change log to the trail. */
    method Apply(confirm: bool, order: seq<nat>, attempts: nat -> nat) returns (changes: nat)
      requires Valid()
      requires forall id :: id in order <==> id in skills
      requires forall i :: 0 <= i < |order| ==> order[i] !in order[..i]
      modifies this
      ensures Valid()
      ensures !confirm ==> skills == old(skills) && runs == old(runs) && writes == old(writes)
      ensures confirm ==> ApplyCall(old(skills), old(runs), attempts, skills, runs)
      ensures |writes| == |old(writes)| + changes && old(writes) <= writes
      ensures confirm && changes > 0 ==> |runs| == |old(runs)| + 1 && |runs[|old(runs)|].items| == changes
      ensures changes == 0 ==> runs == old(runs)
    {
      changes := 0;
      if !confirm {
        return;
      }
      var items: seq<Item> := [];
      for k := 0 to |order|
        invariant Valid() && runs == old(runs) && PlanDone(order, k, attempts, old(skills), skills, items)
        invariant changes == |items| && |writes| == |old(writes)| + changes && old(writes) <= writes
      {
        items := ApplyOne(order, k, attempts, old(skills), items);
        changes := |items|;
      }
      PlanFinished(order, attempts, old(skills), skills, items, runs);
      if items != [] {
        runs := runs + [Run(Mode.Apply, items)];
      }
    }

    /** Search for a legal chain from the live status and walk it: a shortest one, or none at all. */
    method MoveBack(id: nat, prior: Status) returns (moved: bool)
      requires Valid() && id in skills
      modifies this`skills, this`writes
      ensures Valid()
      ensures skills == old(skills)[id := old(skills)[id].(status := Restored(old(skills)[id].status, prior))]
      ensures moved <==> skills[id].status != old(skills)[id].status
      ensures exists path :: Hops(old(writes), writes, id, path) && Shortest(old(skills)[id].status, skills[id].status, path)
      ensures WalksRoute(old(writes), writes, id, old(skills)[id].status, skills[id].status)
    {
      var from := skills[id].status;
      assert Hops(writes, writes, id, []) && Shortest(from, from, []);
      if from == prior {
        return false;
      }
      OrderIsComplete();
      ReachableStatuses(from, prior);
      var path, ok := FindPath(ALLOWED, STATUS_ORDER, from, prior);
      if !ok {
        return false;
      }
      assert Shortest(from, prior, path);
      RouteLeads(from, prior);
      RouteIsOnlyShortest(from, prior, path);
      var reached, walked := Walk(id, path);
      moved := true;
    }

    /** One item of a revert: move the skill back and, when asked to, count the rollback. */
    method RevertItem(it: Item, emit: bool) returns (moved: bool)
      requires Valid() && it.skill in skills
      modifies this`skills, this`writes
      ensures Valid()
      ensures skills == old(skills)[it.skill := RevertedSkill(old(skills)[it.skill], it.prior, emit)]
      ensures moved <==> skills[it.skill].status != old(skills)[it.skill].status
      ensures exists path ::
                Hops(old(writes), writes, it.skill, path) && Shortest(old(skills)[it.skill].status, skills[it.skill].status, path)
      ensures WalksRoute(old(writes), writes, it.skill, old(skills)[it.skill].status, skills[it.skill].status)
    {
      moved := MoveBack(it.skill, it.prior);
      if moved && emit {
        StatusesUpdated(skills, it.skill, skills[it.skill].(rollbacks := skills[it.skill].rollbacks + 1));
        skills := skills[it.skill := skills[it.skill].(rollbacks := skills[it.skill].rollbacks + 1)];
      }
    }

    /** Revert item i and log the move, if it moved. */
    method RevertAndLog(items: seq<Item>, i: nat, emit: bool, ghost before: Skills, log: seq<Item>) returns (log': seq<Item>)
      requires Valid() && i < |items| && Distinct(items) && items[i].skill in skills
      requires RevertDone(items, i, emit, before, skills, log)
      modifies this`skills, this`writes
      ensures Valid() && RevertDone(items, i + 1, emit, before, skills, log')
    {
      RevertStep(items, i, emit, before, skills, log);
      var it := items[i];
      var from := skills[it.skill].status;
      var moved := RevertItem(it, emit);
      log' := if moved then log + [Item(it.skill, from, skills[it.skill].status)] else log;
    }

    /** revertRun: restores every item's prior status from where the skill is now and appends the
        exact change log of doing so. A missing skill stops it before the trail is written. */
    method RevertRun(k: nat) returns (r: RevertResult, ghost done: nat)
      requires Valid()
      modifies this
      ensures Valid()
      ensures r == NoSuchRun <==> k >= |old(runs)|
      ensures r == NoSuchRun ==> skills == old(skills) && runs == old(runs)
      ensures r == Reverted ==> RevertCall(k, old(skills), old(runs), skills, runs)
      ensures r == SkillMissing ==>
                && runs == old(runs) && done < |runs[k].items| && runs[k].items[done].skill !in skills
                && RevertedTo(runs[k].items[..done], !AlreadyReverted(runs, k), old(skills), skills)
    {
      done := 0;
      if k >= |runs| {
        return NoSuchRun, 0;
      }
      var items := runs[k].items;
      var emit := !AlreadyReverted(runs, k);
      var log: seq<Item> := [];
      for i := 0 to |items|
        invariant Valid() && runs == old(runs) && RevertDone(items, i, emit, old(skills), skills, log)
      {
        var it := items[i];
        if it.skill !in skills {
          return SkillMissing, i;
        }
        log := RevertAndLog(items, i, emit, old(skills), log);
      }
      RevertFinished(k, old(skills), runs, skills, log);
      runs := runs + [Run(Revert(k), log)];
      r := Reverted;
    }

    method RevertLast() returns (r: RevertResult)
      requires Valid()
      modifies this
      ensures Valid()
      ensures r == NoSuchRun <==> old(runs) == []
      ensures r == Reverted ==> RevertCall(|old(runs)| - 1, old(skills), old(runs), skills, runs)
      ensures r != Reverted ==> runs == old(runs)
    {
      if runs == [] {
        return NoSuchRun;
      }
      ghost var done;
      r, done := RevertRun(|runs| - 1);
    }
  }
}

// The outbox relay: retry backoff, claiming a batch, and one tick.
module Relay {
  import opened Sums

  // Durations and times in nanoseconds.
  const SECOND := 1_000_000_000
  const BACKOFF_BASE := 10 * SECOND
  const BACKOFF_CEILING := 300 * SECOND
  const DEFAULT_BATCH_LIMIT := 50
  const MAX_SHIFT := 6
  const MAX_INT64 := 0x7FFF_FFFF_FFFF_FFFF

  // --- backoff ---

  function Pow2(n: nat): nat {
    if n == 0 then 1 else 2 * Pow2(n - 1)
  }

  function Backoff(attempts: int): int {
    var n: nat := if attempts < 0 then 0 else attempts;
    if n >= MAX_SHIFT then BACKOFF_CEILING
    else
      var d := BACKOFF_BASE * Pow2(n);
      if d > BACKOFF_CEILING then BACKOFF_CEILING else d
  }

  function Min(a: int, b: int): int {
    if a <= b then a else b
  }

  function Max(a: int, b: int): int {
    if a >= b then a else b
  }

  lemma {:induction false} Pow2Grows(m: nat, n: nat)
    requires m <= n
    ensures 0 < Pow2(m) <= Pow2(n)
    decreases n
  {
    if m < n {
      Pow2Grows(m, n - 1);
    } else if n > 0 {
      Pow2Grows(m - 1, n - 1);
    }
  }

  /** Short-circuiting at six doublings changes nothing: for every integer the delay is ten seconds
      doubled once per attempt, capped at five minutes. */
  lemma BackoffIsCappedDoubling(attempts: int)
    ensures Backoff(attempts) == Min(BACKOFF_BASE * Pow2(Max(attempts, 0)), BACKOFF_CEILING)
  {
    if attempts >= MAX_SHIFT {
      Pow2Grows(MAX_SHIFT, attempts);
      assert Pow2(MAX_SHIFT) == 64;
    }
  }

  lemma BackoffMonotone(m: int, n: int)
    requires m <= n
    ensures BACKOFF_BASE <= Backoff(m) <= Backoff(n) <= BACKOFF_CEILING
  {
    BackoffIsCappedDoubling(m);
    BackoffIsCappedDoubling(n);
    Pow2Grows(0, Max(m, 0));
    Pow2Grows(Max(m, 0), Max(n, 0));
  }

  /** No shift that is evaluated leaves the int64 range. */
  lemma {:induction false} ShiftFits(n: nat)
    requires n < MAX_SHIFT
    ensures BACKOFF_BASE * Pow2(n) <= MAX_INT64
  {
    Pow2Grows(n, MAX_SHIFT);
    assert Pow2(MAX_SHIFT) == 64;
  }

  // --- rows ---

  // A row is named by its place in the table; rows are inserted and never deleted.
  datatype Event = Event(payload: nat, delivered: bool, attempts: int, next: int)

  predicate Due(e: Event, now: int) {
    !e.delivered && e.next <= now
  }

  function DueWeight(now: int): Event -> nat {
    (e: Event) => if Due(e, now) then 1 else 0
  }

  function DueCount(rows: seq<Event>, now: int): nat {
    Sum(rows, DueWeight(now))
  }

  predicate Distinct(ids: seq<nat>) {
    forall i, j :: 0 <= i < j < |ids| ==> ids[i] != ids[j]
  }

  /** ids is a batch of due rows, earliest first, with nothing earlier left out. */
  ghost predicate Batch(rows: seq<Event>, now: int, ids: seq<nat>) {
    && Distinct(ids)
    && (forall i :: 0 <= i < |ids| ==> ids[i] < |rows| && Due(rows[ids[i]], now))
    && (forall i, j :: 0 <= i < j < |ids| ==> rows[ids[i]].next <= rows[ids[j]].next)
    && (forall i, k :: 0 <= i < |ids| && 0 <= k < |rows| && Due(rows[k], now) && k !in ids ==> rows[ids[i]].next <= rows[k].next)
  }

  /** What one attempt at time now makes of a row. */
  function Attempted(e: Event, now: int, ok: bool): Event {
    if ok then e.(delivered := true) else e.(attempts := e.attempts + 1, next := now + Backoff(e.attempts + 1))
  }

  /** Exactly the rows of the batch are attempted. */
  ghost predicate Ticked(before: seq<Event>, after: seq<Event>, now: int, ids: seq<nat>, ok: nat -> bool) {
    && |after| == |before|
    && (forall i :: 0 <= i < |before| ==>
          after[i] == if i in ids then Attempted(before[i], now, ok(i)) else before[i])
  }

  /** A failed delivery waits strictly into the future, a delivered row is out: not due either way. */
  lemma AttemptedNotDue(e: Event, now: int, ok: bool)
    ensures !Due(Attempted(e, now, ok), now)
    ensures !ok ==> now + BACKOFF_BASE <= Attempted(e, now, ok).next <= now + BACKOFF_CEILING
  {
    BackoffMonotone(e.attempts + 1, e.attempts + 1);
  }

  /** The wait after a failure is the backoff of the attempts before it, as the comment on Backoff says,
      exactly for counts at which one more doubling changes nothing. A first retry waits twenty seconds. */
  lemma WaitsAsDocumentedIff(e: Event, now: int)
    ensures Attempted(e, now, false).next == now + Backoff(e.attempts) <==> e.attempts < 0 || e.attempts >= 5
    ensures e.attempts == 0 ==> Attempted(e, now, false).next == now + 20 * SECOND
  {
    BackoffIsCappedDoubling(e.attempts);
    BackoffIsCappedDoubling(e.attempts + 1);
    assert Pow2(0) == 1 && Pow2(1) == 2 && Pow2(2) == 4 && Pow2(3) == 8 && Pow2(4) == 16 && Pow2(5) == 32;
    if e.attempts >= 5 {
      Pow2Grows(5, e.attempts);
      Pow2Grows(5, e.attempts + 1);
    }
  }

  /** The row after failures at the given times, one after the other. */
  function AfterFailures(e: Event, times: seq<int>): Event {
    if times == [] then e else Attempted(AfterFailures(e, times[..|times| - 1]), times[|times| - 1], false)
  }

  /** k failures in a row raise the count by k; the wait after the last is ten seconds doubled once per
      count, up to five minutes, from that failure on. */
  lemma {:induction false} FailuresInARow(e: Event, times: seq<int>)
    ensures var r, k := AfterFailures(e, times), |times|;
            && r.attempts == e.attempts + k && r.payload == e.payload && r.delivered == e.delivered
            && (k == 0 ==> r == e)
            && (k > 0 && e.attempts >= 0 ==>
                  r.next == times[k - 1] + Min(10_000_000_000 * Pow2(e.attempts + k), 300_000_000_000))
    decreases |times|
  {
    if times != [] {
      FailuresInARow(e, times[..|times| - 1]);
      BackoffIsCappedDoubling(e.attempts + |times|);
    }
  }

  // --- the repository and one tick ---

  ghost function Masked(rows: seq<Event>, ids: seq<nat>): (m: seq<Event>)
    ensures |m| == |rows|
    ensures forall i :: 0 <= i < |rows| ==> m[i] == if i in ids then rows[i].(delivered := true) else rows[i]
  {
    seq(|rows|, i requires 0 <= i < |rows| => if i in ids then rows[i].(delivered := true) else rows[i])
  }

  lemma MaskOneMore(rows: seq<Event>, now: int, ids: seq<nat>, k: nat)
    requires k < |rows| && k !in ids && Due(rows[k], now)
    ensures DueCount(Masked(rows, ids + [k]), now) + 1 == DueCount(Masked(rows, ids), now)
  {
    var e := rows[k].(delivered := true);
    assert forall i :: 0 <= i < |rows| ==> (i in ids + [k] <==> i in ids || i == k);
    assert Masked(rows, ids + [k]) == Masked(rows, ids)[k := e];
    SumUpdate(Masked(rows, ids), k, e, DueWeight(now));
  }

  lemma MaskNothing(rows: seq<Event>, now: int)
    ensures DueCount(Masked(rows, []), now) == DueCount(rows, now)
  {
    assert Masked(rows, []) == rows;
  }

  lemma MaskedAll(rows: seq<Event>, now: int, ids: seq<nat>)
    requires forall i :: 0 <= i < |rows| && Due(rows[i], now) ==> i in ids
    ensures DueCount(Masked(rows, ids), now) == 0
  {
    SumZero(Masked(rows, ids), DueWeight(now));
  }

  lemma OneLessDue(rows: seq<Event>, id: nat, row: Event, now: int)
    requires id < |rows| && Due(rows[id], now) && !Due(row, now)
    ensures DueCount(rows[id := row], now) + 1 == DueCount(rows, now)
  {
    SumUpdate(rows, id, row, DueWeight(now));
  }

  class OutboxRepo {
    var rows: seq<Event>

    /** The due row outside `taken` with the least next attempt, or |rows|. */
    method EarliestDue(taken: seq<nat>, now: int) returns (k: nat)
      ensures k <= |rows|
      ensures k < |rows| ==> Due(rows[k], now) && k !in taken
      ensures forall i :: 0 <= i < |rows| && Due(rows[i], now) && i !in taken ==> k < |rows| && rows[k].next <= rows[i].next
    {
      k := |rows|;
      for i := 0 to |rows|
        invariant k < i || k == |rows|
        invariant k < |rows| ==> Due(rows[k], now) && k !in taken
        invariant forall j :: 0 <= j < i && Due(rows[j], now) && j !in taken ==> k < |rows| && rows[k].next <= rows[j].next
      {
        if Due(rows[i], now) && i !in taken && (k == |rows| || rows[i].next < rows[k].next) {
          k := i;
        }
      }
    }

    /** ClaimDue: the earliest due rows, as many as there are up to the limit. */
    method ClaimDue(limit: nat, now: int) returns (ids: seq<nat>)
      ensures Batch(rows, now, ids) && |ids| == Min(limit, DueCount(rows, now))
    {
      ids := [];
      MaskNothing(rows, now);
      while |ids| < limit
        invariant |ids| <= limit && Batch(rows, now, ids)
        invariant |ids| + DueCount(Masked(rows, ids), now) == DueCount(rows, now)
      {
        var k := EarliestDue(ids, now);
        if k == |rows| {
          MaskedAll(rows, now, ids);
          return;
        }
        MaskOneMore(rows, now, ids, k);
        BatchGrows(rows, now, ids, k);
        ids := ids + [k];
      }
    }

    method MarkDelivered(id: nat)
      requires id < |rows|
      modifies this
      ensures rows == old(rows)[id := old(rows)[id].(delivered := true)]
    {
      rows := rows[id := rows[id].(delivered := true)];
    }

    /** Reschedule leaves the status alone. */
    method Reschedule(id: nat, attempts: int, next: int)
      requires id < |rows|
      modifies this
      ensures rows == old(rows)[id := old(rows)[id].(attempts := attempts, next := next)]
    {
      rows := rows[id := rows[id].(attempts := attempts, next := next)];
    }
  }

  lemma BatchGrows(rows: seq<Event>, now: int, ids: seq<nat>, k: nat)
    requires Batch(rows, now, ids) && k < |rows| && Due(rows[k], now) && k !in ids
    requires forall i :: 0 <= i < |rows| && Due(rows[i], now) && i !in ids ==> rows[k].next <= rows[i].next
    ensures Batch(rows, now, ids + [k])
  {
    assert forall x :: x in ids ==> x in ids + [k];
  }

  function EffectiveLimit(batchLimit: int): nat {
    if batchLimit <= 0 then DEFAULT_BATCH_LIMIT else batchLimit
  }

  /** One claimed row: mark it on a good answer, else push it back by the next backoff. */
  method AttemptRow(repo: OutboxRepo, id: nat, now: int, ok: bool)
    requires id < |repo.rows|
    modifies repo
    ensures repo.rows == old(repo.rows)[id := Attempted(old(repo.rows)[id], now, ok)]
  {
    if ok {
      repo.MarkDelivered(id);
    } else {
      var attempts := repo.rows[id].attempts + 1;
      repo.Reschedule(id, attempts, now + Backoff(attempts));
    }
  }

  /** Tick: whatever the deliveries answer, the due rows go down by exactly the smaller of the limit
      and their number; each claimed row is marked or rescheduled and no other row is touched. */
  method Tick(repo: OutboxRepo, batchLimit: int, now: int, ok: nat -> bool) returns (ghost ids: seq<nat>)
    modifies repo
    ensures Batch(old(repo.rows), now, ids) && Ticked(old(repo.rows), repo.rows, now, ids, ok)
    ensures |ids| == Min(if batchLimit <= 0 then 50 else batchLimit, DueCount(old(repo.rows), now))
    ensures DueCount(repo.rows, now) == DueCount(old(repo.rows), now) - |ids|
  {
    ghost var before := repo.rows;
    var claimed := repo.ClaimDue(EffectiveLimit(batchLimit), now);
    ids := claimed;
    for k := 0 to |claimed|
      invariant Ticked(before, repo.rows, now, claimed[..k], ok)
      invariant DueCount(repo.rows, now) + k == DueCount(before, now)
    {
      var id := claimed[k];
      assert id !in claimed[..k];
      assert claimed[..k + 1] == claimed[..k] + [id];
      ghost var row := Attempted(before[id], now, ok(id));
      AttemptedNotDue(before[id], now, ok(id));
      OneLessDue(repo.rows, id, row, now);
      TickedOneMore(before, repo.rows, now, claimed[..k], id, ok);
      AttemptRow(repo, id, now, ok(id));
    }
    assert claimed[..|claimed|] == claimed;
  }

  lemma TickedOneMore(before: seq<Event>, table: seq<Event>, now: int, ids: seq<nat>, id: nat, ok: nat -> bool)
    requires Ticked(before, table, now, ids, ok) && id < |before| && id !in ids
    ensures Ticked(before, table[id := Attempted(before[id], now, ok(id))], now, ids + [id], ok)
  {
    assert forall i: nat :: i in ids + [id] <==> i in ids || i == id;
  }

  /** The row was claimed in this tick and is still not delivered after it. */
  ghost predicate FailedTick(before: seq<Event>, after: seq<Event>, now: int, id: nat) {
    && id < |after| && !after[id].delivered
    && exists ids, ok :: Batch(before, now, ids) && Ticked(before, after, now, ids, ok) && id in ids
  }

  lemma ClaimedRow(before: seq<Event>, after: seq<Event>, now: int, ids: seq<nat>, ok: nat -> bool, id: nat)
    requires Batch(before, now, ids) && Ticked(before, after, now, ids, ok) && id in ids
    ensures id < |before| == |after| && Due(before[id], now) && after[id] == Attempted(before[id], now, ok(id))
  {
    var i :| 0 <= i < |ids| && ids[i] == id;
  }

  lemma FailedTickRow(before: seq<Event>, after: seq<Event>, now: int, id: nat)
    requires FailedTick(before, after, now, id)
    ensures id < |before| == |after| && Due(before[id], now) && after[id] == Attempted(before[id], now, false)
  {
    var ids, ok :| Batch(before, now, ids) && Ticked(before, after, now, ids, ok) && id in ids;
    ClaimedRow(before, after, now, ids, ok, id);
  }

  /** Each tick but the last was followed by one at the given time in which the delivery of the row failed. */
  ghost predicate FailingTicks(tables: seq<seq<Event>>, times: seq<int>, id: nat) {
    |tables| == |times| + 1 &&
    forall i, j :: 0 <= i < j < |tables| && j == i + 1 ==> FailedTick(tables[i], tables[j], times[i], id)
  }

  lemma {:induction false} FailingTicksTo(tables: seq<seq<Event>>, times: seq<int>, id: nat, n: nat)
    requires FailingTicks(tables, times, id) && id < |tables[0]| && n <= |times|
    ensures id < |tables[n]| && tables[n][id] == AfterFailures(tables[0][id], times[..n])
  {
    if n > 0 {
      FailingTicksTo(tables, times, id, n - 1);
      assert FailedTick(tables[n - 1], tables[n], times[n - 1], id);
      FailedTickRow(tables[n - 1], tables[n], times[n - 1], id);
      assert times[..n][..n - 1] == times[..n - 1];
    }
  }

  /** Over ticks whose deliveries of a row keep failing, the row counts them all, and its waits double up to
      five minutes: 20, 40, 80, 160 and then 300 seconds for a new row. */
  lemma FailuresCount(tables: seq<seq<Event>>, times: seq<int>, id: nat)
    requires FailingTicks(tables, times, id) && id < |tables[0]| && times != []
    ensures var k, e := |times|, tables[0][id];
            && id < |tables[k]| && tables[k][id].attempts == e.attempts + k && !tables[k][id].delivered
            && (e.attempts >= 0 ==>
                  tables[k][id].next == times[k - 1] + Min(10_000_000_000 * Pow2(e.attempts + k), 300_000_000_000))
  {
    var k := |times|;
    FailingTicksTo(tables, times, id, k);
    assert times[..k] == times;
    FailuresInARow(tables[0][id], times);
    assert FailedTick(tables[0], tables[1], times[0], id);
    FailedTickRow(tables[0], tables[1], times[0], id);
  }

  // --- repeated ticks ---

  /** One tick as a relation between tables. */
  ghost predicate TickStep(before: seq<Event>, after: seq<Event>, limit: nat, now: int) {
    exists ids, ok :: Batch(before, now, ids) && Ticked(before, after, now, ids, ok) && |ids| == Min(limit, DueCount(before, now))
      && DueCount(after, now) == DueCount(before, now) - |ids|
  }

  /** n ticks deal with every row due now as soon as n batches have room for them. */
  lemma {:induction false} TicksDrain(tables: seq<seq<Event>>, limit: nat, now: int)
    requires |tables| > 0 && forall i, j :: 0 <= i < j < |tables| && j == i + 1 ==> TickStep(tables[i], tables[j], limit, now)
    ensures DueCount(tables[|tables| - 1], now) == Max(DueCount(tables[0], now) - (|tables| - 1) * limit, 0)
    decreases |tables|
  {
    if |tables| > 1 {
      assert TickStep(tables[0], tables[1], limit, now);
      assert tables[1..][|tables| - 2] == tables[|tables| - 1];
      TicksDrain(tables[1..], limit, now);
      var n, d := |tables| - 1, DueCount(tables[0], now);
      assert n * limit == (n - 1) * limit + limit;
    }
  }
}

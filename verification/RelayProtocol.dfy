// Several relays over one outbox table, interleaved statement by statement, each free to crash at
// any point. A claim takes its locks only for the statement, so claims may overlap.
module RelayProtocol {
  import opened Relay
  import opened Sums

  // A claimed row as the relay read it.
  datatype Claim = Claim(id: nat, payload: nat, attempts: int)

  datatype Worker =
    | Resting
    | Holding(batch: seq<Claim>, now: int)              // the head is to be posted
    | Answered(batch: seq<Claim>, now: int, ok: bool)   // the head was posted; the row is to be written

  // received: the payload posts that reached the other side, oldest first.
  datatype Receipt = Receipt(id: nat, payload: nat)
  datatype State = State(rows: seq<Event>, workers: seq<Worker>, received: seq<Receipt>)

  datatype Action =
    | Enqueue(payload: nat, at: int)
    | TakeBatch(worker: nat, ids: seq<nat>, now: int)
    | Post(worker: nat, ok: bool, arrived: bool)
    | Write(worker: nat, lost: bool)
    | Crash(worker: nat)

  predicate Claimable(rows: seq<Event>, ids: seq<nat>, now: int) {
    Distinct(ids) && forall i :: 0 <= i < |ids| ==> ids[i] < |rows| && Due(rows[ids[i]], now)
  }

  function Snapshot(rows: seq<Event>, ids: seq<nat>): (claims: seq<Claim>)
    requires forall i :: 0 <= i < |ids| ==> ids[i] < |rows|
    ensures |claims| == |ids|
    ensures forall i :: 0 <= i < |ids| ==> claims[i] == Claim(ids[i], rows[ids[i]].payload, rows[ids[i]].attempts)
  {
    seq(|ids|, i requires 0 <= i < |ids| => Claim(ids[i], rows[ids[i]].payload, rows[ids[i]].attempts))
  }

  /** A tick goes on with what is left of its batch, and ends when nothing is. */
  function Onto(batch: seq<Claim>, now: int): Worker {
    if batch == [] then Resting else Holding(batch, now)
  }

  predicate Enabled(s: State, a: Action) {
    match a
    case Enqueue(_, _) => true
    case TakeBatch(w, ids, now) => w < |s.workers| && s.workers[w].Resting? && Claimable(s.rows, ids, now)
    case Post(w, ok, arrived) =>
      w < |s.workers| && s.workers[w].Holding? && s.workers[w].batch != [] && (ok ==> arrived)
    case Write(w, _) => w < |s.workers| && s.workers[w].Answered? && s.workers[w].batch != [] && s.workers[w].batch[0].id < |s.rows|
    case Crash(w) => w < |s.workers|
  }

  /** MarkDelivered after a good answer, Reschedule from the claimed attempt count otherwise. */
  function Written(row: Event, claim: Claim, now: int, ok: bool): Event {
    if ok then row.(delivered := true)
    else row.(attempts := claim.attempts + 1, next := now + Backoff(claim.attempts + 1))
  }

  /** A row that nobody else wrote since it was claimed becomes what one attempt makes of it. */
  lemma WrittenIsAttempted(row: Event, claim: Claim, now: int, ok: bool)
    requires claim.attempts == row.attempts
    ensures Written(row, claim, now, ok) == Attempted(row, now, ok)
  {
  }

  function Next(s: State, a: Action): State
    requires Enabled(s, a)
  {
    match a
    case Enqueue(payload, at) => s.(rows := s.rows + [Event(payload, false, 0, at)])
    case TakeBatch(w, ids, now) => s.(workers := s.workers[w := Onto(Snapshot(s.rows, ids), now)])
    case Post(w, ok, arrived) =>
      var h := s.workers[w];
      s.(workers := s.workers[w := Answered(h.batch, h.now, ok)],
         received := if arrived then s.received + [Receipt(h.batch[0].id, h.batch[0].payload)] else s.received)
    case Write(w, lost) =>
      var h := s.workers[w];
      var id := h.batch[0].id;
      s.(workers := s.workers[w := Onto(h.batch[1..], h.now)],
         rows := if lost then s.rows else s.rows[id := Written(s.rows[id], h.batch[0], h.now, h.ok)])
    case Crash(w) => s.(workers := s.workers[w := Resting])
  }

  /** No crash, no lost write, and an answer is good exactly if the post arrived. */
  predicate Faultless(a: Action) {
    match a
    case Post(_, ok, arrived) => ok == arrived
    case Write(_, lost) => !lost
    case Crash(_) => false
    case _ => true
  }

  ghost predicate IsRun(s: State, run: seq<Action>, t: State)
    decreases |run|
  {
    if run == [] then s == t else Enabled(s, run[0]) && IsRun(Next(s, run[0]), run[1..], t)
  }

  ghost predicate Start(s: State) {
    s.rows == [] && s.received == [] && forall w :: 0 <= w < |s.workers| ==> s.workers[w].Resting?
  }

  ghost predicate Reachable(s: State) {
    exists s0, run :: Start(s0) && IsRun(s0, run, s)
  }

  // --- invariant ---

  predicate GoodClaim(rows: seq<Event>, claim: Claim) {
    claim.id < |rows| && claim.payload == rows[claim.id].payload
  }

  predicate GoodReceipt(rows: seq<Event>, receipt: Receipt) {
    receipt.id < |rows| && receipt.payload == rows[receipt.id].payload
  }

  predicate Received(received: seq<Receipt>, id: nat) {
    exists i :: 0 <= i < |received| && received[i].id == id
  }

  predicate GoodWorker(rows: seq<Event>, received: seq<Receipt>, h: Worker) {
    !h.Resting? ==>
      && h.batch != [] && (forall i :: 0 <= i < |h.batch| ==> GoodClaim(rows, h.batch[i]))
      && (h.Answered? && h.ok ==> Received(received, h.batch[0].id))
  }

  ghost predicate Inv(s: State) {
    && (forall w :: 0 <= w < |s.workers| ==> GoodWorker(s.rows, s.received, s.workers[w]))
    && (forall i :: 0 <= i < |s.received| ==> GoodReceipt(s.rows, s.received[i]))
    && (forall id :: 0 <= id < |s.rows| && s.rows[id].delivered ==> Received(s.received, id))
  }

  /** Rows are never removed or altered in payload, delivered is never undone, receipts accumulate. */
  ghost predicate Onward(s: State, t: State) {
    && |s.rows| <= |t.rows| && s.received <= t.received
    && (forall id :: 0 <= id < |s.rows| ==>
          t.rows[id].payload == s.rows[id].payload && (s.rows[id].delivered ==> t.rows[id].delivered))
  }

  lemma ReceivedStays(a: seq<Receipt>, b: seq<Receipt>, id: nat)
    requires a <= b && Received(a, id)
    ensures Received(b, id)
  {
    var i :| 0 <= i < |a| && a[i].id == id;
    assert b[i] == a[i];
  }

  lemma WorkerStays(s: State, t: State, h: Worker)
    requires Onward(s, t) && GoodWorker(s.rows, s.received, h)
    ensures GoodWorker(t.rows, t.received, h)
  {
    if !h.Resting? {
      forall i | 0 <= i < |h.batch| ensures GoodClaim(t.rows, h.batch[i]) {
        assert GoodClaim(s.rows, h.batch[i]);
      }
      if h.Answered? && h.ok {
        ReceivedStays(s.received, t.received, h.batch[0].id);
      }
    }
  }

  lemma StepOnward(s: State, a: Action)
    requires Inv(s) && Enabled(s, a)
    ensures Onward(s, Next(s, a))
  {
  }

  /** The acting worker's new state is good. */
  lemma ActorGood(s: State, a: Action, w: nat)
    requires Inv(s) && Enabled(s, a) && !a.Enqueue? && w == a.worker
    ensures GoodWorker(Next(s, a).rows, Next(s, a).received, Next(s, a).workers[w])
  {
    var t := Next(s, a);
    StepOnward(s, a);
    assert GoodWorker(s.rows, s.received, s.workers[w]);
    WorkerStays(s, t, s.workers[w]);
    if a.Post? && a.arrived {
      assert t.received[|s.received|].id == s.workers[w].batch[0].id;
    }
  }

  lemma ReceiptsGood(s: State, a: Action)
    requires Inv(s) && Enabled(s, a)
    ensures forall i :: 0 <= i < |Next(s, a).received| ==> GoodReceipt(Next(s, a).rows, Next(s, a).received[i])
  {
    if a.Post? {
      assert GoodWorker(s.rows, s.received, s.workers[a.worker]);
      assert GoodClaim(s.rows, s.workers[a.worker].batch[0]);
    }
  }

  lemma DeliveredReceived(s: State, a: Action)
    requires Inv(s) && Enabled(s, a)
    ensures forall id :: 0 <= id < |Next(s, a).rows| && Next(s, a).rows[id].delivered ==> Received(Next(s, a).received, id)
  {
    var t := Next(s, a);
    StepOnward(s, a);
    forall id | 0 <= id < |t.rows| && t.rows[id].delivered ensures Received(t.received, id) {
      if id < |s.rows| && s.rows[id].delivered {
        ReceivedStays(s.received, t.received, id);
      } else if a.Write? {
        assert GoodWorker(s.rows, s.received, s.workers[a.worker]);
      }
    }
  }

  lemma StepKeeps(s: State, a: Action)
    requires Inv(s) && Enabled(s, a)
    ensures Inv(Next(s, a))
  {
    var t := Next(s, a);
    StepOnward(s, a);
    ReceiptsGood(s, a);
    DeliveredReceived(s, a);
    forall w | 0 <= w < |t.workers| ensures GoodWorker(t.rows, t.received, t.workers[w]) {
      if !a.Enqueue? && w == a.worker {
        ActorGood(s, a, w);
      } else {
        WorkerStays(s, t, s.workers[w]);
      }
    }
  }

  lemma OnwardTwice(s: State, t: State, u: State)
    requires Onward(s, t) && Onward(t, u)
    ensures Onward(s, u)
  {
    assert forall id :: 0 <= id < |s.rows| ==> t.rows[id].payload == s.rows[id].payload;
  }

  lemma {:induction false} RunsKeep(s: State, run: seq<Action>, t: State)
    requires Inv(s) && IsRun(s, run, t)
    ensures Inv(t) && Onward(s, t)
    decreases |run|
  {
    if run != [] {
      var m := Next(s, run[0]);
      StepKeeps(s, run[0]);
      StepOnward(s, run[0]);
      RunsKeep(m, run[1..], t);
      OnwardTwice(s, m, t);
    }
  }

  lemma ReachableInv(s: State)
    requires Reachable(s)
    ensures Inv(s)
  {
    var s0, run :| Start(s0) && IsRun(s0, run, s);
    RunsKeep(s0, run, s);
  }

  // --- theorems ---

  /** A row marked delivered has been received, with the payload that was enqueued, by whichever
      relays and through whatever crashes. */
  lemma DeliveredWasReceived(s: State, id: nat)
    requires Reachable(s) && id < |s.rows| && s.rows[id].delivered
    ensures exists i :: 0 <= i < |s.received| && s.received[i] == Receipt(id, s.rows[id].payload)
  {
    ReachableInv(s);
    var i :| 0 <= i < |s.received| && s.received[i].id == id;
    assert GoodReceipt(s.rows, s.received[i]);
  }

  /** Over any run from a reachable state no row disappears or changes its payload, and a delivered
      row stays delivered even against a late Reschedule. */
  lemma {:induction false} NothingIsLost(s: State, run: seq<Action>, t: State)
    requires Reachable(s) && IsRun(s, run, t)
    ensures Onward(s, t)
  {
    ReachableInv(s);
    RunsKeep(s, run, t);
  }

  // --- runs in which claims are what ClaimDue returns ---

  /** A step without faults, whose claim, if it is one, holds the earliest due rows up to the limit. */
  ghost predicate Smooth(limit: nat, s: State, a: Action) {
    && Enabled(s, a) && Faultless(a)
    && (a.TakeBatch? ==> Batch(s.rows, a.now, a.ids) && |a.ids| == Min(limit, DueCount(s.rows, a.now)))
  }

  ghost predicate SmoothRun(limit: nat, s: State, run: seq<Action>, t: State)
    decreases |run|
  {
    if run == [] then s == t else Smooth(limit, s, run[0]) && SmoothRun(limit, Next(s, run[0]), run[1..], t)
  }

  ghost predicate Leads(limit: nat, s: State, t: State) {
    exists run :: SmoothRun(limit, s, run, t)
  }

  /** Such a run is a run, and has no faults. */
  lemma {:induction false} SmoothIsRun(limit: nat, s: State, run: seq<Action>, t: State)
    requires SmoothRun(limit, s, run, t)
    ensures IsRun(s, run, t) && forall i :: 0 <= i < |run| ==> Faultless(run[i])
    decreases |run|
  {
    if run != [] {
      SmoothIsRun(limit, Next(s, run[0]), run[1..], t);
      assert forall i :: 0 < i < |run| ==> run[i] == run[1..][i - 1];
    }
  }

  lemma {:induction false} SmoothCompose(limit: nat, s: State, first: seq<Action>, m: State, second: seq<Action>, t: State)
    requires SmoothRun(limit, s, first, m) && SmoothRun(limit, m, second, t)
    ensures SmoothRun(limit, s, first + second, t)
    decreases |first|
  {
    if first == [] {
      assert first + second == second;
    } else {
      assert (first + second)[1..] == first[1..] + second;
      SmoothCompose(limit, Next(s, first[0]), first[1..], m, second, t);
    }
  }

  lemma LeadsNowhere(limit: nat, s: State)
    ensures Leads(limit, s, s)
  {
    assert SmoothRun(limit, s, [], s);
  }

  lemma LeadsOne(limit: nat, s: State, a: Action)
    requires Smooth(limit, s, a)
    ensures Leads(limit, s, Next(s, a))
  {
    assert [a][1..] == [];
    assert SmoothRun(limit, s, [a], Next(s, a));
  }

  lemma LeadsOnward(limit: nat, s: State, m: State, t: State)
    requires Leads(limit, s, m) && Leads(limit, m, t)
    ensures Leads(limit, s, t)
  {
    var first :| SmoothRun(limit, s, first, m);
    var second :| SmoothRun(limit, m, second, t);
    SmoothCompose(limit, s, first, m, second, t);
  }

  lemma LeadsKeeps(limit: nat, s: State, t: State)
    requires Inv(s) && Leads(limit, s, t)
    ensures Inv(t) && Onward(s, t)
  {
    var run :| SmoothRun(limit, s, run, t);
    SmoothIsRun(limit, s, run, t);
    RunsKeep(s, run, t);
  }

  // --- a relay works off what it holds ---

  function Ids(batch: seq<Claim>): (ids: seq<nat>)
    ensures |ids| == |batch| && forall i :: 0 <= i < |ids| ==> ids[i] == batch[i].id
  {
    seq(|batch|, i requires 0 <= i < |batch| => batch[i].id)
  }

  /** The state in which relay w has a batch in hand. */
  function At(s: State, w: nat, batch: seq<Claim>, now: int): State
    requires w < |s.workers|
  {
    s.(workers := s.workers[w := Onto(batch, now)])
  }

  /** The head is posted, received and marked. */
  function HeadDelivered(s: State, w: nat, batch: seq<Claim>, now: int): State
    requires w < |s.workers| && batch != [] && batch[0].id < |s.rows|
  {
    var id := batch[0].id;
    At(s.(rows := s.rows[id := s.rows[id].(delivered := true)],
          received := s.received + [Receipt(id, batch[0].payload)]), w, batch[1..], now)
  }

  lemma DeliverHead(limit: nat, s: State, w: nat, batch: seq<Claim>, now: int)
    requires w < |s.workers| && batch != [] && batch[0].id < |s.rows|
    ensures Leads(limit, At(s, w, batch, now), HeadDelivered(s, w, batch, now))
  {
    var s0 := At(s, w, batch, now);
    LeadsOne(limit, s0, Post(w, true, true));
    var s1 := Next(s0, Post(w, true, true));
    LeadsOne(limit, s1, Write(w, false));
    assert Next(s1, Write(w, false)) == HeadDelivered(s, w, batch, now);
    LeadsOnward(limit, s0, s1, HeadDelivered(s, w, batch, now));
  }

  lemma MaskHead(rows: seq<Event>, ids: seq<nat>)
    requires ids != [] && ids[0] < |rows|
    ensures Masked(rows[ids[0] := rows[ids[0]].(delivered := true)], ids[1..]) == Masked(rows, ids)
  {
    assert forall i: nat :: i in ids <==> i == ids[0] || i in ids[1..];
  }

  /** When every delivery is answered well, all rows of the batch end delivered and no other row changes. */
  lemma {:induction false} WorkOff(limit: nat, s: State, w: nat, batch: seq<Claim>, now: int) returns (t: State)
    requires w < |s.workers| && forall i :: 0 <= i < |batch| ==> batch[i].id < |s.rows|
    ensures Leads(limit, At(s, w, batch, now), t) && |t.workers| == |s.workers| && t.workers[w].Resting?
    ensures t.rows == Masked(s.rows, Ids(batch))
    decreases |batch|
  {
    if batch == [] {
      t := At(s, w, batch, now);
      LeadsNowhere(limit, t);
      assert Masked(s.rows, []) == s.rows && Ids(batch) == [];
    } else {
      var s1 := HeadDelivered(s, w, batch, now);
      DeliverHead(limit, s, w, batch, now);
      assert At(s1, w, batch[1..], now) == s1;
      t := WorkOff(limit, s1, w, batch[1..], now);
      LeadsOnward(limit, At(s, w, batch, now), s1, t);
      assert Ids(batch)[1..] == Ids(batch[1..]);
      MaskHead(s.rows, Ids(batch));
    }
  }

  // --- ticks ---

  /** The head is posted and its row written with whatever answer came. */
  function HeadAttempted(s: State, w: nat, batch: seq<Claim>, now: int, ok: bool): State
    requires w < |s.workers| && batch != [] && batch[0].id < |s.rows|
  {
    var id := batch[0].id;
    At(s.(rows := s.rows[id := Attempted(s.rows[id], now, ok)],
          received := if ok then s.received + [Receipt(id, batch[0].payload)] else s.received), w, batch[1..], now)
  }

  lemma AttemptHead(limit: nat, s: State, w: nat, batch: seq<Claim>, now: int, ok: bool)
    requires w < |s.workers| && batch != [] && batch[0].id < |s.rows| && batch[0].attempts == s.rows[batch[0].id].attempts
    ensures Leads(limit, At(s, w, batch, now), HeadAttempted(s, w, batch, now, ok))
  {
    var s0 := At(s, w, batch, now);
    LeadsOne(limit, s0, Post(w, ok, ok));
    var s1 := Next(s0, Post(w, ok, ok));
    LeadsOne(limit, s1, Write(w, false));
    WrittenIsAttempted(s.rows[batch[0].id], batch[0], now, ok);
    assert Next(s1, Write(w, false)) == HeadAttempted(s, w, batch, now, ok);
    LeadsOnward(limit, s0, s1, HeadAttempted(s, w, batch, now, ok));
  }

  /** The first k rows of the batch have been attempted, and the rest of it is in hand. */
  ghost predicate MidTick(s: State, t: State, w: nat, ids: seq<nat>, now: int, ok: nat -> bool, k: nat) {
    && k <= |ids| && w < |t.workers| && |t.workers| == |s.workers| && Ticked(s.rows, t.rows, now, ids[..k], ok)
    && (forall i :: 0 <= i < |ids| ==> ids[i] < |s.rows|)
    && t == At(t, w, Snapshot(s.rows, ids)[k..], now)
  }

  lemma MidTickOneMore(limit: nat, s: State, t: State, w: nat, ids: seq<nat>, now: int, ok: nat -> bool, k: nat) returns (t': State)
    requires k < |ids| && Distinct(ids) && MidTick(s, t, w, ids, now, ok, k)
    ensures Leads(limit, t, t') && MidTick(s, t', w, ids, now, ok, k + 1)
  {
    var batch, id := Snapshot(s.rows, ids)[k..], ids[k];
    assert id !in ids[..k];
    assert ids[..k + 1] == ids[..k] + [id];
    assert batch[1..] == Snapshot(s.rows, ids)[k + 1..];
    AttemptHead(limit, t, w, batch, now, ok(id));
    TickedOneMore(s.rows, t.rows, now, ids[..k], id, ok);
    t' := HeadAttempted(t, w, batch, now, ok(id));
  }

  /** A relay left alone for a tick does to the table what Tick does, for every claim of ClaimDue and
      whatever the deliveries answer. */
  lemma TickRefines(limit: nat, s: State, w: nat, ids: seq<nat>, now: int, ok: nat -> bool) returns (t: State)
    requires w < |s.workers| && s.workers[w].Resting?
    requires Batch(s.rows, now, ids) && |ids| == Min(limit, DueCount(s.rows, now))
    ensures Leads(limit, s, t) && Ticked(s.rows, t.rows, now, ids, ok) && w < |t.workers| && t.workers[w].Resting?
  {
    LeadsOne(limit, s, TakeBatch(w, ids, now));
    t := Next(s, TakeBatch(w, ids, now));
    for k := 0 to |ids|
      invariant Leads(limit, s, t) && MidTick(s, t, w, ids, now, ok, k)
    {
      var t' := MidTickOneMore(limit, s, t, w, ids, now, ok, k);
      LeadsOnward(limit, s, t, t');
      t := t';
    }
    assert ids[..|ids|] == ids;
  }

  lemma {:induction false} Earliest(rows: seq<Event>, n: nat, taken: seq<nat>, now: int) returns (k: nat)
    requires n <= |rows|
    ensures k < n ==> Due(rows[k], now) && k !in taken
    ensures forall i :: 0 <= i < n && Due(rows[i], now) && i !in taken ==> k < n && rows[k].next <= rows[i].next
  {
    if n == 0 {
      k := 0;
    } else {
      k := Earliest(rows, n - 1, taken, now);
      if Due(rows[n - 1], now) && n - 1 !in taken && (k >= n - 1 || rows[n - 1].next < rows[k].next) {
        k := n - 1;
      } else if k >= n - 1 {
        k := n;
      }
    }
  }

  /** There is always something for ClaimDue to return. */
  lemma {:induction false} BatchExists(rows: seq<Event>, limit: nat, now: int) returns (ids: seq<nat>)
    ensures Batch(rows, now, ids) && |ids| == Min(limit, DueCount(rows, now))
    ensures DueCount(Masked(rows, ids), now) == DueCount(rows, now) - |ids|
  {
    if limit == 0 {
      ids := [];
      MaskNothing(rows, now);
    } else {
      ids := BatchExists(rows, limit - 1, now);
      var k := Earliest(rows, |rows|, ids, now);
      if k >= |rows| {
        MaskedAll(rows, now, ids);
      } else {
        MaskOneMore(rows, now, ids, k);
        BatchGrows(rows, now, ids, k);
        ids := ids + [k];
      }
    }
  }

  /** Rows are as they were, or as they were and delivered. */
  ghost predicate SomeDelivered(rows: seq<Event>, rows': seq<Event>) {
    |rows'| == |rows| && forall i :: 0 <= i < |rows| ==> rows'[i] == rows[i] || rows'[i] == rows[i].(delivered := true)
  }

  /** One tick: the earliest due rows, up to the limit, are delivered. */
  lemma SmoothTick(limit: nat, s: State, w: nat, now: int) returns (t: State)
    requires limit >= 1 && w < |s.workers| && s.workers[w].Resting? && DueCount(s.rows, now) > 0
    ensures Leads(limit, s, t) && |t.workers| == |s.workers| && t.workers[w].Resting?
    ensures SomeDelivered(s.rows, t.rows)
    ensures DueCount(t.rows, now) == DueCount(s.rows, now) - Min(limit, DueCount(s.rows, now))
  {
    var ids := BatchExists(s.rows, limit, now);
    var batch := Snapshot(s.rows, ids);
    LeadsOne(limit, s, TakeBatch(w, ids, now));
    assert Next(s, TakeBatch(w, ids, now)) == At(s, w, batch, now);
    t := WorkOff(limit, s, w, batch, now);
    LeadsOnward(limit, s, At(s, w, batch, now), t);
    assert Ids(batch) == ids;
  }

  /** Rows due now that stand in line before others, however many and whatever the limit, are worked off
      tick by tick, until none is left. */
  lemma {:induction false} TicksDeliver(limit: nat, s: State, w: nat, now: int) returns (t: State)
    requires limit >= 1 && w < |s.workers| && s.workers[w].Resting?
    ensures Leads(limit, s, t) && SomeDelivered(s.rows, t.rows)
    ensures forall id :: 0 <= id < |s.rows| && Due(s.rows[id], now) ==> t.rows[id].delivered
    decreases DueCount(s.rows, now)
  {
    if DueCount(s.rows, now) == 0 {
      t := s;
      LeadsNowhere(limit, s);
      forall id | 0 <= id < |s.rows| ensures !Due(s.rows[id], now) {
        SumAtLeast(s.rows, id, DueWeight(now));
      }
    } else {
      var s1 := SmoothTick(limit, s, w, now);
      t := TicksDeliver(limit, s1, w, now);
      LeadsOnward(limit, s, s1, t);
    }
  }

  /** A relay ends what it is at, and is ready for its next tick. */
  lemma ComesToRest(limit: nat, s: State, w: nat) returns (t: State)
    requires Inv(s) && w < |s.workers|
    ensures Leads(limit, s, t) && |t.workers| == |s.workers| && t.workers[w].Resting? && |t.rows| == |s.rows|
  {
    var h := s.workers[w];
    LeadsNowhere(limit, s);
    if h.Resting? {
      t := s;
    } else {
      assert GoodWorker(s.rows, s.received, h);
      var s1, batch := s, h.batch;
      if h.Answered? {
        assert GoodClaim(s.rows, h.batch[0]);
        LeadsOne(limit, s, Write(w, false));
        s1, batch := Next(s, Write(w, false)), h.batch[1..];
      }
      assert s1 == At(s1, w, batch, h.now);
      forall i | 0 <= i < |batch| ensures batch[i].id < |s1.rows| {
        assert GoodClaim(s.rows, h.batch[if h.Answered? then i + 1 else i]);
      }
      t := WorkOff(limit, s1, w, batch, h.now);
      LeadsOnward(limit, s, s1, t);
    }
  }

  /** From every reachable state, however many relays crashed and wherever this one is, and however many
      earlier rows are in line, a pending row can still be delivered: without any further fault, with
      claims as ClaimDue makes them, by any one relay. */
  lemma AlwaysDeliverable(limit: nat, s: State, id: nat, w: nat) returns (t: State)
    requires Reachable(s) && limit >= 1 && id < |s.rows| && w < |s.workers|
    ensures Leads(limit, s, t) && id < |t.rows| && t.rows[id].delivered
  {
    ReachableInv(s);
    var s1 := ComesToRest(limit, s, w);
    if s1.rows[id].delivered {
      t := s1;
    } else {
      t := TicksDeliver(limit, s1, w, s1.rows[id].next);
      LeadsOnward(limit, s, s1, t);
    }
  }

  /** Claims do overlap: the row that ClaimDue returns first to one relay it returns first to another that
      asks before the row is written, and both post it. */
  lemma SameRowPostedTwice(limit: nat, s: State, now: int, w: nat, v: nat) returns (id: nat, t: State)
    requires limit >= 1 && DueCount(s.rows, now) > 0 && w < |s.workers| && v < |s.workers| && w != v
    requires s.workers[w].Resting? && s.workers[v].Resting?
    ensures Leads(limit, s, t) && id < |s.rows| && Due(s.rows[id], now)
    ensures forall k :: 0 <= k < |s.rows| && Due(s.rows[k], now) ==> s.rows[id].next <= s.rows[k].next
    ensures t.received == s.received + [Receipt(id, s.rows[id].payload)] + [Receipt(id, s.rows[id].payload)]
  {
    var ids := BatchExists(s.rows, limit, now);
    id := ids[0];
    var a0, a1 := TakeBatch(w, ids, now), TakeBatch(v, ids, now);
    var a2, a3 := Post(w, true, true), Post(v, true, true);
    LeadsOne(limit, s, a0);
    LeadsOne(limit, Next(s, a0), a1);
    LeadsOnward(limit, s, Next(s, a0), Next(Next(s, a0), a1));
    var s2 := Next(Next(s, a0), a1);
    LeadsOne(limit, s2, a2);
    LeadsOne(limit, Next(s2, a2), a3);
    LeadsOnward(limit, s2, Next(s2, a2), Next(Next(s2, a2), a3));
    t := Next(Next(s2, a2), a3);
    LeadsOnward(limit, s, s2, t);
    forall k | 0 <= k < |s.rows| && Due(s.rows[k], now) ensures s.rows[id].next <= s.rows[k].next {
      if k in ids {
        var j :| 0 <= j < |ids| && ids[j] == k;
      }
    }
  }

  /** The claim of a relay that has posted in vain and now writes what it read, whatever the row holds. */
  lemma LateReschedule(s: State, w: nat)
    requires Enabled(s, Write(w, false)) && !s.workers[w].ok
    ensures var h := s.workers[w]; var n := h.batch[0].attempts + 1;
            Next(s, Write(w, false)).rows == s.rows[h.batch[0].id := s.rows[h.batch[0].id].(attempts := n, next := h.now + Backoff(n))]
  {
  }

  /** Relay w has posted the head of its batch in vain. */
  function Posted(s: State, w: nat, batch: seq<Claim>, now: int): State
    requires w < |s.workers|
  {
    s.(workers := s.workers[w := Answered(batch, now, false)])
  }

  lemma PostInVain(limit: nat, s: State, w: nat, batch: seq<Claim>, now: int)
    requires w < |s.workers| && batch != [] && s.workers[w] == Holding(batch, now)
    ensures Leads(limit, s, Posted(s, w, batch, now))
  {
    LeadsOne(limit, s, Post(w, false, false));
  }

  lemma WriteInVain(limit: nat, s: State, w: nat, batch: seq<Claim>, now: int) returns (t: State)
    requires w < |s.workers| && batch != [] && batch[0].id < |s.rows| && s.workers[w] == Answered(batch, now, false)
    ensures Leads(limit, s, t) && |t.workers| == |s.workers| && t.received == s.received
    ensures forall v :: 0 <= v < |s.workers| && v != w ==> t.workers[v] == s.workers[v]
    ensures var id, n := batch[0].id, batch[0].attempts + 1; t.rows == s.rows[id := s.rows[id].(attempts := n, next := now + Backoff(n))]
  {
    LeadsOne(limit, s, Write(w, false));
    LateReschedule(s, w);
    t := Next(s, Write(w, false));
  }

  lemma BothPostInVain(limit: nat, s: State, now: int, w: nat, v: nat, ids: seq<nat>) returns (t: State)
    requires w < |s.workers| && v < |s.workers| && w != v && s.workers[w].Resting? && s.workers[v].Resting?
    requires ids != [] && Batch(s.rows, now, ids) && |ids| == Min(limit, DueCount(s.rows, now))
    ensures var batch := Snapshot(s.rows, ids);
            && Leads(limit, s, t) && t.rows == s.rows && t.received == s.received && |t.workers| == |s.workers|
            && t.workers[w] == t.workers[v] == Answered(batch, now, false)
  {
    var batch := Snapshot(s.rows, ids);
    var s1 := At(s, w, batch, now);
    var s2 := At(s1, v, batch, now);
    LeadsOne(limit, s, TakeBatch(w, ids, now));
    LeadsOne(limit, s1, TakeBatch(v, ids, now));
    LeadsOnward(limit, s, s1, s2);
    PostInVain(limit, s2, w, batch, now);
    var s3 := Posted(s2, w, batch, now);
    LeadsOnward(limit, s, s2, s3);
    PostInVain(limit, s3, v, batch, now);
    t := Posted(s3, v, batch, now);
    LeadsOnward(limit, s, s3, t);
  }

  lemma PutTwice(rows: seq<Event>, id: nat, n: int, next: int)
    requires id < |rows|
    ensures var once := rows[id := rows[id].(attempts := n, next := next)];
            once[id := once[id].(attempts := n, next := next)] == once
  {
  }

  lemma BothWriteInVain(limit: nat, s: State, now: int, w: nat, v: nat, batch: seq<Claim>) returns (t: State)
    requires w < |s.workers| && v < |s.workers| && w != v && batch != [] && batch[0].id < |s.rows|
    requires s.workers[w] == s.workers[v] == Answered(batch, now, false)
    ensures Leads(limit, s, t) && t.received == s.received
    ensures var id, n := batch[0].id, batch[0].attempts + 1; t.rows == s.rows[id := s.rows[id].(attempts := n, next := now + Backoff(n))]
  {
    var s1 := WriteInVain(limit, s, w, batch, now);
    t := WriteInVain(limit, s1, v, batch, now);
    LeadsOnward(limit, s, s1, t);
    PutTwice(s.rows, batch[0].id, batch[0].attempts + 1, now + Backoff(batch[0].attempts + 1));
  }

  lemma BothFail(limit: nat, s: State, now: int, w: nat, v: nat, ids: seq<nat>) returns (t: State)
    requires w < |s.workers| && v < |s.workers| && w != v && s.workers[w].Resting? && s.workers[v].Resting?
    requires ids != [] && Batch(s.rows, now, ids) && |ids| == Min(limit, DueCount(s.rows, now))
    ensures Leads(limit, s, t) && t.rows == s.rows[ids[0] := Attempted(s.rows[ids[0]], now, false)] && t.received == s.received
  {
    var batch := Snapshot(s.rows, ids);
    var s1 := BothPostInVain(limit, s, now, w, v, ids);
    t := BothWriteInVain(limit, s1, now, w, v, batch);
    LeadsOnward(limit, s, s1, t);
  }

  /** Failures of overlapping claims are counted once: the second relay writes the count it read. */
  lemma SameRowFailedTwice(limit: nat, s: State, now: int, w: nat, v: nat) returns (id: nat, t: State)
    requires limit >= 1 && DueCount(s.rows, now) > 0 && w < |s.workers| && v < |s.workers| && w != v
    requires s.workers[w].Resting? && s.workers[v].Resting?
    ensures Leads(limit, s, t) && id < |s.rows| && Due(s.rows[id], now)
    ensures t.rows == s.rows[id := Attempted(s.rows[id], now, false)] && t.received == s.received
  {
    var ids := BatchExists(s.rows, limit, now);
    id := ids[0];
    t := BothFail(limit, s, now, w, v, ids);
  }

  /** A new row waits 20, 40, 80, 160 and then 300 seconds after its failures, counted from one. */
  lemma NewRowFailures(s: State, payload: nat, at: int, tables: seq<seq<Event>>, times: seq<int>)
    requires times != [] && FailingTicks(tables, times, |s.rows|) && tables[0] == Next(s, Enqueue(payload, at)).rows
    ensures var k, id := |times|, |s.rows|;
            && id < |tables[k]| && tables[k][id].attempts == k && tables[k][id].payload == payload
            && tables[k][id].next == times[k - 1] + Min(10_000_000_000 * Pow2(k), 300_000_000_000)
  {
    FailuresCount(tables, times, |s.rows|);
    FailingTicksTo(tables, times, |s.rows|, |times|);
    FailuresInARow(tables[0][|s.rows|], times[..|times|]);
  }

  // --- one relay without faults ---

  predicate OnceEach(received: seq<Receipt>) {
    forall i, j :: 0 <= i < j < |received| ==> received[i].id != received[j].id
  }

  /** The answer for this row is in but not written yet. */
  predicate Unwritten(h: Worker, id: nat) {
    h.Answered? && h.ok && h.batch != [] && h.batch[0].id == id
  }

  ghost predicate SingleInv(s: State) {
    && |s.workers| == 1 && OnceEach(s.received)
    && (forall i :: 0 <= i < |s.received| ==>
          var id := s.received[i].id; id < |s.rows| && (s.rows[id].delivered || Unwritten(s.workers[0], id)))
    && (!s.workers[0].Resting? ==> FreshBatch(s.workers[0].batch, s.received, if s.workers[0].Answered? && s.workers[0].ok then 1 else 0))
  }

  /** From position k on, the batch lists distinct rows that were never received. */
  ghost predicate FreshBatch(batch: seq<Claim>, received: seq<Receipt>, k: nat) {
    && (forall i, j :: 0 <= i < j < |batch| ==> batch[i].id != batch[j].id)
    && (forall i :: k <= i < |batch| ==> !Received(received, batch[i].id))
  }

  lemma SingleTakes(s: State, a: Action)
    requires SingleInv(s) && Enabled(s, a) && a.TakeBatch?
    ensures SingleInv(Next(s, a))
  {
    assert forall i :: 0 <= i < |a.ids| ==> !Received(s.received, a.ids[i]);
  }

  lemma SinglePosts(s: State, a: Action)
    requires Inv(s) && SingleInv(s) && Enabled(s, a) && a.Post? && a.ok == a.arrived
    ensures SingleInv(Next(s, a))
  {
    var h := s.workers[0];
    var t := Next(s, a);
    assert GoodWorker(s.rows, s.received, h) && GoodClaim(s.rows, h.batch[0]);
    assert !Received(s.received, h.batch[0].id);
    if a.ok {
      forall i | 1 <= i < |h.batch| ensures !Received(t.received, h.batch[i].id) {
        assert !Received(s.received, h.batch[i].id) && h.batch[i].id != h.batch[0].id;
      }
    }
  }

  lemma SingleWrites(s: State, a: Action)
    requires SingleInv(s) && Enabled(s, a) && a.Write? && !a.lost
    ensures SingleInv(Next(s, a))
  {
    var h := s.workers[0];
    forall i | 0 <= i < |h.batch[1..]| ensures !Received(s.received, h.batch[1..][i].id) {
      assert h.batch[1..][i] == h.batch[i + 1];
    }
  }

  /** With a single relay and no crash, lost write or lost answer, every row is received at most once,
      over any number of ticks. */
  lemma {:induction false} AtMostOnce(s: State, run: seq<Action>, t: State)
    requires Inv(s) && SingleInv(s) && IsRun(s, run, t) && forall i :: 0 <= i < |run| ==> Faultless(run[i])
    ensures OnceEach(t.received)
    decreases |run|
  {
    if run != [] {
      var a := run[0];
      assert Faultless(a);
      StepKeeps(s, a);
      match a {
        case TakeBatch(_, _, _) => SingleTakes(s, a);
        case Post(_, _, _) => SinglePosts(s, a);
        case Write(_, _) => SingleWrites(s, a);
        case Enqueue(_, _) =>
        case Crash(_) =>
      }
      AtMostOnce(Next(s, a), run[1..], t);
    }
  }

  lemma {:induction false} NobodyPosts(s: State, run: seq<Action>, t: State)
    requires s.workers == [] && s.received == [] && IsRun(s, run, t)
    ensures t.received == []
    decreases |run|
  {
    if run != [] {
      NobodyPosts(Next(s, run[0]), run[1..], t);
    }
  }

  /** A run without faults from the empty outbox with n relays. */
  ghost predicate FaultlessRun(limit: nat, n: nat, s0: State, t: State) {
    Start(s0) && |s0.workers| == n && Leads(limit, s0, t)
  }

  lemma TwoRelaysRepeat(limit: nat, n: nat) returns (s0: State, t: State)
    requires limit >= 1 && n >= 2
    ensures FaultlessRun(limit, n, s0, t) && !OnceEach(t.received)
  {
    s0 := State([], seq(n, _ => Resting), []);
    var s1 := Next(s0, Enqueue(0, 0));
    LeadsOne(limit, s0, Enqueue(0, 0));
    SumAtLeast(s1.rows, 0, DueWeight(0));
    var id;
    id, t := SameRowPostedTwice(limit, s1, 0, 0, 1);
    LeadsOnward(limit, s0, s1, t);
    assert t.received[0].id == t.received[1].id;
  }

  /** Without crashes and lost messages, and with claims as ClaimDue makes them, every row is received at
      most once in every run exactly if there is at most one relay. */
  lemma AtMostOnceIff(limit: nat, n: nat)
    requires limit >= 1
    ensures (forall s0, t :: FaultlessRun(limit, n, s0, t) ==> OnceEach(t.received)) <==> n <= 1
  {
    if n >= 2 {
      var s0, t := TwoRelaysRepeat(limit, n);
    } else {
      forall s0, t | FaultlessRun(limit, n, s0, t) ensures OnceEach(t.received) {
        var run :| SmoothRun(limit, s0, run, t);
        SmoothIsRun(limit, s0, run, t);
        if n == 0 {
          NobodyPosts(s0, run, t);
        } else {
          AtMostOnce(s0, run, t);
        }
      }
    }
  }

  // --- one relay and one fault ---

  lemma {:induction false} RunsJoin(s: State, a: seq<Action>, t: State, b: seq<Action>, u: State)
    requires IsRun(s, a, t) && IsRun(t, b, u)
    ensures IsRun(s, a + b, u)
    decreases |a|
  {
    if a == [] {
      assert a + b == b;
    } else {
      RunsJoin(Next(s, a[0]), a[1..], t, b, u);
      assert (a + b)[1..] == a[1..] + b;
    }
  }

  lemma {:induction false} TwoSteps(s: State, a: Action, b: Action)
    requires Enabled(s, a) && Enabled(Next(s, a), b)
    ensures IsRun(s, [a, b], Next(Next(s, a), b))
  {
    assert [a, b][1..] == [b] && [b][1..] == [];
  }

  lemma {:induction false} ThreeSteps(s: State, a: Action, b: Action, c: Action)
    requires Enabled(s, a) && Enabled(Next(s, a), b) && Enabled(Next(Next(s, a), b), c)
    ensures IsRun(s, [a, b, c], Next(Next(Next(s, a), b), c))
  {
    TwoSteps(Next(s, a), b, c);
    assert [a, b, c][1..] == [b, c];
  }

  datatype Fault = CrashBeforeWrite | LostWrite | LostAnswer

  /** A tick over one row that meets the fault, and the next tick that finds it. */
  function FaultyTicks(fault: Fault, row: Event, id: nat, w: nat, now: int): seq<Action> {
    match fault
    case CrashBeforeWrite => [TakeBatch(w, [id], now), Post(w, true, true), Crash(w), TakeBatch(w, [id], now), Post(w, true, true)]
    case LostWrite => [TakeBatch(w, [id], now), Post(w, true, true), Write(w, true), TakeBatch(w, [id], now), Post(w, true, true)]
    case LostAnswer =>
      [TakeBatch(w, [id], now), Post(w, false, true), Write(w, false),
       TakeBatch(w, [id], now + Backoff(row.attempts + 1)), Post(w, true, true)]
  }

  /** The state after three of the five steps: the relay rests and the row is due once more. */
  lemma AfterFault(fault: Fault, s: State, id: nat, w: nat, now: int) returns (t: State, later: int)
    requires id < |s.rows| && Due(s.rows[id], now) && w < |s.workers| && s.workers[w].Resting?
    ensures IsRun(s, FaultyTicks(fault, s.rows[id], id, w, now)[..3], t)
    ensures t.received == s.received + [Receipt(id, s.rows[id].payload)] && t.workers == s.workers
    ensures |t.rows| == |s.rows| && Due(t.rows[id], later) && t.rows[id].payload == s.rows[id].payload
    ensures FaultyTicks(fault, s.rows[id], id, w, now)[3..] == [TakeBatch(w, [id], later), Post(w, true, true)]
  {
    var run := FaultyTicks(fault, s.rows[id], id, w, now);
    later := if fault == LostAnswer then now + Backoff(s.rows[id].attempts + 1) else now;
    assert Claimable(s.rows, [id], now);
    var s1 := Next(s, run[0]);
    var s2 := Next(s1, run[1]);
    t := Next(s2, run[2]);
    ThreeSteps(s, run[0], run[1], run[2]);
    assert run[..3] == [run[0], run[1], run[2]];
    assert t.workers == s.workers;
  }

  /** At most once takes all of it: with a single relay, one crash before the write, one lost write or one
      lost answer is enough for a due row to be received twice. */
  lemma EachFaultRepeats(fault: Fault, s: State, id: nat, w: nat, now: int) returns (t: State)
    requires id < |s.rows| && Due(s.rows[id], now) && w < |s.workers| && s.workers[w].Resting?
    ensures var run := FaultyTicks(fault, s.rows[id], id, w, now);
            && IsRun(s, run, t) && (exists i :: 0 <= i < |run| && !Faultless(run[i]))
            && forall i, j :: 0 <= i < j < |run| ==> Faultless(run[i]) || Faultless(run[j])
    ensures var r := Receipt(id, s.rows[id].payload); t.received == s.received + [r, r]
  {
    var run := FaultyTicks(fault, s.rows[id], id, w, now);
    var s1, later := AfterFault(fault, s, id, w, now);
    assert Claimable(s1.rows, [id], later);
    var s2 := Next(s1, TakeBatch(w, [id], later));
    t := Next(s2, Post(w, true, true));
    TwoSteps(s1, TakeBatch(w, [id], later), Post(w, true, true));
    RunsJoin(s, run[..3], s1, run[3..], t);
    assert run[..3] + run[3..] == run;
    assert !Faultless(run[if fault == LostAnswer then 1 else 2]);
  }
}

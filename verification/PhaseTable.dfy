// The phases table of one change: primary key id, unique (phase type, attempts).
module PhaseTable {
  import opened PhaseDomain

  datatype Saved = Stored(rows: seq<Row>) | IdConflict

  predicate Keyed(r: Row, kind: PhaseType, n: nat) {
    r.kind == kind && r.attempts == n
  }

  predicate HasKey(rows: seq<Row>, kind: PhaseType, n: nat) {
    exists i :: 0 <= i < |rows| && Keyed(rows[i], kind, n)
  }

  predicate HasId(rows: seq<Row>, id: nat) {
    exists i :: 0 <= i < |rows| && rows[i].id == id
  }

  function FindFrom(rows: seq<Row>, from: nat, kind: PhaseType, n: nat): (k: nat)
    requires from <= |rows|
    ensures from <= k <= |rows| && (k < |rows| ==> Keyed(rows[k], kind, n))
    ensures forall j :: from <= j < k ==> !Keyed(rows[j], kind, n)
    decreases |rows| - from
  {
    if from == |rows| || Keyed(rows[from], kind, n) then from else FindFrom(rows, from + 1, kind, n)
  }

  /** The first row with the key, or |rows|. */
  function FindKey(rows: seq<Row>, kind: PhaseType, n: nat): (k: nat)
    ensures k <= |rows| && (k < |rows| ==> Keyed(rows[k], kind, n))
    ensures forall j :: 0 <= j < k ==> !Keyed(rows[j], kind, n)
  {
    FindFrom(rows, 0, kind, n)
  }

  /** Save: update the row with the same key in place, keeping its id; else insert, unless the id
      is taken. */
  function Save(rows: seq<Row>, r: Row): Saved {
    var k := FindKey(rows, r.kind, r.attempts);
    if k < |rows| then Stored(rows[k := r.(id := rows[k].id)])
    else if HasId(rows, r.id) then IdConflict
    else Stored(rows + [r])
  }

  function LatestTo(rows: seq<Row>, m: nat, kind: PhaseType): (n: nat)
    requires m <= |rows|
    ensures forall i :: 0 <= i < m && rows[i].kind == kind ==> rows[i].attempts <= n
    ensures n > 0 ==> exists i :: 0 <= i < m && Keyed(rows[i], kind, n)
  {
    if m == 0 then 0
    else
      var n := LatestTo(rows, m - 1, kind);
      if rows[m - 1].kind == kind && rows[m - 1].attempts > n
      then assert Keyed(rows[m - 1], kind, rows[m - 1].attempts); rows[m - 1].attempts
      else n
  }

  /** The highest attempt number of a phase type, 0 when there is no row. */
  function Latest(rows: seq<Row>, kind: PhaseType): (n: nat)
    ensures forall i :: 0 <= i < |rows| && rows[i].kind == kind ==> rows[i].attempts <= n
    ensures n > 0 ==> HasKey(rows, kind, n)
  {
    LatestTo(rows, |rows|, kind)
  }

  /** FindByChangeAndType, as an index: the row with the highest attempt number. */
  function LatestIndex(rows: seq<Row>, kind: PhaseType): (k: nat)
    ensures k <= |rows| && (k < |rows| ==> Keyed(rows[k], kind, Latest(rows, kind)))
  {
    FindKey(rows, kind, Latest(rows, kind))
  }

  // --- what every reachable table satisfies ---

  predicate Live(r: Row) {
    r.status == Running || r.status == Interrupted
  }

  ghost predicate Unique(rows: seq<Row>) {
    forall i, j :: 0 <= i < j < |rows| ==>
      rows[i].id != rows[j].id && !Keyed(rows[j], rows[i].kind, rows[i].attempts)
  }

  /** Every attempt number from 1 to the latest has a row. */
  ghost predicate Unbroken(rows: seq<Row>) {
    && (forall i :: 0 <= i < |rows| ==> rows[i].attempts >= 1)
    && (forall kind, n {:trigger HasKey(rows, kind, n)} :: 1 <= n <= Latest(rows, kind) ==> HasKey(rows, kind, n))
  }

  /** Attempts of a type are exactly 1, 2, ..., up to the latest. */
  lemma GapFree(rows: seq<Row>, kind: PhaseType, n: nat)
    requires Unbroken(rows)
    ensures HasKey(rows, kind, n) <==> 1 <= n <= Latest(rows, kind)
  {
  }

  /** The same rows with other contents. */
  ghost predicate SameKeys(a: seq<Row>, b: seq<Row>) {
    |a| == |b| && forall i :: 0 <= i < |a| ==>
      a[i].id == b[i].id && a[i].kind == b[i].kind && a[i].attempts == b[i].attempts
  }

  lemma {:induction false} SameLatestTo(a: seq<Row>, b: seq<Row>, m: nat, kind: PhaseType)
    requires m <= |a| && m <= |b|
    requires forall i :: 0 <= i < m ==> a[i].kind == b[i].kind && a[i].attempts == b[i].attempts
    ensures LatestTo(a, m, kind) == LatestTo(b, m, kind)
  {
    if m > 0 {
      SameLatestTo(a, b, m - 1, kind);
    }
  }

  lemma SameLatest(a: seq<Row>, b: seq<Row>, kind: PhaseType)
    requires SameKeys(a, b)
    ensures Latest(a, kind) == Latest(b, kind)
  {
    SameLatestTo(a, b, |a|, kind);
  }

  lemma SameHasKey(a: seq<Row>, b: seq<Row>, kind: PhaseType, n: nat)
    requires SameKeys(a, b) && HasKey(a, kind, n)
    ensures HasKey(b, kind, n)
  {
    var i :| 0 <= i < |a| && Keyed(a[i], kind, n);
    assert Keyed(b[i], kind, n);
  }

  lemma SameKeysKept(a: seq<Row>, b: seq<Row>)
    requires SameKeys(a, b) && Unique(a) && Unbroken(a)
    ensures Unique(b) && Unbroken(b)
  {
    forall kind, n | 1 <= n <= Latest(b, kind) ensures HasKey(b, kind, n) {
      SameLatest(a, b, kind);
      SameHasKey(a, b, kind, n);
    }
  }

  /** Keys are unique, so the search finds the row that has one. */
  lemma FindsKey(rows: seq<Row>, k: nat, kind: PhaseType, n: nat)
    requires Unique(rows) && k < |rows| && Keyed(rows[k], kind, n)
    ensures FindKey(rows, kind, n) == k
  {
  }

  /** Saving under a key that is taken rewrites the row that has it, under that row's own id. */
  lemma SaveOverRow(rows: seq<Row>, k: nat, r: Row)
    requires Unique(rows) && k < |rows| && Keyed(rows[k], r.kind, r.attempts)
    ensures Save(rows, r) == Stored(rows[k := r.(id := rows[k].id)])
  {
    FindsKey(rows, k, r.kind, r.attempts);
  }

  lemma LatestAppended(rows: seq<Row>, r: Row, kind: PhaseType)
    requires r.attempts == Latest(rows, r.kind) + 1
    ensures Latest(rows + [r], kind) == if kind == r.kind then r.attempts else Latest(rows, kind)
  {
    SameLatestTo(rows, rows + [r], |rows|, kind);
  }

  lemma HasKeyAppended(rows: seq<Row>, r: Row, kind: PhaseType, n: nat)
    requires HasKey(rows, kind, n) || Keyed(r, kind, n)
    ensures HasKey(rows + [r], kind, n)
  {
    if HasKey(rows, kind, n) {
      var j :| 0 <= j < |rows| && Keyed(rows[j], kind, n);
      assert Keyed((rows + [r])[j], kind, n);
    } else {
      assert Keyed((rows + [r])[|rows|], kind, n);
    }
  }

  /** Saving the attempt after the latest one inserts a row and touches no other. */
  lemma SaveNewRow(rows: seq<Row>, r: Row)
    requires Unique(rows) && Unbroken(rows) && !HasId(rows, r.id) && r.attempts == Latest(rows, r.kind) + 1
    ensures Save(rows, r) == Stored(rows + [r]) && !HasKey(rows, r.kind, r.attempts)
    ensures Unique(rows + [r]) && Unbroken(rows + [r])
  {
    assert !HasKey(rows, r.kind, r.attempts);
    forall kind, n | 1 <= n <= Latest(rows + [r], kind) ensures HasKey(rows + [r], kind, n) {
      LatestAppended(rows, r, kind);
      HasKeyAppended(rows, r, kind, n);
    }
  }

  /** Re-saving an attempt under the next number with an id that is in the table, as Resume, Reject and
      failPhase do after a second Start: refused exactly for the latest attempt; for an older one it
      overwrites the record of the attempt that followed it and keeps every other row. */
  lemma SaveUnderNextNumber(rows: seq<Row>, i: nat, r: Row)
    requires Unique(rows) && Unbroken(rows) && i < |rows|
    requires HasId(rows, r.id) && Keyed(r, rows[i].kind, rows[i].attempts + 1)
    ensures Save(rows, r) == IdConflict <==> rows[i].attempts == Latest(rows, rows[i].kind)
    ensures rows[i].attempts < Latest(rows, rows[i].kind) ==>
              var j := FindKey(rows, r.kind, r.attempts);
              j < |rows| && j != i && Save(rows, r) == Stored(rows[j := r.(id := rows[j].id)])
  {
    GapFree(rows, r.kind, r.attempts);
    var k := FindKey(rows, r.kind, r.attempts);
    if k < |rows| {
      assert Keyed(rows[k], r.kind, r.attempts);
    }
  }

  // --- boot recovery ---

  function Interrupt(r: Row): Row {
    if r.status == Running then r.(status := Interrupted) else r
  }

  function Recovered(rows: seq<Row>): (r: seq<Row>)
    ensures |r| == |rows| && forall i :: 0 <= i < |rows| ==> r[i] == Interrupt(rows[i])
  {
    seq(|rows|, i requires 0 <= i < |rows| => Interrupt(rows[i]))
  }

  /** The running rows among the first n, in table order. */
  function RunningTo(rows: seq<Row>, n: nat): seq<Row>
    requires n <= |rows|
  {
    if n == 0 then []
    else if rows[n - 1].status == Running then RunningTo(rows, n - 1) + [rows[n - 1]]
    else RunningTo(rows, n - 1)
  }

  lemma {:induction false} FreshId(rows: seq<Row>, n: nat) returns (id: nat)
    requires n <= |rows|
    ensures forall i :: 0 <= i < n ==> rows[i].id < id
  {
    if n == 0 {
      id := 0;
    } else {
      var below := FreshId(rows, n - 1);
      id := if rows[n - 1].id < below then below else rows[n - 1].id + 1;
    }
  }

  lemma NewId(rows: seq<Row>) returns (id: nat)
    ensures !HasId(rows, id)
  {
    id := FreshId(rows, |rows|);
  }

  class PhaseRepo {
    var rows: seq<Row>

    /** Save, as a statement: false when the id is taken under another key. */
    method Upsert(r: Row) returns (ok: bool)
      modifies this
      ensures ok <==> Save(old(rows), r).Stored?
      ensures rows == if ok then Save(old(rows), r).rows else old(rows)
    {
      var saved := Save(rows, r);
      if saved.Stored? {
        rows := saved.rows;
        return true;
      }
      return false;
    }

    method FindAllRunning() returns (found: seq<Row>, ghost at: seq<nat>)
      ensures found == RunningTo(rows, |rows|)
      ensures |at| == |found|
      ensures forall k :: 0 <= k < |at| ==> at[k] < |rows| && found[k] == rows[at[k]] && rows[at[k]].status == Running
      ensures forall k, l :: 0 <= k < l < |at| ==> at[k] < at[l]
      ensures forall i :: 0 <= i < |rows| && rows[i].status == Running ==> i in at
    {
      found, at := [], [];
      for i := 0 to |rows|
        invariant |at| == |found|
        invariant found == RunningTo(rows, i)
        invariant forall k :: 0 <= k < |at| ==> at[k] < i && found[k] == rows[at[k]] && rows[at[k]].status == Running
        invariant forall k, l :: 0 <= k < l < |at| ==> at[k] < at[l]
        invariant forall j :: 0 <= j < i && rows[j].status == Running ==> j in at
      {
        if rows[i].status == Running {
          found, at := found + [rows[i]], at + [i];
        }
      }
    }

    /** MarkStuckInterrupted: saves back one row at a time and ends with every running row, and no
        other, interrupted. */
    method MarkStuckInterrupted() returns (marked: nat)
      requires Unique(rows)
      modifies this
      ensures rows == Recovered(old(rows)) && marked == |RunningTo(old(rows), |old(rows)|)|
    {
      var stuck, at := FindAllRunning();
      marked := 0;
      for k := 0 to |stuck|
        invariant Marked(old(rows), rows, at[..k]) && marked == k
      {
        assert at[k] !in at[..k];
        assert at[..k + 1] == at[..k] + [at[k]];
        var r := stuck[k].(status := Interrupted);
        MarkOneMore(old(rows), rows, at[..k], at[k]);
        var saved := Save(rows, r);
        if saved.Stored? {
          rows := saved.rows;
          marked := marked + 1;
        }
      }
      assert at[..|at|] == at;
    }
  }

  /** The rows listed so far are interrupted, the others untouched. */
  ghost predicate Marked(before: seq<Row>, now: seq<Row>, at: seq<nat>) {
    |now| == |before| && forall i :: 0 <= i < |now| ==> now[i] == if i in at then Interrupt(before[i]) else before[i]
  }

  lemma MarkOneMore(before: seq<Row>, now: seq<Row>, at: seq<nat>, i: nat)
    requires Unique(before) && Marked(before, now, at) && i < |before| && i !in at && before[i].status == Running
    ensures Save(now, Interrupt(before[i])) == Stored(now[i := Interrupt(before[i])])
    ensures Marked(before, now[i := Interrupt(before[i])], at + [i])
  {
    assert forall j :: 0 <= j < |now| ==> now[j].id == before[j].id && now[j].kind == before[j].kind && now[j].attempts == before[j].attempts;
    assert Unique(now);
    SaveOverRow(now, i, Interrupt(before[i]));
    assert forall j: nat :: j in at + [i] <==> j in at || j == i;
  }
}

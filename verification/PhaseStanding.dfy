// When a completed change keeps an accepted attempt for every phase, read from its table.
module PhaseStanding {
  import opened PhaseDomain
  import opened PhaseTable
  import opened PhaseLifecycle
  import opened PhaseRecords
  import opened PhaseRevival

  predicate AcceptedAt(rows: seq<Row>, kind: PhaseType, at: nat) {
    at < |rows| && rows[at].kind == kind && AdvanceAllowed(rows[at].status)
  }

  /** Some accepted attempt of the type cannot be overwritten. */
  predicate Secure(rows: seq<Row>, kind: PhaseType) {
    exists at :: 0 <= at < |rows| && AcceptedAt(rows, kind, at) && !CanRevive(rows, at)
  }

  lemma ArchiveStays(c: Config, s: State, t: State)
    requires Reachable(c, s) && s.change.at == Archive && Leads(c, s, t)
    ensures t.change.at == Archive
  {
    var run :| t == After(c, s, run);
    ArchiveStaysTo(c, s, run, |run|);
  }

  lemma {:induction false} ArchiveStaysTo(c: Config, s: State, run: seq<Action>, k: nat)
    requires Reachable(c, s) && s.change.at == Archive && k <= |run|
    ensures Reachable(c, StateAt(c, s, run, k)) && StateAt(c, s, run, k).change.at == Archive
  {
    if k > 0 {
      ArchiveStaysTo(c, s, run, k - 1);
      var before := StateAt(c, s, run, k - 1);
      LeadsFurther(c, INITIAL, before, run[k - 1]);
      PointerMovesOneStep(c, before, run[k - 1]);
      assert Position(Next(c, before, run[k - 1]).change.at) == 8;
    }
  }

  // --- a secure attempt stays accepted ---

  lemma SecureStays(c: Config, s: State, kind: PhaseType, t: State)
    requires Reachable(c, s) && Secure(s.rows, kind) && Leads(c, s, t)
    ensures HasAccepted(t.rows, kind)
  {
    ReachableInv(c, s);
    var at :| 0 <= at < |s.rows| && AcceptedAt(s.rows, kind, at) && !CanRevive(s.rows, at);
    var run :| t == After(c, s, run);
    RecordStays(c, s, run, |run|, at);
    assert t.rows[at].kind == kind && AdvanceAllowed(t.rows[at].status);
  }

  // --- without one, all can be overwritten, the latest first ---

  /** Every accepted attempt of the type is among the first n and can be overwritten, and nothing runs. */
  ghost predicate Exposed(rows: seq<Row>, kind: PhaseType, n: nat) {
    && (forall k :: 0 <= k < |rows| ==> rows[k].status != Running)
    && (forall k :: 0 <= k < |rows| && AcceptedAt(rows, kind, k) ==> rows[k].attempts <= n && CanRevive(rows, k))
  }

  /** Overwriting the latest accepted attempt spares a reviver of every other one that it spares. */
  lemma StillExposed(rows: seq<Row>, rows': seq<Row>, kind: PhaseType, at: nat, i: nat, n: nat)
    requires Unique(rows) && Exposed(rows, kind, n + 1) && AcceptedAt(rows, kind, at) && rows[at].attempts == n + 1
    requires i < |rows| && Reviver(rows, at, i) && Blocks(rows, rows', kind, rows[i].attempts, n + 1)
    ensures Exposed(rows', kind, n)
  {
    forall k | 0 <= k < |rows'| && AcceptedAt(rows', kind, k) ensures rows'[k].attempts <= n && CanRevive(rows', k) {
      assert rows'[k] == rows[k];
      assert AcceptedAt(rows, kind, k);
      var j :| 0 <= j < |rows| && Reviver(rows, k, j);
      assert rows'[j] == rows[j];
      assert Reviver(rows', k, j);
    }
    forall k | 0 <= k < |rows'| ensures rows'[k].status != Running {
      assert rows[k].status != Running;
    }
  }

  lemma OverwriteLatest(c: Config, s: State, kind: PhaseType, at: nat, n: nat) returns (t: State)
    requires Inv(c, s) && Exposed(s.rows, kind, n + 1) && AcceptedAt(s.rows, kind, at) && s.rows[at].attempts == n + 1
    ensures Leads(c, s, t) && Inv(c, t) && t.change == s.change && Exposed(t.rows, kind, n)
  {
    var i :| 0 <= i < |s.rows| && Reviver(s.rows, at, i);
    t := PushUntil(c, s, at, i);
    StillExposed(s.rows, t.rows, kind, at, i, n);
  }

  lemma OverwriteNext(c: Config, s: State, kind: PhaseType, n: nat) returns (t: State)
    requires Inv(c, s) && Exposed(s.rows, kind, n + 1)
    ensures Leads(c, s, t) && Inv(c, t) && t.change == s.change && Exposed(t.rows, kind, n)
  {
    if at: nat :| AcceptedAt(s.rows, kind, at) && s.rows[at].attempts == n + 1 {
      t := OverwriteLatest(c, s, kind, at, n);
    } else {
      t := s;
      LeadsTo(c, s);
    }
  }

  lemma {:induction false} OverwriteAll(c: Config, s: State, kind: PhaseType, n: nat) returns (t: State)
    requires Inv(c, s) && Exposed(s.rows, kind, n)
    ensures Leads(c, s, t) && Inv(c, t) && t.change == s.change && Exposed(t.rows, kind, 0)
    decreases n
  {
    if n == 0 {
      t := s;
      LeadsTo(c, s);
    } else {
      var s1 := OverwriteNext(c, s, kind, n - 1);
      t := OverwriteAll(c, s1, kind, n - 1);
      LeadsOnward(c, s, s1, t);
    }
  }

  lemma NoneAccepted(c: Config, rows: seq<Row>, kind: PhaseType)
    requires TableInv(c, rows) && Exposed(rows, kind, 0)
    ensures !HasAccepted(rows, kind)
  {
    forall i | 0 <= i < |rows| ensures !(rows[i].kind == kind && AdvanceAllowed(rows[i].status)) {
      assert SoundRow(c, rows[i]);
      assert !AcceptedAt(rows, kind, i);
    }
  }

  lemma ExposedAfterBoot(rows: seq<Row>, kind: PhaseType)
    requires !Secure(rows, kind)
    ensures Exposed(Recovered(rows), kind, Latest(rows, kind))
  {
    var rows' := Recovered(rows);
    forall k | 0 <= k < |rows'| && AcceptedAt(rows', kind, k) ensures rows'[k].attempts <= Latest(rows, kind) && CanRevive(rows', k) {
      assert AcceptedAt(rows, kind, k);
      var i := ReviverRecovered(rows, k);
    }
  }

  /** The run that takes every accepted record of a type away. */
  lemma LosesAll(c: Config, s: State, kind: PhaseType) returns (t: State)
    requires Inv(c, s) && !Secure(s.rows, kind)
    ensures Leads(c, s, t) && t.change == s.change && !HasAccepted(t.rows, kind)
  {
    CrashRecover(c, s);
    ExposedAfterBoot(s.rows, kind);
    t := OverwriteAll(c, Rebooted(s), kind, Latest(s.rows, kind));
    LeadsOnward(c, s, Rebooted(s), t);
    NoneAccepted(c, t.rows, kind);
  }

  lemma StandsIfSecure(c: Config, s: State, t: State)
    requires Reachable(c, s) && s.change.at == Archive && Leads(c, s, t)
    requires forall kind: PhaseType :: 1 <= Position(kind) ==> Secure(s.rows, kind)
    ensures Standing(t)
  {
    ArchiveStays(c, s, t);
    forall kind: PhaseType | 1 <= Position(kind) ensures HasAccepted(t.rows, kind) {
      SecureStays(c, s, kind, t);
    }
  }

  /** A completed change keeps an accepted attempt for every phase on every continuation exactly if every
      phase has one that no earlier attempt can be started onto. */
  lemma StandingForeverIff(c: Config, s: State)
    requires Reachable(c, s) && s.change.at == Archive
    ensures (forall t :: Leads(c, s, t) ==> Standing(t)) <==>
            forall kind: PhaseType :: 1 <= Position(kind) ==> Secure(s.rows, kind)
  {
    if kind: PhaseType :| 1 <= Position(kind) && !Secure(s.rows, kind) {
      ReachableInv(c, s);
      var t := LosesAll(c, s, kind);
      assert !Standing(t);
    } else {
      forall t | Leads(c, s, t) ensures Standing(t) {
        StandsIfSecure(c, s, t);
      }
    }
  }
}

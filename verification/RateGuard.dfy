// The per-project sliding-window rate guard, against the full history of its calls.
module RateGuard {

  /** The elements among the first n at or after the cutoff, in order. */
  function SinceTo(s: seq<int>, n: nat, cutoff: int): seq<int>
    requires n <= |s|
  {
    if n == 0 then []
    else if s[n - 1] >= cutoff then SinceTo(s, n - 1, cutoff) + [s[n - 1]]
    else SinceTo(s, n - 1, cutoff)
  }

  function Since(s: seq<int>, cutoff: int): seq<int> {
    SinceTo(s, |s|, cutoff)
  }

  lemma {:induction false} SincePrefix(s: seq<int>, t: int, n: nat, cutoff: int)
    requires n <= |s|
    ensures SinceTo(s + [t], n, cutoff) == SinceTo(s, n, cutoff)
  {
    if n > 0 {
      SincePrefix(s, t, n - 1, cutoff);
    }
  }

  lemma SinceAppend(s: seq<int>, t: int, cutoff: int)
    ensures Since(s + [t], cutoff) == if t >= cutoff then Since(s, cutoff) + [t] else Since(s, cutoff)
  {
    SincePrefix(s, t, |s|, cutoff);
  }

  lemma {:induction false} SinceLater(s: seq<int>, n: nat, early: int, late: int)
    requires n <= |s| && early <= late
    ensures Since(SinceTo(s, n, early), late) == SinceTo(s, n, late)
  {
    if n > 0 {
      SinceLater(s, n - 1, early, late);
      SinceAppend(SinceTo(s, n - 1, early), s[n - 1], late);
    }
  }

  // --- one call: what Allow does with a project's list ---

  predicate Permits(calls: seq<int>, limit: int, window: int, now: int) {
    |Since(calls, now - window)| < limit
  }

  function AfterCall(calls: seq<int>, limit: int, window: int, now: int): seq<int> {
    if Permits(calls, limit, window, now) then Since(calls, now - window) + [now] else Since(calls, now - window)
  }

  /** The trimmed list after the first n calls. */
  function Kept(limit: int, window: int, times: seq<int>, n: nat): seq<int>
    requires n <= |times|
  {
    if n == 0 then [] else AfterCall(Kept(limit, window, times, n - 1), limit, window, times[n - 1])
  }

  /** The calls that Allow let through, as it decided them from its trimmed list. */
  function LetThrough(limit: int, window: int, times: seq<int>, n: nat): seq<int>
    requires n <= |times|
  {
    if n == 0 then []
    else if Permits(Kept(limit, window, times, n - 1), limit, window, times[n - 1])
      then LetThrough(limit, window, times, n - 1) + [times[n - 1]]
    else LetThrough(limit, window, times, n - 1)
  }

  lemma {:induction false} EarlierCalls(limit: int, window: int, times: seq<int>, t: int, n: nat)
    requires n <= |times|
    ensures Kept(limit, window, times + [t], n) == Kept(limit, window, times, n)
    ensures LetThrough(limit, window, times + [t], n) == LetThrough(limit, window, times, n)
  {
    if n > 0 {
      EarlierCalls(limit, window, times, t, n - 1);
    }
  }

  // --- the reference: nothing is ever forgotten ---

  function Recorded(h: seq<int>, limit: int, window: int, now: int): seq<int> {
    if Permits(h, limit, window, now) then h + [now] else h
  }

  /** Every allowed call, where a call is allowed iff fewer than limit allowed calls lie at or after
      the start of its window. */
  function History(limit: int, window: int, times: seq<int>, n: nat): seq<int>
    requires n <= |times|
  {
    if n == 0 then [] else Recorded(History(limit, window, times, n - 1), limit, window, times[n - 1])
  }

  predicate NonDecreasing(times: seq<int>) {
    forall i, j :: 0 <= i < j < |times| ==> times[i] <= times[j]
  }

  /** One call at t keeps the two lists in agreement as seen from a later time. */
  lemma CallAgrees(k: seq<int>, h: seq<int>, limit: int, window: int, t: int, now: int)
    requires t <= now && Since(k, t - window) == Since(h, t - window) && Since(k, now - window) == Since(h, now - window)
    ensures Since(AfterCall(k, limit, window, t), now - window) == Since(Recorded(h, limit, window, t), now - window)
  {
    SinceLater(k, |k|, t - window, now - window);
    if Permits(k, limit, window, t) {
      SinceAppend(Since(k, t - window), t, now - window);
      SinceAppend(h, t, now - window);
    }
  }

  /** Seen from any time not before the last call, the trimmed list and the full history agree. */
  lemma {:induction false} KeptIsHistory(limit: int, window: int, times: seq<int>, n: nat, now: int)
    requires NonDecreasing(times) && n <= |times| && (n > 0 ==> times[n - 1] <= now)
    ensures Since(Kept(limit, window, times, n), now - window) == Since(History(limit, window, times, n), now - window)
  {
    if n > 0 {
      KeptIsHistory(limit, window, times, n - 1, times[n - 1]);
      KeptIsHistory(limit, window, times, n - 1, now);
      CallAgrees(Kept(limit, window, times, n - 1), History(limit, window, times, n - 1), limit, window, times[n - 1], now);
    }
  }

  /** Trimming again to the same window keeps the list. */
  lemma TrimmedOnce(calls: seq<int>, limit: int, window: int, now: int)
    requires window >= 0
    ensures Since(AfterCall(calls, limit, window, now), now - window) == AfterCall(calls, limit, window, now)
  {
    SinceLater(calls, |calls|, now - window, now - window);
    SinceAppend(Since(calls, now - window), now, now - window);
  }

  /** For times in order, the trimmed list is the part of the history inside the window. */
  lemma {:induction false} KeptIsWindow(limit: int, window: int, times: seq<int>, n: nat)
    requires NonDecreasing(times) && 0 < n <= |times| && window >= 0
    ensures Kept(limit, window, times, n) == Since(History(limit, window, times, n), times[n - 1] - window)
  {
    KeptIsHistory(limit, window, times, n, times[n - 1]);
    TrimmedOnce(Kept(limit, window, times, n - 1), limit, window, times[n - 1]);
  }

  /** For times in order, every call is decided as the full history decides it. */
  lemma {:induction false} DecidedByHistory(limit: int, window: int, times: seq<int>, n: nat)
    requires NonDecreasing(times) && n < |times|
    ensures Permits(Kept(limit, window, times, n), limit, window, times[n]) <==>
            Permits(History(limit, window, times, n), limit, window, times[n])
  {
    KeptIsHistory(limit, window, times, n, times[n]);
  }

  lemma {:induction false} LetThroughIsHistory(limit: int, window: int, times: seq<int>, n: nat)
    requires NonDecreasing(times) && n <= |times|
    ensures LetThrough(limit, window, times, n) == History(limit, window, times, n)
  {
    if n > 0 {
      LetThroughIsHistory(limit, window, times, n - 1);
      DecidedByHistory(limit, window, times, n - 1);
    }
  }

  // --- the limit ---

  predicate Within(t: int, from: int, to: int) {
    from <= t <= to
  }

  function CountTo(s: seq<int>, n: nat, from: int, to: int): nat
    requires n <= |s|
  {
    if n == 0 then 0 else CountTo(s, n - 1, from, to) + if Within(s[n - 1], from, to) then 1 else 0
  }

  /** How many elements lie in the closed interval. */
  function CountWithin(s: seq<int>, from: int, to: int): nat {
    CountTo(s, |s|, from, to)
  }

  lemma {:induction false} CountPrefix(s: seq<int>, t: int, n: nat, from: int, to: int)
    requires n <= |s|
    ensures CountTo(s + [t], n, from, to) == CountTo(s, n, from, to)
  {
    if n > 0 {
      CountPrefix(s, t, n - 1, from, to);
    }
  }

  lemma {:induction false} CountBounded(s: seq<int>, n: nat, from: int, to: int, cutoff: int)
    requires n <= |s| && cutoff <= from
    ensures CountTo(s, n, from, to) <= |SinceTo(s, n, cutoff)|
  {
    if n > 0 {
      CountBounded(s, n - 1, from, to, cutoff);
    }
  }

  /** No closed interval of window length holds more than limit allowed calls of the history. */
  lemma {:induction false} HistoryWithinLimit(limit: int, window: int, times: seq<int>, n: nat, from: int)
    requires n <= |times|
    ensures CountWithin(History(limit, window, times, n), from, from + window) <= if limit < 0 then 0 else limit
  {
    if n > 0 {
      var h, now := History(limit, window, times, n - 1), times[n - 1];
      HistoryWithinLimit(limit, window, times, n - 1, from);
      CountPrefix(h, now, |h|, from, from + window);
      CountBounded(h, |h|, from, from + window, if now - window <= from then now - window else from);
    }
  }

  /** For times in order, no closed interval of window length holds more than limit allowed calls. */
  lemma {:induction false} LimitHolds(limit: int, window: int, times: seq<int>, n: nat, from: int)
    requires NonDecreasing(times) && n <= |times|
    ensures CountWithin(LetThrough(limit, window, times, n), from, from + window) <= if limit < 0 then 0 else limit
  {
    LetThroughIsHistory(limit, window, times, n);
    HistoryWithinLimit(limit, window, times, n, from);
  }

  // --- exactly when the trimmed list decides as the calls let through demand ---

  predicate AllAt(s: seq<int>, t: int) {
    forall i :: 0 <= i < |s| ==> s[i] == t
  }

  lemma {:induction false} SinceAllAt(s: seq<int>, n: nat, t: int, cutoff: int)
    requires AllAt(s, t) && n <= |s|
    ensures |SinceTo(s, n, cutoff)| == (if t >= cutoff then n else 0) && AllAt(SinceTo(s, n, cutoff), t)
  {
    if n > 0 {
      SinceAllAt(s, n - 1, t, cutoff);
    }
  }

  /** n calls at one time, up to the limit, are all let through and all kept. */
  lemma {:induction false} Burst(limit: int, window: int, times: seq<int>, n: nat, t: int)
    requires n <= |times| && n <= limit && window >= 0 && forall i :: 0 <= i < n ==> times[i] == t
    ensures |Kept(limit, window, times, n)| == n && AllAt(Kept(limit, window, times, n), t)
    ensures |LetThrough(limit, window, times, n)| == n && AllAt(LetThrough(limit, window, times, n), t)
  {
    if n > 0 {
      Burst(limit, window, times, n - 1, t);
      SinceAllAt(Kept(limit, window, times, n - 1), n - 1, t, t - window);
    }
  }

  /** After the first n calls, a call at `now` is decided differently from what the calls let through demand. */
  predicate Misjudged(limit: int, window: int, times: seq<int>, n: nat, now: int)
    requires n <= |times|
  {
    Permits(Kept(limit, window, times, n), limit, window, now) != Permits(LetThrough(limit, window, times, n), limit, window, now)
  }

  /** A full window of calls at t, then one that trims them all: it alone is kept. */
  lemma BurstTrimmed(limit: int, window: int, times: seq<int>, t: int, last: int)
    requires limit >= 2 && window >= 0 && |times| == limit + 1 && times[limit] == last && t < last - window
    requires forall i :: 0 <= i < limit ==> times[i] == t
    ensures Kept(limit, window, times, limit + 1) == [last]
    ensures var all := LetThrough(limit, window, times, limit + 1); |all| == limit + 1 && all[limit] == last && AllAt(all[..limit], t)
  {
    var kept := Kept(limit, window, times, limit);
    Burst(limit, window, times, limit, t);
    SinceAllAt(kept, limit, t, last - window);
    assert Since(kept, last - window) == [];
    assert AfterCall(kept, limit, window, last) == [last];
  }

  lemma AllInWindow(all: seq<int>, n: nat, start: int, last: int)
    requires |all| == n + 1 && all[n] == last >= start && AllAt(all[..n], start)
    ensures |Since(all, start)| == n + 1
  {
    assert all == all[..n] + [last];
    SinceAppend(all[..n], last, start);
    SinceAllAt(all[..n], n, start, start);
  }

  /** A clock that steps back from `last` to `now`: a full window of calls has been forgotten. */
  lemma StepBackMisjudged(limit: int, window: int, times: seq<int>, last: int, now: int)
    requires limit >= 2 && window >= 0 && now < last && |times| == limit + 1 && times[limit] == last
    requires forall i :: 0 <= i < limit ==> times[i] == now - window
    ensures Misjudged(limit, window, times, limit + 1, now)
  {
    var start := now - window;
    BurstTrimmed(limit, window, times, start, last);
    AllInWindow(LetThrough(limit, window, times, limit + 1), limit, start, last);
    AllInWindow([last], 0, start, last);
  }

  /** Calls in order ending with one at `last`. */
  predicate Ends(times: seq<int>, last: int) {
    NonDecreasing(times) && times != [] && times[|times| - 1] == last
  }

  lemma {:induction false} SinceShrinks(s: seq<int>, n: nat, first: int, second: int)
    requires n <= |s|
    ensures |Since(SinceTo(s, n, first), second)| <= |SinceTo(s, n, second)|
  {
    if n > 0 {
      SinceShrinks(s, n - 1, first, second);
      SinceAppend(SinceTo(s, n - 1, first), s[n - 1], second);
    }
  }

  lemma {:induction false} SinceEarlier(s: seq<int>, n: nat, early: int, late: int)
    requires n <= |s| && early <= late
    ensures |SinceTo(s, n, late)| <= |SinceTo(s, n, early)|
  {
    if n > 0 {
      SinceEarlier(s, n - 1, early, late);
    }
  }

  /** Whatever the clock did, the list never counts more than was let through. */
  lemma {:induction false} KeptWithinLetThrough(limit: int, window: int, times: seq<int>, n: nat, cutoff: int)
    requires n <= |times|
    ensures |Since(Kept(limit, window, times, n), cutoff)| <= |Since(LetThrough(limit, window, times, n), cutoff)|
  {
    if n > 0 {
      var k, t := Kept(limit, window, times, n - 1), times[n - 1];
      KeptWithinLetThrough(limit, window, times, n - 1, cutoff);
      SinceShrinks(k, |k|, t - window, cutoff);
      SinceAppend(Since(k, t - window), t, cutoff);
      SinceAppend(LetThrough(limit, window, times, n - 1), t, cutoff);
    }
  }

  /** So the guard errs only by allowing, never by denying, for any times in any order. */
  lemma {:induction false} NeverTooStrict(limit: int, window: int, times: seq<int>, n: nat, now: int)
    requires n <= |times| && Permits(LetThrough(limit, window, times, n), limit, window, now)
    ensures Permits(Kept(limit, window, times, n), limit, window, now)
  {
    KeptWithinLetThrough(limit, window, times, n, now - window);
  }

  /** A guard with limit one denies every call that steps back. */
  lemma {:induction false} OneDeniesStepBack(window: int, times: seq<int>, last: int, now: int)
    requires window >= 0 && Ends(times, last) && now < last
    ensures !Permits(Kept(1, window, times, |times|), 1, window, now)
  {
    var k := Kept(1, window, times, |times| - 1);
    var kept := AfterCall(k, 1, window, last);
    TrimmedOnce(k, 1, window, last);
    SinceEarlier(kept, |kept|, now - window, last - window);
  }

  /** The call after one at `last` is decided as the calls let through demand, whatever came before in
      order, exactly if the clock does not step back or the limit is at most one. */
  lemma DecidedRightIff(limit: int, window: int, last: int, now: int)
    requires window >= 0
    ensures (forall times :: Ends(times, last) ==> !Misjudged(limit, window, times, |times|, now)) <==>
            last <= now || limit <= 1
  {
    if last <= now || limit <= 1 {
      forall times | Ends(times, last) ensures !Misjudged(limit, window, times, |times|, now) {
        if last <= now {
          LetThroughIsHistory(limit, window, times, |times|);
          KeptIsHistory(limit, window, times, |times|, now);
        } else if limit == 1 {
          OneDeniesStepBack(window, times, last, now);
          KeptWithinLetThrough(1, window, times, |times|, now - window);
        }
      }
    } else {
      var times := seq(limit, _ => now - window) + [last];
      assert Ends(times, last);
      StepBackMisjudged(limit, window, times, last, now);
    }
  }

  // --- the guard ---

  class WindowEntry {
    var buffer: array<int>
    var len: nat

    constructor ()
      ensures Valid() && Calls() == [] && fresh(buffer)
    {
      buffer := new int[0];
      len := 0;
    }

    ghost predicate Valid()
      reads this
    {
      len <= buffer.Length
    }

    function Calls(): seq<int>
      requires Valid()
      reads this, buffer
    {
      buffer[..len]
    }

    /** The trim: survivors are written over the front of the same buffer while it is being read. */
    method Trim(cutoff: int)
      requires Valid()
      modifies this`len, buffer
      ensures Valid() && Calls() == Since(old(Calls()), cutoff)
    {
      var write := 0;
      ghost var calls := Calls();
      for read := 0 to len
        invariant 0 <= write <= read <= len <= buffer.Length && len == old(len) && buffer == old(buffer)
        invariant buffer[read..len] == calls[read..]
        invariant buffer[..write] == SinceTo(calls, read, cutoff)
      {
        var t := buffer[read];
        assert t == calls[read] by {
          assert buffer[read..len][0] == calls[read..][0];
        }
        assert buffer[read + 1..len] == calls[read + 1..] by {
          assert buffer[read..len][1..] == calls[read..][1..];
        }
        if t >= cutoff {
          buffer[write] := t;
          write := write + 1;
        }
      }
      len := write;
    }

    /** append: in place while there is room, into a larger buffer otherwise. */
    method Append(t: int)
      requires Valid()
      modifies this, buffer
      ensures Valid() && Calls() == old(Calls()) + [t]
      ensures buffer == old(buffer) || fresh(buffer)
    {
      if len == buffer.Length {
        var larger := new int[2 * len + 1];
        for i := 0 to len
          invariant len == old(len) && buffer == old(buffer) && fresh(larger) && larger.Length == 2 * len + 1
          invariant larger[..i] == buffer[..i] && buffer[..len] == old(Calls())
        {
          larger[i] := buffer[i];
        }
        buffer := larger;
      }
      buffer[len] := t;
      len := len + 1;
    }

    /** Trim to the window, then record the call if there is room. */
    method Admit(limit: int, window: int, now: int) returns (ok: bool)
      requires Valid()
      modifies this, buffer
      ensures Valid() && (buffer == old(buffer) || fresh(buffer))
      ensures ok <==> Permits(old(Calls()), limit, window, now)
      ensures Calls() == AfterCall(old(Calls()), limit, window, now)
    {
      Trim(now - window);
      if len >= limit {
        return false;
      }
      Append(now);
      return true;
    }
  }

  /** The calls made for one project so far, and those of them that were allowed. */
  datatype Trace = Trace(times: seq<int>, allowed: seq<int>)

  /** The list kept for a project and the answers given are those its whole trace of calls leads to. */
  ghost predicate Follows(limit: int, window: int, trace: Trace, calls: seq<int>) {
    && calls == Kept(limit, window, trace.times, |trace.times|)
    && trace.allowed == LetThrough(limit, window, trace.times, |trace.times|)
  }

  function Extended(trace: Trace, now: int, ok: bool): Trace {
    Trace(trace.times + [now], if ok then trace.allowed + [now] else trace.allowed)
  }

  lemma FollowsOneMore(limit: int, window: int, trace: Trace, calls: seq<int>, now: int)
    requires Follows(limit, window, trace, calls)
    ensures Follows(limit, window, Extended(trace, now, Permits(calls, limit, window, now)), AfterCall(calls, limit, window, now))
  {
    EarlierCalls(limit, window, trace.times, now, |trace.times|);
  }

  /** Whatever was called for a project, in order of time, no window holds more than limit allowed calls. */
  lemma TraceWithinLimit(limit: int, window: int, trace: Trace, calls: seq<int>, from: int)
    requires Follows(limit, window, trace, calls) && NonDecreasing(trace.times)
    ensures CountWithin(trace.allowed, from, from + window) <= if limit < 0 then 0 else limit
  {
    LimitHolds(limit, window, trace.times, |trace.times|, from);
  }

  class MemoryRateGuard {
    const limit: int
    const window: int
    var entries: map<string, WindowEntry>
    ghost var traces: map<string, Trace>

    constructor (limit: int, window: int)
      ensures this.limit == limit && this.window == window && entries == map[] && traces == map[] && Valid()
    {
      this.limit, this.window, this.entries := limit, window, map[];
      traces := map[];
    }

    ghost function TraceOf(p: string): Trace
      reads this`traces
    {
      if p in traces then traces[p] else Trace([], [])
    }

    /** Every project's list is what its own trace of calls leads to. */
    ghost predicate Traced()
      requires Valid()
      reads this`entries, this`traces, entries.Values, set e | e in entries.Values :: e.buffer
    {
      forall p :: Follows(limit, window, TraceOf(p), Calls(p))
    }

    /** Each project has its own entry and its own buffer. */
    ghost predicate Valid()
      reads this`entries, entries.Values
    {
      && (forall p :: p in entries ==> entries[p].Valid())
      && (forall p, q :: p in entries && q in entries && p != q ==>
            entries[p] != entries[q] && entries[p].buffer != entries[q].buffer)
    }

    ghost function Footprint(): set<object>
      reads this`entries, entries.Values
    {
      {this} + (set p | p in entries :: entries[p]) + (set p | p in entries :: entries[p].buffer)
    }

    /** The recorded calls of a project; none before its first call. */
    ghost function Calls(p: string): seq<int>
      requires Valid()
      reads this`entries, entries.Values, set e | e in entries.Values :: e.buffer
    {
      if p in entries then assert entries[p] in entries.Values; entries[p].Calls() else []
    }

    /** The project's own entry is made, empty, on its first call. */
    method MakeEntry(project: string)
      requires Valid()
      modifies this`entries
      ensures Valid() && project in entries && fresh(Footprint() - old(Footprint()))
      ensures forall p :: p != project ==> (p in entries <==> p in old(entries))
      ensures forall p :: Calls(p) == old(Calls(p))
    {
      if project !in entries {
        var e := new WindowEntry();
        entries := entries[project := e];
      }
    }

    method AdmitKnown(project: string, now: int) returns (ok: bool)
      requires Valid() && project in entries
      modifies entries[project], entries[project].buffer
      ensures Valid() && fresh(Footprint() - old(Footprint()))
      ensures ok <==> Permits(old(Calls(project)), limit, window, now)
      ensures Calls(project) == AfterCall(old(Calls(project)), limit, window, now)
      ensures forall p :: p in entries && p != project ==> Calls(p) == old(Calls(p))
    {
      var e := entries[project];
      assert e in entries.Values;
      ok := e.Admit(limit, window, now);
    }

    method Admit(project: string, now: int) returns (ok: bool)
      requires Valid()
      modifies Footprint() - {this}, this`entries
      ensures Valid() && fresh(Footprint() - old(Footprint()))
      ensures ok <==> Permits(old(Calls(project)), limit, window, now)
      ensures Calls(project) == AfterCall(old(Calls(project)), limit, window, now)
      ensures forall p :: p != project ==> Calls(p) == old(Calls(p))
    {
      MakeEntry(project);
      ok := AdmitKnown(project, now);
    }

    /** Allow extends the project's trace by this call and its answer, and no other project's. */
    method Allow(project: string, now: int) returns (ok: bool)
      requires Valid() && Traced()
      modifies Footprint()
      ensures Valid() && Traced() && fresh(Footprint() - old(Footprint()))
      ensures ok <==> Permits(old(Calls(project)), limit, window, now)
      ensures TraceOf(project) == Extended(old(TraceOf(project)), now, ok)
      ensures forall p :: p != project ==> TraceOf(p) == old(TraceOf(p)) && Calls(p) == old(Calls(p))
    {
      ghost var trace := Extended(TraceOf(project), now, Permits(Calls(project), limit, window, now));
      FollowsOneMore(limit, window, TraceOf(project), Calls(project), now);
      ok := Admit(project, now);
      traces := traces[project := trace];
      forall p | p != project ensures Follows(limit, window, TraceOf(p), Calls(p)) {
        assert old(Follows(limit, window, TraceOf(p), Calls(p)));
      }
    }
  }
}

// DAGCoordinator on its own: Signal and Wait on one-slot channels, without interference.
// The interleaved use of the same two operations is in ApplyRun.
module Coordinator {
  import opened Options
  import ApplyRun

  datatype GroupResult = GroupResult(failed: bool, err: string)

  // A group has a channel iff its id is a key; the channel holds at most one result.
  type Channels = map<nat, Option<GroupResult>>

  datatype WaitOutcome = Ready | UnknownDep(dep: nat) | DepFailed(dep: nat, err: string) | TimedOut(dep: nat)

  /** A non-blocking send: dropped for unknown groups and for full channels. */
  function Signalled(ch: Channels, g: nat, r: GroupResult): Channels {
    if g in ch && ch[g].None? then ch[g := Some(r)] else ch
  }

  /** The first signal of a group stands, and a signal touches no other group. */
  lemma FirstSignalStands(ch: Channels, g: nat, r: GroupResult, again: GroupResult, h: nat)
    ensures Signalled(Signalled(ch, g, r), g, again) == Signalled(ch, g, r)
    ensures g in ch && ch[g].None? ==> g in Signalled(ch, g, r) && Signalled(ch, g, r)[g] == Some(r)
    ensures h != g || h !in ch ==> (h in Signalled(ch, g, r) <==> h in ch)
    ensures h != g && h in ch ==> Signalled(ch, g, r)[h] == ch[h]
  {
  }

  /** The channels of the interleaved machine, which keeps only the failed flags. */
  ghost predicate SameTokens(ch: seq<Option<bool>>, m: Channels) {
    && (forall g: nat :: g in m <==> g < |ch|)
    && forall g: nat :: g < |ch| ==> (ch[g].Some? <==> m[g].Some?) && (ch[g].Some? ==> ch[g].value == m[g].value.failed)
  }

  /** The machine's send is Signal. */
  lemma SendIsSignal(ch: seq<Option<bool>>, m: Channels, g: nat, r: GroupResult)
    requires SameTokens(ch, m)
    ensures SameTokens(ApplyRun.Send(ch, g, r.failed), Signalled(m, g, r))
  {
  }

  predicate Succeeded(ch: Channels, d: nat) {
    d in ch && ch[d].Some? && !ch[d].value.failed
  }

  /** What the wait says of d: unknown without a channel, timed out while it is silent, failed with its
      error once it signalled failure. */
  predicate Stops(ch: Channels, d: nat, out: WaitOutcome) {
    match out
    case Ready => false
    case UnknownDep(e) => e == d && d !in ch
    case TimedOut(e) => e == d && d in ch && ch[d] == None
    case DepFailed(e, err) => e == d && d in ch && ch[d] == Some(GroupResult(true, err))
  }

  class DAGCoordinator {
    var channels: Channels

    constructor (groups: set<nat>)
      ensures channels.Keys == groups && forall g :: g in groups ==> channels[g].None?
    {
      channels := map g | g in groups :: None;
    }

    method Signal(g: nat, r: GroupResult)
      modifies this
      ensures channels == Signalled(old(channels), g, r)
    {
      if g in channels && channels[g].None? {
        channels := channels[g := Some(r)];
      }
    }

    /** Wait puts every token back where it took it. It returns nil iff all dependencies have
        signalled success, and otherwise stops at the first dependency in the list that has not. */
    method Wait(deps: seq<nat>) returns (out: WaitOutcome)
      modifies this
      ensures channels == old(channels)
      ensures out == Ready <==> forall d :: d in deps ==> Succeeded(channels, d)
      ensures out != Ready ==>
                exists k :: 0 <= k < |deps| && (forall j :: 0 <= j < k ==> Succeeded(channels, deps[j]))
                            && Stops(channels, deps[k], out)
    {
      for k := 0 to |deps|
        invariant channels == old(channels)
        invariant forall j :: 0 <= j < k ==> Succeeded(channels, deps[j])
      {
        var dep := deps[k];
        assert dep in deps;
        if dep !in channels {
          return UnknownDep(dep);
        }
        if channels[dep].None? {
          return TimedOut(dep);
        }
        var res := channels[dep].value;
        channels := channels[dep := None];
        Signal(dep, res);
        assert channels == old(channels);
        if res.failed {
          return DepFailed(dep, res.err);
        }
      }
      out := Ready;
    }
  }
}

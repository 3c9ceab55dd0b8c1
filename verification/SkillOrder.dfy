// The order of matched skills, and SkillsForContext as a whole.
module SkillOrder {
  import opened Options
  import opened SkillMatcher

  predicate StringLess(a: string, b: string) {
    b != [] && (a == [] || a[0] < b[0] || (a[0] == b[0] && StringLess(a[1..], b[1..])))
  }

  lemma {:induction false} StringTotal(a: string, b: string)
    ensures !(StringLess(a, b) && StringLess(b, a))
    ensures a == b || StringLess(a, b) || StringLess(b, a)
    ensures !StringLess(a, a)
    decreases |a|
  {
    if a != [] {
      StringTotal(a[1..], a[1..]);
      if b != [] && a[0] == b[0] {
        StringTotal(a[1..], b[1..]);
        assert a == [a[0]] + a[1..] && b == [b[0]] + b[1..];
      }
    }
  }

  lemma {:induction false} StringTransitive(a: string, b: string, c: string)
    requires StringLess(a, b) && StringLess(b, c)
    ensures StringLess(a, c)
    decreases |a|
  {
    if a != [] && a[0] == b[0] == c[0] {
      StringTransitive(a[1..], b[1..], c[1..]);
    }
  }

  /** a and b agree before k, and there a ends or has the smaller letter. */
  ghost predicate SmallerAt(a: string, b: string, k: nat) {
    k <= |a| && k < |b| && a[..k] == b[..k] && (k == |a| || a[k] < b[k])
  }

  lemma SmallerShifts(a: string, b: string, k: nat)
    requires a != [] && b != [] && a[0] == b[0]
    ensures SmallerAt(a, b, k + 1) <==> SmallerAt(a[1..], b[1..], k)
  {
    if k + 1 <= |a| && k + 1 < |b| {
      assert a[..k + 1] == [a[0]] + a[1..][..k] && b[..k + 1] == [b[0]] + b[1..][..k];
      if a[..k + 1] == b[..k + 1] {
        assert a[1..][..k] == a[..k + 1][1..] && b[1..][..k] == b[..k + 1][1..];
      }
    }
  }

  /** Lexicographic order: the first difference decides, and a proper prefix comes first. */
  lemma {:induction false} StringLessIff(a: string, b: string)
    ensures StringLess(a, b) <==> exists k: nat :: SmallerAt(a, b, k)
    decreases |a|
  {
    if a != [] && b != [] && a[0] == b[0] {
      StringLessIff(a[1..], b[1..]);
      if k: nat :| SmallerAt(a[1..], b[1..], k) {
        SmallerShifts(a, b, k);
      }
      if k: nat :| SmallerAt(a, b, k) {
        SmallerShifts(a, b, k - 1);
      }
    } else if StringLess(a, b) {
      assert SmallerAt(a, b, 0);
    } else {
      forall k: nat ensures !SmallerAt(a, b, k) {
        assert 0 < k <= |a| && k <= |b| ==> a[..k][0] == a[0] && b[..k][0] == b[0];
      }
    }
  }

  /** The comparator of sortSkills. */
  predicate Less(x: Skill, y: Skill) {
    if RiskOrder(x.risk) != RiskOrder(y.risk) then RiskOrder(x.risk) < RiskOrder(y.risk)
    else if x.validatedAt.Some? && y.validatedAt.None? then true
    else if x.validatedAt.None? && y.validatedAt.Some? then false
    else if x.validatedAt.Some? && x.validatedAt.value != y.validatedAt.value then x.validatedAt.value > y.validatedAt.value
    else if x.usage != y.usage then
      (if x.usage == 0 then false else if y.usage == 0 then true else x.usage > y.usage)
    else StringLess(x.id, y.id)
  }

  /** Two skills are comparable exactly when their ids differ or an earlier key does. */
  lemma LessTotal(x: Skill, y: Skill)
    ensures !(Less(x, y) && Less(y, x))
    ensures x.id != y.id ==> Less(x, y) || Less(y, x)
    ensures !Less(x, x)
  {
    StringTotal(x.id, y.id);
    StringTotal(x.id, x.id);
  }

  lemma LessTransitive(x: Skill, y: Skill, z: Skill)
    requires Less(x, y) && Less(y, z)
    ensures Less(x, z)
  {
    if StringLess(x.id, y.id) && StringLess(y.id, z.id) {
      StringTransitive(x.id, y.id, z.id);
    }
  }

  predicate Sorted(s: seq<Skill>) {
    forall i, j :: 0 <= i < j < |s| ==> Less(s[i], s[j])
  }

  predicate LowRisk(r: Risk) { r == Low || r == Unknown }

  predicate SameRisk(x: Skill, y: Skill) { x.risk == y.risk || (LowRisk(x.risk) && LowRisk(y.risk)) }

  /** How a sorted list reads: low, medium, high and critical risk in this order; within a risk the most
      recently validated first and the never validated last; then the most used first and the unused last;
      then by id. */
  lemma SortedReads(s: seq<Skill>, i: nat, j: nat)
    requires Sorted(s) && i < j < |s|
    ensures var x, y := s[i], s[j];
            && (LowRisk(y.risk) ==> LowRisk(x.risk))
            && (y.risk == Medium ==> LowRisk(x.risk) || x.risk == Medium)
            && (y.risk == High ==> x.risk != Critical)
            && (SameRisk(x, y) ==>
                  && (y.validatedAt.Some? ==> x.validatedAt.Some? && x.validatedAt.value >= y.validatedAt.value)
                  && (x.validatedAt == y.validatedAt ==>
                        && (x.usage == 0 ==> y.usage == 0)
                        && (y.usage != 0 ==> x.usage >= y.usage)
                        && (x.usage == y.usage ==> StringLess(x.id, y.id))))
  {
    assert Less(s[i], s[j]);
  }

  predicate DistinctIds(s: seq<Skill>) {
    forall i, j :: 0 <= i < j < |s| ==> s[i].id != s[j].id
  }

  // --- uniqueness ---

  lemma InRest(s: seq<Skill>, x: Skill)
    requires s != [] && x in multiset(s)
    ensures x == s[0] || x in s[1..]
  {
    assert s == [s[0]] + s[1..];
  }

  lemma SameHead(s: seq<Skill>, t: seq<Skill>)
    requires Sorted(s) && Sorted(t) && multiset(s) == multiset(t) && s != []
    ensures t != [] && s[0] == t[0]
  {
    assert s[0] in multiset(t);
    InRest(t, s[0]);
    assert t[0] in multiset(s);
    InRest(s, t[0]);
    LessTotal(s[0], t[0]);
  }

  lemma RestMultiset(s: seq<Skill>)
    requires s != []
    ensures multiset(s[1..]) == multiset(s) - multiset{s[0]}
  {
    assert s == [s[0]] + s[1..];
  }

  /** A set of skills has one sorted listing. */
  lemma {:induction false} SortedUnique(s: seq<Skill>, t: seq<Skill>)
    requires Sorted(s) && Sorted(t) && multiset(s) == multiset(t)
    ensures s == t
    decreases |s|
  {
    if s == [] {
      assert |multiset(t)| == |multiset(s)|;
    } else {
      SameHead(s, t);
      RestMultiset(s);
      RestMultiset(t);
      SortedUnique(s[1..], t[1..]);
      assert s == [s[0]] + s[1..] && t == [t[0]] + t[1..];
    }
  }

  // --- sorting ---

  lemma InsertedAt(sorted: seq<Skill>, k: nat, x: Skill)
    requires k <= |sorted| && Sorted(sorted)
    requires forall i :: 0 <= i < k ==> Less(sorted[i], x)
    requires forall j :: k <= j < |sorted| ==> Less(x, sorted[j])
    ensures var r := sorted[..k] + [x] + sorted[k..]; Sorted(r) && multiset(r) == multiset(sorted) + multiset{x}
  {
    assert sorted == sorted[..k] + sorted[k..];
  }

  /** Put one more skill in its place. */
  method Insert(sorted: seq<Skill>, x: Skill) returns (r: seq<Skill>)
    requires Sorted(sorted) && forall i :: 0 <= i < |sorted| ==> sorted[i].id != x.id
    ensures Sorted(r) && multiset(r) == multiset(sorted) + multiset{x}
  {
    var k := |sorted|;
    while k > 0 && Less(x, sorted[k - 1])
      invariant 0 <= k <= |sorted|
      invariant forall j :: k <= j < |sorted| ==> Less(x, sorted[j])
    {
      k := k - 1;
    }
    forall i | 0 <= i < k ensures Less(sorted[i], x) {
      LessTotal(x, sorted[k - 1]);
      if i < k - 1 {
        LessTransitive(sorted[i], sorted[k - 1], x);
      }
    }
    r := sorted[..k] + [x] + sorted[k..];
    InsertedAt(sorted, k, x);
  }

  method SortSkills(skills: seq<Skill>) returns (r: seq<Skill>)
    requires DistinctIds(skills)
    ensures Sorted(r) && multiset(r) == multiset(skills)
  {
    r := [];
    for k := 0 to |skills|
      invariant Sorted(r) && multiset(r) == multiset(skills[..k])
    {
      forall i | 0 <= i < |r| ensures r[i].id != skills[k].id {
        assert r[i] in multiset(skills[..k]);
        var j :| 0 <= j < k && skills[..k][j] == r[i];
      }
      assert skills[..k + 1] == skills[..k] + [skills[k]];
      r := Insert(r, skills[k]);
    }
    assert skills[..|skills|] == skills;
  }

  // --- the whole query ---

  datatype Skipped = Skipped(id: string, reason: Reason)

  /** The eligible skills, in repository order. */
  ghost function Matching(lib: Lib, skills: seq<Skill>, q: Query): (r: seq<Skill>)
    ensures forall s :: s in r <==> s in skills && Eligible(lib, s, q)
  {
    if skills == [] then []
    else
      var rest := Matching(lib, skills[..|skills| - 1], q);
      if Eligible(lib, skills[|skills| - 1], q) then rest + [skills[|skills| - 1]] else rest
  }

  /** The other skills, in repository order, each with its first failing gate. */
  ghost predicate ListsSkipped(lib: Lib, skills: seq<Skill>, q: Query, skipped: seq<Skipped>)
    decreases |skills|
  {
    if skills == [] then skipped == []
    else
      var s := skills[|skills| - 1];
      if Eligible(lib, s, q) then ListsSkipped(lib, skills[..|skills| - 1], q, skipped)
      else
        && skipped != [] && skipped[|skipped| - 1].id == s.id && FirstFailure(lib, s, q, skipped[|skipped| - 1].reason)
        && ListsSkipped(lib, skills[..|skills| - 1], q, skipped[..|skipped| - 1])
  }

  lemma {:induction false} MatchingDistinct(lib: Lib, skills: seq<Skill>, q: Query)
    requires DistinctIds(skills)
    ensures DistinctIds(Matching(lib, skills, q))
  {
    if skills != [] {
      var before := skills[..|skills| - 1];
      MatchingDistinct(lib, before, q);
      forall s | s in Matching(lib, before, q) ensures s.id != skills[|skills| - 1].id {
        assert s in before;
      }
    }
  }

  /** SkillsForContext: every stored skill is matched or skipped; the matched ones come sorted, the
      skipped ones in repository order with the reason of their first failing gate. */
  method SkillsForContext(lib: Lib, candidates: seq<Skill>, q: Query) returns (matched: seq<Skill>, skipped: seq<Skipped>)
    requires DistinctIds(candidates)
    ensures Sorted(matched) && multiset(matched) == multiset(Matching(lib, candidates, q))
    ensures ListsSkipped(lib, candidates, q, skipped) && |matched| + |skipped| == |candidates|
  {
    matched, skipped := [], [];
    for k := 0 to |candidates|
      invariant matched == Matching(lib, candidates[..k], q) && ListsSkipped(lib, candidates[..k], q, skipped)
      invariant |matched| + |skipped| == k
    {
      var s := candidates[k];
      assert candidates[..k + 1][..k] == candidates[..k];
      var verdict := Judge(lib, s, q);
      match verdict {
        case Some(reason) =>
          assert (skipped + [Skipped(s.id, reason)])[..|skipped|] == skipped;
          skipped := skipped + [Skipped(s.id, reason)];
        case None =>
          matched := matched + [s];
      }
    }
    assert candidates[..|candidates|] == candidates;
    MatchingDistinct(lib, candidates, q);
    ghost var unsorted := matched;
    matched := SortSkills(matched);
    assert |multiset(matched)| == |multiset(unsorted)|;
  }

  // --- independence of repository order ---

  lemma {:induction false} MatchingCount(lib: Lib, skills: seq<Skill>, q: Query, s: Skill)
    ensures multiset(Matching(lib, skills, q))[s] == if Eligible(lib, s, q) then multiset(skills)[s] else 0
  {
    if skills != [] {
      var last := skills[|skills| - 1];
      assert skills == skills[..|skills| - 1] + [last];
      MatchingCount(lib, skills[..|skills| - 1], q, s);
    }
  }

  /** The matched list depends on which skills are stored, not on the order they are read in. */
  lemma {:induction false} OrderIndependent(lib: Lib, a: seq<Skill>, b: seq<Skill>, q: Query, ma: seq<Skill>, mb: seq<Skill>)
    requires multiset(a) == multiset(b)
    requires Sorted(ma) && multiset(ma) == multiset(Matching(lib, a, q))
    requires Sorted(mb) && multiset(mb) == multiset(Matching(lib, b, q))
    ensures ma == mb
  {
    forall s ensures multiset(ma)[s] == multiset(mb)[s] {
      MatchingCount(lib, a, q, s);
      MatchingCount(lib, b, q, s);
    }
    assert multiset(ma) == multiset(mb);
    SortedUnique(ma, mb);
  }
}

// SkillsForContext: the gates, the partition into matched and skipped, and the total order.
module SkillMatcher {
  import opened Options
  import opened SkillStatus

  datatype Risk = Low | Medium | High | Critical | Unknown

  datatype AppliesWhen = AppliesWhen(
    featureTypes: seq<string>, touchedPaths: seq<string>, excludePaths: seq<string>,
    frameworks: seq<string>, minVersions: map<string, string>, languages: seq<string>)

  datatype Skill = Skill(
    id: string, status: Status, phases: seq<string>, project: string, repo: string, when: AppliesWhen,
    risk: Risk, validatedAt: Option<int>, usage: int)

  datatype Framework = Framework(name: string, version: string)
  datatype Structure = Structure(frameworks: seq<Framework>, languages: seq<string>)

  // An empty string, an empty list or None is a dimension the query does not constrain.
  datatype Query = Query(
    phase: string, project: string, repo: string, featureType: string, paths: seq<string>,
    structure: Option<Structure>, maxRisk: Option<Risk>)

  // Library functions: glob matching, equality up to case, lower case, and the major number of a version text.
  datatype Lib = Lib(glob: (string, string) -> bool, equalFold: (string, string) -> bool, lower: string -> string,
                     major: string -> Option<int>)

  /** riskOrder; a level missing from the table reads as 0. */
  function RiskOrder(r: Risk): int {
    match r case Low => 0 case Medium => 1 case High => 2 case Critical => 3 case Unknown => 0
  }

  // --- the gates, in the order they are tried ---

  datatype Reason = StatusNotActive | ScopeMismatch | AppliesWhenFailed | StructuralMismatch | RiskExceeded

  predicate DimensionFits(want: string, have: string) {
    want == "" || have == "" || have == "*" || have == want
  }

  predicate ScopeFits(s: Skill, q: Query) {
    DimensionFits(q.project, s.project) && DimensionFits(q.repo, s.repo)
  }

  predicate Globs(lib: Lib, patterns: seq<string>, path: string) {
    exists i :: 0 <= i < |patterns| && lib.glob(patterns[i], path)
  }

  /** No touched path is excluded and, if the skill names paths, one of them is touched. */
  ghost predicate PathsFit(lib: Lib, aw: AppliesWhen, paths: seq<string>) {
    paths == [] ||
    ((forall i :: 0 <= i < |paths| ==> !Globs(lib, aw.excludePaths, paths[i]))
     && (aw.touchedPaths == [] || exists i :: 0 <= i < |paths| && Globs(lib, aw.touchedPaths, paths[i])))
  }

  ghost predicate WhenFits(lib: Lib, aw: AppliesWhen, q: Query) {
    (aw.featureTypes == [] || q.featureType == "" || q.featureType in aw.featureTypes) && PathsFit(lib, aw, q.paths)
  }

  /** The version gate fails open: only two readable majors in the wrong order fail it. */
  predicate VersionFits(lib: Lib, aw: AppliesWhen, fw: Framework) {
    var key := lib.lower(fw.name);
    key !in aw.minVersions ||
    (var have, want := lib.major(fw.version), lib.major(aw.minVersions[key]);
     have.None? || want.None? || have.value >= want.value)
  }

  predicate FrameworkFits(lib: Lib, aw: AppliesWhen, declared: string, fw: Framework) {
    lib.equalFold(declared, fw.name) && VersionFits(lib, aw, fw)
  }

  ghost predicate SomeFramework(lib: Lib, aw: AppliesWhen, detected: seq<Framework>) {
    exists i, j :: 0 <= i < |aw.frameworks| && 0 <= j < |detected| && FrameworkFits(lib, aw, aw.frameworks[i], detected[j])
  }

  predicate SameName(lib: Lib, a: string, b: string) {
    lib.equalFold(a, b)
  }

  ghost predicate SomeLanguage(lib: Lib, declared: seq<string>, detected: seq<string>) {
    exists i, j :: 0 <= i < |declared| && 0 <= j < |detected| && SameName(lib, declared[i], detected[j])
  }

  ghost predicate StructureFits(lib: Lib, aw: AppliesWhen, q: Query) {
    q.structure.Some? ==>
      && (aw.frameworks == [] || SomeFramework(lib, aw, q.structure.value.frameworks))
      && (aw.languages == [] || SomeLanguage(lib, aw.languages, q.structure.value.languages))
  }

  predicate RiskFits(s: Skill, q: Query) {
    q.maxRisk.Some? ==> RiskOrder(s.risk) <= RiskOrder(q.maxRisk.value)
  }

  const GATES := 6

  ghost predicate Passes(lib: Lib, k: nat, s: Skill, q: Query) {
    match k
    case 0 => s.status == Active
    case 1 => q.phase == "" || q.phase in s.phases
    case 2 => ScopeFits(s, q)
    case 3 => WhenFits(lib, s.when, q)
    case 4 => StructureFits(lib, s.when, q)
    case _ => RiskFits(s, q)
  }

  function ReasonOf(k: nat): Reason {
    match k
    case 0 => StatusNotActive
    case 1 => ScopeMismatch
    case 2 => ScopeMismatch
    case 3 => AppliesWhenFailed
    case 4 => StructuralMismatch
    case _ => RiskExceeded
  }

  ghost predicate Eligible(lib: Lib, s: Skill, q: Query) {
    forall k: nat :: k < GATES ==> Passes(lib, k, s, q)
  }

  /** r is the reason of the first gate the skill fails. */
  ghost predicate FirstFailure(lib: Lib, s: Skill, q: Query, r: Reason) {
    exists k: nat :: k < GATES && !Passes(lib, k, s, q) && r == ReasonOf(k) && forall j: nat :: j < k ==> Passes(lib, j, s, q)
  }

  // --- what the gates let through, in terms of the stored fields ---

  predicate WithinRisk(r: Risk, bound: Risk) {
    r == Low || r == Unknown || bound == Critical || (bound == High && r != Critical) || (bound == Medium && r == Medium)
  }

  ghost predicate SomeGlob(lib: Lib, patterns: seq<string>, paths: seq<string>) {
    exists i, j :: 0 <= i < |patterns| && 0 <= j < |paths| && lib.glob(patterns[i], paths[j])
  }

  lemma SomeGlobIff(lib: Lib, patterns: seq<string>, paths: seq<string>)
    ensures SomeGlob(lib, patterns, paths) <==> exists j :: 0 <= j < |paths| && Globs(lib, patterns, paths[j])
  {
    if SomeGlob(lib, patterns, paths) {
      var i, j :| 0 <= i < |patterns| && 0 <= j < |paths| && lib.glob(patterns[i], paths[j]);
      assert Globs(lib, patterns, paths[j]);
    }
  }

  /** A detected framework that the skill declares, new enough where the skill asks for a version and both
      versions can be read. */
  ghost predicate Suits(lib: Lib, aw: AppliesWhen, declared: string, fw: Framework) {
    && lib.equalFold(declared, fw.name)
    && (lib.lower(fw.name) in aw.minVersions && lib.major(fw.version).Some? && lib.major(aw.minVersions[lib.lower(fw.name)]).Some? ==>
          lib.major(aw.minVersions[lib.lower(fw.name)]).value <= lib.major(fw.version).value)
  }

  lemma SuitsIff(lib: Lib, aw: AppliesWhen, declared: string, fw: Framework)
    ensures Suits(lib, aw, declared, fw) <==> FrameworkFits(lib, aw, declared, fw)
  {
  }

  /** Active, of the asked phase, in the scope or without one, for the feature, untouched by exclusions,
      touching a wanted path, of a detected framework and language, and within the risk; each only where the
      query and the skill both say something. */
  lemma EligibleIff(lib: Lib, s: Skill, q: Query)
    ensures Eligible(lib, s, q) <==>
            && s.status == Active && (q.phase != "" ==> q.phase in s.phases)
            && (q.project != "" ==> s.project in {"", "*", q.project}) && (q.repo != "" ==> s.repo in {"", "*", q.repo})
            && (q.featureType != "" && s.when.featureTypes != [] ==> q.featureType in s.when.featureTypes)
            && !SomeGlob(lib, s.when.excludePaths, q.paths)
            && (q.paths != [] && s.when.touchedPaths != [] ==> SomeGlob(lib, s.when.touchedPaths, q.paths))
            && (q.structure.Some? && s.when.frameworks != [] ==>
                  exists i, j :: 0 <= i < |s.when.frameworks| && 0 <= j < |q.structure.value.frameworks|
                    && Suits(lib, s.when, s.when.frameworks[i], q.structure.value.frameworks[j]))
            && (q.structure.Some? && s.when.languages != [] ==>
                  exists i, j :: 0 <= i < |s.when.languages| && 0 <= j < |q.structure.value.languages|
                    && lib.equalFold(s.when.languages[i], q.structure.value.languages[j]))
            && (q.maxRisk.Some? ==> WithinRisk(s.risk, q.maxRisk.value))
  {
    GatesInWords(lib, s, q);
    assert Eligible(lib, s, q) <==>
           Passes(lib, 0, s, q) && Passes(lib, 1, s, q) && Passes(lib, 2, s, q) && Passes(lib, 3, s, q) && Passes(lib, 4, s, q)
           && Passes(lib, 5, s, q);
  }

  lemma GatesInWords(lib: Lib, s: Skill, q: Query)
    ensures Passes(lib, 2, s, q) <==>
            (q.project != "" ==> s.project in {"", "*", q.project}) && (q.repo != "" ==> s.repo in {"", "*", q.repo})
    ensures Passes(lib, 3, s, q) <==>
            && (q.featureType != "" && s.when.featureTypes != [] ==> q.featureType in s.when.featureTypes)
            && !SomeGlob(lib, s.when.excludePaths, q.paths)
            && (q.paths != [] && s.when.touchedPaths != [] ==> SomeGlob(lib, s.when.touchedPaths, q.paths))
    ensures Passes(lib, 4, s, q) <==>
            && (q.structure.Some? && s.when.frameworks != [] ==>
                  exists i, j :: 0 <= i < |s.when.frameworks| && 0 <= j < |q.structure.value.frameworks|
                    && Suits(lib, s.when, s.when.frameworks[i], q.structure.value.frameworks[j]))
            && (q.structure.Some? && s.when.languages != [] ==>
                  exists i, j :: 0 <= i < |s.when.languages| && 0 <= j < |q.structure.value.languages|
                    && lib.equalFold(s.when.languages[i], q.structure.value.languages[j]))
    ensures Passes(lib, 5, s, q) <==> (q.maxRisk.Some? ==> WithinRisk(s.risk, q.maxRisk.value))
  {
    SomeGlobIff(lib, s.when.excludePaths, q.paths);
    SomeGlobIff(lib, s.when.touchedPaths, q.paths);
    if q.structure.Some? {
      StructureInWords(lib, s.when, q);
    }
  }

  lemma StructureInWords(lib: Lib, aw: AppliesWhen, q: Query)
    requires q.structure.Some?
    ensures SomeFramework(lib, aw, q.structure.value.frameworks) <==>
            exists i, j :: 0 <= i < |aw.frameworks| && 0 <= j < |q.structure.value.frameworks|
              && Suits(lib, aw, aw.frameworks[i], q.structure.value.frameworks[j])
    ensures SomeLanguage(lib, aw.languages, q.structure.value.languages) <==>
            exists i, j :: 0 <= i < |aw.languages| && 0 <= j < |q.structure.value.languages|
              && lib.equalFold(aw.languages[i], q.structure.value.languages[j])
  {
    forall i, j | 0 <= i < |aw.frameworks| && 0 <= j < |q.structure.value.frameworks|
      ensures Suits(lib, aw, aw.frameworks[i], q.structure.value.frameworks[j]) <==>
              FrameworkFits(lib, aw, aw.frameworks[i], q.structure.value.frameworks[j])
    {
      SuitsIff(lib, aw, aw.frameworks[i], q.structure.value.frameworks[j]);
    }
    forall i, j | 0 <= i < |aw.languages| && 0 <= j < |q.structure.value.languages|
      ensures lib.equalFold(aw.languages[i], q.structure.value.languages[j]) <==>
              SameName(lib, aw.languages[i], q.structure.value.languages[j])
    {
    }
  }

  /** The reason given names the first of the five checks that fails: status, then phase or scope, then
      applies-when, then structure, then risk. */
  lemma ReasonsInOrder(lib: Lib, s: Skill, q: Query, r: Reason)
    requires FirstFailure(lib, s, q, r)
    ensures r == StatusNotActive <==> s.status != Active
    ensures r == ScopeMismatch <==> s.status == Active && !((q.phase != "" ==> q.phase in s.phases) && ScopeFits(s, q))
    ensures var upToScope := s.status == Active && (q.phase != "" ==> q.phase in s.phases) && ScopeFits(s, q);
            && (r == AppliesWhenFailed <==> upToScope && !WhenFits(lib, s.when, q))
            && (r == StructuralMismatch <==> upToScope && WhenFits(lib, s.when, q) && !StructureFits(lib, s.when, q))
            && (r == RiskExceeded <==> upToScope && WhenFits(lib, s.when, q) && StructureFits(lib, s.when, q) && !RiskFits(s, q))
  {
    var k: nat :| k < GATES && !Passes(lib, k, s, q) && r == ReasonOf(k) && forall j: nat :: j < k ==> Passes(lib, j, s, q);
    assert Passes(lib, 0, s, q) <==> s.status == Active;
    assert Passes(lib, 1, s, q) <==> (q.phase != "" ==> q.phase in s.phases);
    assert Passes(lib, 2, s, q) <==> ScopeFits(s, q);
    assert Passes(lib, 3, s, q) <==> WhenFits(lib, s.when, q);
    assert Passes(lib, 4, s, q) <==> StructureFits(lib, s.when, q);
    assert Passes(lib, 5, s, q) <==> RiskFits(s, q);
  }

  method AnyGlobMatch(lib: Lib, patterns: seq<string>, path: string) returns (found: bool)
    ensures found <==> Globs(lib, patterns, path)
  {
    for i := 0 to |patterns|
      invariant forall j :: 0 <= j < i ==> !lib.glob(patterns[j], path)
    {
      if lib.glob(patterns[i], path) {
        return true;
      }
    }
    return false;
  }

  method AnyPathMatches(lib: Lib, patterns: seq<string>, paths: seq<string>) returns (found: bool)
    ensures found <==> exists i :: 0 <= i < |paths| && Globs(lib, patterns, paths[i])
  {
    for i := 0 to |paths|
      invariant forall j :: 0 <= j < i ==> !Globs(lib, patterns, paths[j])
    {
      var hit := AnyGlobMatch(lib, patterns, paths[i]);
      if hit {
        return true;
      }
    }
    return false;
  }

  method AppliesWhenMatches(lib: Lib, aw: AppliesWhen, q: Query) returns (ok: bool)
    ensures ok <==> WhenFits(lib, aw, q)
  {
    if |aw.featureTypes| > 0 && q.featureType != "" && q.featureType !in aw.featureTypes {
      return false;
    }
    if |q.paths| > 0 {
      if |aw.excludePaths| > 0 {
        var excluded := AnyPathMatches(lib, aw.excludePaths, q.paths);
        if excluded {
          return false;
        }
      }
      if |aw.touchedPaths| > 0 {
        var touched := AnyPathMatches(lib, aw.touchedPaths, q.paths);
        if !touched {
          return false;
        }
      }
    }
    return true;
  }

  method AnyFrameworkMatches(lib: Lib, aw: AppliesWhen, detected: seq<Framework>) returns (found: bool)
    ensures found <==> SomeFramework(lib, aw, detected)
  {
    for i := 0 to |aw.frameworks|
      invariant forall a, b :: 0 <= a < i && 0 <= b < |detected| ==> !FrameworkFits(lib, aw, aw.frameworks[a], detected[b])
    {
      for j := 0 to |detected|
        invariant forall b :: 0 <= b < j ==> !FrameworkFits(lib, aw, aw.frameworks[i], detected[b])
      {
        var fw := detected[j];
        if !lib.equalFold(aw.frameworks[i], fw.name) {
          continue;
        }
        if |aw.minVersions| == 0 || lib.lower(fw.name) !in aw.minVersions {
          assert FrameworkFits(lib, aw, aw.frameworks[i], detected[j]);
          return true;
        }
        var have, want := lib.major(fw.version), lib.major(aw.minVersions[lib.lower(fw.name)]);
        if have.None? || want.None? || have.value >= want.value {
          assert FrameworkFits(lib, aw, aw.frameworks[i], detected[j]);
          return true;
        }
      }
    }
    return false;
  }

  method AnyLanguagePresent(lib: Lib, declared: seq<string>, detected: seq<string>) returns (found: bool)
    ensures found <==> SomeLanguage(lib, declared, detected)
  {
    for i := 0 to |declared|
      invariant forall a, b :: 0 <= a < i && 0 <= b < |detected| ==> !SameName(lib, declared[a], detected[b])
    {
      for j := 0 to |detected|
        invariant forall b :: 0 <= b < j ==> !SameName(lib, declared[i], detected[b])
      {
        if lib.equalFold(declared[i], detected[j]) {
          assert SameName(lib, declared[i], detected[j]);
          return true;
        }
      }
    }
    return false;
  }

  method StructuralMatches(lib: Lib, aw: AppliesWhen, q: Query) returns (ok: bool)
    ensures ok <==> StructureFits(lib, aw, q)
  {
    if q.structure.None? {
      return true;
    }
    if |aw.frameworks| > 0 {
      var found := AnyFrameworkMatches(lib, aw, q.structure.value.frameworks);
      if !found {
        return false;
      }
    }
    if |aw.languages| > 0 {
      var found := AnyLanguagePresent(lib, aw.languages, q.structure.value.languages);
      if !found {
        return false;
      }
    }
    return true;
  }

  lemma FailsFirst(lib: Lib, s: Skill, q: Query, k: nat)
    requires k < GATES && !Passes(lib, k, s, q) && forall j: nat :: j < k ==> Passes(lib, j, s, q)
    ensures FirstFailure(lib, s, q, ReasonOf(k)) && !Eligible(lib, s, q)
  {
  }

  /** One skill through the gates, stopping at the first that fails. */
  method Judge(lib: Lib, s: Skill, q: Query) returns (verdict: Option<Reason>)
    ensures verdict.None? <==> Eligible(lib, s, q)
    ensures verdict.Some? ==> FirstFailure(lib, s, q, verdict.value)
  {
    if s.status != Active {
      FailsFirst(lib, s, q, 0);
      return Some(StatusNotActive);
    }
    if q.phase != "" && q.phase !in s.phases {
      FailsFirst(lib, s, q, 1);
      return Some(ScopeMismatch);
    }
    if !ScopeFits(s, q) {
      FailsFirst(lib, s, q, 2);
      return Some(ScopeMismatch);
    }
    var when := AppliesWhenMatches(lib, s.when, q);
    if !when {
      FailsFirst(lib, s, q, 3);
      return Some(AppliesWhenFailed);
    }
    var structural := StructuralMatches(lib, s.when, q);
    if !structural {
      FailsFirst(lib, s, q, 4);
      return Some(StructuralMismatch);
    }
    if q.maxRisk.Some? && RiskOrder(s.risk) > RiskOrder(q.maxRisk.value) {
      FailsFirst(lib, s, q, 5);
      return Some(RiskExceeded);
    }
    return None;
  }
}

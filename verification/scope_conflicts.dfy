/**
  Scope conflicts between stories of one wave: `execution_conflict_analyzer.py`, and the
  path checks of `integration_gate.py` that rely on them.
 */
module ScopeConflicts {
  import opened Wrappers
  import opened RepositoryPaths
  import opened Ordering

  /** The declared scope of a user story: raw repository paths. */
  datatype StoryScope = StoryScope(allowedPaths: seq<string>, forbiddenPaths: seq<string>)

  datatype CanonicalScope = CanonicalScope(
    allowed: set<string>,
    forbidden: set<string>,
    unspecified: bool,
    ambiguous: bool)

  datatype Classification = Safe | Conflict | Unknown
  datatype Reason = PathOverlap | ScopeUnspecified | ScopeAmbiguous

  datatype PairAnalysis = PairAnalysis(
    classification: Classification,
    reasons: set<Reason>,
    overlaps: set<string>)

  datatype ExecutionConflict = ExecutionConflict(
    waveIndex: nat,
    leftId: string,
    rightId: string,
    analysis: PairAnalysis)

  // ---------- execution_conflict_analyzer.py ----------

  /** The generator expressions of `_canonical_scope`: `None` is `INVALID_SCOPE`. */
  function NormalizeAll(fold: string -> string, paths: seq<string>): (r: Option<seq<string>>)
    ensures r.Some? <==> forall p :: p in paths ==> NormalizePath(fold, p, true).Some?
    ensures r.Some? ==> |r.value| == |paths|
    ensures r.Some? ==> forall i :: 0 <= i < |paths| ==> NormalizePath(fold, paths[i], true) == Some(r.value[i])
  {
    if paths == [] then Some([])
    else
      var head := NormalizePath(fold, paths[0], true);
      var rest := NormalizeAll(fold, paths[1..]);
      if head.Some? && rest.Some? then Some([head.value] + rest.value) else None
  }

  function FullyExcluded(region: string, forbidden: string): bool {
    if IsDirectory(forbidden) then StartsWith(region, forbidden)
    else !IsDirectory(region) && region == forbidden
  }

  function CanonicalScopeOf(fold: string -> string, scope: StoryScope): Option<CanonicalScope> {
    var allowed := NormalizeAll(fold, scope.allowedPaths);
    var forbidden := NormalizeAll(fold, scope.forbiddenPaths);
    if allowed.None? || forbidden.None? then None
    else
      var allowedUnique := Elements(allowed.value);
      var forbiddenUnique := Elements(forbidden.value);
      var duplicates := |allowedUnique| != |allowed.value| || |forbiddenUnique| != |forbidden.value|;
      var fullyForbidden :=
        exists a, f | a in allowedUnique && f in forbiddenUnique :: FullyExcluded(a, f);
      Some(CanonicalScope(allowedUnique, forbiddenUnique, allowedUnique == {}, duplicates || fullyForbidden))
  }

  function OverlapRegion(left: string, right: string): Option<string> {
    if !IsDirectory(left) && !IsDirectory(right) then
      if left == right then Some(left) else None
    else if IsDirectory(left) && IsDirectory(right) then
      if StartsWith(left, right) then Some(left)
      else if StartsWith(right, left) then Some(right)
      else None
    else
      var (directory, file) := if IsDirectory(left) then (left, right) else (right, left);
      if StartsWith(file, directory) then Some(file) else None
  }

  predicate Reported(left: CanonicalScope, right: CanonicalScope, l: string, r: string) {
    var overlap := OverlapRegion(l, r);
    overlap.Some? && !exists f | f in left.forbidden + right.forbidden :: FullyExcluded(overlap.value, f)
  }

  function Overlaps(left: CanonicalScope, right: CanonicalScope): set<string> {
    set l, r | l in left.allowed && r in right.allowed && Reported(left, right, l, r) ::
      OverlapRegion(l, r).value
  }

  function AnalyzePair(left: CanonicalScope, right: CanonicalScope): PairAnalysis {
    var overlaps := Overlaps(left, right);
    var (classification, reasons) :=
      if overlaps != {} then (Conflict, {PathOverlap})
      else if left.unspecified || right.unspecified then (Unknown, {ScopeUnspecified})
      else if left.ambiguous || right.ambiguous then (Unknown, {ScopeAmbiguous})
      else (Safe, {});
    var further :=
      if (left.ambiguous || right.ambiguous) && classification != Safe then {ScopeAmbiguous} else {};
    PairAnalysis(classification, reasons + further, overlaps)
  }

  /** Every reason is reported, not only the one that decides, and a pair is SAFE exactly for want of any. */
  lemma ReasonsExplain(left: CanonicalScope, right: CanonicalScope)
    requires (left.unspecified <==> left.allowed == {}) && (right.unspecified <==> right.allowed == {})
    ensures var pair := AnalyzePair(left, right);
      && (PathOverlap in pair.reasons <==> pair.overlaps != {})
      && (ScopeUnspecified in pair.reasons <==> left.unspecified || right.unspecified)
      && (ScopeAmbiguous in pair.reasons <==> left.ambiguous || right.ambiguous)
      && (pair.classification == Safe <==> pair.reasons == {})
      && (pair.classification == Conflict <==> PathOverlap in pair.reasons)
  {
    if left.unspecified || right.unspecified {
      assert Overlaps(left, right) == {};
    }
  }

  // ---------- what a scope means ----------

  /** `_scope_matches` on a raw scope path; `None` is its `ImplementerInputError`. */
  function ScopeMatches(fold: string -> string, file: string, scopePath: string): Option<bool> {
    var scope := NormalizePath(fold, scopePath, true);
    if scope.None? then None else Some(Covers(scope.value, file))
  }

  predicate Matched(fold: string -> string, file: string, paths: seq<string>) {
    exists p | p in paths :: ScopeMatches(fold, file, p) == Some(true)
  }

  /** A file a story may change: allowed by some path, forbidden by none. */
  predicate Permits(scope: CanonicalScope, file: string) {
    && (exists a | a in scope.allowed :: Covers(a, file))
    && (forall f | f in scope.forbidden :: !Covers(f, file))
  }

  ghost predicate WellFormedScope(fold: Folding, scope: CanonicalScope) {
    forall p :: p in scope.allowed + scope.forbidden ==> ScopePath(fold, p)
  }

  /** A file both stories may change. */
  ghost predicate SharedFile(fold: Folding, left: CanonicalScope, right: CanonicalScope, file: string) {
    FilePath(fold, file) && Permits(left, file) && Permits(right, file)
  }

  lemma CanonicalScopeWellFormed(fold: Folding, scope: StoryScope)
    requires CanonicalScopeOf(fold, scope).Some?
    ensures WellFormedScope(fold, CanonicalScopeOf(fold, scope).value)
  {
    forall p | p in CanonicalScopeOf(fold, scope).value.allowed + CanonicalScopeOf(fold, scope).value.forbidden
      ensures ScopePath(fold, p)
    {
    }
  }

  // ---------- exactness of the overlap computation ----------

  /** The overlap region is the intersection of the two regions, whatever their kinds. */
  lemma OverlapIsIntersection(left: string, right: string, file: string)
    ensures (Covers(left, file) && Covers(right, file))
        <==> (OverlapRegion(left, right).Some? && Covers(OverlapRegion(left, right).value, file))
  {
    if StartsWith(file, left) && StartsWith(file, right) {
      assert left == file[..|left|] && right == file[..|right|];
      if |left| <= |right| {
        assert left == right[..|left|];
      } else {
        assert right == left[..|right|];
      }
    }
  }

  /** A forbidden path that swallows a region forbids every file of it. */
  lemma ExcludedRegionIsForbidden(region: string, forbidden: string, file: string)
    requires FullyExcluded(region, forbidden) && Covers(region, file)
    ensures Covers(forbidden, file)
  {
  }

  lemma {:induction false} LengthBound(paths: set<string>) returns (n: nat)
    ensures forall p :: p in paths ==> |p| <= n
  {
    n := 0;
    if paths != {} {
      var p :| p in paths;
      n := LengthBound(paths - {p});
      n := if n < |p| then |p| else n;
    }
  }

  /**
    A region that no single forbidden path swallows keeps a file that none of them
    forbids, however many there are: in a directory, a name longer than all of them.
   */
  lemma UnexcludedRegionKeepsFile(fold: Folding, region: string, forbidden: set<string>) returns (file: string)
    requires ScopePath(fold, region)
    requires forall f :: f in forbidden ==> !FullyExcluded(region, f)
    ensures FilePath(fold, file) && Covers(region, file)
    ensures forall f :: f in forbidden ==> !Covers(f, file)
  {
    if !IsDirectory(region) {
      FileRegionIsFilePath(fold, region);
      file := region;
    } else {
      var n := LengthBound(forbidden);
      n := n + 3;
      FreshFileInside(fold, region, n);
      file := region + FreshName(n);
      forall f | f in forbidden
        ensures !Covers(f, file)
      {
        if |f| <= |region| {
          assert StartsWith(file, f) ==> StartsWith(region, f);
        }
      }
    }
  }

  /** Main result: an overlap is reported exactly when some file may be changed by both stories. */
  lemma OverlapExact(fold: Folding, left: CanonicalScope, right: CanonicalScope)
    requires WellFormedScope(fold, left) && WellFormedScope(fold, right)
    ensures Overlaps(left, right) != {} <==> exists file :: SharedFile(fold, left, right, file)
  {
    if Overlaps(left, right) != {} {
      var region :| region in Overlaps(left, right);
      var l, r :| l in left.allowed && r in right.allowed && Reported(left, right, l, r)
        && region == OverlapRegion(l, r).value;
      assert region == l || region == r;
      assert ScopePath(fold, region);
      var file := UnexcludedRegionKeepsFile(fold, region, left.forbidden + right.forbidden);
      OverlapIsIntersection(l, r, file);
      assert SharedFile(fold, left, right, file);
    }
    if file :| SharedFile(fold, left, right, file) {
      SharedFileIsReported(left, right, file);
    }
  }

  /** Every file both stories may change lies inside a reported overlap region. */
  lemma SharedFileIsReported(left: CanonicalScope, right: CanonicalScope, file: string)
    requires Permits(left, file) && Permits(right, file)
    ensures exists region :: region in Overlaps(left, right) && Covers(region, file)
  {
    var l :| l in left.allowed && Covers(l, file);
    var r :| r in right.allowed && Covers(r, file);
    OverlapIsIntersection(l, r, file);
    var region := OverlapRegion(l, r).value;
    forall f | f in left.forbidden + right.forbidden
      ensures !FullyExcluded(region, f)
    {
      if FullyExcluded(region, f) {
        ExcludedRegionIsForbidden(region, f, file);
      }
    }
    assert Reported(left, right, l, r);
    assert region in Overlaps(left, right);
  }

  // ---------- the verdict, in terms of the declared scopes ----------

  /** A file that a declared scope lets its story change: under an allowed path, and under no forbidden one. */
  ghost predicate Allows(fold: Folding, scope: StoryScope, file: string) {
    FilePath(fold, file) && Matched(fold, file, scope.allowedPaths) && !Matched(fold, file, scope.forbiddenPaths)
  }

  /** Two of the paths are the same once they are canonical. */
  predicate Repeats(fold: string -> string, paths: seq<string>) {
    exists i, j | 0 <= i < j < |paths| :: NormalizePath(fold, paths[i], true) == NormalizePath(fold, paths[j], true)
  }

  /** One path forbids every file that another path allows. */
  ghost predicate Denies(fold: Folding, forbidden: string, allowed: string) {
    forall file :: FilePath(fold, file) && ScopeMatches(fold, file, allowed) == Some(true) ==> ScopeMatches(fold, file, forbidden) == Some(true)
  }

  /** A declaration that cannot be meant: a path said twice, or allowed and forbidden altogether. */
  ghost predicate Unclear(fold: Folding, scope: StoryScope) {
    || Repeats(fold, scope.allowedPaths) || Repeats(fold, scope.forbiddenPaths)
    || exists a, f :: a in scope.allowedPaths && f in scope.forbiddenPaths && Denies(fold, f, a)
  }

  lemma {:induction false} ElementsOfRepeated(s: seq<string>)
    ensures |Elements(s)| == |s| <==> Distinct(s)
    ensures |Elements(s)| <= |s|
  {
    if s != [] {
      ElementsOfRepeated(s[1..]);
      assert Elements(s) == {s[0]} + Elements(s[1..]);
      if s[0] in s[1..] {
        var k :| 0 <= k < |s[1..]| && s[1..][k] == s[0];
        assert s[k + 1] == s[0];
        assert Elements(s) == Elements(s[1..]);
      } else if Distinct(s[1..]) {
        forall i, j | 0 <= i < j < |s|
          ensures s[i] != s[j]
        {
          assert s[j] == s[1..][j - 1];
          assert i > 0 ==> s[i] == s[1..][i - 1];
        }
      } else {
        var i, j :| 0 <= i < j < |s[1..]| && s[1..][i] == s[1..][j];
        assert s[i + 1] == s[j + 1];
      }
    }
  }

  /** Fewer canonical paths than paths means that some are the same. */
  lemma RepeatsExactly(fold: Folding, paths: seq<string>)
    requires NormalizeAll(fold, paths).Some?
    ensures |Elements(NormalizeAll(fold, paths).value)| != |NormalizeAll(fold, paths).value| <==> Repeats(fold, paths)
  {
    var canonical := NormalizeAll(fold, paths).value;
    ElementsOfRepeated(canonical);
    forall i, j | 0 <= i < j < |paths|
      ensures canonical[i] == canonical[j] <==> NormalizePath(fold, paths[i], true) == NormalizePath(fold, paths[j], true)
    {
      assert NormalizePath(fold, paths[i], true) == Some(canonical[i]);
    }
    hide NormalizePath;
    hide NormalizeAll;
  }

  /** A forbidden path swallows a region exactly when it forbids every file of it. */
  lemma ExcludesExactly(fold: Folding, allowed: string, forbidden: string)
    requires NormalizePath(fold, allowed, true).Some? && NormalizePath(fold, forbidden, true).Some?
    ensures FullyExcluded(NormalizePath(fold, allowed, true).value, NormalizePath(fold, forbidden, true).value) <==> Denies(fold, forbidden, allowed)
  {
    hide NormalizePath;
    var region, f := NormalizePath(fold, allowed, true).value, NormalizePath(fold, forbidden, true).value;
    if FullyExcluded(region, f) {
      forall file | Covers(region, file)
        ensures Covers(f, file)
      {
        ExcludedRegionIsForbidden(region, f, file);
      }
    } else {
      var file := UnexcludedRegionKeepsFile(fold, region, {f});
      assert ScopeMatches(fold, file, allowed) == Some(true) && ScopeMatches(fold, file, forbidden) == Some(false);
    }
  }

  /** A declaration has a canonical scope exactly when each of its paths is one. */
  lemma ScopeGivenExactly(fold: Folding, scope: StoryScope)
    ensures CanonicalScopeOf(fold, scope).Some? <==>
      forall p :: p in scope.allowedPaths + scope.forbiddenPaths ==> NormalizePath(fold, p, true).Some?
  {
    assert NormalizeAll(fold, scope.allowedPaths).Some? <==> forall p :: p in scope.allowedPaths ==> NormalizePath(fold, p, true).Some?;
    hide NormalizePath;
    hide NormalizeAll;
  }

  /** A canonical scope says of itself whether its declaration is clear. */
  lemma AmbiguousExactly(fold: Folding, scope: StoryScope)
    requires CanonicalScopeOf(fold, scope).Some?
    ensures CanonicalScopeOf(fold, scope).value.ambiguous <==> Unclear(fold, scope)
    ensures CanonicalScopeOf(fold, scope).value.unspecified <==> scope.allowedPaths == []
  {
    var allowed, forbidden := NormalizeAll(fold, scope.allowedPaths).value, NormalizeAll(fold, scope.forbiddenPaths).value;
    RepeatsExactly(fold, scope.allowedPaths);
    RepeatsExactly(fold, scope.forbiddenPaths);
    forall i, k | 0 <= i < |allowed| && 0 <= k < |forbidden|
      ensures FullyExcluded(allowed[i], forbidden[k]) <==> Denies(fold, scope.forbiddenPaths[k], scope.allowedPaths[i])
    {
      ExcludesExactly(fold, scope.allowedPaths[i], scope.forbiddenPaths[k]);
    }
    assert scope.allowedPaths != [] ==> allowed[0] in Elements(allowed);
    hide NormalizePath;
    hide NormalizeAll;
    hide FullyExcluded;
    hide Denies;
    hide Repeats;
    SomeExcluded(fold, scope, allowed, forbidden);
  }

  lemma SomeExcluded(fold: Folding, scope: StoryScope, allowed: seq<string>, forbidden: seq<string>)
    requires |allowed| == |scope.allowedPaths| && |forbidden| == |scope.forbiddenPaths|
    requires forall i, k :: 0 <= i < |allowed| && 0 <= k < |forbidden| ==>
      (FullyExcluded(allowed[i], forbidden[k]) <==> Denies(fold, scope.forbiddenPaths[k], scope.allowedPaths[i]))
    ensures (exists a, f :: a in Elements(allowed) && f in Elements(forbidden) && FullyExcluded(a, f))
      <==> exists a, f :: a in scope.allowedPaths && f in scope.forbiddenPaths && Denies(fold, f, a)
  {
    hide FullyExcluded;
    hide Denies;
    if a, f :| a in Elements(allowed) && f in Elements(forbidden) && FullyExcluded(a, f) {
      var i :| 0 <= i < |allowed| && allowed[i] == a;
      var k :| 0 <= k < |forbidden| && forbidden[k] == f;
      assert Denies(fold, scope.forbiddenPaths[k], scope.allowedPaths[i]);
    }
    if a, f :| a in scope.allowedPaths && f in scope.forbiddenPaths && Denies(fold, f, a) {
      var i :| 0 <= i < |scope.allowedPaths| && scope.allowedPaths[i] == a;
      var k :| 0 <= k < |scope.forbiddenPaths| && scope.forbiddenPaths[k] == f;
      assert FullyExcluded(allowed[i], forbidden[k]);
      assert allowed[i] in Elements(allowed) && forbidden[k] in Elements(forbidden);
    }
  }

  /** What a canonical scope permits is what its declaration allows. */
  lemma PermitsExactly(fold: Folding, scope: StoryScope, file: string)
    requires CanonicalScopeOf(fold, scope).Some?
    ensures Permits(CanonicalScopeOf(fold, scope).value, file)
      <==> Matched(fold, file, scope.allowedPaths) && !Matched(fold, file, scope.forbiddenPaths)
  {
    MatchedExactly(fold, scope.allowedPaths, file);
    MatchedExactly(fold, scope.forbiddenPaths, file);
  }

  lemma MatchedExactly(fold: Folding, paths: seq<string>, file: string)
    requires NormalizeAll(fold, paths).Some?
    ensures Matched(fold, file, paths) <==> exists p :: p in Elements(NormalizeAll(fold, paths).value) && Covers(p, file)
  {
    hide NormalizePath;
    var canonical := NormalizeAll(fold, paths).value;
    assert forall i :: 0 <= i < |paths| ==> ScopeMatches(fold, file, paths[i]) == Some(Covers(canonical[i], file));
    if p :| p in paths && ScopeMatches(fold, file, p) == Some(true) {
      var i :| 0 <= i < |paths| && paths[i] == p;
      assert canonical[i] in Elements(canonical);
    }
    if p :| p in Elements(canonical) && Covers(p, file) {
      var i :| 0 <= i < |canonical| && canonical[i] == p;
      assert ScopeMatches(fold, file, paths[i]) == Some(true);
    }
  }

  /** A file that both declared scopes allow. */
  ghost predicate BothAllow(fold: Folding, left: StoryScope, right: StoryScope, file: string) {
    Allows(fold, left, file) && Allows(fold, right, file)
  }

  /**
    Main result: a pair is a CONFLICT if and only if some file is allowed to both, SAFE if and only if none is and
    both declarations are given and clear, and UNKNOWN otherwise. Each reason is given exactly where it applies.
   */
  lemma VerdictInWords(fold: Folding, left: StoryScope, right: StoryScope)
    requires CanonicalScopeOf(fold, left).Some? && CanonicalScopeOf(fold, right).Some?
    ensures var pair := AnalyzePair(CanonicalScopeOf(fold, left).value, CanonicalScopeOf(fold, right).value);
      var shared := exists file :: BothAllow(fold, left, right, file);
      && (pair.classification == Conflict <==> shared)
      && (pair.classification == Safe <==>
            !shared && left.allowedPaths != [] && right.allowedPaths != [] && !Unclear(fold, left) && !Unclear(fold, right))
      && (PathOverlap in pair.reasons <==> shared)
      && (ScopeUnspecified in pair.reasons <==> left.allowedPaths == [] || right.allowedPaths == [])
      && (ScopeAmbiguous in pair.reasons <==> Unclear(fold, left) || Unclear(fold, right))
  {
    var l, r := CanonicalScopeOf(fold, left).value, CanonicalScopeOf(fold, right).value;
    CanonicalScopeWellFormed(fold, left);
    CanonicalScopeWellFormed(fold, right);
    OverlapExact(fold, l, r);
    AmbiguousExactly(fold, left);
    AmbiguousExactly(fold, right);
    forall file
      ensures SharedFile(fold, l, r, file) <==> BothAllow(fold, left, right, file)
    {
      PermitsExactly(fold, left, file);
      PermitsExactly(fold, right, file);
    }
    assert (l.unspecified <==> l.allowed == {}) && (r.unspecified <==> r.allowed == {});
    hide CanonicalScopeOf;
    hide SharedFile;
    hide BothAllow;
    hide Unclear;
    ReasonsExplain(l, r);
  }

  /** The verdict on a pair does not depend on which story is called left. */
  lemma AnalysisIsSymmetric(left: CanonicalScope, right: CanonicalScope)
    ensures AnalyzePair(left, right) == AnalyzePair(right, left)
  {
    forall region
      ensures region in Overlaps(left, right) <==> region in Overlaps(right, left)
    {
      if region in Overlaps(left, right) {
        OverlapsSwap(left, right, region);
      }
      if region in Overlaps(right, left) {
        OverlapsSwap(right, left, region);
      }
    }
    assert Overlaps(left, right) == Overlaps(right, left);
  }

  lemma OverlapsSwap(left: CanonicalScope, right: CanonicalScope, region: string)
    requires region in Overlaps(left, right)
    ensures region in Overlaps(right, left)
  {
    var l, r :| l in left.allowed && r in right.allowed && Reported(left, right, l, r)
      && region == OverlapRegion(l, r).value;
    assert OverlapRegion(r, l) == OverlapRegion(l, r) by {
      if StartsWith(l, r) && StartsWith(r, l) {
        assert |l| == |r| && l == r;
      }
    }
    assert left.forbidden + right.forbidden == right.forbidden + left.forbidden;
    assert Reported(right, left, r, l);
  }

  // ---------- analyze ----------

  /** The scopes of all members of a plan: the `scopes` dictionary of `analyze`. */
  ghost predicate ScopesOf(fold: string -> string, stories: map<string, StoryScope>, scopes: map<string, CanonicalScope>) {
    forall m :: m in scopes ==> m in stories && CanonicalScopeOf(fold, stories[m]) == Some(scopes[m])
  }

  predicate Joins(p: ExecutionConflict, a: string, b: string) {
    (p.leftId == a && p.rightId == b) || (p.leftId == b && p.rightId == a)
  }

  /** A result names two members of a wave, in identifier order, with their analysis. */
  predicate PairOf(scopes: map<string, CanonicalScope>, members: seq<string>, w: nat, p: ExecutionConflict) {
    && p.waveIndex == w && p.leftId in members && p.rightId in members
    && StringLeq(p.leftId, p.rightId)
    && p.leftId in scopes && p.rightId in scopes
    && p.analysis == AnalyzePair(scopes[p.leftId], scopes[p.rightId])
  }

  predicate PairsOf(scopes: map<string, CanonicalScope>, waves: seq<seq<string>>, pairs: seq<ExecutionConflict>) {
    forall p | p in pairs :: p.waveIndex < |waves| && PairOf(scopes, waves[p.waveIndex], p.waveIndex, p)
  }

  ghost predicate PairReported(pairs: seq<ExecutionConflict>, w: nat, a: string, b: string) {
    exists p :: p in pairs && p.waveIndex == w && Joins(p, a, b)
  }

  ghost predicate WaveReported(pairs: seq<ExecutionConflict>, w: nat, members: seq<string>) {
    forall a, b :: a in members && b in members && a != b ==> PairReported(pairs, w, a, b)
  }

  /** No two results are about the same two members of the same wave. */
  ghost predicate NoPairTwice(pairs: seq<ExecutionConflict>) {
    forall i, j :: 0 <= i < j < |pairs| ==> !(pairs[i].waveIndex == pairs[j].waveIndex && Joins(pairs[i], pairs[j].leftId, pairs[j].rightId))
  }

  /** `analyze` on a canonical wave plan: one result for every two members of a wave, and no other. */
  method Analyze(waves: seq<seq<string>>, scopes: map<string, CanonicalScope>) returns (pairs: seq<ExecutionConflict>)
    requires forall w, m :: 0 <= w < |waves| && m in waves[w] ==> m in scopes
    ensures PairsOf(scopes, waves, pairs)
    ensures forall w :: 0 <= w < |waves| ==> WaveReported(pairs, w, waves[w])
    ensures (forall w :: 0 <= w < |waves| ==> Distinct(waves[w])) ==> NoPairTwice(pairs)
  {
    hide NoPairTwice;
    hide Distinct;
    hide WaveReported;
    assert NoPairTwice([]) by {
      NothingTwice();
    }
    pairs := [];
    for w := 0 to |waves|
      invariant PairsOf(scopes, waves, pairs)
      invariant forall v :: 0 <= v < w ==> WaveReported(pairs, v, waves[v])
      invariant forall p :: p in pairs ==> p.waveIndex < w
      invariant (forall v :: 0 <= v < w ==> Distinct(waves[v])) ==> NoPairTwice(pairs)
    {
      var members := SortStrings(waves[w]);
      var found := AnalyzeWave(w, members, scopes);
      assert multiset(members) == multiset(waves[w]);
      SameMembers(scopes, found, w, members, waves[w]);
      if forall v :: 0 <= v < w + 1 ==> Distinct(waves[v]) {
        DistinctPermutation(waves[w], members);
        LaterWave(pairs, found, w);
      }
      forall v | 0 <= v < w + 1
        ensures WaveReported(pairs + found, v, waves[v])
      {
        ReportsExtend(pairs, found, v, waves[v]);
      }
      pairs := pairs + found;
    }
  }

  lemma NothingTwice()
    ensures NoPairTwice([])
  {
  }

  /** A wave is the same in any order of its members. */
  lemma SameMembers(scopes: map<string, CanonicalScope>, found: seq<ExecutionConflict>, w: nat, members: seq<string>, others: seq<string>)
    requires multiset(members) == multiset(others) && WaveReported(found, w, members)
    requires forall p :: p in found ==> PairOf(scopes, members, w, p)
    ensures WaveReported(found, w, others) && forall p :: p in found ==> PairOf(scopes, others, w, p)
  {
    hide AnalyzePair;
    hide PairReported;
    assert forall m :: m in members <==> m in multiset(members);
    assert forall m :: m in others <==> m in multiset(others);
  }

  lemma LaterWave(before: seq<ExecutionConflict>, more: seq<ExecutionConflict>, w: nat)
    requires NoPairTwice(before) && NoPairTwice(more)
    requires (forall p :: p in before ==> p.waveIndex < w) && forall p :: p in more ==> p.waveIndex == w
    ensures NoPairTwice(before + more)
  {
    hide Joins;
    var all := before + more;
    forall i, j | 0 <= i < j < |all|
      ensures !(all[i].waveIndex == all[j].waveIndex && Joins(all[i], all[j].leftId, all[j].rightId))
    {
      if j < |before| {
        assert all[i] == before[i] && all[j] == before[j];
      } else if i < |before| {
        assert all[i] == before[i] && all[i] in before && all[j] == more[j - |before|] && all[j] in more;
      } else {
        assert all[i] == more[i - |before|] && all[j] == more[j - |before|];
      }
    }
  }

  lemma ReportsExtend(before: seq<ExecutionConflict>, more: seq<ExecutionConflict>, w: nat, members: seq<string>)
    requires WaveReported(before, w, members) || WaveReported(more, w, members)
    ensures WaveReported(before + more, w, members)
  {
    forall a, b | a in members && b in members && a != b
      ensures PairReported(before + more, w, a, b)
    {
      assert PairReported(before, w, a, b) || PairReported(more, w, a, b);
      var p :| (p in before || p in more) && p.waveIndex == w && Joins(p, a, b);
      assert p in before + more;
    }
  }

  /** All pairs of positions whose first is below `i`, or is `i` with the second below `j`. */
  ghost predicate ReportedBelow(pairs: seq<ExecutionConflict>, w: nat, members: seq<string>, i: nat, j: nat) {
    forall k, l :: 0 <= k < l < |members| && (k < i || (k == i && l < j)) ==> PairReported(pairs, w, members[k], members[l])
  }

  lemma ReportedBelowStep(pairs: seq<ExecutionConflict>, pair: ExecutionConflict, w: nat, members: seq<string>, i: nat, j: nat)
    requires i < j < |members| && ReportedBelow(pairs, w, members, i, j)
    requires pair.waveIndex == w && pair.leftId == members[i] && pair.rightId == members[j]
    ensures ReportedBelow(pairs + [pair], w, members, i, j + 1)
  {
    forall k, l | 0 <= k < l < |members| && (k < i || (k == i && l < j + 1))
      ensures PairReported(pairs + [pair], w, members[k], members[l])
    {
      if k == i && l == j {
        assert pair in pairs + [pair] && Joins(pair, members[k], members[l]);
      } else {
        assert PairReported(pairs, w, members[k], members[l]);
        var p :| p in pairs && p.waveIndex == w && Joins(p, members[k], members[l]);
        assert p in pairs + [pair];
      }
    }
  }

  /** The two inner loops of `analyze`: `combinations(identifiers, 2)`. */
  method AnalyzeWave(w: nat, members: seq<string>, scopes: map<string, CanonicalScope>)
    returns (pairs: seq<ExecutionConflict>)
    requires SortedBy(StringLeq, members)
    requires forall m :: m in members ==> m in scopes
    ensures forall p :: p in pairs ==> PairOf(scopes, members, w, p)
    ensures WaveReported(pairs, w, members)
    ensures Distinct(members) ==> NoPairTwice(pairs)
  {
    hide PairOf;
    pairs := [];
    ghost var places: seq<(nat, nat)> := [];
    for i := 0 to |members|
      invariant forall p :: p in pairs ==> PairOf(scopes, members, w, p)
      invariant ReportedBelow(pairs, w, members, i, i + 1)
      invariant PlacedBelow(pairs, members, places, i, i + 1)
    {
      for j := i + 1 to |members|
        invariant forall p :: p in pairs ==> PairOf(scopes, members, w, p)
        invariant ReportedBelow(pairs, w, members, i, j)
        invariant PlacedBelow(pairs, members, places, i, j)
      {
        var pair := ExecutionConflict(w, members[i], members[j], AnalyzePair(scopes[members[i]], scopes[members[j]]));
        ReportedBelowStep(pairs, pair, w, members, i, j);
        LaterInIdentifierOrder(scopes, members, w, i, j, pair);
        PlacedBelowStep(pairs, pair, members, places, i, j);
        pairs, places := pairs + [pair], places + [(i, j)];
      }
    }
    EveryPairOfPositions(pairs, w, members);
    if Distinct(members) {
      PlacedOnce(pairs, members, places, |members|, |members| + 1);
    }
  }

  lemma LaterInIdentifierOrder(scopes: map<string, CanonicalScope>, members: seq<string>, w: nat, i: nat, j: nat, pair: ExecutionConflict)
    requires SortedBy(StringLeq, members) && i < j < |members| && members[i] in scopes && members[j] in scopes
    requires pair == ExecutionConflict(w, members[i], members[j], AnalyzePair(scopes[members[i]], scopes[members[j]]))
    ensures PairOf(scopes, members, w, pair)
  {
    hide AnalyzePair;
  }

  /** The results stand in the order of the positions they join, and all of those are passed. */
  ghost predicate PlacedBelow(pairs: seq<ExecutionConflict>, members: seq<string>, places: seq<(nat, nat)>, i: nat, j: nat) {
    && |places| == |pairs|
    && (forall x :: 0 <= x < |places| ==> Place(pairs[x], members, places[x]) && Before(places[x], (i, j)))
    && forall x, y :: 0 <= x < y < |places| ==> Before(places[x], places[y])
  }

  predicate Place(pair: ExecutionConflict, members: seq<string>, place: (nat, nat)) {
    place.0 < place.1 < |members| && pair.leftId == members[place.0] && pair.rightId == members[place.1]
  }

  predicate Before(a: (nat, nat), b: (nat, nat)) {
    a.0 < b.0 || (a.0 == b.0 && a.1 < b.1)
  }

  lemma PlacedBelowStep(pairs: seq<ExecutionConflict>, pair: ExecutionConflict, members: seq<string>, places: seq<(nat, nat)>, i: nat, j: nat)
    requires PlacedBelow(pairs, members, places, i, j) && Place(pair, members, (i, j))
    ensures PlacedBelow(pairs + [pair], members, places + [(i, j)], i, j + 1)
  {
  }

  lemma PlacedOnce(pairs: seq<ExecutionConflict>, members: seq<string>, places: seq<(nat, nat)>, i: nat, j: nat)
    requires PlacedBelow(pairs, members, places, i, j) && Distinct(members)
    ensures NoPairTwice(pairs)
  {
    forall x, y | 0 <= x < y < |pairs|
      ensures !Joins(pairs[x], pairs[y].leftId, pairs[y].rightId)
    {
      assert Place(pairs[x], members, places[x]) && Place(pairs[y], members, places[y]) && Before(places[x], places[y]);
    }
  }

  lemma EveryPairOfPositions(pairs: seq<ExecutionConflict>, w: nat, members: seq<string>)
    requires ReportedBelow(pairs, w, members, |members|, 0)
    ensures WaveReported(pairs, w, members)
  {
    forall a, b | a in members && b in members && a != b
      ensures PairReported(pairs, w, a, b)
    {
      var k :| 0 <= k < |members| && members[k] == a;
      var l :| 0 <= l < |members| && members[l] == b;
      if k < l {
        assert PairReported(pairs, w, a, b);
      } else {
        assert PairReported(pairs, w, b, a);
      }
    }
  }

  // ---------- integration_gate.py ----------

  datatype Finding =
    | ScopeViolation(member: string, paths: set<string>)
    | PathCollision(left: string, right: string, paths: set<string>)
    | ConflictAnalysisMismatch(left: string, right: string)

  /** The `violating` tuple of `_validate_declared_and_scope`, on a scope that normalises. */
  function Violating(fold: string -> string, scope: StoryScope, changed: set<string>): set<string> {
    set f | f in changed && (Matched(fold, f, scope.forbiddenPaths) || !Matched(fold, f, scope.allowedPaths))
  }

  /** A collision finding names two positions of the order and exactly the paths they share. */
  predicate IsCollision(order: seq<string>, changed: map<string, set<string>>, f: Finding)
    requires forall m :: m in order ==> m in changed
  {
    exists i, j | 0 <= i < j < |order| ::
      && f == PathCollision(order[i], order[j], changed[order[i]] * changed[order[j]])
      && f.paths != {}
  }

  /** `_detect_path_collisions`. */
  method DetectPathCollisions(order: seq<string>, changed: map<string, set<string>>) returns (observed: seq<Finding>)
    requires forall m :: m in order ==> m in changed
    ensures observed == [] <==> forall i, j :: 0 <= i < j < |order| ==> changed[order[i]] * changed[order[j]] == {}
    ensures forall f :: f in observed ==> IsCollision(order, changed, f)
  {
    observed := [];
    for i := 0 to |order|
      invariant observed == [] ==> forall k, l :: 0 <= k < i && k < l < |order| ==> changed[order[k]] * changed[order[l]] == {}
      invariant forall f :: f in observed ==> IsCollision(order, changed, f)
    {
      for j := i + 1 to |order|
        invariant observed == [] ==> forall k, l :: 0 <= k < i && k < l < |order| ==> changed[order[k]] * changed[order[l]] == {}
        invariant observed == [] ==> forall l :: i < l < j ==> changed[order[i]] * changed[order[l]] == {}
        invariant forall f :: f in observed ==> IsCollision(order, changed, f)
      {
        var collision := changed[order[i]] * changed[order[j]];
        if collision != {} {
          observed := observed + [PathCollision(order[i], order[j], collision)];
        }
      }
    }
    if observed != [] {
      assert IsCollision(order, changed, observed[0]);
    }
  }

  /** The `pair_map` dictionary: a later pair with the same two members replaces an earlier one. */
  function PairMap(pairs: seq<ExecutionConflict>): map<set<string>, Classification> {
    if pairs == [] then map[]
    else
      var last := pairs[|pairs| - 1];
      PairMap(pairs[..|pairs| - 1])[{last.leftId, last.rightId} := last.analysis.classification]
  }

  predicate CanonicallySafe(pairs: seq<ExecutionConflict>, left: string, right: string) {
    {left, right} in PairMap(pairs) && PairMap(pairs)[{left, right}] == Safe
  }

  predicate IsMismatch(pairs: seq<ExecutionConflict>, order: seq<string>, f: Finding) {
    exists i, j | 0 <= i < j < |order| ::
      f == ConflictAnalysisMismatch(order[i], order[j]) && !CanonicallySafe(pairs, order[i], order[j])
  }

  /** `_revalidate_safe_pairs`, given the canonical analysis. */
  method RevalidateSafePairs(pairs: seq<ExecutionConflict>, order: seq<string>) returns (observed: seq<Finding>)
    ensures observed == [] <==> forall i, j :: 0 <= i < j < |order| ==> CanonicallySafe(pairs, order[i], order[j])
    ensures forall f :: f in observed ==> IsMismatch(pairs, order, f)
  {
    observed := [];
    for i := 0 to |order|
      invariant observed == [] ==> forall k, l :: 0 <= k < i && k < l < |order| ==> CanonicallySafe(pairs, order[k], order[l])
      invariant forall f :: f in observed ==> IsMismatch(pairs, order, f)
    {
      for j := i + 1 to |order|
        invariant observed == [] ==> forall k, l :: 0 <= k < i && k < l < |order| ==> CanonicallySafe(pairs, order[k], order[l])
        invariant observed == [] ==> forall l :: i < l < j ==> CanonicallySafe(pairs, order[i], order[l])
        invariant forall f :: f in observed ==> IsMismatch(pairs, order, f)
      {
        if !CanonicallySafe(pairs, order[i], order[j]) {
          observed := observed + [ConflictAnalysisMismatch(order[i], order[j])];
        }
      }
    }
    if observed != [] {
      assert IsMismatch(pairs, order, observed[0]);
    }
  }

  lemma {:induction false} PairMapComesFromPairs(pairs: seq<ExecutionConflict>, key: set<string>)
    requires key in PairMap(pairs)
    ensures exists p :: p in pairs && {p.leftId, p.rightId} == key && p.analysis.classification == PairMap(pairs)[key]
  {
    var last := pairs[|pairs| - 1];
    if {last.leftId, last.rightId} == key {
      assert last in pairs;
    } else {
      PairMapComesFromPairs(pairs[..|pairs| - 1], key);
      var p :| p in pairs[..|pairs| - 1] && {p.leftId, p.rightId} == key
        && p.analysis.classification == PairMap(pairs[..|pairs| - 1])[key];
      assert p in pairs;
    }
  }

  /** The last of the given pairs about two members decides. */
  lemma {:induction false} CanonicallySafeExactlyWhen(pairs: seq<ExecutionConflict>, left: string, right: string)
    ensures CanonicallySafe(pairs, left, right) <==>
      exists k | 0 <= k < |pairs| ::
        && {pairs[k].leftId, pairs[k].rightId} == {left, right} && pairs[k].analysis.classification == Safe
        && forall n | k < n < |pairs| :: {pairs[n].leftId, pairs[n].rightId} != {left, right}
  {
    if pairs != [] {
      var last, rest := pairs[|pairs| - 1], pairs[..|pairs| - 1];
      CanonicallySafeExactlyWhen(rest, left, right);
      forall k | 0 <= k < |rest| ensures rest[k] == pairs[k] { }
      if {last.leftId, last.rightId} == {left, right} {
        assert pairs[|pairs| - 1] == last;
      } else {
        assert CanonicallySafe(pairs, left, right) <==> CanonicallySafe(rest, left, right);
      }
    }
  }

  /** The gate finds a changed file in violation exactly when the canonical scope of the analysis does not permit it. */
  lemma ViolatesExactlyWhen(fold: Folding, scope: StoryScope, changed: set<string>, file: string)
    requires CanonicalScopeOf(fold, scope).Some? && file in changed
    ensures file in Violating(fold, scope, changed) <==> !Permits(CanonicalScopeOf(fold, scope).value, file)
  {
    PermitsExactly(fold, scope, file);
    hide Permits;
    hide Matched;
  }

  /**
    Members whose diffs stay in their scopes, and whose pair the canonical analysis calls SAFE,
    never change the same path: `_detect_path_collisions` cannot find anything the other
    checks have let through.
   */
  lemma SafeMembersNeverCollide(
      fold: Folding, stories: map<string, StoryScope>, scopes: map<string, CanonicalScope>,
      waves: seq<seq<string>>, pairs: seq<ExecutionConflict>,
      left: string, right: string, leftChanged: set<string>, rightChanged: set<string>)
    requires ScopesOf(fold, stories, scopes) && PairsOf(scopes, waves, pairs)
    requires left in stories && right in stories && CanonicallySafe(pairs, left, right)
    requires forall f :: f in leftChanged + rightChanged ==> FilePath(fold, f)
    requires Violating(fold, stories[left], leftChanged) == {} && Violating(fold, stories[right], rightChanged) == {}
    ensures leftChanged !! rightChanged
  {
    SafePairWasAnalyzed(scopes, waves, pairs, left, right);
    VerdictInWords(fold, stories[left], stories[right]);
    forall f | f in leftChanged && f in rightChanged
      ensures false
    {
      ViolatesExactlyWhen(fold, stories[left], leftChanged, f);
      ViolatesExactlyWhen(fold, stories[right], rightChanged, f);
      assert BothAllow(fold, stories[left], stories[right], f);
    }
  }

  lemma SafePairWasAnalyzed(scopes: map<string, CanonicalScope>, waves: seq<seq<string>>,
                            pairs: seq<ExecutionConflict>, left: string, right: string)
    requires PairsOf(scopes, waves, pairs) && CanonicallySafe(pairs, left, right)
    ensures left in scopes && right in scopes
    ensures AnalyzePair(scopes[left], scopes[right]).classification == Safe
  {
    PairMapComesFromPairs(pairs, {left, right});
    var p :| p in pairs && {p.leftId, p.rightId} == {left, right} && p.analysis.classification == Safe;
    assert p.leftId in {left, right} && p.rightId in {left, right};
    assert left in {p.leftId, p.rightId} && right in {p.leftId, p.rightId};
    AnalysisIsSymmetric(scopes[p.leftId], scopes[p.rightId]);
  }
}

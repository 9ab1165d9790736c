/**
 Plan normalization: the checks a plan must pass, the canonical content in which every list is sorted by its
 identity, and the hash and snapshot id derived from it. A hash is modelled by the content it digests. The shape
 of a plan is the plan with every list replaced by its multiset: what is left when order is forgotten.
 */
module PlanCanonical {
  import opened Basics
  import opened Digraph
  import opened Ordering
  import opened Plan
  import opened PlanGraph
  import Text

  datatype RetryPolicy = RetryPolicy(
    maxAttempts: int, attemptTimeout: int, maxElapsed: int, backoffInitial: int, backoffMax: int,
    observations: seq<string>)
  datatype LeasePolicy = LeasePolicy(duration: int, heartbeat: int, recoveryProbes: int)

  datatype Content = Content(
    project: string,
    revision: int,
    supersedes: Option<string>,
    title: string,
    outcome: string,
    acceptance: AcceptancePolicy,
    taskIntent: ContentRef,
    executionPlan: ContentRef,
    contextPack: ContentRef,
    branches: seq<Branch>,
    integration: Option<string>,
    maxConcurrency: int,
    duplicationBudget: int,
    retry: RetryPolicy,
    lease: LeasePolicy,
    provider: ProviderPolicy,
    permission: Permission)

  datatype Digest = DigestOf(content: Content) | OtherText(text: string)
  datatype Input = Input(content: Content, planHash: Option<Digest>, snapshotId: Option<Digest>)
  datatype Normalized = Normalized(content: Content, planHash: Digest, snapshotId: Digest)

  // ---------------------------------------------------------------- canonical form

  function TextKey(s: string): string { s }
  function BranchKey(b: Branch): string { b.ref }
  function RequirementKey(r: Requirement): string { r.ref.id }
  function CriterionKey(c: Criterion): string { c.id }

  function CanonicalBranch(b: Branch): Branch {
    b.(dependencies := Sort(b.dependencies, TextKey))
  }

  function CanonicalCriterion(c: Criterion): Criterion {
    c.(requirements := Sort(c.requirements, RequirementKey))
  }

  function CanonicalBranches(branches: seq<Branch>): seq<Branch> {
    Sort(Map(CanonicalBranch, branches), BranchKey)
  }

  function CanonicalCriteria(criteria: seq<Criterion>): seq<Criterion> {
    Sort(Map(CanonicalCriterion, criteria), CriterionKey)
  }

  function Canonical(c: Content): Content {
    c.(branches := CanonicalBranches(c.branches),
       acceptance := c.acceptance.(criteria := CanonicalCriteria(c.acceptance.criteria)),
       provider := c.provider.(allowed := Sort(c.provider.allowed, TextKey)),
       retry := c.retry.(observations := Sort(c.retry.observations, TextKey)))
  }

  // ---------------------------------------------------------------- validity

  predicate ContentRefOk(r: ContentRef) {
    Text.IsPortableRef(r.id) && Text.IsSha256(r.hash)
  }

  predicate TextValid(s: string, limit: nat) {
    !Text.Blank(s) && Text.Utf8Length(s) <= limit
  }

  predicate AllPortable(refs: seq<string>) {
    forall r :: r in refs ==> Text.IsPortableRef(r)
  }

  predicate HeaderValid(c: Content) {
    && Text.IsPortableRef(c.project) && (c.supersedes.Some? ==> Text.IsSnapshotId(c.supersedes.value))
    && TextValid(c.title, 1_024) && TextValid(c.outcome, 8_192)
    && ContentRefOk(c.taskIntent) && ContentRefOk(c.executionPlan) && ContentRefOk(c.contextPack)
  }

  predicate ScalarsValid(c: Content) {
    && HeaderValid(c)
    && 1 <= c.revision <= 1_000_000
    && (c.revision == 1 <==> c.supersedes.None?)
    && 0 <= c.duplicationBudget <= 100_000_000
    && 1 <= c.retry.maxAttempts <= 5
    && 1_000 <= c.retry.attemptTimeout <= 86_400_000
    && 1_000 <= c.retry.maxElapsed <= 604_800_000
    && 0 <= c.retry.backoffInitial <= 3_600_000 && 0 <= c.retry.backoffMax <= 86_400_000
    && c.retry.attemptTimeout <= c.retry.maxElapsed && c.retry.backoffInitial <= c.retry.backoffMax
    && 5_000 <= c.lease.duration <= 3_600_000 && 1_000 <= c.lease.heartbeat <= 600_000
    && 1 <= c.lease.recoveryProbes <= 20 && c.lease.heartbeat < c.lease.duration
  }

  /** The one observation that proves nothing was sent, and so may be retried automatically. */
  const RETRYABLE_OBSERVATION := "branch.dispatch.not_sent"

  predicate ListsValid(c: Content) {
    && Distinct(c.retry.observations) && (forall o :: o in c.retry.observations ==> o == RETRYABLE_OBSERVATION)
    && AllPortable(c.provider.allowed)
    && Distinct(c.provider.allowed) && 1 <= |c.provider.allowed| <= 16
    && (c.provider.selection == Fixed ==> |c.provider.allowed| == 1)
    && (c.provider.selection == FallbackAllowed ==> |c.provider.allowed| >= 2)
  }

  predicate HasKind(requirements: seq<Requirement>, kind: Kind) {
    exists r :: r in requirements && r.kind == kind
  }

  predicate ModeMatches(c: Criterion) {
    && (c.mode == HumanOnly <==> !HasKind(c.requirements, Deterministic))
    && (c.mode == DeterministicOnly <==> !HasKind(c.requirements, Human))
  }

  predicate CriterionFieldsValid(c: Criterion) {
    && Text.IsPortableRef(c.id) && TextValid(c.description, 8_192)
    && forall q :: q in c.requirements ==> ContentRefOk(q.ref)
  }

  predicate CriterionValid(c: Criterion) {
    && CriterionFieldsValid(c)
    && 1 <= |c.requirements| <= 16 && Distinct(Map(RequirementKey, c.requirements)) && ModeMatches(c)
  }

  predicate CriteriaValid(criteria: seq<Criterion>) {
    && 1 <= |criteria| <= 64
    && (forall x :: x in criteria ==> CriterionValid(x))
    && Distinct(Map(CriterionKey, criteria))
  }

  predicate BranchFieldsValid(b: Branch) {
    && Text.IsPortableRef(b.ref) && Text.IsPortableRef(b.assignee) && Text.IsPortableRef(b.provider)
    && ContentRefOk(b.taskIntent) && ContentRefOk(b.executionPlan) && ContentRefOk(b.contextPack)
    && AllPortable(b.dependencies)
  }

  predicate BranchValid(b: Branch) {
    && BranchFieldsValid(b)
    && Distinct(b.dependencies) && |b.dependencies| <= 64 && b.ref !in b.dependencies
    && !(b.role == Integration && b.parallelizable)
    && (b.isolation == IsolatedReadOnly ==> b.permission == ReadOnly)
    && (b.parallelizable && b.permission == WorkspaceWrite ==>
          b.isolation == Worktree || b.isolation == Sandbox || b.isolation == Remote)
  }

  predicate BranchesValid(branches: seq<Branch>) {
    && 1 <= |branches| <= 64
    && (forall b :: b in branches ==> BranchValid(b))
    && Distinct(Map(BranchKey, branches))
  }

  function BranchIds(b: Branch): seq<string> {
    [b.taskIntent.id, b.executionPlan.id, b.contextPack.id]
  }

  function CriterionIds(c: Criterion): seq<string> {
    Map(RequirementKey, c.requirements)
  }

  /** Every content reference of a plan: an id must identify exactly one object. */
  function ContentIds(c: Content): seq<string> {
    [c.taskIntent.id, c.executionPlan.id, c.contextPack.id]
    + Flat(BranchIds, c.branches) + Flat(CriterionIds, c.acceptance.criteria)
  }

  predicate Permitted(c: Content, b: Branch) {
    b.provider in c.provider.allowed && (c.permission == ReadOnly ==> b.permission == ReadOnly)
  }

  function RoleOf(b: Branch): Role { b.role }

  function WorkCount(branches: seq<Branch>): nat {
    multiset(Map(RoleOf, branches))[Work]
  }

  predicate StaffingValid(c: Content) {
    && (forall b :: b in c.branches ==> Permitted(c, b))
    && 1 <= WorkCount(c.branches)
    && (WorkCount(c.branches) > 1 ==> c.integration.Some?)
    && 1 <= c.maxConcurrency <= 64 && c.maxConcurrency <= WorkCount(c.branches)
  }

  ghost predicate Valid(c: Content) {
    && ScalarsValid(c)
    && ListsValid(c)
    && CriteriaValid(c.acceptance.criteria)
    && BranchesValid(c.branches)
    && Distinct(ContentIds(c))
    && GraphAcceptable(Map(CanonicalBranch, c.branches), c.integration)
    && StaffingValid(c)
  }

  // ---------------------------------------------------------------- normalization

  datatype Refusal =
    | ScalarOutOfRange | ListInvalid | CriteriaInvalid | BranchesInvalid | ContentRefConflict
    | GraphRefused(error: GraphError) | StaffingInvalid | HashMismatch

  /** `assertUniqueField` and its kin: one pass with the set of values seen. */
  method AllUnique(values: seq<string>) returns (unique: bool)
    ensures unique <==> Distinct(values)
  {
    var seen := {};
    for i := 0 to |values|
      invariant Distinct(values[..i]) && forall v :: v in seen <==> v in values[..i]
    {
      assert values[..i + 1] == values[..i] + [values[i]];
      if values[i] in seen {
        var k :| 0 <= k < i && values[..i][k] == values[i];
        assert values[k] == values[i];
        return false;
      }
      seen := seen + {values[i]};
    }
    assert values[..|values|] == values;
    unique := true;
  }

  /** What normalization returns, or refuses. */
  ghost predicate Accepts(input: Input) {
    && Valid(input.content)
    && (input.planHash.Some? ==> input.planHash.value == DigestOf(Canonical(input.content)))
    && (input.snapshotId.Some? ==> input.snapshotId.value == DigestOf(Canonical(input.content)))
  }

  function NormalForm(c: Content): Normalized {
    Normalized(Canonical(c), DigestOf(Canonical(c)), DigestOf(Canonical(c)))
  }

  lemma CanonicalKeepsRefs(branches: seq<Branch>)
    requires Distinct(Map(BranchKey, branches))
    ensures UniqueRefs(Map(CanonicalBranch, branches))
  {
    assert Refs(Map(CanonicalBranch, branches)) == Map(BranchKey, branches);
  }

  /** `normalizeBusinessWorkOrderPlanV1`, in the order of its checks. */
  method Normalize(input: Input) returns (r: Outcome<Normalized, Refusal>)
    ensures r.Ok? <==> Accepts(input)
    ensures r.Ok? ==> r.value == NormalForm(input.content)
  {
    var c := input.content;
    if !ScalarsValid(c) { return Err(ScalarOutOfRange); }
    if !ListsValid(c) { return Err(ListInvalid); }
    if !CriteriaValid(c.acceptance.criteria) { return Err(CriteriaInvalid); }
    var unique := AllUnique(Map(BranchKey, c.branches));
    if !unique || !(1 <= |c.branches| <= 64) { return Err(BranchesInvalid); }
    if exists b :: b in c.branches && !BranchValid(b) { return Err(BranchesInvalid); }
    unique := AllUnique(ContentIds(c));
    if !unique { return Err(ContentRefConflict); }
    CanonicalKeepsRefs(c.branches);
    var graph, _ := ValidateGraph(Map(CanonicalBranch, c.branches), c.integration);
    if graph.Err? { return Err(GraphRefused(graph.error)); }
    if !StaffingValid(c) { return Err(StaffingInvalid); }
    var normal := NormalForm(c);
    if input.planHash.Some? && input.planHash.value != normal.planHash { return Err(HashMismatch); }
    if input.snapshotId.Some? && input.snapshotId.value != normal.snapshotId { return Err(HashMismatch); }
    r := Ok(normal);
  }

  // ---------------------------------------------------------------- shapes

  datatype BranchShape = BranchShape(rest: Branch, dependencies: multiset<string>)
  datatype CriterionShape = CriterionShape(rest: Criterion, requirements: multiset<Requirement>)
  datatype Shape = Shape(
    rest: Content,
    branches: multiset<BranchShape>,
    criteria: multiset<CriterionShape>,
    providers: multiset<string>,
    observations: multiset<string>)

  function ShapeOfBranch(b: Branch): BranchShape {
    BranchShape(b.(dependencies := []), multiset(b.dependencies))
  }

  function ShapeOfCriterion(c: Criterion): CriterionShape {
    CriterionShape(c.(requirements := []), multiset(c.requirements))
  }

  /** A plan up to the order of its branches, dependencies, criteria, requirements, providers and observations. */
  function ShapeOf(c: Content): Shape {
    Shape(c.(branches := [], acceptance := c.acceptance.(criteria := []), provider := c.provider.(allowed := []),
             retry := c.retry.(observations := [])),
          multiset(Map(ShapeOfBranch, c.branches)),
          multiset(Map(ShapeOfCriterion, c.acceptance.criteria)),
          multiset(c.provider.allowed),
          multiset(c.retry.observations))
  }

  lemma Membership<T>(a: seq<T>, b: seq<T>, x: T)
    requires multiset(a) == multiset(b)
    ensures x in a <==> x in b
    ensures |a| == |b|
  {
    assert x in a <==> x in multiset(a);
    assert x in b <==> x in multiset(b);
    assert |a| == |multiset(a)| && |b| == |multiset(b)|;
  }

  lemma SameMembers<T(!new)>(a: seq<T>, b: seq<T>)
    requires multiset(a) == multiset(b)
    ensures forall x :: x in a <==> x in b
  {
    forall x
      ensures x in a <==> x in b
    {
      Membership(a, b, x);
    }
  }

  lemma SortTextForgetsOrder(a: seq<string>, b: seq<string>)
    requires multiset(a) == multiset(b)
    ensures Sort(a, TextKey) == Sort(b, TextKey)
  {
    SortForgetsOrder(a, b, TextKey);
  }

  lemma DistinctKeysApart<T(!new)>(s: seq<T>, key: T -> string)
    requires Distinct(Map(key, s))
    ensures KeyedApart(s, key)
  {
    forall x, y | x in s && y in s && key(x) == key(y)
      ensures x == y
    {
      var i :| 0 <= i < |s| && s[i] == x;
      var j :| 0 <= j < |s| && s[j] == y;
      assert Map(key, s)[i] == Map(key, s)[j];
    }
  }

  // ---- branches

  lemma BranchForgetsOrder(x: Branch, y: Branch)
    requires ShapeOfBranch(x) == ShapeOfBranch(y)
    ensures CanonicalBranch(x) == CanonicalBranch(y)
    ensures BranchValid(x) ==> BranchValid(y)
  {
    assert x.(dependencies := []) == y.(dependencies := []);
    assert x == x.(dependencies := []).(dependencies := x.dependencies);
    assert y == x.(dependencies := []).(dependencies := y.dependencies);
    SortTextForgetsOrder(x.dependencies, y.dependencies);
    Membership(x.dependencies, y.dependencies, x.ref);
    if BranchValid(x) {
      SameMembers(x.dependencies, y.dependencies);
      DistinctForgetsOrder(x.dependencies, y.dependencies);
    }
  }

  ghost predicate SameBranches(a: seq<Branch>, b: seq<Branch>) {
    multiset(Map(ShapeOfBranch, a)) == multiset(Map(ShapeOfBranch, b))
  }

  lemma RefsForgetOrder(a: seq<Branch>, b: seq<Branch>)
    requires SameBranches(a, b)
    ensures multiset(Map(BranchKey, a)) == multiset(Map(BranchKey, b))
    ensures WorkCount(a) == WorkCount(b)
  {
    forall x, y | ShapeOfBranch(x) == ShapeOfBranch(y)
      ensures BranchKey(x) == BranchKey(y) && RoleOf(x) == RoleOf(y)
    {
      assert x.(dependencies := []) == y.(dependencies := []);
      assert x.(dependencies := []).ref == y.(dependencies := []).ref;
      assert x.(dependencies := []).role == y.(dependencies := []).role;
    }
    MapRespects(a, b, ShapeOfBranch, BranchKey);
    MapRespects(a, b, ShapeOfBranch, RoleOf);
  }

  lemma BranchesStayValid(a: seq<Branch>, b: seq<Branch>)
    requires SameBranches(a, b) && BranchesValid(a)
    ensures BranchesValid(b)
  {
    SameLength(a, b, ShapeOfBranch);
    forall y | y in b
      ensures BranchValid(y)
    {
      var x := SameShapes(b, a, ShapeOfBranch, y);
      BranchForgetsOrder(x, y);
    }
    RefsForgetOrder(a, b);
    DistinctForgetsOrder(Map(BranchKey, a), Map(BranchKey, b));
  }

  lemma BranchesForgetOrder(a: seq<Branch>, b: seq<Branch>)
    requires SameBranches(a, b) && Distinct(Map(BranchKey, a))
    ensures multiset(Map(CanonicalBranch, a)) == multiset(Map(CanonicalBranch, b))
    ensures CanonicalBranches(a) == CanonicalBranches(b)
  {
    forall x, y | x in a && y in b && ShapeOfBranch(x) == ShapeOfBranch(y)
      ensures CanonicalBranch(x) == CanonicalBranch(y)
    {
      BranchForgetsOrder(x, y);
    }
    MapRespects(a, b, ShapeOfBranch, CanonicalBranch);
    assert Map(BranchKey, Map(CanonicalBranch, a)) == Map(BranchKey, a);
    DistinctKeysApart(Map(CanonicalBranch, a), BranchKey);
    SortForgetsOrder(Map(CanonicalBranch, a), Map(CanonicalBranch, b), BranchKey);
  }

  // ---- criteria

  function Itself(r: Requirement): Requirement { r }

  lemma RequirementIdsForgetOrder(a: seq<Requirement>, b: seq<Requirement>)
    requires multiset(a) == multiset(b)
    ensures multiset(Map(RequirementKey, a)) == multiset(Map(RequirementKey, b))
  {
    assert Map(Itself, a) == a && Map(Itself, b) == b;
    MapRespects(a, b, Itself, RequirementKey);
  }

  lemma CriterionForgetsOrder(x: Criterion, y: Criterion)
    requires ShapeOfCriterion(x) == ShapeOfCriterion(y) && CriterionValid(x)
    ensures CriterionValid(y) && CanonicalCriterion(x) == CanonicalCriterion(y)
  {
    assert x.(requirements := []) == y.(requirements := []);
    assert x == x.(requirements := []).(requirements := x.requirements);
    assert y == x.(requirements := []).(requirements := y.requirements);
    RequirementIdsForgetOrder(x.requirements, y.requirements);
    DistinctForgetsOrder(Map(RequirementKey, x.requirements), Map(RequirementKey, y.requirements));
    DistinctKeysApart(x.requirements, RequirementKey);
    SortForgetsOrder(x.requirements, y.requirements, RequirementKey);
    forall r
      ensures r in x.requirements <==> r in y.requirements
      ensures |x.requirements| == |y.requirements|
    {
      Membership(x.requirements, y.requirements, r);
    }
  }

  ghost predicate SameCriteria(a: seq<Criterion>, b: seq<Criterion>) {
    multiset(Map(ShapeOfCriterion, a)) == multiset(Map(ShapeOfCriterion, b))
  }

  lemma CriterionIdsForgetOrder(a: seq<Criterion>, b: seq<Criterion>)
    requires SameCriteria(a, b)
    ensures multiset(Map(CriterionKey, a)) == multiset(Map(CriterionKey, b))
  {
    forall x, y | ShapeOfCriterion(x) == ShapeOfCriterion(y)
      ensures CriterionKey(x) == CriterionKey(y)
    {
      assert x.(requirements := []).id == y.(requirements := []).id;
    }
    MapRespects(a, b, ShapeOfCriterion, CriterionKey);
  }

  lemma CriteriaForgetOrder(a: seq<Criterion>, b: seq<Criterion>)
    requires SameCriteria(a, b) && CriteriaValid(a)
    ensures CriteriaValid(b) && CanonicalCriteria(a) == CanonicalCriteria(b)
  {
    SameLength(a, b, ShapeOfCriterion);
    forall y | y in b
      ensures CriterionValid(y)
    {
      var x := SameShapes(b, a, ShapeOfCriterion, y);
      CriterionForgetsOrder(x, y);
    }
    CriterionIdsForgetOrder(a, b);
    DistinctForgetsOrder(Map(CriterionKey, a), Map(CriterionKey, b));
    forall x, y | x in a && y in b && ShapeOfCriterion(x) == ShapeOfCriterion(y)
      ensures CanonicalCriterion(x) == CanonicalCriterion(y)
    {
      CriterionForgetsOrder(x, y);
    }
    MapRespects(a, b, ShapeOfCriterion, CanonicalCriterion);
    assert Map(CriterionKey, Map(CanonicalCriterion, a)) == Map(CriterionKey, a);
    DistinctKeysApart(Map(CanonicalCriterion, a), CriterionKey);
    SortForgetsOrder(Map(CanonicalCriterion, a), Map(CanonicalCriterion, b), CriterionKey);
  }

  // ---- the graph and the content references

  lemma NodeForgetsOrder(a: seq<Branch>, b: seq<Branch>, x: string)
    requires multiset(a) == multiset(b) && UniqueRefs(a) && UniqueRefs(b) && x in GraphOf(a)
    ensures x in GraphOf(b) && GraphOf(a)[x] == GraphOf(b)[x]
  {
    var i := BranchAt(a, x);
    Membership(a, b, a[i]);
    var j :| 0 <= j < |b| && b[j] == a[i];
    GraphAt(b, j);
  }

  lemma GraphForgetsOrder(a: seq<Branch>, b: seq<Branch>)
    requires multiset(a) == multiset(b) && UniqueRefs(a) && UniqueRefs(b)
    ensures GraphOf(a) == GraphOf(b)
  {
    forall x | x in GraphOf(a)
      ensures x in GraphOf(b) && GraphOf(a)[x] == GraphOf(b)[x]
    {
      NodeForgetsOrder(a, b, x);
    }
    forall x | x in GraphOf(b)
      ensures x in GraphOf(a)
    {
      NodeForgetsOrder(b, a, x);
    }
  }

  lemma AcceptableForgetsOrder(a: seq<Branch>, b: seq<Branch>, integration: Option<string>)
    requires multiset(a) == multiset(b) && UniqueRefs(a) && UniqueRefs(b) && GraphAcceptable(a, integration)
    ensures GraphAcceptable(b, integration)
  {
    GraphForgetsOrder(a, b);
    forall x
      ensures x in a <==> x in b
    {
      Membership(a, b, x);
    }
    assert forall j :: 0 <= j < |b| ==> b[j] in b;
    if integration.Some? {
      var i :| 0 <= i < |a| && a[i].ref == integration.value;
      assert a[i] in b;
    }
  }

  lemma ContentIdsForgetOrder(c: Content, d: Content)
    requires ShapeOf(c) == ShapeOf(d)
    ensures multiset(ContentIds(c)) == multiset(ContentIds(d))
  {
    forall x, y | ShapeOfBranch(x) == ShapeOfBranch(y)
      ensures multiset(BranchIds(x)) == multiset(BranchIds(y))
    {
      var p, q := x.(dependencies := []), y.(dependencies := []);
      assert p == q && BranchIds(x) == BranchIds(p) && BranchIds(y) == BranchIds(q);
    }
    FlatRespects(c.branches, d.branches, ShapeOfBranch, BranchIds);
    forall x, y | ShapeOfCriterion(x) == ShapeOfCriterion(y)
      ensures multiset(CriterionIds(x)) == multiset(CriterionIds(y))
    {
      RequirementIdsForgetOrder(x.requirements, y.requirements);
    }
    FlatRespects(c.acceptance.criteria, d.acceptance.criteria, ShapeOfCriterion, CriterionIds);
    SameRest(c, d);
  }

  /** Plans of one shape agree on everything that is not a list. */
  lemma SameRest(c: Content, d: Content)
    requires ShapeOf(c) == ShapeOf(d)
    ensures d == c.(branches := d.branches, acceptance := c.acceptance.(criteria := d.acceptance.criteria),
                    provider := c.provider.(allowed := d.provider.allowed),
                    retry := c.retry.(observations := d.retry.observations))
  {
    var p, q := ShapeOf(c).rest, ShapeOf(d).rest;
    assert p.acceptance == q.acceptance && p.provider == q.provider && p.retry == q.retry;
    assert p.project == q.project && p.lease == q.lease;
  }

  lemma StaffingForgetsOrder(c: Content, d: Content)
    requires ShapeOf(c) == ShapeOf(d) && StaffingValid(c)
    ensures StaffingValid(d)
  {
    SameRest(c, d);
    RefsForgetOrder(c.branches, d.branches);
    forall y | y in d.branches
      ensures Permitted(d, y)
    {
      var x := SameShapes(d.branches, c.branches, ShapeOfBranch, y);
      assert x.(dependencies := []) == y.(dependencies := []);
      assert x.(dependencies := []).provider == y.(dependencies := []).provider;
      assert x.(dependencies := []).permission == y.(dependencies := []).permission;
      Membership(c.provider.allowed, d.provider.allowed, x.provider);
    }
  }

  lemma ListsForgetOrder(c: Content, d: Content)
    requires ShapeOf(c) == ShapeOf(d) && ListsValid(c)
    ensures ListsValid(d)
  {
    SameRest(c, d);
    DistinctForgetsOrder(c.retry.observations, d.retry.observations);
    DistinctForgetsOrder(c.provider.allowed, d.provider.allowed);
    Membership(c.provider.allowed, d.provider.allowed, "");
    SameMembers(c.provider.allowed, d.provider.allowed);
    SameMembers(c.retry.observations, d.retry.observations);
  }

  // ---------------------------------------------------------------- the theorems

  lemma ValidForgetsOrder(c: Content, d: Content)
    requires ShapeOf(c) == ShapeOf(d) && Valid(c)
    ensures Valid(d)
  {
    SameRest(c, d);
    ListsForgetOrder(c, d);
    CriteriaForgetOrder(c.acceptance.criteria, d.acceptance.criteria);
    BranchesStayValid(c.branches, d.branches);
    BranchesForgetOrder(c.branches, d.branches);
    ContentIdsForgetOrder(c, d);
    DistinctForgetsOrder(ContentIds(c), ContentIds(d));
    CanonicalKeepsRefs(c.branches);
    CanonicalKeepsRefs(d.branches);
    AcceptableForgetsOrder(Map(CanonicalBranch, c.branches), Map(CanonicalBranch, d.branches), c.integration);
    StaffingForgetsOrder(c, d);
  }

  /** Plans that differ only in order are accepted alike and get the same content, hash and snapshot id. */
  lemma OrderDoesNotMatter(c: Content, d: Content)
    requires ShapeOf(c) == ShapeOf(d)
    ensures Valid(c) <==> Valid(d)
    ensures Valid(c) ==> NormalForm(c) == NormalForm(d)
  {
    if Valid(c) {
      ValidForgetsOrder(c, d);
      SameRest(c, d);
      CriteriaForgetOrder(c.acceptance.criteria, d.acceptance.criteria);
      BranchesForgetOrder(c.branches, d.branches);
      SortTextForgetsOrder(c.provider.allowed, d.provider.allowed);
      SortTextForgetsOrder(c.retry.observations, d.retry.observations);
    } else if Valid(d) {
      ValidForgetsOrder(d, c);
    }
  }

  lemma BranchesKeepShape(branches: seq<Branch>)
    ensures SameBranches(branches, CanonicalBranches(branches))
  {
    var normal := Map(CanonicalBranch, branches);
    forall i | 0 <= i < |branches|
      ensures ShapeOfBranch(normal[i]) == ShapeOfBranch(branches[i])
    {
      SortSorts(branches[i].dependencies, TextKey);
    }
    assert Map(ShapeOfBranch, normal) == Map(ShapeOfBranch, branches);
    SortSorts(normal, BranchKey);
    var sorted := Sort(normal, BranchKey);
    var same := (b: Branch) => b;
    assert Map(same, sorted) == sorted && Map(same, normal) == normal;
    MapRespects(sorted, normal, same, ShapeOfBranch);
  }

  lemma CriteriaKeepShape(criteria: seq<Criterion>)
    ensures SameCriteria(criteria, CanonicalCriteria(criteria))
  {
    var normal := Map(CanonicalCriterion, criteria);
    forall i | 0 <= i < |criteria|
      ensures ShapeOfCriterion(normal[i]) == ShapeOfCriterion(criteria[i])
    {
      SortSorts(criteria[i].requirements, RequirementKey);
    }
    assert Map(ShapeOfCriterion, normal) == Map(ShapeOfCriterion, criteria);
    SortSorts(normal, CriterionKey);
    var sorted := Sort(normal, CriterionKey);
    var same := (c: Criterion) => c;
    assert Map(same, sorted) == sorted && Map(same, normal) == normal;
    MapRespects(sorted, normal, same, ShapeOfCriterion);
  }

  /** Normalization loses nothing but order. */
  lemma CanonicalKeepsShape(c: Content)
    ensures ShapeOf(Canonical(c)) == ShapeOf(c)
  {
    BranchesKeepShape(c.branches);
    CriteriaKeepShape(c.acceptance.criteria);
    SortSorts(c.provider.allowed, TextKey);
    SortSorts(c.retry.observations, TextKey);
  }

  /** Two accepted plans get the same hash exactly when they are the same plan up to order. */
  lemma SameHashExactlyWhenSamePlan(c: Content, d: Content)
    requires Valid(c) && Valid(d)
    ensures NormalForm(c).planHash == NormalForm(d).planHash <==> ShapeOf(c) == ShapeOf(d)
  {
    CanonicalKeepsShape(c);
    CanonicalKeepsShape(d);
    if ShapeOf(c) == ShapeOf(d) {
      OrderDoesNotMatter(c, d);
    }
  }

  /** A normalized plan is accepted with its own hash and id, and normalizes to itself. */
  lemma NormalizationIsIdempotent(input: Input)
    requires Accepts(input)
    ensures var n := NormalForm(input.content);
            var again := Input(n.content, Some(n.planHash), Some(n.snapshotId));
            Accepts(again) && NormalForm(again.content) == n
  {
    CanonicalKeepsShape(input.content);
    OrderDoesNotMatter(input.content, Canonical(input.content));
  }
}

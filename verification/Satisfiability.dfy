/**
 Which plans can ever be accepted: exactly the valid ones with at most 128 requirements. For those a snapshot is
 built that the evaluator accepts; and there are valid plans with more.
 */
module Satisfiability {
  import opened Basics
  import opened Digraph
  import opened Ordering
  import opened Plan
  import opened PlanCanonical
  import opened PlanGraph
  import opened Acceptance
  import opened AcceptanceLaws
  import Text

  // ---------------------------------------------------------------- fresh references

  function Letter(k: nat): char
    requires k < 16
  {
    ('a' as int + k) as char
  }

  /** Two letters that tell 256 numbers apart. */
  function Code(k: nat): (r: string)
    requires k < 256
    ensures |r| == 2
  {
    [Letter(k / 16), Letter(k % 16)]
  }

  lemma CodesDiffer(j: nat, k: nat)
    requires j < 256 && k < 256
    ensures Code(j) == Code(k) <==> j == k
  {
    if Code(j) == Code(k) {
      assert Code(j)[0] == Code(k)[0] && Code(j)[1] == Code(k)[1];
      assert j == 16 * (j / 16) + j % 16 && k == 16 * (k / 16) + k % 16;
    }
  }

  /** The `k`th name under a prefix. */
  function Name(prefix: nat, k: nat): (r: string)
    requires prefix < 256 && k < 256
    ensures Text.IsPortableRef(r) && Code(prefix) <= r
  {
    Code(prefix) + Code(k)
  }

  lemma NamesDiffer(prefix: nat, j: nat, k: nat)
    requires prefix < 256 && j < 256 && k < 256
    ensures Name(prefix, j) == Name(prefix, k) <==> j == k
  {
    CodesDiffer(j, k);
    assert Name(prefix, j)[2..] == Code(j) && Name(prefix, k)[2..] == Code(k);
  }

  lemma PrefixesDiffer(j: nat, k: nat, x: string)
    requires j < 256 && k < 256 && j != k && Code(k) <= x
    ensures !(Code(j) <= x)
  {
    CodesDiffer(j, k);
    assert x[..2] == Code(k);
  }

  /** Fewer names than prefixes leave a prefix under which there is none. */
  lemma {:induction false} FreePrefix(names: seq<string>, n: nat) returns (free: nat)
    requires |names| < n <= 256
    ensures free < n && forall x :: x in names ==> !(Code(free) <= x)
    decreases n
  {
    var last := n - 1;
    if forall x :: x in names ==> !(Code(last) <= x) {
      free := last;
    } else {
      var i :| 0 <= i < |names| && Code(last) <= names[i];
      var others := names[..i] + names[i + 1..];
      free := FreePrefix(others, last);
      forall x | x in names
        ensures !(Code(free) <= x)
      {
        var k :| 0 <= k < |names| && names[k] == x;
        if k == i {
          PrefixesDiffer(free, last, x);
        } else {
          var m := if k < i then k else k - 1;
          assert others[m] == x && x in others;
        }
      }
    }
  }

  // ---------------------------------------------------------------- a snapshot that is accepted

  function Zeros(n: nat): (r: string)
    ensures |r| == n && Text.IsHex(r)
  {
    seq(n, _ => '0')
  }

  const ZERO_HASH := Zeros(64)
  const WORK_ORDER := "WO-" + Zeros(32)
  const EVIDENCE: seq<string> := ["evidence"]

  function ResultFor(b: Branch): BranchResult {
    BranchResult(b.ref, BranchAccepted, [ContentRef("artifact", ZERO_HASH)], EVIDENCE)
  }

  function CriterionResultFor(c: Criterion): CriterionResult {
    CriterionResult(c.id, true, CriterionIds(c))
  }

  function ReviewBy(branch: string, reviewer: string): Review {
    Review(branch, reviewer, reviewer, true, 0, 0, 0, EVIDENCE)
  }

  function ReviewsFor(plan: Normalized, prefix: nat): seq<Review>
    requires prefix < 256
  {
    [ReviewBy(AcceptanceBranch(plan.content), Name(prefix, 0)),
     ReviewBy(AcceptanceBranch(plan.content), Name(prefix, 1))]
  }

  function CheckFor(branch: string, verifier: string, o: Obligation): Check {
    Check(branch, o.criterion, verifier, o.requirement, true, [o.requirement.ref.id])
  }

  /** One check per obligation, each with its own verifier, citing the reference it answers. */
  function ChecksFor(plan: Normalized, prefix: nat): (r: seq<Check>)
    requires prefix < 256 && |Obligations(plan.content)| <= 128
    ensures |r| == |Obligations(plan.content)|
    ensures forall i :: 0 <= i < |r| ==>
              r[i] == CheckFor(AcceptanceBranch(plan.content), Name(prefix, i), Obligations(plan.content)[i])
  {
    seq(|Obligations(plan.content)|, i requires 0 <= i < |Obligations(plan.content)| =>
      CheckFor(AcceptanceBranch(plan.content), Name(prefix, i), Obligations(plan.content)[i]))
  }

  function SnapshotFor(plan: Normalized, prefix: nat): Snapshot
    requires prefix < 256 && |Obligations(plan.content)| <= 128
  {
    Snapshot(WORK_ORDER, plan.content.project, plan.snapshotId, plan.planHash, plan.content.revision, 1,
             Map(ResultFor, plan.content.branches), Map(CriterionResultFor, plan.content.acceptance.criteria),
             ReviewsFor(plan, prefix), [], [], [], ChecksFor(plan, prefix))
  }

  lemma OneReferenceIsEvidence(r: string)
    requires Text.IsPortableRef(r)
    ensures EvidenceOk([r])
  {
  }

  lemma BranchResultsAreGood(plan: Normalized)
    requires BranchesValid(plan.content.branches)
    ensures BranchesOk(plan, Map(ResultFor, plan.content.branches))
  {
    var branches := plan.content.branches;
    var results := Map(ResultFor, branches);
    assert Map(ResultRef, results) == Map(BranchKey, branches);
    forall r | r in results
      ensures BranchResultOk(plan, r)
    {
      var i :| 0 <= i < |branches| && results[i] == r;
      assert branches[i] in branches && BranchValid(branches[i]);
      OneReferenceIsEvidence("evidence");
      assert Map(RefId, r.artifacts) == ["artifact"];
    }
  }

  lemma CriterionResultsAreGood(plan: Normalized)
    requires CriteriaValid(plan.content.acceptance.criteria)
    ensures CriteriaOk(plan, Map(CriterionResultFor, plan.content.acceptance.criteria))
  {
    var criteria := plan.content.acceptance.criteria;
    var results := Map(CriterionResultFor, criteria);
    assert Map(ResultId, results) == Map(CriterionKey, criteria);
    forall r | r in results
      ensures CriterionResultOk(r)
    {
      var i :| 0 <= i < |criteria| && results[i] == r;
      assert CriterionValid(criteria[i]);
      forall e | e in r.evidence
        ensures Text.IsPortableRef(e)
      {
        var k :| 0 <= k < |r.evidence| && r.evidence[k] == e;
        assert criteria[i].requirements[k] in criteria[i].requirements;
      }
    }
  }

  lemma {:induction false} FirstWorkIsABranch(branches: seq<Branch>)
    requires exists b :: b in branches && b.role == Work
    ensures exists b :: b in branches && b.ref == FirstWork(branches)
  {
    if branches[0].role == Work {
      assert branches[0] in branches;
    } else {
      assert branches == [branches[0]] + branches[1..];
      FirstWorkIsABranch(branches[1..]);
      var b :| b in branches[1..] && b.ref == FirstWork(branches[1..]);
      assert b in branches;
    }
  }

  lemma SomeBranchWorks(branches: seq<Branch>)
    requires 1 <= WorkCount(branches)
    ensures exists b :: b in branches && b.role == Work
  {
    var roles := Map(RoleOf, branches);
    assert Work in multiset(roles);
    var i :| 0 <= i < |roles| && roles[i] == Work;
    assert branches[i] in branches && branches[i].role == Work;
  }

  lemma IntegrationIsABranch(branches: seq<Branch>, ref: string)
    requires NamesTheIntegration(Map(CanonicalBranch, branches), Some(ref))
    ensures exists b :: b in branches && b.ref == ref
  {
    var normal := Map(CanonicalBranch, branches);
    var i :| 0 <= i < |normal| && normal[i].ref == ref;
    assert branches[i] in branches && branches[i].ref == ref;
  }

  lemma AcceptanceBranchIsPortable(c: Content)
    requires Valid(c)
    ensures Text.IsPortableRef(AcceptanceBranch(c))
  {
    if c.integration.Some? {
      IntegrationIsABranch(c.branches, c.integration.value);
    } else {
      SomeBranchWorks(c.branches);
      FirstWorkIsABranch(c.branches);
    }
    var b :| b in c.branches && b.ref == AcceptanceBranch(c);
    assert BranchValid(b);
  }

  /** No assignee has a name under the prefix. */
  ghost predicate Unassigned(plan: Normalized, prefix: nat) {
    prefix < 256 && forall x :: x in Map(AssigneeOf, plan.content.branches) ==> !(Code(prefix) <= x)
  }

  lemma NameIsUnassigned(plan: Normalized, prefix: nat, k: nat)
    requires Unassigned(plan, prefix) && k < 256
    ensures !IsAssignee(plan, Name(prefix, k))
  {
  }

  lemma ReviewIsGood(plan: Normalized, prefix: nat, k: nat)
    requires Text.IsPortableRef(AcceptanceBranch(plan.content)) && Unassigned(plan, prefix) && k < 256
    ensures ReviewOk(plan, ReviewBy(AcceptanceBranch(plan.content), Name(prefix, k)))
  {
    NameIsUnassigned(plan, prefix, k);
    OneReferenceIsEvidence("evidence");
  }

  lemma ReviewsAreGood(plan: Normalized, prefix: nat)
    requires Text.IsPortableRef(AcceptanceBranch(plan.content)) && Unassigned(plan, prefix)
    ensures ReviewsOk(plan, ReviewsFor(plan, prefix))
  {
    var reviews := ReviewsFor(plan, prefix);
    ReviewIsGood(plan, prefix, 0);
    ReviewIsGood(plan, prefix, 1);
    NamesDiffer(prefix, 0, 1);
    assert Map(ReviewId, reviews) == [Name(prefix, 0), Name(prefix, 1)];
    assert Map(ReviewerOf, reviews) == [Name(prefix, 0), Name(prefix, 1)];
  }

  // ---- the checks

  lemma {:induction false} EvidenceIsTheIds(checks: seq<Check>)
    requires forall i :: 0 <= i < |checks| ==> checks[i].evidence == [CheckId(checks[i])]
    ensures Flat(CheckEvidence, checks) == Map(CheckId, checks)
  {
    if checks != [] {
      EvidenceIsTheIds(checks[1..]);
      assert Map(CheckId, checks) == [CheckId(checks[0])] + Map(CheckId, checks[1..]);
    }
  }

  lemma RequirementIdsAreDistinct(c: Content)
    requires Valid(c)
    ensures Distinct(Flat(CriterionIds, c.acceptance.criteria))
  {
    var roots := [c.taskIntent.id, c.executionPlan.id, c.contextPack.id] + Flat(BranchIds, c.branches);
    DistinctJoin(roots, Flat(CriterionIds, c.acceptance.criteria));
  }

  lemma ChecksDoNotShare(plan: Normalized, prefix: nat)
    requires Valid(plan.content) && prefix < 256 && |Obligations(plan.content)| <= 128
    ensures Distinct(Map(VerifierOf, ChecksFor(plan, prefix))) && Distinct(Map(CheckId, ChecksFor(plan, prefix)))
    ensures Distinct(Flat(CheckEvidence, ChecksFor(plan, prefix)))
  {
    var c, checks := plan.content, ChecksFor(plan, prefix);
    forall i, j | 0 <= i < j < |checks|
      ensures Map(VerifierOf, checks)[i] != Map(VerifierOf, checks)[j]
    {
      NamesDiffer(prefix, i, j);
    }
    ObligationIds(c.acceptance.criteria);
    RequirementIdsAreDistinct(c);
    assert Map(CheckId, checks) == Flat(CriterionIds, c.acceptance.criteria);
    EvidenceIsTheIds(checks);
  }

  lemma ObligationsAreWellFormed(plan: Normalized, o: Obligation)
    requires CriteriaValid(plan.content.acceptance.criteria) && o in Obligations(plan.content)
    ensures Text.IsPortableRef(o.criterion) && ContentRefOk(o.requirement.ref)
    ensures PlanAsksFor(plan, o.criterion, o.requirement)
  {
    ObligationsAreAsked(plan, o);
    var c :| c in plan.content.acceptance.criteria && c.id == o.criterion && o.requirement in c.requirements;
    assert CriterionValid(c);
  }

  lemma CheckIsGood(plan: Normalized, prefix: nat, k: nat, o: Obligation)
    requires Text.IsPortableRef(AcceptanceBranch(plan.content)) && Unassigned(plan, prefix) && k < 256
    requires CriteriaValid(plan.content.acceptance.criteria) && o in Obligations(plan.content)
    ensures CheckOk(plan, CheckFor(AcceptanceBranch(plan.content), Name(prefix, k), o))
  {
    ObligationsAreWellFormed(plan, o);
    NameIsUnassigned(plan, prefix, k);
    OneReferenceIsEvidence(o.requirement.ref.id);
  }

  lemma EveryObligationIsChecked(plan: Normalized, prefix: nat)
    requires prefix < 256 && |Obligations(plan.content)| <= 128
    ensures EveryRequirementMet(plan, ChecksFor(plan, prefix))
  {
    var obligations := Obligations(plan.content);
    var checks := ChecksFor(plan, prefix);
    forall c, q | c in plan.content.acceptance.criteria && q in c.requirements
      ensures Meets(checks, c.id, q)
    {
      ObligationsAreAsked(plan, Obligation(c.id, q));
      var i :| 0 <= i < |obligations| && obligations[i] == Obligation(c.id, q);
      assert checks[i] in checks;
    }
  }

  /** Criterion ids are unique, so an obligation under a criterion's id is one of its requirements. */
  lemma ObligationIsOfCriterion(plan: Normalized, o: Obligation, c: Criterion)
    requires CriteriaValid(plan.content.acceptance.criteria) && o in Obligations(plan.content)
    requires c in plan.content.acceptance.criteria && c.id == o.criterion
    ensures o.requirement in c.requirements
  {
    var criteria := plan.content.acceptance.criteria;
    ObligationsAreAsked(plan, o);
    var d :| d in criteria && d.id == o.criterion && o.requirement in d.requirements;
    DistinctKeysApart(criteria, CriterionKey);
    assert CriterionKey(c) == CriterionKey(d);
  }

  lemma CitedByItsChecks(plan: Normalized, prefix: nat, c: Criterion, k: nat)
    requires prefix < 256 && |Obligations(plan.content)| <= 128
    requires c in plan.content.acceptance.criteria && k < |c.requirements|
    ensures CitedFor(ChecksFor(plan, prefix), c.id, c.requirements[k].ref.id)
  {
    var obligations, checks := Obligations(plan.content), ChecksFor(plan, prefix);
    ObligationsAreAsked(plan, Obligation(c.id, c.requirements[k]));
    var i :| 0 <= i < |obligations| && obligations[i] == Obligation(c.id, c.requirements[k]);
    assert checks[i] in checks && checks[i].evidence[0] == c.requirements[k].ref.id;
  }

  lemma CitedMeansRequired(plan: Normalized, prefix: nat, c: Criterion, e: string)
    requires CriteriaValid(plan.content.acceptance.criteria) && prefix < 256 && |Obligations(plan.content)| <= 128
    requires c in plan.content.acceptance.criteria && CitedFor(ChecksFor(plan, prefix), c.id, e)
    ensures e in CriterionIds(c)
  {
    var checks := ChecksFor(plan, prefix);
    var ch :| ch in checks && ch.criterion == c.id && e in ch.evidence;
    var i :| 0 <= i < |checks| && checks[i] == ch;
    ObligationIsOfCriterion(plan, Obligations(plan.content)[i], c);
    var k :| 0 <= k < |c.requirements| && c.requirements[k] == ch.requirement;
    assert CriterionIds(c)[k] == e;
  }

  lemma EvidenceIsBound(plan: Normalized, prefix: nat, c: Criterion)
    requires CriteriaValid(plan.content.acceptance.criteria) && prefix < 256 && |Obligations(plan.content)| <= 128
    requires c in plan.content.acceptance.criteria
    ensures EvidenceBound(ChecksFor(plan, prefix), CriterionResultFor(c))
  {
    forall e
      ensures e in CriterionIds(c) <==> CitedFor(ChecksFor(plan, prefix), c.id, e)
    {
      if e in CriterionIds(c) {
        var k :| 0 <= k < |c.requirements| && CriterionIds(c)[k] == e;
        CitedByItsChecks(plan, prefix, c, k);
      }
      if CitedFor(ChecksFor(plan, prefix), c.id, e) {
        CitedMeansRequired(plan, prefix, c, e);
      }
    }
  }

  lemma ChecksAreGood(plan: Normalized, prefix: nat)
    requires Valid(plan.content) && Unassigned(plan, prefix) && |Obligations(plan.content)| <= 128
    ensures ChecksOk(plan, ChecksFor(plan, prefix))
  {
    var checks := ChecksFor(plan, prefix);
    AcceptanceBranchIsPortable(plan.content);
    forall ch | ch in checks
      ensures CheckOk(plan, ch)
    {
      var i :| 0 <= i < |checks| && checks[i] == ch;
      CheckIsGood(plan, prefix, i, Obligations(plan.content)[i]);
    }
    ChecksDoNotShare(plan, prefix);
    EveryObligationIsChecked(plan, prefix);
  }

  lemma EvidenceIsAllBound(plan: Normalized, prefix: nat, r: CriterionResult)
    requires CriteriaValid(plan.content.acceptance.criteria) && prefix < 256 && |Obligations(plan.content)| <= 128
    requires r in Map(CriterionResultFor, plan.content.acceptance.criteria)
    ensures EvidenceBound(ChecksFor(plan, prefix), r)
  {
    var criteria := plan.content.acceptance.criteria;
    var i :| 0 <= i < |criteria| && Map(CriterionResultFor, criteria)[i] == r;
    EvidenceIsBound(plan, prefix, criteria[i]);
  }

  lemma IdentityIsGood(plan: Normalized, prefix: nat)
    requires ScalarsValid(plan.content) && prefix < 256 && |Obligations(plan.content)| <= 128
    ensures IdentityOk(plan, SnapshotFor(plan, prefix))
  {
    assert WORK_ORDER[3..] == Zeros(32) && WORK_ORDER[..3] == "WO-";
  }

  lemma SnapshotIsGood(plan: Normalized, prefix: nat)
    requires Valid(plan.content) && Unassigned(plan, prefix) && |Obligations(plan.content)| <= 128
    ensures SnapshotOk(plan, SnapshotFor(plan, prefix))
  {
    var s := SnapshotFor(plan, prefix);
    IdentityIsGood(plan, prefix);
    BranchResultsAreGood(plan);
    CriterionResultsAreGood(plan);
    AcceptanceBranchIsPortable(plan.content);
    ReviewsAreGood(plan, prefix);
    ChecksAreGood(plan, prefix);
    forall r | r in s.criteria
      ensures EvidenceBound(s.checks, r)
    {
      EvidenceIsAllBound(plan, prefix, r);
    }
  }

  /** A plan that normalization accepts can be fulfilled exactly when it has at most 128 requirements. */
  lemma FulfillableExactlyWhenFew(input: Input)
    requires Accepts(input)
    ensures (exists s :: Acceptable(input, s)) <==> |Obligations(input.content)| <= 128
  {
    var plan := NormalForm(input.content);
    NormalPlanIsValid(input.content);
    CanonicalKeepsShape(input.content);
    ObligationCountForgetsOrder(input.content, plan.content);
    if |Obligations(input.content)| <= 128 {
      var prefix := FreePrefix(Map(AssigneeOf, plan.content.branches), 65);
      SnapshotIsGood(plan, prefix);
      assert Acceptable(input, SnapshotFor(plan, prefix));
    } else if exists s :: Acceptable(input, s) {
      var s :| Acceptable(input, s);
      TooManyRequirementsNeverAccepted(input, s);
    }
  }

  // ---------------------------------------------------------------- valid plans that cannot be fulfilled

  function ReferenceTo(id: string): ContentRef {
    ContentRef(id, ZERO_HASH)
  }

  lemma OneLetterIsAText()
    ensures TextValid("t", 1_024) && TextValid("t", 8_192)
  {
    assert "t"[0] == 't' && 't' in "t";
    assert Text.Utf8Length("t") == 1 + Text.Utf8Length("");
  }

  function RequirementId(i: nat, j: nat): string
    requires i < 64 && j < 16
  {
    "r" + Code(i) + Code(j)
  }

  function WideRequirements(i: nat): (r: seq<Requirement>)
    requires i < 64
    ensures |r| == 16
    ensures forall j :: 0 <= j < 16 ==> r[j] == Requirement(Deterministic, ReferenceTo(RequirementId(i, j)))
  {
    seq(16, j requires 0 <= j < 16 => Requirement(Deterministic, ReferenceTo(RequirementId(i, j))))
  }

  function WideCriterion(i: nat): Criterion
    requires i < 64
  {
    Criterion(Code(i), "t", DeterministicOnly, WideRequirements(i))
  }

  /** `n` criteria, each with as many requirements as one may have. */
  function WideCriteria(n: nat): (r: seq<Criterion>)
    requires n <= 64
    ensures |r| == n && forall i :: 0 <= i < n ==> r[i] == WideCriterion(i)
  {
    seq(n, i requires 0 <= i < n => WideCriterion(i))
  }

  const ONLY_BRANCH := Branch(
    "b", ReferenceTo(Code(3)), ReferenceTo(Code(4)), ReferenceTo(Code(5)), [], Work, false, IsolatedReadOnly,
    "agent", "provider", ReadOnly)

  function WidePlan(n: nat): Content
    requires n <= 64
  {
    Content("project", 1, None, "t", "t", AcceptancePolicy(WideCriteria(n), Light),
            ReferenceTo(Code(0)), ReferenceTo(Code(1)), ReferenceTo(Code(2)), [ONLY_BRANCH], None, 1, 0,
            RetryPolicy(1, 1_000, 1_000, 0, 0, []), LeasePolicy(5_000, 1_000, 1),
            ProviderPolicy(["provider"], Fixed), ReadOnly)
  }

  lemma {:induction false} FlatLayout(criteria: seq<Criterion>, k: nat)
    requires (forall i :: 0 <= i < |criteria| ==> |criteria[i].requirements| == 16) && k < 16 * |criteria|
    ensures |Flat(CriterionIds, criteria)| == 16 * |criteria|
    ensures Flat(CriterionIds, criteria)[k] == criteria[k / 16].requirements[k % 16].ref.id
  {
    var head, rest := CriterionIds(criteria[0]), Flat(CriterionIds, criteria[1..]);
    assert Flat(CriterionIds, criteria) == head + rest;
    if |criteria| > 1 {
      FlatLayout(criteria[1..], if k < 16 then 0 else k - 16);
    }
    if k < 16 {
      assert k / 16 == 0 && k % 16 == k;
    } else {
      assert (k - 16) / 16 == k / 16 - 1 && (k - 16) % 16 == k % 16;
      assert criteria[1..][k / 16 - 1] == criteria[k / 16];
    }
  }

  lemma RequirementIdsDiffer(k: nat, l: nat)
    requires k < 1024 && l < 1024
    ensures RequirementId(k / 16, k % 16) == RequirementId(l / 16, l % 16) <==> k == l
  {
    var a, b := RequirementId(k / 16, k % 16), RequirementId(l / 16, l % 16);
    assert a[1..3] == Code(k / 16) && b[1..3] == Code(l / 16);
    assert a[3..] == Code(k % 16) && b[3..] == Code(l % 16);
    CodesDiffer(k / 16, l / 16);
    CodesDiffer(k % 16, l % 16);
    assert k == 16 * (k / 16) + k % 16 && l == 16 * (l / 16) + l % 16;
  }

  lemma WideIds(n: nat)
    requires 1 <= n <= 64
    ensures |Flat(CriterionIds, WideCriteria(n))| == 16 * n && Distinct(Flat(CriterionIds, WideCriteria(n)))
    ensures forall x :: x in Flat(CriterionIds, WideCriteria(n)) ==> |x| == 5 && x[0] == 'r'
  {
    var ids := Flat(CriterionIds, WideCriteria(n));
    FlatLayout(WideCriteria(n), 0);
    forall k | 0 <= k < 16 * n
      ensures ids[k] == RequirementId(k / 16, k % 16)
    {
      FlatLayout(WideCriteria(n), k);
    }
    forall k, l | 0 <= k < l < |ids|
      ensures ids[k] != ids[l]
    {
      RequirementIdsDiffer(k, l);
    }
  }

  function RootIds(): (r: seq<string>)
    ensures |r| == 6 && forall i :: 0 <= i < 6 ==> r[i] == Code(i)
  {
    seq(6, i requires 0 <= i < 6 => Code(i))
  }

  lemma RootIdsDiffer()
    ensures Distinct(RootIds())
  {
    forall i, j | 0 <= i < j < 6
      ensures RootIds()[i] != RootIds()[j]
    {
      CodesDiffer(i, j);
    }
  }

  lemma BranchIdsAreRoots()
    ensures Flat(BranchIds, [ONLY_BRANCH]) == RootIds()[3..]
  {
    assert Flat(BranchIds, [ONLY_BRANCH][1..]) == [];
    assert BranchIds(ONLY_BRANCH) == RootIds()[3..];
  }

  lemma WideIdsJoin(n: nat)
    requires n <= 64
    ensures ContentIds(WidePlan(n)) == RootIds() + Flat(CriterionIds, WideCriteria(n))
  {
    BranchIdsAreRoots();
    assert [Code(0), Code(1), Code(2)] == RootIds()[..3];
    assert RootIds()[..3] + RootIds()[3..] == RootIds();
  }

  lemma WideContentIds(n: nat)
    requires 1 <= n <= 64
    ensures Distinct(ContentIds(WidePlan(n)))
  {
    var ids := Flat(CriterionIds, WideCriteria(n));
    WideIds(n);
    RootIdsDiffer();
    WideIdsJoin(n);
    DistinctJoin(RootIds(), ids);
  }

  lemma WideKeysDiffer(i: nat)
    requires i < 64
    ensures Distinct(Map(RequirementKey, WideRequirements(i)))
  {
    var keys := Map(RequirementKey, WideRequirements(i));
    forall j, k | 0 <= j < k < |keys|
      ensures keys[j] != keys[k]
    {
      CodesDiffer(j, k);
      assert keys[j][3..] == Code(j) && keys[k][3..] == Code(k);
    }
  }

  lemma WideCriterionIsValid(i: nat)
    requires i < 64
    ensures CriterionValid(WideCriterion(i))
  {
    OneLetterIsAText();
    WideKeysDiffer(i);
    assert WideRequirements(i)[0].kind == Deterministic;
  }

  lemma WideCriteriaAreValid(n: nat)
    requires 1 <= n <= 64
    ensures CriteriaValid(WideCriteria(n))
  {
    var criteria := WideCriteria(n);
    forall x | x in criteria
      ensures CriterionValid(x)
    {
      var i :| 0 <= i < n && criteria[i] == x;
      WideCriterionIsValid(i);
    }
    var keys := Map(CriterionKey, criteria);
    forall i, j | 0 <= i < j < n
      ensures keys[i] != keys[j]
    {
      CodesDiffer(i, j);
    }
  }

  lemma OnlyBranchIsAcceptable()
    ensures GraphAcceptable(Map(CanonicalBranch, [ONLY_BRANCH]), None)
  {
    assert Sort<string>([], TextKey) == [];
    var branches := Map(CanonicalBranch, [ONLY_BRANCH]);
    assert branches == [ONLY_BRANCH];
    var g := GraphOf(branches);
    assert GraphOf(branches[..0]) == map[];
    assert forall x :: x in g ==> x == "b" && g[x] == [];
    forall p
      ensures !IsCycle(g, p)
    {
      assert |p| >= 2 ==> !Edge(g, p[0], p[1]);
    }
  }

  lemma OnlyBranchIsValid()
    ensures BranchesValid([ONLY_BRANCH]) && WorkCount([ONLY_BRANCH]) == 1
  {
    assert Map(RoleOf, [ONLY_BRANCH]) == [Work];
  }

  lemma WideRestIsValid(n: nat)
    requires 1 <= n <= 64
    ensures ScalarsValid(WidePlan(n)) && ListsValid(WidePlan(n))
  {
    OneLetterIsAText();
    assert forall r :: r in ["provider"] ==> r == "provider";
  }

  lemma WideStaffingIsValid(n: nat)
    requires 1 <= n <= 64
    ensures StaffingValid(WidePlan(n))
  {
    OnlyBranchIsValid();
    assert "provider" in ["provider"];
    assert forall b :: b in [ONLY_BRANCH] ==> b == ONLY_BRANCH;
  }

  lemma WidePlanIsValid(n: nat)
    requires 1 <= n <= 64
    ensures Valid(WidePlan(n))
  {
    WideRestIsValid(n);
    WideCriteriaAreValid(n);
    OnlyBranchIsValid();
    WideContentIds(n);
    OnlyBranchIsAcceptable();
    WideStaffingIsValid(n);
  }

  /**
   Plans of nine criteria and more that normalization accepts and no snapshot fulfils; with eight and fewer the same
   plans can be fulfilled.
   */
  lemma ValidYetNeverAccepted(n: nat)
    requires 1 <= n <= 64
    ensures Accepts(Input(WidePlan(n), None, None))
    ensures (exists s :: Acceptable(Input(WidePlan(n), None, None), s)) <==> n <= 8
  {
    WidePlanIsValid(n);
    ObligationIds(WideCriteria(n));
    WideIds(n);
    FulfillableExactlyWhenFew(Input(WidePlan(n), None, None));
  }
}

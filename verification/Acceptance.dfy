/**
 The acceptance evaluator: it walks the lists of a result snapshot, collecting reason codes and evidence, and
 accepts when no reason was found. `Acceptable` says the same thing in one page, without order or bookkeeping.
 */
module Acceptance {
  import opened Basics
  import opened Digraph
  import opened Ordering
  import opened Plan
  import opened PlanCanonical
  import Text

  datatype BranchStatus = BranchVerified | BranchAccepted | OtherBranchStatus
  datatype BranchResult = BranchResult(ref: string, status: BranchStatus, artifacts: seq<ContentRef>,
                                       evidence: seq<string>)
  datatype CriterionResult = CriterionResult(id: string, passed: bool, evidence: seq<string>)
  datatype Review = Review(
    branch: string, id: string, reviewer: string, accepted: bool,
    critical: int, important: int, minor: int, evidence: seq<string>)
  datatype Check = Check(
    branch: string, criterion: string, verifier: string, requirement: Requirement, passed: bool, evidence: seq<string>)

  datatype Snapshot = Snapshot(
    workOrderId: string,
    project: string,
    planSnapshotId: Digest,
    planHash: Digest,
    planRevision: int,
    workOrderRevision: int,
    branches: seq<BranchResult>,
    criteria: seq<CriterionResult>,
    reviews: seq<Review>,
    pendingAttention: seq<string>,
    openRisks: seq<string>,
    unverified: seq<string>,
    checks: seq<Check>)

  datatype Reason =
    | PlanInvalid
    | WorkOrderIdInvalid | ProjectInvalid | ProjectMismatch | SnapshotIdInvalid | SnapshotIdMismatch
    | PlanHashInvalid | PlanHashMismatch | PlanRevisionInvalid | PlanRevisionMismatch | WorkOrderRevisionInvalid
    | BranchResultsInvalid | BranchSetMismatch | BranchRefInvalid | BranchResultDuplicate | BranchEvidenceInvalid
    | BranchArtifactsInvalid | IntegrationNotAccepted | WorkNotVerified
    | CriterionResultsInvalid | CriterionSetMismatch | CriterionIdInvalid | CriterionResultDuplicate
    | CriterionNotPassed | CriterionEvidenceInvalid
    | ReviewsInvalid | ReviewCountBelowMinimum | ReviewBranchInvalid | ReviewBranchMismatch | ReviewIdInvalid
    | ReviewDuplicate | ReviewerInvalid | ReviewerDuplicate | ReviewNotIndependent | ReviewNotAccepted
    | ReviewFindingsInvalid | ReviewBlockingFindings | ReviewEvidenceInvalid
    | PendingAttentionInvalid | PendingAttentionPresent | OpenRisksInvalid | OpenRisksPresent
    | UnverifiedInvalid | UnverifiedPresent
    | ChecksInvalid | CheckBranchInvalid | CheckBranchMismatch | CheckCriterionInvalid | CheckCriterionUnknown
    | CheckVerifierInvalid | CheckVerifierDuplicate | HumanVerifierNotIndependent | CheckRefInvalid | CheckDuplicate
    | CheckNotPlanBound | CheckNotPassed | CheckEvidenceInvalid | CheckEvidenceReused
    | RequirementMissing | DeterministicVerificationMissing | HumanVerificationMissing | EvidenceNotBoundToChecks

  // ---------------------------------------------------------------- what acceptance means

  predicate EvidenceOk(refs: seq<string>) {
    1 <= |refs| <= 128 && (forall r :: r in refs ==> Text.IsPortableRef(r)) && Distinct(refs)
  }

  function RefId(r: ContentRef): string { r.id }

  predicate ArtifactsOk(refs: seq<ContentRef>) {
    1 <= |refs| <= 128 && (forall r :: r in refs ==> ContentRefOk(r)) && Distinct(Map(RefId, refs))
  }

  predicate IsWorkOrderId(s: string) {
    |s| == 35 && s[..3] == "WO-" && Text.IsHex(s[3..])
  }

  predicate IsCount(n: int) {
    0 <= n <= MAX_SAFE_INTEGER
  }

  predicate IdentityOk(plan: Normalized, s: Snapshot) {
    && IsWorkOrderId(s.workOrderId)
    && Text.IsPortableRef(s.project) && s.project == plan.content.project
    && s.planSnapshotId == plan.snapshotId && s.planHash == plan.planHash
    && s.planRevision == plan.content.revision
    && 1 <= s.workOrderRevision <= MAX_SAFE_INTEGER
  }

  predicate StatusSettles(role: Role, status: BranchStatus) {
    status == BranchAccepted || (role == Work && status == BranchVerified)
  }

  predicate BranchResultOk(plan: Normalized, r: BranchResult) {
    && Text.IsPortableRef(r.ref) && EvidenceOk(r.evidence) && ArtifactsOk(r.artifacts)
    && forall b :: b in plan.content.branches && b.ref == r.ref ==> StatusSettles(b.role, r.status)
  }

  function ResultRef(r: BranchResult): string { r.ref }

  /** One good result for each planned branch. */
  ghost predicate BranchesOk(plan: Normalized, results: seq<BranchResult>) {
    && |results| <= 64
    && (forall r :: r in results ==> BranchResultOk(plan, r))
    && Distinct(Map(ResultRef, results))
    && (forall x :: x in Map(ResultRef, results) <==> x in Map(BranchKey, plan.content.branches))
  }

  predicate CriterionResultOk(r: CriterionResult) {
    Text.IsPortableRef(r.id) && r.passed && EvidenceOk(r.evidence)
  }

  function ResultId(r: CriterionResult): string { r.id }

  /** One passed result for each planned criterion. */
  ghost predicate CriteriaOk(plan: Normalized, results: seq<CriterionResult>) {
    && |results| <= 64
    && (forall r :: r in results ==> CriterionResultOk(r))
    && Distinct(Map(ResultId, results))
    && (forall x :: x in Map(ResultId, results) <==> x in Map(CriterionKey, plan.content.acceptance.criteria))
  }

  function FirstWork(branches: seq<Branch>): string {
    if branches == [] then "" else if branches[0].role == Work then branches[0].ref else FirstWork(branches[1..])
  }

  /** The branch whose reviews and checks decide acceptance. */
  function AcceptanceBranch(c: Content): string {
    if c.integration.Some? then c.integration.value else FirstWork(c.branches)
  }

  function AssigneeOf(b: Branch): string { b.assignee }

  predicate IsAssignee(plan: Normalized, x: string) {
    x in Map(AssigneeOf, plan.content.branches)
  }

  predicate ReviewOk(plan: Normalized, r: Review) {
    && Text.IsPortableRef(r.branch) && r.branch == AcceptanceBranch(plan.content)
    && Text.IsPortableRef(r.id)
    && Text.IsPortableRef(r.reviewer) && !IsAssignee(plan, r.reviewer)
    && r.accepted
    && r.critical == 0 && r.important == 0 && IsCount(r.minor)
    && EvidenceOk(r.evidence)
  }

  function ReviewId(r: Review): string { r.id }
  function ReviewerOf(r: Review): string { r.reviewer }

  function RequiredReviews(m: ReviewMinimum): nat {
    match m case Light => 0 case Normal => 1 case Strict => 2
  }

  /** Enough reviews by distinct reviewers who are not assignees, none with a blocking finding. */
  predicate ReviewsOk(plan: Normalized, reviews: seq<Review>) {
    && RequiredReviews(plan.content.acceptance.reviewMinimum) <= |reviews| <= 64
    && (forall r :: r in reviews ==> ReviewOk(plan, r))
    && Distinct(Map(ReviewId, reviews)) && Distinct(Map(ReviewerOf, reviews))
  }

  predicate PlanAsksFor(plan: Normalized, criterion: string, q: Requirement) {
    exists c :: c in plan.content.acceptance.criteria && c.id == criterion && q in c.requirements
  }

  predicate CheckOk(plan: Normalized, ch: Check) {
    && Text.IsPortableRef(ch.branch) && ch.branch == AcceptanceBranch(plan.content)
    && Text.IsPortableRef(ch.criterion) && PlanAsksFor(plan, ch.criterion, ch.requirement)
    && Text.IsPortableRef(ch.verifier)
    && !(ch.requirement.kind == Human && IsAssignee(plan, ch.verifier))
    && ContentRefOk(ch.requirement.ref)
    && ch.passed
    && EvidenceOk(ch.evidence)
  }

  function VerifierOf(ch: Check): string { ch.verifier }
  function CheckId(ch: Check): string { ch.requirement.ref.id }
  function CheckEvidence(ch: Check): seq<string> { ch.evidence }

  predicate Meets(checks: seq<Check>, criterion: string, q: Requirement) {
    exists ch :: ch in checks && ch.criterion == criterion && ch.requirement == q
  }

  predicate EveryRequirementMet(plan: Normalized, checks: seq<Check>) {
    forall c, q :: c in plan.content.acceptance.criteria && q in c.requirements ==> Meets(checks, c.id, q)
  }

  /** Good checks by distinct verifiers for distinct references, no evidence cited twice, every requirement met. */
  predicate ChecksOk(plan: Normalized, checks: seq<Check>) {
    && |checks| <= 128
    && (forall ch :: ch in checks ==> CheckOk(plan, ch))
    && Distinct(Map(VerifierOf, checks)) && Distinct(Map(CheckId, checks))
    && Distinct(Flat(CheckEvidence, checks))
    && EveryRequirementMet(plan, checks)
  }

  predicate CitedFor(checks: seq<Check>, criterion: string, e: string) {
    exists ch :: ch in checks && ch.criterion == criterion && e in ch.evidence
  }

  /** A criterion result cites just the evidence of the criterion's checks. */
  ghost predicate EvidenceBound(checks: seq<Check>, r: CriterionResult) {
    EvidenceBoundTo(checks, r.id, r.evidence)
  }

  ghost predicate EvidenceBoundTo(checks: seq<Check>, criterion: string, evidence: seq<string>) {
    forall e :: e in evidence <==> CitedFor(checks, criterion, e)
  }

  ghost predicate SnapshotOk(plan: Normalized, s: Snapshot) {
    && IdentityOk(plan, s)
    && BranchesOk(plan, s.branches)
    && CriteriaOk(plan, s.criteria)
    && ReviewsOk(plan, s.reviews)
    && s.pendingAttention == [] && s.openRisks == [] && s.unverified == []
    && ChecksOk(plan, s.checks)
    && forall r :: r in s.criteria ==> EvidenceBound(s.checks, r)
  }

  ghost predicate Acceptable(input: Input, s: Snapshot) {
    Accepts(input) && SnapshotOk(NormalForm(input.content), s)
  }

  predicate CitedByBranches(results: seq<BranchResult>, e: string) {
    exists r :: r in results && e in r.evidence
  }

  predicate CitedByCriteria(results: seq<CriterionResult>, e: string) {
    exists r :: r in results && e in r.evidence
  }

  predicate CitedByReviews(reviews: seq<Review>, e: string) {
    exists r :: r in reviews && e in r.evidence
  }

  // ---------------------------------------------------------------- the list validators

  /** The refs that are portable, when the list has an admissible length. */
  method ValidateEvidence(refs: seq<string>) returns (valid: bool, found: set<string>)
    ensures valid <==> EvidenceOk(refs)
    ensures 1 <= |refs| <= 128 ==> forall r :: r in found <==> r in refs && Text.IsPortableRef(r)
    ensures !(1 <= |refs| <= 128) ==> found == {}
  {
    valid, found := false, {};
    if refs == [] || |refs| > 128 { return; }
    valid := true;
    for i := 0 to |refs|
      invariant valid <==> (forall r :: r in refs[..i] ==> Text.IsPortableRef(r)) && Distinct(refs[..i])
      invariant forall r :: r in found <==> r in refs[..i] && Text.IsPortableRef(r)
    {
      assert refs[..i + 1] == refs[..i] + [refs[i]];
      if !Text.IsPortableRef(refs[i]) || refs[i] in found {
        AppendDistinct(refs[..i], refs[i]);
        valid := false;
      } else {
        AppendDistinct(refs[..i], refs[i]);
        found := found + {refs[i]};
      }
    }
    assert refs[..|refs|] == refs;
  }

  method ValidateArtifacts(refs: seq<ContentRef>) returns (valid: bool)
    ensures valid <==> ArtifactsOk(refs)
  {
    if refs == [] || |refs| > 128 { return false; }
    valid := true;
    var ids := {};
    for i := 0 to |refs|
      invariant valid <==> (forall r :: r in refs[..i] ==> ContentRefOk(r)) && Distinct(Map(RefId, refs[..i]))
      invariant valid ==> forall x :: x in ids <==> x in Map(RefId, refs[..i])
    {
      assert refs[..i + 1] == refs[..i] + [refs[i]];
      MapAppend(RefId, refs, i);
      AppendDistinct(Map(RefId, refs[..i]), refs[i].id);
      if !ContentRefOk(refs[i]) || refs[i].id in ids {
        valid := false;
      } else {
        ids := ids + {refs[i].id};
      }
    }
    assert refs[..|refs|] == refs;
  }

  /** The reasons one branch result gives apart from repetition. */
  method BranchReasons(plan: Normalized, r: BranchResult) returns (reasons: set<Reason>, found: set<string>)
    ensures Text.IsPortableRef(r.ref) ==> (reasons == {} <==> BranchResultOk(plan, r))
    ensures EvidenceOk(r.evidence) ==> forall e :: e in found <==> e in r.evidence
  {
    reasons := {};
    var ok, refs := ValidateEvidence(r.evidence);
    found := refs;
    if !ok { reasons := reasons + {BranchEvidenceInvalid}; }
    var artifacts := ValidateArtifacts(r.artifacts);
    if !artifacts { reasons := reasons + {BranchArtifactsInvalid}; }
    if exists b :: b in plan.content.branches && b.ref == r.ref && b.role == Integration && r.status != BranchAccepted {
      reasons := reasons + {IntegrationNotAccepted};
    }
    if exists b :: b in plan.content.branches && b.ref == r.ref && b.role == Work && !StatusSettles(Work, r.status) {
      reasons := reasons + {WorkNotVerified};
    }
  }

  function ValuesOf<T>(key: T -> string, s: seq<T>): (r: set<string>)
    ensures forall x :: x in r <==> x in Map(key, s)
  {
    set i | 0 <= i < |s| :: Map(key, s)[i]
  }

  lemma SubsetOfSameSize(a: set<string>, b: set<string>)
    ensures |a| == |b| && a <= b <==> a == b
  {
    if a <= b && a != b {
      assert |b| == |a| + |b - a| by { assert b == a + (b - a); }
      var x :| x in b - a;
      assert |b - a| > 0;
    }
  }

  method ValidateBranches(plan: Normalized, results: seq<BranchResult>)
    returns (reasons: set<Reason>, evidence: set<string>)
    ensures reasons == {} <==> BranchesOk(plan, results)
    ensures reasons == {} ==> forall e :: e in evidence <==> CitedByBranches(results, e)
  {
    reasons, evidence := {}, {};
    if |results| > 64 {
      return {BranchResultsInvalid, BranchSetMismatch}, {};
    }
    var planned := ValuesOf(BranchKey, plan.content.branches);
    var seen := {};
    for i := 0 to |results|
      invariant reasons == {} <==> && (forall r :: r in results[..i] ==> BranchResultOk(plan, r))
                                   && Distinct(Map(ResultRef, results[..i]))
      invariant reasons == {} ==> forall x :: x in seen <==> x in Map(ResultRef, results[..i])
      invariant reasons == {} ==> forall e :: e in evidence <==> CitedByBranches(results[..i], e)
    {
      var r := results[i];
      assert results[..i + 1] == results[..i] + [r] && r in results[..i + 1];
      MapAppend(ResultRef, results, i);
      AppendDistinct(Map(ResultRef, results[..i]), r.ref);
      if !Text.IsPortableRef(r.ref) {
        reasons := reasons + {BranchRefInvalid};
        continue;
      }
      if r.ref in seen {
        reasons := reasons + {BranchResultDuplicate};
      }
      seen := seen + {r.ref};
      var more, found := BranchReasons(plan, r);
      reasons, evidence := reasons + more, evidence + found;
    }
    assert results[..|results|] == results;
    SubsetOfSameSize(seen, planned);
    if |seen| != |planned| || exists x :: x in seen && x !in planned {
      reasons := reasons + {BranchSetMismatch};
    }
  }

  /** The reasons one criterion result gives apart from repetition. */
  method CriterionReasons(r: CriterionResult) returns (reasons: set<Reason>, found: set<string>)
    ensures Text.IsPortableRef(r.id) ==> (reasons == {} <==> CriterionResultOk(r))
    ensures CriterionEvidenceInvalid in reasons <==> !EvidenceOk(r.evidence)
    ensures EvidenceOk(r.evidence) ==> forall e :: e in found <==> e in r.evidence
  {
    reasons := {};
    if !r.passed { reasons := reasons + {CriterionNotPassed}; }
    var ok, refs := ValidateEvidence(r.evidence);
    found := refs;
    if !ok { reasons := reasons + {CriterionEvidenceInvalid}; }
  }

  predicate Indexed(results: seq<CriterionResult>, byId: map<string, CriterionResult>) {
    && (forall r :: r in results ==> r.id in byId && byId[r.id] == r)
    && (forall x :: x in byId ==> byId[x] in results && byId[x].id == x)
  }

  /** The results kept for the evidence comparison carry admissible evidence. */
  predicate Wellformed(byId: map<string, CriterionResult>) {
    forall x :: x in byId ==> byId[x].id == x && EvidenceOk(byId[x].evidence)
  }

  predicate CriteriaGood(results: seq<CriterionResult>) {
    (forall r :: r in results ==> CriterionResultOk(r)) && Distinct(Map(ResultId, results))
  }

  /** What the loop has recorded while it found nothing wrong. */
  ghost predicate CriteriaRecorded(results: seq<CriterionResult>, seen: set<string>, evidence: set<string>,
                                   byId: map<string, CriterionResult>) {
    && (forall x :: x in seen <==> x in Map(ResultId, results))
    && byId.Keys == seen && Indexed(results, byId)
    && (forall e :: e in evidence <==> CitedByCriteria(results, e))
  }

  lemma CriterionDone(results: seq<CriterionResult>, i: nat, seen: set<string>, evidence: set<string>,
                      byId: map<string, CriterionResult>, found: set<string>)
    requires i < |results| && CriteriaGood(results[..i]) && CriteriaRecorded(results[..i], seen, evidence, byId)
    requires forall e :: e in found <==> e in results[i].evidence
    ensures CriteriaGood(results[..i + 1]) <==> CriterionResultOk(results[i]) && results[i].id !in seen
    ensures results[i].id !in seen ==>
              CriteriaRecorded(results[..i + 1], seen + {results[i].id}, evidence + found,
                               byId[results[i].id := results[i]])
  {
    var r := results[i];
    assert results[..i + 1] == results[..i] + [r] && r in results[..i + 1];
    MapAppend(ResultId, results, i);
    AppendDistinct(Map(ResultId, results[..i]), r.id);
  }

  lemma CriteriaBadStaysBad(results: seq<CriterionResult>, i: nat)
    requires i < |results|
    ensures !CriteriaGood(results[..i]) || !CriterionResultOk(results[i]) ==> !CriteriaGood(results[..i + 1])
  {
    var r := results[i];
    assert results[..i + 1] == results[..i] + [r] && r in results[..i + 1];
    MapAppend(ResultId, results, i);
    AppendDistinct(Map(ResultId, results[..i]), r.id);
  }

  method ScanCriteria(results: seq<CriterionResult>)
    returns (reasons: set<Reason>, evidence: set<string>, byId: map<string, CriterionResult>, seen: set<string>)
    ensures reasons == {} <==> CriteriaGood(results)
    ensures reasons == {} ==> CriteriaRecorded(results, seen, evidence, byId)
    ensures Wellformed(byId)
  {
    reasons, evidence, byId, seen := {}, {}, map[], {};
    for i := 0 to |results|
      invariant reasons == {} <==> CriteriaGood(results[..i])
      invariant reasons == {} ==> CriteriaRecorded(results[..i], seen, evidence, byId)
      invariant Wellformed(byId)
    {
      var r := results[i];
      CriteriaBadStaysBad(results, i);
      if !Text.IsPortableRef(r.id) {
        reasons := reasons + {CriterionIdInvalid};
        continue;
      }
      var more, found := CriterionReasons(r);
      if reasons == {} && more == {} {
        CriterionDone(results, i, seen, evidence, byId, found);
      }
      if r.id in seen {
        reasons := reasons + {CriterionResultDuplicate};
      } else {
        seen := seen + {r.id};
        if CriterionEvidenceInvalid !in more {
          byId := byId[r.id := r];
        }
      }
      reasons, evidence := reasons + more, evidence + found;
    }
    assert results[..|results|] == results;
  }

  method ValidateCriteria(plan: Normalized, results: seq<CriterionResult>)
    returns (reasons: set<Reason>, evidence: set<string>, byId: map<string, CriterionResult>)
    ensures reasons == {} <==> CriteriaOk(plan, results)
    ensures reasons == {} ==> Indexed(results, byId)
    ensures Wellformed(byId)
    ensures reasons == {} ==> forall e :: e in evidence <==> CitedByCriteria(results, e)
  {
    if |results| > 64 {
      return {CriterionResultsInvalid, CriterionSetMismatch}, {}, map[];
    }
    var expected := ValuesOf(CriterionKey, plan.content.acceptance.criteria);
    var seen;
    reasons, evidence, byId, seen := ScanCriteria(results);
    SubsetOfSameSize(seen, expected);
    if |seen| != |expected| || exists x :: x in seen && x !in expected {
      reasons := reasons + {CriterionSetMismatch};
    }
  }

  /** The reasons one review gives apart from repetition. */
  method ReviewReasons(plan: Normalized, r: Review) returns (reasons: set<Reason>, found: set<string>)
    ensures reasons == {} <==> ReviewOk(plan, r)
    ensures reasons == {} ==> forall e :: e in found <==> e in r.evidence
  {
    reasons := {};
    if !Text.IsPortableRef(r.branch) {
      reasons := reasons + {ReviewBranchInvalid};
    } else if r.branch != AcceptanceBranch(plan.content) {
      reasons := reasons + {ReviewBranchMismatch};
    }
    if !Text.IsPortableRef(r.id) { reasons := reasons + {ReviewIdInvalid}; }
    if !Text.IsPortableRef(r.reviewer) {
      reasons := reasons + {ReviewerInvalid};
    } else if IsAssignee(plan, r.reviewer) {
      reasons := reasons + {ReviewNotIndependent};
    }
    if !r.accepted { reasons := reasons + {ReviewNotAccepted}; }
    if !IsCount(r.critical) || !IsCount(r.important) || !IsCount(r.minor) {
      reasons := reasons + {ReviewFindingsInvalid};
    } else if r.critical > 0 || r.important > 0 {
      reasons := reasons + {ReviewBlockingFindings};
    }
    var ok, refs := ValidateEvidence(r.evidence);
    found := refs;
    if !ok { reasons := reasons + {ReviewEvidenceInvalid}; }
  }

  method ValidateReviews(plan: Normalized, reviews: seq<Review>) returns (reasons: set<Reason>, evidence: set<string>)
    ensures reasons == {} <==> ReviewsOk(plan, reviews)
    ensures reasons == {} ==> forall e :: e in evidence <==> CitedByReviews(reviews, e)
  {
    reasons, evidence := {}, {};
    if |reviews| > 64 {
      return {ReviewsInvalid, ReviewCountBelowMinimum}, {};
    }
    var ids, reviewers, good := {}, {}, 0;
    for i := 0 to |reviews|
      invariant reasons == {} <==> && (forall r :: r in reviews[..i] ==> ReviewOk(plan, r))
                                   && Distinct(Map(ReviewId, reviews[..i])) && Distinct(Map(ReviewerOf, reviews[..i]))
      invariant reasons == {} ==> forall x :: x in ids <==> x in Map(ReviewId, reviews[..i])
      invariant reasons == {} ==> forall x :: x in reviewers <==> x in Map(ReviewerOf, reviews[..i])
      invariant reasons == {} ==> forall e :: e in evidence <==> CitedByReviews(reviews[..i], e)
      invariant reasons == {} ==> good == i
    {
      var r := reviews[i];
      assert reviews[..i + 1] == reviews[..i] + [r];
      MapAppend(ReviewId, reviews, i);
      MapAppend(ReviewerOf, reviews, i);
      AppendDistinct(Map(ReviewId, reviews[..i]), r.id);
      AppendDistinct(Map(ReviewerOf, reviews[..i]), r.reviewer);
      var more, found := ReviewReasons(plan, r);
      if Text.IsPortableRef(r.id) {
        if r.id in ids {
          more := more + {ReviewDuplicate};
        } else {
          ids := ids + {r.id};
        }
      }
      if Text.IsPortableRef(r.reviewer) {
        if r.reviewer in reviewers {
          more := more + {ReviewerDuplicate};
        }
        reviewers := reviewers + {r.reviewer};
      }
      reasons, evidence := reasons + more, evidence + found;
      if more == {} {
        good := good + 1;
      }
    }
    assert reviews[..|reviews|] == reviews;
    if good < RequiredReviews(plan.content.acceptance.reviewMinimum) {
      reasons := reasons + {ReviewCountBelowMinimum};
    }
  }

  method ValidateEmpty(refs: seq<string>, invalid: Reason, present: Reason) returns (reasons: set<Reason>)
    ensures reasons == {} <==> refs == []
  {
    reasons := {};
    if |refs| > 128 {
      return {invalid};
    }
    if |refs| > 0 { reasons := reasons + {present}; }
    if exists r :: r in refs && !Text.IsPortableRef(r) { reasons := reasons + {invalid}; }
  }

  method ValidateIdentity(plan: Normalized, s: Snapshot) returns (reasons: set<Reason>)
    requires 1 <= plan.content.revision <= MAX_SAFE_INTEGER && plan.snapshotId.DigestOf? && plan.planHash.DigestOf?
    ensures reasons == {} <==> IdentityOk(plan, s)
  {
    reasons := {};
    if !IsWorkOrderId(s.workOrderId) { reasons := reasons + {WorkOrderIdInvalid}; }
    if !Text.IsPortableRef(s.project) {
      reasons := reasons + {ProjectInvalid};
    } else if s.project != plan.content.project {
      reasons := reasons + {ProjectMismatch};
    }
    if s.planSnapshotId.OtherText? {
      reasons := reasons + {SnapshotIdInvalid};
    } else if s.planSnapshotId != plan.snapshotId {
      reasons := reasons + {SnapshotIdMismatch};
    }
    if s.planHash.OtherText? {
      reasons := reasons + {PlanHashInvalid};
    } else if s.planHash != plan.planHash {
      reasons := reasons + {PlanHashMismatch};
    }
    if !(1 <= s.planRevision <= MAX_SAFE_INTEGER) {
      reasons := reasons + {PlanRevisionInvalid};
    } else if s.planRevision != plan.content.revision {
      reasons := reasons + {PlanRevisionMismatch};
    }
    if !(1 <= s.workOrderRevision <= MAX_SAFE_INTEGER) { reasons := reasons + {WorkOrderRevisionInvalid}; }
  }

  // ---------------------------------------------------------------- verification checks

  /** The reasons one check gives apart from repetition. */
  method CheckReasons(plan: Normalized, ch: Check) returns (reasons: set<Reason>, found: set<string>)
    ensures reasons == {} <==> CheckOk(plan, ch)
    ensures reasons == {} ==> forall e :: e in found <==> e in ch.evidence
  {
    reasons := {};
    if !Text.IsPortableRef(ch.branch) {
      reasons := reasons + {CheckBranchInvalid};
    } else if ch.branch != AcceptanceBranch(plan.content) {
      reasons := reasons + {CheckBranchMismatch};
    }
    var known := exists c :: c in plan.content.acceptance.criteria && c.id == ch.criterion;
    if !Text.IsPortableRef(ch.criterion) {
      reasons := reasons + {CheckCriterionInvalid};
    } else if !known {
      reasons := reasons + {CheckCriterionUnknown};
    }
    if !Text.IsPortableRef(ch.verifier) { reasons := reasons + {CheckVerifierInvalid}; }
    if ch.requirement.kind == Human && Text.IsPortableRef(ch.verifier) && IsAssignee(plan, ch.verifier) {
      reasons := reasons + {HumanVerifierNotIndependent};
    }
    if !ContentRefOk(ch.requirement.ref) { reasons := reasons + {CheckRefInvalid}; }
    if known && ContentRefOk(ch.requirement.ref) && !PlanAsksFor(plan, ch.criterion, ch.requirement) {
      reasons := reasons + {CheckNotPlanBound};
    }
    if !ch.passed { reasons := reasons + {CheckNotPassed}; }
    var ok, refs := ValidateEvidence(ch.evidence);
    found := refs;
    if !ok { reasons := reasons + {CheckEvidenceInvalid}; }
  }

  /** What one criterion's valid checks have contributed so far. */
  datatype Tally = Tally(deterministic: nat, human: nat, met: set<Requirement>, evidence: set<string>)

  function Counted(t: Tally, ch: Check, found: set<string>): Tally {
    t.(deterministic := t.deterministic + (if ch.requirement.kind == Deterministic then 1 else 0),
       human := t.human + (if ch.requirement.kind == Human then 1 else 0),
       met := t.met + {ch.requirement},
       evidence := t.evidence + found)
  }

  predicate ChecksGood(plan: Normalized, checks: seq<Check>) {
    && (forall ch :: ch in checks ==> CheckOk(plan, ch))
    && Distinct(Map(VerifierOf, checks)) && Distinct(Map(CheckId, checks))
    && Distinct(Flat(CheckEvidence, checks))
  }

  predicate HasCheckOf(checks: seq<Check>, criterion: string, kind: Kind) {
    exists ch :: ch in checks && ch.criterion == criterion && ch.requirement.kind == kind
  }

  ghost predicate Tallied(checks: seq<Check>, criterion: string, t: Tally) {
    && (forall q :: q in t.met <==> Meets(checks, criterion, q))
    && (forall e :: e in t.evidence <==> CitedFor(checks, criterion, e))
    && (t.deterministic >= 1 <==> HasCheckOf(checks, criterion, Deterministic))
    && (t.human >= 1 <==> HasCheckOf(checks, criterion, Human))
  }

  ghost predicate AllTallied(checks: seq<Check>, tallies: map<string, Tally>) {
    forall x :: x in tallies ==> Tallied(checks, x, tallies[x])
  }

  lemma TallyGrows(checks: seq<Check>, i: nat, t: Tally, criterion: string, found: set<string>)
    requires i < |checks| && Tallied(checks[..i], criterion, t)
    requires forall e :: e in found <==> e in checks[i].evidence
    ensures Tallied(checks[..i + 1], criterion,
                    if checks[i].criterion == criterion then Counted(t, checks[i], found) else t)
  {
    var ch := checks[i];
    assert checks[..i + 1] == checks[..i] + [ch] && ch in checks[..i + 1];
    forall q
      ensures Meets(checks[..i + 1], criterion, q) <==>
                Meets(checks[..i], criterion, q) || (ch.criterion == criterion && ch.requirement == q)
    {
    }
    forall e
      ensures CitedFor(checks[..i + 1], criterion, e) <==>
                CitedFor(checks[..i], criterion, e) || (ch.criterion == criterion && e in ch.evidence)
    {
    }
    forall kind
      ensures HasCheckOf(checks[..i + 1], criterion, kind) <==>
                HasCheckOf(checks[..i], criterion, kind) || (ch.criterion == criterion && ch.requirement.kind == kind)
    {
    }
  }

  lemma TalliesGrow(checks: seq<Check>, i: nat, tallies: map<string, Tally>, found: set<string>)
    requires i < |checks| && AllTallied(checks[..i], tallies) && checks[i].criterion in tallies
    requires forall e :: e in found <==> e in checks[i].evidence
    ensures AllTallied(checks[..i + 1],
                       tallies[checks[i].criterion := Counted(tallies[checks[i].criterion], checks[i], found)])
  {
    forall x | x in tallies
      ensures Tallied(checks[..i + 1], x,
                      if checks[i].criterion == x then Counted(tallies[x], checks[i], found) else tallies[x])
    {
      TallyGrows(checks, i, tallies[x], x, found);
    }
  }

  /** The sets and tallies the loop over checks maintains. */
  datatype Scan = Scan(verifiers: set<string>, ids: set<string>, owned: set<string>, tallies: map<string, Tally>)

  predicate KnowsAll(plan: Normalized, tallies: map<string, Tally>) {
    forall c :: c in plan.content.acceptance.criteria ==> c.id in tallies
  }

  ghost predicate Recorded(checks: seq<Check>, s: Scan) {
    && (forall x :: x in s.verifiers <==> x in Map(VerifierOf, checks))
    && (forall x :: x in s.ids <==> x in Map(CheckId, checks))
    && (forall x :: x in s.owned <==> x in Flat(CheckEvidence, checks))
    && AllTallied(checks, s.tallies)
  }

  /** The check repeats no verifier, reference or evidence seen before. */
  predicate Unrepeated(ch: Check, s: Scan) {
    ch.verifier !in s.verifiers && CheckId(ch) !in s.ids && forall e :: e in ch.evidence ==> e !in s.owned
  }

  function Advanced(s: Scan, ch: Check): Scan
    requires ch.criterion in s.tallies
  {
    var found := set e | e in ch.evidence;
    Scan(s.verifiers + {ch.verifier}, s.ids + {CheckId(ch)}, s.owned + found,
         s.tallies[ch.criterion := Counted(s.tallies[ch.criterion], ch, found)])
  }

  /** The checks so far and one more. */
  lemma ChecksAppend(plan: Normalized, checks: seq<Check>, i: nat)
    requires i < |checks|
    ensures ChecksGood(plan, checks[..i + 1]) <==>
              && ChecksGood(plan, checks[..i]) && CheckOk(plan, checks[i])
              && checks[i].verifier !in Map(VerifierOf, checks[..i]) && CheckId(checks[i]) !in Map(CheckId, checks[..i])
              && forall e :: e in Flat(CheckEvidence, checks[..i]) ==> e !in checks[i].evidence
  {
    var ch := checks[i];
    assert checks[..i + 1] == checks[..i] + [ch] && ch in checks[..i + 1];
    MapAppend(VerifierOf, checks, i);
    MapAppend(CheckId, checks, i);
    AppendDistinct(Map(VerifierOf, checks[..i]), ch.verifier);
    AppendDistinct(Map(CheckId, checks[..i]), CheckId(ch));
    FlatAppend(CheckEvidence, checks[..i], ch);
    DistinctJoin(Flat(CheckEvidence, checks[..i]), ch.evidence);
  }

  lemma RecordedGrows(checks: seq<Check>, i: nat, s: Scan)
    requires i < |checks| && Recorded(checks[..i], s) && checks[i].criterion in s.tallies
    ensures Recorded(checks[..i + 1], Advanced(s, checks[i]))
  {
    var ch := checks[i];
    assert checks[..i + 1] == checks[..i] + [ch];
    MapAppend(VerifierOf, checks, i);
    MapAppend(CheckId, checks, i);
    FlatAppend(CheckEvidence, checks[..i], ch);
    TalliesGrow(checks, i, s.tallies, set e | e in ch.evidence);
  }

  lemma CheckDone(plan: Normalized, checks: seq<Check>, i: nat, s: Scan)
    requires i < |checks| && ChecksGood(plan, checks[..i]) && Recorded(checks[..i], s) && CheckOk(plan, checks[i])
    requires KnowsAll(plan, s.tallies)
    ensures ChecksGood(plan, checks[..i + 1]) <==> Unrepeated(checks[i], s)
    ensures checks[i].criterion in s.tallies && Recorded(checks[..i + 1], Advanced(s, checks[i]))
  {
    RecordedGrows(checks, i, s);
    ChecksAppend(plan, checks, i);
  }

  /** The loop body: the reasons a check gives, and the state after it. */
  method CheckOne(plan: Normalized, ch: Check, s: Scan) returns (reasons: set<Reason>, after: Scan)
    requires KnowsAll(plan, s.tallies)
    ensures reasons == {} <==> CheckOk(plan, ch) && Unrepeated(ch, s)
    ensures ch.criterion in s.tallies && reasons == {} ==> after == Advanced(s, ch)
    ensures KnowsAll(plan, after.tallies)
  {
    var found;
    reasons, found := CheckReasons(plan, ch);
    if reasons == {} {
      assert found == set e | e in ch.evidence;
    }
    after := s.(owned := s.owned + found);
    if Text.IsPortableRef(ch.verifier) {
      if ch.verifier in s.verifiers { reasons := reasons + {CheckVerifierDuplicate}; }
      after := after.(verifiers := s.verifiers + {ch.verifier});
    }
    if ContentRefOk(ch.requirement.ref) {
      if CheckId(ch) in s.ids { reasons := reasons + {CheckDuplicate}; }
      after := after.(ids := s.ids + {CheckId(ch)});
    }
    if exists e :: e in found && e in s.owned { reasons := reasons + {CheckEvidenceReused}; }
    if reasons == {} && ch.criterion in s.tallies {
      after := after.(tallies := s.tallies[ch.criterion := Counted(s.tallies[ch.criterion], ch, found)]);
    }
  }

  method ScanChecks(plan: Normalized, checks: seq<Check>) returns (reasons: set<Reason>, s: Scan)
    ensures reasons == {} <==> ChecksGood(plan, checks)
    ensures reasons == {} ==> Recorded(checks, s)
    ensures KnowsAll(plan, s.tallies)
  {
    reasons := {};
    s := Scan({}, {}, {}, map c | c in ValuesOf(CriterionKey, plan.content.acceptance.criteria) :: Tally(0, 0, {}, {}));
    assert forall c :: c in plan.content.acceptance.criteria ==>
        CriterionKey(c) in Map(CriterionKey, plan.content.acceptance.criteria);
    for i := 0 to |checks|
      invariant reasons == {} <==> ChecksGood(plan, checks[..i])
      invariant reasons == {} ==> Recorded(checks[..i], s)
      invariant KnowsAll(plan, s.tallies)
    {
      ChecksAppend(plan, checks, i);
      var more, after := CheckOne(plan, checks[i], s);
      if reasons == {} && CheckOk(plan, checks[i]) {
        CheckDone(plan, checks, i, s);
      }
      reasons, s := reasons + more, after;
    }
    assert checks[..|checks|] == checks;
  }

  /** The tally satisfies the criterion and matches the evidence its result cites. */
  ghost predicate CriterionMet(c: Criterion, t: Tally, byId: map<string, CriterionResult>) {
    && (forall q :: q in c.requirements ==> q in t.met)
    && (c.mode != HumanOnly ==> t.deterministic >= 1)
    && (c.mode != DeterministicOnly ==> t.human >= 1)
    && (c.id in byId ==> forall e :: e in byId[c.id].evidence <==> e in t.evidence)
  }

  method CriterionMetReasons(c: Criterion, t: Tally, byId: map<string, CriterionResult>) returns (reasons: set<Reason>)
    requires Wellformed(byId)
    ensures reasons == {} <==> CriterionMet(c, t, byId)
  {
    reasons := {};
    if exists q :: q in c.requirements && q !in t.met { reasons := reasons + {RequirementMissing}; }
    if c.mode != HumanOnly && t.deterministic < 1 { reasons := reasons + {DeterministicVerificationMissing}; }
    if c.mode != DeterministicOnly && t.human < 1 { reasons := reasons + {HumanVerificationMissing}; }
    if c.id in byId {
      var cited := set e | e in byId[c.id].evidence && Text.IsPortableRef(e);
      SubsetOfSameSize(cited, t.evidence);
      if |cited| != |t.evidence| || exists e :: e in cited && e !in t.evidence {
        reasons := reasons + {EvidenceNotBoundToChecks};
      }
    }
  }

  method TallyReasons(criteria: seq<Criterion>, tallies: map<string, Tally>, byId: map<string, CriterionResult>)
    returns (reasons: set<Reason>)
    requires Wellformed(byId) && forall c :: c in criteria ==> c.id in tallies
    ensures reasons == {} <==> forall c :: c in criteria ==> CriterionMet(c, tallies[c.id], byId)
  {
    reasons := {};
    for i := 0 to |criteria|
      invariant reasons == {} <==>
                forall k :: 0 <= k < i ==>
                  criteria[k].id in tallies && CriterionMet(criteria[k], tallies[criteria[k].id], byId)
    {
      assert criteria[i] in criteria;
      var more := CriterionMetReasons(criteria[i], tallies[criteria[i].id], byId);
      reasons := reasons + more;
    }
  }

  /** With a valid plan the per-kind counts reject nothing that the requirements accept. */
  lemma CountsAreRedundant(c: Criterion, checks: seq<Check>, t: Tally)
    requires CriterionValid(c) && Tallied(checks, c.id, t) && forall q :: q in c.requirements ==> q in t.met
    ensures c.mode != HumanOnly ==> t.deterministic >= 1
    ensures c.mode != DeterministicOnly ==> t.human >= 1
  {
    if HasKind(c.requirements, Deterministic) {
      var q :| q in c.requirements && q.kind == Deterministic;
      assert Meets(checks, c.id, q);
    }
    if HasKind(c.requirements, Human) {
      var q :| q in c.requirements && q.kind == Human;
      assert Meets(checks, c.id, q);
    }
  }

  ghost predicate BoundById(plan: Normalized, checks: seq<Check>, byId: map<string, CriterionResult>) {
    forall c :: c in plan.content.acceptance.criteria && c.id in byId ==> EvidenceBound(checks, byId[c.id])
  }

  lemma CriterionMetMeans(c: Criterion, checks: seq<Check>, t: Tally, byId: map<string, CriterionResult>)
    requires CriterionValid(c) && Tallied(checks, c.id, t)
    ensures CriterionMet(c, t, byId) <==>
              && (forall q :: q in c.requirements ==> Meets(checks, c.id, q))
              && (c.id in byId ==> EvidenceBoundTo(checks, c.id, byId[c.id].evidence))
  {
    if forall q :: q in c.requirements ==> q in t.met {
      CountsAreRedundant(c, checks, t);
    }
  }

  lemma MetMeansBound(plan: Normalized, checks: seq<Check>, tallies: map<string, Tally>,
                      byId: map<string, CriterionResult>)
    requires CriteriaValid(plan.content.acceptance.criteria) && Wellformed(byId) && AllTallied(checks, tallies)
    requires forall c :: c in plan.content.acceptance.criteria ==> c.id in tallies
    ensures (forall c :: c in plan.content.acceptance.criteria ==> CriterionMet(c, tallies[c.id], byId))
            <==> EveryRequirementMet(plan, checks) && BoundById(plan, checks, byId)
  {
    forall c | c in plan.content.acceptance.criteria
      ensures CriterionMet(c, tallies[c.id], byId) <==>
                && (forall q :: q in c.requirements ==> Meets(checks, c.id, q))
                && (c.id in byId ==> EvidenceBound(checks, byId[c.id]))
    {
      CriterionMetMeans(c, checks, tallies[c.id], byId);
    }
  }

  method ValidateChecks(plan: Normalized, checks: seq<Check>, byId: map<string, CriterionResult>)
    returns (reasons: set<Reason>, evidence: set<string>)
    requires CriteriaValid(plan.content.acceptance.criteria) && Wellformed(byId)
    ensures reasons == {} <==> ChecksOk(plan, checks) && BoundById(plan, checks, byId)
    ensures reasons == {} ==> forall e :: e in evidence <==> e in Flat(CheckEvidence, checks)
  {
    if |checks| > 128 {
      return {ChecksInvalid}, {};
    }
    var s;
    reasons, s := ScanChecks(plan, checks);
    evidence := s.owned;
    if reasons == {} {
      MetMeansBound(plan, checks, s.tallies, byId);
    }
    var more := TallyReasons(plan.content.acceptance.criteria, s.tallies, byId);
    reasons := reasons + more;
  }

  // ---------------------------------------------------------------- the evaluator

  predicate Cited(s: Snapshot, e: string) {
    CitedByBranches(s.branches, e) || CitedByCriteria(s.criteria, e) || CitedByReviews(s.reviews, e)
    || e in Flat(CheckEvidence, s.checks)
  }

  /** Comparing evidence by criterion is comparing it for every criterion result. */
  lemma BoundByIdMeansBound(plan: Normalized, s: Snapshot, byId: map<string, CriterionResult>)
    requires CriteriaOk(plan, s.criteria) && Indexed(s.criteria, byId)
    ensures BoundById(plan, s.checks, byId) <==> forall r :: r in s.criteria ==> EvidenceBound(s.checks, r)
  {
    var criteria := plan.content.acceptance.criteria;
    if BoundById(plan, s.checks, byId) {
      forall r | r in s.criteria
        ensures EvidenceBound(s.checks, r)
      {
        var k :| 0 <= k < |s.criteria| && s.criteria[k] == r;
        assert Map(ResultId, s.criteria)[k] in Map(CriterionKey, criteria);
        var n :| 0 <= n < |criteria| && Map(CriterionKey, criteria)[n] == r.id;
        assert criteria[n] in criteria && criteria[n].id == r.id;
      }
    }
  }

  method ValidateEmptyLists(s: Snapshot) returns (reasons: set<Reason>)
    ensures reasons == {} <==> s.pendingAttention == [] && s.openRisks == [] && s.unverified == []
  {
    var pending := ValidateEmpty(s.pendingAttention, PendingAttentionInvalid, PendingAttentionPresent);
    var risks := ValidateEmpty(s.openRisks, OpenRisksInvalid, OpenRisksPresent);
    var unverified := ValidateEmpty(s.unverified, UnverifiedInvalid, UnverifiedPresent);
    reasons := pending + risks + unverified;
  }

  method EvaluateSnapshot(plan: Normalized, s: Snapshot) returns (reasons: set<Reason>, evidence: set<string>)
    requires 1 <= plan.content.revision <= MAX_SAFE_INTEGER && plan.snapshotId.DigestOf? && plan.planHash.DigestOf?
    requires CriteriaValid(plan.content.acceptance.criteria)
    ensures reasons == {} <==> SnapshotOk(plan, s)
    ensures reasons == {} ==> forall e :: e in evidence <==> Cited(s, e)
  {
    var identity := ValidateIdentity(plan, s);
    var branches, branchEvidence := ValidateBranches(plan, s.branches);
    var results, resultEvidence, byId := ValidateCriteria(plan, s.criteria);
    var reviews, reviewEvidence := ValidateReviews(plan, s.reviews);
    var lists := ValidateEmptyLists(s);
    var checks, checkEvidence := ValidateChecks(plan, s.checks, byId);
    if results == {} {
      BoundByIdMeansBound(plan, s, byId);
    }
    reasons := identity + branches + results + reviews + lists + checks;
    evidence := branchEvidence + resultEvidence + reviewEvidence + checkEvidence;
  }

  lemma NormalPlanIsValid(c: Content)
    requires Valid(c)
    ensures Valid(Canonical(c))
  {
    CanonicalKeepsShape(c);
    ValidForgetsOrder(c, Canonical(c));
  }

  /** `evaluateBusinessAcceptanceV1`: it accepts exactly the acceptable, and reports the evidence cited. */
  method Evaluate(input: Input, s: Snapshot) returns (accepted: bool, reasons: set<Reason>, evidence: set<string>)
    ensures accepted <==> Acceptable(input, s)
    ensures accepted <==> reasons == {}
    ensures accepted ==> forall e :: e in evidence <==> Cited(s, e)
  {
    var plan := Normalize(input);
    if plan.Err? {
      return false, {PlanInvalid}, {};
    }
    NormalPlanIsValid(input.content);
    reasons, evidence := EvaluateSnapshot(plan.value, s);
    accepted := reasons == {};
  }
}

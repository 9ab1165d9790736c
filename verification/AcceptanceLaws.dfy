/**
 What acceptance implies: the checks are in bijection with the plan's requirements, no evidence serves two checks,
 and neither the order of the plan's lists nor that of the snapshot's lists matters.
 */
module AcceptanceLaws {
  import opened Digraph
  import opened Ordering
  import opened Plan
  import opened PlanCanonical
  import opened Acceptance

  // ---------------------------------------------------------------- checks and requirements

  /** A requirement of a criterion: what one check must answer. */
  datatype Obligation = Obligation(criterion: string, requirement: Requirement)

  function ObligationOf(ch: Check): Obligation {
    Obligation(ch.criterion, ch.requirement)
  }

  function ObligationsOf(c: Criterion): (r: seq<Obligation>)
    ensures |r| == |c.requirements| && forall i :: 0 <= i < |r| ==> r[i] == Obligation(c.id, c.requirements[i])
  {
    seq(|c.requirements|, i requires 0 <= i < |c.requirements| => Obligation(c.id, c.requirements[i]))
  }

  function Obligations(c: Content): seq<Obligation> {
    Flat(ObligationsOf, c.acceptance.criteria)
  }

  lemma SameMembersSameMultiset<T(!new)>(a: seq<T>, b: seq<T>)
    requires Distinct(a) && Distinct(b) && forall x :: x in a <==> x in b
    ensures multiset(a) == multiset(b)
  {
    forall x
      ensures multiset(a)[x] == multiset(b)[x]
    {
      DistinctCountsOnce(a, x);
      DistinctCountsOnce(b, x);
    }
  }

  lemma {:induction false} FlatMembers<T(!new), U>(f: T -> seq<U>, s: seq<T>, x: U)
    ensures x in Flat(f, s) <==> exists y :: y in s && x in f(y)
  {
    if s != [] {
      FlatMembers(f, s[1..], x);
      assert s == [s[0]] + s[1..];
    }
  }

  /** The ids of the obligations are the requirement ids of the plan. */
  lemma {:induction false} ObligationIds(criteria: seq<Criterion>)
    ensures |Flat(ObligationsOf, criteria)| == |Flat(CriterionIds, criteria)|
    ensures forall i :: 0 <= i < |Flat(ObligationsOf, criteria)| ==>
              Flat(ObligationsOf, criteria)[i].requirement.ref.id == Flat(CriterionIds, criteria)[i]
  {
    if criteria != [] {
      ObligationIds(criteria[1..]);
      assert |ObligationsOf(criteria[0])| == |CriterionIds(criteria[0])|;
    }
  }

  lemma ObligationsDoNotRepeat(c: Content)
    requires Distinct(ContentIds(c))
    ensures Distinct(Obligations(c))
  {
    ObligationIds(c.acceptance.criteria);
    var roots := [c.taskIntent.id, c.executionPlan.id, c.contextPack.id] + Flat(BranchIds, c.branches);
    DistinctJoin(roots, Flat(CriterionIds, c.acceptance.criteria));
  }

  lemma ChecksDoNotRepeat(checks: seq<Check>)
    requires Distinct(Map(CheckId, checks))
    ensures Distinct(Map(ObligationOf, checks))
  {
    var ids, obligations := Map(CheckId, checks), Map(ObligationOf, checks);
    assert forall i :: 0 <= i < |checks| ==> obligations[i].requirement.ref.id == ids[i];
  }

  lemma ObligationsAreAsked(plan: Normalized, o: Obligation)
    ensures o in Obligations(plan.content) <==> PlanAsksFor(plan, o.criterion, o.requirement)
  {
    FlatMembers(ObligationsOf, plan.content.acceptance.criteria, o);
    forall c | c in plan.content.acceptance.criteria
      ensures o in ObligationsOf(c) <==> c.id == o.criterion && o.requirement in c.requirements
    {
      if c.id == o.criterion && o.requirement in c.requirements {
        var i :| 0 <= i < |c.requirements| && c.requirements[i] == o.requirement;
        assert ObligationsOf(c)[i] == o;
      }
    }
  }

  lemma ChecksAnswerObligations(plan: Normalized, checks: seq<Check>, o: Obligation)
    requires ChecksOk(plan, checks)
    ensures o in Map(ObligationOf, checks) <==> o in Obligations(plan.content)
  {
    ObligationsAreAsked(plan, o);
    if o in Map(ObligationOf, checks) {
      var i :| 0 <= i < |checks| && Map(ObligationOf, checks)[i] == o;
      assert CheckOk(plan, checks[i]);
    }
    if PlanAsksFor(plan, o.criterion, o.requirement) {
      assert Meets(checks, o.criterion, o.requirement);
      var ch :| ch in checks && ch.criterion == o.criterion && ch.requirement == o.requirement;
      var i :| 0 <= i < |checks| && checks[i] == ch;
      assert Map(ObligationOf, checks)[i] == o;
    }
  }

  /** On acceptance the checks answer the plan's requirements one for one. */
  lemma ChecksAreTheRequirements(input: Input, s: Snapshot)
    requires Acceptable(input, s)
    ensures multiset(Map(ObligationOf, s.checks)) == multiset(Obligations(NormalForm(input.content).content))
    ensures |s.checks| == |Obligations(NormalForm(input.content).content)|
  {
    var plan := NormalForm(input.content);
    NormalPlanIsValid(input.content);
    ObligationsDoNotRepeat(plan.content);
    ChecksDoNotRepeat(s.checks);
    forall o
      ensures o in Map(ObligationOf, s.checks) <==> o in Obligations(plan.content)
    {
      ChecksAnswerObligations(plan, s.checks, o);
    }
    SameMembersSameMultiset(Map(ObligationOf, s.checks), Obligations(plan.content));
    assert |multiset(Map(ObligationOf, s.checks))| == |s.checks|;
  }

  lemma ObligationCountForgetsOrder(c: Content, d: Content)
    requires ShapeOf(c) == ShapeOf(d)
    ensures |Obligations(c)| == |Obligations(d)|
  {
    ObligationIds(c.acceptance.criteria);
    ObligationIds(d.acceptance.criteria);
    forall x, y | ShapeOfCriterion(x) == ShapeOfCriterion(y)
      ensures multiset(CriterionIds(x)) == multiset(CriterionIds(y))
    {
      RequirementIdsForgetOrder(x.requirements, y.requirements);
    }
    FlatRespects(c.acceptance.criteria, d.acceptance.criteria, ShapeOfCriterion, CriterionIds);
    Membership(Flat(CriterionIds, c.acceptance.criteria), Flat(CriterionIds, d.acceptance.criteria), "");
  }

  /** No snapshot ever satisfies a plan with more than 128 requirements. */
  lemma TooManyRequirementsNeverAccepted(input: Input, s: Snapshot)
    requires |Obligations(input.content)| > 128
    ensures !Acceptable(input, s)
  {
    if Acceptable(input, s) {
      ChecksAreTheRequirements(input, s);
      CanonicalKeepsShape(input.content);
      ObligationCountForgetsOrder(input.content, Canonical(input.content));
      assert false;
    }
  }

  lemma {:induction false} FlatDisjoint(checks: seq<Check>, i: nat, j: nat, e: string)
    requires Distinct(Flat(CheckEvidence, checks)) && i < j < |checks| && e in checks[i].evidence
    ensures e !in checks[j].evidence
  {
    DistinctJoin(checks[0].evidence, Flat(CheckEvidence, checks[1..]));
    if i == 0 {
      FlatMembers(CheckEvidence, checks[1..], e);
      assert checks[1..][j - 1] == checks[j] && checks[j] in checks[1..];
    } else {
      FlatDisjoint(checks[1..], i - 1, j - 1, e);
    }
  }

  /** No two checks share a verifier or a piece of evidence. */
  lemma ChecksAreIndependent(input: Input, s: Snapshot, i: nat, j: nat)
    requires Acceptable(input, s) && i < j < |s.checks|
    ensures s.checks[i].verifier != s.checks[j].verifier
    ensures forall e :: e in s.checks[i].evidence ==> e !in s.checks[j].evidence
  {
    assert Map(VerifierOf, s.checks)[i] != Map(VerifierOf, s.checks)[j];
    forall e | e in s.checks[i].evidence
      ensures e !in s.checks[j].evidence
    {
      FlatDisjoint(s.checks, i, j, e);
    }
  }

  // ---------------------------------------------------------------- order does not matter

  datatype ResultShape = ResultShape(rest: BranchResult, evidence: multiset<string>, artifacts: multiset<ContentRef>)
  datatype CriterionResultShape = CriterionResultShape(rest: CriterionResult, evidence: multiset<string>)
  datatype ReviewShape = ReviewShape(rest: Review, evidence: multiset<string>)
  datatype CheckShape = CheckShape(rest: Check, evidence: multiset<string>)

  function ShapeOfResult(r: BranchResult): ResultShape {
    ResultShape(r.(evidence := [], artifacts := []), multiset(r.evidence), multiset(r.artifacts))
  }

  function ShapeOfCriterionResult(r: CriterionResult): CriterionResultShape {
    CriterionResultShape(r.(evidence := []), multiset(r.evidence))
  }

  function ShapeOfReview(r: Review): ReviewShape {
    ReviewShape(r.(evidence := []), multiset(r.evidence))
  }

  function ShapeOfCheck(ch: Check): CheckShape {
    CheckShape(ch.(evidence := []), multiset(ch.evidence))
  }

  /** Two snapshots that differ only in the order of their lists and of the lists inside them. */
  ghost predicate SameUpToOrder(s: Snapshot, t: Snapshot) {
    && s == t.(branches := s.branches, criteria := s.criteria, reviews := s.reviews, checks := s.checks,
               pendingAttention := s.pendingAttention, openRisks := s.openRisks, unverified := s.unverified)
    && multiset(Map(ShapeOfResult, s.branches)) == multiset(Map(ShapeOfResult, t.branches))
    && multiset(Map(ShapeOfCriterionResult, s.criteria)) == multiset(Map(ShapeOfCriterionResult, t.criteria))
    && multiset(Map(ShapeOfReview, s.reviews)) == multiset(Map(ShapeOfReview, t.reviews))
    && multiset(Map(ShapeOfCheck, s.checks)) == multiset(Map(ShapeOfCheck, t.checks))
    && multiset(s.pendingAttention) == multiset(t.pendingAttention)
    && multiset(s.openRisks) == multiset(t.openRisks)
    && multiset(s.unverified) == multiset(t.unverified)
  }

  lemma SameMembers<T(!new)>(a: seq<T>, b: seq<T>)
    requires multiset(a) == multiset(b)
    ensures |a| == |b| && forall x :: x in a <==> x in b
  {
    assert |a| == |multiset(a)| && |b| == |multiset(b)|;
    forall x
      ensures x in a <==> x in b
    {
      Membership(a, b, x);
    }
  }

  lemma EvidenceForgetsOrder(a: seq<string>, b: seq<string>)
    requires multiset(a) == multiset(b) && EvidenceOk(a)
    ensures EvidenceOk(b)
  {
    SameMembers(a, b);
    DistinctForgetsOrder(a, b);
  }

  lemma ArtifactsForgetOrder(a: seq<ContentRef>, b: seq<ContentRef>)
    requires multiset(a) == multiset(b) && ArtifactsOk(a)
    ensures ArtifactsOk(b)
  {
    SameMembers(a, b);
    var same := (r: ContentRef) => r;
    assert Map(same, a) == a && Map(same, b) == b;
    MapRespects(a, b, same, RefId);
    DistinctForgetsOrder(Map(RefId, a), Map(RefId, b));
  }

  lemma ResultForgetsOrder(plan: Normalized, x: BranchResult, y: BranchResult)
    requires ShapeOfResult(x) == ShapeOfResult(y)
    ensures x.ref == y.ref
    ensures BranchResultOk(plan, x) ==> BranchResultOk(plan, y)
  {
    var p, q := x.(evidence := [], artifacts := []), y.(evidence := [], artifacts := []);
    assert p == q && p.ref == q.ref && p.status == q.status;
    if BranchResultOk(plan, x) {
      EvidenceForgetsOrder(x.evidence, y.evidence);
      ArtifactsForgetOrder(x.artifacts, y.artifacts);
    }
  }

  lemma ResultsForgetOrder(plan: Normalized, a: seq<BranchResult>, b: seq<BranchResult>)
    requires multiset(Map(ShapeOfResult, a)) == multiset(Map(ShapeOfResult, b)) && BranchesOk(plan, a)
    ensures BranchesOk(plan, b)
  {
    SameLength(a, b, ShapeOfResult);
    forall y | y in b
      ensures BranchResultOk(plan, y)
    {
      var x := SameShapes(b, a, ShapeOfResult, y);
      ResultForgetsOrder(plan, x, y);
    }
    forall x, y | ShapeOfResult(x) == ShapeOfResult(y)
      ensures ResultRef(x) == ResultRef(y)
    {
      ResultForgetsOrder(plan, x, y);
    }
    MapRespects(a, b, ShapeOfResult, ResultRef);
    DistinctForgetsOrder(Map(ResultRef, a), Map(ResultRef, b));
    SameMembers(Map(ResultRef, a), Map(ResultRef, b));
  }

  lemma CriterionResultForgetsOrder(x: CriterionResult, y: CriterionResult)
    requires ShapeOfCriterionResult(x) == ShapeOfCriterionResult(y)
    ensures x.id == y.id
    ensures CriterionResultOk(x) ==> CriterionResultOk(y)
    ensures forall e :: e in x.evidence <==> e in y.evidence
  {
    var p, q := x.(evidence := []), y.(evidence := []);
    assert p == q && p.id == q.id && p.passed == q.passed;
    SameMembers(x.evidence, y.evidence);
    if CriterionResultOk(x) {
      EvidenceForgetsOrder(x.evidence, y.evidence);
    }
  }

  lemma CriterionResultsForgetOrder(plan: Normalized, a: seq<CriterionResult>, b: seq<CriterionResult>)
    requires multiset(Map(ShapeOfCriterionResult, a)) == multiset(Map(ShapeOfCriterionResult, b)) && CriteriaOk(plan, a)
    ensures CriteriaOk(plan, b)
  {
    SameLength(a, b, ShapeOfCriterionResult);
    forall y | y in b
      ensures CriterionResultOk(y)
    {
      var x := SameShapes(b, a, ShapeOfCriterionResult, y);
      CriterionResultForgetsOrder(x, y);
    }
    forall x, y | ShapeOfCriterionResult(x) == ShapeOfCriterionResult(y)
      ensures ResultId(x) == ResultId(y)
    {
      CriterionResultForgetsOrder(x, y);
    }
    MapRespects(a, b, ShapeOfCriterionResult, ResultId);
    DistinctForgetsOrder(Map(ResultId, a), Map(ResultId, b));
    SameMembers(Map(ResultId, a), Map(ResultId, b));
  }

  lemma ReviewForgetsOrder(plan: Normalized, x: Review, y: Review)
    requires ShapeOfReview(x) == ShapeOfReview(y)
    ensures x.id == y.id && x.reviewer == y.reviewer
    ensures ReviewOk(plan, x) ==> ReviewOk(plan, y)
  {
    var p, q := x.(evidence := []), y.(evidence := []);
    assert p == q && p.id == q.id && p.reviewer == q.reviewer && p.branch == q.branch && p.accepted == q.accepted;
    assert p.critical == q.critical && p.important == q.important && p.minor == q.minor;
    if ReviewOk(plan, x) {
      EvidenceForgetsOrder(x.evidence, y.evidence);
    }
  }

  lemma ReviewsForgetOrder(plan: Normalized, a: seq<Review>, b: seq<Review>)
    requires multiset(Map(ShapeOfReview, a)) == multiset(Map(ShapeOfReview, b)) && ReviewsOk(plan, a)
    ensures ReviewsOk(plan, b)
  {
    SameLength(a, b, ShapeOfReview);
    forall y | y in b
      ensures ReviewOk(plan, y)
    {
      var x := SameShapes(b, a, ShapeOfReview, y);
      ReviewForgetsOrder(plan, x, y);
    }
    forall x, y | ShapeOfReview(x) == ShapeOfReview(y)
      ensures ReviewId(x) == ReviewId(y) && ReviewerOf(x) == ReviewerOf(y)
    {
      ReviewForgetsOrder(plan, x, y);
    }
    MapRespects(a, b, ShapeOfReview, ReviewId);
    MapRespects(a, b, ShapeOfReview, ReviewerOf);
    DistinctForgetsOrder(Map(ReviewId, a), Map(ReviewId, b));
    DistinctForgetsOrder(Map(ReviewerOf, a), Map(ReviewerOf, b));
  }

  lemma CheckForgetsOrder(plan: Normalized, x: Check, y: Check)
    requires ShapeOfCheck(x) == ShapeOfCheck(y)
    ensures x.verifier == y.verifier && x.criterion == y.criterion && x.requirement == y.requirement
    ensures CheckOk(plan, x) ==> CheckOk(plan, y)
    ensures forall e :: e in x.evidence <==> e in y.evidence
  {
    var p, q := x.(evidence := []), y.(evidence := []);
    assert p == q && p.verifier == q.verifier && p.criterion == q.criterion && p.requirement == q.requirement;
    assert p.branch == q.branch && p.passed == q.passed;
    SameMembers(x.evidence, y.evidence);
    if CheckOk(plan, x) {
      EvidenceForgetsOrder(x.evidence, y.evidence);
    }
  }

  ghost predicate SameChecks(a: seq<Check>, b: seq<Check>) {
    multiset(Map(ShapeOfCheck, a)) == multiset(Map(ShapeOfCheck, b))
  }

  lemma MeetsForgetsOrder(plan: Normalized, a: seq<Check>, b: seq<Check>, criterion: string, q: Requirement)
    requires SameChecks(a, b) && Meets(a, criterion, q)
    ensures Meets(b, criterion, q)
  {
    var x :| x in a && x.criterion == criterion && x.requirement == q;
    var y := SameShapes(a, b, ShapeOfCheck, x);
    CheckForgetsOrder(plan, x, y);
  }

  lemma CitedForgetsOrder(plan: Normalized, a: seq<Check>, b: seq<Check>, criterion: string, e: string)
    requires SameChecks(a, b) && CitedFor(a, criterion, e)
    ensures CitedFor(b, criterion, e)
  {
    var x :| x in a && x.criterion == criterion && e in x.evidence;
    var y := SameShapes(a, b, ShapeOfCheck, x);
    CheckForgetsOrder(plan, x, y);
  }

  lemma CheckKeysForgetOrder(plan: Normalized, a: seq<Check>, b: seq<Check>)
    requires SameChecks(a, b)
    ensures multiset(Map(VerifierOf, a)) == multiset(Map(VerifierOf, b))
    ensures multiset(Map(CheckId, a)) == multiset(Map(CheckId, b))
    ensures multiset(Flat(CheckEvidence, a)) == multiset(Flat(CheckEvidence, b))
  {
    forall x, y | ShapeOfCheck(x) == ShapeOfCheck(y)
      ensures VerifierOf(x) == VerifierOf(y) && CheckId(x) == CheckId(y)
    {
      CheckForgetsOrder(plan, x, y);
    }
    MapRespects(a, b, ShapeOfCheck, VerifierOf);
    MapRespects(a, b, ShapeOfCheck, CheckId);
    FlatRespects(a, b, ShapeOfCheck, CheckEvidence);
  }

  lemma ChecksForgetOrder(plan: Normalized, a: seq<Check>, b: seq<Check>)
    requires SameChecks(a, b) && ChecksOk(plan, a)
    ensures ChecksOk(plan, b)
  {
    SameLength(a, b, ShapeOfCheck);
    forall y | y in b
      ensures CheckOk(plan, y)
    {
      var x := SameShapes(b, a, ShapeOfCheck, y);
      CheckForgetsOrder(plan, x, y);
    }
    CheckKeysForgetOrder(plan, a, b);
    DistinctForgetsOrder(Map(VerifierOf, a), Map(VerifierOf, b));
    DistinctForgetsOrder(Map(CheckId, a), Map(CheckId, b));
    DistinctForgetsOrder(Flat(CheckEvidence, a), Flat(CheckEvidence, b));
    forall c, q | c in plan.content.acceptance.criteria && q in c.requirements
      ensures Meets(b, c.id, q)
    {
      MeetsForgetsOrder(plan, a, b, c.id, q);
    }
  }

  lemma BoundForgetsOrder(plan: Normalized, s: Snapshot, t: Snapshot, r: CriterionResult)
    requires SameUpToOrder(s, t) && r in t.criteria
    requires forall x :: x in s.criteria ==> EvidenceBound(s.checks, x)
    ensures EvidenceBound(t.checks, r)
  {
    var x := SameShapes(t.criteria, s.criteria, ShapeOfCriterionResult, r);
    CriterionResultForgetsOrder(x, r);
    forall e
      ensures e in r.evidence <==> CitedFor(t.checks, r.id, e)
    {
      if CitedFor(s.checks, x.id, e) {
        CitedForgetsOrder(plan, s.checks, t.checks, x.id, e);
      }
      if CitedFor(t.checks, x.id, e) {
        CitedForgetsOrder(plan, t.checks, s.checks, x.id, e);
      }
    }
  }

  lemma SnapshotForgetsOrder(plan: Normalized, s: Snapshot, t: Snapshot)
    requires SameUpToOrder(s, t) && SnapshotOk(plan, s)
    ensures SnapshotOk(plan, t)
  {
    ResultsForgetOrder(plan, s.branches, t.branches);
    CriterionResultsForgetOrder(plan, s.criteria, t.criteria);
    ReviewsForgetOrder(plan, s.reviews, t.reviews);
    ChecksForgetOrder(plan, s.checks, t.checks);
    SameMembers(s.pendingAttention, t.pendingAttention);
    SameMembers(s.openRisks, t.openRisks);
    SameMembers(s.unverified, t.unverified);
    forall r | r in t.criteria
      ensures EvidenceBound(t.checks, r)
    {
      BoundForgetsOrder(plan, s, t, r);
    }
  }

  lemma SameUpToOrderIsSymmetric(s: Snapshot, t: Snapshot)
    requires SameUpToOrder(s, t)
    ensures SameUpToOrder(t, s)
  {
  }

  lemma VerdictForgetsOrder(i: Input, j: Input, s: Snapshot, t: Snapshot)
    requires ShapeOf(i.content) == ShapeOf(j.content) && i.planHash == j.planHash && i.snapshotId == j.snapshotId
    requires SameUpToOrder(s, t) && Acceptable(i, s)
    ensures Acceptable(j, t)
  {
    OrderDoesNotMatter(i.content, j.content);
    SnapshotForgetsOrder(NormalForm(i.content), s, t);
  }

  /** The verdict depends on neither the plan's list orders nor the snapshot's. */
  lemma OrderNeverDecides(i: Input, j: Input, s: Snapshot, t: Snapshot)
    requires ShapeOf(i.content) == ShapeOf(j.content) && i.planHash == j.planHash && i.snapshotId == j.snapshotId
    requires SameUpToOrder(s, t)
    ensures Acceptable(i, s) <==> Acceptable(j, t)
  {
    if Acceptable(i, s) {
      VerdictForgetsOrder(i, j, s, t);
    } else if Acceptable(j, t) {
      SameUpToOrderIsSymmetric(s, t);
      VerdictForgetsOrder(j, i, t, s);
    }
  }
}

/**
 One run of one reactor that claims an effect, begins its send and enters the provider: the safety result is not
 empty.
 */
module ReactorWitness {
  import opened Basics
  import opened Outbox
  import opened Boundary
  import opened Reactor
  import R = Reactor
  import O = Outbox

  ghost predicate Reachable(cfg: Config, f: Fleet) {
    exists run, moves :: R.IsRun(cfg, run, moves) && run[|moves|] == f
  }

  lemma Reach(cfg: Config, f: Fleet, m: R.Move, g: Fleet)
    requires Reachable(cfg, f) && R.Next(cfg, f, m, g)
    ensures Reachable(cfg, g)
  {
    var run, moves :| R.IsRun(cfg, run, moves) && run[|moves|] == f;
    var longer, more := run + [g], moves + [m];
    forall i | 0 <= i < |more|
      ensures R.Next(cfg, longer[i], more[i], longer[i + 1])
    {
      if i < |moves| {
        assert R.Next(cfg, run[i], moves[i], run[i + 1]);
      }
    }
    assert R.IsRun(cfg, longer, more) && longer[|more|] == g;
  }

  // ---- the three batches of the run and what they replay to

  const Fresh := EffectState(Pending, None, 0, None, [], 10, 0)
  const Held := Token(LeaseId(7, "e"), "owner", 1)
  const Grant := Lease(Held, 0, 0, 10)
  const Leasing := EffectState(Claimed, Some(Grant), 1, Some(LeaseId(7, "e")), [Held], 10, 0)
  const Underway := EffectState(Sending, Some(Grant), 1, Some(LeaseId(7, "e")), [Held], 10, 1)

  const Queued := Batch(ChosenId("c"), 0, Identity(Command, OfEnvelope("start"), "user"), [Enqueued("e", 10, 0)],
                        Reply("ok"))
  const Claiming1 := Batch(ClaimId(7, "e", 1), 1,
                           Identity(InternalAction, OfAction(ClaimAction("e", LeaseId(7, "e"), "owner"), 0), "worker"),
                           [ClaimedBy("e", Grant, 0)], Leased("e", Claimed, Held))
  const Sending1 := Batch(SendId("e", Held), 2,
                          Identity(InternalAction, OfAction(SendBeginAction("e", Held), 0), "worker"),
                          [SendBegun("e", Held, 1)], Leased("e", Sending, Held))

  const Settings := Config("owner", "worker", 3)

  lemma FirstReplay()
    ensures Events([Queued]) == [Enqueued("e", 10, 0)] && Replay(Events([Queued])) == Some(map["e" := Fresh])
  {
    EventsAppend([], Queued);
    assert [] + [Queued] == [Queued];
    assert Replay([]) == Some(map[]);
    var evs := [Enqueued("e", 10, 0)];
    assert evs[..0] == [];
    assert Replay(evs) == Apply(map[], evs[0]);
  }

  lemma SecondReplay()
    ensures Events([Queued, Claiming1]) == [Enqueued("e", 10, 0), ClaimedBy("e", Grant, 0)]
    ensures Replay(Events([Queued, Claiming1])) == Some(map["e" := Leasing])
  {
    FirstReplay();
    EventsAppend([Queued], Claiming1);
    assert [Queued] + [Claiming1] == [Queued, Claiming1];
    var evs := Events([Queued, Claiming1]);
    assert evs[..1] == Events([Queued]);
    assert Fresh.history + [Held] == [Held];
    assert O.Move(Fresh, evs[1]) == Some(Leasing);
    assert map["e" := Fresh]["e" := Leasing] == map["e" := Leasing];
    assert Replay(evs) == Apply(map["e" := Fresh], evs[1]);
  }

  lemma ThirdReplay()
    ensures Events([Queued, Claiming1, Sending1]) == [Enqueued("e", 10, 0), ClaimedBy("e", Grant, 0),
                                                      SendBegun("e", Held, 1)]
    ensures Replay(Events([Queued, Claiming1, Sending1])) == Some(map["e" := Underway])
  {
    SecondReplay();
    EventsAppend([Queued, Claiming1], Sending1);
    assert [Queued, Claiming1] + [Sending1] == [Queued, Claiming1, Sending1];
    var evs := Events([Queued, Claiming1, Sending1]);
    assert evs[..2] == Events([Queued, Claiming1]);
    assert O.Move(Leasing, evs[2]) == Some(Underway);
    assert map["e" := Leasing]["e" := Underway] == map["e" := Underway];
    assert Replay(evs) == Apply(map["e" := Leasing], evs[2]);
  }

  // ---- the run

  function At(j: Journal, claims: map<EffectId, Token>, phase: Phase): Fleet {
    Fleet(j, map[7 := Reactor(claims, phase)], [])
  }

  /** A step of the reactor that enters nothing. */
  lemma Reacts(j: Journal, claims: map<EffectId, Token>, phase: Phase, step: Step,
               j': Journal, claims': map<EffectId, Token>, phase': Phase)
    requires Reachable(Settings, At(j, claims, phase))
    requires ReactorStep(Settings, 7, j, Reactor(claims, phase), step, j', Reactor(claims', phase'), [])
    ensures Reachable(Settings, At(j', claims', phase'))
  {
    var f, g := At(j, claims, phase), At(j', claims', phase');
    assert g.reactors == f.reactors[7 := g.reactors[7]];
    assert g.entries[|f.entries|..] == [];
    Reach(Settings, f, React(7, step), g);
  }

  function ClaimRunning(pc: Pc): Running {
    Running(Call(InternalActions, ClaimId(7, "e", 1), OfAction(ClaimAction("e", LeaseId(7, "e"), "owner"), 0),
                 "worker"), pc)
  }

  function SendRunning(pc: Pc): Running {
    Running(Call(InternalActions, SendId("e", Held), OfAction(SendBeginAction("e", Held), 0), "worker"), pc)
  }

  lemma EffectIsQueued()
    ensures Reachable(Settings, At([Queued], map[], Idle))
  {
    var empty := Fleet([], map[], []);
    assert R.IsRun(Settings, [empty], []) && [empty][0] == empty;
    assert Events([]) == [] && [] + Queued.events == [Enqueued("e", 10, 0)];
    FirstReplay();
    assert [] + [Queued] == [Queued];
    Reach(Settings, empty, Elsewhere(Queued), Fleet([Queued], map[], []));
    var g := At([Queued], map[], Idle);
    assert g.reactors == map[][7 := Reactor(map[], Idle)];
    Reach(Settings, Fleet([Queued], map[], []), Start(7), g);
  }

  lemma ClaimIsPrepared()
    ensures Reachable(Settings, At([Queued], map[], Claiming("e", Held, ClaimRunning(Candidate(0, 1)))))
  {
    EffectIsQueued();
    FirstReplay();
    var j := [Queued];
    Reacts(j, map[], Idle, PlanClaim("e", 0), j, map[], Claiming("e", Held, ClaimRunning(Begin(0))));
    assert !Contains(j, ClaimId(7, "e", 1));
    Reacts(j, map[], Claiming("e", Held, ClaimRunning(Begin(0))), CallBoundary(Candidate(0, 1)),
           j, map[], Claiming("e", Held, ClaimRunning(Candidate(0, 1))));
  }

  lemma ClaimIsOffered()
    ensures CallStep(ClaimRunning(Begin(0)).call, 3, [Queued], Candidate(0, 1), [Queued, Claiming1],
                     Returned(Claiming1.result))
  {
    FirstReplay();
    SecondReplay();
    var j, k, call := [Queued], [Queued, Claiming1], ClaimRunning(Begin(0)).call;
    assert j[..1] == j && Events(j) + Claiming1.events == Events(k);
    assert Offers(call, j, 1, Claiming1) && k == j + [Claiming1];
    assert !Contains(j, ClaimId(7, "e", 1));
    assert AfterCommit(call, 3, j, 0, Claiming1, k, Returned(Claiming1.result));
  }

  lemma EffectIsClaimed()
    ensures Reachable(Settings, At([Queued, Claiming1], map["e" := Held], Idle))
  {
    ClaimIsPrepared();
    ClaimIsOffered();
    var j, k := [Queued], [Queued, Claiming1];
    Reacts(j, map[], Claiming("e", Held, ClaimRunning(Candidate(0, 1))), CallBoundary(Returned(Claiming1.result)),
           k, map[], Claiming("e", Held, ClaimRunning(Returned(Claiming1.result))));
    Reacts(k, map[], Claiming("e", Held, ClaimRunning(Returned(Claiming1.result))), BoundaryDone,
           k, map[]["e" := Held], Idle);
    assert map[]["e" := Held] == map["e" := Held];
  }

  lemma SendIsPrepared()
    ensures Reachable(Settings,
                      At([Queued, Claiming1], map["e" := Held], BeginningSend("e", Held, SendRunning(Candidate(0, 2)))))
  {
    EffectIsClaimed();
    SecondReplay();
    var j, claims := [Queued, Claiming1], map["e" := Held];
    Reacts(j, claims, Idle, PlanSend("e", 0, 1), j, claims, BeginningSend("e", Held, SendRunning(Begin(0))));
    assert !Contains(j, SendId("e", Held));
    Reacts(j, claims, BeginningSend("e", Held, SendRunning(Begin(0))), CallBoundary(Candidate(0, 2)),
           j, claims, BeginningSend("e", Held, SendRunning(Candidate(0, 2))));
  }

  lemma SendIsOffered()
    ensures CallStep(SendRunning(Begin(0)).call, 3, [Queued, Claiming1], Candidate(0, 2),
                     [Queued, Claiming1, Sending1], Returned(Sending1.result))
  {
    ThirdReplay();
    SecondReplay();
    var j, k, call := [Queued, Claiming1], [Queued, Claiming1, Sending1], SendRunning(Begin(0)).call;
    assert j[..2] == j && Events(j) + Sending1.events == Events(k);
    assert Offers(call, j, 2, Sending1) && k == j + [Sending1];
    assert !Contains(j, SendId("e", Held));
    assert AfterCommit(call, 3, j, 0, Sending1, k, Returned(Sending1.result));
  }

  lemma SendIsRecorded()
    ensures Reachable(Settings, At([Queued, Claiming1, Sending1], map["e" := Held] - {"e"}, SendRecorded("e", Held)))
  {
    SendIsPrepared();
    ThirdReplay();
    var j, k, claims := [Queued, Claiming1], [Queued, Claiming1, Sending1], map["e" := Held];
    SendIsOffered();
    Reacts(j, claims, BeginningSend("e", Held, SendRunning(Candidate(0, 2))), CallBoundary(Returned(Sending1.result)),
           k, claims, BeginningSend("e", Held, SendRunning(Returned(Sending1.result))));
    Reacts(k, claims, BeginningSend("e", Held, SendRunning(Returned(Sending1.result))), BoundaryDone,
           k, claims - {"e"}, SendRecorded("e", Held));
  }

  /** The provider can be entered. */
  lemma ProviderCanBeEntered()
    ensures exists f :: Reachable(Settings, f) && f.entries == [Entry(7, "e", Held)]
  {
    SendIsRecorded();
    ThirdReplay();
    var j, claims := [Queued, Claiming1, Sending1], map["e" := Held] - {"e"};
    Reacts(j, claims, SendRecorded("e", Held), Authorize, j, claims, Authorized("e", Held));
    var f := At(j, claims, Authorized("e", Held));
    var g := Fleet(j, f.reactors[7 := Reactor(claims, Idle)], [Entry(7, "e", Held)]);
    assert g.entries[..0] == [] && g.entries[0..] == [Entry(7, "e", Held)];
    Reach(Settings, f, React(7, EnterProvider(2)), g);
  }
}

/**
 * The reaper selects ids in an unlocked subquery and updates them by id. When other transactions commit between
 * the two, a finished job can fall back to RETRY; the ledger does not notice.
 */
module SplitSweep {
  import opened Domain
  import opened Submission
  import opened Delivery
  import opened Protocol
  import opened Safety

  /** Exactly when a delayed update breaks the coupling: some selected job finished in the meantime. */
  lemma LateUpdateKeepsCouplingIff(cfg: Config, w: World, ids: set<nat>)
    requires cfg.Valid() && Consistent(w.store) && Possible(w, ReapUpdate(ids))
    ensures Consistent(Step(cfg, w, ReapUpdate(ids)).store) <==>
            forall i :: i in ids && i < |w.store.jobs| ==> !w.store.jobs[i].status.Terminal()
  {
    var s, s' := w.store, Step(cfg, w, ReapUpdate(ids)).store;
    StepRefines(cfg, w, ReapUpdate(ids));
    if forall i :: i in ids && i < |s.jobs| ==> !s.jobs[i].status.Terminal() {
      JobsOnlyPerforms(s, s'.jobs);
    } else {
      var i :| i in ids && i < |s.jobs| && s.jobs[i].status.Terminal();
      assert Coupled(s.jobs[i], s.messages[i]);
      assert s'.jobs[i].status == Retry && s'.messages[i] == s.messages[i];
      assert !Coupled(s'.jobs[i], s'.messages[i]);
    }
  }

  /** One message is submitted, delivered by worker 7, and swept by an update that was selected before the outcome. */
  function Mishap(cfg: Config): seq<Action> {
    [ CreateUser(1),
      AddCredits(1, cfg.costNormal),
      Submit(1, TheItem()),
      RelayClaim(0, Normal, {0}),
      WorkerClaim(7, 0),
      Tick(121.0),
      ReapSelect(Normal, {0}),
      WorkerRecord(7, ProviderResult(Success, Some("id")), 0.0),
      ReapUpdate({0}),
      RelayClaim(0, Normal, {0}) ]
  }

  function TheItem(): Item {
    Item("r", "b", Normal, 0)
  }

  // The worlds the mishap passes through.

  function Funded(cfg: Config, start: real): World {
    World(start, Store(map[1 := BalanceRow(cfg.costNormal, 0)], [], []), map[], multiset{})
  }

  function Submitted(cfg: Config, start: real): World {
    World(start,
          Store(map[1 := BalanceRow(cfg.costNormal, cfg.costNormal)],
                [NewMessage(cfg, 1, TheItem(), start)],
                [NewJob(0, 1, TheItem(), start)]),
          map[], multiset{})
  }

  function Taken(cfg: Config, start: real): World {
    World(start,
          Store(map[1 := BalanceRow(cfg.costNormal, cfg.costNormal)],
                [MessageDispatching(NewMessage(cfg, 1, TheItem(), start))],
                [JobDispatching(JobClaimed(NewJob(0, 1, TheItem(), start), 0, start), 7, start)]),
          map[7 := Sending(0)], multiset{})
  }

  function Selected(cfg: Config, start: real): World {
    Taken(cfg, start).(now := start + 121.0, sweeps := multiset{{0}})
  }

  /** The outcome is recorded; the sweep still holds the job's id. */
  function Finished(cfg: Config, start: real): World {
    var w := Taken(cfg, start);
    World(start + 121.0,
          Store(map[1 := BalanceRow(0, 0)],
                [MessageSent(w.store.messages[0])],
                [JobCompleted(w.store.jobs[0], "id", start + 121.0)]),
          map[7 := Ended], multiset{{0}})
  }

  function FallenBack(cfg: Config, start: real): World {
    var w := Finished(cfg, start);
    w.(store := w.store.(jobs := [JobClaimed(JobReaped(w.store.jobs[0], w.now), 0, w.now)]), sweeps := multiset{})
  }

  lemma ReachesFunded(cfg: Config, start: real)
    requires cfg.Valid()
    ensures Next(cfg, Next(cfg, Initial(start), CreateUser(1)), AddCredits(1, cfg.costNormal)) == Funded(cfg, start)
  {
  }

  lemma ReachesSubmitted(cfg: Config, start: real)
    requires cfg.Valid()
    ensures Next(cfg, Funded(cfg, start), Submit(1, TheItem())) == Submitted(cfg, start)
  {
    var w := Next(cfg, Funded(cfg, start), Submit(1, TheItem()));
    assert w.store.balances == map[1 := BalanceRow(cfg.costNormal, cfg.costNormal)];
    assert w.store.messages == [NewMessage(cfg, 1, TheItem(), start)];
    assert w.store.jobs == [NewJob(0, 1, TheItem(), start)];
  }

  lemma ReachesTaken(cfg: Config, start: real)
    requires cfg.Valid()
    ensures Next(cfg, Next(cfg, Submitted(cfg, start), RelayClaim(0, Normal, {0})), WorkerClaim(7, 0))
         == Taken(cfg, start)
  {
    var w := Next(cfg, Submitted(cfg, start), RelayClaim(0, Normal, {0}));
    assert w.store.jobs == [JobClaimed(NewJob(0, 1, TheItem(), start), 0, start)];
    var w' := Next(cfg, w, WorkerClaim(7, 0));
    assert w'.store.messages == Taken(cfg, start).store.messages;
    assert w'.store.jobs == Taken(cfg, start).store.jobs;
  }

  lemma ReachesSelected(cfg: Config, start: real)
    requires cfg.Valid()
    ensures Next(cfg, Next(cfg, Taken(cfg, start), Tick(121.0)), ReapSelect(Normal, {0})) == Selected(cfg, start)
  {
  }

  lemma ReachesFinished(cfg: Config, start: real)
    requires cfg.Valid()
    ensures Next(cfg, Selected(cfg, start), WorkerRecord(7, ProviderResult(Success, Some("id")), 0.0))
         == Finished(cfg, start)
  {
    var w := Next(cfg, Selected(cfg, start), WorkerRecord(7, ProviderResult(Success, Some("id")), 0.0));
    assert w.store.balances == map[1 := BalanceRow(0, 0)];
    assert w.store.messages == Finished(cfg, start).store.messages;
    assert w.store.jobs == Finished(cfg, start).store.jobs;
  }

  lemma ReachesFallenBack(cfg: Config, start: real)
    requires cfg.Valid()
    ensures Next(cfg, Next(cfg, Finished(cfg, start), ReapUpdate({0})), RelayClaim(0, Normal, {0}))
         == FallenBack(cfg, start)
  {
    var w := Next(cfg, Finished(cfg, start), ReapUpdate({0}));
    assert w.store.jobs == [JobReaped(Finished(cfg, start).store.jobs[0], start + 121.0)];
    assert Next(cfg, w, RelayClaim(0, Normal, {0})).store.jobs == FallenBack(cfg, start).store.jobs;
  }

  lemma TwoSteps(cfg: Config, w: World, actions: seq<Action>, k: nat)
    requires k + 1 < |actions|
    ensures Run(cfg, w, actions[..k + 2])
         == Next(cfg, Next(cfg, Run(cfg, w, actions[..k]), actions[k]), actions[k + 1])
  {
    RunStep(cfg, w, actions, k);
    RunStep(cfg, w, actions, k + 1);
  }

  lemma MishapOpens(cfg: Config, start: real)
    requires cfg.Valid()
    ensures Run(cfg, Initial(start), Mishap(cfg)[..2]) == Funded(cfg, start)
  {
    assert Mishap(cfg)[..0] == [];
    TwoSteps(cfg, Initial(start), Mishap(cfg), 0);
    ReachesFunded(cfg, start);
  }

  lemma MishapSubmits(cfg: Config, start: real)
    requires cfg.Valid()
    ensures Run(cfg, Initial(start), Mishap(cfg)[..3]) == Submitted(cfg, start)
  {
    MishapOpens(cfg, start);
    RunStep(cfg, Initial(start), Mishap(cfg), 2);
    ReachesSubmitted(cfg, start);
  }

  lemma MishapBegins(cfg: Config, start: real)
    requires cfg.Valid()
    ensures Run(cfg, Initial(start), Mishap(cfg)[..5]) == Taken(cfg, start)
  {
    MishapSubmits(cfg, start);
    TwoSteps(cfg, Initial(start), Mishap(cfg), 3);
    ReachesTaken(cfg, start);
  }

  lemma MishapContinues(cfg: Config, start: real)
    requires cfg.Valid()
    ensures Run(cfg, Initial(start), Mishap(cfg)[..8]) == Finished(cfg, start)
  {
    var a, w0 := Mishap(cfg), Initial(start);
    MishapBegins(cfg, start);
    TwoSteps(cfg, w0, a, 5);
    ReachesSelected(cfg, start);
    RunStep(cfg, w0, a, 7);
    ReachesFinished(cfg, start);
  }

  lemma MishapEnds(cfg: Config, start: real)
    requires cfg.Valid()
    ensures Run(cfg, Initial(start), Mishap(cfg)) == FallenBack(cfg, start)
  {
    var a, w0 := Mishap(cfg), Initial(start);
    MishapContinues(cfg, start);
    TwoSteps(cfg, w0, a, 8);
    ReachesFallenBack(cfg, start);
    assert a[..10] == a;
  }

  /**
   * Property 3, the reachable mishap. A job whose message is SENT and DEDUCTED is back in RETRY and claimed again,
   * and the next worker that picks it up runs into the "payment is not reserved" error instead of sending.
   */
  lemma FinishedJobCanFallBack(cfg: Config, start: real)
    requires cfg.Valid()
    ensures var w := Run(cfg, Initial(start), Mishap(cfg));
      && w.store.balances == map[1 := BalanceRow(0, 0)]
      && w.store.messages == [MessageSent(NewMessage(cfg, 1, TheItem(), start))]
      && |w.store.jobs| == 1
      && w.store.jobs[0].status == Retry
      && ClaimForDelivery(cfg, w.store, 0, 8, w.now) == (w.store, PaymentNotReserved)
  {
    MishapEnds(cfg, start);
    assert MessageSent(MessageDispatching(NewMessage(cfg, 1, TheItem(), start)))
        == MessageSent(NewMessage(cfg, 1, TheItem(), start));
  }
}

/**
 * The other half of RetryDeadline: whatever its condition calls feasible really happens. One express message waits out
 * u retries, stalls for 121 seconds while h sweeps select it, and then collects h + 1 more retries within one moment,
 * each of the h sweeps cutting one wait.
 */
module HurriedRetries {
  import opened Domain
  import opened Submission
  import opened Delivery
  import opened Outbox
  import opened Protocol
  import opened JobHistory
  import opened Budgets
  import opened RetryDeadline

  /** The story has one express message, `age` seconds old, and `pending` sweeps holding its job's id. */
  ghost predicate Stage(w: World, start: real, age: nat, attempts: nat, pending: nat) {
    && w.now == start + age as real
    && |w.store.jobs| == 1
    && |w.store.messages| == 1
    && w.store.jobs[0].messageId == 0
    && w.store.jobs[0].priority == Express
    && w.store.jobs[0].deliveryAttempts == attempts
    && w.store.messages[0].priority == Express
    && w.store.messages[0].createdAt == start
    && w.store.messages[0].payment == Reserved
    && w.sweeps[{0}] == pending
  }

  /** Due in the outbox, after `retries` retries by workers 0, 1, ... */
  ghost predicate Ready(w: World, start: real, age: nat, attempts: nat, pending: nat, retries: nat) {
    && Stage(w, start, age, attempts, pending)
    && w.store.jobs[0].status.Waiting()
    && w.store.jobs[0].lockedAt.None?
    && w.store.jobs[0].availableAt <= w.now
    && (forall x :: x in w.calls ==> x < retries)
  }

  /** With the next worker, which took it `held` seconds ago. */
  ghost predicate Out(w: World, start: real, age: nat, attempts: nat, pending: nat, retries: nat, held: real) {
    && Stage(w, start, age, attempts, pending)
    && w.store.jobs[0].status == JobStatus.Dispatching
    && w.store.jobs[0].lockedBy == Some(Worker(retries))
    && w.store.jobs[0].lockedAt == Some(w.now - held)
    && retries in w.calls && w.calls[retries] == Sending(0)
    && (forall x :: x in w.calls ==> x <= retries)
  }

  /** The worker may still record one more retry. */
  predicate Room(cfg: Config, age: nat, attempts: nat) {
    && cfg.Valid()
    && cfg.expressTtl.Some?
    && attempts + 1 < cfg.maxAttempts
    && age + Backoff(attempts + 1) <= cfg.expressTtl.value
  }

  // ---------------------------------------------------------------- the moves

  function Fail(worker: nat): Action {
    WorkerRecord(worker, ProviderResult(TemporaryFailure, None), 0.0)
  }

  lemma ClaimMove(cfg: Config, w: World, start: real, age: nat, attempts: nat, pending: nat, retries: nat)
    requires Ready(w, start, age, attempts, pending, retries)
    ensures var a := RelayClaim(0, Express, {0});
            var w' := Next(cfg, w, a);
      && Possible(w, a) && !JobEventOf(cfg, w, a, 0).DeliveryRetry?
      && Stage(w', start, age, attempts, pending)
      && w'.calls == w.calls
      && w'.store.jobs[0] == JobClaimed(w.store.jobs[0], 0, w.now)
  {
    assert Eligible(w.store.jobs[0], Express, w.now);
  }

  lemma TakeMove(cfg: Config, w: World, start: real, age: nat, attempts: nat, pending: nat, retries: nat)
    requires cfg.expressTtl.Some? && age <= cfg.expressTtl.value
    requires Stage(w, start, age, attempts, pending) && (forall x :: x in w.calls ==> x < retries)
    requires w.store.jobs[0].status.Waiting() && w.store.jobs[0].lockedAt.Some? && w.store.jobs[0].lockedBy.Some?
    ensures var a := WorkerClaim(retries, 0);
      && Possible(w, a) && !JobEventOf(cfg, w, a, 0).DeliveryRetry?
      && Out(Next(cfg, w, a), start, age, attempts, pending, retries, 0.0)
  {
    assert !DeadlineExceeded(cfg, w.store.messages[0], w.now, 0.0);
  }

  lemma FailMove(cfg: Config, w: World, start: real, age: nat, attempts: nat, pending: nat, retries: nat, held: real)
    requires Out(w, start, age, attempts, pending, retries, held) && Room(cfg, age, attempts)
    ensures var w' := Next(cfg, w, Fail(retries));
      && Possible(w, Fail(retries)) && JobEventOf(cfg, w, Fail(retries), 0).DeliveryRetry?
      && Stage(w', start, age, attempts + 1, pending)
      && w'.store.jobs[0] == JobDeliveryRetry(w.store.jobs[0], Backoff(attempts + 1) as real, w.now)
      && (forall x :: x in w'.calls ==> x < retries + 1)
  {
    assert !GivesUp(cfg, w.store.messages[0], attempts, w.now, 0.0);
    assert Backoff(attempts + 1) as real + 0.0 == Backoff(attempts + 1) as real;
  }

  lemma WaitMove(cfg: Config, w: World, start: real, age: nat, attempts: nat, pending: nat, retries: nat, seconds: nat)
    requires Stage(w, start, age, attempts, pending) && (forall x :: x in w.calls ==> x < retries)
    requires w.store.jobs[0].status == Retry && w.store.jobs[0].lockedAt.None?
    requires w.store.jobs[0].availableAt <= w.now + seconds as real
    ensures var a := Tick(seconds as real);
      && Possible(w, a) && !JobEventOf(cfg, w, a, 0).DeliveryRetry?
      && Ready(Next(cfg, w, a), start, age + seconds, attempts, pending, retries)
  {
  }

  lemma StallMove(cfg: Config, w: World, start: real, age: nat, attempts: nat, pending: nat, retries: nat)
    requires Out(w, start, age, attempts, pending, retries, 0.0)
    ensures var a := Tick(121.0);
      && Possible(w, a) && !JobEventOf(cfg, w, a, 0).DeliveryRetry?
      && Out(Next(cfg, w, a), start, age + 121, attempts, pending, retries, 121.0)
  {
  }

  lemma SelectMove(cfg: Config, w: World, start: real, age: nat, attempts: nat, pending: nat, retries: nat)
    requires Out(w, start, age, attempts, pending, retries, 121.0)
    ensures var a := ReapSelect(Express, {0});
      && Possible(w, a) && !JobEventOf(cfg, w, a, 0).DeliveryRetry?
      && Out(Next(cfg, w, a), start, age, attempts, pending + 1, retries, 121.0)
  {
    assert Stale(w.store.jobs[0], Express, w.now);
  }

  lemma CutMove(cfg: Config, w: World, start: real, age: nat, attempts: nat, pending: nat, retries: nat)
    requires Stage(w, start, age, attempts, pending) && 0 < pending
    requires forall x :: x in w.calls ==> x < retries
    ensures var a := ReapUpdate({0});
      && Possible(w, a) && !JobEventOf(cfg, w, a, 0).DeliveryRetry?
      && Ready(Next(cfg, w, a), start, age, attempts + 1, pending - 1, retries)
  {
  }

  // ---------------------------------------------------------------- runs

  lemma OneMoreAction(cfg: Config, w: World, actions: seq<Action>, a: Action)
    requires Possible(Run(cfg, w, actions), a)
    ensures Run(cfg, w, actions + [a]) == Next(cfg, Run(cfg, w, actions), a)
    ensures Retries(cfg, w, actions + [a], 0) == Retries(cfg, w, actions, 0)
              + if JobEventOf(cfg, Run(cfg, w, actions), a, 0).DeliveryRetry? then 1 else 0
  {
    assert (actions + [a])[..|actions|] == actions;
    RetriesOneMore(cfg, w, actions + [a], 0);
  }

  ghost predicate ReadyAfter(cfg: Config, start: real, actions: seq<Action>, age: nat, attempts: nat, pending: nat,
                             retries: nat)
  {
    && Ready(Run(cfg, Initial(start), actions), start, age, attempts, pending, retries)
    && Retries(cfg, Initial(start), actions, 0) == retries
  }

  ghost predicate OutAfter(cfg: Config, start: real, actions: seq<Action>, age: nat, attempts: nat, pending: nat,
                           retries: nat, held: real)
  {
    && Out(Run(cfg, Initial(start), actions), start, age, attempts, pending, retries, held)
    && Retries(cfg, Initial(start), actions, 0) == retries
  }

  lemma Send(cfg: Config, start: real, actions: seq<Action>, age: nat, attempts: nat, pending: nat, retries: nat)
    returns (more: seq<Action>)
    requires cfg.expressTtl.Some? && age <= cfg.expressTtl.value
    requires ReadyAfter(cfg, start, actions, age, attempts, pending, retries)
    ensures OutAfter(cfg, start, more, age, attempts, pending, retries, 0.0)
  {
    var w := Run(cfg, Initial(start), actions);
    ClaimMove(cfg, w, start, age, attempts, pending, retries);
    OneMoreAction(cfg, Initial(start), actions, RelayClaim(0, Express, {0}));
    more := actions + [RelayClaim(0, Express, {0})];
    TakeMove(cfg, Run(cfg, Initial(start), more), start, age, attempts, pending, retries);
    OneMoreAction(cfg, Initial(start), more, WorkerClaim(retries, 0));
    more := more + [WorkerClaim(retries, 0)];
  }

  /** Fail, and wait the backoff out. */
  lemma RetryAndWait(cfg: Config, start: real, actions: seq<Action>, age: nat, attempts: nat, retries: nat)
    returns (more: seq<Action>)
    requires Room(cfg, age, attempts) && OutAfter(cfg, start, actions, age, attempts, 0, retries, 0.0)
    ensures ReadyAfter(cfg, start, more, age + Backoff(attempts + 1), attempts + 1, 0, retries + 1)
  {
    var seconds := Backoff(attempts + 1);
    FailMove(cfg, Run(cfg, Initial(start), actions), start, age, attempts, 0, retries, 0.0);
    OneMoreAction(cfg, Initial(start), actions, Fail(retries));
    more := actions + [Fail(retries)];
    WaitMove(cfg, Run(cfg, Initial(start), more), start, age, attempts + 1, 0, retries + 1, seconds);
    OneMoreAction(cfg, Initial(start), more, Tick(seconds as real));
    more := more + [Tick(seconds as real)];
  }

  /** Fail, and have a pending sweep cut the wait. */
  lemma RetryAndCut(cfg: Config, start: real, actions: seq<Action>, age: nat, attempts: nat, pending: nat, retries: nat,
                    held: real)
    returns (more: seq<Action>)
    requires Room(cfg, age, attempts) && 0 < pending
    requires OutAfter(cfg, start, actions, age, attempts, pending, retries, held)
    ensures ReadyAfter(cfg, start, more, age, attempts + 2, pending - 1, retries + 1)
  {
    FailMove(cfg, Run(cfg, Initial(start), actions), start, age, attempts, pending, retries, held);
    OneMoreAction(cfg, Initial(start), actions, Fail(retries));
    more := actions + [Fail(retries)];
    CutMove(cfg, Run(cfg, Initial(start), more), start, age, attempts + 1, pending, retries + 1);
    OneMoreAction(cfg, Initial(start), more, ReapUpdate({0}));
    more := more + [ReapUpdate({0})];
  }

  function Opening(cfg: Config): seq<Action> {
    [CreateUser(1), AddCredits(1, cfg.costExpress), Submit(1, Item("r", "b", Express, 0))]
  }

  lemma OpeningStores(cfg: Config, start: real)
    requires cfg.Valid()
    ensures Ready(Run(cfg, Initial(start), Opening(cfg)), start, 0, 0, 0, 0)
  {
    var a, w := Opening(cfg), Initial(start);
    assert a[..0] == [] && a[..3] == a;
    RunStep(cfg, w, a, 0);
    RunStep(cfg, w, a, 1);
    var w2 := Run(cfg, w, a[..2]);
    assert w2 == World(start, Store(map[1 := BalanceRow(cfg.costExpress, 0)], [], []), map[], multiset{});
    RunStep(cfg, w, a, 2);
  }

  lemma {:induction false} NoRecordNoRetry(cfg: Config, w: World, actions: seq<Action>)
    requires forall k :: 0 <= k < |actions| ==> !actions[k].WorkerRecord?
    ensures Retries(cfg, w, actions, 0) == 0
  {
    if actions != [] {
      NoRecordNoRetry(cfg, w, actions[..|actions| - 1]);
      RetriesOneMore(cfg, w, actions, 0);
    }
  }

  /** u retries, each waited out in full. */
  lemma {:induction false} Waits(cfg: Config, start: real, u: nat) returns (actions: seq<Action>)
    requires cfg.Valid() && cfg.expressTtl.Some? && u < cfg.maxAttempts && BackoffSum(u) <= cfg.expressTtl.value
    ensures ReadyAfter(cfg, start, actions, BackoffSum(u), u, 0, u)
  {
    if u == 0 {
      actions := Opening(cfg);
      OpeningStores(cfg, start);
      NoRecordNoRetry(cfg, Initial(start), actions);
    } else {
      actions := Waits(cfg, start, u - 1);
      actions := Send(cfg, start, actions, BackoffSum(u - 1), u - 1, 0, u - 1);
      actions := RetryAndWait(cfg, start, actions, BackoffSum(u - 1), u - 1, u - 1);
    }
  }

  /** Then the next worker is silent for 121 seconds, and h sweeps select its job. */
  lemma {:induction false} Stalls(cfg: Config, start: real, u: nat, h: nat) returns (actions: seq<Action>)
    requires cfg.Valid() && cfg.expressTtl.Some? && u < cfg.maxAttempts && BackoffSum(u) <= cfg.expressTtl.value
    ensures OutAfter(cfg, start, actions, BackoffSum(u) + 121, u, h, u, 121.0)
  {
    if h == 0 {
      actions := Waits(cfg, start, u);
      actions := Send(cfg, start, actions, BackoffSum(u), u, 0, u);
      StallMove(cfg, Run(cfg, Initial(start), actions), start, BackoffSum(u), u, 0, u);
      OneMoreAction(cfg, Initial(start), actions, Tick(121.0));
      actions := actions + [Tick(121.0)];
    } else {
      actions := Stalls(cfg, start, u, h - 1);
      SelectMove(cfg, Run(cfg, Initial(start), actions), start, BackoffSum(u) + 121, u, h - 1, u);
      OneMoreAction(cfg, Initial(start), actions, ReapSelect(Express, {0}));
      actions := actions + [ReapSelect(Express, {0})];
    }
  }

  /** One cut, and the job is out again. */
  lemma CutOnce(cfg: Config, start: real, actions: seq<Action>, age: nat, attempts: nat, pending: nat, retries: nat,
                held: real, attempts': nat, pending': nat, retries': nat)
    returns (more: seq<Action>)
    requires Room(cfg, age, attempts) && attempts' == attempts + 2 && pending' + 1 == pending && retries' == retries + 1
    requires OutAfter(cfg, start, actions, age, attempts, pending, retries, held)
    ensures OutAfter(cfg, start, more, age, attempts', pending', retries', 0.0)
  {
    more := RetryAndCut(cfg, start, actions, age, attempts, pending, retries, held);
    more := Send(cfg, start, more, age, attempts', pending', retries');
  }

  /** Room for the last retry is room for all before it. */
  lemma RoomBefore(cfg: Config, age: nat, attempts: nat, last: nat)
    requires Room(cfg, age, last) && attempts <= last
    ensures Room(cfg, age, attempts) && age <= cfg.expressTtl.value
  {
    BackoffMonotone(attempts + 1, last + 1);
  }

  /** Then the first j of them cut the wait of one retry each, all within one moment. */
  lemma {:induction false} Cuts(cfg: Config, start: real, u: nat, h: nat, j: nat, age: nat,
                                attempts: nat, pending: nat, retries: nat)
    returns (actions: seq<Action>, held: real)
    requires j <= h && age == BackoffSum(u) + 121 && Room(cfg, age, u + 2 * h)
    requires attempts == u + 2 * j && pending == h - j && retries == u + j
    ensures OutAfter(cfg, start, actions, age, attempts, pending, retries, held)
  {
    if j == 0 {
      actions := StallsWithRoom(cfg, start, u, h, age);
      held := 121.0;
    } else {
      actions, held := Cuts(cfg, start, u, h, j - 1, age, attempts - 2, pending + 1, retries - 1);
      RoomBefore(cfg, age, attempts - 2, u + 2 * h);
      actions := CutOnce(cfg, start, actions, age, attempts - 2, pending + 1, retries - 1, held,
                         attempts, pending, retries);
      held := 0.0;
    }
  }

  lemma StallsWithRoom(cfg: Config, start: real, u: nat, h: nat, age: nat) returns (actions: seq<Action>)
    requires age == BackoffSum(u) + 121 && Room(cfg, age, u + 2 * h)
    ensures OutAfter(cfg, start, actions, age, u, h, u, 121.0)
  {
    actions := Stalls(cfg, start, u, h);
  }

  /** What the settings allow, some run does. */
  lemma FeasibleHappens(cfg: Config, start: real, u: nat, h: nat) returns (actions: seq<Action>)
    requires cfg.Valid() && cfg.expressTtl.Some? && Feasible(cfg, u, h)
    ensures Retries(cfg, Initial(start), actions, 0) == u + h + 1
    ensures var s := Run(cfg, Initial(start), actions).store;
            |s.jobs| == 1 && |s.messages| == 1 && s.messages[0].priority == Express
  {
    var held: real;
    var age := BackoffSum(u) + 121;
    actions, held := Cuts(cfg, start, u, h, h, age, u + 2 * h, 0, u + h);
    FailMove(cfg, Run(cfg, Initial(start), actions), start, age, u + 2 * h, 0, u + h, held);
    OneMoreAction(cfg, Initial(start), actions, Fail(u + h));
    actions := actions + [Fail(u + h)];
  }

  /**
   * Property 4, where it stands. The recorded backoffs of every express message fit the TTL on every run if and only
   * if no feasible mixture of waits and cuts adds up to more: a finite test of the attempts limit and the TTL.
   */
  lemma AllRunsFitIff(cfg: Config, start: real)
    requires cfg.Valid() && cfg.expressTtl.Some?
    ensures (forall actions: seq<Action>, i: nat :: Fits(cfg, start, actions, i)) <==> NeverOverruns(cfg)
  {
    if NeverOverruns(cfg) {
      forall actions: seq<Action>, i: nat
        ensures Fits(cfg, start, actions, i)
      {
        HarmlessFits(cfg, start, actions, i);
      }
    } else {
      var u: nat, h: nat :| u < cfg.maxAttempts && 1 <= h < cfg.maxAttempts && !Harmless(cfg, u, h);
      var actions := FeasibleHappens(cfg, start, u, h);
      assert !Fits(cfg, start, actions, 0);
    }
  }
}

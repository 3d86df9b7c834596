/** Retry budgets and backoff over whole runs. */
module Budgets {
  import opened Domain
  import opened Submission
  import opened Delivery
  import opened Outbox
  import opened Protocol
  import opened Safety
  import opened JobHistory
  import opened Leases

  predicate IsDeliveryRetry(e: JobEvent) { e.DeliveryRetry? }
  predicate IsPublishRetry(e: JobEvent) { e.PublishRetry? }
  predicate IsReap(e: JobEvent) { e.ReapStale? || e.ReapLate? }

  function Tally(events: seq<JobEvent>, counts: JobEvent -> bool): nat {
    if events == [] then 0
    else Tally(events[..|events| - 1], counts) + if counts(events[|events| - 1]) then 1 else 0
  }

  function BackoffSum(k: nat): nat {
    if k == 0 then 0 else BackoffSum(k - 1) + Backoff(k)
  }

  /** The counters a job carries are the events of its history, and at most maxAttempts - 1 are retries. */
  ghost predicate Accounted(cfg: Config, job: JobRow, events: seq<JobEvent>) {
    && job.deliveryAttempts == Tally(events, IsDeliveryRetry) + Tally(events, IsReap)
    && job.retryCount == Tally(events, IsPublishRetry)
    && Tally(events, IsDeliveryRetry) <= cfg.maxAttempts - 1
  }

  lemma EventKeepsAccount(cfg: Config, job: JobRow, m: MessageRow, events: seq<JobEvent>, e: JobEvent, now: real)
    requires Accounted(cfg, job, events) && Allowed(cfg, job, m, e, now)
    ensures Accounted(cfg, After(job, e, now), events + [e])
  {
    assert (events + [e])[..|events|] == events;
  }

  predicate NothingYet(events: seq<JobEvent>) {
    forall k :: 0 <= k < |events| ==> events[k] == Untouched
  }

  /**
   * Property 13. On every run, split sweeps included, `delivery_attempts` counts exactly the recorded delivery
   * retries and the sweeps, `retry_count` exactly the publish retries, and fewer than maxAttempts retries are ever
   * recorded. A job that does not exist yet has an empty history.
   */
  lemma {:induction false} DeliveryBudget(cfg: Config, start: real, actions: seq<Action>, i: nat)
    requires cfg.Valid()
    ensures var jobs := Run(cfg, Initial(start), actions).store.jobs;
            var events := History(cfg, Initial(start), actions, i);
            if i < |jobs| then Accounted(cfg, jobs[i], events)
            else NothingYet(events)
  {
    if actions != [] {
      var n := |actions| - 1;
      var before := Run(cfg, Initial(start), actions[..n]);
      var earlier := History(cfg, Initial(start), actions[..n], i);
      var events := History(cfg, Initial(start), actions, i);
      assert events[..n] == earlier && events == earlier + [events[n]];
      DeliveryBudget(cfg, start, actions[..n], i);
      RunLeased(cfg, start, actions[..n]);
      if i < |before.store.jobs| {
        if Possible(before, actions[n]) {
          StepIsJobEvent(cfg, before, actions[n], i);
        }
        EventKeepsAccount(cfg, before.store.jobs[i], before.store.messages[i], earlier, events[n], before.now);
      } else {
        assert events[n] == Untouched && NothingYet(events);
        UntouchedTallies(events);
        if Possible(before, actions[n]) && i < |Step(cfg, before, actions[n]).store.jobs| {
          StepAddsFresh(cfg, before, actions[n], i);
        }
      }
    }
  }

  lemma {:induction false} UntouchedTallies(events: seq<JobEvent>)
    requires NothingYet(events)
    ensures Tally(events, IsDeliveryRetry) == Tally(events, IsReap) == Tally(events, IsPublishRetry) == 0
  {
    if events != [] {
      UntouchedTallies(events[..|events| - 1]);
    }
  }

  /** Property 13. Once the budget is used up, every outcome the lease holder commits is terminal. */
  lemma SpentBudgetIsTerminal(cfg: Config, s: Store, j: nat, worker: nat, result: ProviderResult, jitter: real,
                              now: real)
    requires cfg.Valid() && Sound(s) && j < |s.jobs|
    requires s.jobs[j].status == JobStatus.Dispatching && s.jobs[j].lockedBy == Some(Worker(worker))
    requires cfg.maxAttempts - 1 <= s.jobs[j].deliveryAttempts
    ensures var (s', outcome) := Record(cfg, s, j, worker, result, jitter, now);
            if outcome.MissingProviderId? then s' == s
            else j < |s'.jobs| && s'.jobs[j].status.Terminal()
  {
    RecordPerforms(cfg, s, j, worker, result, jitter, now);
    assert Linked(j, s.jobs[j], s.messages[j]);
  }

  // ---------------------------------------------------------------- backoff

  /** A late update that cuts job i's wait short. */
  predicate Hurries(w: World, a: Action, i: nat) {
    a.ReapUpdate? && i in a.ids && i < |w.store.jobs| && w.now < w.store.jobs[i].availableAt
  }

  /** How many late updates of the run did. */
  ghost function Hurried(cfg: Config, w: World, actions: seq<Action>, i: nat): nat {
    if actions == [] then 0
    else
      var n := |actions| - 1;
      var before := Run(cfg, w, actions[..n]);
      Hurried(cfg, w, actions[..n], i) + if Possible(before, actions[n]) && Hurries(before, actions[n], i) then 1 else 0
  }

  /** Of k retries, those whose waits h cuts have surely left alone. */
  function Uncut(k: nat, h: nat): nat {
    if h <= k then k - h else 0
  }

  /**
   * A job with k recorded retries and h cuts has waited out, or is waiting out, the backoffs of all retries that were
   * not cut, and all but the last of them have passed.
   */
  ghost predicate BackedOff(cfg: Config, job: JobRow, m: MessageRow, now: real, k: nat, h: nat) {
    var waits := Uncut(k, h);
    && k + h <= job.deliveryAttempts
    && job.createdAt + BackoffSum(waits) as real <= job.availableAt
    && job.createdAt + BackoffSum(Uncut(waits, 1)) as real <= now
    && (cfg.expressTtl.Some? && m.priority == Express ==> BackoffSum(waits) <= cfg.expressTtl.value)
  }

  lemma {:induction false} BackoffSumMonotone(j: nat, k: nat)
    requires j <= k
    ensures BackoffSum(j) <= BackoffSum(k)
  {
    if j < k {
      BackoffSumMonotone(j, k - 1);
    }
  }

  /** A retry recorded with k retries and h cuts behind it has room for the next wait within the TTL. */
  lemma RetryKeepsBackoff(cfg: Config, i: nat, job: JobRow, m: MessageRow, k: nat, h: nat, worker: nat, jitter: real,
                          now: real)
    requires cfg.Valid() && Linked(i, job, m) && LockOk(job, now) && BackedOff(cfg, job, m, now, k, h)
    requires Allowed(cfg, job, m, DeliveryRetry(worker, jitter), now)
    ensures BackedOff(cfg, After(job, DeliveryRetry(worker, jitter), now), m, now, k + 1, h)
  {
    BackoffMonotone(Uncut(k + 1, h), job.deliveryAttempts + 1);
  }

  lemma CutKeepsBackoff(cfg: Config, job: JobRow, m: MessageRow, k: nat, h: nat, now: real)
    requires BackedOff(cfg, job, m, now, k, h)
    ensures BackedOff(cfg, JobReaped(job, now), m, now, k, h + 1)
  {
    BackoffSumMonotone(Uncut(Uncut(k, h + 1), 1), Uncut(k, h + 1));
    BackoffSumMonotone(Uncut(k, h + 1), Uncut(k, h));
  }

  lemma EventKeepsBackoff(cfg: Config, i: nat, job: JobRow, m: MessageRow, k: nat, h: nat, e: JobEvent, now: real)
    requires cfg.Valid() && Linked(i, job, m) && LockOk(job, now) && BackedOff(cfg, job, m, now, k, h)
    requires Allowed(cfg, job, m, e, now)
    ensures var cut := e.ReapLate? && now < job.availableAt;
            BackedOff(cfg, After(job, e, now), m, now,
                      if e.DeliveryRetry? then k + 1 else k, if cut then h + 1 else h)
  {
    match e
    case DeliveryRetry(worker, jitter) => RetryKeepsBackoff(cfg, i, job, m, k, h, worker, jitter, now);
    case ReapLate => CutKeepsBackoff(cfg, job, m, k, h, now);
    case _ =>
  }

  /** The rows and the clock after a step that did e to the job. */
  lemma BackedOffNext(cfg: Config, i: nat, job: JobRow, m: MessageRow, k: nat, h: nat, e: JobEvent, now: real,
                      job': JobRow, m': MessageRow, later: real)
    requires cfg.Valid() && Linked(i, job, m) && LockOk(job, now) && BackedOff(cfg, job, m, now, k, h)
    requires Allowed(cfg, job, m, e, now)
    requires job' == After(job, e, now) && m'.priority == m.priority && now <= later
    ensures BackedOff(cfg, job', m', later, if e.DeliveryRetry? then k + 1 else k,
                      if e.ReapLate? && now < job.availableAt then h + 1 else h)
  {
    EventKeepsBackoff(cfg, i, job, m, k, h, e, now);
  }

  /** What a step does to an existing job, to its message and to the clock. */
  lemma StepOnJob(cfg: Config, w: World, a: Action, i: nat)
    requires cfg.Valid() && Leased(w) && Possible(w, a) && i < |w.store.jobs|
    ensures var w', job, m, e := Step(cfg, w, a), w.store.jobs[i], w.store.messages[i], JobEventOf(cfg, w, a, i);
      && Linked(i, job, m) && LockOk(job, w.now) && Allowed(cfg, job, m, e, w.now)
      && |w'.store.jobs| == |w'.store.messages| && i < |w'.store.jobs|
      && w'.store.jobs[i] == After(job, e, w.now)
      && w'.store.messages[i].priority == m.priority
      && w.now <= w'.now
      && (Hurries(w, a, i) <==> e.ReapLate? && w.now < job.availableAt)
  {
    assert Linked(i, w.store.jobs[i], w.store.messages[i]) && LockOk(w.store.jobs[i], w.now);
    StepRefines(cfg, w, a);
    StepIsJobEvent(cfg, w, a, i);
    StepKeepsMessage(cfg, w, a, i);
    CallsOnlyEnd(cfg, w, a);
  }

  ghost predicate RetriesFit(cfg: Config, w: World, i: nat, k: nat, h: nat) {
    && |w.store.jobs| == |w.store.messages|
    && (if i < |w.store.jobs| then BackedOff(cfg, w.store.jobs[i], w.store.messages[i], w.now, k, h)
        else k == 0 && h == 0)
  }

  lemma StepKeepsOldBackoff(cfg: Config, w: World, a: Action, i: nat, k: nat, h: nat)
    requires cfg.Valid() && Leased(w) && Possible(w, a) && i < |w.store.jobs| && RetriesFit(cfg, w, i, k, h)
    ensures RetriesFit(cfg, Step(cfg, w, a), i, if JobEventOf(cfg, w, a, i).DeliveryRetry? then k + 1 else k,
                       if Hurries(w, a, i) then h + 1 else h)
  {
    var w' := Step(cfg, w, a);
    StepOnJob(cfg, w, a, i);
    BackedOffNext(cfg, i, w.store.jobs[i], w.store.messages[i], k, h, JobEventOf(cfg, w, a, i), w.now,
                  w'.store.jobs[i], w'.store.messages[i], w'.now);
  }

  lemma StepStartsBackoff(cfg: Config, w: World, a: Action, i: nat)
    requires cfg.Valid() && Leased(w) && Possible(w, a) && |w.store.jobs| <= i && RetriesFit(cfg, w, i, 0, 0)
    ensures RetriesFit(cfg, Step(cfg, w, a), i, 0, 0)
  {
    StepRefines(cfg, w, a);
    CallsOnlyEnd(cfg, w, a);
    if i < |Step(cfg, w, a).store.jobs| {
      StepAddsFresh(cfg, w, a, i);
    }
  }

  lemma StepKeepsFit(cfg: Config, w: World, a: Action, i: nat, k: nat, h: nat)
    requires cfg.Valid() && Leased(w) && Possible(w, a) && RetriesFit(cfg, w, i, k, h)
    ensures RetriesFit(cfg, Step(cfg, w, a), i, if JobEventOf(cfg, w, a, i).DeliveryRetry? then k + 1 else k,
                       if Hurries(w, a, i) then h + 1 else h)
  {
    if i < |w.store.jobs| {
      StepKeepsOldBackoff(cfg, w, a, i, k, h);
    } else {
      StepStartsBackoff(cfg, w, a, i);
    }
  }

  lemma NextKeepsFit(cfg: Config, w: World, a: Action, i: nat, k: nat, h: nat, w': World, k': nat, h': nat)
    requires cfg.Valid() && Leased(w) && RetriesFit(cfg, w, i, k, h) && w' == Next(cfg, w, a)
    requires k' == k + if Possible(w, a) && JobEventOf(cfg, w, a, i).DeliveryRetry? then 1 else 0
    requires h' == h + if Possible(w, a) && Hurries(w, a, i) then 1 else 0
    ensures RetriesFit(cfg, w', i, k', h')
  {
    if Possible(w, a) {
      StepKeepsFit(cfg, w, a, i, k, h);
    }
  }

  lemma TallyOneMore(events: seq<JobEvent>, e: JobEvent, counts: JobEvent -> bool)
    ensures Tally(events + [e], counts) == Tally(events, counts) + if counts(e) then 1 else 0
  {
    assert (events + [e])[..|events|] == events;
  }

  /** The recorded delivery retries of job i on a run. */
  ghost function Retries(cfg: Config, w: World, actions: seq<Action>, i: nat): nat {
    Tally(History(cfg, w, actions, i), IsDeliveryRetry)
  }

  /** One action more, in both counts. */
  lemma RetriesOneMore(cfg: Config, w: World, actions: seq<Action>, i: nat)
    requires actions != []
    ensures var n := |actions| - 1;
            var before := Run(cfg, w, actions[..n]);
            var possible := Possible(before, actions[n]);
      && Run(cfg, w, actions) == Next(cfg, before, actions[n])
      && Retries(cfg, w, actions, i) == Retries(cfg, w, actions[..n], i)
           + (if possible && JobEventOf(cfg, before, actions[n], i).DeliveryRetry? then 1 else 0)
      && Hurried(cfg, w, actions, i) == Hurried(cfg, w, actions[..n], i)
           + (if possible && Hurries(before, actions[n], i) then 1 else 0)
  {
    var events := History(cfg, w, actions, i);
    TallyOneMore(events[..|actions| - 1], events[|actions| - 1], IsDeliveryRetry);
    assert events == events[..|actions| - 1] + [events[|actions| - 1]];
  }

  /** The run keeps its backoffs, counted by its own retries and cuts. */
  ghost predicate RunFits(cfg: Config, start: real, actions: seq<Action>, i: nat) {
    RetriesFit(cfg, Run(cfg, Initial(start), actions), i, Retries(cfg, Initial(start), actions, i),
               Hurried(cfg, Initial(start), actions, i))
  }

  lemma OneMoreFits(cfg: Config, start: real, actions: seq<Action>, i: nat)
    requires cfg.Valid() && actions != [] && RunFits(cfg, start, actions[..|actions| - 1], i)
    ensures RunFits(cfg, start, actions, i)
  {
    var n := |actions| - 1;
    var before := Run(cfg, Initial(start), actions[..n]);
    RunLeased(cfg, start, actions[..n]);
    RetriesOneMore(cfg, Initial(start), actions, i);
    NextKeepsFit(cfg, before, actions[n], i, Retries(cfg, Initial(start), actions[..n], i),
                 Hurried(cfg, Initial(start), actions[..n], i), Run(cfg, Initial(start), actions),
                 Retries(cfg, Initial(start), actions, i), Hurried(cfg, Initial(start), actions, i));
  }

  /**
   * Property 4, second half. On every run, k recorded delivery retries of which late updates cut h short push a job's
   * availability at least backoff(1) + ... + backoff(k - h) past its creation, and for an express message that sum
   * fits the TTL.
   */
  lemma {:induction false} RetriesFitDeadline(cfg: Config, start: real, actions: seq<Action>, i: nat)
    requires cfg.Valid()
    ensures RunFits(cfg, start, actions, i)
  {
    if actions != [] {
      RetriesFitDeadline(cfg, start, actions[..|actions| - 1], i);
      OneMoreFits(cfg, start, actions, i);
    }
  }

  lemma {:induction false} AtomicNeverHurries(cfg: Config, w: World, actions: seq<Action>, i: nat)
    requires Atomic(actions)
    ensures Hurried(cfg, w, actions, i) == 0
  {
    if actions != [] {
      AtomicNeverHurries(cfg, w, actions[..|actions| - 1], i);
    }
  }

  /** Property 4 with atomic sweeps: all recorded backoffs have been waited out, and fit an express message's TTL. */
  lemma AtomicRetriesFit(cfg: Config, start: real, actions: seq<Action>, i: nat)
    requires cfg.Valid() && Atomic(actions)
    ensures var s, k := Run(cfg, Initial(start), actions).store, Retries(cfg, Initial(start), actions, i);
            i < |s.jobs| ==>
              && i < |s.messages|
              && s.jobs[i].createdAt + BackoffSum(k) as real <= s.jobs[i].availableAt
              && (cfg.expressTtl.Some? && s.messages[i].priority == Express ==> BackoffSum(k) <= cfg.expressTtl.value)
  {
    RetriesFitDeadline(cfg, start, actions, i);
    AtomicNeverHurries(cfg, Initial(start), actions, i);
  }

  // ---------------------------------------------------------------- the counter has no bound

  /** An unlocked, due, normal job 0: the state every round of `Neglect` starts and ends in. */
  ghost predicate Idle(w: World, attempts: nat) {
    && |w.store.jobs| == 1
    && |w.store.messages| == 1
    && w.store.jobs[0].messageId == 0
    && w.store.jobs[0].status.Waiting()
    && w.store.jobs[0].priority == Normal
    && w.store.jobs[0].lockedAt.None?
    && w.store.jobs[0].availableAt <= w.now
    && w.store.jobs[0].deliveryAttempts == attempts
    && w.store.messages[0].priority == Normal
    && w.store.messages[0].payment == Reserved
    && (forall x :: x in w.calls ==> x < attempts)
  }

  /** Claimed, published, taken by a worker that dies before it records an outcome, swept. */
  function Neglect(worker: nat): seq<Action> {
    [ RelayClaim(0, Normal, {0}),
      RelayMark(0, {0}, {}, 0.0),
      WorkerClaim(worker, 0),
      Tick(121.0),
      ReapSweep(Normal, {0}) ]
  }

  /** Out with a worker. */
  ghost predicate Taken(w: World, attempts: nat) {
    && |w.store.jobs| == 1
    && |w.store.messages| == 1
    && w.store.jobs[0].messageId == 0
    && w.store.jobs[0].status == JobStatus.Dispatching
    && w.store.jobs[0].priority == Normal
    && w.store.jobs[0].lockedAt == Some(w.now)
    && w.store.jobs[0].deliveryAttempts == attempts
    && w.store.messages[0].priority == Normal
    && w.store.messages[0].payment == Reserved
    && (forall x :: x in w.calls ==> x <= attempts)
  }

  lemma NeglectTakes(cfg: Config, w: World, attempts: nat)
    requires Idle(w, attempts)
    ensures var a := Neglect(attempts);
            Taken(Next(cfg, Next(cfg, Next(cfg, w, a[0]), a[1]), a[2]), attempts)
  {
    var a := Neglect(attempts);
    var w1 := Next(cfg, w, a[0]);
    assert w1.store.jobs == [JobClaimed(w.store.jobs[0], 0, w.now)];
    var w2 := Next(cfg, w1, a[1]);
    assert w2.store.jobs == [JobPublished(w1.store.jobs[0], w.now)];
    var w3 := Next(cfg, w2, a[2]);
    assert w3.store.jobs == [JobDispatching(w2.store.jobs[0], attempts, w.now)];
  }

  lemma NeglectSweeps(cfg: Config, w: World, attempts: nat)
    requires Taken(w, attempts)
    ensures Idle(Next(cfg, Next(cfg, w, Tick(121.0)), ReapSweep(Normal, {0})), attempts + 1)
  {
    var w1 := Next(cfg, w, Tick(121.0));
    assert AllStale(w1.store.jobs, {0}, Normal, w1.now);
    var w2 := Next(cfg, w1, ReapSweep(Normal, {0}));
    assert w2.store.jobs == [JobReaped(w1.store.jobs[0], w1.now)];
  }

  lemma NeglectCounts(cfg: Config, w: World, attempts: nat)
    requires Idle(w, attempts)
    ensures Idle(Run(cfg, w, Neglect(attempts)), attempts + 1)
  {
    var a := Neglect(attempts);
    NeglectTakes(cfg, w, attempts);
    assert a[..0] == [] && a[..5] == a;
    RunStep(cfg, w, a, 0);
    RunStep(cfg, w, a, 1);
    RunStep(cfg, w, a, 2);
    NeglectSweeps(cfg, Run(cfg, w, a[..3]), attempts);
    RunStep(cfg, w, a, 3);
    RunStep(cfg, w, a, 4);
  }

  ghost predicate Neglected(cfg: Config, start: real, actions: seq<Action>, attempts: nat) {
    Atomic(actions) && Idle(Run(cfg, Initial(start), actions), attempts)
  }

  lemma NeglectBegins(cfg: Config, start: real)
    requires cfg.Valid()
    ensures Neglected(cfg, start,
                      [CreateUser(1), AddCredits(1, cfg.costNormal), Submit(1, Item("r", "b", Normal, 0))], 0)
  {
    var a := [CreateUser(1), AddCredits(1, cfg.costNormal), Submit(1, Item("r", "b", Normal, 0))];
    var w := Initial(start);
    assert a[..0] == [] && a[..3] == a;
    RunStep(cfg, w, a, 0);
    RunStep(cfg, w, a, 1);
    var w2 := Run(cfg, w, a[..2]);
    assert w2.store == Store(map[1 := BalanceRow(cfg.costNormal, 0)], [], []) && w2.calls == map[];
    RunStep(cfg, w, a, 2);
  }

  /**
   * The sweep's counter is not bounded by maxAttempts: a job whose workers keep dying reaches every attempt count
   * without becoming terminal, because only a recorded outcome consults the limit.
   */
  lemma {:induction false} AttemptsUnbounded(cfg: Config, start: real, attempts: nat)
    requires cfg.Valid()
    ensures exists actions :: Neglected(cfg, start, actions, attempts)
  {
    if attempts == 0 {
      NeglectBegins(cfg, start);
    } else {
      AttemptsUnbounded(cfg, start, attempts - 1);
      var actions :| Neglected(cfg, start, actions, attempts - 1);
      NeglectCounts(cfg, Run(cfg, Initial(start), actions), attempts - 1);
      RunConcat(cfg, Initial(start), actions, Neglect(attempts - 1));
      assert Neglected(cfg, start, actions + Neglect(attempts - 1), attempts);
    }
  }
}

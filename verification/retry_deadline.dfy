/**
 * When late sweep updates can make an express message's recorded backoffs add up to more than its TTL. An update cuts
 * a wait only after its sweep has found the job stale, which costs 120 seconds, and every cut costs an attempt.
 */
module RetryDeadline {
  import opened Domain
  import opened Outbox
  import opened Protocol
  import opened Safety
  import opened JobHistory
  import opened Leases
  import opened Budgets

  // ---------------------------------------------------------------- the condition on the settings

  /** After u retries waited out and one stall, h cuts still leave room for one more retry. */
  predicate Feasible(cfg: Config, u: nat, h: nat)
    requires cfg.expressTtl.Some?
  {
    && u + 2 * h + 1 < cfg.maxAttempts
    && 120 + BackoffSum(u) + Backoff(u + 2 * h + 1) < cfg.expressTtl.value
  }

  /** The retries such a run would have recorded fit the TTL after all. */
  predicate Harmless(cfg: Config, u: nat, h: nat)
    requires cfg.expressTtl.Some?
  {
    Feasible(cfg, u, h) ==> BackoffSum(u + h + 1) <= cfg.expressTtl.value
  }

  /** Finitely many cases, all of them about the settings. */
  predicate NeverOverruns(cfg: Config)
    requires cfg.expressTtl.Some?
  {
    forall u: nat, h: nat {:trigger Harmless(cfg, u, h)} ::
      u < cfg.maxAttempts && 1 <= h < cfg.maxAttempts ==> Harmless(cfg, u, h)
  }

  // ---------------------------------------------------------------- what a run can collect

  /** k retries that h cuts or fewer can explain: c of the waits were cut, all the others waited out. */
  ghost predicate Explains(cfg: Config, k: nat, c: nat)
    requires cfg.expressTtl.Some? && c < k
  {
    if c == 0 then BackoffSum(k) <= cfg.expressTtl.value else Feasible(cfg, k - 1 - c, c)
  }

  ghost predicate Earned(cfg: Config, k: nat, h: nat)
    requires cfg.expressTtl.Some?
  {
    k == 0 || exists c: nat :: c <= h && c < k && Explains(cfg, k, c)
  }

  /** The job has been stale once: 120 seconds are lost on top of the waits. */
  ghost predicate Delayed(job: JobRow, now: real, k: nat, h: nat) {
    var waits := Uncut(k, h);
    && (|| job.createdAt + 120.0 + BackoffSum(waits) as real < now
        || job.createdAt + 120.0 + BackoffSum(waits) as real < job.availableAt)
    && job.createdAt + 120.0 + BackoffSum(Uncut(waits, 1)) as real < now
  }

  /** No sweep under way has selected job i. */
  ghost predicate Unswept(w: World, i: nat) {
    forall ids :: ids in w.sweeps ==> i !in ids
  }

  lemma StaleIsDelayed(cfg: Config, job: JobRow, m: MessageRow, now: real, k: nat)
    requires LockOk(job, now) && BackedOff(cfg, job, m, now, k, 0) && Stale(job, job.priority, now)
    ensures Delayed(job, now, k, 0)
  {
    BackoffSumMonotone(Uncut(k, 1), k);
  }

  lemma RetryKeepsDelay(cfg: Config, i: nat, job: JobRow, m: MessageRow, k: nat, h: nat, worker: nat, jitter: real,
                        now: real)
    requires Linked(i, job, m) && LockOk(job, now) && BackedOff(cfg, job, m, now, k, h) && Delayed(job, now, k, h)
    requires Allowed(cfg, job, m, DeliveryRetry(worker, jitter), now)
    ensures Delayed(After(job, DeliveryRetry(worker, jitter), now), now, k + 1, h)
  {
    BackoffMonotone(Uncut(k + 1, h), job.deliveryAttempts + 1);
  }

  lemma CutKeepsDelay(job: JobRow, k: nat, h: nat, now: real)
    requires Delayed(job, now, k, h)
    ensures Delayed(JobReaped(job, now), now, k, h + 1)
  {
    BackoffSumMonotone(Uncut(Uncut(k, h + 1), 1), Uncut(k, h + 1));
  }

  lemma EventKeepsDelay(cfg: Config, i: nat, job: JobRow, m: MessageRow, k: nat, h: nat, e: JobEvent, now: real)
    requires Linked(i, job, m) && LockOk(job, now) && BackedOff(cfg, job, m, now, k, h) && Delayed(job, now, k, h)
    requires Allowed(cfg, job, m, e, now)
    ensures var cut := e.ReapLate? && now < job.availableAt;
            Delayed(After(job, e, now), now, if e.DeliveryRetry? then k + 1 else k, if cut then h + 1 else h)
  {
    match e
    case DeliveryRetry(worker, jitter) => RetryKeepsDelay(cfg, i, job, m, k, h, worker, jitter, now);
    case ReapLate =>
      if now < job.availableAt {
        CutKeepsDelay(job, k, h, now);
      }
    case _ =>
  }

  /** The retry that is recorded is one the settings make feasible. */
  lemma RetryEarns(cfg: Config, i: nat, job: JobRow, m: MessageRow, k: nat, h: nat, worker: nat, jitter: real,
                   now: real)
    requires cfg.Valid() && cfg.expressTtl.Some? && m.priority == Express
    requires Linked(i, job, m) && LockOk(job, now) && BackedOff(cfg, job, m, now, k, h)
    requires h == 0 || Delayed(job, now, k, h)
    requires Allowed(cfg, job, m, DeliveryRetry(worker, jitter), now)
    ensures Earned(cfg, k + 1, h)
  {
    BackoffMonotone(k + Min(h, k) + 1, job.deliveryAttempts + 1);
    if h == 0 || k == 0 {
      BackoffMonotone(k + 1, job.deliveryAttempts + 1);
      assert Explains(cfg, k + 1, 0);
    } else {
      assert Explains(cfg, k + 1, Min(h, k));
    }
  }

  lemma EarnedMore(cfg: Config, k: nat, h: nat, h': nat)
    requires cfg.expressTtl.Some? && h <= h' && Earned(cfg, k, h)
    ensures Earned(cfg, k, h')
  {
    if k != 0 {
      var c: nat :| c <= h && c < k && Explains(cfg, k, c);
      assert c <= h';
    }
  }

  // ---------------------------------------------------------------- over runs

  /** Before job i is first selected nothing was cut; afterwards it is delayed. */
  ghost predicate Phase(cfg: Config, w: World, i: nat, k: nat, h: nat) {
    && RetriesFit(cfg, w, i, k, h)
    && (if i < |w.store.jobs| then (Unswept(w, i) && h == 0) || Delayed(w.store.jobs[i], w.now, k, h)
        else Unswept(w, i))
  }

  ghost predicate ExpressEarned(cfg: Config, w: World, i: nat, k: nat, h: nat)
    requires cfg.expressTtl.Some?
  {
    i < |w.store.jobs| && i < |w.store.messages| && w.store.messages[i].priority == Express ==> Earned(cfg, k, h)
  }

  /** Only a selection puts a list of ids under way, and only of existing jobs that are stale. */
  lemma StepKeepsUnswept(cfg: Config, w: World, a: Action, i: nat)
    requires Possible(w, a) && Unswept(w, i)
    ensures !Hurries(w, a, i) && !JobEventOf(cfg, w, a, i).ReapLate?
    ensures Unswept(Step(cfg, w, a), i)
         || (a.ReapSelect? && i < |w.store.jobs| && Stale(w.store.jobs[i], w.store.jobs[i].priority, w.now))
  {
    if !(a.ReapSelect? && i in a.ids) {
      forall ids | ids in Step(cfg, w, a).sweeps
        ensures i !in ids
      {
        assert ids in w.sweeps || (a.ReapSelect? && ids == a.ids);
      }
    }
  }

  lemma DelayedLater(job: JobRow, now: real, later: real, k: nat, h: nat)
    requires Delayed(job, now, k, h) && now <= later
    ensures Delayed(job, later, k, h)
  {
  }

  lemma StepKeepsDelay(cfg: Config, w: World, a: Action, i: nat, k: nat, h: nat)
    requires cfg.Valid() && Leased(w) && Possible(w, a) && i < |w.store.jobs| && RetriesFit(cfg, w, i, k, h)
    requires Delayed(w.store.jobs[i], w.now, k, h)
    ensures var k' := if JobEventOf(cfg, w, a, i).DeliveryRetry? then k + 1 else k;
            var h' := if Hurries(w, a, i) then h + 1 else h;
            var w' := Step(cfg, w, a);
            i < |w'.store.jobs| && Delayed(w'.store.jobs[i], w'.now, k', h')
  {
    var job, m, e := w.store.jobs[i], w.store.messages[i], JobEventOf(cfg, w, a, i);
    StepOnJob(cfg, w, a, i);
    EventKeepsDelay(cfg, i, job, m, k, h, e, w.now);
    DelayedLater(After(job, e, w.now), w.now, Step(cfg, w, a).now, if e.DeliveryRetry? then k + 1 else k,
                 if Hurries(w, a, i) then h + 1 else h);
  }

  lemma StepKeepsPhase(cfg: Config, w: World, a: Action, i: nat, k: nat, h: nat)
    requires cfg.Valid() && Leased(w) && Possible(w, a) && Phase(cfg, w, i, k, h)
    ensures Phase(cfg, Step(cfg, w, a), i, if JobEventOf(cfg, w, a, i).DeliveryRetry? then k + 1 else k,
                  if Hurries(w, a, i) then h + 1 else h)
  {
    StepKeepsFit(cfg, w, a, i, k, h);
    if i < |w.store.jobs| {
      assert LockOk(w.store.jobs[i], w.now);
      if Delayed(w.store.jobs[i], w.now, k, h) {
        StepKeepsDelay(cfg, w, a, i, k, h);
      } else {
        StepKeepsUnswept(cfg, w, a, i);
        if !Unswept(Step(cfg, w, a), i) {
          StaleIsDelayed(cfg, w.store.jobs[i], w.store.messages[i], w.now, k);
        }
      }
    } else {
      StepKeepsUnswept(cfg, w, a, i);
    }
  }

  lemma StepEarns(cfg: Config, w: World, a: Action, i: nat, k: nat, h: nat)
    requires cfg.Valid() && cfg.expressTtl.Some? && Leased(w) && Possible(w, a)
    requires Phase(cfg, w, i, k, h) && ExpressEarned(cfg, w, i, k, h)
    ensures ExpressEarned(cfg, Step(cfg, w, a), i, if JobEventOf(cfg, w, a, i).DeliveryRetry? then k + 1 else k,
                          if Hurries(w, a, i) then h + 1 else h)
  {
    var e := JobEventOf(cfg, w, a, i);
    if i < |w.store.jobs| && w.store.messages[i].priority == Express {
      assert Linked(i, w.store.jobs[i], w.store.messages[i]) && LockOk(w.store.jobs[i], w.now);
      StepIsJobEvent(cfg, w, a, i);
      if e.DeliveryRetry? {
        RetryEarns(cfg, i, w.store.jobs[i], w.store.messages[i], k, h, e.worker, e.jitter, w.now);
      } else {
        EarnedMore(cfg, k, h, if Hurries(w, a, i) then h + 1 else h);
      }
    } else if i < |w.store.jobs| {
      StepKeepsMessage(cfg, w, a, i);
    }
  }

  lemma StepKeepsAll(cfg: Config, w: World, a: Action, i: nat, k: nat, h: nat)
    requires cfg.Valid() && cfg.expressTtl.Some? && Leased(w) && Possible(w, a)
    requires Phase(cfg, w, i, k, h) && ExpressEarned(cfg, w, i, k, h)
    ensures var k' := if JobEventOf(cfg, w, a, i).DeliveryRetry? then k + 1 else k;
            var h' := if Hurries(w, a, i) then h + 1 else h;
            Phase(cfg, Step(cfg, w, a), i, k', h') && ExpressEarned(cfg, Step(cfg, w, a), i, k', h')
  {
    StepKeepsPhase(cfg, w, a, i, k, h);
    StepEarns(cfg, w, a, i, k, h);
  }

  lemma NextKeepsAll(cfg: Config, w: World, a: Action, i: nat, k: nat, h: nat, w': World, k': nat, h': nat)
    requires cfg.Valid() && cfg.expressTtl.Some? && Leased(w) && w' == Next(cfg, w, a)
    requires Phase(cfg, w, i, k, h) && ExpressEarned(cfg, w, i, k, h)
    requires k' == k + if Possible(w, a) && JobEventOf(cfg, w, a, i).DeliveryRetry? then 1 else 0
    requires h' == h + if Possible(w, a) && Hurries(w, a, i) then 1 else 0
    ensures Phase(cfg, w', i, k', h') && ExpressEarned(cfg, w', i, k', h')
  {
    if Possible(w, a) {
      StepKeepsAll(cfg, w, a, i, k, h);
      assert w' == Step(cfg, w, a);
      assert k' == if JobEventOf(cfg, w, a, i).DeliveryRetry? then k + 1 else k;
      assert h' == if Hurries(w, a, i) then h + 1 else h;
    }
  }

  /** Both invariants, with the run's own counts. */
  ghost predicate Collects(cfg: Config, start: real, actions: seq<Action>, i: nat)
    requires cfg.expressTtl.Some?
  {
    var k, h := Retries(cfg, Initial(start), actions, i), Hurried(cfg, Initial(start), actions, i);
    var w := Run(cfg, Initial(start), actions);
    Phase(cfg, w, i, k, h) && ExpressEarned(cfg, w, i, k, h)
  }

  lemma OneMoreCollects(cfg: Config, start: real, actions: seq<Action>, i: nat)
    requires cfg.Valid() && cfg.expressTtl.Some? && actions != []
    requires Collects(cfg, start, actions[..|actions| - 1], i)
    ensures Collects(cfg, start, actions, i)
  {
    var n := |actions| - 1;
    RunLeased(cfg, start, actions[..n]);
    RetriesOneMore(cfg, Initial(start), actions, i);
    NextKeepsAll(cfg, Run(cfg, Initial(start), actions[..n]), actions[n], i,
                 Retries(cfg, Initial(start), actions[..n], i), Hurried(cfg, Initial(start), actions[..n], i),
                 Run(cfg, Initial(start), actions),
                 Retries(cfg, Initial(start), actions, i), Hurried(cfg, Initial(start), actions, i));
  }

  /** Every express message's retries, on every run, are explained by at most as many cuts as really happened. */
  lemma {:induction false} RetriesEarned(cfg: Config, start: real, actions: seq<Action>, i: nat)
    requires cfg.Valid() && cfg.expressTtl.Some?
    ensures Collects(cfg, start, actions, i)
  {
    if actions != [] {
      RetriesEarned(cfg, start, actions[..|actions| - 1], i);
      OneMoreCollects(cfg, start, actions, i);
    }
  }

  // ---------------------------------------------------------------- when they fit

  /** The run's recorded backoffs for job i fit the TTL if the message is an express one. */
  ghost predicate Fits(cfg: Config, start: real, actions: seq<Action>, i: nat)
    requires cfg.expressTtl.Some?
  {
    var s := Run(cfg, Initial(start), actions).store;
    i < |s.jobs| && i < |s.messages| && s.messages[i].priority == Express ==>
      BackoffSum(Retries(cfg, Initial(start), actions, i)) <= cfg.expressTtl.value
  }

  lemma FewCutsHarmless(cfg: Config, u: nat, h: nat)
    requires cfg.expressTtl.Some? && 1 <= h <= 2
    ensures Harmless(cfg, u, h)
  {
    BackoffMonotone(u + h + 1, u + 2 * h + 1);
    assert BackoffSum(u + h + 1) == BackoffSum(u + h) + Backoff(u + h + 1);
    assert BackoffSum(u + h) <= BackoffSum(u) + 120;
  }

  /** Retries explained by few cuts, or under harmless settings, fit. */
  lemma EarnedFits(cfg: Config, k: nat, h: nat)
    requires cfg.Valid() && cfg.expressTtl.Some? && Earned(cfg, k, h)
    requires NeverOverruns(cfg) || h <= 2
    ensures BackoffSum(k) <= cfg.expressTtl.value
  {
    if k != 0 {
      var c: nat :| c <= h && c < k && Explains(cfg, k, c);
      if c != 0 {
        if h <= 2 {
          FewCutsHarmless(cfg, k - 1 - c, c);
        }
        assert Harmless(cfg, k - 1 - c, c);
      }
    }
  }

  lemma HarmlessFits(cfg: Config, start: real, actions: seq<Action>, i: nat)
    requires cfg.Valid() && cfg.expressTtl.Some?
    requires NeverOverruns(cfg) || Hurried(cfg, Initial(start), actions, i) <= 2
    ensures Fits(cfg, start, actions, i)
  {
    RetriesEarned(cfg, start, actions, i);
    var s := Run(cfg, Initial(start), actions).store;
    if i < |s.jobs| && i < |s.messages| && s.messages[i].priority == Express {
      EarnedFits(cfg, Retries(cfg, Initial(start), actions, i), Hurried(cfg, Initial(start), actions, i));
    }
  }

  /** Backoffs by number: 2, 4, 8, 16, 32, then 60. */
  lemma Backoffs(k: nat)
    ensures Backoff(1) == 2 && Backoff(2) == 4 && Backoff(3) == 8 && Backoff(4) == 16 && Backoff(5) == 32
    ensures 6 <= k ==> Backoff(k) == 60
  {
    assert Pow2(2) == 4 && Pow2(3) == 8 && Pow2(4) == 16 && Pow2(5) == 32 && Pow2(6) == 64;
  }

  /** One or two cuts never make a difference: overrunning takes at least three sweeps under way at once. */
  lemma TwoCutsAlwaysFit(cfg: Config, start: real, actions: seq<Action>, i: nat)
    requires cfg.Valid() && cfg.expressTtl.Some? && Hurried(cfg, Initial(start), actions, i) <= 2
    ensures Fits(cfg, start, actions, i)
  {
    HarmlessFits(cfg, start, actions, i);
  }

  /** A TTL that covers all the backoffs the attempts limit allows is never overrun. */
  lemma AmpleTtlNeverOverruns(cfg: Config)
    requires cfg.Valid() && cfg.expressTtl.Some? && BackoffSum(cfg.maxAttempts - 1) <= cfg.expressTtl.value
    ensures NeverOverruns(cfg)
  {
    forall u: nat, h: nat | u < cfg.maxAttempts && 1 <= h < cfg.maxAttempts
      ensures Harmless(cfg, u, h)
    {
      if Feasible(cfg, u, h) {
        BackoffSumMonotone(u + h + 1, cfg.maxAttempts - 1);
      }
    }
  }

  lemma FewAttemptsHarmless(cfg: Config, u: nat, h: nat)
    requires cfg.expressTtl.Some? && 3 <= h && u + 2 * h + 1 <= 10
    ensures Harmless(cfg, u, h)
  {
    Backoffs(6);
    Backoffs(7);
    Backoffs(u + 2 * h + 1);
    assert BackoffSum(1) == 2 && BackoffSum(2) == 6 && BackoffSum(3) == 14 && BackoffSum(4) == 30;
    assert BackoffSum(5) == 62 && BackoffSum(6) == 122 && BackoffSum(7) == 182;
  }

  /** Up to eleven attempts no TTL is overrun; the shipped five attempts are well inside. */
  lemma ElevenAttemptsNeverOverrun(cfg: Config)
    requires cfg.Valid() && cfg.expressTtl.Some? && cfg.maxAttempts <= 11
    ensures NeverOverruns(cfg)
  {
    forall u: nat, h: nat | u < cfg.maxAttempts && 1 <= h < cfg.maxAttempts
      ensures Harmless(cfg, u, h)
    {
      if h <= 2 {
        FewCutsHarmless(cfg, u, h);
      } else if u + 2 * h + 1 < cfg.maxAttempts {
        FewAttemptsHarmless(cfg, u, h);
      }
    }
  }

  /** Twelve attempts are the first that can overrun: four waits, a stall and three cuts, for TTLs from 211 to 241. */
  lemma TwelveAttemptsOverrunIff(cfg: Config)
    requires cfg.Valid() && cfg.expressTtl.Some? && cfg.maxAttempts == 12
    ensures NeverOverruns(cfg) <==> !(211 <= cfg.expressTtl.value <= 241)
  {
    FourWaitsThreeCuts(cfg);
    if NeverOverruns(cfg) {
      assert Harmless(cfg, 4, 3);
    } else {
      var u: nat, h: nat :| u < cfg.maxAttempts && 1 <= h < cfg.maxAttempts && !Harmless(cfg, u, h);
      if h <= 2 {
        FewCutsHarmless(cfg, u, h);
      } else if u + 2 * h + 1 <= 10 {
        FewAttemptsHarmless(cfg, u, h);
      } else if 4 <= h {
        assert u + 2 * h + 1 == 11;
        LastChanceHarmless(cfg, u, h);
      } else {
        assert u == 4 && h == 3;
      }
    }
  }

  lemma FourWaitsThreeCuts(cfg: Config)
    requires cfg.expressTtl.Some? && cfg.maxAttempts == 12
    ensures Harmless(cfg, 4, 3) <==> !(211 <= cfg.expressTtl.value <= 241)
  {
    Backoffs(6);
    Backoffs(7);
    Backoffs(8);
    Backoffs(11);
    assert BackoffSum(4) == 30;
    assert BackoffSum(6) == 122;
    assert BackoffSum(8) == 242;
  }

  /** The other ways to spend twelve attempts. */
  lemma LastChanceHarmless(cfg: Config, u: nat, h: nat)
    requires cfg.expressTtl.Some? && u + 2 * h + 1 == 11 && 4 <= h
    ensures Harmless(cfg, u, h)
  {
    Backoffs(6);
    Backoffs(7);
    Backoffs(11);
    assert BackoffSum(2) == 6;
    assert BackoffSum(4) == 30;
    assert BackoffSum(6) == 122;
    assert BackoffSum(7) == 182;
  }
}

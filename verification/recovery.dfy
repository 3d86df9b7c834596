/**
 * No job is ever stranded: every unfinished one can be recovered at a known time, whoever has died. An
 * unfinished job can be finished exactly when its payment is still reserved; only a split sweep can leave it otherwise.
 */
module Recovery {
  import opened Domain
  import opened Delivery
  import opened Outbox
  import opened Protocol
  import opened Safety
  import opened Ledger
  import opened JobHistory
  import opened Leases

  /** When a job becomes recoverable, from its own fields alone. */
  function RecoveryTime(job: JobRow): real {
    match job.status
    case Published => (if job.publishedAt.Some? then job.publishedAt.value else 0.0) + INFLIGHT_LEASE_SECONDS
    case Dispatching => (if job.lockedAt.Some? then job.lockedAt.value else 0.0) + INFLIGHT_LEASE_SECONDS
    case _ => if job.lockedAt.Some? then job.lockedAt.value + LEASE_SECONDS else job.availableAt
  }

  /** A relay may claim it now, or a sweep may take it now and leave it claimable. */
  predicate Recoverable(job: JobRow, now: real) {
    || Eligible(job, job.priority, now)
    || (Stale(job, job.priority, now) && Eligible(JobReaped(job, now), job.priority, now))
  }

  /**
   * Property 11. In every reachable state, split sweeps included, a non-terminal job is recoverable exactly from
   * its recovery time on (strictly after it when a lease has to run out), whoever has died.
   */
  lemma {:induction false} NoJobStranded(cfg: Config, start: real, actions: seq<Action>, i: nat, later: real)
    requires cfg.Valid()
    ensures var w := Run(cfg, Initial(start), actions);
            i < |w.store.jobs| && !w.store.jobs[i].status.Terminal() ==>
              var job := w.store.jobs[i];
              Recoverable(job, later) <==>
                if job.status.Waiting() && job.lockedAt.None? then RecoveryTime(job) <= later
                else RecoveryTime(job) < later
  {
    RunLeased(cfg, start, actions);
    var w := Run(cfg, Initial(start), actions);
    if i < |w.store.jobs| {
      assert LockOk(w.store.jobs[i], w.now);
    }
  }

  // ---------------------------------------------------------------- which jobs can be finished

  ghost predicate Finished(w: World, i: nat) {
    i < |w.store.jobs| && w.store.jobs[i].status.Terminal()
  }

  ghost predicate Finishes(cfg: Config, w: World, more: seq<Action>, i: nat) {
    Finished(Run(cfg, w, more), i)
  }

  /** By a continuation without split sweeps. */
  ghost predicate CanFinish(cfg: Config, w: World, i: nat) {
    exists more :: Atomic(more) && Finishes(cfg, w, more, i)
  }

  lemma FinishAfter(cfg: Config, w: World, a: Action, i: nat)
    requires !a.ReapUpdate? && CanFinish(cfg, Next(cfg, w, a), i)
    ensures CanFinish(cfg, w, i)
  {
    var more :| Atomic(more) && Finishes(cfg, Next(cfg, w, a), more, i);
    RunConcat(cfg, w, [a], more);
    assert [a][..0] == [];
    assert Run(cfg, w, [a]) == Next(cfg, w, a);
    assert Atomic([a] + more) && Finishes(cfg, w, [a] + more, i);
  }

  lemma FinishedNow(cfg: Config, w: World, i: nat)
    requires Finished(w, i)
    ensures CanFinish(cfg, w, i)
  {
    assert Atomic([]) && Finishes(cfg, w, [], i);
  }

  /** An open job: not terminal, and its payment still reserved. */
  ghost predicate Open(w: World, i: nat) {
    && Leased(w)
    && i < |w.store.jobs|
    && !w.store.jobs[i].status.Terminal()
    && w.store.messages[i].payment == Reserved
  }

  /** A reservation ends only together with the job. */
  lemma OpenOrFinished(cfg: Config, w: World, a: Action, i: nat)
    requires cfg.Valid() && Open(w, i) && Possible(w, a)
    ensures i < |Step(cfg, w, a).store.messages| && i < |Step(cfg, w, a).store.jobs|
    ensures Step(cfg, w, a).store.messages[i].payment != Reserved ==> Step(cfg, w, a).store.jobs[i].status.Terminal()
  {
    StepRefines(cfg, w, a);
    StepKeepsMessage(cfg, w, a, i);
    if Step(cfg, w, a).store.messages[i].payment != Reserved {
      OnlyWorkersFinalise(cfg, w, a, i);
      match a
      case WorkerClaim(worker, j) => ClosesBoth(cfg, w.store, i, w.now);
      case WorkerRecord(worker, result, jitter) => RecordClosesBoth(cfg, w, worker, result, jitter, i);
      case _ =>
    }
  }

  lemma ClosesBoth(cfg: Config, s: Store, i: nat, now: real)
    requires Sound(s) && i < |s.jobs|
    ensures var s' := PermanentlyFail(s, i, now).0;
            PermanentlyFail(s, i, now).1 ==> i < |s'.jobs| && s'.jobs[i].status == JobStatus.Failed
  {
    assert Linked(i, s.jobs[i], s.messages[i]);
  }

  lemma RecordClosesBoth(cfg: Config, w: World, worker: nat, result: ProviderResult, jitter: real, i: nat)
    requires Sound(w.store) && i < |w.store.jobs| && w.store.messages[i].payment == Reserved
    requires w.store.jobs[i].status == JobStatus.Dispatching && w.store.jobs[i].lockedBy == Some(Worker(worker))
    ensures var s' := Record(cfg, w.store, i, worker, result, jitter, w.now).0;
            i < |s'.jobs| && i < |s'.messages|
            && (s'.messages[i].payment != Reserved ==> s'.jobs[i].status.Terminal())
  {
    assert Linked(i, w.store.jobs[i], w.store.messages[i]);
    ClosesBoth(cfg, w.store, i, w.now);
  }

  lemma OpenNext(cfg: Config, w: World, a: Action, i: nat)
    requires cfg.Valid() && Open(w, i) && Possible(w, a)
    ensures Open(Step(cfg, w, a), i) || Finished(Step(cfg, w, a), i)
    ensures Step(cfg, w, a).store.jobs[i] == After(w.store.jobs[i], JobEventOf(cfg, w, a, i), w.now)
  {
    StepLeased(cfg, w, a);
    StepIsJobEvent(cfg, w, a, i);
    OpenOrFinished(cfg, w, a, i);
  }

  lemma FinishDispatching(cfg: Config, w: World, i: nat, worker: nat)
    requires cfg.Valid() && Open(w, i)
    requires w.store.jobs[i].status == JobStatus.Dispatching && w.store.jobs[i].lockedBy == Some(Worker(worker))
    requires worker in w.calls && w.calls[worker] == Sending(i)
    ensures CanFinish(cfg, w, i)
  {
    var result := ProviderResult(Success, Some("id"));
    var a := WorkerRecord(worker, result, 0.0);
    RecordPerforms(cfg, w.store, i, worker, result, 0.0, w.now);
    assert Linked(i, w.store.jobs[i], w.store.messages[i]);
    assert Record(cfg, w.store, i, worker, result, 0.0, w.now).1 == Settled;
    OpenNext(cfg, w, a, i);
    FinishedNow(cfg, Next(cfg, w, a), i);
    FinishAfter(cfg, w, a, i);
  }

  lemma {:induction false} UnusedId(calls: map<nat, Call>) returns (worker: nat)
    ensures forall x :: x in calls ==> x < worker
    decreases |calls|
  {
    if calls == map[] {
      worker := 0;
    } else {
      var x :| x in calls;
      var rest := calls - {x};
      assert rest.Keys == calls.Keys - {x};
      var bound := UnusedId(rest);
      worker := if bound <= x then x + 1 else bound;
      forall y | y in calls
        ensures y < worker
      {
        if y != x {
          assert y in rest;
        }
      }
    }
  }

  /** A job under a relay's claim: any worker can take it before the relay even marks it published. */
  lemma FinishClaimed(cfg: Config, w: World, i: nat)
    requires cfg.Valid() && Open(w, i)
    requires w.store.jobs[i].status.Waiting() && w.store.jobs[i].lockedAt.Some?
    ensures CanFinish(cfg, w, i)
  {
    var worker := UnusedId(w.calls);
    var a := WorkerClaim(worker, i);
    assert LockOk(w.store.jobs[i], w.now);
    assert Linked(i, w.store.jobs[i], w.store.messages[i]);
    ClaimPerforms(cfg, w.store, i, worker, w.now);
    OpenNext(cfg, w, a, i);
    if JobEventOf(cfg, w, a, i).Take? {
      FinishDispatching(cfg, Next(cfg, w, a), i, worker);
    } else {
      FinishedNow(cfg, Next(cfg, w, a), i);
    }
    FinishAfter(cfg, w, a, i);
  }

  lemma FinishEligible(cfg: Config, w: World, i: nat)
    requires cfg.Valid() && Open(w, i) && Eligible(w.store.jobs[i], w.store.jobs[i].priority, w.now)
    ensures CanFinish(cfg, w, i)
  {
    var a := RelayClaim(0, w.store.jobs[i].priority, {i});
    OpenNext(cfg, w, a, i);
    FinishClaimed(cfg, Next(cfg, w, a), i);
    FinishAfter(cfg, w, a, i);
  }

  lemma FinishRecoverable(cfg: Config, w: World, i: nat)
    requires cfg.Valid() && Open(w, i) && Recoverable(w.store.jobs[i], w.now)
    ensures CanFinish(cfg, w, i)
  {
    if Eligible(w.store.jobs[i], w.store.jobs[i].priority, w.now) {
      FinishEligible(cfg, w, i);
    } else {
      var a := ReapSweep(w.store.jobs[i].priority, {i});
      OpenNext(cfg, w, a, i);
      FinishEligible(cfg, Next(cfg, w, a), i);
      FinishAfter(cfg, w, a, i);
    }
  }

  lemma OpenCanFinish(cfg: Config, start: real, actions: seq<Action>, i: nat)
    requires cfg.Valid() && Open(Run(cfg, Initial(start), actions), i)
    ensures CanFinish(cfg, Run(cfg, Initial(start), actions), i)
  {
    var w := Run(cfg, Initial(start), actions);
    var ready := RecoveryTime(w.store.jobs[i]);
    var a := Tick(if w.now <= ready then ready - w.now + 1.0 else 0.0);
    OpenNext(cfg, w, a, i);
    NoJobStranded(cfg, start, actions, i, Next(cfg, w, a).now);
    FinishRecoverable(cfg, Next(cfg, w, a), i);
    FinishAfter(cfg, w, a, i);
  }

  // ---------------------------------------------------------------- and which cannot

  /** A late update woke this job after its payment was settled. */
  ghost predicate Revived(w: World, i: nat) {
    && Sound(w.store)
    && i < |w.store.jobs|
    && !w.store.jobs[i].status.Terminal()
    && w.store.messages[i].payment != Reserved
  }

  lemma StepKeepsRevived(cfg: Config, w: World, a: Action, i: nat)
    requires cfg.Valid() && Revived(w, i) && Possible(w, a)
    ensures Revived(Step(cfg, w, a), i)
  {
    StepRefines(cfg, w, a);
    StepKeepsSettled(cfg, w, a, i);
    StepIsJobEvent(cfg, w, a, i);
    assert Guarded(w.store.jobs[i], w.store.messages[i]);
  }

  lemma {:induction false} RevivedForGood(cfg: Config, w: World, more: seq<Action>, i: nat)
    requires cfg.Valid() && Revived(w, i)
    ensures Revived(Run(cfg, w, more), i)
  {
    if more != [] {
      var n := |more| - 1;
      RevivedForGood(cfg, w, more[..n], i);
      if Possible(Run(cfg, w, more[..n]), more[n]) {
        StepKeepsRevived(cfg, Run(cfg, w, more[..n]), more[n], i);
      }
    }
  }

  /**
   * Property 11, strengthened. On every run, split sweeps included, and however many relays and workers died on it, a
   * job can still reach COMPLETED or FAILED if and only if it is there or its payment is still reserved. When it can,
   * a continuation with atomic sweeps does it; when it cannot, no continuation at all does.
   */
  lemma CanFinishIff(cfg: Config, start: real, actions: seq<Action>, i: nat)
    requires cfg.Valid() && i < |Run(cfg, Initial(start), actions).store.jobs|
    ensures var w := Run(cfg, Initial(start), actions);
      && i < |w.store.messages|
      && (CanFinish(cfg, w, i) <==> w.store.jobs[i].status.Terminal() || w.store.messages[i].payment == Reserved)
      && (CanFinish(cfg, w, i) <==> exists more :: Finishes(cfg, w, more, i))
  {
    var w := Run(cfg, Initial(start), actions);
    RunLeased(cfg, start, actions);
    if w.store.jobs[i].status.Terminal() {
      FinishedNow(cfg, w, i);
    } else if w.store.messages[i].payment == Reserved {
      OpenCanFinish(cfg, start, actions, i);
    } else {
      forall more: seq<Action>
        ensures !Finishes(cfg, w, more, i)
      {
        RevivedForGood(cfg, w, more, i);
      }
    }
  }

  /** With atomic sweeps every job can. */
  lemma EveryJobCanFinish(cfg: Config, start: real, actions: seq<Action>, i: nat)
    requires cfg.Valid() && Atomic(actions) && i < |Run(cfg, Initial(start), actions).store.jobs|
    ensures CanFinish(cfg, Run(cfg, Initial(start), actions), i)
  {
    CanFinishIff(cfg, start, actions, i);
    InitialConsistent(start);
    RunSound(cfg, Initial(start), actions);
    var s := Run(cfg, Initial(start), actions).store;
    assert Coupled(s.jobs[i], s.messages[i]) && StatusMatchesPayment(s.messages[i]);
  }
}

/** Locks and leases: who may touch a job, and until when. */
module Leases {
  import opened Domain
  import opened Delivery
  import opened Outbox
  import opened Protocol
  import opened Safety
  import opened Ledger
  import opened JobHistory

  /** The lock fields fit the status, and nothing is in flight before its `available_at`. */
  predicate LockOk(job: JobRow, now: real) {
    && job.createdAt <= now
    && job.createdAt <= job.availableAt
    && (job.lockedAt.Some? <==> job.lockedBy.Some?)
    && (job.lockedAt.Some? ==> job.availableAt <= job.lockedAt.value <= now)
    && (match job.status
        case Pending => job.lockedBy.Some? ==> job.lockedBy.value.Relay?
        case Retry => job.lockedBy.Some? ==> job.lockedBy.value.Relay?
        case Published =>
          && job.lockedBy.None?
          && job.publishedAt.Some?
          && job.availableAt <= job.publishedAt.value <= now
        case Dispatching => job.lockedBy.Some? && job.lockedBy.value.Worker?
        case Completed => job.lockedBy.None?
        case Failed => job.lockedBy.None?)
  }

  lemma EventKeepsLocks(cfg: Config, job: JobRow, m: MessageRow, e: JobEvent, now: real)
    requires LockOk(job, now) && Allowed(cfg, job, m, e, now)
    ensures LockOk(After(job, e, now), now)
  {
  }

  /** A worker's lock names a call that took this very job; that call may have died without recording. */
  predicate OwnerKnown(i: nat, job: JobRow, calls: map<nat, Call>) {
    job.lockedBy.Some? && job.lockedBy.value.Worker? ==>
      && job.lockedBy.value.id in calls
      && calls[job.lockedBy.value.id] in {Sending(i), Ended}
  }

  ghost predicate Leased(w: World) {
    && Sound(w.store)
    && (forall i :: 0 <= i < |w.store.jobs| ==> LockOk(w.store.jobs[i], w.now))
    && (forall i :: 0 <= i < |w.store.jobs| ==> OwnerKnown(i, w.store.jobs[i], w.calls))
  }

  lemma {:induction false} StepKeepsLease(cfg: Config, w: World, a: Action, i: nat)
    requires Leased(w) && Possible(w, a) && i < |Step(cfg, w, a).store.jobs|
    ensures LockOk(Step(cfg, w, a).store.jobs[i], Step(cfg, w, a).now)
    ensures OwnerKnown(i, Step(cfg, w, a).store.jobs[i], Step(cfg, w, a).calls)
  {
    if i < |w.store.jobs| {
      StepIsJobEvent(cfg, w, a, i);
      assert LockOk(w.store.jobs[i], w.now) && OwnerKnown(i, w.store.jobs[i], w.calls);
      EventKeepsLocks(cfg, w.store.jobs[i], w.store.messages[i], JobEventOf(cfg, w, a, i), w.now);
      CallsOnlyEnd(cfg, w, a);
      if JobEventOf(cfg, w, a, i).Take? {
        TakersCall(cfg, w, a, i);
      }
    } else {
      StepAddsFresh(cfg, w, a, i);
    }
  }

  /** A call, once made, can only end; its id is never used again. */
  lemma CallsOnlyEnd(cfg: Config, w: World, a: Action)
    requires Possible(w, a)
    ensures forall x :: x in w.calls ==>
              x in Step(cfg, w, a).calls && Step(cfg, w, a).calls[x] in {w.calls[x], Ended}
    ensures Step(cfg, w, a).now == w.now || a.Tick?
    ensures w.now <= Step(cfg, w, a).now
  {
  }

  lemma TakersCall(cfg: Config, w: World, a: Action, i: nat)
    requires Possible(w, a) && JobEventOf(cfg, w, a, i).Take?
    ensures var x := JobEventOf(cfg, w, a, i).worker;
            x !in w.calls && Step(cfg, w, a).calls == w.calls[x := Sending(i)] && a == WorkerClaim(x, i)
  {
  }

  lemma {:induction false} StepLeased(cfg: Config, w: World, a: Action)
    requires cfg.Valid() && Leased(w)
    ensures Leased(Next(cfg, w, a))
  {
    if Possible(w, a) {
      StepRefines(cfg, w, a);
      forall i | 0 <= i < |Step(cfg, w, a).store.jobs|
        ensures LockOk(Step(cfg, w, a).store.jobs[i], Step(cfg, w, a).now)
        ensures OwnerKnown(i, Step(cfg, w, a).store.jobs[i], Step(cfg, w, a).calls)
      {
        StepKeepsLease(cfg, w, a, i);
      }
    }
  }

  lemma {:induction false} RunLeased(cfg: Config, start: real, actions: seq<Action>)
    requires cfg.Valid()
    ensures Leased(Run(cfg, Initial(start), actions))
  {
    if actions == [] {
      InitialConsistent(start);
    } else {
      var n := |actions| - 1;
      RunLeased(cfg, start, actions[..n]);
      StepLeased(cfg, Run(cfg, Initial(start), actions[..n]), actions[n]);
    }
  }

  /**
   * Property 4, first half. Whatever stale, repeated or unpublished task the broker delivers, and even with split
   * sweeps, no worker starts a delivery before the job's `available_at`.
   */
  lemma NoDeliveryBeforeAvailable(cfg: Config, start: real, actions: seq<Action>, worker: nat, j: nat)
    requires cfg.Valid()
    ensures var w := Run(cfg, Initial(start), actions);
            ClaimForDelivery(cfg, w.store, j, worker, w.now).1.Claimed? ==>
              j < |w.store.jobs| && w.store.jobs[j].availableAt <= w.now
  {
    RunLeased(cfg, start, actions);
    var w := Run(cfg, Initial(start), actions);
    if j < |w.store.jobs| {
      assert LockOk(w.store.jobs[j], w.now);
    }
  }

  // ---------------------------------------------------------------- fencing

  /** Relay `relay` does not claim job i in these actions. */
  predicate NoClaimBy(actions: seq<Action>, relay: nat, i: nat) {
    forall k :: 0 <= k < |actions| && actions[k].RelayClaim? && actions[k].relay == relay ==> i !in actions[k].ids
  }

  lemma StepKeepsClaimLost(cfg: Config, w: World, a: Action, relay: nat, i: nat)
    requires Sound(w.store) && Possible(w, a) && i < |w.store.jobs| && w.store.jobs[i].lockedBy != Some(Relay(relay))
    requires a.RelayClaim? && a.relay == relay ==> i !in a.ids
    ensures i < |Step(cfg, w, a).store.jobs| && Step(cfg, w, a).store.jobs[i].lockedBy != Some(Relay(relay))
  {
    StepIsJobEvent(cfg, w, a, i);
  }

  lemma {:induction false} ClaimStaysLost(cfg: Config, w: World, actions: seq<Action>, relay: nat, i: nat)
    requires cfg.Valid() && Leased(w) && i < |w.store.jobs| && w.store.jobs[i].lockedBy != Some(Relay(relay))
    requires NoClaimBy(actions, relay, i)
    ensures var w' := Run(cfg, w, actions);
            Leased(w') && i < |w'.store.jobs| && w'.store.jobs[i].lockedBy != Some(Relay(relay))
  {
    if actions != [] {
      var n := |actions| - 1;
      var before := Run(cfg, w, actions[..n]);
      ClaimStaysLost(cfg, w, actions[..n], relay, i);
      StepLeased(cfg, before, actions[n]);
      if Possible(before, actions[n]) {
        StepKeepsClaimLost(cfg, before, actions[n], relay, i);
      }
    }
  }

  /**
   * Property 5. A relay that has lost its claim on a job never gets it back without claiming again, so nothing it
   * later marks, published or failed, changes that job.
   */
  lemma LostRelayClaimIsInert(cfg: Config, w: World, actions: seq<Action>, relay: nat, i: nat,
                              published: set<nat>, failed: set<nat>, delay: real)
    requires cfg.Valid() && Leased(w) && i < |w.store.jobs| && w.store.jobs[i].lockedBy != Some(Relay(relay))
    requires NoClaimBy(actions, relay, i)
    ensures var w' := Run(cfg, w, actions);
      && Leased(w')
      && i < |w'.store.jobs|
      && w'.store.jobs[i].lockedBy != Some(Relay(relay))
      && Mark(w'.store.jobs, published, failed, relay, delay, w'.now)[i] == w'.store.jobs[i]
  {
    ClaimStaysLost(cfg, w, actions, relay, i);
  }

  /** Nobody but the holder's own marks and a worker can act on a job while a relay's claim on it is live. */
  predicate LeavesLeaseAlone(a: Action, relay: nat, i: nat) {
    && !(a.RelayMark? && a.relay == relay && (i in a.published || i in a.failed))
    && !(a.WorkerClaim? && a.job == i)
    && !(a.ReapUpdate? && i in a.ids)
  }

  /**
   * Property 5. From a claim until the lease runs out, every other relay's claim, mark and sweep leaves the job
   * exactly as the holder left it: no two relays hold an unexpired claim.
   */
  lemma {:induction false} RelayLeaseIsExclusive(cfg: Config, w: World, actions: seq<Action>, relay: nat, i: nat)
    requires cfg.Valid() && Leased(w) && i < |w.store.jobs| && HeldBy(w.store.jobs[i], relay)
    requires forall k :: 0 <= k < |actions| ==> LeavesLeaseAlone(actions[k], relay, i)
    requires w.store.jobs[i].lockedAt.Some?
    requires Run(cfg, w, actions).now <= w.store.jobs[i].lockedAt.value + LEASE_SECONDS
    ensures i < |Run(cfg, w, actions).store.jobs|
    ensures Leased(Run(cfg, w, actions))
    ensures Run(cfg, w, actions).store.jobs[i] == w.store.jobs[i]
  {
    if actions != [] {
      var n := |actions| - 1;
      var before := Run(cfg, w, actions[..n]);
      if Possible(before, actions[n]) {
        CallsOnlyEnd(cfg, before, actions[n]);
      }
      RelayLeaseIsExclusive(cfg, w, actions[..n], relay, i);
      StepLeased(cfg, before, actions[n]);
      if Possible(before, actions[n]) {
        assert LeavesLeaseAlone(actions[n], relay, i);
        HolderUndisturbed(cfg, before, actions[n], relay, i);
      }
    }
  }

  lemma HolderUndisturbed(cfg: Config, w: World, a: Action, relay: nat, i: nat)
    requires Leased(w) && Possible(w, a) && i < |w.store.jobs|
    requires HeldBy(w.store.jobs[i], relay) && LeavesLeaseAlone(a, relay, i)
    requires w.store.jobs[i].lockedAt.Some? && w.now <= w.store.jobs[i].lockedAt.value + LEASE_SECONDS
    ensures JobEventOf(cfg, w, a, i) == Untouched
    ensures i < |Step(cfg, w, a).store.jobs| && Step(cfg, w, a).store.jobs[i] == w.store.jobs[i]
  {
    StepIsJobEvent(cfg, w, a, i);
  }

  /** Neither the holder's own outcome nor a late sweep update. */
  predicate LeavesDeliveryAlone(a: Action, worker: nat, i: nat) {
    && !(a.WorkerRecord? && a.worker == worker)
    && !(a.ReapUpdate? && i in a.ids)
  }

  lemma DeliveryUndisturbed(cfg: Config, w: World, a: Action, worker: nat, i: nat)
    requires Leased(w) && Possible(w, a) && i < |w.store.jobs| && LeavesDeliveryAlone(a, worker, i)
    requires w.store.jobs[i].status == JobStatus.Dispatching && w.store.jobs[i].lockedBy == Some(Worker(worker))
    requires w.store.jobs[i].lockedAt.Some? && w.now < w.store.jobs[i].lockedAt.value + WORKER_LEASE_SECONDS
    ensures JobEventOf(cfg, w, a, i) == Untouched
    ensures i < |Step(cfg, w, a).store.jobs| && Step(cfg, w, a).store.jobs[i] == w.store.jobs[i]
  {
    StepIsJobEvent(cfg, w, a, i);
  }

  /**
   * Property 5. While a worker's delivery lease is fresh only its own outcome changes the job: no second worker can
   * take it, no relay can claim it, and no sweep can select it, whatever else happens.
   */
  lemma {:induction false} WorkerLeaseIsExclusive(cfg: Config, w: World, actions: seq<Action>, worker: nat, i: nat)
    requires cfg.Valid() && Leased(w) && i < |w.store.jobs|
    requires w.store.jobs[i].status == JobStatus.Dispatching && w.store.jobs[i].lockedBy == Some(Worker(worker))
    requires forall k :: 0 <= k < |actions| ==> LeavesDeliveryAlone(actions[k], worker, i)
    requires w.store.jobs[i].lockedAt.Some?
    requires Run(cfg, w, actions).now < w.store.jobs[i].lockedAt.value + WORKER_LEASE_SECONDS
    ensures i < |Run(cfg, w, actions).store.jobs|
    ensures Leased(Run(cfg, w, actions))
    ensures Run(cfg, w, actions).store.jobs[i] == w.store.jobs[i]
  {
    if actions != [] {
      var n := |actions| - 1;
      var before := Run(cfg, w, actions[..n]);
      if Possible(before, actions[n]) {
        CallsOnlyEnd(cfg, before, actions[n]);
      }
      WorkerLeaseIsExclusive(cfg, w, actions[..n], worker, i);
      StepLeased(cfg, before, actions[n]);
      if Possible(before, actions[n]) {
        assert LeavesDeliveryAlone(actions[n], worker, i);
        DeliveryUndisturbed(cfg, before, actions[n], worker, i);
      }
    }
  }

  /**
   * Property 5. A process call whose lease on a job was taken over or swept can never record an outcome for it:
   * whatever the provider answered it, the database stays as it is.
   */
  lemma {:induction false} LostWorkerLeaseIsInert(cfg: Config, w: World, actions: seq<Action>, worker: nat, i: nat,
                                                  result: ProviderResult, jitter: real)
    requires cfg.Valid() && Leased(w) && i < |w.store.jobs|
    requires worker in w.calls && w.store.jobs[i].lockedBy != Some(Worker(worker))
    ensures var w' := Run(cfg, w, actions);
      && Leased(w')
      && i < |w'.store.jobs|
      && worker in w'.calls
      && w'.store.jobs[i].lockedBy != Some(Worker(worker))
      && Record(cfg, w'.store, i, worker, result, jitter, w'.now) == (w'.store, LeaseLost)
  {
    if actions != [] {
      var n := |actions| - 1;
      LostWorkerLeaseIsInert(cfg, w, actions[..n], worker, i, result, jitter);
      var before := Run(cfg, w, actions[..n]);
      StepLeased(cfg, before, actions[n]);
      if Possible(before, actions[n]) {
        StepIsJobEvent(cfg, before, actions[n], i);
        CallsOnlyEnd(cfg, before, actions[n]);
        if JobEventOf(cfg, before, actions[n], i).Take? {
          TakersCall(cfg, before, actions[n], i);
        }
      }
    }
  }

  /** The step that takes a job registers the worker's call and puts its name on the lock. */
  lemma TakeAt(cfg: Config, start: real, actions: seq<Action>, k: nat, i: nat, worker: nat)
    requires cfg.Valid() && k < |actions|
    requires History(cfg, Initial(start), actions[..k + 1], i)[k] == Take(worker)
    ensures worker !in Run(cfg, Initial(start), actions[..k]).calls
    ensures var w := Run(cfg, Initial(start), actions[..k + 1]);
            worker in w.calls && i < |w.store.jobs| && w.store.jobs[i].lockedBy == Some(Worker(worker))
  {
    assert actions[..k + 1][..k] == actions[..k];
    var before := Run(cfg, Initial(start), actions[..k]);
    RunLeased(cfg, start, actions[..k]);
    TakersCall(cfg, before, actions[k], i);
    StepIsJobEvent(cfg, before, actions[k], i);
  }

  lemma CallKnownLater(cfg: Config, start: real, actions: seq<Action>, k: nat, l: nat, worker: nat)
    requires k <= l <= |actions| && worker in Run(cfg, Initial(start), actions[..k]).calls
    ensures worker in Run(cfg, Initial(start), actions[..l]).calls
  {
    RunFrom(cfg, Initial(start), actions, k, l);
    CallsStay(cfg, Run(cfg, Initial(start), actions[..k]), actions[k..l], worker);
  }

  /** A call that does not own the job's lock after m actions records nothing for it after the rest of them. */
  lemma VoidSince(cfg: Config, start: real, actions: seq<Action>, m: nat, i: nat, worker: nat,
                  result: ProviderResult, jitter: real)
    requires cfg.Valid() && m <= |actions|
    requires var w := Run(cfg, Initial(start), actions[..m]);
             worker in w.calls && i < |w.store.jobs| && w.store.jobs[i].lockedBy != Some(Worker(worker))
    ensures var w := Run(cfg, Initial(start), actions);
            Record(cfg, w.store, i, worker, result, jitter, w.now) == (w.store, LeaseLost)
  {
    RunLeased(cfg, start, actions[..m]);
    LostWorkerLeaseIsInert(cfg, Run(cfg, Initial(start), actions[..m]), actions[m..], worker, i, result, jitter);
    RunFrom(cfg, Initial(start), actions, m, |actions|);
    assert actions[..|actions|] == actions && actions[m..|actions|] == actions[m..];
  }

  /** Property 5. After a second worker's claim the first one's outcome is void, in every continuation. */
  lemma OnlyLatestClaimRecords(cfg: Config, start: real, actions: seq<Action>, k: nat, l: nat, i: nat,
                               first: nat, second: nat, result: ProviderResult, jitter: real)
    requires cfg.Valid() && k < l < |actions|
    requires History(cfg, Initial(start), actions[..k + 1], i)[k] == Take(first)
    requires History(cfg, Initial(start), actions[..l + 1], i)[l] == Take(second)
    ensures first != second
    ensures var w := Run(cfg, Initial(start), actions);
            Record(cfg, w.store, i, first, result, jitter, w.now) == (w.store, LeaseLost)
  {
    TakeAt(cfg, start, actions, k, i, first);
    TakeAt(cfg, start, actions, l, i, second);
    CallKnownLater(cfg, start, actions, k + 1, l, first);
    CallKnownLater(cfg, start, actions, l, l + 1, first);
    VoidSince(cfg, start, actions, l + 1, i, first, result, jitter);
  }

  lemma {:induction false} CallsStay(cfg: Config, w: World, actions: seq<Action>, worker: nat)
    requires worker in w.calls
    ensures worker in Run(cfg, w, actions).calls
  {
    if actions != [] {
      var n := |actions| - 1;
      CallsStay(cfg, w, actions[..n], worker);
      if Possible(Run(cfg, w, actions[..n]), actions[n]) {
        CallsOnlyEnd(cfg, Run(cfg, w, actions[..n]), actions[n]);
      }
    }
  }
}

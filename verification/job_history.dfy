/**
 * The life of one job: every step of the gateway does at most one of these things to it, under these guards.
 * The lease, backoff, budget and recovery arguments only look at this view.
 */
module JobHistory {
  import opened Domain
  import opened Delivery
  import opened Outbox
  import opened Protocol
  import opened Safety

  datatype JobEvent =
    | Untouched
    | Claim(relay: nat)
    | Publish(relay: nat)
    | PublishRetry(relay: nat, delay: real)
    | Take(worker: nat)
    | Expire
    | Complete(worker: nat, providerMessageId: string)
    | GiveUp(worker: nat)
    | DeliveryRetry(worker: nat, jitter: real)
    | ReapStale
    | ReapLate

  ghost function JobEventOf(cfg: Config, w: World, a: Action, i: nat): JobEvent
    requires Possible(w, a)
  {
    if |w.store.jobs| <= i then Untouched
    else
      var job := w.store.jobs[i];
      match a
      case RelayClaim(relay, _, ids) => if i in ids then Claim(relay) else Untouched
      case RelayMark(relay, published, failed, delay) =>
        if !HeldBy(job, relay) then Untouched
        else if i in published then Publish(relay)
        else if i in failed then PublishRetry(relay, delay)
        else Untouched
      case WorkerClaim(worker, j) =>
        if j != i then Untouched
        else
          (match ClaimForDelivery(cfg, w.store, j, worker, w.now).1
           case Claimed(_) => Take(worker)
           case Expired => Expire
           case _ => Untouched)
      case WorkerRecord(worker, result, jitter) =>
        if w.calls[worker].job != i then Untouched
        else
          (match Record(cfg, w.store, i, worker, result, jitter, w.now).1
           case Settled => Complete(worker, result.providerMessageId.value)
           case GivenUp => GiveUp(worker)
           case RetryScheduled => DeliveryRetry(worker, jitter)
           case _ => Untouched)
      case ReapSweep(_, ids) => if i in ids then ReapStale else Untouched
      case ReapUpdate(ids) => if i in ids then ReapLate else Untouched
      case _ => Untouched
  }

  /** The guard each event is fenced by. */
  predicate Allowed(cfg: Config, job: JobRow, m: MessageRow, e: JobEvent, now: real) {
    match e
    case Untouched => true
    case Claim(_) => Eligible(job, job.priority, now)
    case Publish(relay) => HeldBy(job, relay)
    case PublishRetry(relay, delay) => HeldBy(job, relay) && 0.0 <= delay
    case Take(_) => IsClaimable(job, now) && m.payment == Reserved && !DeadlineExceeded(cfg, m, now, 0.0)
    case Expire => IsClaimable(job, now) && m.payment == Reserved && DeadlineExceeded(cfg, m, now, 0.0)
    case Complete(worker, _) => job.status == JobStatus.Dispatching && job.lockedBy == Some(Worker(worker))
    case GiveUp(worker) => job.status == JobStatus.Dispatching && job.lockedBy == Some(Worker(worker))
    case DeliveryRetry(worker, jitter) =>
      && job.status == JobStatus.Dispatching
      && job.lockedBy == Some(Worker(worker))
      && 0.0 <= jitter <= 1.0
      && !GivesUp(cfg, m, job.deliveryAttempts, now, jitter)
    case ReapStale => Stale(job, job.priority, now)
    case ReapLate => true
  }

  function After(job: JobRow, e: JobEvent, now: real): JobRow {
    match e
    case Untouched => job
    case Claim(relay) => JobClaimed(job, relay, now)
    case Publish(_) => JobPublished(job, now)
    case PublishRetry(_, delay) => JobPublishRetry(job, delay, now)
    case Take(worker) => JobDispatching(job, worker, now)
    case Expire => JobFailed(job, now)
    case Complete(_, providerMessageId) => JobCompleted(job, providerMessageId, now)
    case GiveUp(_) => JobFailed(job, now)
    case DeliveryRetry(_, jitter) =>
      JobDeliveryRetry(job, Backoff(job.deliveryAttempts + 1) as real + jitter, now)
    case ReapStale => JobReaped(job, now)
    case ReapLate => JobReaped(job, now)
  }

  lemma ClaimIsJobEvent(cfg: Config, w: World, a: Action, i: nat)
    requires Sound(w.store) && Possible(w, a) && i < |w.store.jobs| && a.WorkerClaim?
    ensures Allowed(cfg, w.store.jobs[i], w.store.messages[i], JobEventOf(cfg, w, a, i), w.now)
    ensures i < |Step(cfg, w, a).store.jobs|
    ensures Step(cfg, w, a).store.jobs[i] == After(w.store.jobs[i], JobEventOf(cfg, w, a, i), w.now)
  {
    if a.job < |w.store.jobs| {
      assert Linked(a.job, w.store.jobs[a.job], w.store.messages[a.job]);
    }
  }

  lemma RecordIsJobEvent(cfg: Config, w: World, a: Action, i: nat)
    requires Sound(w.store) && Possible(w, a) && i < |w.store.jobs| && a.WorkerRecord?
    ensures Allowed(cfg, w.store.jobs[i], w.store.messages[i], JobEventOf(cfg, w, a, i), w.now)
    ensures i < |Step(cfg, w, a).store.jobs|
    ensures Step(cfg, w, a).store.jobs[i] == After(w.store.jobs[i], JobEventOf(cfg, w, a, i), w.now)
  {
    var j := w.calls[a.worker].job;
    if j < |w.store.jobs| {
      assert Linked(j, w.store.jobs[j], w.store.messages[j]);
    }
  }

  lemma OtherIsJobEvent(cfg: Config, w: World, a: Action, i: nat)
    requires Sound(w.store) && Possible(w, a) && i < |w.store.jobs| && !a.WorkerClaim? && !a.WorkerRecord?
    ensures Allowed(cfg, w.store.jobs[i], w.store.messages[i], JobEventOf(cfg, w, a, i), w.now)
    ensures i < |Step(cfg, w, a).store.jobs|
    ensures Step(cfg, w, a).store.jobs[i] == After(w.store.jobs[i], JobEventOf(cfg, w, a, i), w.now)
  {
  }

  /** Each step does exactly one event to each existing job, and the event's guard held. */
  lemma StepIsJobEvent(cfg: Config, w: World, a: Action, i: nat)
    requires Sound(w.store) && Possible(w, a) && i < |w.store.jobs|
    ensures Allowed(cfg, w.store.jobs[i], w.store.messages[i], JobEventOf(cfg, w, a, i), w.now)
    ensures i < |Step(cfg, w, a).store.jobs|
    ensures Step(cfg, w, a).store.jobs[i] == After(w.store.jobs[i], JobEventOf(cfg, w, a, i), w.now)
  {
    match a
    case WorkerClaim(_, _) => ClaimIsJobEvent(cfg, w, a, i);
    case WorkerRecord(_, _, _) => RecordIsJobEvent(cfg, w, a, i);
    case _ => OtherIsJobEvent(cfg, w, a, i);
  }

  /** Rows that a step adds are fresh outbox entries. */
  predicate Fresh(job: JobRow, now: real) {
    && job.status == Pending
    && job.retryCount == 0
    && job.deliveryAttempts == 0
    && job.availableAt == now
    && job.createdAt == now
    && job.lockedAt.None?
    && job.lockedBy.None?
  }

  lemma StepAddsFresh(cfg: Config, w: World, a: Action, i: nat)
    requires Possible(w, a) && |w.store.jobs| <= i < |Step(cfg, w, a).store.jobs|
    ensures Fresh(Step(cfg, w, a).store.jobs[i], w.now)
  {
  }

  /** What the run did to job i, one event per action. */
  ghost function History(cfg: Config, w: World, actions: seq<Action>, i: nat): (events: seq<JobEvent>)
    ensures |events| == |actions|
  {
    if actions == [] then []
    else
      var n := |actions| - 1;
      var before := Run(cfg, w, actions[..n]);
      History(cfg, w, actions[..n], i)
      + [if Possible(before, actions[n]) then JobEventOf(cfg, before, actions[n], i) else Untouched]
  }

  lemma ClaimKeepsMessage(cfg: Config, w: World, a: Action, i: nat)
    requires Sound(w.store) && Possible(w, a) && i < |w.store.messages| && a.WorkerClaim?
    ensures i < |Step(cfg, w, a).store.messages|
    ensures var m, m' := w.store.messages[i], Step(cfg, w, a).store.messages[i];
            m' == m.(status := m'.status, payment := m'.payment)
  {
    assert a.job < |w.store.jobs| ==> Linked(a.job, w.store.jobs[a.job], w.store.messages[a.job]);
  }

  lemma RecordKeepsMessage(cfg: Config, w: World, a: Action, i: nat)
    requires Sound(w.store) && Possible(w, a) && i < |w.store.messages| && a.WorkerRecord?
    ensures i < |Step(cfg, w, a).store.messages|
    ensures var m, m' := w.store.messages[i], Step(cfg, w, a).store.messages[i];
            m' == m.(status := m'.status, payment := m'.payment)
  {
    var j := w.calls[a.worker].job;
    assert j < |w.store.jobs| ==> Linked(j, w.store.jobs[j], w.store.messages[j]);
  }

  /** What never changes about a message: its owner, price, priority, key, and birth. */
  lemma StepKeepsMessage(cfg: Config, w: World, a: Action, i: nat)
    requires Sound(w.store) && Possible(w, a) && i < |w.store.messages|
    ensures i < |Step(cfg, w, a).store.messages|
    ensures var m, m' := w.store.messages[i], Step(cfg, w, a).store.messages[i];
            m' == m.(status := m'.status, payment := m'.payment)
  {
    match a
    case WorkerClaim(_, _) => ClaimKeepsMessage(cfg, w, a, i);
    case WorkerRecord(_, _, _) => RecordKeepsMessage(cfg, w, a, i);
    case _ =>
  }
}

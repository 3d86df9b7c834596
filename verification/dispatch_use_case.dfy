/** One `process` call of a worker: two transactions that load rows, change them in place and commit. */
module DispatchUseCases {
  import opened Domain
  import opened Delivery
  import opened Tables
  import opened Repositories
  import Safety
  import DeliveryLaws

  /** The snapshot the provider call needs. */
  datatype DeliveryContext = DeliveryContext(messageId: nat, recipient: string, body: string, priority: Priority)

  class DispatchUseCase {
    const session: Session
    const settings: Config
    const jobRepo: DispatchJobRepository
    const messageRepo: MessageRepository
    const balanceRepo: BalanceRepository

    constructor (session: Session, settings: Config)
      ensures Valid() && this.session == session && this.settings == settings
    {
      this.session := session;
      this.settings := settings;
      jobRepo := new DispatchJobRepository(session);
      messageRepo := new MessageRepository(session);
      balanceRepo := new BalanceRepository(session);
    }

    /** The repositories share the use case's session. */
    predicate Valid() {
      jobRepo.session == session && messageRepo.session == session && balanceRepo.session == session
    }

    /** The branches as the worker tests them, in their order. */
    predicate IsClaimable(job: DispatchJob, now: real)
      reads job
      ensures IsClaimable(job, now) == Delivery.IsClaimable(job.Row(), now)
      ensures IsClaimable(job, now) == DeliveryLaws.Takeable(job.Row(), now)
    {
      if job.status == JobStatus.Dispatching then
        var leaseFresh := job.lockedAt.Some? && job.lockedAt.value > now - WORKER_LEASE_SECONDS;
        !leaseFresh
      else
        var publishInProgress := job.status in {Pending, Retry} && job.lockedAt.Some? && job.lockedBy.Some?;
        job.status == Published || publishInProgress
    }

    predicate ExpressDeadlineExceeded(message: Message, now: real, ahead: real)
      reads message
      ensures ExpressDeadlineExceeded(message, now, ahead) == DeadlineExceeded(settings, message.Row(), now, ahead)
    {
      if settings.expressTtl.None? then false
      else if message.priority != Express then false
      else
        var ageSeconds := now - message.createdAt;
        ageSeconds + ahead > settings.expressTtl.value as real
    }

    /** Release, then close both rows; null when the release was refused, and then nothing was touched. */
    method PermanentlyFail(job: DispatchJob, message: Message, now: real) returns (balance: Balance?)
      requires Valid()
      modifies job, message
      ensures (balance == null) == !Chargeable(session.Snapshot(), old(message.Row()))
      ensures balance == null ==> job.Row() == old(job.Row()) && message.Row() == old(message.Row())
      ensures balance != null ==>
              && fresh(balance) && balance.userId == message.userId
              && balance.Row() == ReleaseRow(session.balances[message.userId], message.cost)
              && message.Row() == MessageRefunded(old(message.Row()))
              && job.Row() == JobFailed(old(job.Row()), now)
    {
      var error;
      balance, error := balanceRepo.ReleaseCredits(message.userId, message.cost);
      if balance == null {
        return;
      }
      messageRepo.MarkPermanentFailure(message);
      jobRepo.MarkFailed(job, now);
    }

    /** Fail and commit: the whole of one refund. */
    method FailAndCommit(job: DispatchJob, message: Message, now: real) returns (committed: bool)
      requires Valid() && job.id < |session.jobs| && job.messageId == message.id < |session.messages|
      requires job.Row() == session.jobs[job.id] && message.Row() == session.messages[message.id]
      modifies session, job, message
      ensures (session.Snapshot(), committed) == Delivery.PermanentlyFail(old(session.Snapshot()), job.id, now)
    {
      var balance := PermanentlyFail(job, message, now);
      if balance == null {
        return false;
      }
      committed := session.Commit(job, message, balance);
    }

    /**
     * First transaction: the new database, the outcome and the delivery context are exactly the specified ones, and
     * on a sound database the outcome and every column are as DeliveryLaws says.
     */
    method ClaimForDelivery(jobId: nat, worker: nat, now: real)
      returns (delivery: Option<DeliveryContext>, outcome: ClaimOutcome)
      requires Valid()
      modifies session
      ensures (session.Snapshot(), outcome) ==
              Delivery.ClaimForDelivery(settings, old(session.Snapshot()), jobId, worker, now)
      ensures Safety.Sound(old(session.Snapshot())) ==>
                DeliveryLaws.ClaimAnswered(settings, old(session.Snapshot()), jobId, worker, now, session.Snapshot(),
                                           outcome)
      ensures delivery.Some? <==> outcome.Claimed?
      ensures delivery.Some? ==>
              && outcome.messageId < |old(session.messages)|
              && var m := old(session.messages)[outcome.messageId];
                 delivery.value == DeliveryContext(outcome.messageId, m.recipient, m.body, m.priority)
    {
      if Safety.Sound(session.Snapshot()) {
        DeliveryLaws.ClaimAnswers(settings, session.Snapshot(), jobId, worker, now);
      }
      var job := session.SelectJob(jobId);
      if job == null {
        return None, NothingToDo;
      }
      if job.status in {Completed, JobStatus.Failed} {
        return None, NothingToDo;
      }
      if !IsClaimable(job, now) {
        return None, NothingToDo;
      }
      var message := session.SelectMessage(job.messageId);
      if message == null {
        return None, ClaimRolledBack;
      }
      if message.payment != Reserved {
        return None, PaymentNotReserved;
      }
      if ExpressDeadlineExceeded(message, now, 0.0) {
        var committed := FailAndCommit(job, message, now);
        return None, if committed then Expired else ClaimRolledBack;
      }
      messageRepo.MarkDispatching(message);
      jobRepo.MarkDispatching(job, worker, now);
      var committed := session.Commit(job, message, null);
      return Some(DeliveryContext(message.id, message.recipient, message.body, message.priority)), Claimed(message.id);
    }

    /**
     * Second transaction: nothing is written unless the lease taken in the first one is still this worker's; if it is,
     * the provider's answer decides as DeliveryLaws says.
     */
    method RecordOutcome(jobId: nat, worker: nat, result: ProviderResult, jitter: real, now: real)
      returns (outcome: RecordOutcome)
      requires Valid()
      modifies session
      ensures (session.Snapshot(), outcome) ==
              Record(settings, old(session.Snapshot()), jobId, worker, result, jitter, now)
      ensures Safety.Sound(old(session.Snapshot())) ==>
                DeliveryLaws.RecordAnswered(settings, old(session.Snapshot()), jobId, worker, result, jitter, now,
                                            session.Snapshot(), outcome)
    {
      if Safety.Sound(session.Snapshot()) {
        DeliveryLaws.RecordAnswers(settings, session.Snapshot(), jobId, worker, result, jitter, now);
      }
      var job := session.SelectJob(jobId);
      if job == null || job.status != JobStatus.Dispatching || job.lockedBy != Some(Worker(worker)) {
        return LeaseLost;
      }
      var message := session.SelectMessage(job.messageId);
      if message == null {
        return RecordRolledBack;
      }
      if result.outcome == Success {
        if result.providerMessageId.None? {
          return MissingProviderId;
        }
        outcome := RecordSuccess(job, message, result.providerMessageId.value, now);
      } else if result.outcome == PermanentFailure {
        var committed := FailAndCommit(job, message, now);
        outcome := if committed then GivenUp else RecordRolledBack;
      } else {
        outcome := RecordTemporaryFailure(job, message, jitter, now);
      }
    }

    method RecordSuccess(job: DispatchJob, message: Message, providerMessageId: string, now: real)
      returns (outcome: RecordOutcome)
      requires Valid() && job.id < |session.jobs| && job.messageId == message.id < |session.messages|
      requires job.Row() == session.jobs[job.id] && message.Row() == session.messages[message.id]
      requires job.status == JobStatus.Dispatching && job.lockedBy.Some? && job.lockedBy.value.Worker?
      modifies session, job, message
      ensures (session.Snapshot(), outcome) ==
              Record(settings, old(session.Snapshot()), job.id, old(job.lockedBy).value.id,
                     ProviderResult(Success, Some(providerMessageId)), 0.0, now)
    {
      var balance, error := balanceRepo.Settle(message.userId, message.cost);
      if balance == null {
        return RecordRolledBack;
      }
      messageRepo.MarkSent(message);
      jobRepo.MarkCompleted(job, providerMessageId, now);
      var committed := session.Commit(job, message, balance);
      outcome := if committed then Settled else RecordRolledBack;
    }

    /** Give up when the attempts are spent or the next try would come too late; otherwise schedule it. */
    method RecordTemporaryFailure(job: DispatchJob, message: Message, jitter: real, now: real)
      returns (outcome: RecordOutcome)
      requires Valid() && job.id < |session.jobs| && job.messageId == message.id < |session.messages|
      requires job.Row() == session.jobs[job.id] && message.Row() == session.messages[message.id]
      requires job.status == JobStatus.Dispatching && job.lockedBy.Some? && job.lockedBy.value.Worker?
      modifies session, job, message
      ensures (session.Snapshot(), outcome) ==
              Record(settings, old(session.Snapshot()), job.id, old(job.lockedBy).value.id,
                     ProviderResult(TemporaryFailure, None), jitter, now)
    {
      var nextAttempt := job.deliveryAttempts + 1;
      if nextAttempt >= settings.maxAttempts {
        var committed := FailAndCommit(job, message, now);
        return if committed then GivenUp else RecordRolledBack;
      }
      var delay := Backoff(nextAttempt) as real + jitter;
      if ExpressDeadlineExceeded(message, now, delay) {
        var committed := FailAndCommit(job, message, now);
        return if committed then GivenUp else RecordRolledBack;
      }
      messageRepo.MarkRetryableFailure(message);
      jobRepo.MarkDeliveryRetry(job, delay, now);
      var committed := session.Commit(job, message, null);
      return RetryScheduled;
    }
  }
}

/** The worker half of the protocol: what claiming a job and recording an outcome do to the database. */
module Delivery {
  import opened Domain

  datatype ProviderOutcome = Success | TemporaryFailure | PermanentFailure

  datatype ProviderResult = ProviderResult(outcome: ProviderOutcome, providerMessageId: Option<string>)

  datatype ClaimOutcome =
    | NothingToDo
    | PaymentNotReserved
    | Expired
    | Claimed(messageId: nat)
    | ClaimRolledBack

  datatype RecordOutcome =
    | LeaseLost
    | MissingProviderId
    | Settled
    | GivenUp
    | RetryScheduled
    | RecordRolledBack

  predicate IsClaimable(job: JobRow, now: real) {
    match job.status
    case Dispatching => !(job.lockedAt.Some? && now - WORKER_LEASE_SECONDS < job.lockedAt.value)
    case Published => true
    case Pending => job.lockedAt.Some? && job.lockedBy.Some?
    case Retry => job.lockedAt.Some? && job.lockedBy.Some?
    case Completed => false
    case Failed => false
  }

  predicate DeadlineExceeded(cfg: Config, m: MessageRow, now: real, ahead: real) {
    && cfg.expressTtl.Some?
    && m.priority == Express
    && cfg.expressTtl.value as real < now - m.createdAt + ahead
  }

  /** The message's owner has a balance that can be charged its cost. */
  predicate Chargeable(s: Store, m: MessageRow) {
    0 < m.cost && m.userId in s.balances
  }

  /** Refund the reservation and close both rows; the CHECK constraints decide whether it commits. */
  function PermanentlyFail(s: Store, j: nat, now: real): (result: (Store, bool))
    requires j < |s.jobs| && s.jobs[j].messageId < |s.messages|
  {
    var m := s.messages[s.jobs[j].messageId];
    if !Chargeable(s, m) then (s, false)
    else
      var balance := ReleaseRow(s.balances[m.userId], m.cost);
      if !balance.ChecksHold() then (s, false)
      else
        (Store(s.balances[m.userId := balance],
               s.messages[s.jobs[j].messageId := MessageRefunded(m)],
               s.jobs[j := JobFailed(s.jobs[j], now)]), true)
  }

  function ClaimForDelivery(cfg: Config, s: Store, j: nat, worker: nat, now: real): (Store, ClaimOutcome) {
    if |s.jobs| <= j then (s, NothingToDo)
    else
      var job := s.jobs[j];
      if job.status.Terminal() then (s, NothingToDo)
      else if !IsClaimable(job, now) then (s, NothingToDo)
      else if |s.messages| <= job.messageId then (s, ClaimRolledBack)
      else
        var m := s.messages[job.messageId];
        if m.payment != Reserved then (s, PaymentNotReserved)
        else if DeadlineExceeded(cfg, m, now, 0.0) then
          var (s', committed) := PermanentlyFail(s, j, now);
          (s', if committed then Expired else ClaimRolledBack)
        else
          (s.(messages := s.messages[job.messageId := MessageDispatching(m)],
              jobs := s.jobs[j := JobDispatching(job, worker, now)]), Claimed(job.messageId))
  }

  /** The deadlines and budgets that turn a temporary failure into a permanent one. */
  predicate GivesUp(cfg: Config, m: MessageRow, attempts: nat, now: real, jitter: real) {
    || cfg.maxAttempts <= attempts + 1
    || DeadlineExceeded(cfg, m, now, Backoff(attempts + 1) as real + jitter)
  }

  function Record(cfg: Config, s: Store, j: nat, worker: nat, result: ProviderResult, jitter: real, now: real)
    : (Store, RecordOutcome)
  {
    if |s.jobs| <= j then (s, LeaseLost)
    else
      var job := s.jobs[j];
      if job.status != JobStatus.Dispatching || job.lockedBy != Some(Worker(worker)) then (s, LeaseLost)
      else if |s.messages| <= job.messageId then (s, RecordRolledBack)
      else
        var m := s.messages[job.messageId];
        match result.outcome
        case Success =>
          if result.providerMessageId.None? then (s, MissingProviderId)
          else if !Chargeable(s, m) then (s, RecordRolledBack)
          else
            var balance := SettleRow(s.balances[m.userId], m.cost);
            if !balance.ChecksHold() then (s, RecordRolledBack)
            else
              (Store(s.balances[m.userId := balance],
                     s.messages[job.messageId := MessageSent(m)],
                     s.jobs[j := JobCompleted(job, result.providerMessageId.value, now)]), Settled)
        case PermanentFailure =>
          var (s', committed) := PermanentlyFail(s, j, now);
          (s', if committed then GivenUp else RecordRolledBack)
        case TemporaryFailure =>
          if GivesUp(cfg, m, job.deliveryAttempts, now, jitter) then
            var (s', committed) := PermanentlyFail(s, j, now);
            (s', if committed then GivenUp else RecordRolledBack)
          else
            var delay := Backoff(job.deliveryAttempts + 1) as real + jitter;
            (s.(messages := s.messages[job.messageId := MessageRetryable(m)],
                jobs := s.jobs[j := JobDeliveryRetry(job, delay, now)]), RetryScheduled)
  }
}

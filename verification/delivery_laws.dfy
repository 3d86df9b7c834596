/** What the worker's two transactions answer and write, column by column. */
module DeliveryLaws {
  import opened Domain
  import opened Delivery
  import opened Protocol
  import opened Safety
  import opened Leases

  // ---------------------------------------------------------------- what is written

  /** Only the rows of job j and the balance of its owner may differ. */
  ghost predicate OnlyJob(s: Store, s': Store, j: nat)
    requires j < |s.messages|
  {
    && |s'.jobs| == |s.jobs|
    && |s'.messages| == |s.messages|
    && s'.balances.Keys == s.balances.Keys
    && (forall i :: 0 <= i < |s.jobs| && i != j ==> s'.jobs[i] == s.jobs[i])
    && (forall i :: 0 <= i < |s.messages| && i != j ==> s'.messages[i] == s.messages[i])
    && (forall u :: u in s.balances && u != s.messages[j].userId ==> s'.balances[u] == s.balances[u])
  }

  /** Sent and paid for: the reservation leaves the credits as well. */
  ghost predicate ClosesPaid(s: Store, s': Store, j: nat, providerMessageId: string, now: real)
    requires j < |s.jobs| && j < |s.messages|
  {
    var m := s.messages[j];
    && OnlyJob(s, s', j)
    && s'.messages[j] == m.(status := Sent, payment := Deducted)
    && s'.jobs[j] == s.jobs[j].(status := Completed, providerMessageId := Some(providerMessageId),
                                completedAt := Some(now), lockedAt := None, lockedBy := None)
    && m.userId in s.balances
    && var b := s.balances[m.userId];
       s'.balances[m.userId] == BalanceRow(b.credits - m.cost, b.reserved - m.cost)
  }

  /** Given up and refunded: the reservation goes, the credits stay. */
  ghost predicate ClosesRefunded(s: Store, s': Store, j: nat, now: real)
    requires j < |s.jobs| && j < |s.messages|
  {
    var m := s.messages[j];
    && OnlyJob(s, s', j)
    && s'.messages[j] == m.(status := PermanentFailed, payment := Refunded)
    && s'.jobs[j] == s.jobs[j].(status := JobStatus.Failed, completedAt := Some(now), lockedAt := None,
                                lockedBy := None)
    && m.userId in s.balances
    && var b := s.balances[m.userId];
       s'.balances[m.userId] == BalanceRow(b.credits, b.reserved - m.cost)
  }

  /** Back to the outbox until `due`, with one more attempt spent and the payment still reserved. */
  ghost predicate Postpones(s: Store, s': Store, j: nat, due: real)
    requires j < |s.jobs| && j < |s.messages|
  {
    && OnlyJob(s, s', j)
    && s'.balances == s.balances
    && s'.messages[j] == s.messages[j].(status := MessageStatus.Failed, payment := Reserved)
    && s'.jobs[j] == s.jobs[j].(status := Retry, deliveryAttempts := s.jobs[j].deliveryAttempts + 1,
                                availableAt := due, lockedAt := None, lockedBy := None)
  }

  /** Under this worker's lease from now on. */
  ghost predicate Takes(s: Store, s': Store, j: nat, worker: nat, now: real)
    requires j < |s.jobs| && j < |s.messages|
  {
    && OnlyJob(s, s', j)
    && s'.balances == s.balances
    && s'.messages[j] == s.messages[j].(status := MessageStatus.Dispatching)
    && s'.jobs[j] == s.jobs[j].(status := JobStatus.Dispatching, lockedAt := Some(now),
                                lockedBy := Some(Worker(worker)))
  }

  // ---------------------------------------------------------------- which answer is given

  /** An express message whose time to live is over at `at`. */
  predicate TooLate(cfg: Config, m: MessageRow, at: real) {
    m.priority == Express && cfg.expressTtl.Some? && m.createdAt + cfg.expressTtl.value as real < at
  }

  /** Published, being published under a relay's lock, or left by a worker whose lease of two minutes is over. */
  predicate Takeable(job: JobRow, now: real) {
    || job.status == Published
    || (job.status in {Pending, Retry} && job.lockedAt.Some? && job.lockedBy.Some?)
    || (job.status == JobStatus.Dispatching && (job.lockedAt.None? || job.lockedAt.value + 120.0 <= now))
  }

  ghost predicate ClaimAnswered(cfg: Config, s: Store, j: nat, worker: nat, now: real, s': Store,
                                outcome: ClaimOutcome)
  {
    if |s.jobs| <= j || |s.messages| <= j || !Takeable(s.jobs[j], now) then outcome == NothingToDo && s' == s
    else if s.messages[j].payment != Reserved then outcome == PaymentNotReserved && s' == s
    else if TooLate(cfg, s.messages[j], now) then outcome == Expired && ClosesRefunded(s, s', j, now)
    else outcome == Claimed(j) && Takes(s, s', j, worker, now)
  }

  predicate Holds(s: Store, j: nat, worker: nat) {
    j < |s.jobs| && s.jobs[j].status == JobStatus.Dispatching && s.jobs[j].lockedBy == Some(Worker(worker))
  }

  ghost predicate RecordAnswered(cfg: Config, s: Store, j: nat, worker: nat, result: ProviderResult, jitter: real,
                                 now: real, s': Store, outcome: RecordOutcome)
  {
    if !Holds(s, j, worker) || |s.messages| <= j then outcome == LeaseLost && s' == s
    else if result.outcome == Success then
      match result.providerMessageId
      case None => outcome == MissingProviderId && s' == s
      case Some(id) => outcome == Settled && ClosesPaid(s, s', j, id, now)
    else
      var attempts := s.jobs[j].deliveryAttempts + 1;
      var due := now + (Backoff(attempts) as real + jitter);
      if result.outcome == TemporaryFailure && attempts < cfg.maxAttempts && !TooLate(cfg, s.messages[j], due) then
        outcome == RetryScheduled && Postpones(s, s', j, due)
      else outcome == GivenUp && ClosesRefunded(s, s', j, now)
  }

  /** The refund always goes through. */
  lemma FailCloses(s: Store, j: nat, now: real)
    requires Sound(s) && j < |s.jobs| && s.messages[j].payment == Reserved
    ensures Linked(j, s.jobs[j], s.messages[j])
    ensures PermanentlyFail(s, j, now).1 && ClosesRefunded(s, PermanentlyFail(s, j, now).0, j, now)
  {
    RefundPerforms(s, j, now);
  }

  lemma SuccessAnswered(cfg: Config, s: Store, j: nat, worker: nat, result: ProviderResult, jitter: real, now: real)
    requires Sound(s) && Holds(s, j, worker) && result.outcome == Success
    ensures var (s', outcome) := Record(cfg, s, j, worker, result, jitter, now);
            RecordAnswered(cfg, s, j, worker, result, jitter, now, s', outcome)
  {
    assert Linked(j, s.jobs[j], s.messages[j]);
    RecordPerforms(cfg, s, j, worker, result, jitter, now);
  }

  lemma FailureAnswered(cfg: Config, s: Store, j: nat, worker: nat, result: ProviderResult, jitter: real, now: real)
    requires Sound(s) && Holds(s, j, worker) && result.outcome != Success
    ensures var (s', outcome) := Record(cfg, s, j, worker, result, jitter, now);
            RecordAnswered(cfg, s, j, worker, result, jitter, now, s', outcome)
  {
    assert Guarded(s.jobs[j], s.messages[j]);
    FailCloses(s, j, now);
  }

  /** Which outcome each provider result gives, and everything that is then written. */
  lemma RecordAnswers(cfg: Config, s: Store, j: nat, worker: nat, result: ProviderResult, jitter: real, now: real)
    requires Sound(s)
    ensures var (s', outcome) := Record(cfg, s, j, worker, result, jitter, now);
            RecordAnswered(cfg, s, j, worker, result, jitter, now, s', outcome)
  {
    if Holds(s, j, worker) {
      if result.outcome == Success {
        SuccessAnswered(cfg, s, j, worker, result, jitter, now);
      } else {
        FailureAnswered(cfg, s, j, worker, result, jitter, now);
      }
    }
  }

  /** When a job is taken, expires, or is left alone, and everything that is then written. */
  lemma ClaimAnswers(cfg: Config, s: Store, j: nat, worker: nat, now: real)
    requires Sound(s)
    ensures var (s', outcome) := ClaimForDelivery(cfg, s, j, worker, now);
            ClaimAnswered(cfg, s, j, worker, now, s', outcome)
  {
    if j < |s.jobs| {
      assert Linked(j, s.jobs[j], s.messages[j]);
      if s.messages[j].payment == Reserved {
        FailCloses(s, j, now);
      }
    }
  }

  /** The same in every reachable state, where a job in delivery always carries the time of its lease. */
  predicate FreeToTake(job: JobRow, now: real) {
    || job.status == Published
    || (job.status in {Pending, Retry} && job.lockedAt.Some? && job.lockedBy.Some?)
    || (job.status == JobStatus.Dispatching && job.lockedAt.Some? && job.lockedAt.value + 120.0 <= now)
  }

  /**
   * On every run a worker gets a job exactly when it is free to take, its payment is reserved and its time to live is
   * not over; if only the time to live stands in the way, the job is closed and refunded.
   */
  lemma ClaimedIff(cfg: Config, start: real, actions: seq<Action>, j: nat, worker: nat)
    requires cfg.Valid()
    ensures var w := Run(cfg, Initial(start), actions);
            var outcome := ClaimForDelivery(cfg, w.store, j, worker, w.now).1;
      && (j < |w.store.jobs| ==> j < |w.store.messages|)
      && (outcome.Claimed? <==>
            && j < |w.store.jobs| && FreeToTake(w.store.jobs[j], w.now)
            && w.store.messages[j].payment == Reserved && !TooLate(cfg, w.store.messages[j], w.now))
      && (outcome.Expired? <==>
            && j < |w.store.jobs| && FreeToTake(w.store.jobs[j], w.now)
            && w.store.messages[j].payment == Reserved && TooLate(cfg, w.store.messages[j], w.now))
  {
    var w := Run(cfg, Initial(start), actions);
    RunLeased(cfg, start, actions);
    ClaimAnswers(cfg, w.store, j, worker, w.now);
    if j < |w.store.jobs| {
      assert LockOk(w.store.jobs[j], w.now);
    }
  }
}

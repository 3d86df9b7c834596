/** The rows of the gateway's tables, its settings, and the transitions that one row can make. */
module Domain {
  datatype Option<+T> = None | Some(value: T)

  datatype Priority = Normal | Express

  datatype MessageStatus = Queued | Dispatching | Failed | Sent | PermanentFailed

  datatype PaymentStatus = Reserved | Deducted | Refunded

  datatype JobStatus = Pending | Published | Dispatching | Retry | Completed | Failed {
    predicate Terminal() {
      this == Completed || this == JobStatus.Failed
    }

    /** Waiting in the outbox for a relay. */
    predicate Waiting() {
      this == Pending || this == Retry
    }
  }

  /** Who wrote `locked_by`. Relay ids contain colons and worker ids are plain hex, so they never coincide. */
  datatype Holder = Relay(id: nat) | Worker(id: nat)

  /** Seconds a relay's claim is honoured. */
  const LEASE_SECONDS: real := 60.0
  /** Seconds a published or dispatching job may stay in flight before the reaper takes it. */
  const INFLIGHT_LEASE_SECONDS: real := 120.0
  /** Seconds a worker's delivery lease is honoured by other workers. */
  const WORKER_LEASE_SECONDS: real := 120.0

  /** Money is in cents. */
  datatype Config = Config(costNormal: int, costExpress: int, maxAttempts: int, expressTtl: Option<int>) {
    /** What the settings validators enforce. */
    predicate Valid() {
      && 0 < costNormal
      && 0 < costExpress
      && 0 < maxAttempts
      && (expressTtl.Some? ==> 0 < expressTtl.value)
    }

    function Cost(priority: Priority): int {
      match priority
      case Normal => costNormal
      case Express => costExpress
    }
  }

  datatype BalanceRow = BalanceRow(credits: int, reserved: int) {
    /** The CHECK constraints of the balances table. */
    predicate ChecksHold() {
      0 <= credits && reserved <= credits && 0 <= reserved
    }
  }

  datatype MessageRow = MessageRow(
    userId: int,
    recipient: string,
    body: string,
    cost: int,
    priority: Priority,
    idempotencyKey: nat,
    status: MessageStatus,
    payment: PaymentStatus,
    createdAt: real)

  datatype JobRow = JobRow(
    messageId: nat,
    userId: int,
    priority: Priority,
    status: JobStatus,
    retryCount: nat,
    deliveryAttempts: nat,
    availableAt: real,
    lockedAt: Option<real>,
    lockedBy: Option<Holder>,
    publishedAt: Option<real>,
    completedAt: Option<real>,
    providerMessageId: Option<string>,
    createdAt: real)

  /** The database. Rows are never deleted, so a row's position serves as its id. */
  datatype Store = Store(balances: map<int, BalanceRow>, messages: seq<MessageRow>, jobs: seq<JobRow>)

  function Min(a: int, b: int): int {
    if a <= b then a else b
  }

  function Pow2(n: nat): (p: nat)
    ensures 1 <= p
  {
    if n == 0 then 1 else 2 * Pow2(n - 1)
  }

  /** Exponential part of both backoffs; the jitter is added by the caller. */
  function Backoff(retryCount: nat): (seconds: nat)
    ensures 1 <= seconds <= 60
  {
    Min(60, Pow2(Min(retryCount, 6)))
  }

  lemma {:induction false} Pow2Monotone(m: nat, n: nat)
    requires m <= n
    ensures Pow2(m) <= Pow2(n)
  {
    if m < n {
      Pow2Monotone(m, n - 1);
    }
  }

  /** A later retry never waits less than an earlier one. */
  lemma BackoffMonotone(m: nat, n: nat)
    requires m <= n
    ensures Backoff(m) <= Backoff(n)
  {
    Pow2Monotone(Min(m, 6), Min(n, 6));
  }

  /** It starts at one second and doubles up to a minute. */
  lemma BackoffDoubles(n: nat)
    ensures Backoff(0) == 1
    ensures Backoff(n + 1) == Min(60, 2 * Backoff(n))
  {
    assert Pow2(6) == 64 by {
      assert Pow2(3) == 8;
    }
  }

  // ---------------------------------------------------------------- balance rows

  function ReserveRow(b: BalanceRow, amount: int): BalanceRow {
    b.(reserved := b.reserved + amount)
  }

  function ReleaseRow(b: BalanceRow, amount: int): BalanceRow {
    b.(reserved := b.reserved - amount)
  }

  function SettleRow(b: BalanceRow, amount: int): BalanceRow {
    b.(credits := b.credits - amount, reserved := b.reserved - amount)
  }

  // ---------------------------------------------------------------- message rows

  function MessageDispatching(m: MessageRow): MessageRow {
    m.(status := MessageStatus.Dispatching)
  }

  function MessageSent(m: MessageRow): MessageRow {
    m.(status := Sent, payment := Deducted)
  }

  function MessageRetryable(m: MessageRow): MessageRow {
    m.(status := MessageStatus.Failed, payment := Reserved)
  }

  function MessageRefunded(m: MessageRow): MessageRow {
    m.(status := PermanentFailed, payment := Refunded)
  }

  // ---------------------------------------------------------------- job rows

  function JobDispatching(job: JobRow, worker: nat, now: real): JobRow {
    job.(status := JobStatus.Dispatching, lockedAt := Some(now), lockedBy := Some(Worker(worker)))
  }

  function JobCompleted(job: JobRow, providerMessageId: string, now: real): JobRow {
    job.(status := Completed, providerMessageId := Some(providerMessageId), completedAt := Some(now),
         lockedAt := None, lockedBy := None)
  }

  function JobFailed(job: JobRow, now: real): JobRow {
    job.(status := JobStatus.Failed, completedAt := Some(now), lockedAt := None, lockedBy := None)
  }

  function JobDeliveryRetry(job: JobRow, delay: real, now: real): JobRow {
    job.(status := Retry, deliveryAttempts := job.deliveryAttempts + 1, availableAt := now + delay,
         lockedAt := None, lockedBy := None)
  }

  function JobClaimed(job: JobRow, relay: nat, now: real): JobRow {
    job.(lockedAt := Some(now), lockedBy := Some(Relay(relay)))
  }

  function JobPublished(job: JobRow, now: real): JobRow {
    job.(status := Published, publishedAt := Some(now), lockedAt := None, lockedBy := None)
  }

  function JobPublishRetry(job: JobRow, delay: real, now: real): JobRow {
    job.(status := Retry, retryCount := job.retryCount + 1, availableAt := now + delay,
         lockedAt := None, lockedBy := None)
  }

  function JobReaped(job: JobRow, now: real): JobRow {
    job.(status := Retry, deliveryAttempts := job.deliveryAttempts + 1, availableAt := now,
         lockedAt := None, lockedBy := None)
  }
}

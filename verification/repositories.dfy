/** The repositories: in-place changes of loaded rows, and the bulk statements of the outbox. */
module Repositories {
  import opened Domain
  import opened Outbox
  import OutboxLaws
  import opened FairBatch
  import opened FairBatchLaws
  import Submission
  import opened Tables

  datatype LedgerError = InvalidAmountValue | UserNotFound

  class BalanceRepository {
    const session: Session

    constructor (session: Session)
      ensures this.session == session
    {
      this.session := session;
    }

    /** The change to one balance, or the error raised instead of it. */
    method TopUpUserCredits(userId: int, amount: int) returns (balance: Balance?, error: Option<LedgerError>)
      ensures error == RefusalOf(session.balances, userId, amount) && (balance == null) == error.Some?
      ensures balance != null ==>
              && fresh(balance) && balance.userId == userId
              && balance.Row() == Submission.CreditRow(session.balances[userId], amount)
    {
      if amount <= 0 {
        return null, Some(InvalidAmountValue);
      }
      balance := session.SelectBalance(userId);
      if balance == null {
        return null, Some(UserNotFound);
      }
      balance.credits := balance.credits + amount;
      error := None;
    }

    method TopUpReservedCredits(userId: int, amount: int) returns (balance: Balance?, error: Option<LedgerError>)
      ensures error == RefusalOf(session.balances, userId, amount) && (balance == null) == error.Some?
      ensures balance != null ==>
              && fresh(balance) && balance.userId == userId
              && balance.Row() == ReserveRow(session.balances[userId], amount)
    {
      if amount <= 0 {
        return null, Some(InvalidAmountValue);
      }
      balance := session.SelectBalance(userId);
      if balance == null {
        return null, Some(UserNotFound);
      }
      balance.reserved := balance.reserved + amount;
      error := None;
    }

    method DeductReservedCredits(userId: int, amount: int) returns (balance: Balance?, error: Option<LedgerError>)
      ensures error == RefusalOf(session.balances, userId, amount) && (balance == null) == error.Some?
      ensures balance != null ==>
              && fresh(balance) && balance.userId == userId
              && balance.Row() == ReleaseRow(session.balances[userId], amount)
    {
      if amount <= 0 {
        return null, Some(InvalidAmountValue);
      }
      balance := session.SelectBalance(userId);
      if balance == null {
        return null, Some(UserNotFound);
      }
      balance.reserved := balance.reserved - amount;
      error := None;
    }

    method ReserveCredits(userId: int, amount: int) returns (balance: Balance?, error: Option<LedgerError>)
      ensures error == RefusalOf(session.balances, userId, amount) && (balance == null) == error.Some?
      ensures balance != null ==>
              && fresh(balance) && balance.userId == userId
              && balance.Row() == ReserveRow(session.balances[userId], amount)
    {
      balance, error := TopUpReservedCredits(userId, amount);
    }

    method ReleaseCredits(userId: int, amount: int) returns (balance: Balance?, error: Option<LedgerError>)
      ensures error == RefusalOf(session.balances, userId, amount) && (balance == null) == error.Some?
      ensures balance != null ==>
              && fresh(balance) && balance.userId == userId
              && balance.Row() == ReleaseRow(session.balances[userId], amount)
    {
      balance, error := DeductReservedCredits(userId, amount);
    }

    method Settle(userId: int, amount: int) returns (balance: Balance?, error: Option<LedgerError>)
      ensures error == RefusalOf(session.balances, userId, amount) && (balance == null) == error.Some?
      ensures balance != null ==>
              fresh(balance) && balance.userId == userId && balance.Row() == SettleRow(session.balances[userId], amount)
    {
      if amount <= 0 {
        return null, Some(InvalidAmountValue);
      }
      balance := session.SelectBalance(userId);
      if balance == null {
        return null, Some(UserNotFound);
      }
      balance.reserved := balance.reserved - amount;
      balance.credits := balance.credits - amount;
      error := None;
    }
  }

  /** Why a ledger move is refused before it touches a row. */
  function RefusalOf(balances: map<int, BalanceRow>, userId: int, amount: int): Option<LedgerError> {
    if amount <= 0 then Some(InvalidAmountValue)
    else if userId !in balances then Some(UserNotFound)
    else None
  }

  class MessageRepository {
    const session: Session

    constructor (session: Session)
      ensures this.session == session
    {
      this.session := session;
    }

    method MarkDispatching(message: Message)
      modifies message
      ensures message.Row() == MessageDispatching(old(message.Row()))
    {
      message.status := MessageStatus.Dispatching;
    }

    method MarkSent(message: Message)
      modifies message
      ensures message.Row() == MessageSent(old(message.Row()))
    {
      message.status := Sent;
      message.payment := Deducted;
    }

    method MarkRetryableFailure(message: Message)
      modifies message
      ensures message.Row() == MessageRetryable(old(message.Row()))
    {
      message.status := MessageStatus.Failed;
      message.payment := Reserved;
    }

    method MarkPermanentFailure(message: Message)
      modifies message
      ensures message.Row() == MessageRefunded(old(message.Row()))
    {
      message.status := PermanentFailed;
      message.payment := Refunded;
    }
  }

  /** A claimed job as the relay remembers it after its transaction. */
  datatype ClaimedJob = ClaimedJob(id: nat, retryCount: nat)

  function IdsOf(jobs: seq<ClaimedJob>): set<nat> {
    set c | c in jobs :: c.id
  }

  function SetOf(ids: seq<nat>): set<nat> {
    set i | i in ids
  }

  function Below(ids: set<nat>, n: nat): set<nat> {
    set i | i in ids && i < n
  }

  lemma OneMoreBelow(ids: set<nat>, k: nat)
    ensures |Below(ids, k + 1)| == |Below(ids, k)| + if k in ids then 1 else 0
  {
    assert Below(ids, k + 1) == Below(ids, k) + if k in ids then {k} else {};
  }

  /** The due rows of one priority as the database lists them. */
  ghost predicate ListsEligible(due: seq<Due>, jobs: seq<JobRow>, priority: Priority, now: real) {
    && (forall d :: d in due ==>
          && d.job < |jobs|
          && Eligible(jobs[d.job], priority, now)
          && d.userId == jobs[d.job].userId
          && d.availableAt == jobs[d.job].availableAt
          && d.createdAt == jobs[d.job].createdAt)
    && (forall i :: 0 <= i < |jobs| && Eligible(jobs[i], priority, now) ==> exists d :: d in due && d.job == i)
  }

  /** The rows of a batch. */
  ghost function JobsOf(batch: seq<Due>): set<nat> {
    set d | d in batch :: d.job
  }

  class DispatchJobRepository {
    const session: Session

    constructor (session: Session)
      ensures this.session == session
    {
      this.session := session;
    }

    /**
     * Two passes over the due rows, then a lock on each row of the batch. `ranked` and `due` are the two listings the
     * database answers with, and `locked` the rows it skips because another transaction holds them.
     */
    method ClaimBatch(priority: Priority, relay: nat, limit: nat, perUser: nat, now: real,
                      ranked: seq<Due>, due: seq<Due>, locked: set<nat>) returns (claimed: seq<ClaimedJob>)
      requires Listings(ranked, due) && ListsEligible(due, session.jobs, priority, now)
      modifies session`jobs
      ensures var batch := Batch(ranked, due, locked, limit, perUser);
        && IdsOf(claimed) == JobsOf(batch)
        && |claimed| == |batch|
        && (forall i :: 0 <= i < |batch| ==> claimed[i].id == batch[i].job)
        && (forall c :: c in claimed ==>
              c.id < |old(session.jobs)| && c.retryCount == old(session.jobs)[c.id].retryCount)
        && AllEligible(old(session.jobs), IdsOf(claimed), priority, now)
        && session.jobs == ClaimAll(old(session.jobs), IdsOf(claimed), relay, now)
      ensures forall c :: c in claimed ==> OutboxLaws.Claimable(old(session.jobs)[c.id], priority, now)
      ensures OutboxLaws.Locks(old(session.jobs), session.jobs, IdsOf(claimed), relay, now)
    {
      ghost var rows := session.jobs;
      var jobs := FairPass(ranked, due, locked, limit, perUser);
      var remaining := limit - |jobs|;
      if remaining > 0 {
        jobs := jobs + TopUpPass(due, jobs, locked, remaining);
      }
      BatchEligible(ranked, due, locked, limit, perUser, session.jobs, priority, now);
      claimed := LockAll(jobs, relay, now);
      ClaimedIds(claimed, jobs);
      OutboxLaws.ClaimColumns(rows, IdsOf(claimed), relay, priority, now);
    }

    /** `for job in jobs`: stamp the lock on each row. */
    method LockAll(jobs: seq<Due>, relay: nat, now: real) returns (claimed: seq<ClaimedJob>)
      requires forall d :: d in jobs ==> d.job < |session.jobs|
      modifies session`jobs
      ensures |claimed| == |jobs|
      ensures forall i :: 0 <= i < |jobs| ==>
                claimed[i] == ClaimedJob(jobs[i].job, old(session.jobs)[jobs[i].job].retryCount)
      ensures session.jobs == ClaimAll(old(session.jobs), JobsOf(jobs), relay, now)
    {
      claimed := [];
      ghost var rows := session.jobs;
      assert rows == ClaimAll(rows, JobsOf(jobs[..0]), relay, now);
      for k := 0 to |jobs|
        invariant |claimed| == k
        invariant forall i :: 0 <= i < k ==> claimed[i] == ClaimedJob(jobs[i].job, rows[jobs[i].job].retryCount)
        invariant session.jobs == ClaimAll(rows, JobsOf(jobs[..k]), relay, now)
      {
        var i := jobs[k].job;
        assert jobs[k] in jobs;
        claimed := claimed + [ClaimedJob(i, session.jobs[i].retryCount)];
        session.jobs := session.jobs[i := session.jobs[i].(lockedAt := Some(now), lockedBy := Some(Relay(relay)))];
        ClaimOneMore(rows, jobs, k, relay, now);
      }
      assert jobs[..|jobs|] == jobs;
    }

    /** The reaper's subquery: up to `limit` stale rows, in whatever order the database scans them. */
    method SelectStale(priority: Priority, limit: nat, now: real, scan: seq<nat>) returns (ids: seq<nat>)
      requires forall i :: 0 <= i < |session.jobs| ==> i in scan
      requires forall i, j :: 0 <= i < j < |scan| ==> scan[i] != scan[j]
      ensures AllStale(session.jobs, SetOf(ids), priority, now)
      ensures |ids| <= limit
      ensures forall i, j :: 0 <= i < j < |ids| ==> ids[i] != ids[j]
      ensures |ids| < limit ==>
              forall i :: 0 <= i < |session.jobs| && Stale(session.jobs[i], priority, now) ==> i in ids
    {
      ids := [];
      var k := 0;
      while k < |scan| && |ids| < limit
        invariant 0 <= k <= |scan| && |ids| <= limit
        invariant forall i :: i in ids ==> i < |session.jobs| && Stale(session.jobs[i], priority, now) && i in scan[..k]
        invariant forall i, j :: 0 <= i < j < |ids| ==> ids[i] != ids[j]
        invariant forall i :: i in scan[..k] && i < |session.jobs| && Stale(session.jobs[i], priority, now) ==> i in ids
      {
        var i := scan[k];
        assert i !in scan[..k];
        if i < |session.jobs| && Stale(session.jobs[i], priority, now) {
          ids := ids + [i];
        }
        assert scan[..k + 1] == scan[..k] + [i];
        k := k + 1;
      }
      assert scan[..|scan|] == scan;
    }

    /** The reaper's update by id: nothing about the rows is looked at again. */
    method UpdateReaped(ids: set<nat>, now: real) returns (reclaimed: nat)
      modifies session`jobs
      ensures session.jobs == Reap(old(session.jobs), ids, now)
      ensures reclaimed == |Below(ids, |old(session.jobs)|)|
    {
      reclaimed := 0;
      ghost var rows := session.jobs;
      for k := 0 to |session.jobs|
        invariant |session.jobs| == |rows| && reclaimed == |Below(ids, k)|
        invariant forall i :: 0 <= i < k ==> session.jobs[i] == Reap(rows, ids, now)[i]
        invariant forall i :: k <= i < |rows| ==> session.jobs[i] == rows[i]
      {
        OneMoreBelow(ids, k);
        if k in ids {
          var job := session.jobs[k];
          session.jobs := session.jobs[k := job.(status := Retry, deliveryAttempts := job.deliveryAttempts + 1,
                                                 availableAt := now, lockedAt := None, lockedBy := None)];
          reclaimed := reclaimed + 1;
        }
      }
      assert session.jobs == Reap(rows, ids, now);
    }

    method MarkPublished(jobIds: seq<nat>, relay: nat, now: real)
      modifies session`jobs
      ensures session.jobs == Outbox.MarkPublished(old(session.jobs), SetOf(jobIds), relay, now)
    {
      ghost var rows, ids := session.jobs, SetOf(jobIds);
      if jobIds == [] {
        assert rows == Outbox.MarkPublished(rows, ids, relay, now);
        return;
      }
      for k := 0 to |session.jobs|
        invariant |session.jobs| == |rows|
        invariant forall i :: 0 <= i < k ==> session.jobs[i] == Outbox.MarkPublished(rows, ids, relay, now)[i]
        invariant forall i :: k <= i < |rows| ==> session.jobs[i] == rows[i]
      {
        var job := session.jobs[k];
        if k in jobIds && job.lockedBy == Some(Relay(relay)) && job.status in {Pending, Retry} {
          session.jobs := session.jobs[k := job.(status := Published, publishedAt := Some(now), lockedAt := None,
                                                 lockedBy := None)];
        }
      }
      assert session.jobs == Outbox.MarkPublished(rows, ids, relay, now);
    }

    method MarkPublishRetry(jobIds: seq<nat>, relay: nat, delay: real, now: real)
      modifies session`jobs
      ensures session.jobs == Outbox.MarkPublishRetry(old(session.jobs), SetOf(jobIds), relay, delay, now)
    {
      ghost var rows, ids := session.jobs, SetOf(jobIds);
      if jobIds == [] {
        assert rows == Outbox.MarkPublishRetry(rows, ids, relay, delay, now);
        return;
      }
      var nextAttempt := now + delay;
      for k := 0 to |session.jobs|
        invariant |session.jobs| == |rows|
        invariant forall i :: 0 <= i < k ==> session.jobs[i] == Outbox.MarkPublishRetry(rows, ids, relay, delay, now)[i]
        invariant forall i :: k <= i < |rows| ==> session.jobs[i] == rows[i]
      {
        var job := session.jobs[k];
        if k in jobIds && job.lockedBy == Some(Relay(relay)) && job.status in {Pending, Retry} {
          session.jobs := session.jobs[k := job.(status := Retry, retryCount := job.retryCount + 1,
                                                 availableAt := nextAttempt, lockedAt := None, lockedBy := None)];
        }
      }
      assert session.jobs == Outbox.MarkPublishRetry(rows, ids, relay, delay, now);
    }

    method MarkDispatching(job: DispatchJob, worker: nat, now: real)
      modifies job
      ensures job.Row() == JobDispatching(old(job.Row()), worker, now)
    {
      job.status := JobStatus.Dispatching;
      job.lockedAt := Some(now);
      job.lockedBy := Some(Worker(worker));
    }

    method MarkCompleted(job: DispatchJob, providerMessageId: string, now: real)
      modifies job
      ensures job.Row() == JobCompleted(old(job.Row()), providerMessageId, now)
    {
      job.status := Completed;
      job.providerMessageId := Some(providerMessageId);
      job.completedAt := Some(now);
      job.lockedAt := None;
      job.lockedBy := None;
    }

    method MarkDeliveryRetry(job: DispatchJob, delay: real, now: real)
      modifies job
      ensures job.Row() == JobDeliveryRetry(old(job.Row()), delay, now)
    {
      job.status := Retry;
      job.deliveryAttempts := job.deliveryAttempts + 1;
      job.availableAt := now + delay;
      job.lockedAt := None;
      job.lockedBy := None;
    }

    method MarkFailed(job: DispatchJob, now: real)
      modifies job
      ensures job.Row() == JobFailed(old(job.Row()), now)
    {
      job.status := JobStatus.Failed;
      job.completedAt := Some(now);
      job.lockedAt := None;
      job.lockedBy := None;
    }
  }

  lemma ClaimOneMore(rows: seq<JobRow>, jobs: seq<Due>, k: nat, relay: nat, now: real)
    requires k < |jobs| && jobs[k].job < |rows|
    ensures var before := ClaimAll(rows, JobsOf(jobs[..k]), relay, now);
            var after := ClaimAll(rows, JobsOf(jobs[..k + 1]), relay, now);
            var i := jobs[k].job;
            after == before[i := before[i].(lockedAt := Some(now), lockedBy := Some(Relay(relay)))]
  {
    assert jobs[..k + 1] == jobs[..k] + [jobs[k]];
    assert JobsOf(jobs[..k + 1]) == JobsOf(jobs[..k]) + {jobs[k].job};
  }

  /** Every row of a batch is due. */
  lemma BatchEligible(ranked: seq<Due>, due: seq<Due>, locked: set<nat>, limit: nat, perUser: nat,
                      jobs: seq<JobRow>, priority: Priority, now: real)
    requires Listings(ranked, due) && ListsEligible(due, jobs, priority, now)
    ensures var batch := Batch(ranked, due, locked, limit, perUser);
      (forall d :: d in batch ==> d.job < |jobs|) && AllEligible(jobs, JobsOf(batch), priority, now)
  {
    var batch := Batch(ranked, due, locked, limit, perUser);
    BatchWithin(ranked, due, locked, limit, perUser);
    forall d | d in batch
      ensures d in due
    {
      assert d in multiset(batch) && d in multiset(due);
    }
  }

  lemma ClaimedIds(claimed: seq<ClaimedJob>, batch: seq<Due>)
    requires |claimed| == |batch| && forall i :: 0 <= i < |batch| ==> claimed[i].id == batch[i].job
    ensures IdsOf(claimed) == JobsOf(batch)
  {
    forall id | id in IdsOf(claimed)
      ensures id in JobsOf(batch)
    {
      var i :| 0 <= i < |claimed| && claimed[i].id == id;
      assert batch[i] in batch;
    }
    forall id | id in JobsOf(batch)
      ensures id in IdsOf(claimed)
    {
      var i :| 0 <= i < |batch| && batch[i].job == id;
      assert claimed[i] in claimed;
    }
  }
}

/** What the outbox statements choose and write, column by column, and how long a failed publication waits. */
module OutboxLaws {
  import opened Domain
  import opened Outbox

  /** Pending or to be retried, due, and free for a minute-old lock at most. */
  predicate Claimable(job: JobRow, priority: Priority, now: real) {
    && job.priority == priority
    && job.status in {Pending, Retry}
    && job.availableAt <= now
    && (job.lockedAt.None? || job.lockedAt.value + 60.0 < now)
  }

  /** In flight for more than two minutes: published and not taken, or taken and not recorded. */
  predicate Stranded(job: JobRow, priority: Priority, now: real) {
    && job.priority == priority
    && (|| (job.status == Published && job.publishedAt.Some? && job.publishedAt.value + 120.0 < now)
        || (job.status == JobStatus.Dispatching && job.lockedAt.Some? && job.lockedAt.value + 120.0 < now))
  }

  predicate WaitsUnder(job: JobRow, relay: nat) {
    job.status in {Pending, Retry} && job.lockedBy == Some(Relay(relay))
  }

  ghost predicate Locks(jobs: seq<JobRow>, jobs': seq<JobRow>, ids: set<nat>, relay: nat, now: real) {
    && |jobs'| == |jobs|
    && forall i :: 0 <= i < |jobs| ==>
         jobs'[i] == if i in ids then jobs[i].(lockedAt := Some(now), lockedBy := Some(Relay(relay))) else jobs[i]
  }

  ghost predicate Sweeps(jobs: seq<JobRow>, jobs': seq<JobRow>, ids: set<nat>, now: real) {
    && |jobs'| == |jobs|
    && forall i :: 0 <= i < |jobs| ==>
         jobs'[i] == if i in ids
                     then jobs[i].(status := Retry, deliveryAttempts := jobs[i].deliveryAttempts + 1,
                                   availableAt := now, lockedAt := None, lockedBy := None)
                     else jobs[i]
  }

  /** The row is published at `now`, put back until `due`, or left alone because the relay does not hold it. */
  ghost predicate Marks(job: JobRow, job': JobRow, published: bool, failed: bool, relay: nat, due: real, now: real) {
    job' == if !WaitsUnder(job, relay) then job
            else if published then
              job.(status := Published, publishedAt := Some(now), lockedAt := None, lockedBy := None)
            else if failed then
              job.(status := Retry, retryCount := job.retryCount + 1, availableAt := due, lockedAt := None,
                   lockedBy := None)
            else job
  }

  ghost predicate MarksAll(jobs: seq<JobRow>, jobs': seq<JobRow>, published: set<nat>, failed: set<nat>, relay: nat,
                           due: real, now: real)
  {
    && |jobs'| == |jobs|
    && forall i :: 0 <= i < |jobs| ==> Marks(jobs[i], jobs'[i], i in published, i in failed, relay, due, now)
  }

  lemma ClaimColumns(jobs: seq<JobRow>, ids: set<nat>, relay: nat, priority: Priority, now: real)
    requires AllEligible(jobs, ids, priority, now)
    ensures forall i :: i in ids ==> i < |jobs| && Claimable(jobs[i], priority, now)
    ensures Locks(jobs, ClaimAll(jobs, ids, relay, now), ids, relay, now)
  {
  }

  lemma SweepColumns(jobs: seq<JobRow>, ids: set<nat>, priority: Priority, now: real)
    requires AllStale(jobs, ids, priority, now)
    ensures forall i :: i in ids ==> i < |jobs| && Stranded(jobs[i], priority, now)
    ensures forall i :: 0 <= i < |jobs| ==> (Stale(jobs[i], priority, now) <==> Stranded(jobs[i], priority, now))
    ensures Sweeps(jobs, Reap(jobs, ids, now), ids, now)
  {
  }

  /** A row that is published is no longer waiting, so the two marks never meet. */
  lemma MarkColumns(jobs: seq<JobRow>, published: set<nat>, failed: set<nat>, relay: nat, delay: real, now: real)
    ensures MarksAll(jobs, Mark(jobs, published, failed, relay, delay, now), published, failed, relay, now + delay, now)
  {
    var first := MarkPublished(jobs, published, relay, now);
    forall i | 0 <= i < |jobs|
      ensures var jobs' := Mark(jobs, published, failed, relay, delay, now);
              Marks(jobs[i], jobs'[i], i in published, i in failed, relay, now + delay, now)
    {
      assert first[i] == if i in published && HeldBy(jobs[i], relay) then JobPublished(jobs[i], now) else jobs[i];
    }
  }
}

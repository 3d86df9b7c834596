/** The relay half of the protocol: claims, publication marks and the reaper, as updates of the jobs table. */
module Outbox {
  import opened Domain

  /** Due for a relay: waiting, available, and not under another relay's live claim. */
  predicate Eligible(job: JobRow, priority: Priority, now: real) {
    && job.priority == priority
    && job.status.Waiting()
    && job.availableAt <= now
    && (job.lockedAt.None? || job.lockedAt.value < now - LEASE_SECONDS)
  }

  /** Stranded in flight: published and never picked up, or taken by a worker that went silent. */
  predicate Stale(job: JobRow, priority: Priority, now: real) {
    && job.priority == priority
    && (|| (&& job.status == Published
            && job.publishedAt.Some?
            && job.publishedAt.value < now - INFLIGHT_LEASE_SECONDS)
        || (&& job.status == JobStatus.Dispatching
            && job.lockedAt.Some?
            && job.lockedAt.value < now - INFLIGHT_LEASE_SECONDS))
  }

  /** The fence on both marks: still waiting, and still locked by this relay. */
  predicate HeldBy(job: JobRow, relay: nat) {
    job.lockedBy == Some(Relay(relay)) && job.status.Waiting()
  }

  function ClaimAll(jobs: seq<JobRow>, ids: set<nat>, relay: nat, now: real): (jobs': seq<JobRow>)
    ensures |jobs'| == |jobs|
  {
    seq(|jobs|, i requires 0 <= i < |jobs| => if i in ids then JobClaimed(jobs[i], relay, now) else jobs[i])
  }

  function MarkPublished(jobs: seq<JobRow>, ids: set<nat>, relay: nat, now: real): (jobs': seq<JobRow>)
    ensures |jobs'| == |jobs|
  {
    seq(|jobs|, i requires 0 <= i < |jobs| =>
      if i in ids && HeldBy(jobs[i], relay) then JobPublished(jobs[i], now) else jobs[i])
  }

  function MarkPublishRetry(jobs: seq<JobRow>, ids: set<nat>, relay: nat, delay: real, now: real)
    : (jobs': seq<JobRow>)
    ensures |jobs'| == |jobs|
  {
    seq(|jobs|, i requires 0 <= i < |jobs| =>
      if i in ids && HeldBy(jobs[i], relay) then JobPublishRetry(jobs[i], delay, now) else jobs[i])
  }

  /** Both marks of one publication run, committed together. */
  function Mark(jobs: seq<JobRow>, published: set<nat>, failed: set<nat>, relay: nat, delay: real, now: real)
    : (jobs': seq<JobRow>)
    ensures |jobs'| == |jobs|
  {
    MarkPublishRetry(MarkPublished(jobs, published, relay, now), failed, relay, delay, now)
  }

  function Reap(jobs: seq<JobRow>, ids: set<nat>, now: real): (jobs': seq<JobRow>)
    ensures |jobs'| == |jobs|
  {
    seq(|jobs|, i requires 0 <= i < |jobs| => if i in ids then JobReaped(jobs[i], now) else jobs[i])
  }

  ghost predicate AllEligible(jobs: seq<JobRow>, ids: set<nat>, priority: Priority, now: real) {
    forall i :: i in ids ==> i < |jobs| && Eligible(jobs[i], priority, now)
  }

  ghost predicate AllStale(jobs: seq<JobRow>, ids: set<nat>, priority: Priority, now: real) {
    forall i :: i in ids ==> i < |jobs| && Stale(jobs[i], priority, now)
  }
}

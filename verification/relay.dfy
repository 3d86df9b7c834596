/** One relay process: the sweep, the claim, and the publication run with its two marks. */
module Relays {
  import opened Domain
  import opened Outbox
  import opened OutboxLaws
  import opened Repositories

  /** The longest prefix of the jobs that the broker accepted. */
  function AcceptedPrefix(accepts: seq<bool>): (n: nat)
    ensures n <= |accepts|
    ensures forall i :: 0 <= i < n ==> accepts[i]
    ensures n < |accepts| ==> !accepts[n]
  {
    if accepts == [] || !accepts[0] then 0 else 1 + AcceptedPrefix(accepts[1..])
  }

  function Ids(jobs: seq<ClaimedJob>): (ids: seq<nat>)
    ensures |ids| == |jobs|
    ensures forall i :: 0 <= i < |jobs| ==> ids[i] == jobs[i].id
  {
    seq(|jobs|, i requires 0 <= i < |jobs| => jobs[i].id)
  }

  /** The backoff of the whole failed tail is set by its most retried job. */
  function HighestRetryCount(jobs: seq<ClaimedJob>): nat
    requires jobs != []
  {
    var n := |jobs| - 1;
    if n == 0 || HighestRetryCount(jobs[..n]) < jobs[n].retryCount then jobs[n].retryCount
    else HighestRetryCount(jobs[..n])
  }

  lemma {:induction false} HighestIsHighest(jobs: seq<ClaimedJob>, i: nat)
    requires i < |jobs|
    ensures jobs[i].retryCount <= HighestRetryCount(jobs)
  {
    if i < |jobs| - 1 {
      HighestIsHighest(jobs[..|jobs| - 1], i);
    }
  }

  lemma {:induction false} HighestIsOne(jobs: seq<ClaimedJob>) returns (k: nat)
    requires jobs != []
    ensures k < |jobs| && jobs[k].retryCount == HighestRetryCount(jobs)
  {
    k := |jobs| - 1;
    if 0 < k && jobs[k].retryCount <= HighestRetryCount(jobs[..k]) {
      k := HighestIsOne(jobs[..k]);
    }
  }

  class Relay {
    const repository: DispatchJobRepository
    const relayId: nat
    const priority: Priority

    constructor (repository: DispatchJobRepository, relayId: nat, priority: Priority)
      ensures this.repository == repository && this.relayId == relayId && this.priority == priority
    {
      this.repository, this.relayId, this.priority := repository, relayId, priority;
    }

    /** One sweep whose selection and update share a transaction: stale rows only, and all of them when they fit. */
    method ReclaimStaleInflight(limit: nat, now: real, scan: seq<nat>) returns (ids: set<nat>)
      requires forall i :: 0 <= i < |repository.session.jobs| ==> i in scan
      requires forall i, j :: 0 <= i < j < |scan| ==> scan[i] != scan[j]
      modifies repository.session`jobs
      ensures AllStale(old(repository.session.jobs), ids, priority, now)
      ensures repository.session.jobs == Reap(old(repository.session.jobs), ids, now)
      ensures |ids| <= limit
      ensures |ids| < limit ==>
              forall i :: 0 <= i < |old(repository.session.jobs)|
                && Stale(old(repository.session.jobs)[i], priority, now)
                ==> i in ids
      ensures Sweeps(old(repository.session.jobs), repository.session.jobs, ids, now)
      ensures forall i :: i in ids ==>
                i < |old(repository.session.jobs)| && Stranded(old(repository.session.jobs)[i], priority, now)
      ensures |ids| < limit ==>
              forall i :: 0 <= i < |old(repository.session.jobs)|
                && Stranded(old(repository.session.jobs)[i], priority, now)
                ==> i in ids
    {
      var chosen := repository.SelectStale(priority, limit, now, scan);
      ids := SetOf(chosen);
      SizeOfSet(chosen);
      SweepColumns(repository.session.jobs, ids, priority, now);
      var reclaimed := repository.UpdateReaped(ids, now);
    }

    /** Hand the jobs to the broker in order until it refuses one; that job and all after it have failed. */
    method PublishInOrder(jobs: seq<ClaimedJob>, accepts: seq<bool>) returns (published: seq<nat>,
                          failed: seq<ClaimedJob>)
      requires |accepts| == |jobs|
      ensures var n := AcceptedPrefix(accepts);
        published == Ids(jobs[..n]) && failed == jobs[n..]
    {
      published, failed := [], [];
      var index := 0;
      while index < |jobs|
        invariant 0 <= index <= |jobs|
        invariant published == Ids(jobs[..index]) && failed == []
        invariant AcceptedPrefix(accepts) == index + AcceptedPrefix(accepts[index..])
      {
        if !accepts[index] {
          failed := failed + jobs[index..];
          break;
        }
        published := published + [jobs[index].id];
        assert accepts[index..][1..] == accepts[index + 1..];
        index := index + 1;
      }
    }

    /**
     * Publish, then mark both outcomes in one transaction: the failed tail waits one backoff, set by its most retried
     * job. `accepts` is what the broker will say to each job in turn.
     */
    method PublishClaimedJobs(jobs: seq<ClaimedJob>, accepts: seq<bool>, jitter: real, now: real)
      returns (published: seq<nat>, failed: seq<ClaimedJob>)
      requires |accepts| == |jobs| && 0.0 <= jitter <= 1.0
      modifies repository.session`jobs
      ensures var n := AcceptedPrefix(accepts);
        published == Ids(jobs[..n]) && failed == jobs[n..]
      ensures repository.session.jobs ==
              Mark(old(repository.session.jobs), SetOf(published), SetOf(Ids(failed)), relayId,
                   PublishDelay(failed, jitter), now)
      ensures MarksAll(old(repository.session.jobs), repository.session.jobs, SetOf(published), SetOf(Ids(failed)),
                       relayId, now + PublishDelay(failed, jitter), now)
    {
      ghost var rows := repository.session.jobs;
      published, failed := PublishInOrder(jobs, accepts);
      MarkColumns(rows, SetOf(published), SetOf(Ids(failed)), relayId, PublishDelay(failed, jitter), now);
      if jobs == [] {
        Unmarked(repository.session.jobs, relayId, PublishDelay([], jitter), now);
        return;
      }
      MarkOutcomes(published, failed, jitter, now);
    }

    method MarkOutcomes(published: seq<nat>, failed: seq<ClaimedJob>, jitter: real, now: real)
      modifies repository.session`jobs
      ensures repository.session.jobs ==
              Mark(old(repository.session.jobs), SetOf(published), SetOf(Ids(failed)), relayId,
                   PublishDelay(failed, jitter), now)
    {
      repository.MarkPublished(published, relayId, now);
      if failed == [] {
        NoRetries(repository.session.jobs, SetOf(Ids(failed)), relayId, PublishDelay(failed, jitter), now);
        return;
      }
      var highestRetryCount := MaxRetryCount(failed);
      repository.MarkPublishRetry(Ids(failed), relayId, Backoff(highestRetryCount) as real + jitter, now);
    }
  }

  function PublishDelay(failed: seq<ClaimedJob>, jitter: real): real {
    if failed == [] then 0.0 else Backoff(HighestRetryCount(failed)) as real + jitter
  }

  method MaxRetryCount(jobs: seq<ClaimedJob>) returns (highest: nat)
    requires jobs != []
    ensures highest == HighestRetryCount(jobs)
  {
    highest := jobs[0].retryCount;
    for i := 1 to |jobs|
      invariant highest == HighestRetryCount(jobs[..i])
    {
      assert jobs[..i + 1][..i] == jobs[..i];
      if jobs[i].retryCount > highest {
        highest := jobs[i].retryCount;
      }
    }
    assert jobs[..|jobs|] == jobs;
  }

  lemma NoRetries(jobs: seq<JobRow>, none: set<nat>, relay: nat, delay: real, now: real)
    requires none == {}
    ensures Outbox.MarkPublishRetry(jobs, none, relay, delay, now) == jobs
  {
  }

  lemma Unmarked(jobs: seq<JobRow>, relay: nat, delay: real, now: real)
    ensures Mark(jobs, SetOf(Ids([])), SetOf(Ids([])), relay, delay, now) == jobs
  {
    assert Outbox.MarkPublished(jobs, SetOf(Ids([])), relay, now) == jobs;
    NoRetries(jobs, SetOf(Ids([])), relay, delay, now);
  }

  lemma {:induction false} SizeOfSet(ids: seq<nat>)
    requires forall i, j :: 0 <= i < j < |ids| ==> ids[i] != ids[j]
    ensures |SetOf(ids)| == |ids|
  {
    if ids == [] {
      assert SetOf(ids) == {};
    } else {
      var n := |ids| - 1;
      SizeOfSet(ids[..n]);
      assert SetOf(ids) == SetOf(ids[..n]) + {ids[n]};
      assert ids[n] !in ids[..n];
    }
  }

  /** The wait is the backoff of the most retried of the failed jobs, plus the jitter. */
  ghost predicate IsTailWait(failed: seq<ClaimedJob>, jitter: real, wait: real) {
    exists k ::
      && 0 <= k < |failed|
      && (forall i :: 0 <= i < |failed| ==> failed[i].retryCount <= failed[k].retryCount)
      && wait == Backoff(failed[k].retryCount) as real + jitter
  }

  /**
   * How long a publication failure postpones each failed job: at least as long as its own count alone would, and at
   * most 61 seconds. Until then no relay can claim it; the jobs the relay no longer holds are left alone.
   */
  lemma TailWaitsLongEnough(jobs: seq<JobRow>, published: set<nat>, failed: seq<ClaimedJob>, relay: nat, jitter: real,
                            now: real, i: nat)
    requires i < |failed| && 0.0 <= jitter <= 1.0 && failed[i].id < |jobs| && failed[i].id !in published
    ensures var wait := PublishDelay(failed, jitter);
            var row, row' := jobs[failed[i].id],
                             Mark(jobs, published, SetOf(Ids(failed)), relay, wait, now)[failed[i].id];
      && IsTailWait(failed, jitter, wait)
      && Backoff(failed[i].retryCount) as real <= wait <= 61.0
      && Marks(row, row', false, true, relay, now + wait, now)
      && (WaitsUnder(row, relay) ==>
            forall priority: Priority, later: real :: Claimable(row', priority, later) ==>
              now + Backoff(failed[i].retryCount) as real <= later)
  {
    HighestIsHighest(failed, i);
    BackoffMonotone(failed[i].retryCount, HighestRetryCount(failed));
    var k := HighestIsOne(failed);
    forall j | 0 <= j < |failed|
      ensures failed[j].retryCount <= failed[k].retryCount
    {
      HighestIsHighest(failed, j);
    }
    assert Ids(failed)[i] in Ids(failed);
    MarkColumns(jobs, published, SetOf(Ids(failed)), relay, PublishDelay(failed, jitter), now);
  }
}

/**
 * Every step of the gateway is at most one event of the abstract account machine, whatever the interleaving
 * and even when a reaper sweep is split in two. The ledger's guarantees follow on every run.
 */
module Safety {
  import opened Domain
  import opened Submission
  import opened Delivery
  import opened Protocol
  import Book

  // ---------------------------------------------------------------- abstraction and invariant

  function Entries(messages: seq<MessageRow>): (entries: seq<Book.Entry>)
    ensures |entries| == |messages|
  {
    seq(|messages|, i requires 0 <= i < |messages| =>
      Book.Entry(messages[i].userId, messages[i].cost, messages[i].payment))
  }

  function Abstract(s: Store): Book.Book {
    Book.Book(s.balances, Entries(s.messages))
  }

  /** Job i is the one job of message i, and agrees with it on what submission fixed. */
  predicate Linked(i: nat, job: JobRow, m: MessageRow) {
    && job.messageId == i
    && job.userId == m.userId
    && job.priority == m.priority
    && job.createdAt == m.createdAt
  }

  predicate StatusMatchesPayment(m: MessageRow) {
    && (m.payment == Deducted <==> m.status == Sent)
    && (m.payment == Refunded <==> m.status == PermanentFailed)
  }

  /** DISPATCHING is only ever entered through the RESERVED guard, and left before the payment moves on. */
  predicate Guarded(job: JobRow, m: MessageRow) {
    job.status == JobStatus.Dispatching ==> m.payment == Reserved
  }

  ghost predicate Sound(s: Store) {
    && |s.jobs| == |s.messages|
    && (forall i :: 0 <= i < |s.jobs| ==> Linked(i, s.jobs[i], s.messages[i]))
    && (forall i :: 0 <= i < |s.jobs| ==> Guarded(s.jobs[i], s.messages[i]))
    && (forall i :: 0 <= i < |s.messages| ==> StatusMatchesPayment(s.messages[i]))
    && Book.Valid(Abstract(s))
  }

  /** With an atomic reaper the job's status tells the payment exactly. */
  predicate Coupled(job: JobRow, m: MessageRow) {
    && (job.status == Completed <==> m.payment == Deducted)
    && (job.status == JobStatus.Failed <==> m.payment == Refunded)
  }

  ghost predicate Consistent(s: Store) {
    Sound(s) && forall i :: 0 <= i < |s.jobs| ==> Coupled(s.jobs[i], s.messages[i])
  }

  // ---------------------------------------------------------------- the event of each step

  ghost function EventOf(cfg: Config, w: World, a: Action): Book.Event
    requires Possible(w, a)
  {
    match a
    case CreateUser(u) => if u in w.store.balances then Book.Idle else Book.Open(u)
    case AddCredits(u, amount) =>
      if 0 < amount && u in w.store.balances then Book.Deposit(u, amount) else Book.Idle
    case Submit(u, item) =>
      if SubmitOne(cfg, w.store, u, item, w.now).1.Created?
      then Book.Reserve(u, [cfg.Cost(item.priority)]) else Book.Idle
    case SubmitMany(u, items) =>
      if SubmitBatch(cfg, w.store, u, items, w.now).1.CreatedAll?
      then Book.Reserve(u, Costs(cfg, items)) else Book.Idle
    case WorkerClaim(worker, j) =>
      if ClaimForDelivery(cfg, w.store, j, worker, w.now).1.Expired? then Book.Refund(j) else Book.Idle
    case WorkerRecord(worker, result, jitter) =>
      var j := w.calls[worker].job;
      (match Record(cfg, w.store, j, worker, result, jitter, w.now).1
       case Settled => Book.Deduct(j)
       case GivenUp => Book.Refund(j)
       case _ => Book.Idle)
    case _ => Book.Idle
  }

  /** `s'` is `s` after event `e`, and the invariant survives. */
  ghost predicate Performs(s: Store, e: Book.Event, s': Store) {
    && Sound(s)
    && Book.Enabled(Abstract(s), e)
    && Abstract(s') == Book.Apply(Abstract(s), e)
    && Sound(s')
  }

  // ---------------------------------------------------------------- one lemma for each kind of step

  lemma SubmitOnePerforms(cfg: Config, s: Store, u: int, item: Item, now: real)
    requires cfg.Valid() && Sound(s)
    ensures var (s', r) := SubmitOne(cfg, s, u, item, now);
            && Performs(s, if r.Created? then Book.Reserve(u, [cfg.Cost(item.priority)]) else Book.Idle, s')
            && (Consistent(s) ==> Consistent(s'))
  {
    var (s', r) := SubmitOne(cfg, s, u, item, now);
    if r.Created? {
      var cost := cfg.Cost(item.priority);
      var costs := [cost];
      assert costs[..0] == [];
      assert Book.Total(costs) == cost;
      assert Entries(s'.messages) == Entries(s.messages) + Book.NewEntries(u, costs);
      Book.ApplyValid(Abstract(s), Book.Reserve(u, costs));
      Appended(s, s');
    }
  }

  lemma SubmitBatchPerforms(cfg: Config, s: Store, u: int, items: seq<Item>, now: real)
    requires cfg.Valid() && Sound(s)
    ensures var (s', r) := SubmitBatch(cfg, s, u, items, now);
            && Performs(s, if r.CreatedAll? then Book.Reserve(u, Costs(cfg, items)) else Book.Idle, s')
            && (Consistent(s) ==> Consistent(s'))
  {
    var (s', r) := SubmitBatch(cfg, s, u, items, now);
    if r.CreatedAll? {
      AcceptedBatch(cfg, s, u, items, now);
      AppendedBatch(cfg, s, u, items, now, s');
    }
  }

  /** What an accepted batch writes. */
  lemma AcceptedBatch(cfg: Config, s: Store, u: int, items: seq<Item>, now: real)
    requires SubmitBatch(cfg, s, u, items, now).1.CreatedAll?
    ensures u in s.balances
    ensures s.balances[u].reserved + Book.Total(Costs(cfg, items)) <= s.balances[u].credits
    ensures SubmitBatch(cfg, s, u, items, now).0 == WithBatch(cfg, s, u, items, now)
  {
  }

  function WithBatch(cfg: Config, s: Store, u: int, items: seq<Item>, now: real): Store
    requires u in s.balances
  {
    Store(s.balances[u := ReserveRow(s.balances[u], Book.Total(Costs(cfg, items)))],
          s.messages + NewMessages(cfg, u, items, now),
          s.jobs + NewJobs(|s.messages|, u, items, now))
  }

  lemma AppendedBatch(cfg: Config, s: Store, u: int, items: seq<Item>, now: real, s': Store)
    requires cfg.Valid() && Sound(s) && u in s.balances && s' == WithBatch(cfg, s, u, items, now)
    requires s.balances[u].reserved + Book.Total(Costs(cfg, items)) <= s.balances[u].credits
    ensures Performs(s, Book.Reserve(u, Costs(cfg, items)), s')
    ensures Consistent(s) ==> Consistent(s')
  {
    var costs := Costs(cfg, items);
    assert Entries(s'.messages) == Entries(s.messages) + Book.NewEntries(u, costs);
    Book.ApplyValid(Abstract(s), Book.Reserve(u, costs));
    AppendedRows(cfg, s, u, items, now);
    Appended(s, s');
  }

  /** The new rows, seen from the grown tables. */
  lemma AppendedRows(cfg: Config, s: Store, u: int, items: seq<Item>, now: real)
    requires u in s.balances && |s.jobs| == |s.messages|
    ensures var s' := WithBatch(cfg, s, u, items, now);
      && |s'.jobs| == |s'.messages|
      && s'.jobs[..|s.jobs|] == s.jobs
      && s'.messages[..|s.messages|] == s.messages
      && (forall i :: |s.jobs| <= i < |s'.jobs| ==>
            && s'.jobs[i] == NewJob(i, u, items[i - |s.jobs|], now)
            && s'.messages[i] == NewMessage(cfg, u, items[i - |s.jobs|], now))
  {
  }

  /** Rows appended by a submission are linked, queued and reserved; old rows are as they were. */
  lemma Appended(s: Store, s': Store)
    requires Sound(s) && |s'.jobs| == |s'.messages| && |s.jobs| <= |s'.jobs|
    requires s'.jobs[..|s.jobs|] == s.jobs && s'.messages[..|s.messages|] == s.messages
    requires forall i :: |s.jobs| <= i < |s'.jobs| ==>
               Linked(i, s'.jobs[i], s'.messages[i]) && s'.jobs[i].status == Pending
               && s'.messages[i].payment == Reserved && s'.messages[i].status == Queued
    requires Book.Valid(Abstract(s'))
    ensures Sound(s')
    ensures Consistent(s) ==> Consistent(s')
  {
    forall i | 0 <= i < |s'.jobs|
      ensures Linked(i, s'.jobs[i], s'.messages[i]) && Guarded(s'.jobs[i], s'.messages[i])
      ensures StatusMatchesPayment(s'.messages[i])
      ensures Consistent(s) ==> Coupled(s'.jobs[i], s'.messages[i])
    {
      if i < |s.jobs| {
        assert s'.jobs[i] == s.jobs[i] && s'.messages[i] == s.messages[i];
        assert Linked(i, s.jobs[i], s.messages[i]) && Guarded(s.jobs[i], s.messages[i]);
        assert Consistent(s) ==> Coupled(s.jobs[i], s.messages[i]);
      }
    }
  }

  /** Replacing the rows of one job and message keeps every other row's facts. */
  lemma Replaced(s: Store, s': Store, j: nat)
    requires Sound(s) && j < |s.jobs| && |s'.jobs| == |s.jobs| && |s'.messages| == |s.messages|
    requires s'.jobs == s.jobs[j := s'.jobs[j]] && s'.messages == s.messages[j := s'.messages[j]]
    requires Linked(j, s'.jobs[j], s'.messages[j]) && Guarded(s'.jobs[j], s'.messages[j])
    requires StatusMatchesPayment(s'.messages[j]) && Coupled(s'.jobs[j], s'.messages[j])
    requires Book.Valid(Abstract(s'))
    ensures Sound(s')
    ensures Consistent(s) ==> Consistent(s')
  {
    forall i | 0 <= i < |s'.jobs|
      ensures Linked(i, s'.jobs[i], s'.messages[i]) && Guarded(s'.jobs[i], s'.messages[i])
      ensures StatusMatchesPayment(s'.messages[i])
      ensures Consistent(s) ==> Coupled(s'.jobs[i], s'.messages[i])
    {
      if i != j {
        assert s'.jobs[i] == s.jobs[i] && s'.messages[i] == s.messages[i];
        assert Linked(i, s.jobs[i], s.messages[i]) && Guarded(s.jobs[i], s.messages[i]);
        assert Consistent(s) ==> Coupled(s.jobs[i], s.messages[i]);
      }
    }
  }

  lemma RefundPerforms(s: Store, j: nat, now: real)
    requires Sound(s) && j < |s.jobs| && s.messages[j].payment == Reserved
    ensures Linked(j, s.jobs[j], s.messages[j])
    ensures PermanentlyFail(s, j, now).1
    ensures Performs(s, Book.Refund(j), PermanentlyFail(s, j, now).0)
    ensures Consistent(s) ==> Consistent(PermanentlyFail(s, j, now).0)
  {
    assert Linked(j, s.jobs[j], s.messages[j]);
    var b := Abstract(s);
    var entry := b.entries[j];
    assert entry == Book.Entry(s.messages[j].userId, s.messages[j].cost, Reserved);
    Book.CloseKeepsChecks(b, j);
    var (s', committed) := PermanentlyFail(s, j, now);
    assert committed;
    assert Entries(s'.messages) == b.entries[j := entry.(payment := Refunded)];
    Book.ApplyValid(b, Book.Refund(j));
    Replaced(s, s', j);
  }

  /** A step that writes one job and leaves the payment where it was. */
  lemma IdlePerforms(s: Store, s': Store, j: nat)
    requires Sound(s) && j < |s.jobs| && |s'.jobs| == |s.jobs| && |s'.messages| == |s.messages|
    requires s.messages[j].payment == Reserved
    requires s'.balances == s.balances
    requires s'.jobs == s.jobs[j := s'.jobs[j]] && s'.messages == s.messages[j := s'.messages[j]]
    requires Linked(j, s'.jobs[j], s'.messages[j]) && !s'.jobs[j].status.Terminal()
    requires s'.messages[j].payment == Reserved && s'.messages[j].status !in {Sent, PermanentFailed}
    requires s'.messages[j].userId == s.messages[j].userId && s'.messages[j].cost == s.messages[j].cost
    ensures Performs(s, Book.Idle, s')
    ensures Consistent(s) ==> Consistent(s')
  {
    assert Entries(s'.messages) == Entries(s.messages);
    Replaced(s, s', j);
  }

  lemma ClaimPerforms(cfg: Config, s: Store, j: nat, worker: nat, now: real)
    requires Sound(s)
    ensures var (s', outcome) := ClaimForDelivery(cfg, s, j, worker, now);
            && Performs(s, if outcome.Expired? then Book.Refund(j) else Book.Idle, s')
            && (Consistent(s) ==> Consistent(s'))
            && outcome != ClaimRolledBack
            && (Consistent(s) ==> outcome != PaymentNotReserved)
  {
    if j < |s.jobs| {
      assert Linked(j, s.jobs[j], s.messages[j]);
      assert Consistent(s) ==> Coupled(s.jobs[j], s.messages[j]);
      var (s', outcome) := ClaimForDelivery(cfg, s, j, worker, now);
      if s.messages[j].payment == Reserved {
        RefundPerforms(s, j, now);
        if outcome.Claimed? {
          IdlePerforms(s, s', j);
        }
      }
    }
  }

  lemma RecordPerforms(cfg: Config, s: Store, j: nat, worker: nat, result: ProviderResult, jitter: real, now: real)
    requires Sound(s)
    ensures var (s', outcome) := Record(cfg, s, j, worker, result, jitter, now);
            && Performs(s, if outcome.Settled? then Book.Deduct(j)
                           else if outcome.GivenUp? then Book.Refund(j)
                           else Book.Idle, s')
            && (Consistent(s) ==> Consistent(s'))
            && outcome != RecordRolledBack
  {
    var (s', outcome) := Record(cfg, s, j, worker, result, jitter, now);
    if j < |s.jobs| && s.jobs[j].status == JobStatus.Dispatching {
      assert Linked(j, s.jobs[j], s.messages[j]) && Guarded(s.jobs[j], s.messages[j]);
      RefundPerforms(s, j, now);
      var b := Abstract(s);
      var entry := b.entries[j];
      assert entry == Book.Entry(s.messages[j].userId, s.messages[j].cost, Reserved);
      Book.CloseKeepsChecks(b, j);
      if outcome.Settled? {
        assert Entries(s'.messages) == b.entries[j := entry.(payment := Deducted)];
        Book.ApplyValid(b, Book.Deduct(j));
        Replaced(s, s', j);
      } else if outcome.RetryScheduled? {
        IdlePerforms(s, s', j);
      }
    }
  }

  predicate SameIdentity(job: JobRow, job': JobRow) {
    && job'.messageId == job.messageId
    && job'.userId == job.userId
    && job'.priority == job.priority
    && job'.createdAt == job.createdAt
  }

  /**
   * A bulk update of the jobs table that never enters DISPATCHING and never touches what links a job to its
   * message. It keeps the ledger; if it also spares terminal jobs it keeps the coupling.
   */
  lemma JobsOnlyPerforms(s: Store, jobs: seq<JobRow>)
    requires Sound(s) && |jobs| == |s.jobs|
    requires forall i :: 0 <= i < |jobs| ==> SameIdentity(s.jobs[i], jobs[i])
    requires forall i :: 0 <= i < |jobs| && jobs[i].status == JobStatus.Dispatching
               ==> s.jobs[i].status == JobStatus.Dispatching
    ensures Sound(s.(jobs := jobs)) && Abstract(s.(jobs := jobs)) == Abstract(s)
    ensures Consistent(s) && SparesTerminal(s.jobs, jobs) ==> Consistent(s.(jobs := jobs))
  {
    forall i | 0 <= i < |jobs|
      ensures Linked(i, jobs[i], s.messages[i]) && Guarded(jobs[i], s.messages[i])
      ensures Consistent(s) && SparesTerminal(s.jobs, jobs) ==> Coupled(jobs[i], s.messages[i])
    {
      assert SameIdentity(s.jobs[i], jobs[i]);
      assert Linked(i, s.jobs[i], s.messages[i]) && Guarded(s.jobs[i], s.messages[i]);
      assert Consistent(s) ==> Coupled(s.jobs[i], s.messages[i]);
    }
  }

  predicate SparesTerminal(jobs: seq<JobRow>, jobs': seq<JobRow>)
    requires |jobs| == |jobs'|
  {
    forall i :: 0 <= i < |jobs| ==>
      jobs'[i].status == jobs[i].status || (!jobs'[i].status.Terminal() && !jobs[i].status.Terminal())
  }

  lemma BalancesOnly(s: Store, s': Store)
    requires Sound(s) && s'.jobs == s.jobs && s'.messages == s.messages && Book.Valid(Abstract(s'))
    ensures Sound(s')
    ensures Consistent(s) ==> Consistent(s')
  {
  }

  // ---------------------------------------------------------------- refinement

  /** Step `a` performs exactly its event, and keeps the coupling unless it is half a reaper sweep. */
  ghost predicate Refines(cfg: Config, w: World, a: Action)
    requires Possible(w, a) && Sound(w.store)
  {
    && Performs(w.store, EventOf(cfg, w, a), Step(cfg, w, a).store)
    && (Consistent(w.store) && !a.ReapUpdate? ==> Consistent(Step(cfg, w, a).store))
  }

  predicate IsOutboxStep(a: Action) {
    a.RelayClaim? || a.RelayMark? || a.ReapSweep? || a.ReapUpdate?
  }

  /** What the outbox steps do to the jobs, and that they do nothing else. */
  lemma OutboxStepsMoveJobs(cfg: Config, w: World, a: Action)
    requires Possible(w, a) && IsOutboxStep(a)
    ensures var jobs, jobs' := w.store.jobs, Step(cfg, w, a).store.jobs;
      && Step(cfg, w, a).store == w.store.(jobs := jobs')
      && |jobs'| == |jobs|
      && (forall i :: 0 <= i < |jobs| ==> SameIdentity(jobs[i], jobs'[i]))
      && (forall i :: 0 <= i < |jobs| && jobs'[i].status == JobStatus.Dispatching
            ==> jobs[i].status == JobStatus.Dispatching)
      && (!a.ReapUpdate? ==> SparesTerminal(jobs, jobs'))
  {
  }

  lemma OutboxStepRefines(cfg: Config, w: World, a: Action)
    requires Sound(w.store) && Possible(w, a) && IsOutboxStep(a)
    ensures Refines(cfg, w, a)
  {
    OutboxStepsMoveJobs(cfg, w, a);
    JobsOnlyPerforms(w.store, Step(cfg, w, a).store.jobs);
  }

  lemma AccountStepRefines(cfg: Config, w: World, a: Action)
    requires Sound(w.store) && Possible(w, a)
    requires a.CreateUser? || a.AddCredits?
    ensures Refines(cfg, w, a)
  {
    Book.ApplyValid(Abstract(w.store), EventOf(cfg, w, a));
    BalancesOnly(w.store, Step(cfg, w, a).store);
  }

  lemma SubmitStepRefines(cfg: Config, w: World, a: Action)
    requires cfg.Valid() && Sound(w.store) && Possible(w, a) && (a.Submit? || a.SubmitMany?)
    ensures Refines(cfg, w, a)
  {
    if a.Submit? {
      SubmitOnePerforms(cfg, w.store, a.userId, a.item, w.now);
    } else {
      SubmitBatchPerforms(cfg, w.store, a.userId, a.items, w.now);
    }
  }

  lemma WorkerStepRefines(cfg: Config, w: World, a: Action)
    requires cfg.Valid() && Sound(w.store) && Possible(w, a) && (a.WorkerClaim? || a.WorkerRecord?)
    ensures Refines(cfg, w, a)
  {
    if a.WorkerClaim? {
      ClaimPerforms(cfg, w.store, a.job, a.worker, w.now);
    } else {
      RecordPerforms(cfg, w.store, w.calls[a.worker].job, a.worker, a.result, a.jitter, w.now);
    }
  }

  /** Every possible step refines the account machine; only a split reaper sweep can undo the coupling. */
  lemma {:induction false} StepRefines(cfg: Config, w: World, a: Action)
    requires cfg.Valid() && Sound(w.store) && Possible(w, a)
    ensures Refines(cfg, w, a)
  {
    if IsOutboxStep(a) {
      OutboxStepRefines(cfg, w, a);
    } else if a.CreateUser? || a.AddCredits? {
      AccountStepRefines(cfg, w, a);
    } else if a.Submit? || a.SubmitMany? {
      SubmitStepRefines(cfg, w, a);
    } else if a.WorkerClaim? || a.WorkerRecord? {
      WorkerStepRefines(cfg, w, a);
    }
  }
}

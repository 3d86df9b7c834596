/** What a submission answers and writes, column by column, and that what was accepted is what is delivered. */
module SubmissionAnswers {
  import opened Domain
  import opened Submission
  import opened Delivery
  import opened Protocol
  import opened Safety
  import opened Ledger
  import opened SubmissionLaws
  import Book

  // ---------------------------------------------------------------- prices

  function Price(cfg: Config, priority: Priority): int {
    if priority == Express then cfg.costExpress else cfg.costNormal
  }

  function CountOf(items: seq<Item>, priority: Priority): nat {
    if items == [] then 0
    else CountOf(items[..|items| - 1], priority) + if items[|items| - 1].priority == priority then 1 else 0
  }

  /** So many normal messages at their price and so many express ones at theirs. */
  function TotalPrice(cfg: Config, items: seq<Item>): int {
    CountOf(items, Normal) * cfg.costNormal + CountOf(items, Express) * cfg.costExpress
  }

  lemma OneMoreTimes(n: int, price: int)
    ensures (n + 1) * price == n * price + price
  {
  }

  /** The sum of the items' costs is the number of messages of each priority at its price. */
  lemma {:induction false} TotalIsPrice(cfg: Config, items: seq<Item>)
    ensures Book.Total(Costs(cfg, items)) == TotalPrice(cfg, items)
  {
    if items != [] {
      var n := |items| - 1;
      assert Costs(cfg, items)[..n] == Costs(cfg, items[..n]);
      TotalIsPrice(cfg, items[..n]);
      OneMoreTimes(CountOf(items[..n], Normal), cfg.costNormal);
      OneMoreTimes(CountOf(items[..n], Express), cfg.costExpress);
    }
  }

  lemma {:induction false} PricePositive(cfg: Config, items: seq<Item>)
    requires cfg.Valid()
    ensures 0 <= TotalPrice(cfg, items)
    ensures TotalPrice(cfg, items) == 0 <==> items == []
  {
    if items != [] {
      var n := |items| - 1;
      PricePositive(cfg, items[..n]);
      OneMoreTimes(CountOf(items[..n], Normal), cfg.costNormal);
      OneMoreTimes(CountOf(items[..n], Express), cfg.costExpress);
    }
  }

  // ---------------------------------------------------------------- what is written

  /** The message carries what the client sent, at the price of its priority. */
  predicate HoldsItem(cfg: Config, m: MessageRow, userId: int, item: Item, at: real) {
    && m.userId == userId
    && m.recipient == item.recipient
    && m.body == item.body
    && m.priority == item.priority
    && m.idempotencyKey == item.idempotencyKey
    && m.cost == Price(cfg, item.priority)
    && m.createdAt == at
  }

  /** The job hands out that message, with the same owner and priority. */
  predicate Serves(job: JobRow, messageId: nat, userId: int, item: Item, at: real) {
    && job.messageId == messageId
    && job.userId == userId
    && job.priority == item.priority
    && job.createdAt == at
  }

  predicate StartsQueued(m: MessageRow, job: JobRow, at: real) {
    && m.status == Queued
    && m.payment == Reserved
    && job.status == Pending
    && job.retryCount == 0 == job.deliveryAttempts
    && job.availableAt == at
    && job.lockedAt.None? && job.lockedBy.None?
    && job.publishedAt.None? && job.completedAt.None? && job.providerMessageId.None?
  }

  /** The new rows of one item. */
  ghost predicate StoredAs(cfg: Config, s: Store, id: nat, userId: int, item: Item, at: real) {
    && id < |s.messages| == |s.jobs|
    && HoldsItem(cfg, s.messages[id], userId, item, at)
    && Serves(s.jobs[id], id, userId, item, at)
    && StartsQueued(s.messages[id], s.jobs[id], at)
  }

  /** One message and one job per item, in order, behind the rows there were, and one reservation. */
  ghost predicate Appends(cfg: Config, s: Store, s': Store, userId: int, items: seq<Item>, price: int, now: real) {
    && userId in s.balances
    && s'.balances == s.balances[userId := BalanceRow(s.balances[userId].credits, s.balances[userId].reserved + price)]
    && |s'.messages| == |s.messages| + |items|
    && |s'.jobs| == |s.jobs| + |items|
    && s'.messages[..|s.messages|] == s.messages
    && s'.jobs[..|s.jobs|] == s.jobs
    && (forall k :: 0 <= k < |items| ==> StoredAs(cfg, s', |s.messages| + k, userId, items[k], now))
  }

  // ---------------------------------------------------------------- which answer is given

  predicate KeyTaken(messages: seq<MessageRow>, userId: int, key: nat) {
    exists i :: 0 <= i < |messages| && messages[i].userId == userId && messages[i].idempotencyKey == key
  }

  predicate RepeatsKey(items: seq<Item>) {
    exists i, j :: 0 <= i < j < |items| && items[i].idempotencyKey == items[j].idempotencyKey
  }

  predicate TakesKey(messages: seq<MessageRow>, userId: int, items: seq<Item>) {
    exists i :: 0 <= i < |items| && KeyTaken(messages, userId, items[i].idempotencyKey)
  }

  ghost predicate SingleAnswered(cfg: Config, s: Store, userId: int, item: Item, now: real, s': Store,
                                 result: SingleResult)
  {
    if KeyTaken(s.messages, userId, item.idempotencyKey) then
      && s' == s
      && result.Replayed?
      && result.id < |s.messages|
      && s.messages[result.id].userId == userId
      && s.messages[result.id].idempotencyKey == item.idempotencyKey
    else if userId !in s.balances then result == Rejected(UserNotFound) && s' == s
    else if Available(s, userId) < Price(cfg, item.priority) then result == Rejected(InsufficientBalance) && s' == s
    else result == Created(|s.messages|) && Appends(cfg, s, s', userId, [item], Price(cfg, item.priority), now)
  }

  ghost predicate BatchAnswered(cfg: Config, s: Store, userId: int, items: seq<Item>, now: real, s': Store,
                                result: BatchResult)
  {
    if RepeatsKey(items) then
      && s' == s
      && result.BatchRejected?
      && result.error.IdempotencyDuplicate?
      && exists j: nat :: FirstRepeat(items, j, result.error.key)
    else if TakesKey(s.messages, userId, items) then
      result == BatchRejected(IdempotencyConflict) && s' == s
    else if items == [] then result == BatchRejected(InvalidAmount) && s' == s
    else if userId !in s.balances then result == BatchRejected(UserNotFound) && s' == s
    else if Available(s, userId) < TotalPrice(cfg, items) then
      result == BatchRejected(InsufficientBalance) && s' == s
    else result == CreatedAll(|s.messages|, |items|) && Appends(cfg, s, s', userId, items, TotalPrice(cfg, items), now)
  }

  /** Which answer a submission gets, and everything that is then written. */
  lemma SubmitOneAnswers(cfg: Config, s: Store, userId: int, item: Item, now: real)
    requires cfg.Valid() && Sound(s)
    ensures var (s', result) := SubmitOne(cfg, s, userId, item, now);
            SingleAnswered(cfg, s, userId, item, now, s', result)
  {
    if userId in s.balances {
      assert Book.Backed(Abstract(s), userId);
    }
  }

  lemma RowStored(cfg: Config, s: Store, userId: int, items: seq<Item>, now: real, k: nat)
    requires userId in s.balances && |s.jobs| == |s.messages| && k < |items|
    ensures StoredAs(cfg, WithBatch(cfg, s, userId, items, now), |s.messages| + k, userId, items[k], now)
  {
    AppendedRows(cfg, s, userId, items, now);
  }

  lemma WithBatchAppends(cfg: Config, s: Store, userId: int, items: seq<Item>, now: real)
    requires userId in s.balances && |s.jobs| == |s.messages|
    ensures Appends(cfg, s, WithBatch(cfg, s, userId, items, now), userId, items, TotalPrice(cfg, items), now)
  {
    TotalIsPrice(cfg, items);
    forall k | 0 <= k < |items|
      ensures StoredAs(cfg, WithBatch(cfg, s, userId, items, now), |s.messages| + k, userId, items[k], now)
    {
      RowStored(cfg, s, userId, items, now, k);
    }
  }

  lemma BatchKeys(s: Store, userId: int, items: seq<Item>)
    ensures DuplicateKey(items).Some? <==> RepeatsKey(items)
    ensures AnyKeyTaken(s.messages, userId, items) <==> TakesKey(s.messages, userId, items)
  {
    forall i | 0 <= i < |items|
      ensures FindKey(s.messages, userId, items[i].idempotencyKey).Some?
         <==> KeyTaken(s.messages, userId, items[i].idempotencyKey)
    {
    }
  }

  /** A user's money covers the price, by the CHECK constraints and by the columns. */
  lemma Affords(s: Store, userId: int, price: int)
    requires Sound(s) && userId in s.balances && 0 <= price
    ensures ReserveRow(s.balances[userId], price).ChecksHold() <==> price <= Available(s, userId)
  {
    assert Book.Backed(Abstract(s), userId);
  }

  /** Which answer a batch gets, and everything that is then written. */
  lemma SubmitBatchAnswers(cfg: Config, s: Store, userId: int, items: seq<Item>, now: real)
    requires cfg.Valid() && Sound(s)
    ensures var (s', result) := SubmitBatch(cfg, s, userId, items, now);
            BatchAnswered(cfg, s, userId, items, now, s', result)
  {
    BatchKeys(s, userId, items);
    TotalIsPrice(cfg, items);
    PricePositive(cfg, items);
    if DuplicateKey(items).Some? {
      DuplicateIsFirstRepeat(items);
    } else if userId in s.balances {
      Affords(s, userId, TotalPrice(cfg, items));
      if SubmitBatch(cfg, s, userId, items, now).1.CreatedAll? {
        AcceptedBatch(cfg, s, userId, items, now);
        WithBatchAppends(cfg, s, userId, items, now);
      }
    }
  }

  // ---------------------------------------------------------------- in every continuation

  /**
   * Message `id` still carries the item it was accepted with, its job still serves it, and a worker that gets the job
   * gets that message.
   */
  ghost predicate Carries(cfg: Config, w: World, id: nat, userId: int, item: Item, at: real) {
    && id < |w.store.messages| == |w.store.jobs|
    && HoldsItem(cfg, w.store.messages[id], userId, item, at)
    && Serves(w.store.jobs[id], id, userId, item, at)
    && (forall worker :: ClaimForDelivery(cfg, w.store, id, worker, w.now).1.Claimed? ==>
          ClaimForDelivery(cfg, w.store, id, worker, w.now).1 == Claimed(id))
  }

  lemma CarriedOn(cfg: Config, w: World, more: seq<Action>, id: nat, userId: int, item: Item, at: real)
    requires cfg.Valid() && Sound(w.store) && StoredAs(cfg, w.store, id, userId, item, at)
    ensures Carries(cfg, Run(cfg, w, more), id, userId, item, at)
  {
    RunKeepsMessage(cfg, w, more, id);
    RunSound(cfg, w, more);
    var s := Run(cfg, w, more).store;
    assert Linked(id, s.jobs[id], s.messages[id]);
  }

  /** Whatever happens after a message was accepted, it is the client's own message that waits to be delivered. */
  lemma AcceptedIsKept(cfg: Config, start: real, first: seq<Action>, userId: int, item: Item, more: seq<Action>)
    requires cfg.Valid()
    ensures var w := Run(cfg, Initial(start), first);
            var result := SubmitOne(cfg, w.store, userId, item, w.now).1;
            result.Created? ==>
              Carries(cfg, Run(cfg, Initial(start), first + [Submit(userId, item)] + more), result.id, userId, item,
                      w.now)
  {
    var w := Run(cfg, Initial(start), first);
    RunThrough(cfg, Initial(start), first, Submit(userId, item), more);
    InitialConsistent(start);
    RunSound(cfg, Initial(start), first);
    RunSound(cfg, Initial(start), first + [Submit(userId, item)]);
    SubmitOneAnswers(cfg, w.store, userId, item, w.now);
    var (s', result) := SubmitOne(cfg, w.store, userId, item, w.now);
    if result.Created? {
      assert StoredAs(cfg, s', |w.store.messages| + 0, userId, [item][0], w.now);
      CarriedOn(cfg, Next(cfg, w, Submit(userId, item)), more, result.id, userId, item, w.now);
    }
  }

  /** The same for every item of a batch: item k is message `first + k`. */
  lemma AcceptedBatchIsKept(cfg: Config, start: real, first: seq<Action>, userId: int, items: seq<Item>, k: nat,
                            more: seq<Action>)
    requires cfg.Valid() && k < |items|
    ensures var w := Run(cfg, Initial(start), first);
            var result := SubmitBatch(cfg, w.store, userId, items, w.now).1;
            result.CreatedAll? ==>
              Carries(cfg, Run(cfg, Initial(start), first + [SubmitMany(userId, items)] + more), result.first + k,
                      userId, items[k], w.now)
  {
    var w := Run(cfg, Initial(start), first);
    RunThrough(cfg, Initial(start), first, SubmitMany(userId, items), more);
    InitialConsistent(start);
    RunSound(cfg, Initial(start), first);
    RunSound(cfg, Initial(start), first + [SubmitMany(userId, items)]);
    var (s', result) := SubmitBatch(cfg, w.store, userId, items, w.now);
    if result.CreatedAll? {
      BatchStores(cfg, w.store, userId, items, w.now, k);
      CarriedOn(cfg, Next(cfg, w, SubmitMany(userId, items)), more, result.first + k, userId, items[k], w.now);
    }
  }

  lemma BatchStores(cfg: Config, s: Store, userId: int, items: seq<Item>, now: real, k: nat)
    requires cfg.Valid() && Sound(s) && k < |items| && SubmitBatch(cfg, s, userId, items, now).1.CreatedAll?
    ensures var (s', result) := SubmitBatch(cfg, s, userId, items, now);
            StoredAs(cfg, s', result.first + k, userId, items[k], now)
  {
    SubmitBatchAnswers(cfg, s, userId, items, now);
  }
}

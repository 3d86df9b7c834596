/** Message submission as it runs: inserts, a reservation, and a rollback when a constraint fails. */
module MessageUseCases {
  import opened Domain
  import opened Submission
  import Book
  import opened Tables
  import opened Repositories
  import Safety
  import SubmissionAnswers

  class MessageUseCase {
    const session: Session
    const settings: Config
    const balanceRepo: BalanceRepository

    constructor (session: Session, settings: Config)
      ensures this.session == session && this.settings == settings && balanceRepo.session == session
    {
      this.session := session;
      this.settings := settings;
      balanceRepo := new BalanceRepository(session);
    }

    /** One message, one job, one reservation, or nothing; a repeated key answers with the first message. */
    method CreateMessage(userId: int, item: Item, now: real) returns (result: SingleResult)
      requires settings.Valid() && balanceRepo.session == session
      modifies session
      ensures (session.Snapshot(), result) == SubmitOne(settings, old(session.Snapshot()), userId, item, now)
      ensures Safety.Sound(old(session.Snapshot())) ==>
                SubmissionAnswers.SingleAnswered(settings, old(session.Snapshot()), userId, item, now,
                                                 session.Snapshot(), result)
    {
      if Safety.Sound(session.Snapshot()) {
        SubmissionAnswers.SubmitOneAnswers(settings, session.Snapshot(), userId, item, now);
      }
      var cost := settings.Cost(item.priority);
      var saved := session.Snapshot();
      var row := NewMessage(settings, userId, item, now);
      var violation := session.InsertMessages(userId, [row]);
      OneRow(saved.messages, userId, row);
      if violation == Some(UniqueViolation) {
        session.Rollback(saved);
        return Replayed(FindKey(session.messages, userId, item.idempotencyKey).value);
      }
      if violation == Some(ForeignKeyViolation) {
        session.Rollback(saved);
        return Rejected(SubmissionError.UserNotFound);
      }
      var messageId := |session.messages| - 1;
      session.InsertJob(NewJob(messageId, userId, item, now));
      var balance, error := balanceRepo.ReserveCredits(userId, cost);
      var flushed := session.FlushBalance(balance);
      if !flushed {
        session.Rollback(saved);
        return Rejected(InsufficientBalance);
      }
      return Created(messageId);
    }

    /** All the messages with their jobs and one reservation, or nothing. */
    method BatchCreateMessage(userId: int, items: seq<Item>, now: real) returns (result: BatchResult)
      requires settings.Valid() && balanceRepo.session == session
      modifies session
      ensures (session.Snapshot(), result) == SubmitBatch(settings, old(session.Snapshot()), userId, items, now)
      ensures Safety.Sound(old(session.Snapshot())) ==>
                SubmissionAnswers.BatchAnswered(settings, old(session.Snapshot()), userId, items, now,
                                                session.Snapshot(), result)
    {
      if Safety.Sound(session.Snapshot()) {
        SubmissionAnswers.SubmitBatchAnswers(settings, session.Snapshot(), userId, items, now);
      }
      var duplicate := CheckDuplicateIdempotencyKeys(items);
      if duplicate.Some? {
        return BatchRejected(IdempotencyDuplicate(duplicate.value));
      }
      var totalCost := CalculateBatchMessageCost(items);
      var saved := session.Snapshot();

      var violation := AddMessages(userId, items, now);
      BatchClash(saved.messages, settings, userId, items, now);
      if violation == Some(UniqueViolation) {
        session.Rollback(saved);
        return BatchRejected(IdempotencyConflict);
      }
      if violation == Some(ForeignKeyViolation) {
        session.Rollback(saved);
        return BatchRejected(SubmissionError.UserNotFound);
      }
      AddJobs(|saved.messages|, userId, items, now);

      var balance, error := balanceRepo.ReserveCredits(userId, totalCost);
      if balance == null {
        session.Rollback(saved);
        return BatchRejected(if error == Some(InvalidAmountValue) then InvalidAmount else SubmissionError.UserNotFound);
      }
      var flushed := session.FlushBalance(balance);
      if !flushed {
        session.Rollback(saved);
        return BatchRejected(InsufficientBalance);
      }
      return CreatedAll(|saved.messages|, |items|);
    }

    /** Queue a message per item, then flush them together. */
    method AddMessages(userId: int, items: seq<Item>, now: real) returns (violation: Option<Violation>)
      modifies session`messages
      ensures var rows := NewMessages(settings, userId, items, now);
        && (violation == Some(UniqueViolation) <==> !NoClash(old(session.messages), userId, rows, |rows|))
        && (violation != Some(UniqueViolation) ==>
              && session.messages == old(session.messages) + rows
              && (violation == Some(ForeignKeyViolation) <==> items != [] && userId !in session.balances))
    {
      var rows: seq<MessageRow> := [];
      for i := 0 to |items|
        invariant rows == NewMessages(settings, userId, items, now)[..i]
      {
        rows := rows + [NewMessage(settings, userId, items[i], now)];
      }
      assert rows == NewMessages(settings, userId, items, now);
      violation := session.InsertMessages(userId, rows);
    }

    /** One job per flushed message, in the same order. */
    method AddJobs(first: nat, userId: int, items: seq<Item>, now: real)
      modifies session`jobs
      ensures session.jobs == old(session.jobs) + NewJobs(first, userId, items, now)
    {
      for i := 0 to |items|
        invariant session.jobs == old(session.jobs) + NewJobs(first, userId, items, now)[..i]
      {
        session.InsertJob(NewJob(first + i, userId, items[i], now));
      }
    }

    method CalculateBatchMessageCost(items: seq<Item>) returns (cost: int)
      ensures cost == Book.Total(Costs(settings, items)) == SubmissionAnswers.TotalPrice(settings, items)
    {
      SubmissionAnswers.TotalIsPrice(settings, items);
      cost := 0;
      ghost var costs := Costs(settings, items);
      for i := 0 to |items|
        invariant cost == Book.Total(costs[..i])
      {
        assert costs[..i + 1][..i] == costs[..i];
        cost := cost + settings.Cost(items[i].priority);
      }
      assert costs[..|items|] == costs;
    }
  }

  /** The first key that was seen before, if any. */
  method CheckDuplicateIdempotencyKeys(items: seq<Item>) returns (duplicate: Option<nat>)
    ensures duplicate == DuplicateKey(items)
    ensures duplicate.None? <==> Distinct(items)
    ensures duplicate.Some? ==> exists j: nat :: FirstRepeat(items, j, duplicate.value)
  {
    var seen: set<nat> := {};
    for i := 0 to |items|
      invariant seen == set j | 0 <= j < i :: items[j].idempotencyKey
      invariant DuplicateKey(items[..i]).None?
    {
      assert items[..i + 1][..i] == items[..i];
      if items[i].idempotencyKey in seen {
        DuplicateStays(items, i + 1);
        DuplicateIsFirstRepeat(items);
        return Some(items[i].idempotencyKey);
      }
      seen := seen + {items[i].idempotencyKey};
    }
    assert items[..|items|] == items;
    return None;
  }

  /** A duplicate found in a prefix is the duplicate of the whole list. */
  lemma {:induction false} DuplicateStays(items: seq<Item>, n: nat)
    requires n <= |items| && DuplicateKey(items[..n]).Some?
    ensures DuplicateKey(items) == DuplicateKey(items[..n])
  {
    if n < |items| {
      var last := |items| - 1;
      assert items[..last][..n] == items[..n];
      DuplicateStays(items[..last], n);
    } else {
      assert items[..n] == items;
    }
  }

  lemma OneRow(messages: seq<MessageRow>, userId: int, row: MessageRow)
    ensures NoClash(messages, userId, [row], 1) <==> FindKey(messages, userId, row.idempotencyKey).None?
  {
    assert messages + [row][..0] == messages;
  }

  /** Rows with distinct keys clash exactly when some key was taken before. */
  lemma BatchClash(messages: seq<MessageRow>, cfg: Config, userId: int, items: seq<Item>, now: real)
    requires Distinct(items)
    ensures NoClash(messages, userId, NewMessages(cfg, userId, items, now), |items|)
       <==> !AnyKeyTaken(messages, userId, items)
  {
    var rows := NewMessages(cfg, userId, items, now);
    forall i | 0 <= i < |rows|
      ensures FindKey(messages + rows[..i], userId, rows[i].idempotencyKey).None?
         <==> FindKey(messages, userId, items[i].idempotencyKey).None?
    {
      KeyFreeInBoth(messages, rows[..i], userId, items[i].idempotencyKey);
    }
  }

  lemma KeyFreeInBoth(messages: seq<MessageRow>, more: seq<MessageRow>, userId: int, key: nat)
    requires forall i :: 0 <= i < |more| ==> more[i].idempotencyKey != key
    ensures FindKey(messages + more, userId, key).None? <==> FindKey(messages, userId, key).None?
  {
    var all := messages + more;
    if FindKey(messages, userId, key).None? {
      forall i | 0 <= i < |all|
        ensures !(all[i].userId == userId && all[i].idempotencyKey == key)
      {
        if i >= |messages| {
          assert all[i] == more[i - |messages|];
        }
      }
    } else {
      assert all[FindKey(messages, userId, key).value] == messages[FindKey(messages, userId, key).value];
    }
  }
}

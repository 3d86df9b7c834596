/** What one submission transaction does to the database, single or batch. */
module Submission {
  import opened Domain
  import Book

  datatype Item = Item(recipient: string, body: string, priority: Priority, idempotencyKey: nat)

  datatype SubmissionError =
    | UserNotFound
    | InsufficientBalance
    | IdempotencyConflict
    | IdempotencyDuplicate(key: nat)
    | InvalidAmount

  datatype SingleResult = Created(id: nat) | Replayed(id: nat) | Rejected(error: SubmissionError)

  datatype BatchResult = CreatedAll(first: nat, count: nat) | BatchRejected(error: SubmissionError)

  /** The row the unique constraint on (user, idempotency key) collides with. */
  function FindKey(messages: seq<MessageRow>, userId: int, key: nat): (id: Option<nat>)
    ensures id.Some? ==>
              && id.value < |messages|
              && messages[id.value].userId == userId
              && messages[id.value].idempotencyKey == key
    ensures id.None? <==>
            forall i :: 0 <= i < |messages| ==>
              !(messages[i].userId == userId && messages[i].idempotencyKey == key)
  {
    if messages == [] then None
    else
      var n := |messages| - 1;
      var rest := FindKey(messages[..n], userId, key);
      if rest.Some? then rest
      else if messages[n].userId == userId && messages[n].idempotencyKey == key then Some(n)
      else None
  }

  function NewMessage(cfg: Config, userId: int, item: Item, now: real): MessageRow {
    MessageRow(userId, item.recipient, item.body, cfg.Cost(item.priority), item.priority, item.idempotencyKey,
               Queued, Reserved, now)
  }

  function NewJob(messageId: nat, userId: int, item: Item, now: real): JobRow {
    JobRow(messageId, userId, item.priority, Pending, 0, 0, now, None, None, None, None, None, now)
  }

  function SubmitOne(cfg: Config, s: Store, userId: int, item: Item, now: real): (Store, SingleResult) {
    var cost := cfg.Cost(item.priority);
    match FindKey(s.messages, userId, item.idempotencyKey)
    case Some(id) => (s, Replayed(id))
    case None =>
      if userId !in s.balances then (s, Rejected(UserNotFound))
      else
        var charged := ReserveRow(s.balances[userId], cost);
        if !charged.ChecksHold() then (s, Rejected(InsufficientBalance))
        else
          (Store(s.balances[userId := charged],
                 s.messages + [NewMessage(cfg, userId, item, now)],
                 s.jobs + [NewJob(|s.messages|, userId, item, now)]),
           Created(|s.messages|))
  }

  predicate Distinct(items: seq<Item>) {
    forall i, j :: 0 <= i < j < |items| ==> items[i].idempotencyKey != items[j].idempotencyKey
  }

  /** Item j has this key, and is the first whose key occurred before it. */
  predicate FirstRepeat(items: seq<Item>, j: nat, key: nat) {
    && j < |items|
    && items[j].idempotencyKey == key
    && Distinct(items[..j])
    && exists i :: 0 <= i < j && items[i].idempotencyKey == items[j].idempotencyKey
  }

  /** The first key of the list that already occurred earlier in it. */
  function DuplicateKey(items: seq<Item>): (key: Option<nat>)
    ensures key.None? <==> Distinct(items)
  {
    if items == [] then None
    else
      var n := |items| - 1;
      var rest := DuplicateKey(items[..n]);
      if rest.Some? then
        assert !Distinct(items) by {
          var i, j :| 0 <= i < j < n && items[..n][i].idempotencyKey == items[..n][j].idempotencyKey;
          assert items[i].idempotencyKey == items[j].idempotencyKey;
        }
        rest
      else if exists i :: 0 <= i < n && items[i].idempotencyKey == items[n].idempotencyKey then
        Some(items[n].idempotencyKey)
      else None
  }

  /** The key reported is the one that repeats first. */
  lemma {:induction false} DuplicateIsFirstRepeat(items: seq<Item>)
    requires DuplicateKey(items).Some?
    ensures exists j: nat :: FirstRepeat(items, j, DuplicateKey(items).value)
  {
    var n := |items| - 1;
    if DuplicateKey(items[..n]).Some? {
      DuplicateIsFirstRepeat(items[..n]);
      RepeatStays(items, items[..n], DuplicateKey(items[..n]).value);
    } else {
      assert FirstRepeat(items, n, items[n].idempotencyKey);
    }
  }

  lemma RepeatStays(items: seq<Item>, earlier: seq<Item>, key: nat)
    requires items != [] && earlier == items[..|items| - 1]
    requires exists j: nat :: FirstRepeat(earlier, j, key)
    ensures exists j: nat :: FirstRepeat(items, j, key)
  {
    var j: nat :| FirstRepeat(earlier, j, key);
    assert earlier[..j] == items[..j];
    var i :| 0 <= i < j && earlier[i].idempotencyKey == earlier[j].idempotencyKey;
    assert items[i].idempotencyKey == items[j].idempotencyKey;
    assert FirstRepeat(items, j, key);
  }

  function Costs(cfg: Config, items: seq<Item>): (costs: seq<int>)
    ensures |costs| == |items|
  {
    seq(|items|, i requires 0 <= i < |items| => cfg.Cost(items[i].priority))
  }

  function NewMessages(cfg: Config, userId: int, items: seq<Item>, now: real): (rows: seq<MessageRow>)
    ensures |rows| == |items|
  {
    seq(|items|, i requires 0 <= i < |items| => NewMessage(cfg, userId, items[i], now))
  }

  function NewJobs(first: nat, userId: int, items: seq<Item>, now: real): (rows: seq<JobRow>)
    ensures |rows| == |items|
  {
    seq(|items|, i requires 0 <= i < |items| => NewJob(first + i, userId, items[i], now))
  }

  predicate AnyKeyTaken(messages: seq<MessageRow>, userId: int, items: seq<Item>) {
    exists i :: 0 <= i < |items| && FindKey(messages, userId, items[i].idempotencyKey).Some?
  }

  function SubmitBatch(cfg: Config, s: Store, userId: int, items: seq<Item>, now: real): (Store, BatchResult) {
    var duplicate := DuplicateKey(items);
    var total := Book.Total(Costs(cfg, items));
    if duplicate.Some? then (s, BatchRejected(IdempotencyDuplicate(duplicate.value)))
    else if AnyKeyTaken(s.messages, userId, items) then (s, BatchRejected(IdempotencyConflict))
    else if items != [] && userId !in s.balances then (s, BatchRejected(UserNotFound))
    else if total <= 0 then (s, BatchRejected(InvalidAmount))
    else if userId !in s.balances then (s, BatchRejected(UserNotFound))
    else
      var charged := ReserveRow(s.balances[userId], total);
      if !charged.ChecksHold() then (s, BatchRejected(InsufficientBalance))
      else
        (Store(s.balances[userId := charged],
               s.messages + NewMessages(cfg, userId, items, now),
               s.jobs + NewJobs(|s.messages|, userId, items, now)),
         CreatedAll(|s.messages|, |items|))
  }

  function CreditRow(b: BalanceRow, amount: int): BalanceRow {
    b.(credits := b.credits + amount)
  }

  /** A top-up that is refused, or breaks a CHECK constraint, leaves everything as it was. */
  function TopUp(s: Store, userId: int, amount: int): Store {
    if amount <= 0 || userId !in s.balances then s
    else
      var credited := CreditRow(s.balances[userId], amount);
      if !credited.ChecksHold() then s else s.(balances := s.balances[userId := credited])
  }

  /** A new user comes with an empty balance. */
  function OpenAccount(s: Store, userId: int): Store {
    if userId in s.balances then s
    else s.(balances := s.balances[userId := BalanceRow(0, 0)])
  }
}

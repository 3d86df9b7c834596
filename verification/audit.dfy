/** The payment audit and the per-user summary, and what they report in every reachable state. */
module Audit {
  import opened Domain
  import opened Delivery
  import opened Protocol
  import opened Safety
  import opened Ledger
  import Book

  /** The five counts of the payment consistency collector, over balance rows. */
  datatype Violations = Violations(
    negativeCredits: nat,
    negativeReserved: nat,
    reservedExceedsCredits: nat,
    reservedWithoutMessage: nat,
    messageBalanceMismatch: nat)

  /** Sum of cost over one user's RESERVED messages, as the audit's grouped subquery computes it. */
  function ReservedTotal(messages: seq<MessageRow>, userId: int): int {
    if messages == [] then 0
    else
      var m := messages[|messages| - 1];
      ReservedTotal(messages[..|messages| - 1], userId)
      + if m.userId == userId && m.payment == Reserved then m.cost else 0
  }

  function CollectViolations(s: Store): Violations {
    Violations(
      |set u | u in s.balances && s.balances[u].credits < 0|,
      |set u | u in s.balances && s.balances[u].reserved < 0|,
      |set u | u in s.balances && s.balances[u].credits < s.balances[u].reserved|,
      |set u | u in s.balances && 0 < s.balances[u].reserved && ReservedTotal(s.messages, u) == 0|,
      |set u | u in s.balances && s.balances[u].reserved != ReservedTotal(s.messages, u)|)
  }

  lemma {:induction false} ReservedTotalIsOwed(messages: seq<MessageRow>, u: int)
    ensures ReservedTotal(messages, u) == Book.Owed(Entries(messages), u, Reserved)
  {
    if messages != [] {
      var n := |messages| - 1;
      assert Entries(messages)[..n] == Entries(messages[..n]);
      ReservedTotalIsOwed(messages[..n], u);
    }
  }

  /** The rows of the balances table, each user once. */
  ghost predicate Lists(users: seq<int>, balances: map<int, BalanceRow>) {
    && (forall u :: u in users <==> u in balances)
    && (forall i, j :: 0 <= i < j < |users| ==> users[i] != users[j])
  }

  /** Going through the rows and counting those that match. */
  function CountUsers(users: seq<int>, matches: int -> bool): nat {
    if users == [] then 0
    else CountUsers(users[..|users| - 1], matches) + if matches(users[|users| - 1]) then 1 else 0
  }

  function Found(users: seq<int>, matches: int -> bool): set<int> {
    set u | u in users && matches(u)
  }

  lemma FoundGrows(users: seq<int>, matches: int -> bool)
    requires users != [] && users[|users| - 1] !in users[..|users| - 1]
    ensures var n := |users| - 1;
            |Found(users, matches)| == |Found(users[..n], matches)| + if matches(users[n]) then 1 else 0
  {
    var n := |users| - 1;
    assert users == users[..n] + [users[n]];
    if matches(users[n]) {
      assert Found(users, matches) == Found(users[..n], matches) + {users[n]};
    } else {
      assert Found(users, matches) == Found(users[..n], matches);
    }
  }

  lemma {:induction false} CountIsSize(users: seq<int>, matches: int -> bool)
    requires forall i, j :: 0 <= i < j < |users| ==> users[i] != users[j]
    ensures CountUsers(users, matches) == |Found(users, matches)|
  {
    if users != [] {
      CountIsSize(users[..|users| - 1], matches);
      FoundGrows(users, matches);
    }
  }

  lemma CountOver(users: seq<int>, balances: map<int, BalanceRow>, matches: int -> bool, found: set<int>)
    requires Lists(users, balances)
    requires forall u :: u in found <==> u in balances && matches(u)
    ensures |found| == CountUsers(users, matches)
  {
    CountIsSize(users, matches);
    forall u
      ensures u in found <==> u in Found(users, matches)
    {
      assert u in users <==> u in balances;
    }
    assert found == Found(users, matches);
  }

  /** On every database, sound or not, the audit counts the rows with each defect, and each defect is what it says. */
  lemma ViolationsCounted(s: Store, users: seq<int>)
    requires Lists(users, s.balances)
    ensures CollectViolations(s) == Violations(
              CountUsers(users, u => u in s.balances && s.balances[u].credits < 0),
              CountUsers(users, u => u in s.balances && s.balances[u].reserved < 0),
              CountUsers(users, u => u in s.balances && s.balances[u].credits < s.balances[u].reserved),
              CountUsers(users, u => u in s.balances && 0 < s.balances[u].reserved
                                     && Book.Owed(Entries(s.messages), u, Reserved) == 0),
              CountUsers(users, u => u in s.balances
                                     && s.balances[u].reserved != Book.Owed(Entries(s.messages), u, Reserved)))
  {
    var b := s.balances;
    forall u
      ensures ReservedTotal(s.messages, u) == Book.Owed(Entries(s.messages), u, Reserved)
    {
      ReservedTotalIsOwed(s.messages, u);
    }
    CountOver(users, b, u => u in b && b[u].credits < 0, set u | u in b && b[u].credits < 0);
    CountOver(users, b, u => u in b && b[u].reserved < 0, set u | u in b && b[u].reserved < 0);
    CountOver(users, b, u => u in b && b[u].credits < b[u].reserved, set u | u in b && b[u].credits < b[u].reserved);
    CountOver(users, b, u => u in b && 0 < b[u].reserved && Book.Owed(Entries(s.messages), u, Reserved) == 0,
              set u | u in b && 0 < b[u].reserved && ReservedTotal(s.messages, u) == 0);
    CountOver(users, b, u => u in b && b[u].reserved != Book.Owed(Entries(s.messages), u, Reserved),
              set u | u in b && b[u].reserved != ReservedTotal(s.messages, u));
  }

  /** Property 12. The audit reports nothing in any reachable state, split sweeps included. */
  lemma AuditIsClean(cfg: Config, start: real, actions: seq<Action>)
    requires cfg.Valid()
    ensures CollectViolations(Run(cfg, Initial(start), actions).store) == Violations(0, 0, 0, 0, 0)
  {
    var s := Run(cfg, Initial(start), actions).store;
    LedgerAlwaysCorrect(cfg, start, actions);
    forall u | u in s.balances
      ensures s.balances[u].reserved == ReservedTotal(s.messages, u)
    {
      ReservedTotalIsOwed(s.messages, u);
    }
    assert (set u | u in s.balances && s.balances[u].credits < 0) == {};
    assert (set u | u in s.balances && s.balances[u].reserved < 0) == {};
    assert (set u | u in s.balances && s.balances[u].credits < s.balances[u].reserved) == {};
    assert (set u | u in s.balances && 0 < s.balances[u].reserved && ReservedTotal(s.messages, u) == 0) == {};
    assert (set u | u in s.balances && s.balances[u].reserved != ReservedTotal(s.messages, u)) == {};
  }

  /**
   * Property 12. With atomic sweeps no worker transaction ever fails on money: claiming never meets a payment that
   * is not reserved, and neither transaction is rolled back by a CHECK constraint or a missing balance.
   */
  lemma WorkerNeverFailsOnMoney(cfg: Config, start: real, actions: seq<Action>, j: nat, worker: nat,
                                result: ProviderResult, jitter: real)
    requires cfg.Valid()
    ensures var w := Run(cfg, Initial(start), actions);
      && ClaimForDelivery(cfg, w.store, j, worker, w.now).1 != ClaimRolledBack
      && (Atomic(actions) ==> ClaimForDelivery(cfg, w.store, j, worker, w.now).1 != PaymentNotReserved)
      && Record(cfg, w.store, j, worker, result, jitter, w.now).1 != RecordRolledBack
  {
    var w := Run(cfg, Initial(start), actions);
    InitialConsistent(start);
    RunSound(cfg, Initial(start), actions);
    ClaimPerforms(cfg, w.store, j, worker, w.now);
    RecordPerforms(cfg, w.store, j, worker, result, jitter, w.now);
  }

  // ---------------------------------------------------------------- summary

  datatype Summary = Summary(
    total: nat,
    queued: nat, dispatching: nat, failed: nat, sent: nat, permanentFailed: nat,
    reserved: nat, deducted: nat, refunded: nat)

  function CountStatus(messages: seq<MessageRow>, userId: int, status: MessageStatus): nat {
    if messages == [] then 0
    else
      var m := messages[|messages| - 1];
      CountStatus(messages[..|messages| - 1], userId, status)
      + if m.userId == userId && m.status == status then 1 else 0
  }

  function CountPayment(messages: seq<MessageRow>, userId: int, payment: PaymentStatus): nat {
    if messages == [] then 0
    else
      var m := messages[|messages| - 1];
      CountPayment(messages[..|messages| - 1], userId, payment)
      + if m.userId == userId && m.payment == payment then 1 else 0
  }

  function CountAll(messages: seq<MessageRow>, userId: int): nat {
    if messages == [] then 0
    else CountAll(messages[..|messages| - 1], userId) + if messages[|messages| - 1].userId == userId then 1 else 0
  }

  function CalculateSummary(messages: seq<MessageRow>, userId: int): Summary {
    Summary(
      CountAll(messages, userId),
      CountStatus(messages, userId, Queued),
      CountStatus(messages, userId, MessageStatus.Dispatching),
      CountStatus(messages, userId, MessageStatus.Failed),
      CountStatus(messages, userId, Sent),
      CountStatus(messages, userId, PermanentFailed),
      CountPayment(messages, userId, Reserved),
      CountPayment(messages, userId, Deducted),
      CountPayment(messages, userId, Refunded))
  }

  // The rows of one user, and those with one status or one payment status.

  function RowsOf(messages: seq<MessageRow>, u: int): set<nat> {
    set i: nat | i < |messages| && messages[i].userId == u
  }

  function RowsIn(messages: seq<MessageRow>, u: int, status: MessageStatus): set<nat> {
    set i: nat | i < |messages| && messages[i].userId == u && messages[i].status == status
  }

  function RowsPaid(messages: seq<MessageRow>, u: int, payment: PaymentStatus): set<nat> {
    set i: nat | i < |messages| && messages[i].userId == u && messages[i].payment == payment
  }

  lemma OneMore(all: set<nat>, before: set<nat>, n: nat)
    requires forall i: nat :: i in all ==> i <= n
    requires forall i: nat :: i in before ==> i < n
    requires forall i: nat :: i < n ==> (i in all <==> i in before)
    ensures |all| == |before| + if n in all then 1 else 0
  {
    assert all == before + if n in all then {n} else {};
  }

  lemma RowsOfGrow(messages: seq<MessageRow>, u: int)
    requires messages != []
    ensures var n := |messages| - 1;
            |RowsOf(messages, u)|
              == |RowsOf(messages[..n], u)| + if messages[n].userId == u then 1 else 0
  {
    var n := |messages| - 1;
    var all, before := RowsOf(messages, u), RowsOf(messages[..n], u);
    forall i: nat | i < n
      ensures i in all <==> i in before
    {
      assert messages[..n][i] == messages[i];
    }
    OneMore(all, before, n);
  }

  lemma {:induction false} AllCounted(messages: seq<MessageRow>, u: int)
    ensures CountAll(messages, u) == |RowsOf(messages, u)|
  {
    if messages != [] {
      AllCounted(messages[..|messages| - 1], u);
      RowsOfGrow(messages, u);
    }
  }

  lemma RowsInGrow(messages: seq<MessageRow>, u: int, status: MessageStatus)
    requires messages != []
    ensures var n := |messages| - 1;
            |RowsIn(messages, u, status)| ==
            |RowsIn(messages[..n], u, status)|
            + if messages[n].userId == u && messages[n].status == status then 1 else 0
  {
    var n := |messages| - 1;
    var all, before := RowsIn(messages, u, status), RowsIn(messages[..n], u, status);
    forall i: nat | i < n
      ensures i in all <==> i in before
    {
      assert messages[..n][i] == messages[i];
    }
    OneMore(all, before, n);
  }

  lemma {:induction false} StatusCounted(messages: seq<MessageRow>, u: int, status: MessageStatus)
    ensures CountStatus(messages, u, status) == |RowsIn(messages, u, status)|
  {
    if messages != [] {
      StatusCounted(messages[..|messages| - 1], u, status);
      RowsInGrow(messages, u, status);
    }
  }

  lemma RowsPaidGrow(messages: seq<MessageRow>, u: int, payment: PaymentStatus)
    requires messages != []
    ensures var n := |messages| - 1;
            |RowsPaid(messages, u, payment)| ==
            |RowsPaid(messages[..n], u, payment)|
            + if messages[n].userId == u && messages[n].payment == payment then 1 else 0
  {
    var n := |messages| - 1;
    var all, before := RowsPaid(messages, u, payment), RowsPaid(messages[..n], u, payment);
    forall i: nat | i < n
      ensures i in all <==> i in before
    {
      assert messages[..n][i] == messages[i];
    }
    OneMore(all, before, n);
  }

  lemma {:induction false} PaymentCounted(messages: seq<MessageRow>, u: int, payment: PaymentStatus)
    ensures CountPayment(messages, u, payment) == |RowsPaid(messages, u, payment)|
  {
    if messages != [] {
      PaymentCounted(messages[..|messages| - 1], u, payment);
      RowsPaidGrow(messages, u, payment);
    }
  }

  /** Every column of a summary is the number of the user's rows with its status, on every table. */
  lemma SummaryCounts(messages: seq<MessageRow>, u: int)
    ensures CalculateSummary(messages, u) == Summary(
              |RowsOf(messages, u)|,
              |RowsIn(messages, u, Queued)|,
              |RowsIn(messages, u, MessageStatus.Dispatching)|,
              |RowsIn(messages, u, MessageStatus.Failed)|,
              |RowsIn(messages, u, Sent)|,
              |RowsIn(messages, u, PermanentFailed)|,
              |RowsPaid(messages, u, Reserved)|,
              |RowsPaid(messages, u, Deducted)|,
              |RowsPaid(messages, u, Refunded)|)
  {
    AllCounted(messages, u);
    StatusCounted(messages, u, Queued);
    StatusCounted(messages, u, MessageStatus.Dispatching);
    StatusCounted(messages, u, MessageStatus.Failed);
    StatusCounted(messages, u, Sent);
    StatusCounted(messages, u, PermanentFailed);
    PaymentCounted(messages, u, Reserved);
    PaymentCounted(messages, u, Deducted);
    PaymentCounted(messages, u, Refunded);
  }

  /** Delivery and payment columns of a summary agree. */
  predicate Reconciles(r: Summary) {
    && r.sent == r.deducted
    && r.permanentFailed == r.refunded
    && r.reserved == r.queued + r.dispatching + r.failed
    && r.total == r.reserved + r.deducted + r.refunded
  }

  lemma {:induction false} SummaryReconciles(messages: seq<MessageRow>, u: int)
    requires forall i :: 0 <= i < |messages| ==> StatusMatchesPayment(messages[i])
    ensures Reconciles(CalculateSummary(messages, u))
  {
    if messages != [] {
      var n := |messages| - 1;
      SummaryReconciles(messages[..n], u);
      assert StatusMatchesPayment(messages[n]);
    }
  }

  /** Property 12. Every user's summary reconciles in every reachable state. */
  lemma {:induction false} SummariesReconcile(cfg: Config, start: real, actions: seq<Action>, u: int)
    requires cfg.Valid()
    ensures Reconciles(CalculateSummary(Run(cfg, Initial(start), actions).store.messages, u))
  {
    LedgerAlwaysCorrect(cfg, start, actions);
    SummaryReconciles(Run(cfg, Initial(start), actions).store.messages, u);
  }
}

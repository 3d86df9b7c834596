/**
 * The abstract account machine: balances and priced entries, with no jobs, leases or clocks.
 * Everything the gateway does to money is one of these events.
 */
module Book {
  import opened Domain

  datatype Entry = Entry(userId: int, cost: int, payment: PaymentStatus)

  datatype Book = Book(balances: map<int, BalanceRow>, entries: seq<Entry>)

  datatype Event =
    | Idle
    | Open(userId: int)
    | Deposit(userId: int, amount: int)
    | Reserve(userId: int, costs: seq<int>)
    | Deduct(entry: nat)
    | Refund(entry: nat)

  /** Total cost of one user's entries in one payment status. */
  function Owed(entries: seq<Entry>, userId: int, payment: PaymentStatus): int {
    if entries == [] then 0
    else
      var last := entries[|entries| - 1];
      Owed(entries[..|entries| - 1], userId, payment)
      + if last.userId == userId && last.payment == payment then last.cost else 0
  }

  function Total(costs: seq<int>): int {
    if costs == [] then 0 else Total(costs[..|costs| - 1]) + costs[|costs| - 1]
  }

  function NewEntries(userId: int, costs: seq<int>): (entries: seq<Entry>)
    ensures |entries| == |costs|
  {
    seq(|costs|, i requires 0 <= i < |costs| => Entry(userId, costs[i], Reserved))
  }

  ghost predicate Enabled(b: Book, e: Event) {
    match e
    case Idle => true
    case Open(u) => u !in b.balances
    case Deposit(u, amount) => u in b.balances && 0 < amount
    case Reserve(u, costs) =>
      && u in b.balances
      && (forall i :: 0 <= i < |costs| ==> 0 < costs[i])
      && b.balances[u].reserved + Total(costs) <= b.balances[u].credits
    case Deduct(i) => i < |b.entries| && b.entries[i].payment == Reserved
    case Refund(i) => i < |b.entries| && b.entries[i].payment == Reserved
  }

  ghost function Apply(b: Book, e: Event): Book
    requires Valid(b) && Enabled(b, e)
  {
    match e
    case Idle => b
    case Open(u) => b.(balances := b.balances[u := BalanceRow(0, 0)])
    case Deposit(u, amount) =>
      b.(balances := b.balances[u := b.balances[u].(credits := b.balances[u].credits + amount)])
    case Reserve(u, costs) =>
      Book(b.balances[u := ReserveRow(b.balances[u], Total(costs))], b.entries + NewEntries(u, costs))
    case Deduct(i) =>
      var entry := b.entries[i];
      Book(b.balances[entry.userId := SettleRow(b.balances[entry.userId], entry.cost)],
           b.entries[i := entry.(payment := Deducted)])
    case Refund(i) =>
      var entry := b.entries[i];
      Book(b.balances[entry.userId := ReleaseRow(b.balances[entry.userId], entry.cost)],
           b.entries[i := entry.(payment := Refunded)])
  }

  /** The ledger invariant: reservations are exactly the open entries, and the CHECK constraints hold. */
  ghost predicate Valid(b: Book) {
    && (forall i :: 0 <= i < |b.entries| ==> b.entries[i].userId in b.balances && 0 < b.entries[i].cost)
    && (forall u :: u in b.balances ==> Backed(b, u))
  }

  ghost predicate Backed(b: Book, u: int)
    requires u in b.balances
  {
    && b.balances[u].ChecksHold()
    && b.balances[u].reserved == Owed(b.entries, u, Reserved)
  }

  // ---------------------------------------------------------------- sums

  lemma {:induction false} OwedConcat(entries: seq<Entry>, more: seq<Entry>, u: int, p: PaymentStatus)
    ensures Owed(entries + more, u, p) == Owed(entries, u, p) + Owed(more, u, p)
  {
    if more == [] {
      assert entries + more == entries;
    } else {
      var all := entries + more;
      assert all[..|all| - 1] == entries + more[..|more| - 1];
      OwedConcat(entries, more[..|more| - 1], u, p);
    }
  }

  lemma {:induction false} OwedNew(u: int, costs: seq<int>, v: int, p: PaymentStatus)
    ensures Owed(NewEntries(u, costs), v, p) == if v == u && p == Reserved then Total(costs) else 0
  {
    if costs != [] {
      var entries := NewEntries(u, costs);
      assert entries[..|entries| - 1] == NewEntries(u, costs[..|costs| - 1]);
      OwedNew(u, costs[..|costs| - 1], v, p);
    }
  }

  lemma {:induction false} OwedUpdate(entries: seq<Entry>, i: nat, e: Entry, u: int, p: PaymentStatus)
    requires i < |entries|
    ensures Owed(entries[i := e], u, p) ==
            Owed(entries, u, p)
            - (if entries[i].userId == u && entries[i].payment == p then entries[i].cost else 0)
            + (if e.userId == u && e.payment == p then e.cost else 0)
  {
    var n := |entries| - 1;
    var updated := entries[i := e];
    if i == n {
      assert updated[..n] == entries[..n];
    } else {
      assert updated[..n] == entries[..n][i := e];
      OwedUpdate(entries[..n], i, e, u, p);
    }
  }

  /** With positive costs a sum is at least each of its terms, and never negative. */
  lemma {:induction false} OwedBound(entries: seq<Entry>, u: int, p: PaymentStatus)
    requires forall i :: 0 <= i < |entries| ==> 0 < entries[i].cost
    ensures 0 <= Owed(entries, u, p)
    ensures forall i :: 0 <= i < |entries| && entries[i].userId == u && entries[i].payment == p
              ==> entries[i].cost <= Owed(entries, u, p)
  {
    if entries != [] {
      OwedBound(entries[..|entries| - 1], u, p);
      assert forall i :: 0 <= i < |entries| - 1 ==> entries[i] == entries[..|entries| - 1][i];
    }
  }

  lemma {:induction false} TotalPositive(costs: seq<int>)
    requires forall i :: 0 <= i < |costs| ==> 0 < costs[i]
    ensures 0 <= Total(costs)
  {
    if costs != [] {
      TotalPositive(costs[..|costs| - 1]);
    }
  }

  // ---------------------------------------------------------------- the machine keeps its books

  /** No CHECK constraint can fire when a reserved entry is settled or released. */
  lemma CloseKeepsChecks(b: Book, i: nat)
    requires Valid(b) && i < |b.entries| && b.entries[i].payment == Reserved
    ensures SettleRow(b.balances[b.entries[i].userId], b.entries[i].cost).ChecksHold()
    ensures ReleaseRow(b.balances[b.entries[i].userId], b.entries[i].cost).ChecksHold()
  {
    var u := b.entries[i].userId;
    assert Backed(b, u);
    OwedBound(b.entries, u, Reserved);
  }

  lemma ApplyValid(b: Book, e: Event)
    requires Valid(b) && Enabled(b, e)
    ensures Valid(Apply(b, e))
  {
    var b' := Apply(b, e);
    forall u | u in b'.balances
      ensures Backed(b', u)
    {
      match e
      case Idle => assert Backed(b, u);
      case Open(v) =>
        if u == v {
          OwedNobody(b.entries, u, Reserved);
        } else {
          assert Backed(b, u);
        }
      case Deposit(v, amount) => assert Backed(b, u);
      case Reserve(v, costs) =>
        assert Backed(b, u);
        OwedConcat(b.entries, NewEntries(v, costs), u, Reserved);
        OwedNew(v, costs, u, Reserved);
        TotalPositive(costs);
      case Deduct(i) =>
        assert Backed(b, u);
        CloseKeepsChecks(b, i);
        OwedUpdate(b.entries, i, b.entries[i].(payment := Deducted), u, Reserved);
      case Refund(i) =>
        assert Backed(b, u);
        CloseKeepsChecks(b, i);
        OwedUpdate(b.entries, i, b.entries[i].(payment := Refunded), u, Reserved);
    }
  }

  lemma {:induction false} OwedNobody(entries: seq<Entry>, u: int, p: PaymentStatus)
    requires forall i :: 0 <= i < |entries| ==> entries[i].userId != u
    ensures Owed(entries, u, p) == 0
  {
    if entries != [] {
      OwedNobody(entries[..|entries| - 1], u, p);
    }
  }

  /** What an event adds to the money a user has ever put in. */
  function Deposited(e: Event, u: int): int {
    if e.Deposit? && e.userId == u then e.amount else 0
  }

  /** Credits change only by deposits and by deductions of entries. */
  lemma Conservation(b: Book, e: Event, u: int)
    requires Valid(b) && Enabled(b, e) && u in b.balances
    ensures var b' := Apply(b, e);
            && u in b'.balances
            && b'.balances[u].credits + Owed(b'.entries, u, Deducted)
               == b.balances[u].credits + Owed(b.entries, u, Deducted) + Deposited(e, u)
  {
    match e
    case Reserve(v, costs) =>
      OwedConcat(b.entries, NewEntries(v, costs), u, Deducted);
      OwedNew(v, costs, u, Deducted);
    case Deduct(i) =>
      OwedUpdate(b.entries, i, b.entries[i].(payment := Deducted), u, Deducted);
    case Refund(i) =>
      OwedUpdate(b.entries, i, b.entries[i].(payment := Refunded), u, Deducted);
    case _ =>
  }
}

/** Batches against single submissions, the race for the last credits, and idempotency over runs. */
module SubmissionLaws {
  import opened Domain
  import opened Submission
  import opened Protocol
  import opened Safety
  import opened Ledger
  import opened JobHistory
  import Book

  // ---------------------------------------------------------------- batches

  /** Submitting the items one by one, in order. */
  function SubmitEach(cfg: Config, s: Store, u: int, items: seq<Item>, now: real): Store {
    if items == [] then s
    else SubmitOne(cfg, SubmitEach(cfg, s, u, items[..|items| - 1], now), u, items[|items| - 1], now).0
  }

  /** Which of those submissions is accepted. */
  function AcceptedCount(cfg: Config, s: Store, u: int, items: seq<Item>, now: real): nat {
    if items == [] then 0
    else
      var n := |items| - 1;
      AcceptedCount(cfg, s, u, items[..n], now)
      + if SubmitOne(cfg, SubmitEach(cfg, s, u, items[..n], now), u, items[n], now).1.Created? then 1 else 0
  }

  function Available(s: Store, u: int): int
    requires u in s.balances
  {
    s.balances[u].credits - s.balances[u].reserved
  }

  /** Keys that are new to the user and to each other. */
  predicate AllFresh(s: Store, u: int, items: seq<Item>) {
    Distinct(items) && !AnyKeyTaken(s.messages, u, items)
  }

  lemma TotalPrefix(costs: seq<int>, k: nat)
    requires k <= |costs| && forall i :: 0 <= i < |costs| ==> 0 < costs[i]
    ensures Book.Total(costs[..k]) <= Book.Total(costs)
    ensures 0 < k ==> 0 < Book.Total(costs)
    decreases |costs|
  {
    if k < |costs| {
      assert costs[..|costs| - 1][..k] == costs[..k];
      TotalPrefix(costs[..|costs| - 1], k);
    } else {
      assert costs[..k] == costs;
      if 0 < k {
        Book.TotalPositive(costs[..k - 1]);
      }
    }
  }

  lemma FreshPrefix(s: Store, u: int, items: seq<Item>, k: nat)
    requires k <= |items| && AllFresh(s, u, items)
    ensures AllFresh(s, u, items[..k])
  {
    forall i | 0 <= i < k
      ensures FindKey(s.messages, u, items[..k][i].idempotencyKey).None?
    {
      assert FindKey(s.messages, u, items[i].idempotencyKey).None?;
    }
  }

  lemma GrowthKeyFree(cfg: Config, s: Store, u: int, items: seq<Item>, now: real)
    requires u in s.balances && items != [] && AllFresh(s, u, items)
    ensures var n := |items| - 1;
            FindKey(WithBatch(cfg, s, u, items[..n], now).messages, u, items[n].idempotencyKey).None?
  {
    assert FindKey(s.messages, u, items[|items| - 1].idempotencyKey).None?;
  }

  /** A batch's store is the store of the batch without its last item, with that item's rows and price added. */
  lemma BatchGrows(cfg: Config, s: Store, u: int, items: seq<Item>, now: real)
    requires u in s.balances && items != [] && |s.jobs| == |s.messages|
    ensures var n := |items| - 1;
            var before := WithBatch(cfg, s, u, items[..n], now);
            WithBatch(cfg, s, u, items, now)
              == Store(before.balances[u := ReserveRow(before.balances[u], cfg.Cost(items[n].priority))],
                       before.messages + [NewMessage(cfg, u, items[n], now)],
                       before.jobs + [NewJob(|before.messages|, u, items[n], now)])
  {
    var n := |items| - 1;
    var before, after := WithBatch(cfg, s, u, items[..n], now), WithBatch(cfg, s, u, items, now);
    assert Costs(cfg, items)[..n] == Costs(cfg, items[..n]);
    assert before.messages + [NewMessage(cfg, u, items[n], now)] == after.messages;
    assert before.jobs + [NewJob(|before.messages|, u, items[n], now)] == after.jobs;
    assert before.balances[u := ReserveRow(before.balances[u], cfg.Cost(items[n].priority))] == after.balances;
  }

  lemma GrowsByOne(cfg: Config, s: Store, u: int, items: seq<Item>, now: real)
    requires cfg.Valid() && u in s.balances && s.balances[u].ChecksHold() && |s.jobs| == |s.messages|
    requires items != [] && AllFresh(s, u, items) && Book.Total(Costs(cfg, items)) <= Available(s, u)
    ensures SubmitOne(cfg, WithBatch(cfg, s, u, items[..|items| - 1], now), u, items[|items| - 1], now)
         == (WithBatch(cfg, s, u, items, now), Created(|s.messages| + |items| - 1))
  {
    var n := |items| - 1;
    var costs := Costs(cfg, items);
    assert costs[..n] == Costs(cfg, items[..n]);
    Book.TotalPositive(costs[..n]);
    GrowthKeyFree(cfg, s, u, items, now);
    BatchGrows(cfg, s, u, items, now);
  }

  /** After a batch that fits was submitted one by one, exactly its rows and reservations are there. */
  lemma {:induction false} EachFits(cfg: Config, s: Store, u: int, items: seq<Item>, now: real)
    requires cfg.Valid() && u in s.balances && s.balances[u].ChecksHold() && |s.jobs| == |s.messages|
    requires AllFresh(s, u, items) && Book.Total(Costs(cfg, items)) <= Available(s, u)
    ensures SubmitEach(cfg, s, u, items, now) == WithBatch(cfg, s, u, items, now)
    ensures AcceptedCount(cfg, s, u, items, now) == |items|
  {
    if items == [] {
      assert s.messages + NewMessages(cfg, u, items, now) == s.messages;
      assert s.jobs + NewJobs(|s.messages|, u, items, now) == s.jobs;
      assert Costs(cfg, items) == [];
      assert s.balances[u := s.balances[u]] == s.balances;
    } else {
      var n := |items| - 1;
      assert Costs(cfg, items)[..n] == Costs(cfg, items[..n]);
      TotalPrefix(Costs(cfg, items), n);
      FreshPrefix(s, u, items, n);
      EachFits(cfg, s, u, items[..n], now);
      GrowsByOne(cfg, s, u, items, now);
    }
  }

  /**
   * Property 14. A batch is accepted exactly when it is not empty, its keys are fresh and distinct, its user exists
   * and its total fits the available credits; it then does what submitting its items one by one does, every one of
   * them accepted; and any other batch changes nothing.
   */
  lemma BatchRefinesSingles(cfg: Config, s: Store, u: int, items: seq<Item>, now: real)
    requires cfg.Valid() && Sound(s)
    ensures var (s', r) := SubmitBatch(cfg, s, u, items, now);
      && (r.CreatedAll? <==>
            items != [] && AllFresh(s, u, items) && u in s.balances
            && Book.Total(Costs(cfg, items)) <= Available(s, u))
      && (r.CreatedAll? ==>
            && s' == SubmitEach(cfg, s, u, items, now)
            && AcceptedCount(cfg, s, u, items, now) == |items|
            && r == CreatedAll(|s.messages|, |items|))
      && (!r.CreatedAll? ==> s' == s)
  {
    if u in s.balances {
      assert Book.Backed(Abstract(s), u);
      var costs := Costs(cfg, items);
      TotalPrefix(costs, |costs|);
      if AllFresh(s, u, items) && Book.Total(costs) <= Available(s, u) {
        EachFits(cfg, s, u, items, now);
      }
    }
  }

  // ---------------------------------------------------------------- the race for the last credits

  /** The state of the race after some submissions. */
  ghost predicate Raced(cfg: Config, s: Store, u: int, items: seq<Item>, cost: int, s': Store, accepted: nat)
    requires u in s.balances
  {
    && u in s'.balances
    && |s.messages| <= |s'.messages|
    && s'.messages[..|s.messages|] == s.messages
    && (forall m :: |s.messages| <= m < |s'.messages| ==>
          exists i :: 0 <= i < |items| && s'.messages[m].idempotencyKey == items[i].idempotencyKey)
    && s'.balances[u] == s.balances[u].(reserved := s.balances[u].reserved + accepted * cost)
  }

  lemma NonNegative(n: nat, cost: int)
    requires 0 < cost
    ensures 0 <= n * cost
  {
  }

  lemma {:induction false} MinMultiple(n: nat, available: nat, cost: int)
    requires 0 < cost
    ensures var accepted := Min(n, available / cost);
            accepted * cost + cost <= available <==> n < available / cost
  {
    var q := available / cost;
    assert q * cost <= available < q * cost + cost;
    if n < q {
      assert (n + 1) * cost <= q * cost;
    } else {
      assert Min(n, q) == q;
    }
  }

  lemma {:induction false} RaceSteps(cfg: Config, s: Store, u: int, items: seq<Item>, cost: int, now: real)
    requires cfg.Valid() && u in s.balances && s.balances[u].ChecksHold() && 0 < cost
    requires AllFresh(s, u, items)
    requires forall i :: 0 <= i < |items| ==> cfg.Cost(items[i].priority) == cost
    ensures AcceptedCount(cfg, s, u, items, now) == Min(|items|, Available(s, u) / cost)
    ensures Raced(cfg, s, u, items, cost, SubmitEach(cfg, s, u, items, now), AcceptedCount(cfg, s, u, items, now))
  {
    if items != [] {
      var n := |items| - 1;
      FreshPrefix(s, u, items, n);
      RaceSteps(cfg, s, u, items[..n], cost, now);
      var before := SubmitEach(cfg, s, u, items[..n], now);
      var accepted := AcceptedCount(cfg, s, u, items[..n], now);
      RaceKeyFree(cfg, s, u, items, cost, before, accepted);
      MinMultiple(n, Available(s, u), cost);
      NonNegative(accepted, cost);
      RaceStep(cfg, s, u, items, cost, before, accepted, now);
    }
  }

  lemma RaceKeyFree(cfg: Config, s: Store, u: int, items: seq<Item>, cost: int, before: Store, accepted: nat)
    requires u in s.balances && items != [] && AllFresh(s, u, items)
    requires Raced(cfg, s, u, items[..|items| - 1], cost, before, accepted)
    ensures FindKey(before.messages, u, items[|items| - 1].idempotencyKey).None?
  {
    var n := |items| - 1;
    assert FindKey(s.messages, u, items[n].idempotencyKey).None?;
    forall m | 0 <= m < |before.messages|
      ensures !(before.messages[m].userId == u && before.messages[m].idempotencyKey == items[n].idempotencyKey)
    {
      if m < |s.messages| {
        assert before.messages[m] == before.messages[..|s.messages|][m];
      }
    }
  }

  lemma RaceStep(cfg: Config, s: Store, u: int, items: seq<Item>, cost: int, before: Store, accepted: nat, now: real)
    requires cfg.Valid() && u in s.balances && s.balances[u].ChecksHold() && items != [] && 0 < cost
    requires cfg.Cost(items[|items| - 1].priority) == cost && 0 <= accepted * cost
    requires Raced(cfg, s, u, items[..|items| - 1], cost, before, accepted)
    requires FindKey(before.messages, u, items[|items| - 1].idempotencyKey).None?
    ensures var (s', r) := SubmitOne(cfg, before, u, items[|items| - 1], now);
            && (r.Created? <==> accepted * cost + cost <= Available(s, u))
            && Raced(cfg, s, u, items, cost, s', if r.Created? then accepted + 1 else accepted)
  {
    var (s', r) := SubmitOne(cfg, before, u, items[|items| - 1], now);
    assert (accepted + 1) * cost == accepted * cost + cost;
    forall m | |s.messages| <= m < |s'.messages|
      ensures exists i :: 0 <= i < |items| && s'.messages[m].idempotencyKey == items[i].idempotencyKey
    {
      if m < |before.messages| {
        assert s'.messages[m] == before.messages[m];
        var i :| 0 <= i < |items| - 1 && before.messages[m].idempotencyKey == items[..|items| - 1][i].idempotencyKey;
        assert items[..|items| - 1][i] == items[i];
      } else {
        assert s'.messages[m].idempotencyKey == items[|items| - 1].idempotencyKey;
      }
    }
  }

  /**
   * Property 14. However many submissions of equal cost race for a user's credits, and in whatever order they land,
   * exactly as many are accepted as the available credits pay for.
   */
  lemma {:induction false} RaceAdmitsExactly(cfg: Config, s: Store, u: int, items: seq<Item>, cost: int, now: real)
    requires cfg.Valid() && Sound(s) && u in s.balances && 0 < cost && AllFresh(s, u, items)
    requires forall i :: 0 <= i < |items| ==> cfg.Cost(items[i].priority) == cost
    ensures AcceptedCount(cfg, s, u, items, now) == Min(|items|, Available(s, u) / cost)
  {
    assert Book.Backed(Abstract(s), u);
    RaceSteps(cfg, s, u, items, cost, now);
  }

  // ---------------------------------------------------------------- idempotency over runs

  ghost predicate KeysUnique(messages: seq<MessageRow>) {
    forall i, j :: 0 <= i < j < |messages| ==>
      !(messages[i].userId == messages[j].userId && messages[i].idempotencyKey == messages[j].idempotencyKey)
  }

  /** New messages whose keys are distinct and were free keep the table's keys unique. */
  lemma AppendedKeys(before: seq<MessageRow>, after: seq<MessageRow>, u: int, items: seq<Item>)
    requires KeysUnique(before) && Distinct(items) && !AnyKeyTaken(before, u, items)
    requires |after| == |before| + |items| && after[..|before|] == before
    requires forall i :: 0 <= i < |items| ==>
               after[|before| + i].userId == u && after[|before| + i].idempotencyKey == items[i].idempotencyKey
    ensures KeysUnique(after)
  {
    var n := |before|;
    assert forall i :: 0 <= i < n ==> after[i] == after[..n][i];
    forall i, j | 0 <= i < j < |after|
      ensures !(after[i].userId == after[j].userId && after[i].idempotencyKey == after[j].idempotencyKey)
    {
      if n <= i {
        assert after[i] == after[n + (i - n)] && after[j] == after[n + (j - n)];
        assert items[i - n].idempotencyKey != items[j - n].idempotencyKey;
      } else if n <= j {
        assert after[j] == after[n + (j - n)];
        assert FindKey(before, u, items[j - n].idempotencyKey).None?;
        assert !(before[i].userId == u && before[i].idempotencyKey == items[j - n].idempotencyKey);
      } else {
        assert !(before[i].userId == before[j].userId && before[i].idempotencyKey == before[j].idempotencyKey);
      }
    }
  }

  lemma BatchKeepsKeys(cfg: Config, s: Store, u: int, items: seq<Item>, now: real)
    requires KeysUnique(s.messages)
    ensures KeysUnique(SubmitBatch(cfg, s, u, items, now).0.messages)
  {
    if SubmitBatch(cfg, s, u, items, now).1.CreatedAll? {
      AppendedKeys(s.messages, SubmitBatch(cfg, s, u, items, now).0.messages, u, items);
    }
  }

  lemma StepKeepsKeys(cfg: Config, w: World, a: Action)
    requires cfg.Valid() && Sound(w.store) && KeysUnique(w.store.messages) && Possible(w, a)
    ensures KeysUnique(Step(cfg, w, a).store.messages)
  {
    if a.SubmitMany? {
      BatchKeepsKeys(cfg, w.store, a.userId, a.items, w.now);
    } else {
      forall i | 0 <= i < |w.store.messages|
        ensures i < |Step(cfg, w, a).store.messages| && SameKey(w.store.messages[i], Step(cfg, w, a).store.messages[i])
      {
        StepKeepsMessage(cfg, w, a, i);
      }
    }
  }

  predicate SameKey(m: MessageRow, m': MessageRow) {
    m'.userId == m.userId && m'.idempotencyKey == m.idempotencyKey
  }

  lemma {:induction false} RunKeepsKeys(cfg: Config, start: real, actions: seq<Action>)
    requires cfg.Valid()
    ensures KeysUnique(Run(cfg, Initial(start), actions).store.messages)
  {
    if actions != [] {
      var n := |actions| - 1;
      RunKeepsKeys(cfg, start, actions[..n]);
      InitialConsistent(start);
      RunSound(cfg, Initial(start), actions[..n]);
      var before := Run(cfg, Initial(start), actions[..n]);
      if Possible(before, actions[n]) {
        StepKeepsKeys(cfg, before, actions[n]);
      }
    }
  }

  lemma {:induction false} RunKeepsMessage(cfg: Config, w: World, actions: seq<Action>, i: nat)
    requires cfg.Valid() && Sound(w.store) && i < |w.store.messages|
    ensures i < |Run(cfg, w, actions).store.messages|
    ensures var m, m' := w.store.messages[i], Run(cfg, w, actions).store.messages[i];
            m' == m.(status := m'.status, payment := m'.payment)
  {
    if actions != [] {
      var n := |actions| - 1;
      RunKeepsMessage(cfg, w, actions[..n], i);
      RunSound(cfg, w, actions[..n]);
      if Possible(Run(cfg, w, actions[..n]), actions[n]) {
        StepKeepsMessage(cfg, Run(cfg, w, actions[..n]), actions[n], i);
      }
    }
  }

  lemma RunThrough(cfg: Config, w: World, first: seq<Action>, a: Action, more: seq<Action>)
    ensures Run(cfg, w, first + [a]) == Next(cfg, Run(cfg, w, first), a)
    ensures Run(cfg, w, first + [a] + more) == Run(cfg, Next(cfg, Run(cfg, w, first), a), more)
  {
    assert (first + [a])[..|first|] == first;
    RunConcat(cfg, w, first + [a], more);
  }

  /** With unique keys the lookup finds the message that has the key. */
  lemma KeyStaysTaken(messages: seq<MessageRow>, u: int, key: nat, id: nat)
    requires KeysUnique(messages) && id < |messages|
    requires messages[id].userId == u && messages[id].idempotencyKey == key
    ensures FindKey(messages, u, key) == Some(id)
  {
  }

  /**
   * Property 15. Once a (user, key) has been accepted as message `id`, every repeat in every continuation returns
   * that id and changes nothing, whatever its payload and however little credit is left.
   */
  lemma ReplayReturnsFirst(cfg: Config, start: real, first: seq<Action>, u: int, item: Item, more: seq<Action>,
                           again: Item)
    requires cfg.Valid() && again.idempotencyKey == item.idempotencyKey
    ensures var w := Run(cfg, Initial(start), first);
            var r := SubmitOne(cfg, w.store, u, item, w.now).1;
            var w' := Run(cfg, Initial(start), first + [Submit(u, item)] + more);
            r.Created? ==> SubmitOne(cfg, w'.store, u, again, w'.now) == (w'.store, Replayed(r.id))
  {
    var w := Run(cfg, Initial(start), first);
    var r := SubmitOne(cfg, w.store, u, item, w.now).1;
    RunThrough(cfg, Initial(start), first, Submit(u, item), more);
    if r.Created? {
      InitialConsistent(start);
      RunSound(cfg, Initial(start), first + [Submit(u, item)]);
      RunKeepsMessage(cfg, Next(cfg, w, Submit(u, item)), more, r.id);
      RunKeepsKeys(cfg, start, first + [Submit(u, item)] + more);
      KeyStaysTaken(Run(cfg, Initial(start), first + [Submit(u, item)] + more).store.messages, u,
                    again.idempotencyKey, r.id);
    }
  }

  /** A refused submission changes nothing and leaves its key free. */
  lemma RejectionLeavesKeyFree(cfg: Config, s: Store, u: int, item: Item, now: real)
    ensures var (s', r) := SubmitOne(cfg, s, u, item, now);
            r.Rejected? ==> s' == s && FindKey(s'.messages, u, item.idempotencyKey).None?
  {
  }

  /** The same run without the repeats of keys its user had already got accepted. */
  ghost function WithoutRepeats(cfg: Config, w: World, actions: seq<Action>): seq<Action> {
    if actions == [] then []
    else
      var n := |actions| - 1;
      var before := Run(cfg, w, actions[..n]).store.messages;
      WithoutRepeats(cfg, w, actions[..n])
      + if actions[n].Submit? && FindKey(before, actions[n].userId, actions[n].item.idempotencyKey).Some?
        then [] else [actions[n]]
  }

  /** Property 15. Repeats are invisible: the run without them ends in the very same world. */
  lemma {:induction false} RepeatsAreInvisible(cfg: Config, w: World, actions: seq<Action>)
    ensures Run(cfg, w, WithoutRepeats(cfg, w, actions)) == Run(cfg, w, actions)
  {
    if actions != [] {
      var n := |actions| - 1;
      RepeatsAreInvisible(cfg, w, actions[..n]);
      var kept := WithoutRepeats(cfg, w, actions[..n]);
      var all := WithoutRepeats(cfg, w, actions);
      if |all| == |kept| {
        assert all == kept;
        var before := Run(cfg, w, actions[..n]);
        assert Next(cfg, before, actions[n]) == before;
      } else {
        assert all == kept + [actions[n]];
        assert all[..|all| - 1] == kept;
      }
    }
  }
}

/** What the refinement gives on whole runs: a correct ledger, conserved money, and at most one settlement. */
module Ledger {
  import opened Domain
  import opened Delivery
  import opened Protocol
  import opened Safety
  import Book

  // ---------------------------------------------------------------- the invariants on every run

  lemma {:induction false} RunSound(cfg: Config, w: World, actions: seq<Action>)
    requires cfg.Valid() && Sound(w.store)
    ensures Sound(Run(cfg, w, actions).store)
    ensures Consistent(w.store) && Atomic(actions) ==> Consistent(Run(cfg, w, actions).store)
  {
    if actions != [] {
      var n := |actions| - 1;
      RunSound(cfg, w, actions[..n]);
      var before := Run(cfg, w, actions[..n]);
      if Possible(before, actions[n]) {
        StepRefines(cfg, before, actions[n]);
      }
    }
  }

  lemma InitialConsistent(start: real)
    ensures Consistent(Initial(start).store)
  {
  }

  /**
   * Property 1. Whatever the interleaving, every user's reservation is the cost of that user's RESERVED messages
   * and never exceeds the credits; with atomic sweeps a job's status tells its message's payment.
   */
  lemma {:induction false} LedgerAlwaysCorrect(cfg: Config, start: real, actions: seq<Action>)
    requires cfg.Valid()
    ensures var s := Run(cfg, Initial(start), actions).store;
      && (forall u :: u in s.balances ==>
            && s.balances[u].reserved == Book.Owed(Entries(s.messages), u, Reserved)
            && 0 <= s.balances[u].reserved <= s.balances[u].credits)
      && |s.jobs| == |s.messages|
      && (forall i :: 0 <= i < |s.jobs| ==> Linked(i, s.jobs[i], s.messages[i]))
      && (forall i :: 0 <= i < |s.messages| ==> StatusMatchesPayment(s.messages[i]))
      && (Atomic(actions) ==> forall i :: 0 <= i < |s.jobs| ==> Coupled(s.jobs[i], s.messages[i]))
  {
    InitialConsistent(start);
    RunSound(cfg, Initial(start), actions);
    var s := Run(cfg, Initial(start), actions).store;
    forall u | u in s.balances
      ensures s.balances[u].reserved == Book.Owed(Entries(s.messages), u, Reserved)
      ensures 0 <= s.balances[u].reserved <= s.balances[u].credits
    {
      assert Book.Backed(Abstract(s), u);
    }
  }

  // ---------------------------------------------------------------- refinement and conservation on runs

  /** The account events of a run, one per action. */
  ghost function EventsOf(cfg: Config, w: World, actions: seq<Action>): (events: seq<Book.Event>)
    ensures |events| == |actions|
  {
    if actions == [] then []
    else
      var n := |actions| - 1;
      var before := Run(cfg, w, actions[..n]);
      EventsOf(cfg, w, actions[..n])
      + [if Possible(before, actions[n]) then EventOf(cfg, before, actions[n]) else Book.Idle]
  }

  /** `events` is an execution of the account machine from `b` to `b'`. */
  ghost predicate Executes(b: Book.Book, events: seq<Book.Event>, b': Book.Book)
    requires Book.Valid(b)
    decreases |events|
  {
    if events == [] then b' == b
    else
      && Book.Enabled(b, events[0])
      && (Book.ApplyValid(b, events[0]);
          Executes(Book.Apply(b, events[0]), events[1..], b'))
  }

  lemma {:induction false} ExecutesOneMore(b: Book.Book, events: seq<Book.Event>, b': Book.Book, e: Book.Event)
    requires Book.Valid(b) && Executes(b, events, b') && Book.Valid(b') && Book.Enabled(b', e)
    ensures Executes(b, events + [e], Book.Apply(b', e))
    decreases |events|
  {
    Book.ApplyValid(b', e);
    if events != [] {
      Book.ApplyValid(b, events[0]);
      ExecutesOneMore(Book.Apply(b, events[0]), events[1..], b', e);
      assert (events + [e])[1..] == events[1..] + [e];
    }
  }

  /** Property 2, refinement. Every run of the gateway is an execution of the account machine, event by event. */
  lemma {:induction false} RunRefines(cfg: Config, w: World, actions: seq<Action>)
    requires cfg.Valid() && Sound(w.store)
    ensures Executes(Abstract(w.store), EventsOf(cfg, w, actions), Abstract(Run(cfg, w, actions).store))
  {
    if actions != [] {
      var n := |actions| - 1;
      RunRefines(cfg, w, actions[..n]);
      RunSound(cfg, w, actions[..n]);
      var before := Run(cfg, w, actions[..n]);
      var e := if Possible(before, actions[n]) then EventOf(cfg, before, actions[n]) else Book.Idle;
      if Possible(before, actions[n]) {
        StepRefines(cfg, before, actions[n]);
      }
      ExecutesOneMore(Abstract(w.store), EventsOf(cfg, w, actions[..n]), Abstract(before.store), e);
    }
  }

  function Deposits(events: seq<Book.Event>, u: int): int {
    if events == [] then 0
    else Deposits(events[..|events| - 1], u) + Book.Deposited(events[|events| - 1], u)
  }

  function CreditsOf(s: Store, u: int): int {
    if u in s.balances then s.balances[u].credits else 0
  }

  /** One step moves a user's credits and deducted costs only by what it deposits. */
  lemma StepConserves(cfg: Config, w: World, a: Action, u: int)
    requires cfg.Valid() && Sound(w.store) && Possible(w, a)
    ensures var s, s' := w.store, Step(cfg, w, a).store;
            CreditsOf(s', u) + Book.Owed(Entries(s'.messages), u, Deducted)
              == CreditsOf(s, u) + Book.Owed(Entries(s.messages), u, Deducted)
                 + Book.Deposited(EventOf(cfg, w, a), u)
  {
    StepRefines(cfg, w, a);
    var b, e := Abstract(w.store), EventOf(cfg, w, a);
    if u in w.store.balances {
      Book.Conservation(b, e, u);
    } else {
      Book.OwedNobody(b.entries, u, Deducted);
      var b' := Book.Apply(b, e);
      Book.ApplyValid(b, e);
      Book.OwedNobody(b'.entries, u, Deducted);
    }
  }

  /** Property 2, conservation. Credits are what was deposited minus the cost of the DEDUCTED messages. */
  lemma {:induction false} CreditsConserved(cfg: Config, start: real, actions: seq<Action>, u: int)
    requires cfg.Valid()
    ensures var s := Run(cfg, Initial(start), actions).store;
            CreditsOf(s, u) == Deposits(EventsOf(cfg, Initial(start), actions), u)
                               - Book.Owed(Entries(s.messages), u, Deducted)
  {
    if actions != [] {
      var n := |actions| - 1;
      var before := Run(cfg, Initial(start), actions[..n]);
      var events := EventsOf(cfg, Initial(start), actions);
      CreditsConserved(cfg, start, actions[..n], u);
      InitialConsistent(start);
      RunSound(cfg, Initial(start), actions[..n]);
      assert events[..n] == EventsOf(cfg, Initial(start), actions[..n]);
      if Possible(before, actions[n]) {
        StepConserves(cfg, before, actions[n], u);
      }
    }
  }

  // ---------------------------------------------------------------- a payment is final

  /** Once a message has left RESERVED no step changes anything about it, split sweeps included. */
  lemma StepKeepsSettled(cfg: Config, w: World, a: Action, i: nat)
    requires cfg.Valid() && Sound(w.store) && i < |w.store.messages| && w.store.messages[i].payment != Reserved
    ensures |w.store.messages| <= |Next(cfg, w, a).store.messages|
    ensures Next(cfg, w, a).store.messages[i] == w.store.messages[i]
  {
    assert Linked(i, w.store.jobs[i], w.store.messages[i]) && Guarded(w.store.jobs[i], w.store.messages[i]);
    if Possible(w, a) {
      match a
      case WorkerClaim(worker, j) =>
        assert j < |w.store.jobs| ==> Linked(j, w.store.jobs[j], w.store.messages[j]);
      case WorkerRecord(worker, result, jitter) =>
        var j := w.calls[worker].job;
        assert j < |w.store.jobs| ==> Linked(j, w.store.jobs[j], w.store.messages[j]);
      case _ =>
    }
  }

  lemma {:induction false} SettledForGood(cfg: Config, w: World, actions: seq<Action>, i: nat)
    requires cfg.Valid() && Sound(w.store) && i < |w.store.messages| && w.store.messages[i].payment != Reserved
    ensures |w.store.messages| <= |Run(cfg, w, actions).store.messages|
    ensures Run(cfg, w, actions).store.messages[i] == w.store.messages[i]
  {
    if actions != [] {
      var n := |actions| - 1;
      SettledForGood(cfg, w, actions[..n], i);
      RunSound(cfg, w, actions[..n]);
      StepKeepsSettled(cfg, Run(cfg, w, actions[..n]), actions[n], i);
    }
  }

  /** Step k of the run moves message i out of RESERVED. */
  ghost predicate Finalises(cfg: Config, w: World, actions: seq<Action>, k: nat, i: nat)
    requires k < |actions|
  {
    var before := Run(cfg, w, actions[..k]).store.messages;
    var after := Run(cfg, w, actions[..k + 1]).store.messages;
    && i < |before| && i < |after|
    && before[i].payment == Reserved
    && after[i].payment != Reserved
  }

  lemma RunFrom(cfg: Config, w: World, actions: seq<Action>, k: nat, l: nat)
    requires k <= l <= |actions|
    ensures Run(cfg, w, actions[..l]) == Run(cfg, Run(cfg, w, actions[..k]), actions[k..l])
  {
    assert actions[..l] == actions[..k] + actions[k..l];
    RunConcat(cfg, w, actions[..k], actions[k..l]);
  }

  /** Properties 2, 3 and 5. On any run, split sweeps included, a message is settled or refunded at most once. */
  lemma FinalisedAtMostOnce(cfg: Config, start: real, actions: seq<Action>, k: nat, l: nat, i: nat)
    requires cfg.Valid() && k < l < |actions|
    ensures !(Finalises(cfg, Initial(start), actions, k, i) && Finalises(cfg, Initial(start), actions, l, i))
  {
    if Finalises(cfg, Initial(start), actions, k, i) {
      InitialConsistent(start);
      RunSound(cfg, Initial(start), actions[..k + 1]);
      RunFrom(cfg, Initial(start), actions, k + 1, l);
      SettledForGood(cfg, Run(cfg, Initial(start), actions[..k + 1]), actions[k + 1..l], i);
    }
  }

  /** Finalising is always the doing of one worker transaction on exactly that job. */
  lemma OnlyWorkersFinalise(cfg: Config, w: World, a: Action, i: nat)
    requires cfg.Valid() && Sound(w.store) && Possible(w, a)
    requires i < |w.store.messages| && w.store.messages[i].payment == Reserved
    requires i < |Step(cfg, w, a).store.messages| && Step(cfg, w, a).store.messages[i].payment != Reserved
    ensures || (a.WorkerClaim? && a.job == i
                && ClaimForDelivery(cfg, w.store, i, a.worker, w.now).1 == Expired)
            || (a.WorkerRecord? && w.calls[a.worker] == Sending(i)
                && w.store.jobs[i].lockedBy == Some(Worker(a.worker)))
  {
    match a
    case WorkerClaim(worker, j) =>
      assert j < |w.store.jobs| ==> Linked(j, w.store.jobs[j], w.store.messages[j]);
    case WorkerRecord(worker, result, jitter) =>
      var j := w.calls[worker].job;
      assert j < |w.store.jobs| ==> Linked(j, w.store.jobs[j], w.store.messages[j]);
    case _ =>
  }

  // ---------------------------------------------------------------- a terminal job is final

  lemma StepKeepsTerminal(cfg: Config, w: World, a: Action, i: nat)
    requires Possible(w, a) && !a.ReapUpdate?
    requires i < |w.store.jobs| && w.store.jobs[i].status.Terminal()
    ensures i < |Step(cfg, w, a).store.jobs| && Step(cfg, w, a).store.jobs[i] == w.store.jobs[i]
  {
    match a
    case WorkerClaim(worker, j) => ClaimKeepsTerminal(cfg, w.store, j, worker, w.now, i);
    case WorkerRecord(worker, result, jitter) =>
      RecordKeepsTerminal(cfg, w.store, w.calls[worker].job, worker, result, jitter, w.now, i);
    case _ =>
  }

  lemma ClaimKeepsTerminal(cfg: Config, s: Store, j: nat, worker: nat, now: real, i: nat)
    requires i < |s.jobs| && s.jobs[i].status.Terminal()
    ensures var s' := ClaimForDelivery(cfg, s, j, worker, now).0; i < |s'.jobs| && s'.jobs[i] == s.jobs[i]
  {
  }

  lemma RecordKeepsTerminal(cfg: Config, s: Store, j: nat, worker: nat, result: ProviderResult, jitter: real,
                            now: real, i: nat)
    requires i < |s.jobs| && s.jobs[i].status.Terminal()
    ensures var s' := Record(cfg, s, j, worker, result, jitter, now).0; i < |s'.jobs| && s'.jobs[i] == s.jobs[i]
  {
  }

  /** Property 2. With atomic sweeps a COMPLETED or FAILED job row never changes again. */
  lemma {:induction false} TerminalForGood(cfg: Config, w: World, actions: seq<Action>, i: nat)
    requires Atomic(actions) && i < |w.store.jobs| && w.store.jobs[i].status.Terminal()
    ensures i < |Run(cfg, w, actions).store.jobs| && Run(cfg, w, actions).store.jobs[i] == w.store.jobs[i]
  {
    if actions != [] {
      var n := |actions| - 1;
      TerminalForGood(cfg, w, actions[..n], i);
      var before := Run(cfg, w, actions[..n]);
      if Possible(before, actions[n]) {
        StepKeepsTerminal(cfg, before, actions[n], i);
      }
    }
  }
}

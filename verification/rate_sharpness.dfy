/**
 * The conditions of the rate laws are sharp: a rule whose burst is above twice its limit is over-admitted, by requests
 * of cost 1, because its bucket is forgotten while it is still refilling.
 */
module RateSharpness {
  import opened TokenBucket
  import opened RateLaws

  // ---------------------------------------------------------------- everything at once

  predicate AllAt(history: seq<Request>, now: real) {
    forall i :: 0 <= i < |history| ==> history[i].at == now
  }

  /** What the requests would charge the bucket if all of them were admitted. */
  function Asked(history: seq<Request>, key: string): nat {
    if history == [] then 0
    else Asked(history[..|history| - 1], key) + CostOn(history[|history| - 1].slots, key)
  }

  lemma LevelAtOnce(forget: bool, rules: string -> Rule, store: Buckets, slots: seq<Slot>, now: real, key: string)
    requires WellFormed(rules, slots) && StoreOk(rules, store, now) && rules(key).Valid()
    ensures var (store', r) := Check(forget, store, slots, now);
            Level(forget, store', rules(key), key, now)
              == Level(forget, store, rules(key), key, now) - Charged(r, slots, key)
  {
    CheckAt(forget, rules, store, slots, now, key);
    LevelInRange(forget, rules, store, key, now);
    NoGain(rules(key));
  }

  lemma NoGain(rule: Rule)
    requires rule.Valid()
    ensures rule.Gain(0.0) == 0.0
  {
  }

  /** No bucket is asked for more than it holds. */
  ghost predicate Affordable(forget: bool, rules: string -> Rule, store: Buckets, history: seq<Request>, now: real) {
    forall k :: rules(k).Valid() ==> Asked(history, k) as real <= Level(forget, store, rules(k), k, now)
  }

  lemma SlotCost(rules: string -> Rule, slots: seq<Slot>, i: nat)
    requires WellFormed(rules, slots) && i < |slots|
    ensures CostOn(slots, slots[i].key) == slots[i].cost
  {
    CostOnAt(slots, slots[i].key);
  }

  /** What requests at one moment leave, if each of them was admitted. */
  ghost predicate Spent(forget: bool, rules: string -> Rule, store: Buckets, history: seq<Request>, now: real)
    requires AllWellFormed(rules, history)
  {
    var after := Serve(forget, rules, store, history);
    && StoreOk(rules, after, now)
    && (forall k :: rules(k).Valid() ==>
          Level(forget, after, rules(k), k, now) == Level(forget, store, rules(k), k, now) - Asked(history, k) as real)
    && (forall k :: Admitted(forget, rules, store, history, k) == Asked(history, k))
  }

  lemma OneMorePasses(forget: bool, rules: string -> Rule, store: Buckets, history: seq<Request>, now: real)
    requires AllWellFormed(rules, history) && AllAt(history, now) && history != []
    requires Affordable(forget, rules, store, history, now)
    requires Spent(forget, rules, store, history[..|history| - 1], now)
    ensures var n := |history| - 1;
            Check(forget, Serve(forget, rules, store, history[..n]), history[n].slots, now).1.allowed
  {
    var n := |history| - 1;
    var slots, before := history[n].slots, Serve(forget, rules, store, history[..n]);
    forall i | 0 <= i < |slots|
      ensures !Lacks(forget, before, slots[i], now)
    {
      SlotCost(rules, slots, i);
      assert Asked(history, slots[i].key) == Asked(history[..n], slots[i].key) + slots[i].cost;
    }
  }

  lemma OneMoreSpent(forget: bool, rules: string -> Rule, store: Buckets, history: seq<Request>, now: real)
    requires AllWellFormed(rules, history) && AllAt(history, now) && history != []
    requires Affordable(forget, rules, store, history, now)
    requires Spent(forget, rules, store, history[..|history| - 1], now)
    ensures Spent(forget, rules, store, history, now)
  {
    var n := |history| - 1;
    var slots, before := history[n].slots, Serve(forget, rules, store, history[..n]);
    OneMorePasses(forget, rules, store, history, now);
    LastReply(forget, rules, store, history);
    CheckOk(forget, rules, before, slots, now);
    forall k | rules(k).Valid()
      ensures Level(forget, Serve(forget, rules, store, history), rules(k), k, now)
           == Level(forget, store, rules(k), k, now) - Asked(history, k) as real
    {
      LevelAtOnce(forget, rules, before, slots, now, k);
    }
    forall k
      ensures Admitted(forget, rules, store, history, k) == Asked(history, k)
    {
      LastCharge(forget, rules, store, history, k);
    }
  }

  lemma AffordablePrefix(forget: bool, rules: string -> Rule, store: Buckets, history: seq<Request>, now: real)
    requires history != [] && Affordable(forget, rules, store, history, now)
    ensures Affordable(forget, rules, store, history[..|history| - 1], now)
  {
    var n := |history| - 1;
    forall k | rules(k).Valid()
      ensures Asked(history[..n], k) as real <= Level(forget, store, rules(k), k, now)
    {
      assert Asked(history[..n], k) <= Asked(history, k);
    }
  }

  /** Affordable requests at one moment are all admitted. */
  lemma {:induction false} AllAdmitted(forget: bool, rules: string -> Rule, store: Buckets, history: seq<Request>,
                                       now: real)
    requires AllWellFormed(rules, history) && AllAt(history, now) && StoreOk(rules, store, now)
    requires Affordable(forget, rules, store, history, now)
    ensures Spent(forget, rules, store, history, now)
  {
    if history != [] {
      AffordablePrefix(forget, rules, store, history, now);
      AllAdmitted(forget, rules, store, history[..|history| - 1], now);
      OneMoreSpent(forget, rules, store, history, now);
    }
  }

  // ---------------------------------------------------------------- and once more after the time to live

  function Again(history: seq<Request>, now: real): (later: seq<Request>)
    ensures |later| == |history|
  {
    seq(|history|, i requires 0 <= i < |history| => history[i].(at := now))
  }

  lemma {:induction false} AgainAsks(history: seq<Request>, now: real, key: string)
    ensures Asked(Again(history, now), key) == Asked(history, key)
  {
    if history != [] {
      var n := |history| - 1;
      assert Again(history, now)[..n] == Again(history[..n], now);
      AgainAsks(history[..n], now, key);
    }
  }

  /** Two histories that end with the same request, from stores that agree before it. */
  lemma SameLast(forget: bool, rules: string -> Rule, s1: Buckets, h1: seq<Request>, s2: Buckets, h2: seq<Request>,
                 key: string)
    requires AllWellFormed(rules, h1) && AllWellFormed(rules, h2) && h1 != [] && h2 != []
    requires h1[|h1| - 1] == h2[|h2| - 1]
    requires Serve(forget, rules, s1, h1[..|h1| - 1]) == Serve(forget, rules, s2, h2[..|h2| - 1])
    ensures Serve(forget, rules, s1, h1) == Serve(forget, rules, s2, h2)
    ensures Admitted(forget, rules, s1, h1, key) as real - Admitted(forget, rules, s1, h1[..|h1| - 1], key) as real
         == Admitted(forget, rules, s2, h2, key) as real - Admitted(forget, rules, s2, h2[..|h2| - 1], key) as real
  {
    LastReply(forget, rules, s1, h1);
    LastReply(forget, rules, s2, h2);
    LastCharge(forget, rules, s1, h1, key);
    LastCharge(forget, rules, s2, h2, key);
  }

  lemma {:induction false} ServeConcat(forget: bool, rules: string -> Rule, store: Buckets, first: seq<Request>,
                                       second: seq<Request>, all: seq<Request>, key: string)
    requires all == first + second
    requires AllWellFormed(rules, first) && AllWellFormed(rules, second) && AllWellFormed(rules, all)
    ensures Serve(forget, rules, store, all) == Serve(forget, rules, Serve(forget, rules, store, first), second)
    ensures Admitted(forget, rules, store, all, key) as real
         == Admitted(forget, rules, store, first, key) as real
            + Admitted(forget, rules, Serve(forget, rules, store, first), second, key) as real
  {
    if second == [] {
      assert all == first;
    } else {
      ServeConcat(forget, rules, store, first, second[..|second| - 1], all[..|all| - 1], key);
      SameLast(forget, rules, store, all, Serve(forget, rules, store, first), second, key);
    }
  }

  /** Every bucket that requests at one moment leave behind was last touched then. */
  lemma {:induction false} TouchedAt(rules: string -> Rule, history: seq<Request>, now: real, key: string)
    requires AllWellFormed(rules, history) && AllAt(history, now)
    ensures var store := Serve(true, rules, map[], history);
            key in store ==> store[key].updatedAt == now
  {
    if history != [] {
      var n := |history| - 1;
      TouchedAt(rules, history[..n], now, key);
      LastReply(true, rules, map[], history);
      if history[n].slots != [] {
        var before := Serve(true, rules, map[], history[..n]);
        WriteAllAt(true, before, history[n].slots, Admits(true, before, history[n].slots, now), now, key);
      }
    }
  }

  /** Requests at time 0 that no full bucket refuses, over rules with one time to live. */
  ghost predicate Burst(rules: string -> Rule, history: seq<Request>, ttl: real) {
    && AllWellFormed(rules, history)
    && AllAt(history, 0.0)
    && 0.0 <= ttl
    && (forall k :: rules(k).Valid() ==> Asked(history, k) <= rules(k).burst)
    && (forall k :: rules(k).Valid() && 0 < Asked(history, k) ==> rules(k).TimeToLive() == ttl)
  }

  /** When the time to live is over the same requests are affordable again. */
  lemma ForgottenIsFull(rules: string -> Rule, history: seq<Request>, ttl: real)
    requires Burst(rules, history, ttl) && StoreOk(rules, Serve(true, rules, map[], history), 0.0)
    ensures Affordable(true, rules, Serve(true, rules, map[], history), Again(history, ttl), ttl)
  {
    var store := Serve(true, rules, map[], history);
    StoreOkLater(rules, store, 0.0, ttl);
    forall k | rules(k).Valid()
      ensures Asked(Again(history, ttl), k) as real <= Level(true, store, rules(k), k, ttl)
    {
      AgainAsks(history, ttl, k);
      TouchedAt(rules, history, 0.0, k);
      LevelInRange(true, rules, store, k, ttl);
    }
  }

  lemma TwoRounds(rules: string -> Rule, history: seq<Request>, ttl: real)
    requires AllWellFormed(rules, history) && AllAt(history, 0.0) && 0.0 <= ttl
    ensures AllWellFormed(rules, Again(history, ttl)) && AllWellFormed(rules, history + Again(history, ttl))
    ensures Timely(history + Again(history, ttl), 0.0, ttl)
  {
  }

  /** Both rounds pass in full. */
  lemma DoubleBurst(rules: string -> Rule, history: seq<Request>, ttl: real, key: string)
    requires Burst(rules, history, ttl)
    ensures var all := history + Again(history, ttl);
      && AllWellFormed(rules, all)
      && Timely(all, 0.0, ttl)
      && Admitted(true, rules, map[], all, key) == 2 * Asked(history, key)
  {
    var again := Again(history, ttl);
    TwoRounds(rules, history, ttl);
    AllAdmitted(true, rules, map[], history, 0.0);
    var store := Serve(true, rules, map[], history);
    ForgottenIsFull(rules, history, ttl);
    StoreOkLater(rules, store, 0.0, ttl);
    AllAdmitted(true, rules, store, again, ttl);
    AgainAsks(history, ttl, key);
    ServeConcat(true, rules, map[], history, again, history + again, key);
  }

  /** If the burst empties a bucket that does not refill in time, the two rounds break its bound. */
  lemma BurstBreaksBound(rules: string -> Rule, history: seq<Request>, key: string)
    requires rules(key).Valid() && !RefillsInTime(rules(key))
    requires Burst(rules, history, rules(key).TimeToLive()) && Asked(history, key) == rules(key).burst
    ensures var all := history + Again(history, rules(key).TimeToLive());
      && AllWellFormed(rules, all)
      && Timely(all, 0.0, rules(key).TimeToLive())
      && !WithinRate(true, rules, [], all, 0.0, rules(key).TimeToLive(), key)
  {
    DoubleBurst(rules, history, rules(key).TimeToLive(), key);
    FullRefill(rules(key), rules(key).TimeToLive());
    assert Serve(true, rules, map[], []) == map[];
  }

  // ---------------------------------------------------------------- one bucket

  /** As many requests of cost 1 as the bucket's burst. */
  function Drain(rules: string -> Rule, key: string, n: nat): seq<Request> {
    seq(n, _ => Request(0.0, [Slot(key, rules(key), 1)]))
  }

  lemma {:induction false} DrainAsks(rules: string -> Rule, key: string, n: nat, k: string)
    ensures Asked(Drain(rules, key, n), k) == if k == key then n else 0
  {
    if n != 0 {
      assert Drain(rules, key, n)[..n - 1] == Drain(rules, key, n - 1);
      DrainAsks(rules, key, n - 1, k);
      var slots := [Slot(key, rules(key), 1)];
      assert slots[..0] == [] && Drain(rules, key, n)[n - 1].slots == slots;
      assert CostOn(slots, k) == if k == key then 1 else 0;
    }
  }

  lemma DrainIsBurst(rules: string -> Rule, key: string)
    requires rules(key).Valid()
    ensures Burst(rules, Drain(rules, key, rules(key).burst), rules(key).TimeToLive())
    ensures Asked(Drain(rules, key, rules(key).burst), key) == rules(key).burst
  {
    forall k
      ensures Asked(Drain(rules, key, rules(key).burst), k) == if k == key then rules(key).burst else 0
    {
      DrainAsks(rules, key, rules(key).burst, k);
    }
  }

  /** Property 6, exact. With expiring buckets the bound holds on all histories only for rules that refill in time. */
  lemma {:induction false} RateBoundIff(rules: string -> Rule, key: string)
    requires rules(key).Valid()
    ensures (forall before: seq<Request>, during: seq<Request>, start: real, from: real, until: real ::
               AllWellFormed(rules, before) && AllWellFormed(rules, during)
               && Timely(before, start, from) && Timely(during, from, until)
               ==> WithinRate(true, rules, before, during, from, until, key))
       <==> RefillsInTime(rules(key))
  {
    if RefillsInTime(rules(key)) {
      forall before: seq<Request>, during: seq<Request>, start: real, from: real, until: real
        | AllWellFormed(rules, before) && AllWellFormed(rules, during)
          && Timely(before, start, from) && Timely(during, from, until)
        ensures WithinRate(true, rules, before, during, from, until, key)
      {
        RateBound(true, rules, before, during, start, from, until, key);
      }
    } else {
      DrainIsBurst(rules, key);
      BurstBreaksBound(rules, Drain(rules, key, rules(key).burst), key);
      assert Timely([], 0.0, 0.0);
    }
  }

  lemma {:induction false} SameRepliesSameAdmitted(f1: bool, f2: bool, rules: string -> Rule, store: Buckets,
                                                   history: seq<Request>, key: string)
    requires AllWellFormed(rules, history)
    requires Replies(f1, rules, store, history) == Replies(f2, rules, store, history)
    ensures Admitted(f1, rules, store, history, key) == Admitted(f2, rules, store, history, key)
  {
    if history != [] {
      var n := |history| - 1;
      LastReply(f1, rules, store, history);
      LastReply(f2, rules, store, history);
      assert Replies(f1, rules, store, history)[..n] == Replies(f1, rules, store, history[..n]);
      assert Replies(f2, rules, store, history)[..n] == Replies(f2, rules, store, history[..n]);
      SameRepliesSameAdmitted(f1, f2, rules, store, history[..n], key);
    }
  }

  /** A store that never forgets keeps the bound, so it answers the two rounds differently. */
  lemma ForgettingShows(rules: string -> Rule, key: string)
    requires rules(key).Valid() && !RefillsInTime(rules(key))
    ensures exists history: seq<Request>, until: real ::
              && AllWellFormed(rules, history)
              && Timely(history, 0.0, until)
              && Replies(true, rules, map[], history) != Replies(false, rules, map[], history)
  {
    var ttl, burst := rules(key).TimeToLive(), Drain(rules, key, rules(key).burst);
    DrainIsBurst(rules, key);
    BurstBreaksBound(rules, burst, key);
    var all := burst + Again(burst, ttl);
    RateBound(false, rules, [], all, 0.0, 0.0, ttl, key);
    assert Serve(true, rules, map[], []) == Serve(false, rules, map[], []) == map[];
    if Replies(true, rules, map[], all) == Replies(false, rules, map[], all) {
      SameRepliesSameAdmitted(true, false, rules, map[], all, key);
    }
  }

  /**
   * Property 16. A store that forgets expired buckets answers every history exactly like one that never forgets if
   * and only if every rule's burst is at most twice its limit.
   */
  lemma {:induction false} ExpiryInvisibleIff(rules: string -> Rule)
    requires forall key :: rules(key).Valid()
    ensures (forall history: seq<Request>, until: real ::
               AllWellFormed(rules, history) && Timely(history, 0.0, until) ==>
               Replies(true, rules, map[], history) == Replies(false, rules, map[], history))
       <==> (forall key :: RefillsInTime(rules(key)))
  {
    if forall key :: RefillsInTime(rules(key)) {
      forall history: seq<Request>, until: real | AllWellFormed(rules, history) && Timely(history, 0.0, until)
        ensures Replies(true, rules, map[], history) == Replies(false, rules, map[], history)
      {
        forall i, j | 0 <= i < |history| && 0 <= j < |history[i].slots|
          ensures RefillsInTime(history[i].slots[j].rule)
        {
          assert WellFormed(rules, history[i].slots);
          assert RefillsInTime(rules(history[i].slots[j].key));
        }
        ExpiryInvisible(rules, map[], history, 0.0, until);
      }
    } else {
      var key :| !RefillsInTime(rules(key));
      ForgettingShows(rules, key);
    }
  }

  // ---------------------------------------------------------------- denied requests

  /** Erasing the denied requests leaves the replies to the others as they were. */
  ghost predicate DenialsErasable(rules: string -> Rule, store: Buckets, history: seq<Request>)
    requires AllWellFormed(rules, history)
  {
    var kept := WithoutDenied(true, rules, store, history);
    && AllWellFormed(rules, kept)
    && Replies(true, rules, store, kept) == AllowedReplies(true, rules, store, history)
  }

  /** A history with one more request, with and without its denied ones. */
  lemma OneMoreKept(rules: string -> Rule, store: Buckets, history: seq<Request>, r: Request)
    requires AllWellFormed(rules, history) && WellFormed(rules, r.slots)
    ensures AllWellFormed(rules, history + [r])
    ensures var reply := Check(true, Serve(true, rules, store, history), r.slots, r.at).1;
      && WithoutDenied(true, rules, store, history + [r])
           == WithoutDenied(true, rules, store, history) + (if reply.allowed then [r] else [])
      && AllowedReplies(true, rules, store, history + [r])
           == AllowedReplies(true, rules, store, history) + (if reply.allowed then [reply] else [])
  {
    assert (history + [r])[..|history|] == history;
    LastRequest(true, rules, store, history + [r]);
  }

  lemma LastKept(rules: string -> Rule, store: Buckets, history: seq<Request>, now: real)
    requires AllWellFormed(rules, history) && AllAt(history, now) && history != []
    requires Affordable(true, rules, store, history, now)
    requires Spent(true, rules, store, history[..|history| - 1], now)
    requires WithoutDenied(true, rules, store, history[..|history| - 1]) == history[..|history| - 1]
    ensures WithoutDenied(true, rules, store, history) == history
  {
    OneMorePasses(true, rules, store, history, now);
    LastRequest(true, rules, store, history);
  }

  lemma {:induction false} AllKept(rules: string -> Rule, store: Buckets, history: seq<Request>, now: real)
    requires AllWellFormed(rules, history) && AllAt(history, now) && StoreOk(rules, store, now)
    requires Affordable(true, rules, store, history, now)
    ensures WithoutDenied(true, rules, store, history) == history
  {
    if history != [] {
      AffordablePrefix(true, rules, store, history, now);
      AllKept(rules, store, history[..|history| - 1], now);
      AllAdmitted(true, rules, store, history[..|history| - 1], now);
      LastKept(rules, store, history, now);
    }
  }

  function OneToken(rules: string -> Rule, key: string, at: real): Request {
    Request(at, [Slot(key, rules(key), 1)])
  }

  /** What a request of cost 1 to one bucket is answered, and what it leaves. */
  lemma OneTokenCheck(rules: string -> Rule, store: Buckets, key: string, at: real)
    requires rules(key).Valid()
    ensures var r, level := OneToken(rules, key, at), Level(true, store, rules(key), key, at);
      && WellFormed(rules, r.slots)
      && var (after, reply) := Check(true, store, r.slots, at);
      && reply.allowed == (1.0 <= level)
      && (reply.allowed ==> reply.remaining == (level - 1.0).Floor)
      && (!reply.allowed ==> after == store[key := Bucket(level, at, at + rules(key).TimeToLive())])
  {
    var slots := OneToken(rules, key, at).slots;
    assert slots[..0] == [];
    assert Admits(true, store, slots, at) == !Lacks(true, store, slots[0], at);
    assert Remainders(true, store, slots, at) == [Remaining(true, store, slots[0], at)];
    assert WriteAll(true, store, slots[..0], false, at) == store;
  }

  /** When half a token has come in. */
  function HalfToken(rule: Rule): real
    requires rule.Valid()
  {
    0.5 / rule.Rate()
  }

  lemma HalfTokenGains(rule: Rule)
    requires rule.Valid()
    ensures 0.0 < HalfToken(rule) < rule.TimeToLive() && rule.Gain(HalfToken(rule)) == 0.5
  {
    var t := HalfToken(rule);
    assert t * rule.Rate() == 0.5;
    FullRefill(rule, rule.TimeToLive());
    if rule.TimeToLive() <= t {
      GainMonotone(rule, rule.TimeToLive(), t);
    }
    if t <= 0.0 {
      GainMonotone(rule, t, 0.0);
      NoGain(rule);
    }
  }

  /** The bucket that was emptied at time 0, asked for one token at half a token's time and when it would expire. */
  lemma DenialRenews(rules: string -> Rule, store: Buckets, key: string)
    requires rules(key).Valid() && !RefillsInTime(rules(key))
    requires key in store && store[key] == Bucket(0.0, 0.0, rules(key).TimeToLive())
    ensures var rule := rules(key);
            var early, late := OneToken(rules, key, HalfToken(rule)), OneToken(rules, key, rule.TimeToLive());
            var (after, denied) := Check(true, store, early.slots, early.at);
            var with, without := Check(true, after, late.slots, late.at).1, Check(true, store, late.slots, late.at).1;
            !denied.allowed && with.allowed && without.allowed && with.remaining != without.remaining
  {
    var rule := rules(key);
    var t, ttl := HalfToken(rule), rule.TimeToLive();
    HalfTokenGains(rule);
    FullRefill(rule, ttl);
    OneTokenCheck(rules, store, key, t);
    var after := Check(true, store, OneToken(rules, key, t).slots, t).0;
    assert Level(true, store, rule, key, t) == rule.Refilled(0.0, t) == 0.5;
    RefilledTwice(rule, 0.0, t, ttl - t, ttl);
    assert Level(true, after, rule, key, ttl) == rule.Refilled(0.0, ttl) == (2 * rule.limit) as real;
    assert Level(true, store, rule, key, ttl) == rule.burst as real;
    OneTokenCheck(rules, after, key, ttl);
    OneTokenCheck(rules, store, key, ttl);
  }

  /** What the drain leaves of its bucket. */
  lemma DrainedBucket(rules: string -> Rule, key: string)
    requires rules(key).Valid()
    ensures var drain := Drain(rules, key, rules(key).burst);
      && AllWellFormed(rules, drain)
      && var store := Serve(true, rules, map[], drain);
      && key in store && store[key] == Bucket(0.0, 0.0, rules(key).TimeToLive())
      && WithoutDenied(true, rules, map[], drain) == drain
  {
    var drain := Drain(rules, key, rules(key).burst);
    DrainIsBurst(rules, key);
    AllAdmitted(true, rules, map[], drain, 0.0);
    AllKept(rules, map[], drain, 0.0);
    TouchedAt(rules, drain, 0.0, key);
    NoGain(rules(key));
    var store := Serve(true, rules, map[], drain);
    assert Level(true, store, rules(key), key, 0.0) == 0.0;
  }

  /** The denied request in this history shows: it renews a bucket that would have been forgotten. */
  function Renewed(rules: string -> Rule, key: string): seq<Request>
    requires rules(key).Valid()
  {
    Drain(rules, key, rules(key).burst)
    + [OneToken(rules, key, HalfToken(rules(key)))] + [OneToken(rules, key, rules(key).TimeToLive())]
  }

  lemma LastsDiffer(rules: string -> Rule, first: seq<Request>, early: Request, late: Request)
    requires AllWellFormed(rules, first + [early] + [late]) && AllWellFormed(rules, first + [late])
    requires AllWellFormed(rules, first) && WellFormed(rules, early.slots) && WellFormed(rules, late.slots)
    requires WithoutDenied(true, rules, map[], first + [early] + [late]) == first + [late]
    requires var store := Serve(true, rules, map[], first);
             var after := Check(true, store, early.slots, early.at).0;
             var with, without := Check(true, after, late.slots, late.at).1, Check(true, store, late.slots, late.at).1;
             with.allowed && with.remaining != without.remaining
    ensures !DenialsErasable(rules, map[], first + [early] + [late])
  {
    ServeOneMore(true, rules, map[], first, early);
    ServeOneMore(true, rules, map[], first, late);
    OneMoreKept(rules, map[], first + [early], late);
    var replies := Replies(true, rules, map[], first + [late]);
    var expected := AllowedReplies(true, rules, map[], first + [early] + [late]);
    assert replies[|replies| - 1].remaining != expected[|expected| - 1].remaining;
  }

  /** The drain and the late request are kept, the early one is erased. */
  lemma EarlyErased(rules: string -> Rule, first: seq<Request>, early: Request, late: Request)
    requires AllWellFormed(rules, first) && WellFormed(rules, early.slots) && WellFormed(rules, late.slots)
    requires WithoutDenied(true, rules, map[], first) == first
    requires var (after, denied) := Check(true, Serve(true, rules, map[], first), early.slots, early.at);
             !denied.allowed && Check(true, after, late.slots, late.at).1.allowed
    ensures AllWellFormed(rules, first + [early] + [late]) && AllWellFormed(rules, first + [late])
    ensures WithoutDenied(true, rules, map[], first + [early] + [late]) == first + [late]
  {
    OneMoreKept(rules, map[], first, early);
    ServeOneMore(true, rules, map[], first, early);
    OneMoreKept(rules, map[], first + [early], late);
    OneMoreKept(rules, map[], first, late);
  }

  lemma RenewedTimely(rules: string -> Rule, key: string)
    requires rules(key).Valid()
    ensures Timely(Renewed(rules, key), 0.0, rules(key).TimeToLive())
  {
    HalfTokenGains(rules(key));
  }

  lemma RenewedNotErasable(rules: string -> Rule, key: string)
    requires rules(key).Valid() && !RefillsInTime(rules(key))
    ensures AllWellFormed(rules, Renewed(rules, key)) && !DenialsErasable(rules, map[], Renewed(rules, key))
  {
    var rule, drain := rules(key), Drain(rules, key, rules(key).burst);
    var early, late := OneToken(rules, key, HalfToken(rule)), OneToken(rules, key, rule.TimeToLive());
    DrainedBucket(rules, key);
    DenialRenews(rules, Serve(true, rules, map[], drain), key);
    EarlyErased(rules, drain, early, late);
    LastsDiffer(rules, drain, early, late);
  }

  /**
   * Property 7, exact. Against the store that forgets, erasing the denied requests is invisible to all others on every
   * history if and only if every rule's burst is at most twice its limit.
   */
  lemma {:induction false} DeniedInvisibleIff(rules: string -> Rule)
    requires forall key :: rules(key).Valid()
    ensures (forall history: seq<Request>, until: real ::
               AllWellFormed(rules, history) && Timely(history, 0.0, until) ==> DenialsErasable(rules, map[], history))
       <==> (forall key :: RefillsInTime(rules(key)))
  {
    if forall key :: RefillsInTime(rules(key)) {
      forall history: seq<Request>, until: real | AllWellFormed(rules, history) && Timely(history, 0.0, until)
        ensures DenialsErasable(rules, map[], history)
      {
        DeniedInvisible(true, rules, map[], history, 0.0, until);
      }
    } else {
      var key :| !RefillsInTime(rules(key));
      RenewedTimely(rules, key);
      RenewedNotErasable(rules, key);
    }
  }
}

/**
 * Retry-After: when the time a denial reports is exact. A bucket that nobody is charged from refills as promised while
 * it is remembered; once its time to live has passed it may be full before its time.
 */
module RetryAfter {
  import opened TokenBucket
  import opened RateLaws
  import opened RateSharpness

  // ---------------------------------------------------------------- what a wait is worth

  lemma ProductPositive(a: real, r: real)
    requires 0.0 < a && 0.0 < r
    ensures 0.0 < a * r
  {
  }

  lemma QuotientBound(x: real, r: real, d: real)
    requires 0.0 < r
    ensures x / r <= d <==> x <= d * r
  {
    var q := x / r;
    assert q * r == x;
    if q <= d {
      Scale(q, d, r);
    } else {
      ProductPositive(q - d, r);
      SumTimesRate(q - d, d, r);
      assert (q - d) + d == q;
    }
  }

  /** A bucket that gained d seconds' worth of tokens can pay iff it ever can and d covers its need. */
  lemma NeedExact(level: real, burst: nat, rate: real, cost: nat, d: nat, gain: real, need: int)
    requires 0.0 < rate && level <= burst as real && gain == d as real * rate && 0.0 <= gain
    requires need == if level < cost as real then Ceil((cost as real - level) / rate) else 0
    ensures cost as real <= MinReal(burst as real, level + gain) <==> cost <= burst && need <= d
  {
    if level < cost as real {
      QuotientBound(cost as real - level, rate, d as real);
      assert need <= d <==> (cost as real - level) / rate <= d as real;
    }
  }

  lemma WholeGain(rule: Rule, seconds: real, d: nat)
    requires rule.Valid() && seconds == d as real
    ensures 0.0 <= rule.Gain(seconds) == d as real * rule.Rate()
  {
  }

  /** d seconds of refill pay for the request exactly when something can and d covers the need. */
  lemma RefillPays(forget: bool, rules: string -> Rule, store: Buckets, now: real, slot: Slot, d: nat, seconds: real)
    requires StoreOk(rules, store, now) && seconds == d as real
    requires slot.rule == rules(slot.key) && slot.rule.Valid()
    ensures slot.cost as real <= slot.rule.Refilled(SlotLevel(forget, store, slot, now), seconds)
       <==> slot.cost <= slot.rule.burst && Need(forget, store, slot, now) <= d
  {
    LevelInRange(forget, rules, store, slot.key, now);
    WholeGain(slot.rule, seconds, d);
    NeedExact(SlotLevel(forget, store, slot, now), slot.rule.burst, slot.rule.Rate(), slot.cost, d,
              slot.rule.Gain(seconds), Need(forget, store, slot, now));
  }

  /** A time to live pays for any cost up to twice the limit and the burst, from any level. */
  lemma TimeToLivePays(rule: Rule, level: real, seconds: real, cost: nat)
    requires rule.Valid() && 0.0 <= level && rule.TimeToLive() <= seconds
    requires cost <= rule.burst && cost <= 2 * rule.limit
    ensures cost as real <= rule.Refilled(level, seconds)
  {
    FullRefill(rule, seconds);
  }

  // ---------------------------------------------------------------- a bucket nobody is charged from

  /**
   * Last seen at `since` with this level, and not charged from then on: it holds at least its refill, and exactly its
   * refill as long as it cannot have been forgotten in between.
   */
  ghost predicate Quiet(forget: bool, rule: Rule, store: Buckets, key: string, level: real, since: real)
    requires rule.Valid()
  {
    && key in store
    && var b := store[key];
    && since <= b.updatedAt
    && rule.Refilled(level, b.updatedAt - since) <= b.tokens
    && (!forget || b.updatedAt < since + rule.TimeToLive() ==> b.tokens == rule.Refilled(level, b.updatedAt - since))
  }

  lemma LevelOfQuiet(forget: bool, rules: string -> Rule, store: Buckets, key: string, level: real, since: real,
                     at: real)
    requires rules(key).Valid() && StoreOk(rules, store, at) && Quiet(forget, rules(key), store, key, level, since)
    ensures var rule := rules(key);
            var refilled := rule.Refilled(level, at - since);
      && refilled <= Level(forget, store, rule, key, at)
      && (!forget || at < since + rule.TimeToLive() ==> Level(forget, store, rule, key, at) == refilled)
  {
    var u := store[key].updatedAt;
    RefilledTwice(rules(key), level, u - since, at - u, at - since);
  }

  /** Written back with the level it had. */
  lemma QuietRewritten(forget: bool, rules: string -> Rule, store: Buckets, store': Buckets, now: real, key: string,
                       level: real, since: real)
    requires StoreOk(rules, store, now) && rules(key).Valid()
    requires Quiet(forget, rules(key), store, key, level, since)
    requires key in store' && store'[key].updatedAt == now
    requires store'[key].tokens == Level(forget, store, rules(key), key, now)
    ensures Quiet(forget, rules(key), store', key, level, since)
  {
    LevelOfQuiet(forget, rules, store, key, level, since, now);
  }

  lemma QuietStep(forget: bool, rules: string -> Rule, store: Buckets, slots: seq<Slot>, now: real, key: string,
                  level: real, since: real)
    requires WellFormed(rules, slots) && StoreOk(rules, store, now) && rules(key).Valid()
    requires Quiet(forget, rules(key), store, key, level, since)
    requires Charged(Check(forget, store, slots, now).1, slots, key) == 0.0
    ensures Quiet(forget, rules(key), Check(forget, store, slots, now).0, key, level, since)
  {
    var store' := Check(forget, store, slots, now).0;
    CheckAt(forget, rules, store, slots, now, key);
    if store'[key] != store[key] {
      QuietRewritten(forget, rules, store, store', now, key, level, since);
    }
  }

  lemma {:induction false} QuietHistory(forget: bool, rules: string -> Rule, store: Buckets, history: seq<Request>,
                                        from: real, until: real, key: string, level: real)
    requires AllWellFormed(rules, history) && Timely(history, from, until) && StoreOk(rules, store, from)
    requires rules(key).Valid() && Quiet(forget, rules(key), store, key, level, from)
    requires Admitted(forget, rules, store, history, key) == 0
    ensures Quiet(forget, rules(key), Serve(forget, rules, store, history), key, level, from)
  {
    if history != [] {
      var n := |history| - 1;
      var before := Serve(forget, rules, store, history[..n]);
      LastCharge(forget, rules, store, history, key);
      LastReply(forget, rules, store, history);
      QuietHistory(forget, rules, store, history[..n], from, until, key, level);
      ServedOk(forget, rules, store, history[..n], from, until, history[n].at);
      QuietStep(forget, rules, before, history[n].slots, history[n].at, key, level, from);
    }
  }

  /** A denial writes every bucket of the request back as it found it. */
  lemma QuietAfterDenial(forget: bool, rules: string -> Rule, store: Buckets, slots: seq<Slot>, now: real, slot: Slot)
    requires WellFormed(rules, slots) && slot in slots && StoreOk(rules, store, now)
    requires !Check(forget, store, slots, now).1.allowed
    ensures Quiet(forget, slot.rule, Check(forget, store, slots, now).0, slot.key,
                  SlotLevel(forget, store, slot, now), now)
  {
    WriteAllAt(forget, store, slots, false, now, slot.key);
    LevelInRange(forget, rules, store, slot.key, now);
    NoGain(slot.rule);
  }

  /** No bucket's burst is below what the request costs it. */
  predicate Payable(slots: seq<Slot>) {
    forall i :: 0 <= i < |slots| ==> slots[i].cost <= slots[i].rule.burst
  }

  /** Admission d seconds later, from what each bucket needs now. */
  lemma AdmittedOnceDue(forget: bool, later: Buckets, slots: seq<Slot>, due: real, needs: seq<nat>, r: nat, k: nat,
                        d: nat)
    requires RulesValid(slots) && |needs| == |slots| && slots != [] && 1 <= r && IsFirstMax(needs, r, k)
    requires forall i :: 0 <= i < |slots| ==>
               (Lacks(forget, later, slots[i], due) <==> !(slots[i].cost <= slots[i].rule.burst && needs[i] <= d))
    ensures Check(forget, later, slots, due).1.allowed
       <==> r <= d && Payable(slots)
  {
    assert needs[k - 1] == r;
    if Admits(forget, later, slots, due) {
      assert !Lacks(forget, later, slots[k - 1], due);
    }
  }

  /** Every bucket gains the request's cost within its time to live. */
  predicate RecoversInTime(slots: seq<Slot>) {
    forall i :: 0 <= i < |slots| ==> slots[i].cost <= 2 * slots[i].rule.limit
  }

  /** Each of its buckets gains its cost before it can be forgotten, unless the request can never pass at all. */
  predicate WaitsInTime(slots: seq<Slot>) {
    Payable(slots) ==> RecoversInTime(slots)
  }

  // ---------------------------------------------------------------- the retry time is exact

  /** One of the request's buckets, d seconds after the denial, if nobody was charged from it in between. */
  lemma SlotRecovers(forget: bool, rules: string -> Rule, store: Buckets, now: real, slot: Slot, later: Buckets,
                     d: nat, due: real)
    requires StoreOk(rules, store, now) && StoreOk(rules, later, due) && due == now + d as real
    requires slot.rule == rules(slot.key) && slot.rule.Valid()
    requires slot.cost <= slot.rule.burst && (forget ==> slot.cost <= 2 * slot.rule.limit)
    requires Quiet(forget, slot.rule, later, slot.key, SlotLevel(forget, store, slot, now), now)
    ensures Lacks(forget, later, slot, due) <==> !(Need(forget, store, slot, now) <= d)
  {
    LevelOfQuiet(forget, rules, later, slot.key, SlotLevel(forget, store, slot, now), now, due);
    RefillPays(forget, rules, store, now, slot, d, due - now);
    if forget && slot.rule.TimeToLive() <= due - now {
      LevelInRange(forget, rules, store, slot.key, now);
      TimeToLivePays(slot.rule, SlotLevel(forget, store, slot, now), due - now, slot.cost);
    }
  }

  /** What the request's buckets look like after a denial and other requests that were not charged to them. */
  ghost predicate Undisturbed(forget: bool, rules: string -> Rule, store: Buckets, slots: seq<Slot>, now: real,
                              later: Buckets)
    requires RulesValid(slots)
  {
    forall i :: 0 <= i < |slots| ==>
      Quiet(forget, slots[i].rule, later, slots[i].key, SlotLevel(forget, store, slots[i], now), now)
  }

  /** Requests in the meantime that are charged to none of the buckets. */
  ghost predicate Elsewhere(forget: bool, rules: string -> Rule, store: Buckets, slots: seq<Slot>, others: seq<Request>)
    requires AllWellFormed(rules, others)
  {
    forall i :: 0 <= i < |slots| ==> Admitted(forget, rules, store, others, slots[i].key) == 0
  }

  lemma UndisturbedThen(forget: bool, rules: string -> Rule, store: Buckets, slots: seq<Slot>, now: real,
                        others: seq<Request>, due: real, later: Buckets)
    requires WellFormed(rules, slots) && StoreOk(rules, store, now) && !Check(forget, store, slots, now).1.allowed
    requires AllWellFormed(rules, others) && Timely(others, now, due)
    requires Elsewhere(forget, rules, Check(forget, store, slots, now).0, slots, others)
    requires later == Serve(forget, rules, Check(forget, store, slots, now).0, others)
    ensures StoreOk(rules, later, due) && Undisturbed(forget, rules, store, slots, now, later)
  {
    var after := Check(forget, store, slots, now).0;
    CheckOk(forget, rules, store, slots, now);
    ServedOk(forget, rules, after, others, now, due, due);
    forall i | 0 <= i < |slots|
      ensures Quiet(forget, slots[i].rule, later, slots[i].key, SlotLevel(forget, store, slots[i], now), now)
    {
      QuietAfterDenial(forget, rules, store, slots, now, slots[i]);
      QuietHistory(forget, rules, after, others, now, due, slots[i].key, SlotLevel(forget, store, slots[i], now));
    }
  }

  /** A request beyond some burst is never admitted. */
  lemma UnpayableIsDenied(forget: bool, rules: string -> Rule, store: Buckets, slots: seq<Slot>, now: real)
    requires WellFormed(rules, slots) && StoreOk(rules, store, now) && !Payable(slots)
    ensures !Check(forget, store, slots, now).1.allowed
  {
    var i :| 0 <= i < |slots| && slots[i].rule.burst < slots[i].cost;
    LevelInRange(forget, rules, store, slots[i].key, now);
    assert Lacks(forget, store, slots[i], now);
  }

  lemma PayableOnceDue(forget: bool, rules: string -> Rule, store: Buckets, slots: seq<Slot>, now: real, later: Buckets,
                       d: nat, due: real, r: nat, k: nat)
    requires WellFormed(rules, slots) && slots != [] && StoreOk(rules, store, now) && StoreOk(rules, later, due)
    requires due == now + d as real && Undisturbed(forget, rules, store, slots, now, later)
    requires Payable(slots) && (forget ==> RecoversInTime(slots))
    requires 1 <= r && IsFirstMax(Needs(forget, store, slots, now), r, k)
    ensures Check(forget, later, slots, due).1.allowed <==> r <= d
  {
    var needs := Needs(forget, store, slots, now);
    forall i | 0 <= i < |slots|
      ensures Lacks(forget, later, slots[i], due) <==> !(slots[i].cost <= slots[i].rule.burst && needs[i] <= d)
    {
      SlotRecovers(forget, rules, store, now, slots[i], later, d, due);
    }
    AdmittedOnceDue(forget, later, slots, due, needs, r, k, d);
  }

  /** The repeat on `later` is admitted exactly when the retry time given on `store` is over and it can pass at all. */
  ghost predicate RepeatObeys(forget: bool, store: Buckets, slots: seq<Slot>, now: real, later: Buckets, d: nat,
                              due: real)
    requires RulesValid(slots)
  {
    Check(forget, later, slots, due).1.allowed == (Check(forget, store, slots, now).1.retryAfter <= d && Payable(slots))
  }

  lemma {:induction false} RepeatExact(forget: bool, rules: string -> Rule, store: Buckets, slots: seq<Slot>, now: real,
                                       others: seq<Request>, d: nat, due: real, later: Buckets)
    requires WellFormed(rules, slots) && StoreOk(rules, store, now) && due == now + d as real
    requires forget ==> WaitsInTime(slots)
    requires !Check(forget, store, slots, now).1.allowed
    requires AllWellFormed(rules, others) && Timely(others, now, due)
    requires Elsewhere(forget, rules, Check(forget, store, slots, now).0, slots, others)
    requires later == Serve(forget, rules, Check(forget, store, slots, now).0, others)
    ensures RepeatObeys(forget, store, slots, now, later, d, due)
  {
    var r := Check(forget, store, slots, now).1;
    DenialReply(forget, store, slots, now);
    UndisturbedThen(forget, rules, store, slots, now, others, due, later);
    if Payable(slots) {
      PayableOnceDue(forget, rules, store, slots, now, later, d, due, r.retryAfter, r.deniedIndex);
    } else {
      UnpayableIsDenied(forget, rules, later, slots, due);
    }
  }

  /**
   * Property 8. A request denied with retry time R, repeated d whole seconds later while nobody else was charged from
   * its buckets, is admitted if and only if R <= d and no bucket's burst is below its cost; R is at least 1, and the
   * reported bucket is the first one that needs R. Against a store that forgets, the request must wait in time:
   * RetryAfterExactIff shows that this cannot be dropped.
   */
  lemma {:induction false} RetryAfterExact(forget: bool, rules: string -> Rule, store: Buckets, slots: seq<Slot>,
                                           now: real, others: seq<Request>, d: nat, due: real, later: Buckets)
    requires WellFormed(rules, slots) && StoreOk(rules, store, now) && due == now + d as real
    requires forget ==> WaitsInTime(slots)
    requires !Check(forget, store, slots, now).1.allowed
    requires AllWellFormed(rules, others) && Timely(others, now, due)
    requires Elsewhere(forget, rules, Check(forget, store, slots, now).0, slots, others)
    requires later == Serve(forget, rules, Check(forget, store, slots, now).0, others)
    ensures var r := Check(forget, store, slots, now).1;
      && 1 <= r.retryAfter
      && IsFirstMax(Needs(forget, store, slots, now), r.retryAfter, r.deniedIndex)
      && RepeatObeys(forget, store, slots, now, later, d, due)
  {
    DenialReply(forget, store, slots, now);
    RepeatExact(forget, rules, store, slots, now, others, d, due, later);
  }

  // ---------------------------------------------------------------- and exactly when it is, for a store that forgets

  /** If the request is denied on this store, its repeat after d seconds obeys the retry time. */
  ghost predicate ObeysFrom(rules: string -> Rule, slots: seq<Slot>, store: Buckets, now: real, others: seq<Request>,
                            d: nat, due: real)
    requires WellFormed(rules, slots) && AllWellFormed(rules, others)
  {
    var (after, r) := Check(true, store, slots, now);
    !r.allowed && Elsewhere(true, rules, after, slots, others) ==>
      RepeatObeys(true, store, slots, now, Serve(true, rules, after, others), d, due)
  }

  /** The store is the one that some traffic has left. */
  ghost predicate ObeysRetryTime(rules: string -> Rule, slots: seq<Slot>, before: seq<Request>, now: real,
                                 others: seq<Request>, d: nat, due: real)
    requires WellFormed(rules, slots) && AllWellFormed(rules, before) && AllWellFormed(rules, others)
  {
    ObeysFrom(rules, slots, Serve(true, rules, map[], before), now, others, d, due)
  }

  lemma ObeysInTime(rules: string -> Rule, slots: seq<Slot>, store: Buckets, now: real, others: seq<Request>, d: nat,
                    due: real)
    requires WellFormed(rules, slots) && AllWellFormed(rules, others) && StoreOk(rules, store, now)
    requires due == now + d as real && Timely(others, now, due) && WaitsInTime(slots)
    ensures ObeysFrom(rules, slots, store, now, others, d, due)
  {
    var after := Check(true, store, slots, now).0;
    if !Check(true, store, slots, now).1.allowed && Elsewhere(true, rules, after, slots, others) {
      RepeatExact(true, rules, store, slots, now, others, d, due, Serve(true, rules, after, others));
    }
  }

  /** The store after one bucket was drained by requests of cost 1: that bucket is empty, all others are full. */
  lemma DrainedLevels(rules: string -> Rule, key: string, k: string)
    requires rules(key).Valid() && rules(k).Valid()
    ensures AllWellFormed(rules, Drain(rules, key, rules(key).burst))
    ensures var store := Serve(true, rules, map[], Drain(rules, key, rules(key).burst));
      && StoreOk(rules, store, 0.0)
      && Level(true, store, rules(k), k, 0.0) == if k == key then 0.0 else rules(k).burst as real
  {
    var history := Drain(rules, key, rules(key).burst);
    DrainIsBurst(rules, key);
    AllAdmitted(true, rules, map[], history, 0.0);
    DrainAsks(rules, key, rules(key).burst, k);
  }

  /** An empty bucket needs longer than its time to live for more than twice its limit. */
  lemma NeedsTooLong(rules: string -> Rule, store: Buckets, slot: Slot)
    requires slot.rule == rules(slot.key) && slot.rule.Valid() && StoreOk(rules, store, 0.0)
    requires SlotLevel(true, store, slot, 0.0) == 0.0
    requires 2 * slot.rule.limit < slot.cost <= slot.rule.burst
    ensures 2 * slot.rule.window < Need(true, store, slot, 0.0)
  {
    FullRefill(slot.rule, slot.rule.TimeToLive());
    RefillPays(true, rules, store, 0.0, slot, 2 * slot.rule.window, slot.rule.TimeToLive());
  }

  /** By then the drained bucket is forgotten, and the others are still full: the request passes. */
  lemma PassesForgotten(rules: string -> Rule, slots: seq<Slot>, store: Buckets, k: nat)
    requires WellFormed(rules, slots) && k < |slots| && Payable(slots) && StoreOk(rules, store, 0.0)
    requires !Check(true, store, slots, 0.0).1.allowed
    requires forall i :: 0 <= i < |slots| && i != k ==>
               SlotLevel(true, store, slots[i], 0.0) == slots[i].rule.burst as real
    ensures Check(true, Check(true, store, slots, 0.0).0, slots, slots[k].rule.TimeToLive()).1.allowed
  {
    var after, due := Check(true, store, slots, 0.0).0, slots[k].rule.TimeToLive();
    CheckOk(true, rules, store, slots, 0.0);
    StoreOkLater(rules, after, 0.0, due);
    forall i | 0 <= i < |slots|
      ensures !Lacks(true, after, slots[i], due)
    {
      WriteAllAt(true, store, slots, false, 0.0, slots[i].key);
      if i != k {
        QuietAfterDenial(true, rules, store, slots, 0.0, slots[i]);
        LevelOfQuiet(true, rules, after, slots[i].key, slots[i].rule.burst as real, 0.0, due);
      }
    }
  }

  /** The failing input: drain bucket k, be denied, and come back when it has been forgotten. */
  lemma AdmittedTooEarly(rules: string -> Rule, slots: seq<Slot>, k: nat)
    requires WellFormed(rules, slots) && k < |slots| && Payable(slots) && 2 * slots[k].rule.limit < slots[k].cost
    ensures var before := Drain(rules, slots[k].key, slots[k].rule.burst);
      && AllWellFormed(rules, before)
      && Timely(before, 0.0, 0.0)
      && !ObeysRetryTime(rules, slots, before, 0.0, [], 2 * slots[k].rule.window, slots[k].rule.TimeToLive())
  {
    var key := slots[k].key;
    var before := Drain(rules, key, slots[k].rule.burst);
    var store := Serve(true, rules, map[], before);
    forall i | 0 <= i < |slots|
      ensures AllWellFormed(rules, before) && StoreOk(rules, store, 0.0)
      ensures SlotLevel(true, store, slots[i], 0.0) == if i == k then 0.0 else slots[i].rule.burst as real
    {
      DrainedLevels(rules, key, slots[i].key);
    }
    assert SlotLevel(true, store, slots[k], 0.0) == 0.0 && Lacks(true, store, slots[k], 0.0);
    NeedsTooLong(rules, store, slots[k]);
    DenialReply(true, store, slots, 0.0);
    assert Needs(true, store, slots, 0.0)[k] == Need(true, store, slots[k], 0.0);
    PassesForgotten(rules, slots, store, k);
  }

  /** Whatever came before the denial and comes after it. */
  ghost predicate AlwaysObeys(rules: string -> Rule, slots: seq<Slot>)
    requires WellFormed(rules, slots)
  {
    forall before: seq<Request>, start: real, now: real, others: seq<Request>, d: nat, due: real ::
      && AllWellFormed(rules, before) && AllWellFormed(rules, others)
      && Timely(before, start, now) && Timely(others, now, due) && due == now + d as real
      ==> ObeysRetryTime(rules, slots, before, now, others, d, due)
  }

  lemma StoreLeft(rules: string -> Rule, before: seq<Request>, start: real, now: real)
    requires AllWellFormed(rules, before) && Timely(before, start, now)
    ensures StoreOk(rules, Serve(true, rules, map[], before), now)
  {
    ServedOk(true, rules, map[], before, start, now, now);
  }

  lemma {:induction false} AlwaysInTime(rules: string -> Rule, slots: seq<Slot>)
    requires WellFormed(rules, slots) && WaitsInTime(slots)
    ensures AlwaysObeys(rules, slots)
  {
    forall before: seq<Request>, start: real, now: real, others: seq<Request>, d: nat, due: real
      | AllWellFormed(rules, before) && AllWellFormed(rules, others)
        && Timely(before, start, now) && Timely(others, now, due) && due == now + d as real
      ensures ObeysRetryTime(rules, slots, before, now, others, d, due)
    {
      StoreLeft(rules, before, start, now);
      ObeysInTime(rules, slots, Serve(true, rules, map[], before), now, others, d, due);
    }
  }

  lemma {:induction false} SometimesTooEarly(rules: string -> Rule, slots: seq<Slot>)
    requires WellFormed(rules, slots) && !WaitsInTime(slots)
    ensures !AlwaysObeys(rules, slots)
  {
    var k :| 0 <= k < |slots| && 2 * slots[k].rule.limit < slots[k].cost;
    AdmittedTooEarly(rules, slots, k);
    assert Timely([], 0.0, slots[k].rule.TimeToLive());
  }

  /**
   * Property 8, exact. Against the store that forgets, the retry time of this request is exact on all traffic if and
   * only if every bucket gains its cost within the time to live, or it can never pass at all.
   */
  lemma {:induction false} RetryAfterExactIff(rules: string -> Rule, slots: seq<Slot>)
    requires WellFormed(rules, slots)
    ensures AlwaysObeys(rules, slots) <==> WaitsInTime(slots)
  {
    if WaitsInTime(slots) {
      AlwaysInTime(rules, slots);
    } else {
      SometimesTooEarly(rules, slots);
    }
  }

  /** A request for a whole burst above twice the limit does not wait in time. */
  lemma BurstWaitsTooLong(rules: string -> Rule, key: string)
    requires rules(key).Valid() && !RefillsInTime(rules(key))
    ensures var slots := [Slot(key, rules(key), rules(key).burst)];
            WellFormed(rules, slots) && !WaitsInTime(slots)
  {
    var slots := [Slot(key, rules(key), rules(key).burst)];
    assert Payable(slots) && slots[0].cost == rules(key).burst;
  }

  /** The same for the rules: all requests are told exact times if and only if no burst is above twice its limit. */
  lemma {:induction false} AllRetryTimesExactIff(rules: string -> Rule)
    requires forall key :: rules(key).Valid()
    ensures (forall slots: seq<Slot> :: WellFormed(rules, slots) ==> AlwaysObeys(rules, slots))
       <==> (forall key :: RefillsInTime(rules(key)))
  {
    if forall key :: RefillsInTime(rules(key)) {
      forall slots: seq<Slot> | WellFormed(rules, slots)
        ensures AlwaysObeys(rules, slots)
      {
        assert forall i :: 0 <= i < |slots| ==> RefillsInTime(rules(slots[i].key));
        RetryAfterExactIff(rules, slots);
      }
    } else {
      var key :| !RefillsInTime(rules(key));
      BurstWaitsTooLong(rules, key);
      RetryAfterExactIff(rules, [Slot(key, rules(key), rules(key).burst)]);
    }
  }
}

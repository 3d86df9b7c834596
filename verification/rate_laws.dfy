/** What the limiter guarantees over whole histories. */
module RateLaws {
  import opened TokenBucket

  // ---------------------------------------------------------------- one call

  lemma Scale(a: real, b: real, r: real)
    requires a <= b && 0.0 <= r
    ensures a * r <= b * r
  {
  }

  lemma SumTimesRate(a: real, b: real, r: real)
    ensures (a + b) * r == a * r + b * r
  {
  }

  lemma GainMonotone(rule: Rule, a: real, b: real)
    requires rule.Valid() && a <= b
    ensures rule.Gain(a) <= rule.Gain(b)
  {
    Scale(a, b, rule.Rate());
  }

  lemma GainAdds(rule: Rule, a: real, b: real, c: real)
    requires rule.Valid() && c == a + b
    ensures rule.Gain(c) == rule.Gain(a) + rule.Gain(b)
  {
    SumTimesRate(a, b, rule.Rate());
  }

  /** Refills compose. */
  lemma RefilledTwice(rule: Rule, level: real, a: real, b: real, c: real)
    requires rule.Valid() && 0.0 <= a && 0.0 <= b && c == a + b
    ensures rule.Refilled(rule.Refilled(level, a), b) == rule.Refilled(level, c)
  {
    GainAdds(rule, a, b, c);
  }

  lemma LevelInRange(forget: bool, rules: string -> Rule, store: Buckets, key: string, now: real)
    requires StoreOk(rules, store, now) && rules(key).Valid()
    ensures 0.0 <= Level(forget, store, rules(key), key, now) <= rules(key).burst as real
  {
  }

  /** What one call leaves in the store: its own buckets written once each, the others untouched. */
  lemma {:induction false} WriteAllAt(forget: bool, store: Buckets, slots: seq<Slot>, debit: bool, now: real,
                                      key: string)
    requires RulesValid(slots) && DistinctKeys(slots)
    ensures var store' := WriteAll(forget, store, slots, debit, now);
      && (forall i :: 0 <= i < |slots| && slots[i].key == key ==>
            key in store' && store'[key] == Written(forget, store, slots[i], debit, now))
      && ((forall i :: 0 <= i < |slots| ==> slots[i].key != key) ==>
            (key in store' <==> key in store) && (key in store ==> store'[key] == store[key]))
  {
    if slots != [] {
      WriteAllAt(forget, store, slots[..|slots| - 1], debit, now, key);
    }
  }

  lemma {:induction false} CostOnAt(slots: seq<Slot>, key: string)
    requires DistinctKeys(slots)
    ensures forall i :: 0 <= i < |slots| && slots[i].key == key ==> CostOn(slots, key) == slots[i].cost
    ensures (forall i :: 0 <= i < |slots| ==> slots[i].key != key) ==> CostOn(slots, key) == 0
  {
    if slots != [] {
      CostOnAt(slots[..|slots| - 1], key);
    }
  }

  /** What a call charged to one bucket. */
  function Charged(r: Reply, slots: seq<Slot>, key: string): real {
    if r.allowed then CostOn(slots, key) as real else 0.0
  }

  /** The bucket was written back with its level less `charged`, or not involved at all. */
  ghost predicate Debits(store: Buckets, store': Buckets, rule: Rule, key: string, level: real, charged: real,
                         now: real)
  {
    || (key in store' && store'[key] == Bucket(level - charged, now, now + rule.TimeToLive()))
    || (charged == 0.0 && (key in store' <==> key in store) && (key in store ==> store'[key] == store[key]))
  }

  /** An admitted request debits exactly its cost from each of its buckets, a denied one nothing from any. */
  lemma CheckAt(forget: bool, rules: string -> Rule, store: Buckets, slots: seq<Slot>, now: real, key: string)
    requires WellFormed(rules, slots) && StoreOk(rules, store, now) && rules(key).Valid()
    ensures var (store', r) := Check(forget, store, slots, now);
            var level := Level(forget, store, rules(key), key, now);
      && Charged(r, slots, key) <= level
      && Debits(store, store', rules(key), key, level, Charged(r, slots, key), now)
  {
    LevelInRange(forget, rules, store, key, now);
    CostOnAt(slots, key);
    if slots != [] {
      WriteAllAt(forget, store, slots, Admits(forget, store, slots, now), now, key);
      if i :| 0 <= i < |slots| && slots[i].key == key {
        assert !Lacks(forget, store, slots[i], now) || !Admits(forget, store, slots, now);
      }
    }
  }

  lemma {:induction false} CheckOk(forget: bool, rules: string -> Rule, store: Buckets, slots: seq<Slot>, now: real)
    requires WellFormed(rules, slots) && StoreOk(rules, store, now)
    ensures StoreOk(rules, Check(forget, store, slots, now).0, now)
  {
    var store' := Check(forget, store, slots, now).0;
    forall k | k in store'
      ensures rules(k).Valid() && 0.0 <= store'[k].tokens <= rules(k).burst as real && store'[k].updatedAt <= now
      ensures store'[k].expiresAt == store'[k].updatedAt + rules(k).TimeToLive()
    {
      if slots != [] {
        WriteAllAt(forget, store, slots, Admits(forget, store, slots, now), now, k);
        if i :| 0 <= i < |slots| && slots[i].key == k {
          CheckAt(forget, rules, store, slots, now, k);
          LevelInRange(forget, rules, store, k, now);
        }
      }
    }
  }

  // ---------------------------------------------------------------- what is reported as left

  lemma {:induction false} LeastIsOne(levels: seq<real>)
    requires levels != []
    ensures Least(levels) in levels
    ensures forall i :: 0 <= i < |levels| ==> Least(levels) <= levels[i]
  {
    if |levels| > 1 {
      LeastIsOne(levels[..|levels| - 1]);
    }
  }

  /** What a bucket is left with: nothing is taken from one that cannot pay. */
  function LeftOf(level: real, cost: nat): real {
    if level < cost as real then level else level - cost as real
  }

  /**
   * `remaining` is the whole number of tokens that the emptiest of the request's buckets is left with: once the cost
   * is paid if the request passed, and otherwise what each would keep on its own.
   */
  ghost predicate LeastLeft(forget: bool, store: Buckets, slots: seq<Slot>, now: real, allowed: bool, remaining: int)
    requires RulesValid(slots)
  {
    var after := Check(forget, store, slots, now).0;
    && (allowed ==>
          && (forall i :: 0 <= i < |slots| ==>
                slots[i].key in after && remaining <= after[slots[i].key].tokens.Floor)
          && (exists i :: 0 <= i < |slots| && slots[i].key in after && remaining == after[slots[i].key].tokens.Floor))
    && (!allowed ==>
          && (forall i :: 0 <= i < |slots| ==>
                remaining <= LeftOf(SlotLevel(forget, store, slots[i], now), slots[i].cost).Floor)
          && (exists i :: 0 <= i < |slots| &&
                remaining == LeftOf(SlotLevel(forget, store, slots[i], now), slots[i].cost).Floor))
  }

  /** The least remainder is one of the buckets' own and none has less. */
  lemma LeastRemainder(forget: bool, store: Buckets, slots: seq<Slot>, now: real) returns (k: nat)
    requires slots != [] && RulesValid(slots)
    ensures k < |slots|
    ensures var least := Check(forget, store, slots, now).1.remaining;
      && least == LeftOf(SlotLevel(forget, store, slots[k], now), slots[k].cost).Floor
      && forall i :: 0 <= i < |slots| ==>
           least <= LeftOf(SlotLevel(forget, store, slots[i], now), slots[i].cost).Floor
  {
    var remainders := Remainders(forget, store, slots, now);
    LeastIsOne(remainders);
    k :| 0 <= k < |slots| && remainders[k] == Least(remainders);
    forall i | 0 <= i < |slots|
      ensures Least(remainders).Floor <= LeftOf(SlotLevel(forget, store, slots[i], now), slots[i].cost).Floor
    {
      assert Least(remainders) <= remainders[i];
    }
  }

  lemma PaidBuckets(forget: bool, store: Buckets, slots: seq<Slot>, now: real, i: nat)
    requires RulesValid(slots) && DistinctKeys(slots) && i < |slots|
    requires Check(forget, store, slots, now).1.allowed
    ensures var after := Check(forget, store, slots, now).0;
      && slots[i].key in after
      && after[slots[i].key].tokens == LeftOf(SlotLevel(forget, store, slots[i], now), slots[i].cost)
  {
    assert !Lacks(forget, store, slots[i], now);
    WriteAllAt(forget, store, slots, true, now, slots[i].key);
  }

  /** What the reply counts as remaining, for every list of buckets. */
  lemma {:induction false} RemainingIsLeast(forget: bool, store: Buckets, slots: seq<Slot>, now: real)
    requires slots != [] && RulesValid(slots) && DistinctKeys(slots)
    ensures var r := Check(forget, store, slots, now).1;
            LeastLeft(forget, store, slots, now, r.allowed, r.remaining)
  {
    var r := Check(forget, store, slots, now).1;
    var k := LeastRemainder(forget, store, slots, now);
    if r.allowed {
      forall i | 0 <= i < |slots|
        ensures var after := Check(forget, store, slots, now).0;
          && slots[i].key in after
          && after[slots[i].key].tokens == LeftOf(SlotLevel(forget, store, slots[i], now), slots[i].cost)
      {
        PaidBuckets(forget, store, slots, now, i);
      }
    }
  }

  // ---------------------------------------------------------------- refills

  /** Waiting in two stretches is waiting once. */
  lemma LevelLater(rules: string -> Rule, store: Buckets, key: string, now: real, later: real)
    requires StoreOk(rules, store, now) && rules(key).Valid() && now <= later
    ensures Level(false, store, rules(key), key, later)
         == rules(key).Refilled(Level(false, store, rules(key), key, now), later - now)
  {
    if key in store {
      RefilledTwice(rules(key), store[key].tokens, now - store[key].updatedAt, later - now,
                    later - store[key].updatedAt);
    }
  }

  lemma LevelAfterDebit(rules: string -> Rule, store: Buckets, store': Buckets, key: string, charged: real,
                        now: real, later: real)
    requires StoreOk(rules, store, now) && rules(key).Valid() && now <= later
    requires Debits(store, store', rules(key), key, Level(false, store, rules(key), key, now), charged, now)
    ensures Level(false, store', rules(key), key, later)
         == rules(key).Refilled(Level(false, store, rules(key), key, now) - charged, later - now)
  {
    var level := Level(false, store, rules(key), key, now);
    if !(key in store' && store'[key] == Bucket(level - charged, now, now + rules(key).TimeToLive())) {
      LevelLater(rules, store, key, now, later);
    }
  }

  // ---------------------------------------------------------------- property 16: expiry is invisible

  /** No rule needs longer than its time to live to refill. */
  predicate RefillsInTime(rule: Rule) {
    rule.burst <= 2 * rule.limit
  }

  /** A time to live refills twice the limit. */
  lemma FullRefill(rule: Rule, elapsed: real)
    requires rule.Valid() && rule.TimeToLive() <= elapsed
    ensures (2 * rule.limit) as real <= rule.Gain(elapsed)
    ensures elapsed == rule.TimeToLive() ==> rule.Gain(elapsed) == (2 * rule.limit) as real
  {
    var window := rule.window as real;
    GainMonotone(rule, rule.TimeToLive(), elapsed);
    GainAdds(rule, window, window, rule.TimeToLive());
    assert rule.Gain(window) == rule.limit as real;
  }

  lemma ExpirySameLevel(rules: string -> Rule, store: Buckets, key: string, now: real)
    requires StoreOk(rules, store, now) && rules(key).Valid() && RefillsInTime(rules(key))
    ensures Level(true, store, rules(key), key, now) == Level(false, store, rules(key), key, now)
  {
    if key in store && store[key].expiresAt <= now {
      FullRefill(rules(key), now - store[key].updatedAt);
    }
  }

  /** A reply depends on the levels of the request's buckets alone. */
  lemma {:induction false} SameLevelsSameReply(f1: bool, s1: Buckets, f2: bool, s2: Buckets, slots: seq<Slot>,
                                               now: real)
    requires RulesValid(slots)
    requires forall i :: 0 <= i < |slots| ==> SlotLevel(f1, s1, slots[i], now) == SlotLevel(f2, s2, slots[i], now)
    ensures Admits(f1, s1, slots, now) == Admits(f2, s2, slots, now)
    ensures Check(f1, s1, slots, now).1 == Check(f2, s2, slots, now).1
  {
    assert Needs(f1, s1, slots, now) == Needs(f2, s2, slots, now);
    assert Remainders(f1, s1, slots, now) == Remainders(f2, s2, slots, now);
    forall i | 0 <= i < |slots|
      ensures Lacks(f1, s1, slots[i], now) == Lacks(f2, s2, slots[i], now)
    {
      assert SlotLevel(f1, s1, slots[i], now) == SlotLevel(f2, s2, slots[i], now);
    }
  }

  lemma {:induction false} SameLevelsSameWrites(f1: bool, f2: bool, store: Buckets, slots: seq<Slot>, debit: bool,
                                                now: real)
    requires RulesValid(slots)
    requires forall i :: 0 <= i < |slots| ==> SlotLevel(f1, store, slots[i], now) == SlotLevel(f2, store, slots[i], now)
    ensures WriteAll(f1, store, slots, debit, now) == WriteAll(f2, store, slots, debit, now)
  {
    if slots != [] {
      SameLevelsSameWrites(f1, f2, store, slots[..|slots| - 1], debit, now);
    }
  }

  lemma ExpirySameCheck(rules: string -> Rule, store: Buckets, slots: seq<Slot>, now: real)
    requires WellFormed(rules, slots) && StoreOk(rules, store, now)
    requires forall i :: 0 <= i < |slots| ==> RefillsInTime(slots[i].rule)
    ensures Check(true, store, slots, now) == Check(false, store, slots, now)
  {
    forall i | 0 <= i < |slots|
      ensures SlotLevel(true, store, slots[i], now) == SlotLevel(false, store, slots[i], now)
    {
      ExpirySameLevel(rules, store, slots[i].key, now);
    }
    SameLevelsSameReply(true, store, false, store, slots, now);
    SameLevelsSameWrites(true, false, store, slots, Admits(true, store, slots, now), now);
  }

  lemma StoreOkLater(rules: string -> Rule, store: Buckets, now: real, later: real)
    requires StoreOk(rules, store, now) && now <= later
    ensures StoreOk(rules, store, later)
  {
  }

  /** Time of the last request, or where the history starts. */
  function LastTime(history: seq<Request>, from: real): real {
    if history == [] then from else history[|history| - 1].at
  }

  /** Property 6, invariant. Tokens stay within 0 and the burst on every history. */
  lemma {:induction false} ServeOk(forget: bool, rules: string -> Rule, store: Buckets, history: seq<Request>,
                                   from: real, until: real)
    requires AllWellFormed(rules, history) && Timely(history, from, until) && StoreOk(rules, store, from)
    ensures StoreOk(rules, Serve(forget, rules, store, history), LastTime(history, from))
  {
    if history != [] {
      var n := |history| - 1;
      ServeOk(forget, rules, store, history[..n], from, until);
      StoreOkLater(rules, Serve(forget, rules, store, history[..n]), LastTime(history[..n], from), history[n].at);
      CheckOk(forget, rules, Serve(forget, rules, store, history[..n]), history[n].slots, history[n].at);
    }
  }

  lemma {:induction false} ServedOk(forget: bool, rules: string -> Rule, store: Buckets, history: seq<Request>,
                                    from: real, until: real, now: real)
    requires AllWellFormed(rules, history) && Timely(history, from, until) && StoreOk(rules, store, from)
    requires from <= now && LastTime(history, from) <= now
    ensures StoreOk(rules, Serve(forget, rules, store, history), now)
  {
    ServeOk(forget, rules, store, history, from, until);
    StoreOkLater(rules, Serve(forget, rules, store, history), LastTime(history, from), now);
  }

  lemma LastReply(forget: bool, rules: string -> Rule, store: Buckets, history: seq<Request>)
    requires AllWellFormed(rules, history) && history != []
    ensures var n := |history| - 1;
            var before := Serve(forget, rules, store, history[..n]);
            var (full, reply) := Check(forget, before, history[n].slots, history[n].at);
      && Serve(forget, rules, store, history) == full
      && Replies(forget, rules, store, history) == Replies(forget, rules, store, history[..n]) + [reply]
  {
  }

  predicate AllRefillInTime(history: seq<Request>) {
    forall i, j :: 0 <= i < |history| && 0 <= j < |history[i].slots| ==> RefillsInTime(history[i].slots[j].rule)
  }

  /** When every rule refills within its time to live, forgetting buckets changes no store and no reply. */
  lemma {:induction false} ExpiryInvisible(rules: string -> Rule, store: Buckets, history: seq<Request>,
                                           from: real, until: real)
    requires AllWellFormed(rules, history) && Timely(history, from, until) && StoreOk(rules, store, from)
    requires AllRefillInTime(history)
    ensures Serve(true, rules, store, history) == Serve(false, rules, store, history)
    ensures Replies(true, rules, store, history) == Replies(false, rules, store, history)
  {
    if history != [] {
      var n := |history| - 1;
      ExpiryInvisible(rules, store, history[..n], from, until);
      ServedOk(false, rules, store, history[..n], from, until, history[n].at);
      ExpirySameCheck(rules, Serve(false, rules, store, history[..n]), history[n].slots, history[n].at);
      LastReply(true, rules, store, history);
      LastReply(false, rules, store, history);
    }
  }

  // ---------------------------------------------------------------- property 6: the rate bound

  lemma LevelIgnoresExpiry(forget: bool, rules: string -> Rule, store: Buckets, key: string, now: real)
    requires StoreOk(rules, store, now) && rules(key).Valid() && (forget ==> RefillsInTime(rules(key)))
    ensures Level(forget, store, rules(key), key, now) == Level(false, store, rules(key), key, now)
  {
    if forget {
      ExpirySameLevel(rules, store, key, now);
    }
  }

  /** One more request: what it charged, plus the level it leaves, is at most the level before plus the refill. */
  lemma PotentialStep(forget: bool, rules: string -> Rule, store: Buckets, slots: seq<Slot>, now: real, key: string,
                      later: real)
    requires WellFormed(rules, slots) && StoreOk(rules, store, now) && now <= later
    requires rules(key).Valid() && (forget ==> RefillsInTime(rules(key)))
    ensures var (store', r) := Check(forget, store, slots, now);
            Charged(r, slots, key) + Level(false, store', rules(key), key, later)
              <= Level(false, store, rules(key), key, now) + rules(key).Gain(later - now)
  {
    var (store', r) := Check(forget, store, slots, now);
    CheckAt(forget, rules, store, slots, now, key);
    LevelIgnoresExpiry(forget, rules, store, key, now);
    LevelAfterDebit(rules, store, store', key, Charged(r, slots, key), now, later);
  }

  lemma LastCharge(forget: bool, rules: string -> Rule, store: Buckets, history: seq<Request>, key: string)
    requires AllWellFormed(rules, history) && history != []
    ensures var n := |history| - 1;
            var reply := Check(forget, Serve(forget, rules, store, history[..n]), history[n].slots, history[n].at).1;
            Admitted(forget, rules, store, history, key) as real
              == Admitted(forget, rules, store, history[..n], key) as real + Charged(reply, history[n].slots, key)
  {
  }

  lemma LevelGrows(rules: string -> Rule, store: Buckets, key: string, now: real, later: real)
    requires StoreOk(rules, store, now) && rules(key).Valid() && now <= later
    ensures Level(false, store, rules(key), key, later)
         <= Level(false, store, rules(key), key, now) + rules(key).Gain(later - now)
  {
    LevelLater(rules, store, key, now, later);
  }

  /** One request more: `spent` is what the requests before it leave to be accounted for. */
  lemma PotentialLast(forget: bool, rules: string -> Rule, before: Buckets, r: Request, key: string,
                      from: real, later: real, spent: real)
    requires WellFormed(rules, r.slots) && StoreOk(rules, before, r.at) && rules(key).Valid()
    requires (forget ==> RefillsInTime(rules(key))) && from <= r.at <= later
    requires Level(false, before, rules(key), key, r.at) <= spent + rules(key).Gain(r.at - from)
    ensures var (after, reply) := Check(forget, before, r.slots, r.at);
            Charged(reply, r.slots, key) + Level(false, after, rules(key), key, later)
              <= spent + rules(key).Gain(later - from)
  {
    PotentialStep(forget, rules, before, r.slots, r.at, key, later);
    GainAdds(rules(key), r.at - from, later - r.at, later - from);
  }

  /** What was admitted, and the level it leaves, come out of the initial level and the refill. */
  ghost predicate WithinPotential(forget: bool, rules: string -> Rule, store: Buckets, history: seq<Request>,
                                  key: string, from: real, later: real)
    requires AllWellFormed(rules, history) && rules(key).Valid()
  {
    Admitted(forget, rules, store, history, key) as real
      + Level(false, Serve(forget, rules, store, history), rules(key), key, later)
    <= Level(false, store, rules(key), key, from) + rules(key).Gain(later - from)
  }

  lemma {:induction false} PotentialNext(forget: bool, rules: string -> Rule, store: Buckets, history: seq<Request>,
                                         key: string, from: real, later: real)
    requires AllWellFormed(rules, history) && history != [] && rules(key).Valid()
    requires (forget ==> RefillsInTime(rules(key))) && from <= history[|history| - 1].at <= later
    requires StoreOk(rules, Serve(forget, rules, store, history[..|history| - 1]), history[|history| - 1].at)
    requires WithinPotential(forget, rules, store, history[..|history| - 1], key, from, history[|history| - 1].at)
    ensures WithinPotential(forget, rules, store, history, key, from, later)
  {
    var n := |history| - 1;
    PotentialLast(forget, rules, Serve(forget, rules, store, history[..n]), history[n], key, from, later,
                  Level(false, store, rules(key), key, from)
                    - Admitted(forget, rules, store, history[..n], key) as real);
    LastCharge(forget, rules, store, history, key);
    LastReply(forget, rules, store, history);
  }

  lemma {:induction false} PotentialEmpty(forget: bool, rules: string -> Rule, store: Buckets, key: string, from: real,
                                          later: real)
    requires StoreOk(rules, store, from) && rules(key).Valid() && from <= later
    ensures WithinPotential(forget, rules, store, [], key, from, later)
  {
    LevelGrows(rules, store, key, from, later);
  }

  lemma {:induction false} Potential(forget: bool, rules: string -> Rule, store: Buckets, history: seq<Request>,
                                     from: real, until: real, key: string, later: real)
    requires AllWellFormed(rules, history) && Timely(history, from, until) && StoreOk(rules, store, from)
    requires rules(key).Valid() && (forget ==> RefillsInTime(rules(key))) && LastTime(history, from) <= later
    ensures WithinPotential(forget, rules, store, history, key, from, later)
  {
    if history == [] {
      PotentialEmpty(forget, rules, store, key, from, later);
    } else {
      var n := |history| - 1;
      Potential(forget, rules, store, history[..n], from, until, key, history[n].at);
      ServedOk(forget, rules, store, history[..n], from, until, history[n].at);
      PotentialNext(forget, rules, store, history, key, from, later);
    }
  }

  /** The total cost admitted to the bucket stays within its burst plus the refill of the interval. */
  ghost predicate WithinRate(forget: bool, rules: string -> Rule, before: seq<Request>, during: seq<Request>,
                             from: real, until: real, key: string)
    requires AllWellFormed(rules, before) && AllWellFormed(rules, during) && rules(key).Valid()
  {
    Admitted(forget, rules, Serve(forget, rules, map[], before), during, key) as real
      <= rules(key).burst as real + rules(key).Gain(until - from)
  }

  /** Property 6. Whatever came before, and whatever the request's other buckets decide. */
  lemma {:induction false} RateBound(forget: bool, rules: string -> Rule, before: seq<Request>, during: seq<Request>,
                  start: real, from: real, until: real, key: string)
    requires AllWellFormed(rules, before) && AllWellFormed(rules, during)
    requires Timely(before, start, from) && Timely(during, from, until)
    requires rules(key).Valid() && (forget ==> RefillsInTime(rules(key)))
    ensures WithinRate(forget, rules, before, during, from, until, key)
  {
    var store := Serve(forget, rules, map[], before);
    ServeOk(forget, rules, map[], before, start, from);
    StoreOkLater(rules, store, LastTime(before, start), from);
    Potential(forget, rules, store, during, from, until, key, until);
    LevelInRange(false, rules, store, key, from);
    ServeOk(forget, rules, store, during, from, until);
    StoreOkLater(rules, Serve(forget, rules, store, during), LastTime(during, from), until);
    LevelInRange(false, rules, Serve(forget, rules, store, during), key, until);
  }

  // ---------------------------------------------------------------- property 7: denied requests are invisible

  /** The two stores have the same levels from `now` on. */
  ghost predicate SameLevels(rules: string -> Rule, s1: Buckets, s2: Buckets, now: real)
    requires forall key :: rules(key).Valid()
  {
    forall key, later | now <= later ::
      Level(false, s1, rules(key), key, later) == Level(false, s2, rules(key), key, later)
  }

  lemma {:induction false} SameLevelsReply(forget: bool, rules: string -> Rule, s1: Buckets, s2: Buckets,
                                           slots: seq<Slot>, now: real)
    requires forall key :: rules(key).Valid() && (forget ==> RefillsInTime(rules(key)))
    requires WellFormed(rules, slots) && StoreOk(rules, s1, now) && StoreOk(rules, s2, now)
    requires SameLevels(rules, s1, s2, now)
    ensures Check(forget, s1, slots, now).1 == Check(forget, s2, slots, now).1
    ensures SameLevels(rules, Check(forget, s1, slots, now).0, Check(forget, s2, slots, now).0, now)
  {
    forall i | 0 <= i < |slots|
      ensures SlotLevel(forget, s1, slots[i], now) == SlotLevel(forget, s2, slots[i], now)
    {
      LevelIgnoresExpiry(forget, rules, s1, slots[i].key, now);
      LevelIgnoresExpiry(forget, rules, s2, slots[i].key, now);
      assert Level(false, s1, rules(slots[i].key), slots[i].key, now)
          == Level(false, s2, rules(slots[i].key), slots[i].key, now);
    }
    SameLevelsSameReply(forget, s1, forget, s2, slots, now);
    forall key, later | now <= later
      ensures Level(false, Check(forget, s1, slots, now).0, rules(key), key, later)
           == Level(false, Check(forget, s2, slots, now).0, rules(key), key, later)
    {
      LevelAfter(forget, rules, s1, slots, now, key, later);
      LevelAfter(forget, rules, s2, slots, now, key, later);
      assert Level(false, s1, rules(key), key, now) == Level(false, s2, rules(key), key, now);
    }
  }

  /** The level of one bucket after a call, at any later time. */
  lemma LevelAfter(forget: bool, rules: string -> Rule, store: Buckets, slots: seq<Slot>, now: real, key: string,
                   later: real)
    requires WellFormed(rules, slots) && StoreOk(rules, store, now) && now <= later
    requires rules(key).Valid() && (forget ==> RefillsInTime(rules(key)))
    ensures var (store', r) := Check(forget, store, slots, now);
            Level(false, store', rules(key), key, later)
              == rules(key).Refilled(Level(false, store, rules(key), key, now) - Charged(r, slots, key), later - now)
  {
    var (store', r) := Check(forget, store, slots, now);
    CheckAt(forget, rules, store, slots, now, key);
    LevelIgnoresExpiry(forget, rules, store, key, now);
    LevelAfterDebit(rules, store, store', key, Charged(r, slots, key), now, later);
  }

  /** A call that charges a bucket nothing does not show in any of its later levels. */
  lemma UnchargedLevel(forget: bool, rules: string -> Rule, store: Buckets, slots: seq<Slot>, now: real, key: string,
                       later: real)
    requires WellFormed(rules, slots) && StoreOk(rules, store, now) && now <= later
    requires rules(key).Valid() && (forget ==> RefillsInTime(rules(key)))
    requires Charged(Check(forget, store, slots, now).1, slots, key) == 0.0
    ensures Level(false, Check(forget, store, slots, now).0, rules(key), key, later)
         == Level(false, store, rules(key), key, later)
  {
    LevelAfter(forget, rules, store, slots, now, key, later);
    LevelLater(rules, store, key, now, later);
  }

  /** The requests of the history that were admitted. */
  ghost function WithoutDenied(forget: bool, rules: string -> Rule, store: Buckets, history: seq<Request>): seq<Request>
    requires AllWellFormed(rules, history)
  {
    if history == [] then []
    else
      var n := |history| - 1;
      WithoutDenied(forget, rules, store, history[..n])
      + if Replies(forget, rules, store, history)[n].allowed then [history[n]] else []
  }

  /** Their replies in the original history. */
  ghost function AllowedReplies(forget: bool, rules: string -> Rule, store: Buckets, history: seq<Request>): seq<Reply>
    requires AllWellFormed(rules, history)
  {
    if history == [] then []
    else
      var n := |history| - 1;
      var r := Replies(forget, rules, store, history)[n];
      AllowedReplies(forget, rules, store, history[..n]) + if r.allowed then [r] else []
  }

  /** A well-formed, timely history whose requests all come at or before `last`. */
  predicate Orderly(rules: string -> Rule, history: seq<Request>, from: real, until: real, last: real) {
    && AllWellFormed(rules, history)
    && Timely(history, from, until)
    && (forall i :: 0 <= i < |history| ==> history[i].at <= last)
  }

  lemma OneMore(rules: string -> Rule, history: seq<Request>, r: Request, from: real, until: real, last: real)
    requires Orderly(rules, history, from, until, last)
    requires WellFormed(rules, r.slots) && last <= r.at && from <= r.at <= until
    ensures Orderly(rules, history + [r], from, until, r.at)
  {
  }

  lemma ServeOneMore(forget: bool, rules: string -> Rule, store: Buckets, history: seq<Request>, r: Request)
    requires AllWellFormed(rules, history) && WellFormed(rules, r.slots)
    ensures AllWellFormed(rules, history + [r])
    ensures var (store', reply) := Check(forget, Serve(forget, rules, store, history), r.slots, r.at);
      && Serve(forget, rules, store, history + [r]) == store'
      && Replies(forget, rules, store, history + [r]) == Replies(forget, rules, store, history) + [reply]
  {
    assert (history + [r])[..|history|] == history;
  }

  /** What the last request adds to the three histories. */
  lemma LastRequest(forget: bool, rules: string -> Rule, store: Buckets, history: seq<Request>)
    requires AllWellFormed(rules, history) && history != []
    ensures var n := |history| - 1;
            var kept := WithoutDenied(forget, rules, store, history[..n]);
            var before := Serve(forget, rules, store, history[..n]);
            var (full, reply) := Check(forget, before, history[n].slots, history[n].at);
      && Serve(forget, rules, store, history) == full
      && WithoutDenied(forget, rules, store, history) == (if reply.allowed then kept + [history[n]] else kept)
      && AllowedReplies(forget, rules, store, history)
           == AllowedReplies(forget, rules, store, history[..n]) + (if reply.allowed then [reply] else [])
  {
  }

  /** With or without the history's last request. */
  lemma OrderlyNext(rules: string -> Rule, kept: seq<Request>, history: seq<Request>, from: real, until: real)
    requires AllWellFormed(rules, history) && Timely(history, from, until) && history != []
    requires Orderly(rules, kept, from, until, LastTime(history[..|history| - 1], from))
    ensures Orderly(rules, kept, from, until, LastTime(history, from))
    ensures Orderly(rules, kept + [history[|history| - 1]], from, until, LastTime(history, from))
  {
    OneMore(rules, kept, history[|history| - 1], from, until, LastTime(history[..|history| - 1], from));
  }

  lemma {:induction false} WithoutDeniedOrderly(forget: bool, rules: string -> Rule, store: Buckets,
                                                history: seq<Request>,
                                                from: real, until: real)
    requires AllWellFormed(rules, history) && Timely(history, from, until)
    ensures Orderly(rules, WithoutDenied(forget, rules, store, history), from, until, LastTime(history, from))
  {
    if history != [] {
      var n := |history| - 1;
      WithoutDeniedOrderly(forget, rules, store, history[..n], from, until);
      OrderlyNext(rules, WithoutDenied(forget, rules, store, history[..n]), history, from, until);
      LastRequest(forget, rules, store, history);
    }
  }

  /** A denied request moves no later level. */
  lemma {:induction false} DeniedSameLevels(forget: bool, rules: string -> Rule, s1: Buckets, s2: Buckets,
                                            slots: seq<Slot>, now: real)
    requires forall key :: rules(key).Valid() && (forget ==> RefillsInTime(rules(key)))
    requires WellFormed(rules, slots) && StoreOk(rules, s2, now) && SameLevels(rules, s1, s2, now)
    requires !Check(forget, s2, slots, now).1.allowed
    ensures SameLevels(rules, s1, Check(forget, s2, slots, now).0, now)
  {
    forall key, later | now <= later
      ensures Level(false, s1, rules(key), key, later)
           == Level(false, Check(forget, s2, slots, now).0, rules(key), key, later)
    {
      UnchargedLevel(forget, rules, s2, slots, now, key, later);
    }
  }

  /** One request more, on the full history's store and on the store of the kept requests. */
  lemma KeptStep(forget: bool, rules: string -> Rule, store: Buckets, kept: seq<Request>, full: Buckets, r: Request)
    requires forall key :: rules(key).Valid() && (forget ==> RefillsInTime(rules(key)))
    requires AllWellFormed(rules, kept) && WellFormed(rules, r.slots)
    requires StoreOk(rules, Serve(forget, rules, store, kept), r.at) && StoreOk(rules, full, r.at)
    requires SameLevels(rules, Serve(forget, rules, store, kept), full, r.at)
    ensures var (full', reply) := Check(forget, full, r.slots, r.at);
            var next := if reply.allowed then kept + [r] else kept;
      && AllWellFormed(rules, next)
      && Replies(forget, rules, store, next)
           == Replies(forget, rules, store, kept) + (if reply.allowed then [reply] else [])
      && SameLevels(rules, Serve(forget, rules, store, next), full', r.at)
  {
    if Check(forget, full, r.slots, r.at).1.allowed {
      SameLevelsReply(forget, rules, Serve(forget, rules, store, kept), full, r.slots, r.at);
      ServeOneMore(forget, rules, store, kept, r);
    } else {
      DeniedSameLevels(forget, rules, Serve(forget, rules, store, kept), full, r.slots, r.at);
    }
  }

  lemma SameLevelsLater(rules: string -> Rule, s1: Buckets, s2: Buckets, now: real, later: real)
    requires forall key :: rules(key).Valid()
    requires SameLevels(rules, s1, s2, now) && now <= later
    ensures SameLevels(rules, s1, s2, later)
  {
  }

  /** The two stores that the next request finds when the denied ones before it are erased, and when they are not. */
  lemma {:induction false} BeforeNext(forget: bool, rules: string -> Rule, store: Buckets, kept: seq<Request>,
                                      before: seq<Request>, from: real, until: real, at: real)
    requires forall key :: rules(key).Valid()
    requires AllWellFormed(rules, before) && Timely(before, from, until) && StoreOk(rules, store, from)
    requires Orderly(rules, kept, from, until, LastTime(before, from)) && LastTime(before, from) <= at && from <= at
    requires SameLevels(rules, Serve(forget, rules, store, kept), Serve(forget, rules, store, before),
                        LastTime(before, from))
    ensures var s1, s2 := Serve(forget, rules, store, kept), Serve(forget, rules, store, before);
            StoreOk(rules, s1, at) && StoreOk(rules, s2, at) && SameLevels(rules, s1, s2, at)
  {
    ServedOk(forget, rules, store, kept, from, until, at);
    ServedOk(forget, rules, store, before, from, until, at);
    SameLevelsLater(rules, Serve(forget, rules, store, kept), Serve(forget, rules, store, before),
                    LastTime(before, from), at);
  }

  /**
   * Property 7. Erasing every denied request leaves the replies to all the others exactly as they were, remaining
   * counts included, and every later level too. Expiring buckets need rules that refill in time.
   */
  lemma {:induction false} DeniedInvisible(forget: bool, rules: string -> Rule, store: Buckets, history: seq<Request>,
                                           from: real, until: real)
    requires forall key :: rules(key).Valid() && (forget ==> RefillsInTime(rules(key)))
    requires AllWellFormed(rules, history) && Timely(history, from, until) && StoreOk(rules, store, from)
    ensures var kept := WithoutDenied(forget, rules, store, history);
      && AllWellFormed(rules, kept)
      && Replies(forget, rules, store, kept) == AllowedReplies(forget, rules, store, history)
      && SameLevels(rules, Serve(forget, rules, store, kept), Serve(forget, rules, store, history),
                    LastTime(history, from))
  {
    if history != [] {
      var n := |history| - 1;
      DeniedInvisible(forget, rules, store, history[..n], from, until);
      WithoutDeniedOrderly(forget, rules, store, history[..n], from, until);
      BeforeNext(forget, rules, store, WithoutDenied(forget, rules, store, history[..n]), history[..n], from, until,
                 history[n].at);
      KeptStep(forget, rules, store, WithoutDenied(forget, rules, store, history[..n]),
               Serve(forget, rules, store, history[..n]), history[n]);
      LastRequest(forget, rules, store, history);
    }
  }

  // ---------------------------------------------------------------- what a denial reports

  /** k is the 1-based position of the first maximum r of the needs, or both are 0 and so are all the needs. */
  predicate IsFirstMax(needs: seq<nat>, r: nat, k: nat) {
    && (forall i :: 0 <= i < |needs| ==> needs[i] <= r)
    && (if r == 0 then k == 0
        else
          && 1 <= k <= |needs|
          && needs[k - 1] == r
          && forall i :: 0 <= i < k - 1 ==> needs[i] < r)
  }

  lemma {:induction false} FirstLongestIsFirst(needs: seq<nat>)
    ensures IsFirstMax(needs, Longest(needs), FirstLongest(needs))
  {
    if needs != [] {
      FirstLongestIsFirst(needs[..|needs| - 1]);
    }
  }

  /** A denied request names a positive retry time and the first bucket that needs it. */
  lemma {:induction false} DenialReply(forget: bool, store: Buckets, slots: seq<Slot>, now: real)
    requires RulesValid(slots) && !Check(forget, store, slots, now).1.allowed
    ensures var r := Check(forget, store, slots, now).1;
      1 <= r.retryAfter && IsFirstMax(Needs(forget, store, slots, now), r.retryAfter, r.deniedIndex)
  {
    var needs := Needs(forget, store, slots, now);
    FirstLongestIsFirst(needs);
    var k :| 0 <= k < |slots| && Lacks(forget, store, slots[k], now);
    assert 1 <= needs[k];
  }
}

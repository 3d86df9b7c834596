/**
 * The multi-bucket token bucket: one script evaluation over a list of buckets. Tokens and time are reals. With
 * `forget` the store drops a bucket once its time to live has passed, as Redis does; without it nothing is dropped.
 */
module TokenBucket {
  datatype Rule = Rule(name: string, limit: nat, window: nat, burst: nat) {
    /** What the settings validators enforce. */
    predicate Valid() {
      0 < limit && 0 < window && 0 < burst
    }

    /** Tokens per second. */
    function Rate(): (r: real)
      requires Valid()
      ensures 0.0 < r
    {
      limit as real / window as real
    }

    function Gain(seconds: real): (tokens: real)
      requires Valid()
      ensures 0.0 <= seconds ==> 0.0 <= tokens
    {
      seconds * Rate()
    }

    /** A level after a refill, capped at the burst. */
    function Refilled(level: real, seconds: real): real
      requires Valid()
    {
      MinReal(burst as real, level + Gain(seconds))
    }

    /** Two windows, in seconds. */
    function TimeToLive(): real {
      (2 * window) as real
    }
  }

  /** One bucket of a request: its key, its rule, and what the request costs it. */
  datatype Slot = Slot(key: string, rule: Rule, cost: nat)

  datatype Bucket = Bucket(tokens: real, updatedAt: real, expiresAt: real)

  type Buckets = map<string, Bucket>

  datatype Reply = Reply(allowed: bool, remaining: int, retryAfter: int, deniedIndex: nat)

  function MinReal(a: real, b: real): real {
    if a <= b then a else b
  }

  function MaxReal(a: real, b: real): real {
    if a <= b then b else a
  }

  function Ceil(x: real): (n: int)
    ensures (n - 1) as real < x <= n as real
  {
    -((-x).Floor)
  }

  predicate Alive(forget: bool, store: Buckets, key: string, now: real) {
    key in store && (forget ==> now < store[key].expiresAt)
  }

  /** Tokens after the refill, capped; a missing bucket is full. */
  function Level(forget: bool, store: Buckets, rule: Rule, key: string, now: real): real
    requires rule.Valid()
  {
    if Alive(forget, store, key, now) then
      rule.Refilled(store[key].tokens, MaxReal(0.0, now - store[key].updatedAt))
    else rule.burst as real
  }

  function SlotLevel(forget: bool, store: Buckets, slot: Slot, now: real): real
    requires slot.rule.Valid()
  {
    Level(forget, store, slot.rule, slot.key, now)
  }

  predicate Lacks(forget: bool, store: Buckets, slot: Slot, now: real)
    requires slot.rule.Valid()
  {
    SlotLevel(forget, store, slot, now) < slot.cost as real
  }

  predicate RulesValid(slots: seq<Slot>) {
    forall i :: 0 <= i < |slots| ==> slots[i].rule.Valid()
  }

  /** A request passes only if every one of its buckets can pay. */
  predicate Admits(forget: bool, store: Buckets, slots: seq<Slot>, now: real)
    requires RulesValid(slots)
  {
    forall i :: 0 <= i < |slots| ==> !Lacks(forget, store, slots[i], now)
  }

  /** Whole seconds until the bucket can pay, 0 if it can pay now. */
  function Need(forget: bool, store: Buckets, slot: Slot, now: real): (seconds: nat)
    requires slot.rule.Valid()
    ensures 1 <= seconds <==> Lacks(forget, store, slot, now)
  {
    if Lacks(forget, store, slot, now) then
      Ceil((slot.cost as real - SlotLevel(forget, store, slot, now)) / slot.rule.Rate())
    else 0
  }

  /** What the reply counts as left in one bucket. */
  function Remaining(forget: bool, store: Buckets, slot: Slot, now: real): real
    requires slot.rule.Valid()
  {
    var level := SlotLevel(forget, store, slot, now);
    if level < slot.cost as real then level else level - slot.cost as real
  }

  function Needs(forget: bool, store: Buckets, slots: seq<Slot>, now: real): (needs: seq<nat>)
    requires RulesValid(slots)
    ensures |needs| == |slots|
  {
    seq(|slots|, i requires 0 <= i < |slots| => Need(forget, store, slots[i], now))
  }

  function Remainders(forget: bool, store: Buckets, slots: seq<Slot>, now: real): (levels: seq<real>)
    requires RulesValid(slots)
    ensures |levels| == |slots|
  {
    seq(|slots|, i requires 0 <= i < |slots| => Remaining(forget, store, slots[i], now))
  }

  function Least(levels: seq<real>): real
    requires levels != []
  {
    var n := |levels| - 1;
    if n == 0 || levels[n] < Least(levels[..n]) then levels[n] else Least(levels[..n])
  }

  /** The longest of the needs, 0 if there are none. */
  function Longest(needs: seq<nat>): nat {
    if needs == [] then 0
    else
      var n := |needs| - 1;
      if Longest(needs[..n]) < needs[n] then needs[n] else Longest(needs[..n])
  }

  /** 1-based position of the first longest need, 0 if nothing is needed. */
  function FirstLongest(needs: seq<nat>): nat {
    if needs == [] then 0
    else
      var n := |needs| - 1;
      if Longest(needs[..n]) < needs[n] then n + 1 else FirstLongest(needs[..n])
  }

  /** The bucket written back: refilled, and debited if the whole request passed. */
  function Written(forget: bool, store: Buckets, slot: Slot, debit: bool, now: real): Bucket
    requires slot.rule.Valid()
  {
    var level := SlotLevel(forget, store, slot, now);
    Bucket(if debit then level - slot.cost as real else level, now, now + slot.rule.TimeToLive())
  }

  /** The store after the buckets of `slots` are written in order, each from its level in the original store. */
  function WriteAll(forget: bool, store: Buckets, slots: seq<Slot>, debit: bool, now: real): Buckets
    requires RulesValid(slots)
  {
    if slots == [] then store
    else
      var last := slots[|slots| - 1];
      WriteAll(forget, store, slots[..|slots| - 1], debit, now)[last.key := Written(forget, store, last, debit, now)]
  }

  function Script(forget: bool, store: Buckets, slots: seq<Slot>, now: real): (Buckets, Reply)
    requires RulesValid(slots) && slots != []
  {
    var admitted := Admits(forget, store, slots, now);
    (WriteAll(forget, store, slots, admitted, now),
     Reply(admitted, Least(Remainders(forget, store, slots, now)).Floor,
           Longest(Needs(forget, store, slots, now)), FirstLongest(Needs(forget, store, slots, now))))
  }

  /** One call of the limiter; a request without buckets passes untouched. */
  function Check(forget: bool, store: Buckets, slots: seq<Slot>, now: real): (Buckets, Reply)
    requires RulesValid(slots)
  {
    if slots == [] then (store, Reply(true, 0, 0, 0)) else Script(forget, store, slots, now)
  }

  // ---------------------------------------------------------------- histories

  datatype Request = Request(at: real, slots: seq<Slot>)

  predicate DistinctKeys(slots: seq<Slot>) {
    forall i, j :: 0 <= i < j < |slots| ==> slots[i].key != slots[j].key
  }

  /** Each key belongs to one rule, and no request names a key twice. */
  predicate WellFormed(rules: string -> Rule, slots: seq<Slot>) {
    && DistinctKeys(slots)
    && (forall i :: 0 <= i < |slots| ==> slots[i].rule == rules(slots[i].key) && slots[i].rule.Valid())
  }

  /** Requests at nondecreasing times between `from` and `until`. */
  predicate Timely(history: seq<Request>, from: real, until: real) {
    && from <= until
    && (forall i :: 0 <= i < |history| ==> from <= history[i].at <= until)
    && (forall i, j :: 0 <= i < j < |history| ==> history[i].at <= history[j].at)
  }

  predicate AllWellFormed(rules: string -> Rule, history: seq<Request>) {
    forall i :: 0 <= i < |history| ==> WellFormed(rules, history[i].slots)
  }

  ghost function Serve(forget: bool, rules: string -> Rule, store: Buckets, history: seq<Request>): Buckets
    requires AllWellFormed(rules, history)
  {
    if history == [] then store
    else
      var last := history[|history| - 1];
      Check(forget, Serve(forget, rules, store, history[..|history| - 1]), last.slots, last.at).0
  }

  ghost function Replies(forget: bool, rules: string -> Rule, store: Buckets,
                         history: seq<Request>): (replies: seq<Reply>)
    requires AllWellFormed(rules, history)
    ensures |replies| == |history|
  {
    if history == [] then []
    else
      var n := |history| - 1;
      Replies(forget, rules, store, history[..n])
      + [Check(forget, Serve(forget, rules, store, history[..n]), history[n].slots, history[n].at).1]
  }

  /** Total cost that admitted requests of the history charged to one bucket. */
  ghost function Admitted(forget: bool, rules: string -> Rule, store: Buckets, history: seq<Request>, key: string): nat
    requires AllWellFormed(rules, history)
  {
    if history == [] then 0
    else
      var n := |history| - 1;
      Admitted(forget, rules, store, history[..n], key)
      + if Replies(forget, rules, store, history)[n].allowed then CostOn(history[n].slots, key) else 0
  }

  function CostOn(slots: seq<Slot>, key: string): nat {
    if slots == [] then 0
    else CostOn(slots[..|slots| - 1], key) + if slots[|slots| - 1].key == key then slots[|slots| - 1].cost else 0
  }

  /** Every stored bucket holds between 0 and its burst, was last touched in the past, and expires on schedule. */
  ghost predicate StoreOk(rules: string -> Rule, store: Buckets, now: real) {
    forall k :: k in store ==>
      && rules(k).Valid()
      && 0.0 <= store[k].tokens <= rules(k).burst as real
      && store[k].updatedAt <= now
      && store[k].expiresAt == store[k].updatedAt + rules(k).TimeToLive()
  }
}

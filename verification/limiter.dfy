/** The limiter as it runs: the Redis script's two loops, the resolvers that build bucket lists, and the check call. */
module Limiter {
  import opened Domain
  import opened TokenBucket
  import opened RateLaws
  import opened RateRules

  /** The limiter's verdict, as the middleware reads it. */
  datatype Decision = Decision(allowed: bool, limit: nat, remaining: nat, retryAfterSeconds: nat,
                               deniedRule: Option<string>)

  function MaxInt(a: int, b: int): int {
    if a <= b then b else a
  }

  /** How a reply is reported: the bucket that set the retry time heads it, or the first one when none did. */
  function DecisionOf(slots: seq<Slot>, r: Reply): Decision
    requires r.deniedIndex <= |slots|
  {
    if slots == [] then Decision(true, 0, 0, 0, None)
    else
      var head := slots[if r.deniedIndex == 0 then 0 else r.deniedIndex - 1].rule;
      Decision(r.allowed, head.limit, MaxInt(0, r.remaining), MaxInt(0, r.retryAfter),
               if r.allowed then None else Some(head.name))
  }

  /** The Redis server holding the buckets. */
  class BucketServer {
    var buckets: Buckets

    constructor ()
      ensures buckets == map[]
    {
      buckets := map[];
    }

    /** Read one bucket and refill it; a missing or expired hash reads as a full bucket touched just now. */
    method Refill(slot: Slot, now: real) returns (tokens: real)
      requires slot.rule.Valid()
      ensures tokens == SlotLevel(true, buckets, slot, now)
      ensures slot.key !in buckets || buckets[slot.key].expiresAt <= now ==> tokens == slot.rule.burst as real
      ensures slot.key in buckets && now < buckets[slot.key].expiresAt && now <= buckets[slot.key].updatedAt ==>
                tokens == MinReal(slot.rule.burst as real, buckets[slot.key].tokens)
    {
      tokens := slot.rule.burst as real;
      var updatedAt := now;
      if slot.key in buckets && now < buckets[slot.key].expiresAt {
        tokens, updatedAt := buckets[slot.key].tokens, buckets[slot.key].updatedAt;
      }
      var elapsed := MaxReal(0.0, now - updatedAt);
      tokens := slot.rule.Refilled(tokens, elapsed);
      LevelOf(true, buckets, slot, now);
    }

    /** What one bucket has, would have left, and makes the request wait. */
    method Weigh(slot: Slot, now: real) returns (tokens: real, remaining: real, bucketRetryAfter: nat)
      requires slot.rule.Valid()
      ensures tokens == SlotLevel(true, buckets, slot, now)
      ensures remaining == Remaining(true, buckets, slot, now)
      ensures bucketRetryAfter == Need(true, buckets, slot, now)
    {
      var cost := slot.cost as real;
      tokens := Refill(slot, now);
      SlotReading(buckets, slot, now, tokens);
      remaining, bucketRetryAfter := tokens - cost, 0;
      if tokens < cost {
        remaining := tokens;
        bucketRetryAfter := Ceil((cost - tokens) / slot.rule.Rate());
      }
    }

    /** First loop: refill every bucket, and find out whether and how long the request has to wait. */
    method Assess(slots: seq<Slot>, now: real)
      returns (denied: bool, deniedIndex: nat, retryAfter: nat, minRemaining: Option<real>, states: seq<real>)
      requires RulesValid(slots)
      ensures denied == !Admits(true, buckets, slots, now)
      ensures retryAfter == Longest(Needs(true, buckets, slots, now))
      ensures deniedIndex == FirstLongest(Needs(true, buckets, slots, now))
      ensures minRemaining == if slots == [] then None else Some(Least(Remainders(true, buckets, slots, now)))
      ensures |states| == |slots|
      ensures forall j :: 0 <= j < |slots| ==> states[j] == SlotLevel(true, buckets, slots[j], now)
    {
      denied, deniedIndex, retryAfter, minRemaining, states := false, 0, 0, None, [];
      ghost var readings := Readings(buckets, slots, now);
      for i := 0 to |slots|
        invariant |states| == i
        invariant Assessed(readings, denied, deniedIndex, retryAfter, minRemaining, states)
      {
        AssessedNext(readings, denied, deniedIndex, retryAfter, minRemaining, states);
        var tokens, remaining, bucketRetryAfter := Weigh(slots[i], now);
        if tokens < slots[i].cost as real {
          denied := true;
        }
        if bucketRetryAfter > retryAfter {
          retryAfter := bucketRetryAfter;
          deniedIndex := i + 1;
        }
        if minRemaining.None? || remaining < minRemaining.value {
          minRemaining := Some(remaining);
        }
        states := states + [tokens];
      }
      AssessedAll(buckets, slots, now, denied, deniedIndex, retryAfter, minRemaining, states);
    }

    /** Second loop: write every bucket back, debited unless the request was denied. */
    method WriteBack(slots: seq<Slot>, states: seq<real>, denied: bool, now: real)
      requires RulesValid(slots) && |states| == |slots|
      requires forall j :: 0 <= j < |slots| ==> states[j] == SlotLevel(true, buckets, slots[j], now)
      modifies this
      ensures buckets == WriteAll(true, old(buckets), slots, !denied, now)
    {
      for i := 0 to |slots|
        invariant RulesValid(slots[..i])
        invariant buckets == WriteAll(true, old(buckets), slots[..i], !denied, now)
      {
        var tokens := states[i];
        if !denied {
          tokens := tokens - slots[i].cost as real;
        }
        buckets := buckets[slots[i].key := Bucket(tokens, now, now + slots[i].rule.TimeToLive())];
        assert slots[..i + 1][..i] == slots[..i];
      }
      assert slots[..|slots|] == slots;
    }

    /** The token bucket script, run atomically. */
    method Eval(slots: seq<Slot>, now: real) returns (reply: Reply)
      requires slots != [] && RulesValid(slots)
      modifies this
      ensures (buckets, reply) == Script(true, old(buckets), slots, now)
    {
      var denied, deniedIndex, retryAfter, minRemaining, states := Assess(slots, now);
      WriteBack(slots, states, denied, now);
      return Reply(!denied, minRemaining.value.Floor, retryAfter, deniedIndex);
    }
  }

  /** A missing bucket and a bucket touched just now read the same: full. */
  lemma LevelOf(forget: bool, store: Buckets, slot: Slot, now: real)
    requires slot.rule.Valid()
    ensures SlotLevel(forget, store, slot, now)
         == if Alive(forget, store, slot.key, now)
            then slot.rule.Refilled(store[slot.key].tokens, MaxReal(0.0, now - store[slot.key].updatedAt))
            else slot.rule.Refilled(slot.rule.burst as real, MaxReal(0.0, now - now))
  {
  }

  lemma SlotReading(store: Buckets, slot: Slot, now: real, tokens: real)
    requires slot.rule.Valid() && tokens == SlotLevel(true, store, slot, now)
    ensures Lacks(true, store, slot, now) <==> tokens < slot.cost as real
    ensures Need(true, store, slot, now)
         == if tokens < slot.cost as real then Ceil((slot.cost as real - tokens) / slot.rule.Rate()) else 0
    ensures Remaining(true, store, slot, now)
         == if tokens < slot.cost as real then tokens else tokens - slot.cost as real
  {
  }

  /** What the script learns about one bucket. */
  datatype Reading = Reading(level: real, remaining: real, need: nat, lacks: bool)

  ghost function Readings(store: Buckets, slots: seq<Slot>, now: real): (readings: seq<Reading>)
    requires RulesValid(slots)
    ensures |readings| == |slots|
  {
    seq(|slots|, i requires 0 <= i < |slots| =>
      Reading(SlotLevel(true, store, slots[i], now), Remaining(true, store, slots[i], now),
              Need(true, store, slots[i], now), Lacks(true, store, slots[i], now)))
  }

  ghost function NeedsIn(readings: seq<Reading>): (needs: seq<nat>)
    ensures |needs| == |readings|
  {
    seq(|readings|, i requires 0 <= i < |readings| => readings[i].need)
  }

  ghost function RemaindersIn(readings: seq<Reading>): (levels: seq<real>)
    ensures |levels| == |readings|
  {
    seq(|readings|, i requires 0 <= i < |readings| => readings[i].remaining)
  }

  /** What the first loop knows after |states| buckets. */
  ghost predicate Assessed(readings: seq<Reading>, denied: bool, deniedIndex: nat, retryAfter: nat,
                           minRemaining: Option<real>, states: seq<real>)
    requires |states| <= |readings|
  {
    var i := |states|;
    && (denied <==> exists j :: 0 <= j < i && readings[j].lacks)
    && retryAfter == Longest(NeedsIn(readings)[..i])
    && deniedIndex == FirstLongest(NeedsIn(readings)[..i])
    && minRemaining == (if i == 0 then None else Some(Least(RemaindersIn(readings)[..i])))
    && (forall j :: 0 <= j < i ==> states[j] == readings[j].level)
  }

  lemma AssessedNext(readings: seq<Reading>, denied: bool, deniedIndex: nat, retryAfter: nat,
                     minRemaining: Option<real>, states: seq<real>)
    requires |states| < |readings|
    requires Assessed(readings, denied, deniedIndex, retryAfter, minRemaining, states)
    ensures var r := readings[|states|];
            Assessed(readings, denied || r.lacks,
                     if retryAfter < r.need then |states| + 1 else deniedIndex,
                     if retryAfter < r.need then r.need else retryAfter,
                     if minRemaining.None? || r.remaining < minRemaining.value then Some(r.remaining) else minRemaining,
                     states + [r.level])
  {
    var i, needs, remainders := |states|, NeedsIn(readings), RemaindersIn(readings);
    assert needs[..i + 1][..i] == needs[..i] && remainders[..i + 1][..i] == remainders[..i];
  }

  lemma AssessedAll(store: Buckets, slots: seq<Slot>, now: real, denied: bool, deniedIndex: nat, retryAfter: nat,
                    minRemaining: Option<real>, states: seq<real>)
    requires RulesValid(slots) && |states| == |slots|
    requires Assessed(Readings(store, slots, now), denied, deniedIndex, retryAfter, minRemaining, states)
    ensures denied == !Admits(true, store, slots, now)
    ensures retryAfter == Longest(Needs(true, store, slots, now))
    ensures deniedIndex == FirstLongest(Needs(true, store, slots, now))
    ensures minRemaining == if slots == [] then None else Some(Least(Remainders(true, store, slots, now)))
    ensures forall j :: 0 <= j < |slots| ==> states[j] == SlotLevel(true, store, slots[j], now)
  {
    var readings := Readings(store, slots, now);
    assert NeedsIn(readings)[..|slots|] == Needs(true, store, slots, now);
    assert RemaindersIn(readings)[..|slots|] == Remainders(true, store, slots, now);
    assert forall i :: 0 <= i < |slots| ==> readings[i].lacks == Lacks(true, store, slots[i], now);
  }

  lemma {:induction false} IndexInRange(store: Buckets, slots: seq<Slot>, now: real)
    requires slots != [] && RulesValid(slots)
    ensures Script(true, store, slots, now).1.deniedIndex <= |slots|
  {
    FirstLongestIsFirst(Needs(true, store, slots, now));
  }

  class RateLimiter {
    const server: BucketServer
    const keyPrefix: string
    const settings: Settings

    constructor (server: BucketServer, keyPrefix: string, settings: Settings)
      ensures this.server == server && this.keyPrefix == keyPrefix && this.settings == settings
    {
      this.server := server;
      this.keyPrefix := keyPrefix;
      this.settings := settings;
    }

    /** The decision and the server's new state are those of one atomic check of the request's buckets. */
    method Check(limits: seq<Resolved>, now: real) returns (decision: Decision)
      requires settings.Valid()
      modifies server
      ensures RulesValid(Slots(settings, keyPrefix, limits))
      ensures var slots := Slots(settings, keyPrefix, limits);
              var (after, r) := TokenBucket.Check(true, old(server.buckets), slots, now);
              server.buckets == after && r.deniedIndex <= |slots| && decision == DecisionOf(slots, r)
      ensures limits == [] ==> decision == Decision(true, 0, 0, 0, None) && server.buckets == old(server.buckets)
    {
      if limits == [] {
        return Decision(true, 0, 0, 0, None);
      }
      var slots := KeyedBuckets(limits);
      IndexInRange(server.buckets, slots, now);
      var reply := server.Eval(slots, now);
      decision := Report(slots, reply);
    }

    method KeyedBuckets(limits: seq<Resolved>) returns (slots: seq<Slot>)
      ensures slots == Slots(settings, keyPrefix, limits)
    {
      slots := [];
      for i := 0 to |limits|
        invariant slots == Slots(settings, keyPrefix, limits)[..i]
      {
        slots := slots + [SlotFor(settings, keyPrefix, limits[i])];
      }
    }

    /** The reply as a decision, headed by the bucket that set the retry time or else the first one. */
    method Report(slots: seq<Slot>, reply: Reply) returns (decision: Decision)
      requires slots != [] && reply.deniedIndex <= |slots|
      ensures decision == DecisionOf(slots, reply)
    {
      var headerIndex := if reply.deniedIndex - 1 >= 0 then reply.deniedIndex - 1 else 0;
      var header := slots[headerIndex].rule;
      return Decision(reply.allowed, header.limit, MaxInt(0, reply.remaining), MaxInt(0, reply.retryAfter),
                      if reply.allowed then None else Some(header.name));
    }
  }

  lemma RemainingNeverNegative(rules: string -> Rule, store: Buckets, slots: seq<Slot>, now: real)
    requires slots != [] && WellFormed(rules, slots) && StoreOk(rules, store, now)
    ensures 0 <= Script(true, store, slots, now).1.remaining
  {
    var remainders := Remainders(true, store, slots, now);
    forall i | 0 <= i < |slots|
      ensures 0.0 <= remainders[i]
    {
      LevelInRange(true, rules, store, slots[i].key, now);
    }
    LeastIsOne(remainders);
  }

  /** An admitted request has nothing to wait for. */
  lemma AllowedReply(store: Buckets, slots: seq<Slot>, now: real)
    requires slots != [] && RulesValid(slots) && Script(true, store, slots, now).1.allowed
    ensures var r := Script(true, store, slots, now).1;
      r.retryAfter == 0 && r.deniedIndex == 0
  {
    var needs := Needs(true, store, slots, now);
    forall i | 0 <= i < |slots|
      ensures needs[i] == 0
    {
      assert !Lacks(true, store, slots[i], now);
    }
    LongestOfNone(needs);
  }

  /** The decision names bucket k, the first of those that have to wait longest. */
  ghost predicate Names(d: Decision, slots: seq<Slot>, needs: seq<nat>, k: nat)
    requires |needs| == |slots|
  {
    && k < |slots|
    && d.deniedRule == Some(slots[k].rule.name)
    && d.limit == slots[k].rule.limit
    && needs[k] == d.retryAfterSeconds
    && (forall i :: 0 <= i < k ==> needs[i] < d.retryAfterSeconds)
    && (forall i :: 0 <= i < |needs| ==> needs[i] <= d.retryAfterSeconds)
  }

  /** The reply is passed on unclamped; an admission is headed by the first rule, a denial by the one it waits for. */
  ghost predicate Reported(d: Decision, slots: seq<Slot>, r: Reply, needs: seq<nat>)
    requires slots != [] && |needs| == |slots|
  {
    && d.allowed == r.allowed
    && d.remaining == r.remaining
    && d.retryAfterSeconds == r.retryAfter
    && (d.allowed ==> d.deniedRule.None? && d.limit == slots[0].rule.limit && d.retryAfterSeconds == 0)
    && (!d.allowed ==>
          && 1 <= d.retryAfterSeconds
          && 1 <= r.deniedIndex
          && Names(d, slots, needs, r.deniedIndex - 1))
  }

  lemma {:induction false} ReplyReported(rules: string -> Rule, store: Buckets, slots: seq<Slot>, now: real)
    requires slots != [] && WellFormed(rules, slots) && StoreOk(rules, store, now)
    ensures var r := Script(true, store, slots, now).1;
      r.deniedIndex <= |slots| && Reported(DecisionOf(slots, r), slots, r, Needs(true, store, slots, now))
  {
    RemainingNeverNegative(rules, store, slots, now);
    if Script(true, store, slots, now).1.allowed {
      AllowedReply(store, slots, now);
    } else {
      DenialReply(true, store, slots, now);
    }
  }

  /**
   * What a client is told. Neither clamp ever bites: the remaining count is what the emptiest bucket is left with and
   * never negative, a denial always carries a positive retry time, and it names the first rule that has to wait that
   * long.
   */
  lemma {:induction false} DecisionTellsAll(rules: string -> Rule, store: Buckets, slots: seq<Slot>, now: real)
    requires slots != [] && WellFormed(rules, slots) && StoreOk(rules, store, now)
    ensures var r := Script(true, store, slots, now).1;
      && r.deniedIndex <= |slots|
      && var d := DecisionOf(slots, r);
      && LeastLeft(true, store, slots, now, d.allowed, d.remaining)
      && Reported(d, slots, r, Needs(true, store, slots, now))
  {
    ReplyReported(rules, store, slots, now);
    RemainingIsLeast(true, store, slots, now);
  }

  lemma {:induction false} LongestOfNone(needs: seq<nat>)
    requires forall i :: 0 <= i < |needs| ==> needs[i] == 0
    ensures Longest(needs) == 0 && FirstLongest(needs) == 0
  {
    if needs != [] {
      LongestOfNone(needs[..|needs| - 1]);
    }
  }

  // ---------------------------------------------------------------- the gateway's own requests

  /** A request as it reaches the middleware. */
  datatype Arrival = Arrival(at: real, route: Route, identity: string)

  function Requests(settings: Settings, prefix: string, arrivals: seq<Arrival>): (history: seq<Request>)
    ensures |history| == |arrivals|
  {
    seq(|arrivals|, i requires 0 <= i < |arrivals| =>
      Request(arrivals[i].at, Slots(settings, prefix, Resolve(arrivals[i].route, arrivals[i].identity))))
  }

  lemma {:induction false} RequestsWellFormed(settings: Settings, prefix: string, arrivals: seq<Arrival>)
    requires settings.Valid()
    ensures AllWellFormed(RulesOf(settings, prefix), Requests(settings, prefix, arrivals))
  {
    forall i | 0 <= i < |arrivals|
      ensures WellFormed(RulesOf(settings, prefix), Requests(settings, prefix, arrivals)[i].slots)
    {
      ResolvedWellFormed(settings, prefix, arrivals[i].route, arrivals[i].identity);
    }
  }

  /**
   * Properties 6 and 16 together. On any traffic over all routes, every bucket admits at most its burst plus its rate
   * times the interval, although the server forgets idle buckets, if the burst is at most twice the limit.
   */
  lemma {:induction false} GatewayRateBound(settings: Settings, prefix: string, before: seq<Arrival>,
                                            during: seq<Arrival>,
                         start: real, from: real, until: real, key: string)
    requires settings.Valid() && RefillsInTime(RulesOf(settings, prefix)(key))
    requires Timely(Requests(settings, prefix, before), start, from)
    requires Timely(Requests(settings, prefix, during), from, until)
    ensures AllWellFormed(RulesOf(settings, prefix), Requests(settings, prefix, before))
    ensures AllWellFormed(RulesOf(settings, prefix), Requests(settings, prefix, during))
    ensures RulesOf(settings, prefix)(key).Valid()
    ensures WithinRate(true, RulesOf(settings, prefix), Requests(settings, prefix, before),
                       Requests(settings, prefix, during), from, until, key)
  {
    RequestsWellFormed(settings, prefix, before);
    RequestsWellFormed(settings, prefix, during);
    RateBound(true, RulesOf(settings, prefix), Requests(settings, prefix, before), Requests(settings, prefix, during),
              start, from, until, key);
  }

  // ---------------------------------------------------------------- resolvers

  /** Everything in the list counts: an element that is no object, or has no express priority, is a normal message. */
  method CountBatchPriorities(messages: Elements) returns (normalCount: nat, expressCount: nat)
    ensures expressCount == ExpressCount(messages) && normalCount == NormalCount(messages)
    ensures normalCount + expressCount == if messages.List? then |messages.elements| else 0
  {
    normalCount, expressCount := 0, 0;
    if messages.NotAList? {
      return;
    }
    for i := 0 to |messages.elements|
      invariant expressCount == ExpressIn(messages.elements[..i])
      invariant normalCount + expressCount == i
    {
      assert messages.elements[..i + 1][..i] == messages.elements[..i];
      match messages.elements[i]
      case NotAnObject =>
        normalCount := normalCount + 1;
      case Fields(priority) =>
        if priority == Text("express") {
          expressCount := expressCount + 1;
        } else {
          normalCount := normalCount + 1;
        }
    }
    assert messages.elements[..|messages.elements|] == messages.elements;
  }

  /** What a submission of `cost` messages costs the buckets of one kind, by flag. */
  function SubmissionCost(family: Family, cost: nat, includeSystemRequest: bool, includeSystemMessages: bool,
                          kind: Kind)
    : nat
  {
    match kind
    case Own(f) => if f == family then cost else 0
    case Global(f) => if f == family then cost else 0
    case SystemMessages => if includeSystemMessages then cost else 0
    case SystemRequests => if includeSystemRequest then 1 else 0
  }

  lemma SubmissionCharges(family: Family, identity: string, cost: nat, includeSystemRequest: bool,
                          includeSystemMessages: bool, kind: Kind)
    ensures var limits := SubmissionLimits(family, identity, cost)
                          + (if includeSystemMessages then SystemMessageLimits(cost) else [])
                          + (if includeSystemRequest then SystemRequestLimits() else []);
            CostOfKind(limits, kind) == SubmissionCost(family, cost, includeSystemRequest, includeSystemMessages, kind)
  {
    var pair := SubmissionLimits(family, identity, cost);
    var messages := if includeSystemMessages then SystemMessageLimits(cost) else [];
    CostOfPair(family, identity, cost, kind);
    CostOfOne(Resolved(SystemMessages, SYSTEM_IDENTITY, cost), kind);
    CostOfOne(Resolved(SystemRequests, SYSTEM_IDENTITY, 1), kind);
    CostOfConcat(pair, messages, kind);
    CostOfConcat(pair + messages, if includeSystemRequest then SystemRequestLimits() else [], kind);
  }

  lemma SubmissionDistinct(family: Family, identity: string, cost: nat, includeSystemRequest: bool,
                           includeSystemMessages: bool)
    ensures DistinctKinds(SubmissionLimits(family, identity, cost)
                          + (if includeSystemMessages then SystemMessageLimits(cost) else [])
                          + (if includeSystemRequest then SystemRequestLimits() else []))
  {
    var pair := SubmissionLimits(family, identity, cost);
    var messages := if includeSystemMessages then SystemMessageLimits(cost) else [];
    PairDistinct(family, identity, cost);
    OneDistinct(Resolved(SystemMessages, SYSTEM_IDENTITY, cost));
    OneDistinct(Resolved(SystemRequests, SYSTEM_IDENTITY, 1));
    assert Kinds([]) == {};
    DistinctConcat(pair, messages);
    DistinctConcat(pair + messages, if includeSystemRequest then SystemRequestLimits() else []);
  }

  /** No rule is charged twice, and each kind is charged what its flag says; the order is the caller's concern. */
  method MessageLimits(family: Family, identity: string, cost: nat, includeSystemRequest: bool,
                       includeSystemMessages: bool)
    returns (limits: seq<Resolved>)
    ensures DistinctKinds(limits)
    ensures forall kind :: CostOfKind(limits, kind)
                        == SubmissionCost(family, cost, includeSystemRequest, includeSystemMessages, kind)
    ensures limits == SubmissionLimits(family, identity, cost)
                      + (if includeSystemMessages then SystemMessageLimits(cost) else [])
                      + (if includeSystemRequest then SystemRequestLimits() else [])
  {
    limits := [Resolved(Own(family), identity, cost), Resolved(Global(family), GLOBAL_IDENTITY, cost)];
    if includeSystemMessages {
      limits := limits + [Resolved(SystemMessages, SYSTEM_IDENTITY, cost)];
    }
    if includeSystemRequest {
      limits := limits + SystemRequestLimits();
    }
    assert limits == SubmissionLimits(family, identity, cost)
                     + (if includeSystemMessages then SystemMessageLimits(cost) else [])
                     + (if includeSystemRequest then SystemRequestLimits() else []);
    SubmissionDistinct(family, identity, cost, includeSystemRequest, includeSystemMessages);
    forall kind
      ensures CostOfKind(limits, kind)
           == SubmissionCost(family, cost, includeSystemRequest, includeSystemMessages, kind)
    {
      SubmissionCharges(family, identity, cost, includeSystemRequest, includeSystemMessages, kind);
    }
  }

  method ResolveSingleMessageLimits(priority: PriorityField, identity: string) returns (limits: seq<Resolved>)
    ensures limits == Resolve(SingleMessage(priority), identity)
  {
    limits := MessageLimits(FamilyFor(priority), identity, 1, true, true);
  }

  method ResolveBatchMessageLimits(messages: Elements, identity: string) returns (limits: seq<Resolved>)
    ensures limits == Resolve(Batch(messages), identity)
  {
    var normalCount, expressCount := CountBatchPriorities(messages);
    var totalCount := normalCount + expressCount;
    limits := [Resolved(Own(BatchRequests), identity, 1), Resolved(Global(BatchRequests), GLOBAL_IDENTITY, 1)];
    if normalCount != 0 {
      var more := MessageLimits(NormalMessages, identity, normalCount, false, false);
      limits := limits + more;
    }
    if expressCount != 0 {
      var more := MessageLimits(ExpressMessages, identity, expressCount, false, false);
      limits := limits + more;
    }
    if totalCount != 0 {
      limits := limits + [Resolved(SystemMessages, SYSTEM_IDENTITY, totalCount)];
    }
    limits := limits + SystemRequestLimits();
  }
}

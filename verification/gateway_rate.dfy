/** The gateway's rate bound is exact: which settings keep it on all traffic, and what traffic breaks it otherwise. */
module GatewayRate {
  import opened Domain
  import opened TokenBucket
  import opened RateLaws
  import opened RateSharpness
  import opened RateRules
  import opened RateCharges
  import opened Limiter

  // ---------------------------------------------------------------- traffic of cost 1

  /** A request that charges one family, or only the system's request bucket. */
  function RouteFor(target: Option<Family>): Route {
    match target
    case None => OtherApi
    case Some(ExpressMessages) => SingleMessage(Text("express"))
    case Some(NormalMessages) => SingleMessage(Missing)
    case Some(BatchRequests) => Batch(NotAList)
    case Some(family) => Endpoint(family)
  }

  predicate CountsMessages(target: Option<Family>) {
    target == Some(ExpressMessages) || target == Some(NormalMessages)
  }

  /** The bucket of one kind that this request charges. */
  predicate Charges(target: Option<Family>, identity: string, r: Resolved) {
    match r.kind
    case Own(f) => target == Some(f) && r.identity == identity
    case Global(f) => target == Some(f) && r.identity == GLOBAL_IDENTITY
    case SystemMessages => CountsMessages(target) && r.identity == SYSTEM_IDENTITY
    case SystemRequests => r.identity == SYSTEM_IDENTITY
  }

  lemma RouteCharges(target: Option<Family>, identity: string, r: Resolved)
    ensures r in Resolve(RouteFor(target), identity) <==> r.cost == 1 && Charges(target, identity, r)
  {
    if target.Some? {
      assert Resolve(RouteFor(target), identity)
          == SubmissionLimits(target.value, identity, 1)
             + (if CountsMessages(target) then SystemMessageLimits(1) else [])
             + SystemRequestLimits();
    }
  }

  /** The keys of the request's slots are the keys of the buckets it charges. */
  lemma HitsIffSlot(settings: Settings, prefix: string, target: Option<Family>, identity: string, key: string)
    ensures var slots := Slots(settings, prefix, Resolve(RouteFor(target), identity));
            Hits(prefix, target, identity, key) <==> exists i :: 0 <= i < |slots| && slots[i].key == key
  {
    var limits := Resolve(RouteFor(target), identity);
    if Hits(prefix, target, identity, key) {
      var r: Resolved :| r.cost == 1 && Charges(target, identity, r) && KeyFor(prefix, r) == key;
      RouteCharges(target, identity, r);
      var i :| 0 <= i < |limits| && limits[i] == r;
      assert Slots(settings, prefix, limits)[i].key == key;
    }
    forall i | 0 <= i < |limits| && Slots(settings, prefix, limits)[i].key == key
      ensures Hits(prefix, target, identity, key)
    {
      assert limits[i] in limits;
      RouteCharges(target, identity, limits[i]);
    }
  }

  lemma UnitCosts(settings: Settings, prefix: string, target: Option<Family>, identity: string)
    ensures var slots := Slots(settings, prefix, Resolve(RouteFor(target), identity));
            forall i :: 0 <= i < |slots| ==> slots[i].cost == 1
  {
    var limits := Resolve(RouteFor(target), identity);
    forall i | 0 <= i < |limits|
      ensures limits[i].cost == 1
    {
      assert limits[i] in limits;
      RouteCharges(target, identity, limits[i]);
    }
  }

  /** The request's cost on any key: 1 if it is the key of a bucket it charges. */
  lemma CostOfRoute(settings: Settings, prefix: string, target: Option<Family>, identity: string, key: string)
    requires settings.Valid()
    ensures CostOn(Slots(settings, prefix, Resolve(RouteFor(target), identity)), key)
         == if Hits(prefix, target, identity, key) then 1 else 0
  {
    ResolvedWellFormed(settings, prefix, RouteFor(target), identity);
    CostOnAt(Slots(settings, prefix, Resolve(RouteFor(target), identity)), key);
    HitsIffSlot(settings, prefix, target, identity, key);
    UnitCosts(settings, prefix, target, identity);
  }

  ghost predicate Hits(prefix: string, target: Option<Family>, identity: string, key: string) {
    exists r: Resolved :: r.cost == 1 && Charges(target, identity, r) && KeyFor(prefix, r) == key
  }

  lemma HitsOwnKey(prefix: string, target: Option<Family>, identity: string, r: Resolved)
    requires r.cost == 1
    ensures Hits(prefix, target, identity, KeyFor(prefix, r)) <==> Charges(target, identity, r)
  {
    forall x: Resolved | x.cost == 1 && KeyFor(prefix, x) == KeyFor(prefix, r)
      ensures x == r
    {
      KeysIdentify(prefix, x, r);
    }
  }

  lemma CostOnKey(settings: Settings, prefix: string, target: Option<Family>, identity: string, r: Resolved)
    requires settings.Valid() && r.cost == 1
    ensures CostOn(Slots(settings, prefix, Resolve(RouteFor(target), identity)), KeyFor(prefix, r))
         == if Charges(target, identity, r) then 1 else 0
  {
    CostOfRoute(settings, prefix, target, identity, KeyFor(prefix, r));
    HitsOwnKey(prefix, target, identity, r);
  }

  function Traffic(targets: nat -> Option<Family>, ids: nat -> string, n: nat): seq<Arrival> {
    seq(n, (i: nat) => Arrival(0.0, RouteFor(targets(i)), ids(i)))
  }

  /** How many of the first n requests charge the bucket. */
  function Count(targets: nat -> Option<Family>, ids: nat -> string, r: Resolved, n: nat): nat {
    if n == 0 then 0
    else Count(targets, ids, r, n - 1) + if Charges(targets(n - 1), ids(n - 1), r) then 1 else 0
  }

  lemma TrafficPrefix(settings: Settings, prefix: string, targets: nat -> Option<Family>, ids: nat -> string, n: nat)
    requires n != 0
    ensures var history := Requests(settings, prefix, Traffic(targets, ids, n));
      && history[..n - 1] == Requests(settings, prefix, Traffic(targets, ids, n - 1))
      && history[n - 1].slots == Slots(settings, prefix, Resolve(RouteFor(targets(n - 1)), ids(n - 1)))
  {
  }

  lemma OneMoreAsks(settings: Settings, prefix: string, targets: nat -> Option<Family>, ids: nat -> string, n: nat,
                    key: string)
    requires n != 0
    ensures Asked(Requests(settings, prefix, Traffic(targets, ids, n)), key)
         == Asked(Requests(settings, prefix, Traffic(targets, ids, n - 1)), key)
            + CostOn(Slots(settings, prefix, Resolve(RouteFor(targets(n - 1)), ids(n - 1))), key)
  {
    TrafficPrefix(settings, prefix, targets, ids, n);
  }

  lemma {:induction false} TrafficAsks(settings: Settings, prefix: string, targets: nat -> Option<Family>,
                                       ids: nat -> string, n: nat, r: Resolved)
    requires settings.Valid() && r.cost == 1
    ensures Asked(Requests(settings, prefix, Traffic(targets, ids, n)), KeyFor(prefix, r)) == Count(targets, ids, r, n)
  {
    if n != 0 {
      OneMoreAsks(settings, prefix, targets, ids, n, KeyFor(prefix, r));
      TrafficAsks(settings, prefix, targets, ids, n - 1, r);
      CostOnKey(settings, prefix, targets(n - 1), ids(n - 1), r);
    }
  }

  /** Traffic asks nothing of a key that is not one of the gateway's. */
  lemma {:induction false} TrafficAsksKeys(settings: Settings, prefix: string, targets: nat -> Option<Family>,
                                           ids: nat -> string, n: nat, key: string)
    requires settings.Valid() && 0 < Asked(Requests(settings, prefix, Traffic(targets, ids, n)), key)
    ensures exists r: Resolved :: r.cost == 1 && KeyFor(prefix, r) == key
  {
    if n != 0 {
      OneMoreAsks(settings, prefix, targets, ids, n, key);
      CostOfRoute(settings, prefix, targets(n - 1), ids(n - 1), key);
      if !Hits(prefix, targets(n - 1), ids(n - 1), key) {
        TrafficAsksKeys(settings, prefix, targets, ids, n - 1, key);
      }
    }
  }

  // ---------------------------------------------------------------- counting

  lemma {:induction false} CountAtMost(targets: nat -> Option<Family>, ids: nat -> string, r: Resolved, n: nat)
    ensures Count(targets, ids, r, n) <= n
  {
    if n != 0 {
      CountAtMost(targets, ids, r, n - 1);
    }
  }

  lemma {:induction false} CountAll(targets: nat -> Option<Family>, ids: nat -> string, r: Resolved, n: nat)
    requires forall i: nat :: i < n ==> Charges(targets(i), ids(i), r)
    ensures Count(targets, ids, r, n) == n
  {
    if n != 0 {
      CountAll(targets, ids, r, n - 1);
    }
  }

  lemma {:induction false} CountNone(targets: nat -> Option<Family>, ids: nat -> string, r: Resolved, m: nat, n: nat)
    requires m <= n && forall i: nat :: m <= i < n ==> !Charges(targets(i), ids(i), r)
    ensures Count(targets, ids, r, n) == Count(targets, ids, r, m)
  {
    if m < n {
      CountNone(targets, ids, r, m, n - 1);
    }
  }

  /** Requests by different users charge each user's bucket at most once. */
  lemma {:induction false} CountFresh(targets: nat -> Option<Family>, ids: nat -> string, r: Resolved, n: nat)
    requires r.kind.Own? && forall i: nat, j: nat :: i < j < n ==> ids(i) != ids(j)
    ensures Count(targets, ids, r, n) <= 1
  {
    if n != 0 {
      if Charges(targets(n - 1), ids(n - 1), r) {
        CountNone(targets, ids, r, 0, n - 1);
      } else {
        CountFresh(targets, ids, r, n - 1);
      }
    }
  }

  // ---------------------------------------------------------------- draining each kind of bucket

  /** Identities told apart by their length. */
  function Fresh(i: nat): (identity: string)
    ensures |identity| == i
  {
    seq(i, _ => 'x')
  }

  /**
   * Wider buckets are at least as deep: a user's below everybody's, everybody's below the system's, and the system's
   * message bucket no deeper than the two message families together or the system's request bucket.
   */
  ghost predicate Nested(settings: Settings) {
    && (forall f: Family :: settings.burst(Own(f)) <= settings.burst(Global(f)) <= settings.burst(SystemRequests))
    && settings.burst(Global(NormalMessages)) <= settings.burst(SystemMessages)
    && settings.burst(Global(ExpressMessages)) <= settings.burst(SystemMessages)
    && settings.burst(SystemMessages) <= settings.burst(SystemRequests)
    && settings.burst(SystemMessages)
         <= settings.burst(Global(NormalMessages)) + settings.burst(Global(ExpressMessages))
  }

  /** Traffic at one moment that every full bucket can pay, and that empties this one. */
  ghost predicate Drains(settings: Settings, targets: nat -> Option<Family>, ids: nat -> string, n: nat, r: Resolved) {
    && (forall x: Resolved {:trigger Count(targets, ids, x, n)} ::
          x.cost == 1 ==> Count(targets, ids, x, n) <= settings.burst(x.kind))
    && Count(targets, ids, r, n) == settings.burst(r.kind)
  }

  function Always(target: Option<Family>): nat -> Option<Family> {
    (i: nat) => target
  }

  function SameUser(identity: string): nat -> string {
    (i: nat) => identity
  }

  function OwnUsers(): nat -> string {
    (i: nat) => Fresh(i)
  }

  /** m normal messages, then express ones. */
  function Mixed(m: nat): nat -> Option<Family> {
    (i: nat) => if i < m then Some(NormalMessages) else Some(ExpressMessages)
  }

  /** One user's own bucket, by that user alone. */
  lemma DrainsOwn(settings: Settings, f: Family, identity: string)
    requires settings.Valid() && Nested(settings)
    ensures Drains(settings, Always(Some(f)), SameUser(identity), settings.burst(Own(f)), Resolved(Own(f), identity, 1))
  {
    var targets, ids, n := Always(Some(f)), SameUser(identity), settings.burst(Own(f));
    forall x: Resolved | x.cost == 1
      ensures Count(targets, ids, x, n) <= settings.burst(x.kind)
    {
      CountAtMost(targets, ids, x, n);
      if !Charges(Some(f), identity, x) {
        CountNone(targets, ids, x, 0, n);
      }
    }
    CountAll(targets, ids, Resolved(Own(f), identity, 1), n);
  }

  /** Everybody's bucket, by as many users as it takes. */
  lemma DrainsGlobal(settings: Settings, f: Family)
    requires settings.Valid() && Nested(settings)
    ensures Drains(settings, Always(Some(f)), OwnUsers(), settings.burst(Global(f)),
                   Resolved(Global(f), GLOBAL_IDENTITY, 1))
  {
    var targets, ids, n := Always(Some(f)), OwnUsers(), settings.burst(Global(f));
    forall x: Resolved | x.cost == 1
      ensures Count(targets, ids, x, n) <= settings.burst(x.kind)
    {
      CountAtMost(targets, ids, x, n);
      if x.kind.Own? {
        CountFresh(targets, ids, x, n);
      } else if !Charges(Some(f), "", x) {
        CountNone(targets, ids, x, 0, n);
      }
    }
    CountAll(targets, ids, Resolved(Global(f), GLOBAL_IDENTITY, 1), n);
  }

  /** The system's request bucket, by requests that charge nothing else. */
  lemma DrainsRequests(settings: Settings)
    requires settings.Valid()
    ensures Drains(settings, Always(None), OwnUsers(), settings.burst(SystemRequests),
                   Resolved(SystemRequests, SYSTEM_IDENTITY, 1))
  {
    var targets, ids, n := Always(None), OwnUsers(), settings.burst(SystemRequests);
    forall x: Resolved | x.cost == 1
      ensures Count(targets, ids, x, n) <= settings.burst(x.kind)
    {
      CountAtMost(targets, ids, x, n);
      if !Charges(None, "", x) {
        CountNone(targets, ids, x, 0, n);
      }
    }
    CountAll(targets, ids, Resolved(SystemRequests, SYSTEM_IDENTITY, 1), n);
  }

  /** How many of the mixed messages are normal. */
  function NormalShare(settings: Settings): nat {
    Min(settings.burst(SystemMessages), settings.burst(Global(NormalMessages)))
  }

  lemma {:induction false} CountExpress(ids: nat -> string, m: nat, r: Resolved, n: nat)
    requires r.kind == Global(ExpressMessages) && m <= n
    ensures Count(Mixed(m), ids, r, n) <= n - m
  {
    if m < n {
      CountExpress(ids, m, r, n - 1);
    } else {
      CountNone(Mixed(m), ids, r, 0, n);
    }
  }

  lemma MixedWithin(settings: Settings, x: Resolved)
    requires settings.Valid() && Nested(settings) && x.cost == 1
    ensures Count(Mixed(NormalShare(settings)), OwnUsers(), x, settings.burst(SystemMessages)) <= settings.burst(x.kind)
  {
    var m, n := NormalShare(settings), settings.burst(SystemMessages);
    var targets, ids := Mixed(m), OwnUsers();
    CountAtMost(targets, ids, x, n);
    match x.kind
    case Own(_) => CountFresh(targets, ids, x, n);
    case Global(NormalMessages) =>
      CountNone(targets, ids, x, m, n);
      CountAtMost(targets, ids, x, m);
    case Global(ExpressMessages) => CountExpress(ids, m, x, n);
    case Global(_) => CountNone(targets, ids, x, 0, n);
    case SystemMessages =>
    case SystemRequests =>
  }

  /** The system's message bucket, by a mixture of normal and express messages of many users. */
  lemma DrainsMessages(settings: Settings)
    requires settings.Valid() && Nested(settings)
    ensures Drains(settings, Mixed(NormalShare(settings)), OwnUsers(), settings.burst(SystemMessages),
                   Resolved(SystemMessages, SYSTEM_IDENTITY, 1))
  {
    var targets, ids, n := Mixed(NormalShare(settings)), OwnUsers(), settings.burst(SystemMessages);
    forall x: Resolved | x.cost == 1
      ensures Count(targets, ids, x, n) <= settings.burst(x.kind)
    {
      MixedWithin(settings, x);
    }
    CountAll(targets, ids, Resolved(SystemMessages, SYSTEM_IDENTITY, 1), n);
  }

  // ---------------------------------------------------------------- the bound is exact

  function Later(arrivals: seq<Arrival>, now: real): (later: seq<Arrival>)
    ensures |later| == |arrivals|
  {
    seq(|arrivals|, i requires 0 <= i < |arrivals| => arrivals[i].(at := now))
  }

  const TTL: real := (2 * WINDOW_SECONDS) as real

  lemma DrainIsBurst(settings: Settings, prefix: string, targets: nat -> Option<Family>, ids: nat -> string, n: nat,
                     r: Resolved)
    requires settings.Valid() && r.cost == 1 && Drains(settings, targets, ids, n, r)
    ensures Burst(RulesOf(settings, prefix), Requests(settings, prefix, Traffic(targets, ids, n)), TTL)
  {
    var rules, history := RulesOf(settings, prefix), Requests(settings, prefix, Traffic(targets, ids, n));
    RequestsWellFormed(settings, prefix, Traffic(targets, ids, n));
    forall k
      ensures Asked(history, k) <= rules(k).burst
    {
      if 0 < Asked(history, k) {
        TrafficAsksKeys(settings, prefix, targets, ids, n, k);
        var x: Resolved :| x.cost == 1 && KeyFor(prefix, x) == k;
        TrafficAsks(settings, prefix, targets, ids, n, x);
        OwnRule(settings, prefix, x);
      }
    }
  }

  /** The bound, for one bucket, on all traffic over all routes. */
  ghost predicate Bounded(settings: Settings, prefix: string, key: string)
    requires settings.Valid()
  {
    forall before: seq<Arrival>, during: seq<Arrival>, start: real, from: real, until: real ::
      && Timely(Requests(settings, prefix, before), start, from)
      && Timely(Requests(settings, prefix, during), from, until)
      ==> KeepsBound(settings, prefix, key, before, during, from, until)
  }

  ghost predicate KeepsBound(settings: Settings, prefix: string, key: string, before: seq<Arrival>,
                             during: seq<Arrival>, from: real, until: real)
    requires settings.Valid()
  {
    RequestsWellFormed(settings, prefix, before);
    RequestsWellFormed(settings, prefix, during);
    WithinRate(true, RulesOf(settings, prefix), Requests(settings, prefix, before),
               Requests(settings, prefix, during), from, until, key)
  }

  lemma RequestsAgain(settings: Settings, prefix: string, arrivals: seq<Arrival>, now: real)
    ensures Requests(settings, prefix, arrivals + Later(arrivals, now))
         == Requests(settings, prefix, arrivals) + Again(Requests(settings, prefix, arrivals), now)
  {
  }

  /** Traffic after no traffic that breaks the bound. */
  lemma BrokenOnce(settings: Settings, prefix: string, key: string, all: seq<Arrival>, until: real)
    requires settings.Valid() && Timely(Requests(settings, prefix, all), 0.0, until)
    requires AllWellFormed(RulesOf(settings, prefix), Requests(settings, prefix, all))
    requires !WithinRate(true, RulesOf(settings, prefix), [], Requests(settings, prefix, all), 0.0, until, key)
    ensures !Bounded(settings, prefix, key)
  {
    assert Requests(settings, prefix, []) == [] && Timely([], 0.0, 0.0);
    assert !KeepsBound(settings, prefix, key, [], all, 0.0, until);
  }

  lemma DrainBreaksBound(settings: Settings, prefix: string, targets: nat -> Option<Family>, ids: nat -> string,
                         n: nat, r: Resolved)
    requires settings.Valid() && r.cost == 1 && Drains(settings, targets, ids, n, r)
    requires 2 * settings.limit(r.kind) < settings.burst(r.kind)
    ensures !Bounded(settings, prefix, KeyFor(prefix, r))
  {
    var arrivals := Traffic(targets, ids, n);
    var rules, history := RulesOf(settings, prefix), Requests(settings, prefix, arrivals);
    DrainIsBurst(settings, prefix, targets, ids, n, r);
    TrafficAsks(settings, prefix, targets, ids, n, r);
    OwnRule(settings, prefix, r);
    BurstBreaksBound(rules, history, KeyFor(prefix, r));
    RequestsAgain(settings, prefix, arrivals, TTL);
    BrokenOnce(settings, prefix, KeyFor(prefix, r), arrivals + Later(arrivals, TTL), TTL);
  }

  lemma BoundedIff(settings: Settings, prefix: string, targets: nat -> Option<Family>, ids: nat -> string, n: nat,
                   r: Resolved)
    requires settings.Valid() && r.cost == 1 && Drains(settings, targets, ids, n, r)
    ensures Bounded(settings, prefix, KeyFor(prefix, r)) <==> settings.burst(r.kind) <= 2 * settings.limit(r.kind)
  {
    var key := KeyFor(prefix, r);
    OwnRule(settings, prefix, r);
    if settings.burst(r.kind) <= 2 * settings.limit(r.kind) {
      forall before: seq<Arrival>, during: seq<Arrival>, start: real, from: real, until: real
        | Timely(Requests(settings, prefix, before), start, from)
          && Timely(Requests(settings, prefix, during), from, until)
        ensures KeepsBound(settings, prefix, key, before, during, from, until)
      {
        GatewayRateBound(settings, prefix, before, during, start, from, until, key);
      }
    } else {
      DrainBreaksBound(settings, prefix, targets, ids, n, r);
    }
  }

  lemma KindBoundedIff(settings: Settings, prefix: string, kind: Kind, user: string)
    requires settings.Valid() && Nested(settings)
    ensures Bounded(settings, prefix, KeyFor(prefix, Resolved(kind, IdentityOf(kind, user), 1)))
       <==> settings.burst(kind) <= 2 * settings.limit(kind)
  {
    var r, n := Resolved(kind, IdentityOf(kind, user), 1), settings.burst(kind);
    match kind
    case Own(f) =>
      DrainsOwn(settings, f, user);
      BoundedIff(settings, prefix, Always(Some(f)), SameUser(user), n, r);
    case Global(f) =>
      DrainsGlobal(settings, f);
      BoundedIff(settings, prefix, Always(Some(f)), OwnUsers(), n, r);
    case SystemRequests =>
      DrainsRequests(settings);
      BoundedIff(settings, prefix, Always(None), OwnUsers(), n, r);
    case SystemMessages =>
      DrainsMessages(settings);
      BoundedIff(settings, prefix, Mixed(NormalShare(settings)), OwnUsers(), n, r);
  }

  /**
   * Property 6, exact for the gateway. With nested bursts every bucket keeps its bound on all traffic if and only if
   * no rule's burst is above twice its limit; and it is the rule at fault whose bucket breaks it.
   */
  lemma GatewayRateBoundIff(settings: Settings, prefix: string)
    requires settings.Valid() && Nested(settings)
    ensures (forall kind: Kind, user: string ::
               Bounded(settings, prefix, KeyFor(prefix, Resolved(kind, IdentityOf(kind, user), 1))))
       <==> (forall kind: Kind :: settings.burst(kind) <= 2 * settings.limit(kind))
  {
    forall kind: Kind, user: string
      ensures Bounded(settings, prefix, KeyFor(prefix, Resolved(kind, IdentityOf(kind, user), 1)))
         <==> settings.burst(kind) <= 2 * settings.limit(kind)
    {
      KindBoundedIff(settings, prefix, kind, user);
    }
    forall kind: Kind
      ensures Bounded(settings, prefix, KeyFor(prefix, Resolved(kind, IdentityOf(kind, ""), 1)))
         <==> settings.burst(kind) <= 2 * settings.limit(kind)
    {
      KindBoundedIff(settings, prefix, kind, "");
    }
  }

  // ---------------------------------------------------------------- the shipped settings

  function ShippedLimit(kind: Kind): nat {
    match kind
    case Own(NormalMessages) => 1200
    case Own(ExpressMessages) => 300
    case Own(BatchRequests) => 120
    case Own(StatusReads) => 2400
    case Own(Reports) => 240
    case Own(UserReads) => 600
    case Own(UserWrites) => 60
    case Own(UserCreates) => 20
    case Own(Pricing) => 240
    case Global(NormalMessages) => 300000
    case Global(ExpressMessages) => 75000
    case Global(BatchRequests) => 3000
    case Global(StatusReads) => 120000
    case Global(Reports) => 12000
    case Global(UserReads) => 30000
    case Global(UserWrites) => 6000
    case Global(UserCreates) => 1200
    case Global(Pricing) => 12000
    case SystemRequests => 450000
    case SystemMessages => 375000
  }

  function ShippedBurst(kind: Kind): nat {
    match kind
    case Own(NormalMessages) => 200
    case Own(ExpressMessages) => 100
    case Own(BatchRequests) => 20
    case Own(StatusReads) => 400
    case Own(Reports) => 40
    case Own(UserReads) => 100
    case Own(UserWrites) => 15
    case Own(UserCreates) => 5
    case Own(Pricing) => 40
    case Global(NormalMessages) => 30000
    case Global(ExpressMessages) => 15000
    case Global(BatchRequests) => 300
    case Global(StatusReads) => 12000
    case Global(Reports) => 1200
    case Global(UserReads) => 3000
    case Global(UserWrites) => 600
    case Global(UserCreates) => 120
    case Global(Pricing) => 1200
    case SystemRequests => 45000
    case SystemMessages => 37500
  }

  function ShippedSettings(): Settings {
    Settings((k: Kind) => ShippedLimit(k), (k: Kind) => ShippedBurst(k))
  }

  lemma ShippedPositive(kind: Kind)
    ensures 0 < ShippedLimit(kind) && 0 < ShippedBurst(kind) <= 2 * ShippedLimit(kind)
  {
  }

  lemma ShippedFamily(f: Family)
    ensures ShippedBurst(Own(f)) <= ShippedBurst(Global(f)) <= ShippedBurst(SystemRequests)
  {
  }

  lemma ShippedNested()
    ensures ShippedSettings().Valid() && Nested(ShippedSettings())
  {
    forall k: Kind
      ensures 0 < ShippedSettings().limit(k) && 0 < ShippedSettings().burst(k)
    {
      ShippedPositive(k);
    }
    forall f: Family
      ensures ShippedSettings().burst(Own(f)) <= ShippedSettings().burst(Global(f))
              <= ShippedSettings().burst(SystemRequests)
    {
      ShippedFamily(f);
    }
  }

  /** The defaults are nested and refill in time, so every bucket keeps its bound on all traffic. */
  lemma ShippedSettingsKeepBound(prefix: string, kind: Kind, user: string)
    ensures ShippedSettings().Valid() && Nested(ShippedSettings())
    ensures Bounded(ShippedSettings(), prefix, KeyFor(prefix, Resolved(kind, IdentityOf(kind, user), 1)))
  {
    ShippedNested();
    ShippedPositive(kind);
    KindBoundedIff(ShippedSettings(), prefix, kind, user);
  }
}

/** Which bucket each request is charged to, under whose identity, how much, and in which order. */
module RateCharges {
  import opened TokenBucket
  import opened RateLaws
  import opened RateRules

  // ---------------------------------------------------------------- what a route is charged

  /** Whose bucket of this kind a request of `identity` is charged to. */
  function IdentityOf(kind: Kind, identity: string): string {
    match kind
    case Own(_) => identity
    case Global(_) => "global"
    case SystemRequests => "system"
    case SystemMessages => "system"
  }

  /** What a batch of `normal` and `express` messages costs the buckets of one kind. */
  function BatchCost(kind: Kind, normal: nat, express: nat): nat {
    match kind
    case SystemRequests => 1
    case SystemMessages => normal + express
    case Own(BatchRequests) => 1
    case Global(BatchRequests) => 1
    case Own(NormalMessages) => normal
    case Global(NormalMessages) => normal
    case Own(ExpressMessages) => express
    case Global(ExpressMessages) => express
    case _ => 0
  }

  predicate CountsRequests(kind: Kind) {
    kind == SystemRequests || kind == Own(BatchRequests) || kind == Global(BatchRequests)
  }

  /** What one message submitted alone costs the buckets of one kind. */
  function SingleCost(kind: Kind, family: Family): nat {
    if kind in {Own(family), Global(family), SystemMessages, SystemRequests} then 1 else 0
  }

  /** What a request costs the bucket of one kind. */
  function Due(route: Route, kind: Kind): nat {
    match route
    case SingleMessage(priority) =>
      SingleCost(kind, if priority == Text("express") then ExpressMessages else NormalMessages)
    case Batch(messages) => BatchCost(kind, NormalCount(messages), ExpressCount(messages))
    case Endpoint(family) => if kind in {Own(family), Global(family), SystemRequests} then 1 else 0
    case OtherApi => if kind == SystemRequests then 1 else 0
    case Unlimited => 0
  }

  /** Where a bucket stands in the list: the first of equally long waits is the one reported. */
  function Place(kind: Kind): nat {
    match kind
    case Own(NormalMessages) => 2
    case Global(NormalMessages) => 3
    case Own(ExpressMessages) => 4
    case Global(ExpressMessages) => 5
    case SystemMessages => 6
    case SystemRequests => 7
    case Own(_) => 0
    case Global(_) => 1
  }

  predicate Ordered(limits: seq<Resolved>) {
    forall i, j :: 0 <= i < j < |limits| ==> Place(limits[i].kind) < Place(limits[j].kind)
  }

  /** The list is in order and holds exactly the buckets that the request costs something. */
  ghost predicate ListsDues(limits: seq<Resolved>, route: Route, identity: string) {
    && Ordered(limits)
    && forall r :: r in limits <==> 0 < r.cost == Due(route, r.kind) && r.identity == IdentityOf(r.kind, identity)
  }

  /** A part of the list, in order and between two places. */
  predicate Between(limits: seq<Resolved>, from: nat, until: nat) {
    Ordered(limits) && forall i :: 0 <= i < |limits| ==> from <= Place(limits[i].kind) < until
  }

  lemma Joined(a: seq<Resolved>, b: seq<Resolved>, from: nat, mid: nat, until: nat)
    requires from <= mid <= until && Between(a, from, mid) && Between(b, mid, until)
    ensures Between(a + b, from, until)
  {
    var all := a + b;
    forall i, j | 0 <= i < j < |all|
      ensures Place(all[i].kind) < Place(all[j].kind)
    {
      if i < |a| <= j {
        assert all[i] == a[i] && all[j] == b[j - |a|];
      }
    }
  }

  lemma JoinedFive(a: seq<Resolved>, b: seq<Resolved>, c: seq<Resolved>, d: seq<Resolved>, e: seq<Resolved>)
    requires Between(a, 0, 2) && Between(b, 2, 4) && Between(c, 4, 6) && Between(d, 6, 7) && Between(e, 7, 8)
    ensures Ordered(a + b + c + d + e)
  {
    Joined(a, b, 0, 2, 4);
    Joined(a + b, c, 0, 4, 6);
    Joined(a + b + c, d, 0, 6, 7);
    Joined(a + b + c + d, e, 0, 7, 8);
  }

  /** The pair of buckets of a submission: the caller's own and the one all callers share. */
  predicate InPair(family: Family, identity: string, r: Resolved) {
    (r.kind == Own(family) && r.identity == identity) || (r.kind == Global(family) && r.identity == "global")
  }

  lemma PairDues(family: Family, identity: string, cost: nat, r: Resolved)
    ensures r in SubmissionLimits(family, identity, cost) <==> r.cost == cost && InPair(family, identity, r)
    ensures r in MessagePart(family, identity, cost) <==> 0 < r.cost == cost && InPair(family, identity, r)
  {
    var pair := SubmissionLimits(family, identity, cost);
    assert pair[0] == Resolved(Own(family), identity, cost) && pair[1] == Resolved(Global(family), "global", cost);
  }

  lemma SystemDues(cost: nat, r: Resolved)
    ensures r in SystemMessageLimits(cost) <==> r == Resolved(SystemMessages, "system", cost)
    ensures r in SystemPart(cost) <==> 0 < r.cost && r == Resolved(SystemMessages, "system", cost)
    ensures r in SystemRequestLimits() <==> r == Resolved(SystemRequests, "system", 1)
  {
  }

  lemma BatchPartsListed(identity: string, normal: nat, express: nat, r: Resolved)
    ensures r in BatchLimits(identity, normal, express)
       <==> || r in SubmissionLimits(BatchRequests, identity, 1)
            || r in MessagePart(NormalMessages, identity, normal)
            || r in MessagePart(ExpressMessages, identity, express)
            || r in SystemPart(normal + express)
            || r in SystemRequestLimits()
  {
  }

  lemma BatchListed(messages: Elements, identity: string, r: Resolved)
    ensures r in Resolve(Batch(messages), identity)
       <==> 0 < r.cost == Due(Batch(messages), r.kind) && r.identity == IdentityOf(r.kind, identity)
  {
    BatchPartsListed(identity, NormalCount(messages), ExpressCount(messages), r);
    PairDues(BatchRequests, identity, 1, r);
    PairDues(NormalMessages, identity, NormalCount(messages), r);
    PairDues(ExpressMessages, identity, ExpressCount(messages), r);
    SystemDues(NormalCount(messages) + ExpressCount(messages), r);
  }

  lemma BatchOrdered(identity: string, normal: nat, express: nat)
    ensures Ordered(BatchLimits(identity, normal, express))
  {
    JoinedFive(SubmissionLimits(BatchRequests, identity, 1), MessagePart(NormalMessages, identity, normal),
               MessagePart(ExpressMessages, identity, express), SystemPart(normal + express), SystemRequestLimits());
  }

  lemma BatchDues(messages: Elements, identity: string)
    ensures ListsDues(Resolve(Batch(messages), identity), Batch(messages), identity)
  {
    BatchOrdered(identity, NormalCount(messages), ExpressCount(messages));
    forall r: Resolved
      ensures r in Resolve(Batch(messages), identity)
         <==> 0 < r.cost == Due(Batch(messages), r.kind) && r.identity == IdentityOf(r.kind, identity)
    {
      BatchListed(messages, identity, r);
    }
  }

  lemma SingleListed(priority: PriorityField, identity: string, r: Resolved)
    ensures r in Resolve(SingleMessage(priority), identity)
       <==> 0 < r.cost == Due(SingleMessage(priority), r.kind) && r.identity == IdentityOf(r.kind, identity)
  {
    PairDues(FamilyFor(priority), identity, 1, r);
    SystemDues(1, r);
  }

  lemma SingleOrdered(family: Family, identity: string)
    requires family == NormalMessages || family == ExpressMessages
    ensures Ordered(SingleLimits(family, identity))
  {
    var pair := SubmissionLimits(family, identity, 1);
    Joined(pair, SystemMessageLimits(1), 2, 6, 7);
    Joined(pair + SystemMessageLimits(1), SystemRequestLimits(), 2, 7, 8);
  }

  lemma SingleDues(priority: PriorityField, identity: string)
    ensures ListsDues(Resolve(SingleMessage(priority), identity), SingleMessage(priority), identity)
  {
    SingleOrdered(FamilyFor(priority), identity);
    forall r: Resolved
      ensures r in Resolve(SingleMessage(priority), identity)
         <==> 0 < r.cost == Due(SingleMessage(priority), r.kind) && r.identity == IdentityOf(r.kind, identity)
    {
      SingleListed(priority, identity, r);
    }
  }

  lemma EndpointListed(family: Family, identity: string, r: Resolved)
    ensures r in Resolve(Endpoint(family), identity)
       <==> 0 < r.cost == Due(Endpoint(family), r.kind) && r.identity == IdentityOf(r.kind, identity)
  {
    PairDues(family, identity, 1, r);
    SystemDues(1, r);
  }

  lemma EndpointOrdered(family: Family, identity: string)
    ensures Ordered(EndpointLimits(family, identity))
  {
    Joined(SubmissionLimits(family, identity, 1), SystemRequestLimits(), 0, 7, 8);
  }

  lemma EndpointDues(family: Family, identity: string)
    ensures ListsDues(Resolve(Endpoint(family), identity), Endpoint(family), identity)
  {
    EndpointOrdered(family, identity);
    forall r: Resolved
      ensures r in Resolve(Endpoint(family), identity)
         <==> 0 < r.cost == Due(Endpoint(family), r.kind) && r.identity == IdentityOf(r.kind, identity)
    {
      EndpointListed(family, identity, r);
    }
  }

  /**
   * Every request is charged to the caller's own buckets, the shared global ones and the system's, each its due, and
   * the list that says so is fixed by that and its order.
   */
  lemma ResolveCharges(route: Route, identity: string)
    ensures ListsDues(Resolve(route, identity), route, identity)
  {
    match route
    case SingleMessage(priority) => SingleDues(priority, identity);
    case Batch(messages) => BatchDues(messages, identity);
    case Endpoint(family) => EndpointDues(family, identity);
    case OtherApi =>
    case Unlimited =>
  }

  // ---------------------------------------------------------------- what a key is charged

  function KeyCost(settings: Settings, prefix: string, route: Route, identity: string, key: string): nat {
    CostOn(Slots(settings, prefix, Resolve(route, identity)), key)
  }

  /** The key of the caller's bucket of one kind. */
  function OwnKey(prefix: string, kind: Kind, identity: string): string {
    KeyFor(prefix, Resolved(kind, IdentityOf(kind, identity), 1))
  }

  /** The buckets on the list, seen by their keys. */
  lemma ListedKey(prefix: string, limits: seq<Resolved>, route: Route, identity: string, kind: Kind, i: nat)
    requires ListsDues(limits, route, identity) && i < |limits|
    ensures KeyFor(prefix, limits[i]) == OwnKey(prefix, limits[i].kind, identity)
    ensures KeyFor(prefix, limits[i]) == OwnKey(prefix, kind, identity) <==> limits[i].kind == kind
    ensures 0 < limits[i].cost == Due(route, limits[i].kind)
  {
    assert limits[i] in limits;
    KeysIdentify(prefix, limits[i], Resolved(kind, IdentityOf(kind, identity), 1));
  }

  lemma CostListed(settings: Settings, prefix: string, limits: seq<Resolved>, route: Route, identity: string,
                   kind: Kind)
    requires ListsDues(limits, route, identity) && DistinctKeys(Slots(settings, prefix, limits))
    ensures CostOn(Slots(settings, prefix, limits), OwnKey(prefix, kind, identity)) == Due(route, kind)
  {
    var slots, key := Slots(settings, prefix, limits), OwnKey(prefix, kind, identity);
    CostOnAt(slots, key);
    forall i | 0 <= i < |limits|
      ensures slots[i].key == key <==> limits[i].kind == kind
      ensures slots[i].cost == Due(route, limits[i].kind)
    {
      ListedKey(prefix, limits, route, identity, kind, i);
    }
    if 0 < Due(route, kind) {
      var r := Resolved(kind, IdentityOf(kind, identity), Due(route, kind));
      assert r in limits;
      var i :| 0 <= i < |limits| && limits[i] == r;
      assert slots[i].key == key;
    } else {
      assert forall i :: 0 <= i < |limits| ==> limits[i] in limits && limits[i].kind != kind;
    }
  }

  lemma KeyCostOfKind(settings: Settings, prefix: string, route: Route, identity: string, kind: Kind)
    requires settings.Valid()
    ensures KeyCost(settings, prefix, route, identity, OwnKey(prefix, kind, identity)) == Due(route, kind)
  {
    ResolvedWellFormed(settings, prefix, route, identity);
    ResolveCharges(route, identity);
    CostListed(settings, prefix, Resolve(route, identity), route, identity, kind);
  }

  lemma KeyCostElsewhere(settings: Settings, prefix: string, route: Route, identity: string, key: string)
    requires settings.Valid() && forall kind :: OwnKey(prefix, kind, identity) != key
    ensures KeyCost(settings, prefix, route, identity, key) == 0
  {
    var limits := Resolve(route, identity);
    ResolvedWellFormed(settings, prefix, route, identity);
    CostOnAt(Slots(settings, prefix, limits), key);
    ResolveCharges(route, identity);
    forall i | 0 <= i < |limits|
      ensures KeyFor(prefix, limits[i]) != key
    {
      ListedKey(prefix, limits, route, identity, SystemRequests, i);
    }
  }

  // ---------------------------------------------------------------- what a batch is charged

  function SumOver(elements: seq<Element>, cost: Element -> nat): nat {
    if elements == [] then 0
    else SumOver(elements[..|elements| - 1], cost) + cost(elements[|elements| - 1])
  }

  lemma BatchCostGrows(kind: Kind, normal: nat, express: nat)
    requires !CountsRequests(kind)
    ensures BatchCost(kind, 0, 0) == 0
    ensures BatchCost(kind, normal + 1, express) == BatchCost(kind, normal, express) + SingleCost(kind, NormalMessages)
    ensures BatchCost(kind, normal, express + 1) == BatchCost(kind, normal, express) + SingleCost(kind, ExpressMessages)
  {
  }

  function PriorityOf(element: Element): PriorityField {
    if element.Fields? then element.priority else Missing
  }

  lemma {:induction false} SumOverCounts(elements: seq<Element>, cost: Element -> nat, kind: Kind,
                                         normal: nat, express: nat)
    requires !CountsRequests(kind)
    requires forall e :: cost(e) == SingleCost(kind, if IsExpress(e) then ExpressMessages else NormalMessages)
    requires express == ExpressIn(elements) && normal + express == |elements|
    ensures SumOver(elements, cost) == BatchCost(kind, normal, express)
  {
    if elements == [] {
      BatchCostGrows(kind, 0, 0);
    } else {
      var n := |elements| - 1;
      ExpressWithin(elements[..n]);
      if IsExpress(elements[n]) {
        SumOverCounts(elements[..n], cost, kind, normal, express - 1);
        BatchCostGrows(kind, normal, express - 1);
      } else {
        SumOverCounts(elements[..n], cost, kind, normal - 1, express);
        BatchCostGrows(kind, normal - 1, express);
      }
    }
  }

  lemma {:induction false} SumOfNothing(elements: seq<Element>, cost: Element -> nat)
    requires forall e :: cost(e) == 0
    ensures SumOver(elements, cost) == 0
  {
    if elements != [] {
      SumOfNothing(elements[..|elements| - 1], cost);
    }
  }

  /** What the batch's elements would charge to one key if each was submitted alone. */
  function OneByOne(settings: Settings, prefix: string, elements: seq<Element>, identity: string, key: string): nat {
    SumOver(elements, (e: Element) => KeyCost(settings, prefix, SingleMessage(PriorityOf(e)), identity, key))
  }

  /** The three buckets that count requests: the caller's own, the one all callers share, and the system's. */
  function RequestKeys(prefix: string, identity: string): set<string> {
    { KeyFor(prefix, Resolved(Own(BatchRequests), identity, 1)),
      KeyFor(prefix, Resolved(Global(BatchRequests), "global", 1)),
      KeyFor(prefix, Resolved(SystemRequests, "system", 1)) }
  }

  lemma RequestKeyOfKind(prefix: string, identity: string, kind: Kind)
    ensures OwnKey(prefix, kind, identity) in RequestKeys(prefix, identity) <==> CountsRequests(kind)
  {
    var r := Resolved(kind, IdentityOf(kind, identity), 1);
    KeysIdentify(prefix, r, Resolved(Own(BatchRequests), identity, 1));
    KeysIdentify(prefix, r, Resolved(Global(BatchRequests), "global", 1));
    KeysIdentify(prefix, r, Resolved(SystemRequests, "system", 1));
  }

  lemma OneByOneOfKind(settings: Settings, prefix: string, elements: seq<Element>, identity: string, kind: Kind)
    requires settings.Valid() && !CountsRequests(kind)
    ensures OneByOne(settings, prefix, elements, identity, OwnKey(prefix, kind, identity))
         == Due(Batch(List(elements)), kind)
  {
    var key := OwnKey(prefix, kind, identity);
    var cost := (e: Element) => KeyCost(settings, prefix, SingleMessage(PriorityOf(e)), identity, key);
    forall e
      ensures cost(e) == SingleCost(kind, if IsExpress(e) then ExpressMessages else NormalMessages)
    {
      KeyCostOfKind(settings, prefix, SingleMessage(PriorityOf(e)), identity, kind);
    }
    ExpressWithin(elements);
    SumOverCounts(elements, cost, kind, NormalCount(List(elements)), ExpressCount(List(elements)));
  }

  lemma OneByOneElsewhere(settings: Settings, prefix: string, elements: seq<Element>, identity: string, key: string)
    requires settings.Valid() && forall kind :: OwnKey(prefix, kind, identity) != key
    ensures OneByOne(settings, prefix, elements, identity, key) == 0
  {
    var cost := (e: Element) => KeyCost(settings, prefix, SingleMessage(PriorityOf(e)), identity, key);
    forall e
      ensures cost(e) == 0
    {
      KeyCostElsewhere(settings, prefix, SingleMessage(PriorityOf(e)), identity, key);
    }
    SumOfNothing(elements, cost);
  }

  /**
   * Batching saves requests, not messages: every key is charged what the elements would be charged one by one, except
   * that the three buckets that count requests are charged 1.
   */
  lemma BatchChargesEachMessage(settings: Settings, prefix: string, elements: seq<Element>, identity: string,
                                key: string)
    requires settings.Valid()
    ensures KeyCost(settings, prefix, Batch(List(elements)), identity, key)
         == if key in RequestKeys(prefix, identity) then 1
            else OneByOne(settings, prefix, elements, identity, key)
  {
    if kind :| OwnKey(prefix, kind, identity) == key {
      KeyCostOfKind(settings, prefix, Batch(List(elements)), identity, kind);
      RequestKeyOfKind(prefix, identity, kind);
      if !CountsRequests(kind) {
        OneByOneOfKind(settings, prefix, elements, identity, kind);
      }
    } else {
      KeyCostElsewhere(settings, prefix, Batch(List(elements)), identity, key);
      OneByOneElsewhere(settings, prefix, elements, identity, key);
      assert OwnKey(prefix, Own(BatchRequests), identity) != key;
      assert OwnKey(prefix, Global(BatchRequests), identity) != key;
      assert OwnKey(prefix, SystemRequests, identity) != key;
    }
  }
}

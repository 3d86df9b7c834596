/** Which buckets a request is charged to: the rules, their keys, and the resolution of each route. */
module RateRules {
  import opened TokenBucket

  const WINDOW_SECONDS: nat := 60
  const GLOBAL_IDENTITY := "global"
  const SYSTEM_IDENTITY := "system"

  /** What a per-identity rule counts; each has a global counterpart. */
  datatype Family =
    | ExpressMessages
    | NormalMessages
    | BatchRequests
    | StatusReads
    | Reports
    | UserReads
    | UserWrites
    | UserCreates
    | Pricing

  datatype Kind = Own(family: Family) | Global(family: Family) | SystemRequests | SystemMessages

  function FamilyName(family: Family): string {
    match family
    case ExpressMessages => "messages:express"
    case NormalMessages => "messages:normal"
    case BatchRequests => "messages:batch_requests"
    case StatusReads => "messages:status"
    case Reports => "messages:reports"
    case UserReads => "users:reads"
    case UserWrites => "users:writes"
    case UserCreates => "users:creates"
    case Pricing => "pricing"
  }

  function Name(kind: Kind): string {
    match kind
    case Own(family) => FamilyName(family)
    case Global(family) => "global:" + FamilyName(family)
    case SystemRequests => "system:requests"
    case SystemMessages => "system:messages"
  }

  /** Every rule has its own limit and burst among the settings. */
  datatype Settings = Settings(limit: Kind -> nat, burst: Kind -> nat) {
    /** What the settings validators enforce. */
    ghost predicate Valid() {
      forall k :: 0 < limit(k) && 0 < burst(k)
    }
  }

  function RuleOf(settings: Settings, kind: Kind): Rule {
    Rule(Name(kind), settings.limit(kind), WINDOW_SECONDS, settings.burst(kind))
  }

  /** A bucket to charge, before its key is built. */
  datatype Resolved = Resolved(kind: Kind, identity: string, cost: nat)

  function KeyFor(prefix: string, r: Resolved): string {
    prefix + ":" + Name(r.kind) + ":" + r.identity
  }

  function SlotFor(settings: Settings, prefix: string, r: Resolved): Slot {
    Slot(KeyFor(prefix, r), RuleOf(settings, r.kind), r.cost)
  }

  function Slots(settings: Settings, prefix: string, limits: seq<Resolved>): (slots: seq<Slot>)
    ensures |slots| == |limits|
  {
    seq(|limits|, i requires 0 <= i < |limits| => SlotFor(settings, prefix, limits[i]))
  }

  // ---------------------------------------------------------------- resolution

  /** The `priority` field of a message in a request body, whatever its JSON type. */
  datatype PriorityField = Missing | Text(value: string) | NotText

  /** One element of a batch's `messages` list. */
  datatype Element = NotAnObject | Fields(priority: PriorityField)

  /** The `messages` field of a batch body. */
  datatype Elements = NotAList | List(elements: seq<Element>)

  datatype Route =
    | SingleMessage(priority: PriorityField)
    | Batch(messages: Elements)
    | Endpoint(family: Family)
    | OtherApi
    | Unlimited

  function FamilyFor(priority: PriorityField): Family {
    if priority == Text("express") then ExpressMessages else NormalMessages
  }

  predicate IsExpress(element: Element) {
    element.Fields? && element.priority == Text("express")
  }

  function ExpressIn(elements: seq<Element>): nat {
    if elements == [] then 0
    else ExpressIn(elements[..|elements| - 1]) + if IsExpress(elements[|elements| - 1]) then 1 else 0
  }

  lemma {:induction false} ExpressWithin(elements: seq<Element>)
    ensures ExpressIn(elements) <= |elements|
  {
    if elements != [] {
      ExpressWithin(elements[..|elements| - 1]);
    }
  }

  /** Elements without a readable express priority count as normal; anything but a list counts as empty. */
  function ExpressCount(messages: Elements): nat {
    if messages.List? then ExpressIn(messages.elements) else 0
  }

  function NormalCount(messages: Elements): nat {
    if messages.NotAList? then 0
    else
      ExpressWithin(messages.elements);
      |messages.elements| - ExpressIn(messages.elements)
  }

  function SystemRequestLimits(): seq<Resolved> {
    [Resolved(SystemRequests, SYSTEM_IDENTITY, 1)]
  }

  function SubmissionLimits(family: Family, identity: string, cost: nat): seq<Resolved> {
    [Resolved(Own(family), identity, cost), Resolved(Global(family), GLOBAL_IDENTITY, cost)]
  }

  function SystemMessageLimits(cost: nat): seq<Resolved> {
    [Resolved(SystemMessages, SYSTEM_IDENTITY, cost)]
  }

  function EndpointLimits(family: Family, identity: string): seq<Resolved> {
    SubmissionLimits(family, identity, 1) + SystemRequestLimits()
  }

  function SingleLimits(family: Family, identity: string): seq<Resolved> {
    SubmissionLimits(family, identity, 1) + SystemMessageLimits(1) + SystemRequestLimits()
  }

  /** A batch's share for its messages of one priority, if it has any. */
  function MessagePart(family: Family, identity: string, count: nat): seq<Resolved> {
    if count == 0 then [] else SubmissionLimits(family, identity, count)
  }

  function SystemPart(count: nat): seq<Resolved> {
    if count == 0 then [] else SystemMessageLimits(count)
  }

  function BatchLimits(identity: string, normal: nat, express: nat): seq<Resolved> {
    SubmissionLimits(BatchRequests, identity, 1)
    + MessagePart(NormalMessages, identity, normal)
    + MessagePart(ExpressMessages, identity, express)
    + SystemPart(normal + express)
    + SystemRequestLimits()
  }

  function Resolve(route: Route, identity: string): seq<Resolved> {
    match route
    case SingleMessage(priority) => SingleLimits(FamilyFor(priority), identity)
    case Batch(messages) => BatchLimits(identity, NormalCount(messages), ExpressCount(messages))
    case Endpoint(family) => EndpointLimits(family, identity)
    case OtherApi => SystemRequestLimits()
    case Unlimited => []
  }

  // ---------------------------------------------------------------- keys

  /** Reads a family back from the start of a key's name part. */
  function FamilyOf(s: string): Family {
    if 9 < |s| && s[0] == 'm' then
      if s[9] == 'e' then ExpressMessages
      else if s[9] == 'n' then NormalMessages
      else if s[9] == 'b' then BatchRequests
      else if s[9] == 's' then StatusReads
      else Reports
    else if 6 < |s| && s[0] == 'u' then
      if s[6] == 'r' then UserReads
      else if s[6] == 'w' then UserWrites
      else UserCreates
    else Pricing
  }

  function KindOf(s: string): Kind {
    if 7 < |s| && s[0] == 'g' then Global(FamilyOf(s[7..]))
    else if 7 < |s| && s[0] == 's' then if s[7] == 'r' then SystemRequests else SystemMessages
    else Own(FamilyOf(s))
  }

  lemma MessageFamilyOfName(family: Family, tail: string)
    requires family in {ExpressMessages, NormalMessages, BatchRequests, StatusReads, Reports}
    ensures FamilyOf(FamilyName(family) + ":" + tail) == family
  {
    var s := FamilyName(family) + ":" + tail;
    assert s[0] == FamilyName(family)[0] && s[9] == FamilyName(family)[9];
  }

  lemma UserFamilyOfName(family: Family, tail: string)
    requires family in {UserReads, UserWrites, UserCreates}
    ensures FamilyOf(FamilyName(family) + ":" + tail) == family
  {
    var s := FamilyName(family) + ":" + tail;
    assert s[0] == FamilyName(family)[0] && s[6] == FamilyName(family)[6];
  }

  lemma FamilyOfName(family: Family, tail: string)
    ensures FamilyOf(FamilyName(family) + ":" + tail) == family
  {
    if family in {UserReads, UserWrites, UserCreates} {
      UserFamilyOfName(family, tail);
    } else if family == Pricing {
      assert ("pricing:" + tail)[0] == 'p';
      assert FamilyName(family) + ":" + tail == "pricing:" + tail;
    } else {
      MessageFamilyOfName(family, tail);
    }
  }

  lemma FamilyNameStarts(family: Family)
    ensures FamilyName(family) != [] && FamilyName(family)[0] in {'m', 'u', 'p'}
  {
  }

  lemma OwnKindOfName(family: Family, tail: string)
    ensures KindOf(FamilyName(family) + ":" + tail) == Own(family)
  {
    FamilyNameStarts(family);
    assert (FamilyName(family) + ":" + tail)[0] == FamilyName(family)[0];
    FamilyOfName(family, tail);
  }

  lemma GlobalKindOfName(family: Family, tail: string)
    ensures KindOf("global:" + FamilyName(family) + ":" + tail) == Global(family)
  {
    var s := "global:" + FamilyName(family) + ":" + tail;
    assert s[0] == 'g' && s[7..] == FamilyName(family) + ":" + tail;
    FamilyNameStarts(family);
    FamilyOfName(family, tail);
  }

  lemma SystemKindOfName(tail: string)
    ensures KindOf("system:requests" + ":" + tail) == SystemRequests
    ensures KindOf("system:messages" + ":" + tail) == SystemMessages
  {
    var requests, messages := "system:requests" + ":" + tail, "system:messages" + ":" + tail;
    assert requests[0] == 's' && requests[7] == 'r';
    assert messages[0] == 's' && messages[7] == 'm';
  }

  /** No rule's name, with the colon that ends it, begins another rule's name. */
  lemma KindOfName(kind: Kind, tail: string)
    ensures KindOf(Name(kind) + ":" + tail) == kind
  {
    match kind
    case Own(family) => OwnKindOfName(family, tail);
    case Global(family) => GlobalKindOfName(family, tail);
    case SystemRequests => SystemKindOfName(tail);
    case SystemMessages => SystemKindOfName(tail);
  }

  /** Property 16. Two buckets share a key only if they share both rule and identity, whatever the identities hold. */
  lemma KeysIdentify(prefix: string, a: Resolved, b: Resolved)
    ensures KeyFor(prefix, a) == KeyFor(prefix, b) <==> a.kind == b.kind && a.identity == b.identity
  {
    NamePart(prefix, a);
    NamePart(prefix, b);
    KindOfName(a.kind, a.identity);
    KindOfName(b.kind, b.identity);
    if KeyFor(prefix, a) == KeyFor(prefix, b) {
      var n := |prefix| + |Name(a.kind)| + 2;
      assert KeyFor(prefix, a)[n..] == a.identity;
      assert KeyFor(prefix, b)[n..] == b.identity;
    }
  }

  lemma NamePart(prefix: string, r: Resolved)
    ensures KeyFor(prefix, r)[|prefix| + 1..] == Name(r.kind) + ":" + r.identity
  {
  }

  /** The rule that owns a key. */
  function RulesOf(settings: Settings, prefix: string): string -> Rule {
    (key: string) => RuleOf(settings, if |prefix| < |key| then KindOf(key[|prefix| + 1..]) else SystemRequests)
  }

  lemma {:induction false} OwnRule(settings: Settings, prefix: string, r: Resolved)
    ensures RulesOf(settings, prefix)(KeyFor(prefix, r)) == RuleOf(settings, r.kind)
  {
    NamePart(prefix, r);
    KindOfName(r.kind, r.identity);
  }

  predicate DistinctKinds(limits: seq<Resolved>) {
    forall i, j :: 0 <= i < j < |limits| ==> limits[i].kind != limits[j].kind
  }

  function Kinds(limits: seq<Resolved>): set<Kind> {
    set r | r in limits :: r.kind
  }

  lemma DistinctConcat(a: seq<Resolved>, b: seq<Resolved>)
    requires DistinctKinds(a) && DistinctKinds(b) && Kinds(a) !! Kinds(b)
    ensures DistinctKinds(a + b) && Kinds(a + b) == Kinds(a) + Kinds(b)
  {
    var all := a + b;
    forall i, j | 0 <= i < j < |all|
      ensures all[i].kind != all[j].kind
    {
      if i < |a| <= j {
        assert all[i] in a && all[j] in b;
        assert all[i].kind in Kinds(a) && all[j].kind in Kinds(b);
      }
    }
  }

  lemma PairDistinct(family: Family, identity: string, cost: nat)
    ensures DistinctKinds(SubmissionLimits(family, identity, cost))
    ensures Kinds(SubmissionLimits(family, identity, cost)) == {Own(family), Global(family)}
  {
    var limits := SubmissionLimits(family, identity, cost);
    assert limits[0] in limits && limits[1] in limits;
  }

  lemma OneDistinct(r: Resolved)
    ensures DistinctKinds([r]) && Kinds([r]) == {r.kind}
  {
    assert r in [r];
  }

  lemma SingleDistinct(family: Family, identity: string)
    ensures DistinctKinds(SingleLimits(family, identity)) && DistinctKinds(EndpointLimits(family, identity))
  {
    var pair := SubmissionLimits(family, identity, 1);
    PairDistinct(family, identity, 1);
    OneDistinct(Resolved(SystemMessages, SYSTEM_IDENTITY, 1));
    OneDistinct(Resolved(SystemRequests, SYSTEM_IDENTITY, 1));
    DistinctConcat(pair, SystemMessageLimits(1));
    DistinctConcat(pair + SystemMessageLimits(1), SystemRequestLimits());
    DistinctConcat(pair, SystemRequestLimits());
  }

  lemma PartsDistinct(family: Family, identity: string, count: nat)
    ensures DistinctKinds(MessagePart(family, identity, count)) && DistinctKinds(SystemPart(count))
    ensures Kinds(MessagePart(family, identity, count)) <= {Own(family), Global(family)}
    ensures Kinds(SystemPart(count)) <= {SystemMessages}
  {
    PairDistinct(family, identity, count);
    OneDistinct(Resolved(SystemMessages, SYSTEM_IDENTITY, count));
  }

  lemma FiveDistinct(a: seq<Resolved>, b: seq<Resolved>, c: seq<Resolved>, d: seq<Resolved>, e: seq<Resolved>)
    requires DistinctKinds(a) && DistinctKinds(b) && DistinctKinds(c) && DistinctKinds(d) && DistinctKinds(e)
    requires Kinds(a) <= {Own(BatchRequests), Global(BatchRequests)}
    requires Kinds(b) <= {Own(NormalMessages), Global(NormalMessages)}
    requires Kinds(c) <= {Own(ExpressMessages), Global(ExpressMessages)}
    requires Kinds(d) <= {SystemMessages} && Kinds(e) <= {SystemRequests}
    ensures DistinctKinds(a + b + c + d + e)
  {
    DistinctConcat(a, b);
    DistinctConcat(a + b, c);
    DistinctConcat(a + b + c, d);
    DistinctConcat(a + b + c + d, e);
  }

  lemma BatchDistinct(identity: string, normal: nat, express: nat)
    ensures DistinctKinds(BatchLimits(identity, normal, express))
  {
    PairDistinct(BatchRequests, identity, 1);
    PartsDistinct(NormalMessages, identity, normal);
    PartsDistinct(ExpressMessages, identity, express);
    PartsDistinct(NormalMessages, identity, normal + express);
    OneDistinct(Resolved(SystemRequests, SYSTEM_IDENTITY, 1));
    FiveDistinct(SubmissionLimits(BatchRequests, identity, 1), MessagePart(NormalMessages, identity, normal),
                 MessagePart(ExpressMessages, identity, express), SystemPart(normal + express), SystemRequestLimits());
  }

  /** No request is charged to one rule twice. */
  lemma {:induction false} ResolveDistinct(route: Route, identity: string)
    ensures DistinctKinds(Resolve(route, identity))
  {
    match route
    case SingleMessage(priority) => SingleDistinct(FamilyFor(priority), identity);
    case Batch(messages) => BatchDistinct(identity, NormalCount(messages), ExpressCount(messages));
    case Endpoint(family) => SingleDistinct(family, identity);
    case OtherApi =>
    case Unlimited =>
  }

  /**
   * Property 16. Whatever the request, its buckets have pairwise distinct keys, and one assignment of rules to keys
   * fits every request: the form the limiter's laws ask for.
   */
  lemma {:induction false} ResolvedWellFormed(settings: Settings, prefix: string, route: Route, identity: string)
    requires settings.Valid()
    ensures WellFormed(RulesOf(settings, prefix), Slots(settings, prefix, Resolve(route, identity)))
  {
    var limits := Resolve(route, identity);
    var slots := Slots(settings, prefix, limits);
    ResolveDistinct(route, identity);
    forall i, j | 0 <= i < j < |slots|
      ensures slots[i].key != slots[j].key
    {
      KeysIdentify(prefix, limits[i], limits[j]);
    }
    forall i | 0 <= i < |slots|
      ensures slots[i].rule == RulesOf(settings, prefix)(slots[i].key) && slots[i].rule.Valid()
    {
      OwnRule(settings, prefix, limits[i]);
    }
  }

  // ---------------------------------------------------------------- costs by kind

  /** Total cost of the buckets of one kind. */
  function CostOfKind(limits: seq<Resolved>, kind: Kind): nat {
    if limits == [] then 0
    else
      CostOfKind(limits[..|limits| - 1], kind)
      + if limits[|limits| - 1].kind == kind then limits[|limits| - 1].cost else 0
  }

  lemma {:induction false} CostOfConcat(a: seq<Resolved>, b: seq<Resolved>, kind: Kind)
    ensures CostOfKind(a + b, kind) == CostOfKind(a, kind) + CostOfKind(b, kind)
  {
    if b == [] {
      assert a + b == a;
    } else {
      assert (a + b)[..|a + b| - 1] == a + b[..|b| - 1];
      CostOfConcat(a, b[..|b| - 1], kind);
    }
  }

  lemma CostOfOne(r: Resolved, kind: Kind)
    ensures CostOfKind([r], kind) == if r.kind == kind then r.cost else 0
  {
    assert [r][..0] == [];
  }

  lemma CostOfPair(family: Family, identity: string, cost: nat, kind: Kind)
    ensures CostOfKind(SubmissionLimits(family, identity, cost), kind)
         == if kind == Own(family) || kind == Global(family) then cost else 0
  {
    var own, shared := Resolved(Own(family), identity, cost), Resolved(Global(family), GLOBAL_IDENTITY, cost);
    assert SubmissionLimits(family, identity, cost) == [own] + [shared];
    CostOfConcat([own], [shared], kind);
    CostOfOne(own, kind);
    CostOfOne(shared, kind);
  }
}

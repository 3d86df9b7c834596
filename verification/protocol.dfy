/**
 * The whole gateway as a state machine. Every action is one committed transaction or the passing of time;
 * any number of relays, workers and clients interleave in any order.
 */
module Protocol {
  import opened Domain
  import opened Submission
  import opened Delivery
  import opened Outbox

  /** One `process` call of a worker: between its two transactions, or over. */
  datatype Call = Sending(job: nat) | Ended

  datatype World = World(
    now: real,
    store: Store,
    calls: map<nat, Call>,
    /** The id lists that sweeps have selected and not yet updated, one for each sweep under way. */
    sweeps: multiset<set<nat>>)

  datatype Action =
    | Tick(seconds: real)
    | CreateUser(userId: int)
    | AddCredits(userId: int, amount: int)
    | Submit(userId: int, item: Item)
    | SubmitMany(userId: int, items: seq<Item>)
    /** Any eligible jobs: the fair choice among them is the subject of FairBatch. */
    | RelayClaim(relay: nat, priority: Priority, ids: set<nat>)
    /** Any ids and any delay, at any time after the claim or without one. */
    | RelayMark(relay: nat, published: set<nat>, failed: set<nat>, delay: real)
    /** The broker hands job `job` to a worker: in order, late, repeatedly, or never published at all. */
    | WorkerClaim(worker: nat, job: nat)
    | WorkerRecord(worker: nat, result: ProviderResult, jitter: real)
    /** A sweep whose selection and update are one step. */
    | ReapSweep(priority: Priority, ids: set<nat>)
    /** The two halves of a sweep, with other transactions between them. One selection makes one update. */
    | ReapSelect(priority: Priority, ids: set<nat>)
    | ReapUpdate(ids: set<nat>)

  function Initial(now: real): World {
    World(now, Store(map[], [], []), map[], multiset{})
  }

  /** What the environment must respect for an action to happen at all. */
  ghost predicate Possible(w: World, a: Action) {
    match a
    case Tick(seconds) => 0.0 <= seconds
    case RelayClaim(_, priority, ids) => AllEligible(w.store.jobs, ids, priority, w.now)
    case RelayMark(_, _, _, delay) => 0.0 <= delay
    case WorkerClaim(worker, _) => worker !in w.calls
    case WorkerRecord(worker, _, jitter) =>
      worker in w.calls && w.calls[worker].Sending? && 0.0 <= jitter <= 1.0
    case ReapSweep(priority, ids) => AllStale(w.store.jobs, ids, priority, w.now)
    case ReapSelect(priority, ids) => AllStale(w.store.jobs, ids, priority, w.now)
    case ReapUpdate(ids) => ids in w.sweeps
    case _ => true
  }

  ghost function Step(cfg: Config, w: World, a: Action): World
    requires Possible(w, a)
  {
    match a
    case Tick(seconds) => w.(now := w.now + seconds)
    case CreateUser(u) => w.(store := OpenAccount(w.store, u))
    case AddCredits(u, amount) => w.(store := TopUp(w.store, u, amount))
    case Submit(u, item) => w.(store := SubmitOne(cfg, w.store, u, item, w.now).0)
    case SubmitMany(u, items) => w.(store := SubmitBatch(cfg, w.store, u, items, w.now).0)
    case RelayClaim(relay, _, ids) => w.(store := w.store.(jobs := ClaimAll(w.store.jobs, ids, relay, w.now)))
    case RelayMark(relay, published, failed, delay) =>
      w.(store := w.store.(jobs := Mark(w.store.jobs, published, failed, relay, delay, w.now)))
    case WorkerClaim(worker, j) =>
      var (s', outcome) := ClaimForDelivery(cfg, w.store, j, worker, w.now);
      w.(store := s', calls := w.calls[worker := if outcome.Claimed? then Sending(j) else Ended])
    case WorkerRecord(worker, result, jitter) =>
      var (s', _) := Record(cfg, w.store, w.calls[worker].job, worker, result, jitter, w.now);
      w.(store := s', calls := w.calls[worker := Ended])
    case ReapSweep(_, ids) => w.(store := w.store.(jobs := Reap(w.store.jobs, ids, w.now)))
    case ReapSelect(_, ids) => w.(sweeps := w.sweeps + multiset{ids})
    case ReapUpdate(ids) =>
      w.(store := w.store.(jobs := Reap(w.store.jobs, ids, w.now)), sweeps := w.sweeps - multiset{ids})
  }

  /** Impossible actions do nothing, so every sequence of actions is a run. */
  ghost function Next(cfg: Config, w: World, a: Action): World {
    if Possible(w, a) then Step(cfg, w, a) else w
  }

  ghost function Run(cfg: Config, w: World, actions: seq<Action>): World {
    if actions == [] then w
    else Next(cfg, Run(cfg, w, actions[..|actions| - 1]), actions[|actions| - 1])
  }

  lemma RunStep(cfg: Config, w: World, actions: seq<Action>, k: nat)
    requires k < |actions|
    ensures Run(cfg, w, actions[..k + 1]) == Next(cfg, Run(cfg, w, actions[..k]), actions[k])
  {
    assert actions[..k + 1][..k] == actions[..k];
  }

  /** Runs in which every reaper sweep is atomic. */
  predicate Atomic(actions: seq<Action>) {
    forall i :: 0 <= i < |actions| ==> !actions[i].ReapUpdate?
  }

  lemma {:induction false} RunConcat(cfg: Config, w: World, first: seq<Action>, second: seq<Action>)
    ensures Run(cfg, w, first + second) == Run(cfg, Run(cfg, w, first), second)
  {
    if second == [] {
      assert first + second == first;
    } else {
      var all := first + second;
      assert all[..|all| - 1] == first + second[..|second| - 1];
      RunConcat(cfg, w, first, second[..|second| - 1]);
    }
  }
}

/**
 * The relay's batch selection: a fair pass that interleaves users round by round, then a first-in-first-out top-up.
 * Where the query leaves the order open (equal ages, and how random ids fall) any resolution is allowed: `ranked` and
 * `due` are two listings of the same due jobs, each sorted by age.
 */
module FairBatch {
  /** A due job as the queries see it. `uuid` is its random primary key, `job` its row. */
  datatype Due = Due(job: nat, uuid: nat, userId: int, availableAt: real, createdAt: real)

  predicate NotOlder(a: Due, b: Due) {
    a.availableAt < b.availableAt || (a.availableAt == b.availableAt && a.createdAt <= b.createdAt)
  }

  predicate SortedByAge(ds: seq<Due>) {
    forall i, j :: 0 <= i < j < |ds| ==> NotOlder(ds[i], ds[j])
  }

  /** Rows and primary keys are each listed once. */
  predicate Keyed(ds: seq<Due>) {
    forall i, j :: 0 <= i < j < |ds| ==> ds[i].job != ds[j].job && ds[i].uuid != ds[j].uuid
  }

  /** How many jobs of one user a listing holds. */
  function Picks(ds: seq<Due>, user: int): nat {
    if ds == [] then 0
    else Picks(ds[..|ds| - 1], user) + if ds[|ds| - 1].userId == user then 1 else 0
  }

  /** row_number() over (partition by user order by age): the job's 1-based place among its user's jobs. */
  function Rank(ds: seq<Due>, i: nat): nat
    requires i < |ds|
  {
    Picks(ds[..i + 1], ds[i].userId)
  }

  /** The jobs ranked r, in listing order. */
  function Ranked(ds: seq<Due>, r: nat): seq<Due> {
    if ds == [] then []
    else
      var n := |ds| - 1;
      Ranked(ds[..n], r) + if Rank(ds, n) == r then [ds[n]] else []
  }

  function InsertByUuid(d: Due, ds: seq<Due>): (sorted: seq<Due>)
    ensures multiset(sorted) == multiset(ds) + multiset{d}
  {
    if ds == [] then [d]
    else if d.uuid < ds[0].uuid then [d] + ds
    else
      assert ds == [ds[0]] + ds[1..];
      [ds[0]] + InsertByUuid(d, ds[1..])
  }

  function SortByUuid(ds: seq<Due>): (sorted: seq<Due>)
    ensures multiset(sorted) == multiset(ds)
  {
    if ds == [] then []
    else
      assert ds == ds[..|ds| - 1] + [ds[|ds| - 1]];
      InsertByUuid(ds[|ds| - 1], SortByUuid(ds[..|ds| - 1]))
  }

  /** Round r of the interleaving: every user's r-th oldest job, in primary key order. */
  function Round(ds: seq<Due>, r: nat): seq<Due> {
    SortByUuid(Ranked(ds, r))
  }

  function RoundsOf(ds: seq<Due>): nat -> seq<Due> {
    (r: nat) => Round(ds, r)
  }

  /** Rounds 1 to `rounds`, one after the other. */
  function Rounds(round: nat -> seq<Due>, rounds: nat): seq<Due> {
    if rounds == 0 then [] else Rounds(round, rounds - 1) + round(rounds)
  }

  /** The fair query's `ORDER BY rn, id` over the rows with `rn <= perUser`. */
  function FairOrder(ds: seq<Due>, perUser: nat): seq<Due> {
    Rounds(RoundsOf(ds), perUser)
  }

  function Take(ds: seq<Due>, n: nat): seq<Due> {
    if |ds| <= n then ds else ds[..n]
  }

  /** The ids the fair subquery returns. */
  function FairIds(ranked: seq<Due>, limit: nat, perUser: nat): seq<Due> {
    Take(FairOrder(ranked, perUser), limit)
  }

  /** The jobs of `due` that are (or are not) in `chosen` and not locked by another transaction. */
  function Unlocked(due: seq<Due>, chosen: seq<Due>, wanted: bool, locked: set<nat>): seq<Due> {
    if due == [] then []
    else
      var n := |due| - 1;
      Unlocked(due[..n], chosen, wanted, locked)
      + if (due[n] in chosen <==> wanted) && due[n].job !in locked then [due[n]] else []
  }

  function FairPass(ranked: seq<Due>, due: seq<Due>, locked: set<nat>, limit: nat, perUser: nat): seq<Due> {
    Unlocked(due, FairIds(ranked, limit, perUser), true, locked)
  }

  function TopUpPass(due: seq<Due>, claimed: seq<Due>, locked: set<nat>, room: nat): seq<Due> {
    Take(Unlocked(due, claimed, false, locked), room)
  }

  /** Both passes of claim_batch. */
  function Batch(ranked: seq<Due>, due: seq<Due>, locked: set<nat>, limit: nat, perUser: nat): seq<Due> {
    var fair := FairPass(ranked, due, locked, limit, perUser);
    if |fair| < limit then fair + TopUpPass(due, fair, locked, limit - |fair|) else fair
  }
}

/** What the fair batch guarantees: round-robin fairness, exact size, oldest first, and the per-user cap. */
module FairBatchLaws {
  import opened Domain
  import opened FairBatch

  // ---------------------------------------------------------------- counting picks

  lemma {:induction false} PicksConcat(a: seq<Due>, b: seq<Due>, u: int)
    ensures Picks(a + b, u) == Picks(a, u) + Picks(b, u)
  {
    if b == [] {
      assert a + b == a;
    } else {
      assert (a + b)[..|a + b| - 1] == a + b[..|b| - 1];
      PicksConcat(a, b[..|b| - 1], u);
    }
  }

  lemma PicksWithout(ds: seq<Due>, k: nat, u: int)
    requires k < |ds|
    ensures Picks(ds, u) == Picks(ds[..k] + ds[k + 1..], u) + if ds[k].userId == u then 1 else 0
    ensures multiset(ds[..k] + ds[k + 1..]) == multiset(ds) - multiset{ds[k]}
  {
    assert ds == ds[..k] + [ds[k]] + ds[k + 1..];
    PicksConcat(ds[..k], ds[k + 1..], u);
    PicksConcat(ds[..k] + [ds[k]], ds[k + 1..], u);
    PicksConcat(ds[..k], [ds[k]], u);
    assert [ds[k]][..0] == [];
  }

  lemma {:induction false} PicksOfSame(a: seq<Due>, b: seq<Due>, u: int)
    requires multiset(a) == multiset(b)
    ensures Picks(a, u) == Picks(b, u)
  {
    if a == [] {
      assert |multiset(b)| == 0;
    } else {
      var n := |a| - 1;
      assert a[n] in multiset(b);
      var k :| 0 <= k < |b| && b[k] == a[n];
      PicksWithout(a, n, u);
      PicksWithout(b, k, u);
      assert a[..n] + a[n + 1..] == a[..n];
      PicksOfSame(a[..n], b[..k] + b[k + 1..], u);
    }
  }

  lemma {:induction false} PicksPrefix(ds: seq<Due>, n: nat, u: int)
    ensures Picks(Take(ds, n), u) <= Picks(ds, u)
  {
    if n < |ds| {
      assert ds == ds[..n] + ds[n..];
      PicksConcat(ds[..n], ds[n..], u);
    }
  }

  // ---------------------------------------------------------------- members

  lemma {:induction false} RankedMember(ds: seq<Due>, r: nat, d: Due)
    ensures d in Ranked(ds, r) <==> exists i :: 0 <= i < |ds| && ds[i] == d && Rank(ds, i) == r
  {
    if ds != [] {
      var n := |ds| - 1;
      RankedMember(ds[..n], r, d);
      forall i | 0 <= i < n
        ensures ds[..n][i] == ds[i] && Rank(ds[..n], i) == Rank(ds, i)
      {
        assert ds[..n][..i + 1] == ds[..i + 1];
      }
    }
  }

  lemma RoundMember(ds: seq<Due>, r: nat, d: Due)
    ensures d in Round(ds, r) <==> exists i :: 0 <= i < |ds| && ds[i] == d && Rank(ds, i) == r
  {
    RankedMember(ds, r, d);
    assert d in Round(ds, r) <==> d in multiset(Round(ds, r));
    assert d in Ranked(ds, r) <==> d in multiset(Ranked(ds, r));
  }

  lemma {:induction false} UnlockedMember(due: seq<Due>, chosen: seq<Due>, wanted: bool, locked: set<nat>, d: Due)
    ensures d in Unlocked(due, chosen, wanted, locked)
       <==> d in due && (d in chosen <==> wanted) && d.job !in locked
  {
    if due != [] {
      var n := |due| - 1;
      UnlockedMember(due[..n], chosen, wanted, locked, d);
      assert due == due[..n] + [due[n]];
    }
  }

  // ---------------------------------------------------------------- rounds

  /** Round r has one job of every user with at least r due jobs, and none of the others. */
  lemma {:induction false} PicksRanked(ds: seq<Due>, r: nat, u: int)
    ensures Picks(Ranked(ds, r), u) == if 1 <= r <= Picks(ds, u) then 1 else 0
  {
    if ds != [] {
      var n := |ds| - 1;
      PicksRanked(ds[..n], r, u);
      assert ds[..n + 1] == ds;
      assert Rank(ds, n) == Picks(ds[..n], ds[n].userId) + 1;
      PicksConcat(Ranked(ds[..n], r), if Rank(ds, n) == r then [ds[n]] else [], u);
      assert [ds[n]][..0] == [];
    }
  }

  lemma PicksRound(ds: seq<Due>, r: nat, u: int)
    ensures Picks(Round(ds, r), u) == if 1 <= r <= Picks(ds, u) then 1 else 0
  {
    PicksRanked(ds, r, u);
    PicksOfSame(Round(ds, r), Ranked(ds, r), u);
  }

  /** `u` has one job in each of the first n rounds and none later. */
  ghost predicate OnePerRound(round: nat -> seq<Due>, u: int, n: nat) {
    forall r: nat :: Picks(round(r), u) == if 1 <= r <= n then 1 else 0
  }

  lemma RoundsOfOnePerRound(ds: seq<Due>, u: int)
    ensures OnePerRound(RoundsOf(ds), u, Picks(ds, u))
  {
    forall r: nat
      ensures Picks(RoundsOf(ds)(r), u) == if 1 <= r <= Picks(ds, u) then 1 else 0
    {
      PicksRound(ds, r, u);
    }
  }

  lemma {:induction false} PicksRounds(round: nat -> seq<Due>, rounds: nat, u: int, n: nat)
    requires OnePerRound(round, u, n)
    ensures Picks(Rounds(round, rounds), u) == Min(n, rounds)
  {
    if rounds != 0 {
      PicksRounds(round, rounds - 1, u, n);
      PicksConcat(Rounds(round, rounds - 1), round(rounds), u);
    }
  }

  /** Cutting the rounds at `limit` leaves some full rounds and part of the next one. */
  lemma {:induction false} CutRounds(round: nat -> seq<Due>, rounds: nat, limit: nat)
    returns (full: nat, part: seq<Due>, k: nat)
    ensures full <= rounds
    ensures Take(Rounds(round, rounds), limit) == Rounds(round, full) + part
    ensures if full == rounds then part == [] else part == Take(round(full + 1), k)
  {
    k := 0;
    if |Rounds(round, rounds)| <= limit {
      full, part := rounds, [];
    } else {
      var earlier, last := Rounds(round, rounds - 1), round(rounds);
      if limit < |earlier| {
        full, part, k := CutRounds(round, rounds - 1, limit);
        assert (earlier + last)[..limit] == earlier[..limit];
        assert |Take(earlier, limit)| == limit < |Rounds(round, rounds - 1)|;
      } else {
        full, k := rounds - 1, limit - |earlier|;
        part := last[..k];
        assert (earlier + last)[..limit] == earlier + part;
      }
    }
  }

  /** In the first `limit` jobs of the interleaving any two users differ by at most one round. */
  lemma PicksBetween(round: nat -> seq<Due>, rounds: nat, limit: nat) returns (full: nat)
    ensures full <= rounds
    ensures forall u, n: nat {:trigger OnePerRound(round, u, n)} :: OnePerRound(round, u, n) ==>
              && Min(n, full) <= Picks(Take(Rounds(round, rounds), limit), u) <= full + 1
              && Picks(Take(Rounds(round, rounds), limit), u) <= rounds
  {
    var part, k;
    full, part, k := CutRounds(round, rounds, limit);
    forall u, n: nat | OnePerRound(round, u, n)
      ensures Min(n, full) <= Picks(Take(Rounds(round, rounds), limit), u) <= full + 1
      ensures Picks(Take(Rounds(round, rounds), limit), u) <= rounds
    {
      PicksConcat(Rounds(round, full), part, u);
      PicksRounds(round, full, u, n);
      if full < rounds {
        PicksPrefix(round(full + 1), k, u);
      }
    }
  }

  // ---------------------------------------------------------------- nothing is listed twice

  /** Adding one job to one round adds it to the interleaving. */
  lemma {:induction false} RoundsGrow(round: nat -> seq<Due>, round': nat -> seq<Due>, d: Due, k: nat, rounds: nat)
    requires forall r: nat :: multiset(round'(r)) == multiset(round(r)) + if r == k then multiset{d} else multiset{}
    ensures multiset(Rounds(round', rounds)) == multiset(Rounds(round, rounds))
              + if 1 <= k <= rounds then multiset{d} else multiset{}
  {
    if rounds != 0 {
      RoundsGrow(round, round', d, k, rounds - 1);
    }
  }

  lemma RoundsOfGrow(ds: seq<Due>, r: nat)
    requires ds != []
    ensures var n := |ds| - 1;
            multiset(Round(ds, r)) == multiset(Round(ds[..n], r))
              + if r == Rank(ds, n) then multiset{ds[n]} else multiset{}
  {
  }

  lemma FairOrderGrows(ds: seq<Due>, perUser: nat)
    requires ds != []
    ensures var n := |ds| - 1;
            multiset(Rounds(RoundsOf(ds), perUser)) == multiset(Rounds(RoundsOf(ds[..n]), perUser))
              + if 1 <= Rank(ds, n) <= perUser then multiset{ds[n]} else multiset{}
  {
    var n := |ds| - 1;
    forall r: nat
      ensures multiset(RoundsOf(ds)(r)) == multiset(RoundsOf(ds[..n])(r))
                + if r == Rank(ds, n) then multiset{ds[n]} else multiset{}
    {
      RoundsOfGrow(ds, r);
    }
    RoundsGrow(RoundsOf(ds[..n]), RoundsOf(ds), ds[n], Rank(ds, n), perUser);
  }

  lemma {:induction false} FairOrderWithin(ds: seq<Due>, perUser: nat)
    ensures multiset(FairOrder(ds, perUser)) <= multiset(ds)
  {
    if ds == [] {
      NoRounds(perUser);
    } else {
      var n := |ds| - 1;
      FairOrderWithin(ds[..n], perUser);
      FairOrderGrows(ds, perUser);
      assert ds == ds[..n] + [ds[n]];
    }
  }

  lemma {:induction false} NoRounds(rounds: nat)
    ensures Rounds(RoundsOf([]), rounds) == []
  {
    if rounds != 0 {
      NoRounds(rounds - 1);
      assert Ranked([], rounds) == [] && SortByUuid([]) == [];
    }
  }

  lemma {:induction false} KeyedOnce(ds: seq<Due>, d: Due)
    requires Keyed(ds)
    ensures multiset(ds)[d] == if d in ds then 1 else 0
  {
    if ds != [] {
      var n := |ds| - 1;
      assert ds == ds[..n] + [ds[n]];
      KeyedOnce(ds[..n], d);
    }
  }

  lemma TakeWithin(ds: seq<Due>, n: nat)
    ensures multiset(Take(ds, n)) <= multiset(ds)
  {
    if n < |ds| {
      assert ds == ds[..n] + ds[n..];
    }
  }

  predicate Kept(d: Due, chosen: seq<Due>, wanted: bool, locked: set<nat>) {
    (d in chosen <==> wanted) && d.job !in locked
  }

  lemma UnlockedGrows(due: seq<Due>, chosen: seq<Due>, wanted: bool, locked: set<nat>)
    requires due != []
    ensures var n := |due| - 1;
            multiset(Unlocked(due, chosen, wanted, locked)) == multiset(Unlocked(due[..n], chosen, wanted, locked))
              + if Kept(due[n], chosen, wanted, locked) then multiset{due[n]} else multiset{}
  {
  }

  lemma SplitGrows(yes: multiset<Due>, no: multiset<Due>, all: multiset<Due>, listed: multiset<Due>, d: Due,
                   kept: bool, chosen: bool)
    requires yes + no == all <= listed
    ensures (yes + if chosen && kept then multiset{d} else multiset{})
          + (no + if !chosen && kept then multiset{d} else multiset{})
         == (all + if kept then multiset{d} else multiset{})
    ensures (all + if kept then multiset{d} else multiset{}) <= listed + multiset{d}
  {
  }

  /** The three filters of one listing, as multisets. */
  ghost predicate Splits(due: seq<Due>, yes: multiset<Due>, no: multiset<Due>, all: multiset<Due>) {
    yes + no == all <= multiset(due)
  }

  lemma {:induction false} UnlockedSplits(due: seq<Due>, chosen: seq<Due>, locked: set<nat>)
    ensures Splits(due, multiset(Unlocked(due, chosen, true, locked)), multiset(Unlocked(due, chosen, false, locked)),
                   multiset(Unlocked(due, [], false, locked)))
  {
    if due != [] {
      var n := |due| - 1;
      var d := due[n];
      UnlockedSplits(due[..n], chosen, locked);
      UnlockedGrows(due, chosen, true, locked);
      UnlockedGrows(due, chosen, false, locked);
      UnlockedGrows(due, [], false, locked);
      LastOf(due);
      SplitGrows(multiset(Unlocked(due[..n], chosen, true, locked)),
                 multiset(Unlocked(due[..n], chosen, false, locked)),
                 multiset(Unlocked(due[..n], [], false, locked)), multiset(due[..n]),
                 d, d.job !in locked, d in chosen);
    }
  }

  lemma LastOf(ds: seq<Due>)
    requires ds != []
    ensures multiset(ds) == multiset(ds[..|ds| - 1]) + multiset{ds[|ds| - 1]}
  {
    assert ds == ds[..|ds| - 1] + [ds[|ds| - 1]];
  }

  lemma {:induction false} UnlockedSame(due: seq<Due>, c: seq<Due>, c': seq<Due>, wanted: bool, locked: set<nat>)
    requires forall d :: d in due && d.job !in locked ==> (d in c <==> d in c')
    ensures Unlocked(due, c, wanted, locked) == Unlocked(due, c', wanted, locked)
  {
    if due != [] {
      assert forall d :: d in due[..|due| - 1] ==> d in due;
      UnlockedSame(due[..|due| - 1], c, c', wanted, locked);
    }
  }

  lemma SubmultisetSize(a: multiset<Due>, b: multiset<Due>)
    requires a <= b
    ensures |a| <= |b|
  {
    assert b == a + (b - a);
  }

  /** The two listings of one query: the same due jobs, each once, each by age. */
  predicate Listings(ranked: seq<Due>, due: seq<Due>) {
    && multiset(ranked) == multiset(due)
    && Keyed(due)
    && SortedByAge(ranked)
    && SortedByAge(due)
  }

  lemma FairPassWithin(ranked: seq<Due>, due: seq<Due>, locked: set<nat>, limit: nat, perUser: nat)
    requires Listings(ranked, due)
    ensures var fair := FairPass(ranked, due, locked, limit, perUser);
      && multiset(fair) <= multiset(FairIds(ranked, limit, perUser))
      && |fair| <= limit
      && (locked == {} ==> multiset(fair) == multiset(FairIds(ranked, limit, perUser)))
  {
    var ids := FairIds(ranked, limit, perUser);
    var fair := FairPass(ranked, due, locked, limit, perUser);
    FairOrderWithin(ranked, perUser);
    TakeWithin(FairOrder(ranked, perUser), limit);
    UnlockedSplits(due, ids, locked);
    forall d
      ensures multiset(fair)[d] <= multiset(ids)[d]
      ensures locked == {} ==> multiset(fair)[d] == multiset(ids)[d]
    {
      KeyedOnce(due, d);
      UnlockedMember(due, ids, true, locked, d);
      assert multiset(ids)[d] <= multiset(due)[d];
      assert d in fair <==> d in multiset(fair);
      assert d in ids <==> d in multiset(ids);
      assert d in due <==> d in multiset(due);
    }
    SubmultisetSize(multiset(fair), multiset(ids));
  }

  // ---------------------------------------------------------------- property 9

  /**
   * Property 9. With no rows skipped, if the fair pass takes m jobs of one user then every other user with n due
   * jobs gets at least min(n, m - 1).
   */
  lemma RoundRobinFair(ranked: seq<Due>, due: seq<Due>, limit: nat, perUser: nat, greedy: int, other: int)
    requires Listings(ranked, due)
    ensures var fair := FairPass(ranked, due, {}, limit, perUser);
            Min(Picks(due, other), Picks(fair, greedy) - 1) <= Picks(fair, other)
  {
    var ids, fair := FairIds(ranked, limit, perUser), FairPass(ranked, due, {}, limit, perUser);
    FairPassWithin(ranked, due, {}, limit, perUser);
    PicksOfSame(fair, ids, greedy);
    PicksOfSame(fair, ids, other);
    PicksOfSame(ranked, due, other);
    RoundsOfOnePerRound(ranked, greedy);
    RoundsOfOnePerRound(ranked, other);
    var full := PicksBetween(RoundsOf(ranked), perUser, limit);
  }

  function Users(ds: seq<Due>): set<int> {
    set d | d in ds :: d.userId
  }

  lemma {:induction false} FirstRoundSize(ds: seq<Due>)
    ensures |Ranked(ds, 1)| == |Users(ds)|
  {
    if ds == [] {
      assert Users(ds) == {};
    } else {
      var n := |ds| - 1;
      FirstRoundSize(ds[..n]);
      assert ds[..n + 1] == ds;
      assert Users(ds) == Users(ds[..n]) + {ds[n].userId};
      PicksPositive(ds[..n], ds[n].userId);
    }
  }

  lemma {:induction false} PicksPositive(ds: seq<Due>, u: int)
    ensures 0 < Picks(ds, u) <==> u in Users(ds)
  {
    if ds != [] {
      var n := |ds| - 1;
      PicksPositive(ds[..n], u);
      assert Users(ds) == Users(ds[..n]) + {ds[n].userId};
    }
  }

  lemma {:induction false} RanksRise(ds: seq<Due>, i: nat, j: nat)
    requires i < j < |ds| && ds[i].userId == ds[j].userId
    ensures Rank(ds, i) < Rank(ds, j)
  {
    var u := ds[i].userId;
    assert ds[..j + 1] == ds[..i + 1] + ds[i + 1..j] + [ds[j]];
    PicksConcat(ds[..i + 1], ds[i + 1..j], u);
    PicksConcat(ds[..i + 1] + ds[i + 1..j], [ds[j]], u);
    assert [ds[j]][..0] == [];
  }

  /** A user's higher-ranked jobs are never older than its lower-ranked ones. */
  lemma RankIsAge(ds: seq<Due>, i: nat, j: nat)
    requires SortedByAge(ds) && i < |ds| && j < |ds|
    requires ds[i].userId == ds[j].userId && Rank(ds, i) <= Rank(ds, j)
    ensures i <= j && NotOlder(ds[i], ds[j])
  {
    if j < i {
      RanksRise(ds, j, i);
    }
  }

  lemma {:induction false} RoundsHold(round: nat -> seq<Due>, rounds: nat, r: nat, d: Due)
    requires 1 <= r <= rounds && d in round(r)
    ensures d in Rounds(round, rounds)
  {
    if r < rounds {
      RoundsHold(round, rounds - 1, r, d);
    }
  }

  lemma {:induction false} HeldByRound(round: nat -> seq<Due>, rounds: nat, d: Due) returns (r: nat)
    requires d in Rounds(round, rounds)
    ensures 1 <= r <= rounds && d in round(r)
  {
    if d in round(rounds) {
      r := rounds;
    } else {
      r := HeldByRound(round, rounds - 1, d);
    }
  }

  lemma {:induction false} OldestExists(ds: seq<Due>, u: int) returns (i: nat)
    requires 0 < Picks(ds, u)
    ensures i < |ds| && ds[i].userId == u && Rank(ds, i) == 1
  {
    var n := |ds| - 1;
    if 0 < Picks(ds[..n], u) {
      i := OldestExists(ds[..n], u);
      assert ds[..n][..i + 1] == ds[..i + 1];
    } else {
      i := n;
      assert ds[..n + 1] == ds;
    }
  }

  /** Property 9. If there is room for every user with due work, each gets its oldest job into the fair pass. */
  lemma {:induction false} EveryUserGetsItsOldest(ranked: seq<Due>, due: seq<Due>, limit: nat, perUser: nat, u: int)
    requires Listings(ranked, due) && 1 <= perUser && |Users(due)| <= limit && 0 < Picks(due, u)
    ensures exists d :: d in FairPass(ranked, due, {}, limit, perUser) && d.userId == u
                        && forall x :: x in due && x.userId == u ==> NotOlder(d, x)
  {
    var ids, fair := FairIds(ranked, limit, perUser), FairPass(ranked, due, {}, limit, perUser);
    FairPassWithin(ranked, due, {}, limit, perUser);
    PicksOfSame(ranked, due, u);
    assert forall d :: d in ranked <==> d in multiset(ranked);
    assert forall d :: d in due <==> d in multiset(due);
    assert Users(ranked) == Users(due);
    FirstRoundSize(ranked);
    assert |multiset(Round(ranked, 1))| == |multiset(Ranked(ranked, 1))|;
    FirstRoundLeads(RoundsOf(ranked), perUser);
    var i := OldestExists(ranked, u);
    RoundMember(ranked, 1, ranked[i]);
    var k :| 0 <= k < |Round(ranked, 1)| && Round(ranked, 1)[k] == ranked[i];
    assert ids[k] == ranked[i];
    UnlockedMember(due, ids, true, {}, ranked[i]);
    forall x | x in due && x.userId == u
      ensures NotOlder(ranked[i], x)
    {
      assert x in ranked;
      var j :| 0 <= j < |ranked| && ranked[j] == x;
      RankAtLeastOne(ranked, j);
      RankIsAge(ranked, i, j);
    }
  }

  lemma RankAtLeastOne(ds: seq<Due>, i: nat)
    requires i < |ds|
    ensures 1 <= Rank(ds, i)
  {
    assert ds[..i + 1][..i] == ds[..i];
  }

  lemma {:induction false} FirstRoundLeads(round: nat -> seq<Due>, rounds: nat)
    requires 1 <= rounds
    ensures round(1) <= Rounds(round, rounds)
  {
    if 1 < rounds {
      FirstRoundLeads(round, rounds - 1);
    } else {
      assert Rounds(round, 1) == Rounds(round, 0) + round(1);
    }
  }

  // ---------------------------------------------------------------- property 10

  /** The fair pass is what it keeps of itself, so the two passes split the unlocked jobs. */
  lemma {:induction false} FairPassSplits(ranked: seq<Due>, due: seq<Due>, locked: set<nat>, limit: nat, perUser: nat)
    ensures var fair := FairPass(ranked, due, locked, limit, perUser);
      && multiset(fair) + multiset(Unlocked(due, fair, false, locked)) == multiset(Unlocked(due, [], false, locked))
      && multiset(fair) + multiset(Unlocked(due, fair, false, locked)) <= multiset(due)
  {
    var ids, fair := FairIds(ranked, limit, perUser), FairPass(ranked, due, locked, limit, perUser);
    forall d | d in due && d.job !in locked
      ensures d in ids <==> d in fair
    {
      UnlockedMember(due, ids, true, locked, d);
    }
    UnlockedSame(due, ids, fair, true, locked);
    UnlockedSplits(due, fair, locked);
  }

  lemma SplitSize(a: seq<Due>, b: seq<Due>, c: seq<Due>)
    requires multiset(a) + multiset(b) == multiset(c)
    ensures |a| + |b| == |c|
  {
    assert |multiset(a) + multiset(b)| == |multiset(c)|;
  }

  lemma FilledWithin(a: seq<Due>, b: seq<Due>, n: nat)
    ensures multiset(a + Take(b, n)) <= multiset(a) + multiset(b)
  {
    TakeWithin(b, n);
  }

  lemma {:induction false} BatchWithin(ranked: seq<Due>, due: seq<Due>, locked: set<nat>, limit: nat, perUser: nat)
    requires Listings(ranked, due)
    ensures var batch := Batch(ranked, due, locked, limit, perUser);
      && multiset(batch) <= multiset(Unlocked(due, [], false, locked)) <= multiset(due)
      && |batch| == Min(limit, |Unlocked(due, [], false, locked)|)
  {
    var fair := FairPass(ranked, due, locked, limit, perUser);
    var rest := Unlocked(due, fair, false, locked);
    var free := Unlocked(due, [], false, locked);
    FairPassWithin(ranked, due, locked, limit, perUser);
    FairPassSplits(ranked, due, locked, limit, perUser);
    SplitSize(fair, rest, free);
    if |fair| < limit {
      FilledWithin(fair, rest, limit - |fair|);
    }
  }

  /** Property 10. The batch has no duplicates, only due unlocked jobs, and is as large as it can be. */
  lemma BatchIsFull(ranked: seq<Due>, due: seq<Due>, locked: set<nat>, limit: nat, perUser: nat)
    requires Listings(ranked, due)
    ensures var batch := Batch(ranked, due, locked, limit, perUser);
      && Keyed(batch)
      && (forall d :: d in batch ==> d in due && d.job !in locked)
      && |batch| == Min(limit, |Unlocked(due, [], false, locked)|)
  {
    var batch, free := Batch(ranked, due, locked, limit, perUser), Unlocked(due, [], false, locked);
    BatchWithin(ranked, due, locked, limit, perUser);
    WithinIsKeyed(batch, due);
    forall d | d in batch
      ensures d in due && d.job !in locked
    {
      assert d in multiset(batch);
      assert d in multiset(free);
      UnlockedMember(due, [], false, locked, d);
    }
  }

  lemma WithinIsKeyed(ds: seq<Due>, due: seq<Due>)
    requires Keyed(due) && multiset(ds) <= multiset(due)
    ensures Keyed(ds)
  {
    forall i, j | 0 <= i < j < |ds|
      ensures ds[i].job != ds[j].job && ds[i].uuid != ds[j].uuid
    {
      assert ds[i] in multiset(due) && ds[j] in multiset(due);
      TwiceInSequence(ds, i, j);
      KeyedOnce(due, ds[i]);
      assert multiset(ds)[ds[i]] <= 1;
      var k :| 0 <= k < |due| && due[k] == ds[i];
      var l :| 0 <= l < |due| && due[l] == ds[j];
    }
  }

  lemma TwiceInSequence(ds: seq<Due>, i: nat, j: nat)
    requires i < j < |ds|
    ensures ds[i] == ds[j] ==> 2 <= multiset(ds)[ds[i]]
  {
    assert ds == ds[..j] + [ds[j]] + ds[j + 1..];
    assert ds[i] in ds[..j];
    assert ds[i] in multiset(ds[..j]);
  }

  lemma {:induction false} UnlockedSorted(due: seq<Due>, chosen: seq<Due>, wanted: bool, locked: set<nat>)
    requires SortedByAge(due)
    ensures SortedByAge(Unlocked(due, chosen, wanted, locked))
  {
    if due != [] {
      var n := |due| - 1;
      UnlockedSorted(due[..n], chosen, wanted, locked);
      var rest := Unlocked(due[..n], chosen, wanted, locked);
      forall i | 0 <= i < |rest|
        ensures NotOlder(rest[i], due[n])
      {
        UnlockedMember(due[..n], chosen, wanted, locked, rest[i]);
      }
    }
  }

  /** The batch is published oldest first within each pass, the fair pass before the top-up. */
  lemma BatchInAgeOrder(ranked: seq<Due>, due: seq<Due>, locked: set<nat>, limit: nat, perUser: nat)
    requires Listings(ranked, due)
    ensures var batch := Batch(ranked, due, locked, limit, perUser);
            var fair := FairPass(ranked, due, locked, limit, perUser);
      && |fair| <= |batch|
      && batch[..|fair|] == fair
      && SortedByAge(fair)
      && SortedByAge(batch[|fair|..])
  {
    var fair := FairPass(ranked, due, locked, limit, perUser);
    UnlockedSorted(due, FairIds(ranked, limit, perUser), true, locked);
    UnlockedSorted(due, fair, false, locked);
    if |fair| < limit {
      var topUp := TopUpPass(due, fair, locked, limit - |fair|);
      assert (fair + topUp)[..|fair|] == fair && (fair + topUp)[|fair|..] == topUp;
    }
  }

  /** Jobs in the cut interleaving sit in rounds no later than those left out. */
  lemma CutIsEarlier(round: nat -> seq<Due>, rounds: nat, limit: nat, y: Due, x: Due, rx: nat) returns (ry: nat)
    requires y in Take(Rounds(round, rounds), limit) && x !in Take(Rounds(round, rounds), limit)
    requires 1 <= rx && x in round(rx)
    ensures 1 <= ry <= rx && y in round(ry)
  {
    var full, part, k := CutRounds(round, rounds, limit);
    if rx <= full {
      RoundsHold(round, full, rx, x);
    }
    if y in Rounds(round, full) {
      ry := HeldByRound(round, full, y);
    } else {
      ry := full + 1;
    }
  }

  /** In the fair pass a user's picks are its lowest ranks. */
  lemma FairIdsAreOldest(ranked: seq<Due>, limit: nat, perUser: nat, y: Due, x: Due)
    requires SortedByAge(ranked) && x in ranked && y.userId == x.userId
    requires y in FairIds(ranked, limit, perUser) && x !in FairIds(ranked, limit, perUser)
    ensures NotOlder(y, x)
  {
    var j :| 0 <= j < |ranked| && ranked[j] == x;
    RankAtLeastOne(ranked, j);
    RoundMember(ranked, Rank(ranked, j), x);
    var r := CutIsEarlier(RoundsOf(ranked), perUser, limit, y, x, Rank(ranked, j));
    RoundMember(ranked, r, y);
    var i :| 0 <= i < |ranked| && ranked[i] == y && Rank(ranked, i) == r;
    RankIsAge(ranked, i, j);
  }

  /**
   * Property 10. With no rows skipped, whatever a user gets into the batch is not younger than anything of that
   * user's left out: its picks are a prefix of its (available_at, created_at) order, up to ties.
   */
  lemma PicksAreOldest(ranked: seq<Due>, due: seq<Due>, limit: nat, perUser: nat, y: Due, x: Due)
    requires Listings(ranked, due)
    requires y in Batch(ranked, due, {}, limit, perUser)
    requires x in due && x !in Batch(ranked, due, {}, limit, perUser) && x.userId == y.userId
    ensures NotOlder(y, x)
  {
    var ids, fair := FairIds(ranked, limit, perUser), FairPass(ranked, due, {}, limit, perUser);
    FairPassWithin(ranked, due, {}, limit, perUser);
    assert x in multiset(ranked) && x !in fair;
    UnlockedMember(due, ids, true, {}, x);
    UnlockedMember(due, ids, true, {}, y);
    if y in fair {
      FairIdsAreOldest(ranked, limit, perUser, y, x);
    } else {
      var rest := Unlocked(due, fair, false, {});
      var room := limit - |fair|;
      UnlockedSorted(due, fair, false, {});
      UnlockedMember(due, fair, false, {}, x);
      assert y in Take(rest, room) && x !in Take(rest, room);
      var i :| 0 <= i < |Take(rest, room)| && Take(rest, room)[i] == y;
      var j :| 0 <= j < |rest| && rest[j] == x;
      assert |Take(rest, room)| <= j && rest[i] == y;
    }
  }

  /** Total of the users' backlogs, each capped. */
  function CappedBacklog(ds: seq<Due>, users: seq<int>, cap: nat): nat {
    if users == [] then 0
    else CappedBacklog(ds, users[..|users| - 1], cap) + Min(Picks(ds, users[|users| - 1]), cap)
  }

  predicate ListsUsers(users: seq<int>, ds: seq<Due>) {
    && (forall i, j :: 0 <= i < j < |users| ==> users[i] != users[j])
    && (forall d :: d in ds ==> d.userId in users)
  }

  /** How many of `ds` belong to the listed users. */
  function Owned(ds: seq<Due>, users: seq<int>): nat {
    if users == [] then 0 else Owned(ds, users[..|users| - 1]) + Picks(ds, users[|users| - 1])
  }

  lemma {:induction false} OwnedGrows(ds: seq<Due>, users: seq<int>)
    requires ds != [] && forall i, j :: 0 <= i < j < |users| ==> users[i] != users[j]
    ensures Owned(ds, users) == Owned(ds[..|ds| - 1], users) + if ds[|ds| - 1].userId in users then 1 else 0
  {
    if users != [] {
      var n := |users| - 1;
      OwnedGrows(ds, users[..n]);
      assert users == users[..n] + [users[n]];
    }
  }

  lemma {:induction false} OwnedNothing(users: seq<int>)
    ensures Owned([], users) == 0
  {
    if users != [] {
      OwnedNothing(users[..|users| - 1]);
    }
  }

  lemma {:induction false} LengthByUser(ds: seq<Due>, users: seq<int>)
    requires ListsUsers(users, ds)
    ensures |ds| == Owned(ds, users)
  {
    if ds == [] {
      OwnedNothing(users);
    } else {
      assert forall d :: d in ds[..|ds| - 1] ==> d in ds;
      LengthByUser(ds[..|ds| - 1], users);
      OwnedGrows(ds, users);
    }
  }

  lemma {:induction false} FairOrderOwned(ds: seq<Due>, users: seq<int>, cap: nat)
    ensures Owned(FairOrder(ds, cap), users) == CappedBacklog(ds, users, cap)
  {
    if users != [] {
      var u := users[|users| - 1];
      FairOrderOwned(ds, users[..|users| - 1], cap);
      RoundsOfOnePerRound(ds, u);
      PicksRounds(RoundsOf(ds), cap, u, Picks(ds, u));
    }
  }

  lemma {:induction false} SameBacklog(ranked: seq<Due>, due: seq<Due>, users: seq<int>, cap: nat)
    requires multiset(ranked) == multiset(due)
    ensures CappedBacklog(ranked, users, cap) == CappedBacklog(due, users, cap)
  {
    if users != [] {
      SameBacklog(ranked, due, users[..|users| - 1], cap);
      PicksOfSame(ranked, due, users[|users| - 1]);
    }
  }

  lemma {:induction false} PicksWithin(a: seq<Due>, b: seq<Due>, u: int)
    requires multiset(a) <= multiset(b)
    ensures Picks(a, u) <= Picks(b, u)
  {
    if a != [] {
      var n := |a| - 1;
      assert a[n] in multiset(b);
      var k :| 0 <= k < |b| && b[k] == a[n];
      PicksWithout(a, n, u);
      PicksWithout(b, k, u);
      assert a[..n] + a[n + 1..] == a[..n];
      PicksWithin(a[..n], b[..k] + b[k + 1..], u);
    }
  }

  /** With no rows skipped the fair pass holds the whole capped backlog, or fills the batch on its own. */
  lemma FairPassCapped(ranked: seq<Due>, due: seq<Due>, limit: nat, perUser: nat, users: seq<int>)
    requires Listings(ranked, due) && ListsUsers(users, due)
    ensures var fair := FairPass(ranked, due, {}, limit, perUser);
      && |fair| == Min(limit, CappedBacklog(due, users, perUser))
      && (forall u :: Picks(fair, u) <= perUser)
      && (|fair| < limit ==> forall u :: Picks(fair, u) == Min(Picks(due, u), perUser))
  {
    var ids, fair := FairIds(ranked, limit, perUser), FairPass(ranked, due, {}, limit, perUser);
    FairPassWithin(ranked, due, {}, limit, perUser);
    FairOrderWithin(ranked, perUser);
    var order := FairOrder(ranked, perUser);
    forall d | d in order
      ensures d.userId in users
    {
      assert d in multiset(order);
      assert d in multiset(due) && d in due;
    }
    LengthByUser(order, users);
    FairOrderOwned(ranked, users, perUser);
    SameBacklog(ranked, due, users, perUser);
    assert |multiset(fair)| == |multiset(ids)|;
    var full := PicksBetween(RoundsOf(ranked), perUser, limit);
    forall u
      ensures Picks(fair, u) <= perUser
      ensures |fair| < limit ==> Picks(fair, u) == Min(Picks(due, u), perUser)
    {
      PicksOfSame(fair, ids, u);
      PicksOfSame(ranked, due, u);
      RoundsOfOnePerRound(ranked, u);
      PicksRounds(RoundsOf(ranked), perUser, u, Picks(ranked, u));
    }
  }

  /** If capping costs nothing in total, no listed user's backlog exceeds the cap. */
  lemma {:induction false} NothingCapped(ds: seq<Due>, users: seq<int>, cap: nat)
    ensures CappedBacklog(ds, users, cap) <= Owned(ds, users)
    ensures CappedBacklog(ds, users, cap) == Owned(ds, users) ==> forall u :: u in users ==> Picks(ds, u) <= cap
  {
    if users != [] {
      NothingCapped(ds, users[..|users| - 1], cap);
    }
  }

  /** The top-up gives some user a job beyond the cap. */
  lemma TopUpExceeds(ranked: seq<Due>, due: seq<Due>, limit: nat, perUser: nat, users: seq<int>) returns (u: int)
    requires Listings(ranked, due) && ListsUsers(users, due)
    requires CappedBacklog(due, users, perUser) < Min(limit, |due|)
    ensures perUser < Picks(Batch(ranked, due, {}, limit, perUser), u)
  {
    var fair := FairPass(ranked, due, {}, limit, perUser);
    var rest := Unlocked(due, fair, false, {});
    FairPassCapped(ranked, due, limit, perUser, users);
    FairPassSplits(ranked, due, {}, limit, perUser);
    AllUnlocked(due);
    SplitSize(fair, rest, due);
    u := rest[0].userId;
    FirstBeyond(fair, rest, due, u);
    ToppedUpBeyond(fair, rest, limit - |fair|, u);
  }

  lemma ToppedUpBeyond(fair: seq<Due>, rest: seq<Due>, room: nat, u: int)
    requires rest != [] && rest[0].userId == u && 0 < room
    ensures Picks(fair, u) < Picks(fair + Take(rest, room), u)
  {
    assert Take(rest, room)[0] == rest[0];
    FirstCounts(fair, Take(rest, room), u);
  }

  lemma FirstBeyond(fair: seq<Due>, rest: seq<Due>, due: seq<Due>, u: int)
    requires rest != [] && rest[0].userId == u && multiset(fair) + multiset(rest) == multiset(due)
    ensures Picks(fair, u) < Picks(due, u)
  {
    FilledWithin(fair, rest, 1);
    PicksWithin(fair + Take(rest, 1), due, u);
    FirstCounts(fair, Take(rest, 1), u);
  }

  lemma FirstCounts(fair: seq<Due>, more: seq<Due>, u: int)
    requires more != [] && more[0].userId == u
    ensures Picks(fair, u) < Picks(fair + more, u)
  {
    PicksConcat(fair, more, u);
    PicksWithout(more, 0, u);
  }

  lemma {:induction false} AllUnlocked(due: seq<Due>)
    ensures Unlocked(due, [], false, {}) == due
  {
    if due != [] {
      AllUnlocked(due[..|due| - 1]);
    }
  }

  /**
   * Property 10. With no rows skipped, every user stays within `perUser` exactly when the backlogs, each capped at
   * `perUser`, already fill the batch or leave nothing over to top it up with.
   */
  lemma CapHoldsIff(ranked: seq<Due>, due: seq<Due>, limit: nat, perUser: nat, users: seq<int>)
    requires Listings(ranked, due) && ListsUsers(users, due)
    ensures (forall u :: Picks(Batch(ranked, due, {}, limit, perUser), u) <= perUser)
       <==> Min(limit, |due|) <= CappedBacklog(due, users, perUser)
  {
    if CappedBacklog(due, users, perUser) < Min(limit, |due|) {
      var u := TopUpExceeds(ranked, due, limit, perUser, users);
    } else {
      FairPassCapped(ranked, due, limit, perUser, users);
      var batch := Batch(ranked, due, {}, limit, perUser);
      forall u
        ensures Picks(batch, u) <= perUser
      {
        if CappedBacklog(due, users, perUser) < limit {
          BatchWithin(ranked, due, {}, limit, perUser);
          PicksWithin(batch, due, u);
          LengthByUser(due, users);
          NothingCapped(due, users, perUser);
          PicksPositive(due, u);
        }
      }
    }
  }

  // ---------------------------------------------------------------- the order the query asks for

  predicate SortedByUuid(ds: seq<Due>) {
    forall i, j :: 0 <= i < j < |ds| ==> ds[i].uuid <= ds[j].uuid
  }

  lemma {:induction false} InsertSorted(d: Due, ds: seq<Due>)
    requires SortedByUuid(ds)
    ensures SortedByUuid(InsertByUuid(d, ds))
  {
    if ds != [] && ds[0].uuid <= d.uuid {
      InsertSorted(d, ds[1..]);
      var rest := InsertByUuid(d, ds[1..]);
      forall i | 0 <= i < |rest|
        ensures ds[0].uuid <= rest[i].uuid
      {
        assert rest[i] in multiset(rest);
        assert rest[i] == d || rest[i] in multiset(ds[1..]);
      }
    }
  }

  lemma {:induction false} SortSorted(ds: seq<Due>)
    ensures SortedByUuid(SortByUuid(ds))
  {
    if ds != [] {
      SortSorted(ds[..|ds| - 1]);
      InsertSorted(ds[|ds| - 1], SortByUuid(ds[..|ds| - 1]));
    }
  }

  lemma {:induction false} RoundsSorted(round: nat -> seq<Due>, rounds: nat, i: nat, j: nat) returns (ri: nat, rj: nat)
    requires forall r: nat :: SortedByUuid(round(r))
    requires i < j < |Rounds(round, rounds)|
    ensures Rounds(round, rounds)[i] in round(ri) && Rounds(round, rounds)[j] in round(rj)
    ensures || ri < rj <= rounds
            || (ri == rj <= rounds && Rounds(round, rounds)[i].uuid <= Rounds(round, rounds)[j].uuid)
  {
    var earlier, last := Rounds(round, rounds - 1), round(rounds);
    if j < |earlier| {
      ri, rj := RoundsSorted(round, rounds - 1, i, j);
    } else if i < |earlier| {
      ri := HeldByRound(round, rounds - 1, earlier[i]);
      rj := rounds;
    } else {
      ri, rj := rounds, rounds;
      assert SortedByUuid(last);
    }
  }

  /** The interleaving really is the fair query's order: by rank, and by primary key within a rank. */
  lemma FairOrderSorted(ds: seq<Due>, perUser: nat, i: nat, j: nat) returns (ri: nat, rj: nat)
    requires i < j < |FairOrder(ds, perUser)|
    ensures FairOrder(ds, perUser)[i] in Ranked(ds, ri) && FairOrder(ds, perUser)[j] in Ranked(ds, rj)
    ensures || ri < rj <= perUser
            || (ri == rj <= perUser && FairOrder(ds, perUser)[i].uuid <= FairOrder(ds, perUser)[j].uuid)
  {
    forall r: nat
      ensures SortedByUuid(RoundsOf(ds)(r))
    {
      SortSorted(Ranked(ds, r));
    }
    ri, rj := RoundsSorted(RoundsOf(ds), perUser, i, j);
    RoundMember(ds, ri, FairOrder(ds, perUser)[i]);
    RankedMember(ds, ri, FairOrder(ds, perUser)[i]);
    RoundMember(ds, rj, FairOrder(ds, perUser)[j]);
    RankedMember(ds, rj, FairOrder(ds, perUser)[j]);
  }
}

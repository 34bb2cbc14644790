/**
 * The tournament lobby of pages/LobbyPage.tsx: the buy-in filter over the
 * list of tables, the estimated pot of a new table, and the create-table
 * guard that charges the buy-in to the wallet balance of App.tsx.
 */
module Lobby {
  import opened Wrappers
  import opened Arith

  /** The platform keeps 5% of every pot. */
  const PLATFORM_FEE: real := 0.05
  /** The wallet balance at start-up. */
  const INITIAL_WALLET_BALANCE: real := 1240.5
  /** The players slider of the create-table dialog. */
  const MIN_PLAYERS: int := 2
  const MAX_PLAYERS: int := 6

  datatype GameStatus = Waiting | InProgress | Completed

  datatype Tournament = Tournament(
    id: string, title: string, buyIn: real, currentPlayers: int, maxPlayers: int,
    status: GameStatus, prizePool: real, startTime: Option<string>)

  /** The four tables the lobby lists. */
  const MOCK_TOURNAMENTS: seq<Tournament> := [
    Tournament("1", "Fast Game #322", 10.0, 4, 6, Waiting, 57.0, None),
    Tournament("2", "Whale Battle", 100.0, 2, 2, InProgress, 190.0, None),
    Tournament("3", "Micro Grind", 1.0, 1, 10, Waiting, 9.5, None),
    Tournament("4", "Sunday Major", 50.0, 12, 20, Waiting, 950.0, None)
  ]

  // ---------------------------------------------------------------------
  // The buy-in filter
  // ---------------------------------------------------------------------

  datatype Bucket = Micro | Low | HighRollers

  /** The bucket a filter button selects; 'ALL' and any other value select none. */
  function BucketOf(filter: string): Option<Bucket> {
    if filter == "MICRO" then Some(Micro)
    else if filter == "LOW" then Some(Low)
    else if filter == "HIGHROLLERS" then Some(HighRollers)
    else None
  }

  /** Micro below 10, Low from 10 up to below 100, High Rollers from 100 up. */
  predicate InBucket(b: Bucket, buyIn: real) {
    match b
    case Micro => buyIn < 10.0
    case Low => 10.0 <= buyIn < 100.0
    case HighRollers => buyIn >= 100.0
  }

  /** The tables of one bucket, in list order. */
  function Select(b: Bucket, ts: seq<Tournament>): (r: seq<Tournament>)
    ensures |r| <= |ts|
  {
    if |ts| == 0 then []
    else (if InBucket(b, ts[0].buyIn) then [ts[0]] else []) + Select(b, ts[1..])
  }

  /** A table is in a bucket's result exactly when it is listed and its buy-in is in the bucket's range. */
  lemma {:induction false} SelectMembership(b: Bucket, ts: seq<Tournament>, t: Tournament)
    ensures t in Select(b, ts) <==> t in ts && InBucket(b, t.buyIn)
  {
    if |ts| > 0 {
      SelectMembership(b, ts[1..], t);
      assert ts == [ts[0]] + ts[1..];
    }
  }

  /** filteredTournaments: the selected bucket, or the whole list when no bucket is selected. */
  function FilteredTournaments(filter: string, ts: seq<Tournament>): seq<Tournament> {
    match BucketOf(filter)
    case None => ts
    case Some(b) => Select(b, ts)
  }

  /** Each button keeps exactly the tables of its range; any other filter keeps the list as it is. */
  lemma FilterMembership(ts: seq<Tournament>, t: Tournament)
    ensures t in FilteredTournaments("MICRO", ts) <==> t in ts && t.buyIn < 10.0
    ensures t in FilteredTournaments("LOW", ts) <==> t in ts && 10.0 <= t.buyIn < 100.0
    ensures t in FilteredTournaments("HIGHROLLERS", ts) <==> t in ts && t.buyIn >= 100.0
  {
    SelectMembership(Micro, ts, t);
    SelectMembership(Low, ts, t);
    SelectMembership(HighRollers, ts, t);
  }

  lemma OtherFilterKeepsAll(filter: string, ts: seq<Tournament>)
    requires filter != "MICRO" && filter != "LOW" && filter != "HIGHROLLERS"
    ensures FilteredTournaments(filter, ts) == ts
  {
  }

  /** `a` can be obtained from `b` by deleting elements. */
  predicate Subsequence<T(==)>(a: seq<T>, b: seq<T>)
    decreases |b|
  {
    if |a| == 0 then true
    else if |b| == 0 then false
    else (a[0] == b[0] && Subsequence(a[1..], b[1..])) || Subsequence(a, b[1..])
  }

  /** A bucket's tables appear in the same order as in the list. */
  lemma {:induction false} SelectIsSubsequence(b: Bucket, ts: seq<Tournament>)
    ensures Subsequence(Select(b, ts), ts)
  {
    if |ts| > 0 {
      SelectIsSubsequence(b, ts[1..]);
      var r := Select(b, ts);
      if InBucket(b, ts[0].buyIn) {
        assert r[0] == ts[0] && r[1..] == Select(b, ts[1..]);
      } else {
        assert r == Select(b, ts[1..]);
      }
    }
  }

  /** Every filter result is an order-preserving sub-list of the tables. */
  lemma FilterIsSubsequence(filter: string, ts: seq<Tournament>)
    ensures Subsequence(FilteredTournaments(filter, ts), ts)
  {
    match BucketOf(filter)
    case None => SelfSubsequence(ts);
    case Some(b) => SelectIsSubsequence(b, ts);
  }

  lemma {:induction false} SelfSubsequence<T>(s: seq<T>)
    ensures Subsequence(s, s)
  {
    if |s| > 0 {
      SelfSubsequence(s[1..]);
    }
  }

  /** Every buy-in lies in exactly one bucket. */
  lemma BucketsAreExclusive(buyIn: real)
    ensures InBucket(Micro, buyIn) || InBucket(Low, buyIn) || InBucket(HighRollers, buyIn)
    ensures !(InBucket(Micro, buyIn) && InBucket(Low, buyIn))
    ensures !(InBucket(Micro, buyIn) && InBucket(HighRollers, buyIn))
    ensures !(InBucket(Low, buyIn) && InBucket(HighRollers, buyIn))
  {
  }

  /** A list's first table joins exactly its own bucket. */
  lemma SelectHead(b: Bucket, ts: seq<Tournament>, x: Tournament)
    requires |ts| > 0
    ensures multiset(Select(b, ts))[x] ==
            (if InBucket(b, ts[0].buyIn) && x == ts[0] then 1 else 0) + multiset(Select(b, ts[1..]))[x]
  {
  }

  lemma CountHead(ts: seq<Tournament>, x: Tournament)
    requires |ts| > 0
    ensures multiset(ts)[x] == (if x == ts[0] then 1 else 0) + multiset(ts[1..])[x]
  {
    assert ts == [ts[0]] + ts[1..];
  }

  /** Each table occurs in the three buckets together as often as in the list. */
  lemma {:induction false} BucketsCount(ts: seq<Tournament>, x: Tournament)
    ensures multiset(Select(Micro, ts))[x] + multiset(Select(Low, ts))[x] + multiset(Select(HighRollers, ts))[x]
            == multiset(ts)[x]
  {
    if |ts| > 0 {
      BucketsCount(ts[1..], x);
      CountHead(ts, x);
      SelectHead(Micro, ts, x);
      SelectHead(Low, ts, x);
      SelectHead(HighRollers, ts, x);
      BucketsAreExclusive(ts[0].buyIn);
    }
  }

  /** The three buckets split the list: together they hold every table exactly as often as the list does. */
  lemma BucketsPartition(ts: seq<Tournament>)
    ensures multiset(Select(Micro, ts)) + multiset(Select(Low, ts)) + multiset(Select(HighRollers, ts))
            == multiset(ts)
  {
    var sum := multiset(Select(Micro, ts)) + multiset(Select(Low, ts)) + multiset(Select(HighRollers, ts));
    forall x ensures sum[x] == multiset(ts)[x] {
      BucketsCount(ts, x);
    }
  }

  /** The lobby's own tables: one micro, two low and one high-roller table. */
  lemma MockBuckets()
    ensures FilteredTournaments("MICRO", MOCK_TOURNAMENTS) == [MOCK_TOURNAMENTS[2]]
    ensures FilteredTournaments("LOW", MOCK_TOURNAMENTS) == [MOCK_TOURNAMENTS[0], MOCK_TOURNAMENTS[3]]
    ensures FilteredTournaments("HIGHROLLERS", MOCK_TOURNAMENTS) == [MOCK_TOURNAMENTS[1]]
    ensures FilteredTournaments("ALL", MOCK_TOURNAMENTS) == MOCK_TOURNAMENTS
  {
    var m := MOCK_TOURNAMENTS;
    assert m[1..][1..][1..][1..] == [];
  }

  // ---------------------------------------------------------------------
  // The estimated pot
  // ---------------------------------------------------------------------

  /** The pot of a table: every player's buy-in less the platform's 5%. */
  function EstimatedPot(buyIn: real, players: int): real {
    buyIn * players as real * 0.95
  }

  /**
   * The pot and the platform fee add up to the players' stakes, and for a
   * non-negative buy-in the pot is between nothing and the stakes.
   */
  lemma PotSplitsStakes(buyIn: real, players: int)
    requires players >= 0
    ensures var stakes := buyIn * players as real;
      EstimatedPot(buyIn, players) + stakes * PLATFORM_FEE == stakes &&
      (buyIn >= 0.0 ==> 0.0 <= EstimatedPot(buyIn, players) <= stakes)
  {
    var stakes := buyIn * players as real;
    if buyIn >= 0.0 {
      assert stakes >= 0.0 by {
        NonNegProduct(buyIn, players as real);
      }
    }
  }

  /** On the players slider (2 to 6) the pot of a non-negative buy-in is between 1.9 and 5.7 buy-ins. */
  lemma PotOnSlider(buyIn: real, players: int)
    requires buyIn >= 0.0 && MIN_PLAYERS <= players <= MAX_PLAYERS
    ensures buyIn * 1.9 <= EstimatedPot(buyIn, players) <= buyIn * 5.7
  {
    var k := players as real;
    assert buyIn * k >= buyIn * 2.0 by {
      NonNegProduct(buyIn, k - 2.0);
    }
    assert buyIn * k <= buyIn * 6.0 by {
      NonNegProduct(buyIn, 6.0 - k);
    }
    assert EstimatedPot(buyIn, players) == (buyIn * k) * 0.95;
  }

  /** Every listed table's prize pool is the estimated pot of a full table. */
  lemma MockPrizePools()
    ensures forall i :: 0 <= i < |MOCK_TOURNAMENTS| ==>
      MOCK_TOURNAMENTS[i].prizePool == EstimatedPot(MOCK_TOURNAMENTS[i].buyIn, MOCK_TOURNAMENTS[i].maxPlayers)
  {
  }

  // ---------------------------------------------------------------------
  // The create-table guard
  // ---------------------------------------------------------------------

  /**
   * handleCreateTournament as written: refused only when the buy-in exceeds
   * the balance; otherwise the new balance is the old one less the buy-in.
   */
  function CreateTableAsWritten(balance: real, buyIn: real): (r: Option<real>)
    ensures r.None? <==> buyIn > balance
    ensures r.Some? ==> r.value + buyIn == balance
  {
    if buyIn > balance then None else Some(balance - buyIn)
  }

  /** A buy-in of -50 passes the guard and credits 50 to the starting wallet. */
  lemma NegativeBuyInCredits()
    ensures CreateTableAsWritten(INITIAL_WALLET_BALANCE, -50.0) == Some(1290.5)
    ensures CreateTableAsWritten(INITIAL_WALLET_BALANCE, -50.0).value > INITIAL_WALLET_BALANCE
  {
  }

  /** The guard as intended: a table costs a positive buy-in that the balance covers. */
  function CreateTable(balance: real, buyIn: real): (r: Option<real>)
    ensures r.None? <==> buyIn <= 0.0 || buyIn > balance
    ensures r.Some? ==> r.value + buyIn == balance
  {
    if buyIn <= 0.0 || buyIn > balance then None else Some(balance - buyIn)
  }

  /**
   * Creating a table never raises the balance and never takes it below 0;
   * on positive buy-ins it agrees with the guard as written.
   */
  lemma CreateTableCharges(balance: real, buyIn: real)
    ensures var r := CreateTable(balance, buyIn);
      r.Some? ==> 0.0 <= r.value < balance
    ensures buyIn > 0.0 ==> CreateTable(balance, buyIn) == CreateTableAsWritten(balance, buyIn)
  {
  }

  /** The wallet balance App.tsx keeps and hands to the lobby. */
  class Wallet {
    var balance: real

    constructor ()
      ensures balance == INITIAL_WALLET_BALANCE
    {
      balance := INITIAL_WALLET_BALANCE;
    }

    /** updateBalance: add a (possibly negative) amount. */
    method UpdateBalance(amount: real)
      modifies this
      ensures balance == old(balance) + amount
    {
      balance := balance + amount;
    }

    /** handleCreateTournament with the corrected guard: charge the buy-in when it is positive and covered. */
    method CreateTournament(buyIn: real) returns (created: bool)
      modifies this
      ensures created <==> CreateTable(old(balance), buyIn).Some?
      ensures created ==> balance == CreateTable(old(balance), buyIn).value
      ensures !created ==> balance == old(balance)
      ensures old(balance) >= 0.0 ==> 0.0 <= balance <= old(balance)
    {
      if buyIn <= 0.0 || buyIn > balance {
        return false;
      }
      UpdateBalance(-buyIn);
      created := true;
    }
  }
}

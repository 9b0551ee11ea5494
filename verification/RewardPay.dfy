/** The miner pay of the database object: the snapshot taken when a round is scheduled, and pay_miner. */
module RewardPay {
  import opened Wrappers
  import opened MapSum
  import opened Floors
  import opened Reward
  import L = Locks

  /** current_price_feed read as a function; pay_miner reads it only where it has an entry. */
  function FeedsOf(prices: map<AssetId, Option<Feed>>): Feeds {
    (a: AssetId) => if a in prices then prices[a] else None
  }

  lemma SameCounted(feeds: Feeds, feeds': Feeds, ls: seq<Lock>)
    requires forall l <- ls :: feeds'(l.asset) == feeds(l.asset) && SaneFeeds(feeds, l.asset)
    ensures (forall l <- ls :: SaneFeeds(feeds', l.asset)) && CountedTotal(feeds', ls) == CountedTotal(feeds, ls)
    decreases |ls|
  {
    forall l <- ls ensures SaneFeeds(feeds', l.asset) {
      assert feeds'(l.asset) == feeds(l.asset) && SaneFeeds(feeds, l.asset);
    }
    if ls != [] {
      var last := ls[|ls|-1];
      assert last in ls && feeds'(last.asset) == feeds(last.asset);
      SameCounted(feeds, feeds', ls[..|ls|-1]);
    }
  }

  /** ls holds, for each key of the miner in `done` once, its owner, asset, amount and whether a contract holds it. */
  ghost predicate Listing(locks: L.LockMap, done: set<L.LockKey>, m: Miner, inContract: L.LockKey -> bool,
                          keys: seq<L.LockKey>, ls: seq<Lock>) {
    && |keys| == |ls| && (forall i, j :: 0 <= i < j < |keys| ==> keys[i] != keys[j])
    && (forall k :: k in keys <==> k in done && k in locks && k.miner == m)
    && (forall i :: 0 <= i < |keys| ==> keys[i] in locks && locks[keys[i]] >= 0)
    && forall i :: 0 <= i < |keys| ==> ls[i] == Lock(keys[i].owner, keys[i].asset, locks[keys[i]], inContract(keys[i]))
  }

  /** ls lists the locks of a miner. */
  ghost predicate Caches(locks: L.LockMap, m: Miner, inContract: L.LockKey -> bool, ls: seq<Lock>) {
    exists keys :: Listing(locks, locks.Keys, m, inContract, keys, ls)
  }

  lemma ListingNone(locks: L.LockMap, m: Miner, inContract: L.LockKey -> bool)
    ensures Listing(locks, {}, m, inContract, [], [])
  {}

  lemma ListingNext(locks: L.LockMap, done: set<L.LockKey>, m: Miner, inContract: L.LockKey -> bool,
                    keys: seq<L.LockKey>, ls: seq<Lock>, k: L.LockKey)
    requires Listing(locks, done, m, inContract, keys, ls) && k in locks && k !in done && locks[k] >= 0
    ensures k.miner != m ==> Listing(locks, done + {k}, m, inContract, keys, ls)
    ensures k.miner == m ==>
      Listing(locks, done + {k}, m, inContract, keys + [k], ls + [Lock(k.owner, k.asset, locks[k], inContract(k))])
  {}

  class Database {
    var cache: map<Miner, seq<Lock>>
    var prices: map<AssetId, Option<Feed>>
    var pledge: map<Miner, nat>
    var payBack: PayBack
    var developTeam: int
    var supply: int

    constructor (payBack: PayBack, developTeam: int, supply: int)
      ensures Sound() && this.payBack == payBack && this.developTeam == developTeam && this.supply == supply
      ensures cache == map[]
    {
      cache, prices, pledge := map[], map[], map[];
      this.payBack, this.developTeam, this.supply := payBack, developTeam, supply;
    }

    /** Every cached asset has a price, and no miner's cached locks count for more than its pledge weight. */
    ghost predicate Sound()
      reads this
    {
      forall m <- cache ::
        && m in pledge && pledge[m] >= 100
        && (forall l <- cache[m] :: l.asset in prices && SaneFeeds(FeedsOf(prices), l.asset))
        && CountedTotal(FeedsOf(prices), cache[m]) <= pledge[m]
    }

    /** The pledge weight of one miner: what it produced, and its lock totals at the current prices. */
    method PledgeWeight(produced: nat, totals: map<AssetId, int>, feeds: Feeds) returns (weight: nat)
      requires AllSane(feeds)
      ensures weight == 100 * (produced + 1) + PledgedTotal(feeds, totals)
    {
      hide Pledged, PledgedTotal, PartOfTotals, AllSane;
      var sum := 0;
      var rest := totals.Keys;
      ghost var done: set<AssetId> := {};
      PledgedNone(feeds, totals);
      while rest != {}
        invariant done <= totals.Keys && rest == totals.Keys - done
        invariant sum >= 0 && sum == PledgedTotal(feeds, PartOfTotals(totals, done))
        decreases |rest|
      {
        var a :| a in rest;
        PledgedNext(feeds, totals, done, a);
        if totals[a] > 0 {
          sum := sum + Pledged(feeds, a, totals[a]);
        }
        rest, done := rest - {a}, done + {a};
      }
      assert done == totals.Keys;
      PartIsWhole(totals);
      weight := 100 * (produced + 1) + sum;
    }

    /** The lock objects of one miner, as the round cache lists them. */
    method CachedLocks(locks: L.LockMap, m: Miner, inContract: L.LockKey -> bool) returns (ls: seq<Lock>)
      requires L.AllPositive(locks)
      ensures forall a :: AmountOf(ls, a) == Sum(locks, L.LockedTo(m, a))
      ensures Caches(locks, m, inContract, ls)
    {
      hide Sum, Listing;
      ls := [];
      ghost var keys: seq<L.LockKey> := [];
      ListingNone(locks, m, inContract);
      var rest := locks.Keys;
      ghost var done: set<L.LockKey> := {};
      forall a ensures Sum(L.Part(locks, {}), L.LockedTo(m, a)) == 0 { L.PartNone(locks, L.LockedTo(m, a)); }
      while rest != {}
        invariant done <= locks.Keys && rest == locks.Keys - done
        invariant forall a :: AmountOf(ls, a) == Sum(L.Part(locks, done), L.LockedTo(m, a))
        invariant Listing(locks, done, m, inContract, keys, ls)
        decreases |rest|
      {
        var k :| k in rest;
        ghost var before := ls;
        ListingNext(locks, done, m, inContract, keys, ls, k);
        if k.miner == m {
          keys := keys + [k];
          ls := ls + [Lock(k.owner, k.asset, locks[k], inContract(k))];
        }
        forall a ensures AmountOf(ls, a) == Sum(L.Part(locks, done + {k}), L.LockedTo(m, a)) {
          L.PartNext(locks, done, k, L.LockedTo(m, a));
          assert AmountOf(before, a) == Sum(L.Part(locks, done), L.LockedTo(m, a));
          if k.miner == m {
            AmountSnoc(before, Lock(k.owner, k.asset, locks[k], inContract(k)), a);
          }
        }
        rest, done := rest - {k}, done + {k};
      }
      assert L.Part(locks, done) == locks && done == locks.Keys;
    }

    /** A miner's entry in the snapshot is covered by the pledge weight computed from the totals of the same moment. */
    lemma SnapshotCovers(feeds: Feeds, ls: seq<Lock>, locks: L.LockMap, totals: L.Totals, m: Miner)
      requires AllSane(feeds) && m in totals && L.Agrees(locks, totals, m)
      requires forall a :: AmountOf(ls, a) == Sum(locks, L.LockedTo(m, a))
      ensures CountedTotal(feeds, ls) <= PledgedTotal(feeds, totals[m])
    {
      hide Sum, PledgedTotal, CountedTotal;
      forall a ensures Get(totals[m], a) == AmountOf(ls, a) {
        assert L.TotalOf(totals, m, a) == Sum(locks, L.LockedTo(m, a));
      }
      CountedWithinPledge(feeds, ls, totals[m]);
    }

    /** The first loop of update_miner_schedule. */
    method UpdatePledges(active: seq<Miner>, produced: Miner -> nat, totals: L.Totals, feeds: Feeds)
      requires AllSane(feeds) && forall m <- active :: m in totals
      modifies this`pledge
      ensures forall m <- active :: m in pledge && pledge[m] == 100 * (produced(m) + 1) + PledgedTotal(feeds, totals[m])
    {
      hide PledgedTotal;
      for i := 0 to |active|
        invariant forall m <- active[..i] ::
          m in pledge && pledge[m] == 100 * (produced(m) + 1) + PledgedTotal(feeds, totals[m])
      {
        var w := PledgeWeight(produced(active[i]), totals[active[i]], feeds);
        pledge := pledge[active[i] := w];
      }
    }

    /** The round cache and the prices that go with it. */
    method UpdateCache(shuffled: seq<Miner>, locks: L.LockMap, inContract: L.LockKey -> bool, feeds: Feeds)
      requires L.AllPositive(locks)
      modifies this`cache, this`prices
      ensures forall m <- cache :: m in shuffled && forall a :: AmountOf(cache[m], a) == Sum(locks, L.LockedTo(m, a))
      ensures forall m <- shuffled :: m !in cache ==> forall a :: Sum(locks, L.LockedTo(m, a)) == 0
      ensures forall m <- cache, l <- cache[m] :: l.asset in prices
      ensures forall a <- prices :: prices[a] == feeds(a)
      ensures forall m <- cache :: Caches(locks, m, inContract, cache[m])
    {
      hide Sum, Caches;
      cache, prices := map[], map[];
      for i := 0 to |shuffled|
        invariant forall m <- cache :: m in shuffled && forall a ::
          AmountOf(cache[m], a) == Sum(locks, L.LockedTo(m, a))
        invariant forall m <- shuffled[..i] :: m !in cache ==> forall a :: Sum(locks, L.LockedTo(m, a)) == 0
        invariant forall m <- cache, l <- cache[m] :: l.asset in prices
        invariant forall a <- prices :: prices[a] == feeds(a)
        invariant forall m <- cache :: Caches(locks, m, inContract, cache[m])
      {
        var ls := CachedLocks(locks, shuffled[i], inContract);
        if ls != [] {
          cache := cache[shuffled[i] := ls];
          AddPrices(ls, feeds);
        } else {
          forall a ensures Sum(locks, L.LockedTo(shuffled[i], a)) == 0 {
            assert AmountOf(ls, a) == 0;
          }
        }
      }
    }

    method AddPrices(ls: seq<Lock>, feeds: Feeds)
      requires forall a <- prices :: prices[a] == feeds(a)
      modifies this`prices
      ensures old(prices).Keys <= prices.Keys && (forall l <- ls :: l.asset in prices)
      ensures forall a <- prices :: prices[a] == feeds(a)
    {
      for i := 0 to |ls|
        invariant old(prices).Keys <= prices.Keys && (forall l <- ls[..i] :: l.asset in prices)
        invariant forall a <- prices :: prices[a] == feeds(a)
      {
        prices := prices[ls[i].asset := feeds(ls[i].asset)];
      }
    }

    /**
     * The snapshot of update_miner_schedule, taken while the lock totals agree with the lock objects: it is sound for
     * the whole round.
     */
    method TakeSnapshot(active: seq<Miner>, shuffled: seq<Miner>, produced: Miner -> nat,
                        locks: L.LockMap, totals: L.Totals, inContract: L.LockKey -> bool, feeds: Feeds)
      requires AllSane(feeds) && L.AllPositive(locks)
      requires forall m <- active :: m in totals && L.Agrees(locks, totals, m)
      requires forall m <- shuffled :: m in active
      modifies this`cache, this`prices, this`pledge
      ensures Sound()
      ensures forall m <- cache :: m in shuffled && forall a :: AmountOf(cache[m], a) == Sum(locks, L.LockedTo(m, a))
      ensures forall m <- shuffled :: m !in cache ==> forall a :: Sum(locks, L.LockedTo(m, a)) == 0
      ensures forall m <- cache :: Caches(locks, m, inContract, cache[m])
      ensures forall a <- prices :: prices[a] == feeds(a)
      ensures forall m <- active :: m in pledge && pledge[m] == 100 * (produced(m) + 1) + PledgedTotal(feeds, totals[m])
    {
      hide Sum, L.Agrees, PledgedTotal, CountedTotal, Counted, Caches;
      UpdatePledges(active, produced, totals, feeds);
      UpdateCache(shuffled, locks, inContract, feeds);
      forall m <- cache ensures m in pledge && pledge[m] >= 100
        && (forall l <- cache[m] :: l.asset in prices && SaneFeeds(FeedsOf(prices), l.asset))
        && CountedTotal(FeedsOf(prices), cache[m]) <= pledge[m]
      {
        SnapshotCovers(feeds, cache[m], locks, totals, m);
        PledgedNonNegative(feeds, totals[m]);
        SameCounted(feeds, FeedsOf(prices), cache[m]);
      }
    }

    /** The guards' loop of pay_miner. */
    method PayTheGuards(guards: seq<Address>, m: Miner, all: nat)
      requires guards != []
      modifies this`payBack
      ensures payBack == PayGuards(old(payBack), guards, m, all)
    {
      hide Pay;
      var n, paid := |guards|, 0;
      var each := all / n;
      for i := 0 to n - 1
        invariant payBack == PayEach(old(payBack), guards, i, m, each) && paid == i * each
      {
        payBack := Pay(payBack, guards[i], m, each);
        paid := paid + each;
      }
      payBack := Pay(payBack, guards[n - 1], m, all - paid);
    }

    /** The pledgers' loop of pay_miner: what is paid out, and what the locks count for. */
    method PayThePledgers(ls: seq<Lock>, m: Miner, pay: nat, weight: nat) returns (paid: nat, counted: nat)
      requires weight > 0 && SaneLocks(FeedsOf(prices), ls)
      modifies this`payBack
      ensures payBack == PayLocks(old(payBack), FeedsOf(prices), ls, m, pay, weight)
      ensures paid == ShareTotal(FeedsOf(prices), ls, pay, weight) && counted == CountedTotal(FeedsOf(prices), ls)
    {
      hide Pay, Counted;
      paid, counted := 0, 0;
      var feeds := FeedsOf(prices);
      for i := 0 to |ls|
        invariant payBack == PayLocks(old(payBack), feeds, ls[..i], m, pay, weight)
        invariant paid == ShareTotal(feeds, ls[..i], pay, weight) && counted == CountedTotal(feeds, ls[..i])
      {
        var l := ls[i];
        assert ls[..i + 1][..i] == ls[..i];
        counted := counted + Counted(feeds, l);
        var share := Share(feeds, l, pay, weight);
        paid := paid + share;
        if !l.inContract {
          payBack := Pay(payBack, l.owner, m, share);
        }
      }
      assert ls[..|ls|] == ls;
    }

    /**
     * pay_miner. In a sound round the pledge check never fails. p is the split: each address is owed, under this miner,
     * its part as a guard, the shares of its locks and, for the miner, what the shares leave; nobody else is owed more.
     */
    method PayMiner(m: Miner, address: Address, kept: nat, reward: nat, fee: nat, guards: seq<Address>)
      returns (ok: bool, ghost p: Split)
      requires Sound() && guards != [] && kept <= MINER_PAY_BACK_RATIO
      modifies this`payBack, this`developTeam, this`supply
      ensures ok && Sound() && supply == old(supply) + reward && developTeam == old(developTeam) + p.team
      ensures SplitOf(p, reward, fee, kept, CachedOf(m), FeedsOf(prices), if m in cache then pledge[m] else 1)
      ensures forall w :: Get(payBack, w) == Get(old(payBack), w) + Due(p, CachedOf(m), guards, m, address, w)
      ensures m !in cache || (forall l <- cache[m] :: !l.inContract) ==>
        Owed(payBack) == Owed(old(payBack)) + p.guards + p.miner
    {
      hide Owed, Pay, PayLocks, ShareTotal, ContractTotal, CountedTotal, PartOf, PayGuards, Due, SplitOf, Get;
      ghost var before := payBack;
      PayTheGuards(guards, m, PartOf(reward, GUARD_PAY_RATIO));
      GuardsPaidExactly(before, guards, m, PartOf(reward, GUARD_PAY_RATIO));
      developTeam := developTeam + PartOf(reward, DEVELOP_TEAM_PAY_RATIO);
      ghost var paidGuards := payBack;
      var all := MinerPart(reward, fee);
      p := TheSplit(reward, fee, kept, CachedOf(m), FeedsOf(prices), if m in cache then pledge[m] else 1);
      if m in cache {
        var pay := PartOf(all, MINER_PLEDGE_PAY_RATIO - kept);
        MinerPartExact(paidGuards, m, address, reward, fee, kept, Some(cache[m]), FeedsOf(prices), pledge[m]);
        var paid, counted := PayThePledgers(cache[m], m, pay, pledge[m]);
        if counted > pledge[m] {
          return false, p;
        }
        payBack := Pay(payBack, address, m, all - paid);
        SplitIs(before, m, address, kept, reward, fee, guards, Some(cache[m]), FeedsOf(prices), pledge[m]);
      } else {
        MinerPartExact(paidGuards, m, address, reward, fee, kept, None, FeedsOf(prices), 1);
        payBack := Pay(payBack, address, m, all);
        SplitIs(before, m, address, kept, reward, fee, guards, None, FeedsOf(prices), 1);
      }
      supply := supply + reward;
      ok := true;
    }

    ghost function CachedOf(m: Miner): Option<seq<Lock>>
      reads this
    {
      if m in cache then Some(cache[m]) else None
    }
  }

  /** The parts of one block's payment: guards, development team, miner with pledgers, and the single shares. */
  datatype Split = Split(guards: nat, team: nat, miner: nat, pay: nat, shares: seq<nat>)

  /** Each part is its percentage rounded down, and each share its lock's proportion rounded down. */
  ghost predicate SplitOf(p: Split, reward: nat, fee: nat, kept: nat, cached: Option<seq<Lock>>, feeds: Feeds,
                          pledge: nat) {
    && WithinOneUnit(p.guards, reward, GUARD_PAY_RATIO, 100)
    && WithinOneUnit(p.team, reward, DEVELOP_TEAM_PAY_RATIO, 100)
    && WithinOneUnit(p.miner - fee, reward, ALL_MINER_PAY_RATIO, 100)
    && WithinOneUnit(p.pay, p.miner, MINER_PLEDGE_PAY_RATIO - kept, 100)
    && TotalOf(p.shares) <= p.miner && |p.shares| == (if cached.Some? then |cached.value| else 0)
    && forall i :: 0 <= i < |p.shares| ==> IsShare(feeds, cached.value[i], p.pay, pledge, p.shares[i])
  }

  /** What the payment of a block adds to one entry of the pay-back ledger. */
  function Due(p: Split, cached: Option<seq<Lock>>, guards: seq<Address>, m: Miner, address: Address, w: Payee): int {
    if w.miner != m then 0
    else
      GuardDue(guards, |guards|, p.guards, w.address)
      + (if cached.Some? && |p.shares| == |cached.value| then LockDue(cached.value, p.shares, w.address) else 0)
      + if w.address == address then p.miner - TotalOf(p.shares) else 0
  }

  ghost function TheSplit(reward: nat, fee: nat, kept: nat, cached: Option<seq<Lock>>, feeds: Feeds, pledge: nat): Split
    requires kept <= MINER_PAY_BACK_RATIO && (cached.Some? ==> pledge > 0 && SaneLocks(feeds, cached.value))
  {
    var pay := PledgerPart(reward, fee, kept);
    Split(PartOf(reward, GUARD_PAY_RATIO), PartOf(reward, DEVELOP_TEAM_PAY_RATIO), MinerPart(reward, fee), pay,
          if cached.None? then [] else SharesOf(feeds, cached.value, pay, pledge))
  }

  lemma SplitIs(pb: PayBack, m: Miner, address: Address, kept: nat, reward: nat, fee: nat, guards: seq<Address>,
                cached: Option<seq<Lock>>, feeds: Feeds, pledge: nat)
    requires kept <= MINER_PAY_BACK_RATIO && guards != []
    requires cached.Some? ==> pledge > 0 && SaneLocks(feeds, cached.value)
    requires cached.Some? ==> CountedTotal(feeds, cached.value) <= pledge
    ensures var p := TheSplit(reward, fee, kept, cached, feeds, pledge);
      var r := PayMinerPart(PayGuards(pb, guards, m, p.guards), m, address, reward, fee, kept, cached, feeds, pledge);
      && SplitOf(p, reward, fee, kept, cached, feeds, pledge)
      && forall w :: Get(r, w) == Get(pb, w) + Due(p, cached, guards, m, address, w)
  {
    hide PayGuards, PayLocks, ShareTotal, PartOf, IsShare, Get, SharesOf, CountedTotal, WithinOneUnit;
    var p := TheSplit(reward, fee, kept, cached, feeds, pledge);
    PartExact(reward, GUARD_PAY_RATIO);
    PartExact(reward, DEVELOP_TEAM_PAY_RATIO);
    PartExact(reward, ALL_MINER_PAY_RATIO);
    PartExact(MinerPart(reward, fee), MINER_PLEDGE_PAY_RATIO - kept);
    var mid := PayGuards(pb, guards, m, p.guards);
    if cached.Some? {
      SharesOfExact(feeds, cached.value, p.pay, pledge);
      SharesWithinPay(feeds, cached.value, p.pay, pledge);
      PartWithin(MinerPart(reward, fee), MINER_PLEDGE_PAY_RATIO - kept);
      PayLocksDue(mid, feeds, cached.value, m, p.pay, pledge, Payee(0, m));
    }
    var r := PayMinerPart(mid, m, address, reward, fee, kept, cached, feeds, pledge);
    forall w ensures Get(r, w) == Get(pb, w) + Due(p, cached, guards, m, address, w) {
      PayGuardsDue(pb, guards, m, p.guards, w);
      if cached.Some? {
        PayLocksDue(mid, feeds, cached.value, m, p.pay, pledge, w);
      }
    }
  }

  ghost function PartOfTotals(totals: map<AssetId, int>, done: set<AssetId>): map<AssetId, int> {
    map a <- totals | a in done :: totals[a]
  }

  lemma PartOfTotalsNext(totals: map<AssetId, int>, done: set<AssetId>, a: AssetId, f: (AssetId, int) -> int)
    requires a in totals && a !in done
    ensures Sum(PartOfTotals(totals, done + {a}), f) == Sum(PartOfTotals(totals, done), f) + f(a, totals[a])
  {
    assert PartOfTotals(totals, done + {a}) == PartOfTotals(totals, done)[a := totals[a]];
    SumInsert(PartOfTotals(totals, done), f, a, totals[a]);
  }

  lemma PartIsWhole(totals: map<AssetId, int>)
    ensures PartOfTotals(totals, totals.Keys) == totals
  {}

  lemma PledgedNone(feeds: Feeds, totals: map<AssetId, int>)
    requires AllSane(feeds)
    ensures PledgedTotal(feeds, PartOfTotals(totals, {})) == 0
  {
    SumZero(PartOfTotals(totals, {}), PledgedIn(feeds));
  }

  lemma PledgedNext(feeds: Feeds, totals: map<AssetId, int>, done: set<AssetId>, a: AssetId)
    requires AllSane(feeds) && a in totals && a !in done
    ensures SaneFeeds(feeds, a)
    ensures PledgedTotal(feeds, PartOfTotals(totals, done + {a}))
      == PledgedTotal(feeds, PartOfTotals(totals, done)) + if totals[a] > 0 then Pledged(feeds, a, totals[a]) else 0
  {
    hide Sum, Pledged, PartOfTotals;
    assert SaneFeeds(feeds, a);
    PartOfTotalsNext(totals, done, a, PledgedIn(feeds));
  }

  lemma AmountSnoc(ls: seq<Lock>, l: Lock, a: AssetId)
    ensures AmountOf(ls + [l], a) == AmountOf(ls, a) + if l.asset == a then l.amount else 0
  {
    assert (ls + [l])[..|ls|] == ls;
  }
}

/** Locked balances: the lock objects, the totals kept with each miner, and the two operations that repair them. */
module Locks {
  import opened MapSum

  type Miner = nat
  type Account = nat
  type AssetId = nat

  datatype LockKey = LockKey(miner: Miner, owner: Account, asset: AssetId)
  datatype Holder = Holder(who: Account, asset: AssetId)

  type LockMap = map<LockKey, int>
  type Totals = map<Miner, map<AssetId, int>>

  ghost function LockedTo(m: Miner, a: AssetId): (LockKey, int) -> int {
    (k: LockKey, v: int) => if k.miner == m && k.asset == a then v else 0
  }

  ghost function LockedBy(who: Account, a: AssetId): (LockKey, int) -> int {
    (k: LockKey, v: int) => if k.owner == who && k.asset == a then v else 0
  }

  /** lockbalance_total of a miner, with a missing entry read as zero. */
  function TotalOf(totals: Totals, m: Miner, a: AssetId): int {
    if m in totals then Get(totals[m], a) else 0
  }

  ghost predicate Agrees(locks: LockMap, totals: Totals, m: Miner) {
    forall a :: TotalOf(totals, m, a) == Sum(locks, LockedTo(m, a))
  }

  predicate AllPositive(locks: LockMap) {
    forall k <- locks :: locks[k] > 0
  }

  /** The lock map after a change of one lock; an empty lock is not kept. */
  function Changed(locks: LockMap, k: LockKey, delta: int): LockMap {
    if Get(locks, k) + delta == 0 then locks - {k} else locks[k := Get(locks, k) + delta]
  }

  function Plus(t: map<AssetId, int>, a: AssetId, delta: int): map<AssetId, int> {
    t[a := Get(t, a) + delta]
  }

  function TotalsChanged(totals: Totals, m: Miner, a: AssetId, delta: int): Totals
    requires m in totals
  {
    totals[m := Plus(totals[m], a, delta)]
  }

  lemma ChangedSum(locks: LockMap, k: LockKey, delta: int, f: (LockKey, int) -> int, counted: bool)
    requires forall v :: f(k, v) == if counted then v else 0
    ensures Sum(Changed(locks, k, delta), f) == Sum(locks, f) + if counted then delta else 0
  {
    hide Sum;
    if Get(locks, k) + delta == 0 {
      if k in locks {
        SumRemove(locks, f, k);
      } else {
        assert locks - {k} == locks;
      }
    } else if k in locks {
      SumUpdate(locks, f, k, locks[k] + delta);
    } else {
      SumInsert(locks, f, k, delta);
    }
  }

  /** A change of a lock and the same change of its miner's total keep every miner's totals right. */
  lemma ChangeAgrees(locks: LockMap, totals: Totals, k: LockKey, delta: int, m: Miner)
    requires k.miner in totals && Agrees(locks, totals, m)
    ensures Agrees(Changed(locks, k, delta), TotalsChanged(totals, k.miner, k.asset, delta), m)
  {
    hide Sum, Changed;
    forall a ensures TotalOf(TotalsChanged(totals, k.miner, k.asset, delta), m, a)
      == Sum(Changed(locks, k, delta), LockedTo(m, a))
    {
      ChangedSum(locks, k, delta, LockedTo(m, a), k.miner == m && k.asset == a);
    }
  }

  ghost function Part(locks: LockMap, done: set<LockKey>): LockMap {
    map k <- locks | k in done :: locks[k]
  }

  predicate Owned(k: LockKey, who: Account, a: AssetId) {
    k.owner == who && k.asset == a
  }

  lemma PartNone(locks: LockMap, f: (LockKey, int) -> int)
    ensures Sum(Part(locks, {}), f) == 0
  {
    assert Part(locks, {}) == map[];
  }

  lemma PartNext(locks: LockMap, done: set<LockKey>, k: LockKey, f: (LockKey, int) -> int)
    requires k in locks && k !in done
    ensures Sum(Part(locks, done + {k}), f) == Sum(Part(locks, done), f) + f(k, locks[k])
  {
    assert Part(locks, done + {k}) == Part(locks, done)[k := locks[k]];
    SumInsert(Part(locks, done), f, k, locks[k]);
  }

  /** sums is what the locks in `done` add up to for miner m. */
  ghost predicate AddsUp(locks: LockMap, done: set<LockKey>, m: Miner, sums: map<AssetId, int>) {
    forall a :: Get(sums, a) == Sum(Part(locks, done), LockedTo(m, a))
  }

  lemma AddsUpNone(locks: LockMap, m: Miner)
    ensures AddsUp(locks, {}, m, map[])
  {
    hide Sum, Part;
    forall a ensures Sum(Part(locks, {}), LockedTo(m, a)) == 0 {
      PartNone(locks, LockedTo(m, a));
    }
  }

  lemma AddsUpNext(locks: LockMap, done: set<LockKey>, m: Miner, sums: map<AssetId, int>, k: LockKey)
    requires k in locks && k !in done && AddsUp(locks, done, m, sums)
    ensures AddsUp(locks, done + {k}, m, if k.miner == m then Plus(sums, k.asset, locks[k]) else sums)
  {
    hide Sum, Part;
    var next := if k.miner == m then Plus(sums, k.asset, locks[k]) else sums;
    forall a ensures Get(next, a) == Sum(Part(locks, done + {k}), LockedTo(m, a)) {
      PartNext(locks, done, k, LockedTo(m, a));
    }
  }

  lemma AddsUpAll(locks: LockMap, m: Miner, sums: map<AssetId, int>)
    requires AddsUp(locks, locks.Keys, m, sums)
    ensures forall a :: Get(sums, a) == Sum(locks, LockedTo(m, a))
  {
    assert Part(locks, locks.Keys) == locks;
  }

  class Database {
    var locks: LockMap
    var totals: Totals
    var balances: map<Holder, int>
    var supply: map<AssetId, int>

    constructor (locks: LockMap, totals: Totals, balances: map<Holder, int>, supply: map<AssetId, int>)
      ensures this.locks == locks && this.totals == totals && this.balances == balances && this.supply == supply
    {
      this.locks, this.totals, this.balances, this.supply := locks, totals, balances, supply;
    }

    /** The state every operation keeps: no empty lock, and totals that add up. */
    ghost predicate Valid()
      reads this
    {
      && AllPositive(locks) && (forall k <- locks :: k.miner in totals)
      && forall m <- totals :: Agrees(locks, totals, m)
    }

    /** adjust_lock_balance: refused exactly when less is locked than is taken. */
    method AdjustLock(k: LockKey, delta: int) returns (ok: bool)
      requires Valid() && k.miner in totals
      modifies this`locks, this`totals
      ensures Valid() && ok == (Get(old(locks), k) + delta >= 0)
      ensures locks == if ok && delta != 0 then Changed(old(locks), k, delta) else old(locks)
      ensures totals == if ok && delta != 0 then TotalsChanged(old(totals), k.miner, k.asset, delta) else old(totals)
    {
      hide Agrees;
      if delta == 0 {
        assert k in locks ==> locks[k] > 0;
        return true;
      }
      if k !in locks {
        if delta < 0 {
          return false;
        }
        locks := locks[k := delta];
      } else {
        if delta < 0 && locks[k] < -delta {
          return false;
        }
        if locks[k] + delta == 0 {
          locks := locks - {k};
        } else {
          locks := locks[k := locks[k] + delta];
        }
      }
      var t: map<AssetId, int> := totals[k.miner];
      if k.asset in t {
        t := t[k.asset := t[k.asset] + delta];
      } else {
        t := t[k.asset := delta];
      }
      totals := totals[k.miner := t];
      forall m <- totals ensures Agrees(locks, totals, m) {
        ChangeAgrees(old(locks), old(totals), k, delta, m);
      }
      return true;
    }

    /** get_lock_balance of one owner and asset, and what it comes to. */
    method OwnLocks(who: Account, a: AssetId) returns (keys: seq<LockKey>, sum: int)
      ensures forall k :: k in keys <==> k in locks && Owned(k, who, a)
      ensures forall i, j :: 0 <= i < j < |keys| ==> keys[i] != keys[j]
      ensures sum == Sum(locks, LockedBy(who, a))
    {
      hide Sum;
      keys, sum := [], 0;
      var rest := locks.Keys;
      ghost var done: set<LockKey> := {};
      PartNone(locks, LockedBy(who, a));
      while rest != {}
        invariant done <= locks.Keys && rest == locks.Keys - done
        invariant forall k :: k in keys <==> k in done && Owned(k, who, a)
        invariant forall i, j :: 0 <= i < j < |keys| ==> keys[i] != keys[j]
        invariant sum == Sum(Part(locks, done), LockedBy(who, a))
        decreases |rest|
      {
        var k :| k in rest;
        PartNext(locks, done, k, LockedBy(who, a));
        if Owned(k, who, a) {
          keys, sum := keys + [k], sum + locks[k];
        }
        rest, done := rest - {k}, done + {k};
      }
      assert Part(locks, done) == locks;
    }

    /** The pull-back loop of set_balance. */
    method ReleaseAll(keys: seq<LockKey>, who: Account, a: AssetId)
      requires Valid() && forall k :: k in keys <==> k in locks && Owned(k, who, a)
      requires forall i, j :: 0 <= i < j < |keys| ==> keys[i] != keys[j]
      modifies this`locks, this`totals
      ensures Valid() && locks == Part(old(locks), set k <- old(locks) | !Owned(k, who, a))
      ensures totals.Keys == old(totals).Keys
    {
      hide Agrees;
      for i := 0 to |keys|
        invariant Valid() && totals.Keys == old(totals).Keys
        invariant forall k <- locks :: k in old(locks) && locks[k] == old(locks)[k]
        invariant forall k <- old(locks) :: k in locks <==> k !in keys[..i]
      {
        var ok := AdjustLock(keys[i], -locks[keys[i]]);
      }
    }

    /**
     * set_balance: what the account holds and has locked comes to the claimed amount, and the supply moves by the same
     * difference. Locks are given up only when too much is there; nobody else is touched.
     */
    method SetBalance(who: Account, a: AssetId, claimed: nat)
      requires Valid() && forall h <- balances :: balances[h] >= 0
      modifies this
      ensures Valid() && Get(balances, Holder(who, a)) + Sum(locks, LockedBy(who, a)) == claimed
      ensures forall h :: h != Holder(who, a) ==> Get(balances, h) == Get(old(balances), h)
      ensures var total := Get(old(balances), Holder(who, a)) + Sum(old(locks), LockedBy(who, a));
        && (forall b :: Get(supply, b) == Get(old(supply), b) + if b == a then claimed - total else 0)
        && locks == if total <= claimed then old(locks) else Part(old(locks), set k <- old(locks) | !Owned(k, who, a))
    {
      hide Sum, Agrees;
      var h := Holder(who, a);
      var balance := Get(balances, h);
      var keys, locked := OwnLocks(who, a);
      var total := balance + locked;
      if total < claimed {
        balances := Adjust(balances, h, claimed - total);
      } else if total > claimed {
        ReleaseAll(keys, who, a);
        balances := Adjust(balances, h, -balance);
        balances := Adjust(balances, h, claimed);
        SumZero(locks, LockedBy(who, a));
      } else {
        return;
      }
      supply := Adjust(supply, a, claimed - total);
    }

    /** The inner loops of correct_chain_data: what the lock objects of one miner add up to. */
    method SumLocks(m: Miner) returns (sums: map<AssetId, int>)
      ensures forall a :: Get(sums, a) == Sum(locks, LockedTo(m, a))
    {
      hide AddsUp, Plus;
      sums := map[];
      var rest := locks.Keys;
      ghost var done: set<LockKey> := {};
      AddsUpNone(locks, m);
      while rest != {}
        invariant done <= locks.Keys && rest == locks.Keys - done && AddsUp(locks, done, m, sums)
        decreases |rest|
      {
        var k :| k in rest;
        AddsUpNext(locks, done, m, sums, k);
        if k.miner == m {
          sums := Plus(sums, k.asset, locks[k]);
        }
        rest, done := rest - {k}, done + {k};
      }
      assert done == locks.Keys;
      AddsUpAll(locks, m, sums);
    }

    /** correct_chain_data: the totals of the named miners, or of all when none is named, are rebuilt from any state. */
    method CorrectChainData(correctors: set<Miner>)
      requires correctors <= totals.Keys
      modifies this`totals
      ensures totals.Keys == old(totals).Keys
      ensures forall m <- totals :: (correctors == {} || m in correctors) ==> Agrees(locks, totals, m)
      ensures forall m <- totals :: correctors != {} && m !in correctors ==> totals[m] == old(totals)[m]
    {
      hide Sum;
      var rest := if correctors == {} then totals.Keys else correctors;
      ghost var all, done: set<Miner> := rest, {};
      while rest != {}
        invariant rest + done == all && totals.Keys == old(totals).Keys
        invariant forall m <- done :: Agrees(locks, totals, m)
        invariant forall m <- totals :: m !in done ==> totals[m] == old(totals)[m]
        decreases |rest|
      {
        var m :| m in rest;
        var sums := SumLocks(m);
        ghost var before := totals;
        if sums != totals[m] {
          totals := totals[m := sums];
        }
        forall n <- done + {m} ensures Agrees(locks, totals, n) {
          if n != m {
            SameTotals(locks, before, totals, n);
          }
        }
        rest, done := rest - {m}, done + {m};
      }
    }
  }

  lemma SameTotals(locks: LockMap, totals: Totals, totals': Totals, m: Miner)
    requires Agrees(locks, totals, m) && m in totals && m in totals' && totals'[m] == totals[m]
    ensures Agrees(locks, totals', m)
  {
    hide Sum;
    forall a ensures TotalOf(totals', m, a) == Sum(locks, LockedTo(m, a)) {
      assert TotalOf(totals, m, a) == Sum(locks, LockedTo(m, a));
    }
  }
}

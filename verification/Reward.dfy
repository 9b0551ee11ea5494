/** The round snapshot of locked balances and prices, and the split of a block's reward. */
module Reward {
  import opened Wrappers
  import opened MapSum
  import opened Floors
  import Arith

  type AssetId = nat
  type Miner = nat
  type Address = nat

  const CORE: AssetId := 0
  const GUARD_PAY_RATIO := 20
  const ALL_MINER_PAY_RATIO := 50
  const DEVELOP_TEAM_PAY_RATIO := 30
  const MINER_PLEDGE_PAY_RATIO := 100
  const MINER_PAY_BACK_RATIO := 50

  /** A price feed: quote units of `quoteAsset` for base units of the asset. */
  datatype Feed = Feed(quote: nat, base: nat, quoteAsset: AssetId)

  /** A cached lock object; inContract marks one that a contract holds. */
  datatype Lock = Lock(owner: Address, asset: AssetId, amount: nat, inContract: bool)

  type Feeds = AssetId -> Option<Feed>

  predicate SaneFeeds(feeds: Feeds, a: AssetId) {
    feeds(a).Some? ==> feeds(a).value.base > 0
  }

  // ---- what a lock counts for ----

  /** The value of an amount in the pledge weight of a miner. */
  function Pledged(feeds: Feeds, a: AssetId, n: nat): nat
    requires SaneFeeds(feeds, a)
  {
    if a == CORE then n
    else match feeds(a)
      case None => 0
      case Some(f) => FloorNonNegative(n, f.quote, f.base); n * f.quote / f.base
  }

  /** The value of a cached lock when a block is paid: only prices in the core asset count. */
  function Counted(feeds: Feeds, l: Lock): nat
    requires SaneFeeds(feeds, l.asset)
  {
    if l.asset == CORE then l.amount
    else match feeds(l.asset)
      case None => 0
      case Some(f) =>
        FloorNonNegative(l.amount, f.quote, f.base); if f.quoteAsset == CORE then l.amount * f.quote / f.base else 0
  }

  lemma FloorAdds(x: int, y: int, num: int, den: int)
    requires den > 0
    ensures x * num / den + y * num / den <= (x + y) * num / den
  {
    FloorOf(x, num, den);
    FloorOf(y, num, den);
    FloorOf(x + y, num, den);
    var u, v, w := x * num / den, y * num / den, (x + y) * num / den;
    assert (x + y) * num == x * num + y * num;
    assert (u + v) * den == u * den + v * den;
    LessByFactor(u + v, w, den);
  }

  /** Splitting an amount into locks never makes it worth more. */
  lemma PledgedAdds(feeds: Feeds, a: AssetId, n: nat, l: Lock)
    requires SaneFeeds(feeds, a) && l.asset == a
    ensures Pledged(feeds, a, n + l.amount) >= Pledged(feeds, a, n) + Counted(feeds, l)
  {
    if a != CORE && feeds(a).Some? {
      FloorAdds(n, l.amount, feeds(a).value.quote, feeds(a).value.base);
      FloorNonNegative(l.amount, feeds(a).value.quote, feeds(a).value.base);
    }
  }

  ghost predicate AllSane(feeds: Feeds) {
    forall a :: SaneFeeds(feeds, a)
  }

  /** cal_cur_pledge of pay_miner. */
  function CountedTotal(feeds: Feeds, ls: seq<Lock>): nat
    requires forall l <- ls :: SaneFeeds(feeds, l.asset)
  {
    if ls == [] then 0 else CountedTotal(feeds, ls[..|ls|-1]) + Counted(feeds, ls[|ls|-1])
  }

  function AmountOf(ls: seq<Lock>, a: AssetId): nat {
    if ls == [] then 0
    else AmountOf(ls[..|ls|-1], a) + if ls[|ls|-1].asset == a then ls[|ls|-1].amount else 0
  }

  ghost function PledgedIn(feeds: Feeds): (AssetId, int) -> int
    requires AllSane(feeds)
  {
    (a: AssetId, n: int) => if n > 0 && SaneFeeds(feeds, a) then Pledged(feeds, a, n) else 0
  }

  /** The part of pledge_weight that comes from lockbalance_total. */
  ghost function PledgedTotal(feeds: Feeds, totals: map<AssetId, int>): int
    requires AllSane(feeds)
  {
    Sum(totals, PledgedIn(feeds))
  }

  lemma PledgedTotalAdds(feeds: Feeds, totals: map<AssetId, int>, l: Lock)
    requires AllSane(feeds) && Get(totals, l.asset) >= 0
    ensures PledgedTotal(feeds, totals[l.asset := Get(totals, l.asset) + l.amount])
      >= PledgedTotal(feeds, totals) + Counted(feeds, l)
  {
    hide Sum, Pledged, Counted;
    assert SaneFeeds(feeds, l.asset);
    var a, n := l.asset, Get(totals, l.asset);
    PledgedAdds(feeds, a, n, l);
    PledgedZero(feeds, a, l);
    if a in totals {
      SumUpdate(totals, PledgedIn(feeds), a, n + l.amount);
    } else {
      SumInsert(totals, PledgedIn(feeds), a, n + l.amount);
    }
  }

  lemma PledgedZero(feeds: Feeds, a: AssetId, l: Lock)
    requires SaneFeeds(feeds, a) && l.asset == a
    ensures Pledged(feeds, a, 0) == 0 && (l.amount == 0 ==> Counted(feeds, l) == 0)
  {}

  /** Totals that agree up to zero entries pledge the same. */
  lemma {:induction false} PledgedUpToZero(feeds: Feeds, s: map<AssetId, int>, t: map<AssetId, int>)
    requires AllSane(feeds) && forall a :: Get(s, a) == Get(t, a)
    ensures PledgedTotal(feeds, s) == PledgedTotal(feeds, t)
    decreases |s|
  {
    hide Sum, Pledged;
    if |s| == 0 {
      assert s == map[];
      SumZero(s, PledgedIn(feeds));
      forall a <- t ensures PledgedIn(feeds)(a, t[a]) == 0 {
        assert Get(s, a) == Get(t, a);
      }
      SumZero(t, PledgedIn(feeds));
    } else {
      var k :| k in s;
      Shrinks(s, k);
      SumRemove(s, PledgedIn(feeds), k);
      if k in t {
        SumRemove(t, PledgedIn(feeds), k);
        assert Get(s, k) == Get(t, k);
      } else {
        assert Get(s, k) == Get(t, k) == 0 && t - {k} == t;
      }
      forall a ensures Get(s - {k}, a) == Get(t - {k}, a) {
        assert Get(s, a) == Get(t, a);
      }
      PledgedUpToZero(feeds, s - {k}, t - {k});
    }
  }

  /** Floored lock by lock, a miner's locks count for no more than its totals do. */
  lemma {:induction false} CountedWithinPledge(feeds: Feeds, ls: seq<Lock>, totals: map<AssetId, int>)
    requires AllSane(feeds) && forall a :: Get(totals, a) == AmountOf(ls, a)
    ensures CountedTotal(feeds, ls) <= PledgedTotal(feeds, totals)
    decreases |ls|
  {
    hide Sum, Pledged, Counted, PledgedTotal;
    if ls == [] {
      PledgedNonNegative(feeds, totals);
    } else {
      var init, l := ls[..|ls|-1], ls[|ls|-1];
      var less := totals[l.asset := AmountOf(init, l.asset)];
      forall a ensures Get(less, a) == AmountOf(init, a) {
        assert Get(totals, a) == AmountOf(ls, a);
      }
      CountedWithinPledge(feeds, init, less);
      PledgedTotalAdds(feeds, less, l);
      var again := less[l.asset := Get(less, l.asset) + l.amount];
      forall a ensures Get(again, a) == Get(totals, a) {
        assert Get(totals, a) == AmountOf(ls, a);
      }
      PledgedUpToZero(feeds, again, totals);
    }
  }

  lemma PledgedNonNegative(feeds: Feeds, totals: map<AssetId, int>)
    requires AllSane(feeds)
    ensures PledgedTotal(feeds, totals) >= 0
  {
    SumNonNegative(totals, PledgedIn(feeds));
  }

  // ---- the split of a reward ----

  datatype Payee = Payee(address: Address, miner: Miner)
  type PayBack = map<Payee, int>

  ghost function Everyone(): (Payee, int) -> int {
    (k: Payee, v: int) => v
  }

  /** All that is owed by the pay-back ledger. */
  ghost function Owed(pb: PayBack): int {
    Sum(pb, Everyone())
  }

  /** adjust_pay_back_balance. */
  function Pay(pb: PayBack, who: Address, m: Miner, n: int): PayBack {
    Adjust(pb, Payee(who, m), n)
  }

  lemma PayOwes(pb: PayBack, who: Address, m: Miner, n: int)
    ensures Owed(Pay(pb, who, m, n)) == Owed(pb) + n
  {
    SumAdjust(pb, Everyone(), Payee(who, m), n, true);
  }

  /** The first k guards get the same amount. */
  function PayEach(pb: PayBack, guards: seq<Address>, k: nat, m: Miner, each: int): PayBack
    requires k <= |guards|
  {
    if k == 0 then pb else Pay(PayEach(pb, guards, k - 1, m, each), guards[k - 1], m, each)
  }

  lemma {:induction false} PayEachOwes(pb: PayBack, guards: seq<Address>, k: nat, m: Miner, each: int)
    requires k <= |guards|
    ensures Owed(PayEach(pb, guards, k, m, each)) == Owed(pb) + k * each
    decreases k
  {
    hide Owed, Pay;
    if k > 0 {
      PayEachOwes(pb, guards, k - 1, m, each);
      PayOwes(PayEach(pb, guards, k - 1, m, each), guards[k - 1], m, each);
      assert k * each == (k - 1) * each + each;
    }
  }

  /** The guards' part: equal shares, the last guard takes what rounding leaves. */
  function PayGuards(pb: PayBack, guards: seq<Address>, m: Miner, all: nat): PayBack
    requires guards != []
  {
    var n := |guards|;
    Pay(PayEach(pb, guards, n - 1, m, all / n), guards[n - 1], m, all - (n - 1) * (all / n))
  }

  /** The guards are paid exactly their part, nobody less than an equal share. */
  lemma GuardsPaidExactly(pb: PayBack, guards: seq<Address>, m: Miner, all: nat)
    requires guards != []
    ensures Owed(PayGuards(pb, guards, m, all)) == Owed(pb) + all
    ensures all - (|guards| - 1) * (all / |guards|) >= all / |guards| >= 0
  {
    hide Owed, Pay, PayEach;
    var n := |guards|;
    PayEachOwes(pb, guards, n - 1, m, all / n);
    PayOwes(PayEach(pb, guards, n - 1, m, all / n), guards[n - 1], m, all - (n - 1) * (all / n));
    FloorAtLeast(all, n);
  }

  lemma FloorAtLeast(all: nat, n: nat)
    requires n > 0
    ensures all - (n - 1) * (all / n) >= all / n >= 0
  {
    assert all == all / n * n + all % n;
    assert all / n * n == (n - 1) * (all / n) + all / n;
  }

  /** A lock's share of what the pledgers get. */
  function Share(feeds: Feeds, l: Lock, pay: nat, pledge: nat): nat
    requires SaneFeeds(feeds, l.asset) && pledge > 0
  {
    FloorNonNegative(pay, Counted(feeds, l), pledge);
    pay * Counted(feeds, l) / pledge
  }

  predicate SaneLocks(feeds: Feeds, ls: seq<Lock>) {
    forall l <- ls :: SaneFeeds(feeds, l.asset)
  }

  function ShareTotal(feeds: Feeds, ls: seq<Lock>, pay: nat, pledge: nat): nat
    requires SaneLocks(feeds, ls) && pledge > 0
  {
    if ls == [] then 0 else ShareTotal(feeds, ls[..|ls|-1], pay, pledge) + Share(feeds, ls[|ls|-1], pay, pledge)
  }

  /** What contract-held locks would have got; it is set aside and paid to nobody. */
  function ContractTotal(feeds: Feeds, ls: seq<Lock>, pay: nat, pledge: nat): nat
    requires SaneLocks(feeds, ls) && pledge > 0
  {
    if ls == [] then 0
    else ContractTotal(feeds, ls[..|ls|-1], pay, pledge)
         + if ls[|ls|-1].inContract then Share(feeds, ls[|ls|-1], pay, pledge) else 0
  }

  function PayLocks(pb: PayBack, feeds: Feeds, ls: seq<Lock>, m: Miner, pay: nat, pledge: nat): PayBack
    requires SaneLocks(feeds, ls) && pledge > 0
    decreases |ls|
  {
    if ls == [] then pb
    else
      var rest, l := PayLocks(pb, feeds, ls[..|ls|-1], m, pay, pledge), ls[|ls|-1];
      if l.inContract then rest else Pay(rest, l.owner, m, Share(feeds, l, pay, pledge))
  }

  lemma {:induction false} PayLocksOwes(pb: PayBack, feeds: Feeds, ls: seq<Lock>, m: Miner, pay: nat, pledge: nat)
    requires SaneLocks(feeds, ls) && pledge > 0
    ensures Owed(PayLocks(pb, feeds, ls, m, pay, pledge))
      == Owed(pb) + ShareTotal(feeds, ls, pay, pledge) - ContractTotal(feeds, ls, pay, pledge)
    decreases |ls|
  {
    hide Owed, Pay, Share;
    if ls != [] {
      var init, l := ls[..|ls|-1], ls[|ls|-1];
      PayLocksOwes(pb, feeds, init, m, pay, pledge);
      PayOwes(PayLocks(pb, feeds, init, m, pay, pledge), l.owner, m, Share(feeds, l, pay, pledge));
    }
  }

  /** The shares of locks that count for no more than the pledge come to no more than there is to pay. */
  lemma SharesWithinPay(feeds: Feeds, ls: seq<Lock>, pay: nat, pledge: nat)
    requires SaneLocks(feeds, ls) && pledge > 0 && CountedTotal(feeds, ls) <= pledge
    ensures ShareTotal(feeds, ls, pay, pledge) <= pay
  {
    hide ShareTotal, CountedTotal;
    SharesScaled(feeds, ls, pay, pledge);
    Arith.MulMono(CountedTotal(feeds, ls), pledge, pay);
    assert (pay + 1) * pledge == pledge * pay + pledge;
    LessByFactor(ShareTotal(feeds, ls, pay, pledge), pay, pledge);
  }

  lemma {:induction false} SharesScaled(feeds: Feeds, ls: seq<Lock>, pay: nat, pledge: nat)
    requires SaneLocks(feeds, ls) && pledge > 0
    ensures ShareTotal(feeds, ls, pay, pledge) * pledge <= CountedTotal(feeds, ls) * pay
    decreases |ls|
  {
    hide Counted, Share;
    if ls != [] {
      var init, l := ls[..|ls|-1], ls[|ls|-1];
      SharesScaled(feeds, init, pay, pledge);
      ShareScaled(feeds, l, pay, pledge);
      AddScaled(ShareTotal(feeds, init, pay, pledge), Share(feeds, l, pay, pledge), CountedTotal(feeds, init),
                Counted(feeds, l), pay, pledge);
    }
  }

  lemma ShareScaled(feeds: Feeds, l: Lock, pay: nat, pledge: nat)
    requires SaneFeeds(feeds, l.asset) && pledge > 0
    ensures Share(feeds, l, pay, pledge) * pledge <= Counted(feeds, l) * pay
  {
    hide Counted;
    FloorOf(pay, Counted(feeds, l), pledge);
  }

  lemma AddScaled(s: int, share: int, c: int, k: int, pay: int, pledge: int)
    requires s * pledge <= c * pay && share * pledge <= k * pay
    ensures (s + share) * pledge <= (c + k) * pay
  {
    assert (s + share) * pledge == s * pledge + share * pledge;
    assert (c + k) * pay == c * pay + k * pay;
  }

  lemma {:induction false} NoContractTotal(feeds: Feeds, ls: seq<Lock>, pay: nat, pledge: nat)
    requires SaneLocks(feeds, ls) && pledge > 0 && forall l <- ls :: !l.inContract
    ensures ContractTotal(feeds, ls, pay, pledge) == 0
    decreases |ls|
  {
    if ls != [] {
      NoContractTotal(feeds, ls[..|ls|-1], pay, pledge);
    }
  }

  // ---- a block's payment ----

  function PartOf(n: nat, percent: nat): nat {
    FloorNonNegative(n, percent, 100);
    n * percent / 100
  }

  lemma PartWithin(n: nat, percent: nat)
    requires percent <= 100
    ensures PartOf(n, percent) <= n
  {
    FloorMono(percent, 100, n, 100);
    assert n * percent == percent * n && 100 * n / 100 == n;
  }

  function MinerPart(reward: nat, fee: nat): nat {
    PartOf(reward, ALL_MINER_PAY_RATIO) + fee
  }

  function PledgerPart(reward: nat, fee: nat, kept: nat): nat
    requires kept <= MINER_PAY_BACK_RATIO
  {
    PartOf(MinerPart(reward, fee), MINER_PLEDGE_PAY_RATIO - kept)
  }

  /** What the miner and those who pledged to it get. */
  function PayMinerPart(pb: PayBack, m: Miner, address: Address, reward: nat, fee: nat, kept: nat,
                        cached: Option<seq<Lock>>, feeds: Feeds, pledge: nat): PayBack
    requires kept <= MINER_PAY_BACK_RATIO && (cached.Some? ==> pledge > 0 && SaneLocks(feeds, cached.value))
  {
    match cached
    case None => Pay(pb, address, m, MinerPart(reward, fee))
    case Some(ls) =>
      var pay := PledgerPart(reward, fee, kept);
      Pay(PayLocks(pb, feeds, ls, m, pay, pledge), address, m,
          MinerPart(reward, fee) - ShareTotal(feeds, ls, pay, pledge))
  }

  /** Pledgers and miner together get the miner part and the fees, exactly; only contract-held locks leave a rest. */
  lemma MinerPartExact(pb: PayBack, m: Miner, address: Address, reward: nat, fee: nat, kept: nat,
                       cached: Option<seq<Lock>>, feeds: Feeds, pledge: nat)
    requires kept <= MINER_PAY_BACK_RATIO
    requires cached.Some? ==> pledge > 0 && SaneLocks(feeds, cached.value)
    requires cached.Some? ==> CountedTotal(feeds, cached.value) <= pledge
    ensures cached.Some? ==>
      && ShareTotal(feeds, cached.value, PledgerPart(reward, fee, kept), pledge) <= MinerPart(reward, fee)
      && Owed(PayMinerPart(pb, m, address, reward, fee, kept, cached, feeds, pledge))
         == Owed(pb) + MinerPart(reward, fee)
            - ContractTotal(feeds, cached.value, PledgerPart(reward, fee, kept), pledge)
    ensures cached.None? || (forall l <- cached.value :: !l.inContract) ==>
      Owed(PayMinerPart(pb, m, address, reward, fee, kept, cached, feeds, pledge)) == Owed(pb) + MinerPart(reward, fee)
  {
    hide Owed, Pay, PayLocks, ShareTotal, ContractTotal, CountedTotal, PartOf;
    match cached
    case None => PayOwes(pb, address, m, MinerPart(reward, fee));
    case Some(ls) =>
      var pay := PledgerPart(reward, fee, kept);
      PartWithin(MinerPart(reward, fee), MINER_PLEDGE_PAY_RATIO - kept);
      SharesWithinPay(feeds, ls, pay, pledge);
      PayLocksOwes(pb, feeds, ls, m, pay, pledge);
      PayOwes(PayLocks(pb, feeds, ls, m, pay, pledge), address, m,
              MinerPart(reward, fee) - ShareTotal(feeds, ls, pay, pledge));
      if forall l <- ls :: !l.inContract {
        NoContractTotal(feeds, ls, pay, pledge);
      }
  }

  /** The three parts of a reward leave at most two units unpaid. */
  lemma PartsOfReward(reward: nat)
    ensures var paid := PartOf(reward, GUARD_PAY_RATIO) + PartOf(reward, ALL_MINER_PAY_RATIO) + PartOf(reward,
                               DEVELOP_TEAM_PAY_RATIO);
      paid <= reward <= paid + 2
  {}

  // ---- what each payee gets ----

  /** n is the worth of a lock when a block is paid: its amount in the core asset at the price, rounded down. */
  predicate IsWorth(feeds: Feeds, l: Lock, n: nat) {
    if l.asset == CORE then n == l.amount
    else if feeds(l.asset).Some? && feeds(l.asset).value.quoteAsset == CORE
    then WithinOneUnit(n, l.amount, feeds(l.asset).value.quote, feeds(l.asset).value.base)
    else n == 0
  }

  /** n is a lock's part of pay: in proportion to its worth against the pledge, rounded down. */
  ghost predicate IsShare(feeds: Feeds, l: Lock, pay: nat, pledge: nat, n: nat) {
    exists worth: nat :: IsWorth(feeds, l, worth) && WithinOneUnit(n, pay, worth, pledge)
  }

  lemma PledgedExact(feeds: Feeds, a: AssetId, n: nat)
    requires SaneFeeds(feeds, a)
    ensures a == CORE ==> Pledged(feeds, a, n) == n
    ensures a != CORE && feeds(a).None? ==> Pledged(feeds, a, n) == 0
    ensures a != CORE && feeds(a).Some? ==>
      WithinOneUnit(Pledged(feeds, a, n), n, feeds(a).value.quote, feeds(a).value.base)
  {
    if a != CORE && feeds(a).Some? {
      FloorOf(n, feeds(a).value.quote, feeds(a).value.base);
    }
  }

  lemma CountedExact(feeds: Feeds, l: Lock)
    requires SaneFeeds(feeds, l.asset)
    ensures IsWorth(feeds, l, Counted(feeds, l))
  {
    if l.asset != CORE && feeds(l.asset).Some? {
      FloorOf(l.amount, feeds(l.asset).value.quote, feeds(l.asset).value.base);
    }
  }

  lemma ShareExact(feeds: Feeds, l: Lock, pay: nat, pledge: nat)
    requires SaneFeeds(feeds, l.asset) && pledge > 0
    ensures IsShare(feeds, l, pay, pledge, Share(feeds, l, pay, pledge))
  {
    hide Counted, IsWorth;
    CountedExact(feeds, l);
    FloorOf(pay, Counted(feeds, l), pledge);
  }

  /** A share is determined by the lock, the price and the pledge. */
  lemma ShareUnique(feeds: Feeds, l: Lock, pay: nat, pledge: nat, m: nat, n: nat)
    requires SaneFeeds(feeds, l.asset) && pledge > 0 && IsShare(feeds, l, pay, pledge, m)
    requires IsShare(feeds, l, pay, pledge, n)
    ensures m == n
  {
    hide WithinOneUnit;
    var v: nat :| IsWorth(feeds, l, v) && WithinOneUnit(m, pay, v, pledge);
    var w: nat :| IsWorth(feeds, l, w) && WithinOneUnit(n, pay, w, pledge);
    if l.asset != CORE && feeds(l.asset).Some? && feeds(l.asset).value.quoteAsset == CORE {
      OneFloor(v, w, l.amount, feeds(l.asset).value.quote, feeds(l.asset).value.base);
    }
    OneFloor(m, n, pay, v, pledge);
  }

  lemma OneFloor(m: int, n: int, p: int, num: int, den: int)
    requires den > 0 && WithinOneUnit(m, p, num, den) && WithinOneUnit(n, p, num, den)
    ensures m == n
  {
    LessByFactor(m, n, den);
    LessByFactor(n, m, den);
  }

  /** The shares together are short of the pledgers' proportion by less than one unit a lock. */
  lemma {:induction false} SharesShort(feeds: Feeds, ls: seq<Lock>, pay: nat, pledge: nat)
    requires SaneLocks(feeds, ls) && pledge > 0
    ensures var short := pay * CountedTotal(feeds, ls) - ShareTotal(feeds, ls, pay, pledge) * pledge;
      0 <= short <= |ls| * (pledge - 1)
    decreases |ls|
  {
    hide Counted, Share;
    if ls != [] {
      var init, l := ls[..|ls| - 1], ls[|ls| - 1];
      SharesShort(feeds, init, pay, pledge);
      ShareShort(feeds, l, pay, pledge);
      ShortAdds(ShareTotal(feeds, init, pay, pledge), Share(feeds, l, pay, pledge), CountedTotal(feeds, init),
                Counted(feeds, l), pay, pledge, |init|);
    }
  }

  lemma ShareShort(feeds: Feeds, l: Lock, pay: nat, pledge: nat)
    requires SaneFeeds(feeds, l.asset) && pledge > 0
    ensures 0 <= pay * Counted(feeds, l) - Share(feeds, l, pay, pledge) * pledge <= pledge - 1
  {
    hide Counted;
    FloorOf(pay, Counted(feeds, l), pledge);
    var n := Share(feeds, l, pay, pledge);
    assert (n + 1) * pledge == n * pledge + pledge;
  }

  lemma ShortAdds(s: int, share: int, c: int, k: int, pay: int, pledge: int, n: nat)
    requires 0 <= pay * c - s * pledge <= n * (pledge - 1) && 0 <= pay * k - share * pledge <= pledge - 1
    ensures 0 <= pay * (c + k) - (s + share) * pledge <= (n + 1) * (pledge - 1)
  {
    assert (s + share) * pledge == s * pledge + share * pledge && pay * (c + k) == pay * c + pay * k;
    assert (n + 1) * (pledge - 1) == n * (pledge - 1) + (pledge - 1);
  }

  /** What the guards' part comes to for one address: a guard's equal share, and for the last one what is left. */
  function GuardDue(guards: seq<Address>, k: nat, all: nat, who: Address): int
    requires k <= |guards|
  {
    if k == 0 then 0
    else
      var n := |guards|;
      GuardDue(guards, k - 1, all, who)
      + if guards[k - 1] != who then 0 else if k < n then all / n else all - (n - 1) * (all / n)
  }

  /** What the shares of locks outside contracts come to for one address. */
  function LockDue(ls: seq<Lock>, shares: seq<nat>, who: Address): int
    requires |shares| == |ls|
  {
    if ls == [] then 0
    else
      var n := |ls| - 1;
      LockDue(ls[..n], shares[..n], who) + if ls[n].owner == who && !ls[n].inContract then shares[n] else 0
  }

  function TotalOf(ns: seq<nat>): nat {
    if ns == [] then 0 else TotalOf(ns[..|ns| - 1]) + ns[|ns| - 1]
  }

  lemma {:induction false} PayEachDue(pb: PayBack, guards: seq<Address>, k: nat, m: Miner, all: nat, w: Payee)
    requires k < |guards|
    ensures Get(PayEach(pb, guards, k, m, all / |guards|), w)
      == Get(pb, w) + if w.miner == m then GuardDue(guards, k, all, w.address) else 0
    decreases k
  {
    hide Get;
    if k > 0 {
      PayEachDue(pb, guards, k - 1, m, all, w);
    }
  }

  lemma PayGuardsDue(pb: PayBack, guards: seq<Address>, m: Miner, all: nat, w: Payee)
    requires guards != []
    ensures Get(PayGuards(pb, guards, m, all), w)
      == Get(pb, w) + if w.miner == m then GuardDue(guards, |guards|, all, w.address) else 0
  {
    hide Get, PayEach;
    PayEachDue(pb, guards, |guards| - 1, m, all, w);
  }

  function SharesOf(feeds: Feeds, ls: seq<Lock>, pay: nat, pledge: nat): (r: seq<nat>)
    requires SaneLocks(feeds, ls) && pledge > 0
    ensures |r| == |ls|
  {
    seq(|ls|, i requires 0 <= i < |ls| => assert ls[i] in ls; Share(feeds, ls[i], pay, pledge))
  }

  lemma SharesOfExact(feeds: Feeds, ls: seq<Lock>, pay: nat, pledge: nat)
    requires SaneLocks(feeds, ls) && pledge > 0
    ensures forall i :: 0 <= i < |ls| ==> IsShare(feeds, ls[i], pay, pledge, SharesOf(feeds, ls, pay, pledge)[i])
  {
    hide Share, IsShare;
    forall i | 0 <= i < |ls| ensures IsShare(feeds, ls[i], pay, pledge, SharesOf(feeds, ls, pay, pledge)[i]) {
      assert ls[i] in ls;
      ShareExact(feeds, ls[i], pay, pledge);
    }
  }

  lemma {:induction false} PayLocksDue(pb: PayBack, feeds: Feeds, ls: seq<Lock>, m: Miner, pay: nat, pledge: nat,
                                       w: Payee)
    requires SaneLocks(feeds, ls) && pledge > 0
    ensures var shares := SharesOf(feeds, ls, pay, pledge);
      && TotalOf(shares) == ShareTotal(feeds, ls, pay, pledge)
      && Get(PayLocks(pb, feeds, ls, m, pay, pledge), w)
         == Get(pb, w) + if w.miner == m then LockDue(ls, shares, w.address) else 0
    decreases |ls|
  {
    hide Get, Share;
    if ls != [] {
      var n := |ls| - 1;
      PayLocksDue(pb, feeds, ls[..n], m, pay, pledge, w);
      assert SharesOf(feeds, ls, pay, pledge)[..n] == SharesOf(feeds, ls[..n], pay, pledge);
    }
  }

  /** A part in percent, rounded down. */
  lemma PartExact(n: nat, percent: nat)
    ensures WithinOneUnit(PartOf(n, percent), n, percent, 100)
  {
    FloorOf(n, percent, 100);
  }
}

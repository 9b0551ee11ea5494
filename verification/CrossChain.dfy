/**
 * The cross-chain part of the database object: adjust_deposit_to_link_trx, adjust_crosschain_confirm_trx,
 * adjust_crosschain_transaction and the evaluators that call them, as methods on its fields.
 */
module CrossChain {
  import opened MapSum
  import opened ForeignIds
  import opened CrossChainSpec
  import opened CrossChainLaws
  import opened CrossChainRun
  import opened Rewrites

  lemma MoveAllSnoc(records: Records, ids: seq<TrxId>, id: TrxId, st: State, f: Foreign)
    requires id in records
    ensures id in MoveAll(records, ids, st, f)
    ensures MoveAll(records, ids + [id], st, f)
      == MoveAll(records, ids, st, f)[id := Touch(MoveAll(records, ids, st, f)[id], st, f)]
  {}

  /** Walking the related records and moving those in the given states is MoveRelated. */
  lemma RangeIsRelated(records: Records, w: TrxId, from: set<State>, st: State, f: Foreign)
    ensures Rewrite(records, set id <- records | records[id].relate == w,
                    (r: Record) => if r.state in from then Touch(r, st, f) else r)
      == MoveRelated(records, w, from, st, f)
  {
    hide Touch;
  }

  lemma MoveAllKeys(records: Records, ids: seq<TrxId>, st: State, f: Foreign)
    ensures MoveAll(records, ids, st, f).Keys == records.Keys
  {}

  lemma MoveNone(records: Records, st: State, f: Foreign)
    ensures MoveAll(records, [], st, f) == records
  {}

  lemma BatchedFee(records: Records, id: TrxId, origins: seq<TrxId>, fee: Amount, symbol: string)
    requires origins != []
    ensures var r := Batched(records, id, origins, NO_FEE, symbol);
      && id in r && r[id := r[id].(fee := fee)] == Batched(records, id, origins, fee, symbol)
  {}

  lemma ColdHotKeeps(s: Bridge, x: Amount, foreign: string, symbol: string)
    requires Allowed(s, ColdHotResult(x, foreign, symbol))
    ensures var t := Apply(s, ColdHotResult(x, foreign, symbol));
      Invariant(s) ==> Invariant(t) && forall a :: a != CORE ==> Drift(t, a) == Drift(s, a)
  {
    hide Allowed, Apply, Invariant, Drift;
    if Invariant(s) {
      var step := ColdHotResult(x, foreign, symbol);
      StepKeeps(s, step);
      forall a | a != CORE ensures Drift(Apply(s, step), a) == Drift(s, a) {
        StepDrift(s, step, a);
      }
    }
  }

  /** update_fee_pool as far as the assets in `done`. */
  function PoolPart(pool: map<AssetId, int>, collected: map<AssetId, int>, done: set<AssetId>): map<AssetId, int> {
    map a <- pool.Keys + collected.Keys :: Get(pool, a) + (if a != CORE && a in done then Get(collected, a) else 0)
  }

  lemma PoolPartAdd(pool: map<AssetId, int>, collected: map<AssetId, int>, done: set<AssetId>, a: AssetId)
    requires a in collected && a !in done
    ensures a == CORE ==> PoolPart(pool, collected, done + {a}) == PoolPart(pool, collected, done)
    ensures a in PoolPart(pool, collected, done)
    ensures a != CORE ==>
      var part := PoolPart(pool, collected, done);
      PoolPart(pool, collected, done + {a}) == part[a := part[a] + collected[a]]
  {}

  lemma PoolPartEnds(pool: map<AssetId, int>, collected: map<AssetId, int>)
    ensures PoolPart(pool, collected, collected.Keys) == PoolAfter(pool, collected)
  {}

  class Database {
    var balances: map<Holder, int>
    var supply: map<AssetId, int>
    var pool: map<AssetId, int>
    var collected: map<AssetId, int>
    var inBlock: bool
    var records: Records
    var acquired: map<string, Acquired>

    function Value(): Bridge
      reads this
    {
      Bridge(balances, supply, pool, collected, inBlock, records, acquired)
    }

    constructor (s: Bridge)
      ensures Value() == s
    {
      balances, supply, pool, collected, inBlock := s.balances, s.supply, s.pool, s.collected, s.inBlock;
      records, acquired := s.records, s.acquired;
    }

    /** The loops over all_related_origin_transaction_ids. */
    method MoveOrigins(ids: seq<TrxId>, st: State, f: Foreign)
      requires forall o <- ids :: o in records
      modifies this`records
      ensures records == MoveAll(old(records), ids, st, f)
    {
      hide MoveAll, Touch;
      MoveNone(records, st, f);
      for i := 0 to |ids|
        invariant records == MoveAll(old(records), ids[..i], st, f)
      {
        MoveAllSnoc(old(records), ids[..i], ids[i], st, f);
        records := records[ids[i] := Touch(records[ids[i]], st, f)];
        assert ids[..i + 1] == ids[..i] + [ids[i]];
      }
      assert ids[..|ids|] == ids;
    }

    /** The loops over the range of records that relate to one transaction. */
    method MoveRange(w: TrxId, from: set<State>, st: State, f: Foreign)
      modifies this`records
      ensures records == MoveRelated(old(records), w, from, st, f)
    {
      hide Rewrite, MoveRelated, Touch;
      RangeIsRelated(records, w, from, st, f);
      var range := set id <- records | records[id].relate == w;
      records := RewriteEach(records, range, (r: Record) => if r.state in from then Touch(r, st, f) else r);
    }

    /** adjust_deposit_to_link_trx and adjust_crosschain_confirm_trx: create the entry or set its state. */
    method Acquire(key: string, a: Acquired)
      modifies this`acquired
      ensures acquired == old(acquired)[key := a]
    {
      acquired := acquired[key := a];
    }

    method RecordDeposit(owner: nat, x: Amount, foreign: string) returns (ok: bool)
      modifies this
      ensures ok == Allowed(old(Value()), Deposit(owner, x, foreign))
      ensures Value() == Next(old(Value()), Deposit(owner, x, foreign))
    {
      ok := inBlock && !(foreign in acquired && acquired[foreign] != AcquiredUncreate);
      if ok && x.n < 0 {
        ok := Get(balances, Holder(owner, x.asset)) >= -x.n;
      }
      if ok {
        balances := Adjust(balances, Holder(owner, x.asset), x.n);
        Acquire(foreign, AcquiredCreate);
        supply := Adjust(supply, x.asset, x.n);
      }
    }

    method RequestWithdraw(id: TrxId, owner: nat, x: Amount, symbol: string) returns (ok: bool)
      modifies this
      ensures ok == Allowed(old(Value()), WithdrawRequest(id, owner, x, symbol))
      ensures Value() == Next(old(Value()), WithdrawRequest(id, owner, x, symbol))
    {
      ok := inBlock && Fresh(records, id);
      if ok && x.n > 0 {
        ok := Get(balances, Holder(owner, x.asset)) >= x.n;
      }
      if ok {
        balances := Adjust(balances, Holder(owner, x.asset), -x.n);
        records := records[id := Record(Withdraw, 0, [], Uncreate, "", NO_FEE, symbol)];
        supply := Adjust(supply, x.asset, -x.n);
      }
    }

    /** The without-sign operation: each withdrawal is taken, the first call creates the batch. */
    method CreateBatch(id: TrxId, origins: seq<TrxId>, asset: AssetId, fee: Amount, symbol: string) returns (ok: bool)
      modifies this
      ensures ok == Allowed(old(Value()), Batch(id, origins, asset, fee, symbol))
      ensures Value() == Next(old(Value()), Batch(id, origins, asset, fee, symbol))
    {
      hide Batched, Adjust, Get;
      ok := AllFound(records, origins, (r: Record) => r.kind == Withdraw && r.state == Uncreate);
      ok := ok && inBlock && Fresh(records, id) && origins != [] && fee.n >= 0;
      if ok {
        BatchedFee(records, id, origins, fee, symbol);
        CreateBatchRecords(id, origins, symbol);
        records := records[id := records[id].(fee := fee)];
        supply := Adjust(supply, asset, fee.n);
      }
    }

    method CreateBatchRecords(id: TrxId, origins: seq<TrxId>, symbol: string)
      requires Fresh(records, id) && origins != [] && forall o <- origins :: o in records
      modifies this`records
      ensures records == Batched(old(records), id, origins, NO_FEE, symbol)
    {
      hide MoveAll;
      ghost var batch := Record(WithoutSign, origins[0], origins, Create, "", NO_FEE, symbol);
      MoveNone(records, Create, Keep);
      for i := 0 to |origins|
        invariant records
          == if i == 0 then old(records) else MoveAll(old(records), origins[..i], Create, Keep)[id := batch]
      {
        MoveAllSnoc(old(records), origins[..i], origins[i], Create, Keep);
        MoveAllKeys(old(records), origins[..i], Create, Keep);
        assert origins[..i + 1] == origins[..i] + [origins[i]];
        records := records[origins[i] := records[origins[i]].(state := Create)];
        if id !in records {
          records := records[id := Record(WithoutSign, origins[i], origins, Create, "", NO_FEE, symbol)];
        }
      }
      assert origins[..|origins|] == origins;
    }

    /**
     * The scan of the related records refuses a signature once any of them is past signing: only an uncombined
     * batch is signed.
     */
    method SignBatch(id: TrxId, batch: TrxId, symbol: string) returns (ok: bool)
      modifies this`records
      ensures ok == Allowed(old(Value()), Signature(id, batch, symbol))
      ensures Value() == Next(old(Value()), Signature(id, batch, symbol))
      ensures Invariant(old(Value())) ==> Invariant(Value())
      ensures ok && Invariant(old(Value())) ==> old(records)[batch].state == records[batch].state == Create
    {
      hide Invariant, IsEth;
      ghost var before := Value();
      var related := set x <- records | records[x].relate == batch;
      ok := AllPass(records, related, (r: Record) => r.state in {Create, Sign});
      ok := ok && inBlock && Fresh(records, id) && batch in records && records[batch].kind == WithoutSign;
      if ok {
        records := records[id := Record(WithSign, batch, [], Sign, "", NO_FEE, records[batch].symbol)];
        if Invariant(before) {
          SignedBatchIsNew(before, id, batch, symbol);
          StepKeeps(before, Signature(id, batch, symbol));
        }
      }
    }

    method CombineSignatures(id: TrxId, signature: TrxId, foreign: string, symbol: string) returns (ok: bool)
      modifies this`records
      ensures ok == Allowed(old(Value()), Combine(id, signature, foreign, symbol))
      ensures Value() == Next(old(Value()), Combine(id, signature, foreign, symbol))
    {
      hide IsEth, MoveAll, MoveRelated;
      if !inBlock || !Fresh(records, id) || signature !in records || records[signature].kind != WithSign {
        return false;
      }
      var w := records[signature].relate;
      if w !in records {
        return false;
      }
      ok := AllFound(records, records[w].origins, (r: Record) => r.state == Create);
      if !ok {
        return;
      }
      var origins := records[w].origins;
      var st := if IsEth(symbol) then EthNeedSign else CombineCreate;
      records := records[w := records[w].(state := st)];
      MoveOrigins(origins, st, Set(foreign));
      MoveRange(w, {Sign}, st, Keep);
      records := records[id := Record(CombineSign, w, [], st, foreign, NO_FEE, symbol)];
    }

    /** eths_wallfacer_sign_final and eths_wallfacer_change_signer do the same to the records. */
    method FinalizeCombination(id: TrxId, kind: Kind, c: TrxId, foreign: string, symbol: string) returns (ok: bool)
      requires Invariant(Value())
      modifies this`records
      ensures ok == Allowed(old(Value()), Finalize(id, kind, c, foreign, symbol))
      ensures Value() == Next(old(Value()), Finalize(id, kind, c, foreign, symbol))
    {
      hide Advanced, Used, IsEth, MoveAll, MoveRelated, AfterBar, DisjointBatches, OneCombine;
      ok := inBlock && Fresh(records, id) && kind in {SignFinal, ChangeSigner} && c in records
      && records[c].kind == CombineSign
        && records[c].relate in records && records[c].state == EthNeedSign;
      if !ok {
        return;
      }
      var w, trxid := records[c].relate, AfterBar(foreign);
      assert ReferenceOk(records, c) && BatchOk(records, w);
      records := records[c := records[c].(state := EthSign, foreign := trxid)];
      records := records[w := records[w].(state := EthSign)];
      MoveOrigins(records[w].origins, EthSign, Set(trxid));
      MoveRange(w, {EthNeedSign}, EthSign, Set(trxid));
      records := records[id := Record(kind, w, [], EthSign, trxid, NO_FEE, symbol)];
    }

    /** The withdraw-result branch of adjust_crosschain_transaction. */
    method ConfirmRecords(w: TrxId)
      requires w in records && forall o <- records[w].origins :: o in records
      modifies this`records
      ensures records == Confirmed(old(records), w)
    {
      hide MoveAll, MoveRelated;
      records := records[w := records[w].(state := Confirm)];
      MoveOrigins(records[w].origins, Confirm, Keep);
      MoveRange(w, {CombineCreate, EthSign}, Confirm, Keep);
    }

    /** The withdraw result: the foreign id is used, the batch confirmed, its fee collected. */
    method ConfirmBatch(c: TrxId, foreign: string, symbol: string) returns (ok: bool)
      modifies this
      ensures ok == Allowed(old(Value()), Result(c, foreign, symbol))
      ensures Value() == Next(old(Value()), Result(c, foreign, symbol))
    {
      hide IsEth, Confirmed, ResultKey, Adjust;
      var key := ResultKey(symbol, foreign);
      if !inBlock || c !in records || records[c].kind != CombineSign || records[c].foreign != key
         || records[c].relate !in records {
        return false;
      }
      if IsEth(symbol) && records[c].state != EthSign {
        return false;
      }
      var w := records[c].relate;
      ok := AllFound(records, records[w].origins, (r: Record) => true);
      if !ok || (key in acquired && acquired[key] != AcquiredUncreate) {
        return false;
      }
      var fee := records[w].fee;
      Acquire(key, AcquiredConfirmed);
      ConfirmRecords(w);
      collected := Adjust(collected, fee.asset, fee.n);
    }

    /**
     * The cold/hot result uses up a free id, and what leaves the supply leaves the collected fees: backing is not
     * touched.
     */
    method ConfirmColdHot(x: Amount, foreign: string, symbol: string) returns (ok: bool)
      modifies this
      ensures Value() == Next(old(Value()), ColdHotResult(x, foreign, symbol))
      ensures ok <==> inBlock && Free(old(acquired), ResultKey(symbol, foreign))
      ensures inBlock ==> !Free(acquired, ResultKey(symbol, foreign))
      ensures Invariant(old(Value())) ==> Invariant(Value())
      ensures Invariant(old(Value())) ==> forall a :: a != CORE ==> Drift(Value(), a) == Drift(old(Value()), a)
    {
      hide Invariant, ResultKey, Drift, Adjust, Get;
      ghost var before := Value();
      var key := ResultKey(symbol, foreign);
      ok := inBlock && !(key in acquired && acquired[key] != AcquiredUncreate);
      if ok {
        Acquire(key, AcquiredConfirmed);
        supply := Adjust(supply, x.asset, -x.n);
        collected := Adjust(collected, x.asset, -x.n);
        ColdHotKeeps(before, x, foreign, symbol);
      }
    }

    /** The loop of update_fee_pool. */
    method PooledFees() returns (sums: map<AssetId, int>)
      ensures sums == PoolAfter(pool, collected)
    {
      hide PoolPart, PoolAfter;
      var rest := collected.Keys;
      ghost var done: set<AssetId> := {};
      sums := PoolPart(pool, collected, {});
      while rest != {}
        invariant done <= collected.Keys && rest == collected.Keys - done
        invariant sums == PoolPart(pool, collected, done)
        decreases |rest|
      {
        var a :| a in rest;
        PoolPartAdd(pool, collected, done, a);
        if a != CORE {
          sums := sums[a := sums[a] + collected[a]];
        }
        rest, done := rest - {a}, done + {a};
      }
      assert done == collected.Keys;
      PoolPartEnds(pool, collected);
    }

    /** update_fee_pool, at the end of a block. */
    method UpdateFeePool()
      requires inBlock
      modifies this`pool, this`inBlock
      ensures Value() == Next(old(Value()), CloseBlock)
    {
      hide PoolAfter;
      pool := PooledFees();
      inBlock := false;
    }

    /** reset_current_collected_fee, at the start of the next block. */
    method ResetCollectedFees()
      requires !inBlock
      modifies this`collected, this`inBlock
      ensures Value() == Next(old(Value()), OpenBlock)
    {
      collected, inBlock := map[], true;
    }
  }
}

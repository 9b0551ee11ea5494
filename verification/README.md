# Whitecoin chain database: a verified model

This project models the parts of the Whitecoin chain database that move value or decide what the chain is, and proves
what they keep. Each part takes the form it has in the node: records that are updated in place are classes with map and
sequence fields, loops are loops with invariants, and every such method is proved against a function whose own laws are
proved as lemmas.

| part | files |
|---|---|
| sums over maps, division with rounding, loops over an index | `MapSum`, `Arith`, `Floors`, `Rewrites`, `Wrappers` |
| market: matching, margin calls, force and global settlement | `Ledger`, `MarketSpec`, `MarketLaws`, `MarketRun`, `BlackSwan`, `Payments`, `CallOrders`, `ForceSettlement`, `SettleRun`, `Market` |
| chain: fork switch, block store | `ForkSwitch`, `BlockStore` |
| cross-chain deposits and withdrawals | `ForeignIds`, `CrossChainSpec`, `CrossChainLaws`, `CrossChainRun`, `CrossChainLimits`, `CrossChain` |
| cold/hot transfers | `ColdHotSpec`, `ColdHotLaws`, `ColdHot` |
| miner schedule, locks and pay | `Schedule`, `Locks`, `Reward`, `RewardPay` |
| deferred name transfers | `NameTransfer` |
| CashAddr | `Gf32`, `PackedRemainder`, `CashAddr` |
| Keccak | `KeccakSpec`, `Keccak` |

`dafny verify dfyconfig.toml` checks the whole project.

Readings used throughout:

- A thrown exception is a `None`, `ok == false` or a refused step. The undo session around a transaction discards the
  partial changes of a step that throws; a step is then one that changes nothing.
- Amounts are unbounded integers. The one width check that decides behaviour, the supply cap on `asset * price`, is kept.
- A protocol step is allowed when the evaluator's checks pass and the producer of the operation selects it. The final ETH
  signature and the change of signer are produced only for records that await them (libraries/wallet/wallet.cpp:5842,
  5938, 6005 and 6094); their evaluators do not check this for cold/hot transfers, nor for the final signature of a withdrawal.
  Likewise guards sign unsigned transactions (libraries/wallet/wallet.cpp:6189), unsigned transactions are made for requests
  that have none (libraries/chain/db_coldhot_trx.cpp:397), and combinations from signatures of transactions that are not
  combined (libraries/chain/db_crosschain_trx.cpp:990-1035, libraries/chain/db_coldhot_trx.cpp:583).
- Hashes, signatures, foreign-chain queries and serialization are parameters or given data.

Where the code falls short of what one would expect, the code is kept, and the exact condition is proved:

- `fetch_block_id` returns the id of a removed block (`FetchBlockId`, `RemovedIdIsStillFetched`, `RemovedIdExample`).
- An account can be created under a reserved name; maintenance then throws, or after a further transfer does not end
  (`CreateAccount`, `ProcessNameTransfer`, `ReservedNameCreated`, `EndlessLoop`).
- A failed fork switch is not undone when the undo limit was too low for the new branch (`SwitchFork`, `BrokenSwitch`).
- A margin call can leave debt without collateral, and force settlements of the asset then throw (`ProcessSettlement`,
  `BareCallExists`).
- A result looks at the state of its combination only if its own symbol is of the ETH family. Under another symbol it
  confirms an ETH batch that awaits its signature, and the batch can be confirmed twice (`StepKeepsIff`, `ConfirmedTwice`,
  `ConfirmedTwiceExists`).
- A guard may reopen a foreign id that a confirmed combination carries, which can then be confirmed again
  (`ReopenConfirmsAgainIff`, `ReopenConfirmsAgainExists`).
- A batch may book its fee in another asset than its own (`BatchBackedIff`, `UnbackedBatchExists`).
- A barred ETH id used as deposit does not block a result of the same transaction (`DepositBlocksResult`,
  `BarredDepositExists`).
- A cancelled cold/hot combination can still be confirmed, and its records part (`ResultKeepsIff`, `CancelledThenConfirmed`,
  `TornTransferExists`).
- The black swan test looks at the call order with the least call price, which need not be the poorest (`SwanMissedIff`,
  `OneRatioMissesNone`, `MissedSwanExists`).
- After a global settlement a holder cannot redeem once the price feed is gone, except in prediction markets
  (`RedemptionSucceeds`, `RedemptionRefusedExists`).

## Model

| member | source | states |
|---|---|---|
| MarketLaws.MatchIsFair | libraries/chain/db_market.cpp:213-251 | whatever the rounding, a limit match trades no more than either side holds, fills one side outright, and the filled side is short of the match price by less than one unit of what it receives |
| MarketLaws.FeeIsPart | libraries/chain/db_market.cpp:548-566 | a market fee is between zero and the amount traded, so the assertion of pay_market_fees holds |
| MarketLaws.CancelLimitMoves | libraries/chain/db_market.cpp:110-132 | a cancelled limit order moves no asset's holdings away from its supply, deferred fee included |
| MarketLaws.CancelSettleMoves | libraries/chain/db_market.cpp:95-108 | a cancelled force settlement moves no asset's holdings away from its supply |
| MarketLaws.FillLimitMoves | libraries/chain/db_market.cpp:292-330 | a filled limit order gives up exactly what it pays and brings in exactly what it receives, with market fee, deferred fee and culled dust accounted for |
| MarketLaws.FillCallMoves | libraries/chain/db_market.cpp:333-384 | a filled call order burns what it receives from supply and from the debts alike, and gives up exactly what it pays of its collateral |
| MarketLaws.FillSettleMoves | libraries/chain/db_market.cpp:386-410 | a filled force settlement gives up exactly what it pays and brings in exactly what it receives |
| Payments.FeeExact | libraries/chain/db_market.cpp:548-566 | the market fee is the lesser of the floored percentage and the maximum, and nothing without a percentage |
| Payments.CancelLimitPays | libraries/chain/db_market.cpp:110-132 | the seller alone gets back what is for sale and the deferred fee |
| Payments.CancelSettlePays | libraries/chain/db_market.cpp:95-108 | the owner alone gets back the units of the request |
| Payments.FillLimitDoes | libraries/chain/db_market.cpp:292-330 | the seller alone is paid what the order receives less the fee, plus a rest that buys less than one unit at the order's own price; fee, deferred fee and the order itself are exact |
| Payments.FillCallDoes | libraries/chain/db_market.cpp:333-384 | debt, collateral and supply fall by exactly what is traded; the borrower alone gets the rest of the collateral, exactly when the debt is gone |
| Payments.FillSettleDoes | libraries/chain/db_market.cpp:386-410 | the owner alone is paid what the request receives less the fee; the request shrinks by what it pays or is gone |
| Payments.MatchLimitsDoes | libraries/chain/db_market.cpp:213-256 | a limit match is two such fills that exchange the two amounts of MatchIsFair |
| Payments.MarginCallDoes | libraries/chain/db_market.cpp:491-529 | a margin call trades the lesser of debt and bid at the bid's price, rounded down, as two such fills |
| Payments.MatchSettleDoes | libraries/chain/db_market.cpp:259-290 | a force settlement trades the least of request, cap and debt; the owner is paid units times quote over base, rounded down, less the fee; the borrower gets the rest once the debt is gone |
| Payments.GlobalSettleDoes | libraries/chain/db_market.cpp:41-93 | for every order in which the call orders are closed: the fund is the sum over them of the lesser of collateral and floored worth of the debt; each borrower's balance grows by exactly the rest of their collateral; every other balance stays; the supply stays and fixes the price |
| Payments.GlobalSettleIff | libraries/chain/db_market.cpp:41-93 | a global settlement goes through exactly when none has happened and every debt has a worth in its collateral within the cap on products |
| Payments.RedeemDoes | libraries/chain/asset_evaluator.cpp:368-392 | a redemption takes the units, burns them, and pays their share of the fund rounded down to the same holder |
| Payments.RequestDoes | libraries/chain/asset_evaluator.cpp:393-402 | a request takes the units and waits under its date |
| MarketRun.MatchLimitsKeeps | libraries/chain/db_market.cpp:213-256 | from every ledger that satisfies the market invariant a limit match keeps it, conserves every asset, and fills at least one of the two orders |
| MarketRun.MarginCallKeeps | libraries/chain/db_market.cpp:491-526 | one margin call keeps the invariant, conserves every asset and finishes the call order or the bid |
| MarketRun.MatchSettleKeeps | libraries/chain/db_market.cpp:259-290 | a force settlement keeps the invariant, burns what it trades from supply and debts, trades a positive amount within the request and the cap, and finishes one of the two orders or reaches the cap |
| MarketRun.CloseCallsKeeps | libraries/chain/db_market.cpp:63-77 | closing all call orders of an asset at any price gathers exactly what leaves the collateral, leaves no call order of the asset, and touches no other asset's supply or debts |
| MarketRun.GlobalSettleKeeps | libraries/chain/db_market.cpp:43-93 | a global settlement keeps the invariant, conserves every asset, restores the supply, and fixes the price supply : fund |
| MarketRun.HeldWithinSupply | libraries/chain/asset_evaluator.cpp:352-366 | nobody holds more of a market-issued asset than its supply |
| MarketRun.FundCoversHolder | libraries/chain/asset_evaluator.cpp:368-392 | after a global settlement at S0 : F0 a holder's payout fits the fund and leaves fund * S0 at least (supply left) * F0, whatever was redeemed and rounded before |
| MarketRun.RedemptionSucceeds | libraries/chain/asset_evaluator.cpp:352-392 | a redemption by a holder is refused only for want of a price feed (prediction markets excepted): the check against the fund never fails |
| MarketRun.RedemptionRefusedExists | libraries/chain/asset_evaluator.cpp:352-366 | a concrete settled asset without a feed whose only holder, fully covered by the fund, is refused |
| MarketRun.SettleKeeps | libraries/chain/asset_evaluator.cpp:352-403 | asset_settle, as redemption or as a new request, keeps the invariant and conserves every asset |
| MarketRun.StepKeeps | libraries/chain/db_market.cpp:43-584 | every market step keeps the invariant and conserves every asset |
| MarketRun.RunKeeps | libraries/chain/db_market.cpp:43-584 | over every sequence of matches, margin calls, force settlements, global settlements, redemptions and cancellations: holdings change only with supply, call debts of an unsettled asset equal its supply, a settled asset's fund covers its supply at the price fixed at settlement, and that price never changes |
| BlackSwan.SwanMissedIff | libraries/chain/db_update.cpp:534-563 | a declared swan is an order under water; an order under water is missed exactly when the poorest order is under water and the one with the least call price is not |
| BlackSwan.OneRatioMissesNone | libraries/chain/protocol/asset.cpp:120-131 | no swan is missed while the call prices of the asset's orders stem from one maintenance ratio: the order of call prices is then the order of collateralization |
| BlackSwan.MissedSwanExists | libraries/chain/db_update.cpp:534-563 | a concrete market, invariant included, in which two orders opened under different maintenance ratios hide one under water |
| Market.Database.AdjustBalance | libraries/chain/db_balance.cpp:185-212 | refused exactly when less is there than is taken; otherwise one balance changes by the amount |
| Market.Database.PayMarketFees | libraries/chain/db_market.cpp:568-584 | returns the fee of the asset's options, at most the amount, and adds exactly that to the accumulated fees |
| Market.Database.CancelLimitOrder | libraries/chain/db_market.cpp:110-132 | the order goes, its amount and deferred fee return to the seller, nothing else changes |
| Market.Database.CancelSettlement | libraries/chain/db_market.cpp:95-108 | the request goes and its amount returns to the owner, nothing else changes |
| Market.Database.MaybeCullSmallOrder | libraries/chain/db_market.cpp:134-153 | cancels the order exactly when what it sells is worth nothing at its own price |
| Market.Database.FillLimitOrder | libraries/chain/db_market.cpp:292-330 | in-place fill equals the specified ledger transformation, with its error cases |
| Market.Database.FillCallOrder | libraries/chain/db_market.cpp:333-384 | in-place fill equals the specified ledger transformation, with its error cases |
| Market.Database.FillSettlement | libraries/chain/db_market.cpp:386-410 | in-place fill equals the specified ledger transformation |
| Market.Database.MatchLimitOrders | libraries/chain/db_market.cpp:213-256 | in-place match equals its specification, fills a side, keeps the invariant and conserves every asset |
| Market.Database.CloseAllCalls | libraries/chain/db_market.cpp:65-76 | the loop equals the closing of the call orders one by one, whatever their order |
| Market.Database.GloballySettle | libraries/chain/db_market.cpp:41-93 | goes through exactly when every debt has a worth; fund, borrowers' refunds, price and supply are those of GlobalSettleDoes; keeps invariant and conservation |
| Market.Database.CallMargin | libraries/chain/db_market.cpp:491-526 | one pass of the margin-call loop equals its specification, keeps invariant and conservation, and finishes one of the two orders |
| Market.Database.FirstCall | libraries/chain/db_update.cpp:534-539 | the begin of the asset's call range: the least call price, then the least id |
| Market.Database.BestBid | libraries/chain/db_update.cpp:524-532 | the begin of the asset's bids: no bid has a greater price |
| Market.Database.HighestPrice | libraries/chain/db_update.cpp:541-548 | a call order owes at least this price exactly when neither the feed nor any bid can cover it |
| Market.Database.CheckForBlackSwan | libraries/chain/db_update.cpp:509-564 | an unsettled asset is left alone exactly when the order with the least call price can be covered by the feed or a bid; otherwise it is settled at what that order owes, and throws exactly when that is not allowed or a debt has no worth; keeps invariant and conservation |
| Market.Database.CallPass | libraries/chain/db_market.cpp:462-531 | one pass: a margin call is made exactly when no swan stops it and the pair passes both price tests; the iterators then move past what is filled; every way to stop is told apart |
| Market.Database.CheckCallOrders | libraries/chain/db_market.cpp:424-534 | returns true exactly when the first pair is there, no swan stops it and both price tests pass; the whole run of margin calls is determined pass by pass, and it stops exactly at a swan, a pair that is gone or fails a test, a call too dear for its collateral, or an exception; keeps invariant and conservation |
| CallOrders.FollowsIsRun | libraries/chain/db_market.cpp:462-531 | the ledger where such a run stops is that of the same margin calls taken as steps of the market, so the laws over runs hold of it |
| Market.Database.SettleAsset | libraries/chain/asset_evaluator.cpp:352-403 | equals the specified settlement operation with its error cases (no units, force settlement disabled, no feed, unsettled prediction market), keeps invariant and conservation |
| Market.Database.DrawFund | libraries/chain/asset_evaluator.cpp:374-392 | fails exactly when the payout exceeds the fund or the price throws; otherwise fund, balance and supply move together |
| Market.Database.MatchCallSettlement | libraries/chain/db_market.cpp:259-290 | equals the specified match, with the black swan exception leaving all records as they were |
| Market.Database.PoorestCall | libraries/chain/db_update.cpp:703-708 | the begin of the call index by collateralization: no call order of the asset is poorer |
| Market.Database.SettleOnce | libraries/chain/db_update.cpp:703-722 | one trade with the poorest call order, its amounts exact; it throws exactly when some call order has no collateral left, and gives up exactly when the poorest cannot pay |
| Market.Database.SettleOrderAgainstCalls | libraries/chain/db_update.cpp:701-725 | the inner loop is a list of such trades; a call order exists whenever one is needed; the settled volume is the sum of the trades and stays within the cap; the rest of a request is given back exactly when it is empty or the poorest call order cannot pay; it throws exactly when the request is not empty and some call order has no collateral |
| Market.Database.ProcessSettlement | libraries/chain/db_update.cpp:692-731 | the request is served at the feed's price less the offset, both rounded down; throws exactly when it is worth more than the cap on products, or is not empty and some call order has no collateral; the volume written back grows by exactly the trades |
| Market.Database.LowerBound | libraries/chain/db_update.cpp:604-632 | finds the first request by asset, date and id at or above a bound, or says that there is none |
| Market.Database.ClearExpiredSettlements | libraries/chain/db_update.cpp:596-733 | the outer loop ends; the ledgers between requests are determined: the first request of an asset by date is given back when the asset is settled or has no feed, and otherwise served; volumes stay within caps and no expired request is left that could still be served; throws exactly at a due request that cannot be settled |
| ForceSettlement.MaxVolumeWithin | libraries/chain/asset_object.cpp:33-44 | the cap lies between zero and supply plus settled volume |
| ForceSettlement.CapStays | libraries/chain/db_update.cpp:672-674 | the cached cap equals a fresh computation after any number of processed requests |
| SettleRun.OfferExact | libraries/chain/db_update.cpp:692-699 | the offer for a request is its worth at the feed within one unit, and of that the part the offset leaves within one unit |
| SettleRun.TradesPay | libraries/chain/db_update.cpp:701-725 | over all trades of a request its owner is paid each trade less the fee, borrowers get what is freed, and no other balance changes |
| SettleRun.TradesCollateral | libraries/chain/db_update.cpp:701-725 | the collateral behind the asset falls by exactly what the request is paid and what goes back to borrowers |
| SettleRun.WholeRequestPaid | libraries/chain/db_update.cpp:692-725 | a request that one call order takes whole is paid exactly the offer for all its units |
| SettleRun.CapExact | libraries/chain/asset_object.cpp:33-44 | the cap is the percentage of supply plus settled volume, rounded down |
| ForceSettlement.DebtorExists | libraries/chain/db_update.cpp:703-708 | while an unsettled asset has supply, some call order owes it |
| ForceSettlement.BareCallExists | libraries/chain/db_market.cpp:491-529 | a concrete market in which the rounding of a margin call leaves an order with debt and no collateral, so that settling a request throws |
| ForkSwitch.FetchBranches | libraries/chain/fork_database.cpp:262-304 | found exactly when the fork database holds two branches that start at the two blocks and end in children of one block; the two lists are such branches, no other such pair is shorter in either, and they end in one block only when one list has a single entry |
| ForkSwitch.ForkPoint | libraries/chain/db_block.cpp:186-190 | a branch listed down from the head is exactly the end of the main chain, read backwards |
| ForkSwitch.StorePop | libraries/chain/db_block.cpp:697-699 | taking the head's number out of the block store undoes storing the head |
| ForkSwitch.Database.PopBlock | libraries/chain/db_block.cpp:690-703 | chain, block store and state lose exactly the head; without an undo state the call throws, and only the block store has lost it |
| ForkSwitch.Database.StartSession | libraries/chain/db_block.cpp:199-214 | saves the state and drops only the oldest saved states beyond the limit |
| ForkSwitch.Database.ApplyOne | libraries/chain/db_block.cpp:209-214 | a block that applies extends chain, state and store; one that fails leaves them as they were |
| ForkSwitch.Database.PopTo | libraries/chain/db_block.cpp:188-190 | the popping loop reaches the fork point exactly when the undo stack is as deep as the branch |
| ForkSwitch.Database.PushBranch | libraries/chain/db_block.cpp:193-250 | applies the branch oldest block first and stops at the first block that fails; what was applied can be popped again exactly when each block up to that one was given an undo limit above the number of blocks before it |
| ForkSwitch.Database.SwitchFork | libraries/chain/db_block.cpp:182-252 | with an undo stack as deep as the old branch, the new branch replaces the old one exactly when all its blocks apply, whatever the limits; otherwise chain, state and block store are what they were exactly when what had been applied could be undone; in every other case the head's block is missing from the store |
| ForkSwitch.BrokenSwitch | libraries/chain/db_block.cpp:199-250 | for every undo limit a concrete switch that is not restored: a branch whose first limit + 1 blocks apply and whose next one does not |
| ForkSwitch.Database.PushBlock | libraries/chain/db_block.cpp:153-282 | returns true exactly for a complete switch, which is the common prefix plus the new branch and strictly higher; extends by one block when the head is the parent; rejects without a change exactly when a failed switch can be undone; the state is always the fold of apply over the chain |
| BlockStore.BlockDatabase.Store | libraries/chain/block_database.cpp:81-99 | the index and log represent the map with the block put under the number of its id; the log only grows |
| BlockStore.BlockDatabase.WriteEntry | libraries/chain/block_database.cpp:89-98 | writes one entry; entries skipped over read as zero, others are unchanged |
| BlockStore.BlockDatabase.Remove | libraries/chain/block_database.cpp:101-118 | the map loses the number exactly when it holds this id; missing exactly when the index is too short |
| BlockStore.BlockDatabase.Contains | libraries/chain/block_database.cpp:120-134 | true exactly when the map holds this id, and never for the null id |
| BlockStore.BlockDatabase.FetchBlockId | libraries/chain/block_database.cpp:136-150 | returns the id of every stored block; what it returns belongs to a stored block exactly when the entry's size is not zero |
| BlockStore.RemovedIdIsStillFetched | libraries/chain/block_database.cpp:101-150 | in every database, storing and removing a block takes its number out of the map, and fetching by that number still returns its id |
| BlockStore.RemovedIdExample | libraries/chain/block_database.cpp:101-150 | a concrete codec and block for which this happens: the id is fetched and the block is not contained |
| BlockStore.BlockDatabase.FetchOptional | libraries/chain/block_database.cpp:152-182 | returns the block of the map under this id, and nothing for tombstones, holes and foreign ids |
| BlockStore.BlockDatabase.FetchByNumber | libraries/chain/block_database.cpp:184-211 | returns the block of the map under this number if its id is the recorded one |
| BlockStore.BlockDatabase.Last | libraries/chain/block_database.cpp:213-249 | the scan ends and returns the block with the highest number in the map, or nothing when the map is empty |
| BlockStore.BlockDatabase.LastId | libraries/chain/block_database.cpp:251-283 | the scan ends and returns the id of the highest number in the map, or nothing when the map is empty |
| BlockStore.BlockDatabase.Perform | libraries/chain/block_database.cpp:81-118 | after every sequence of stores and removals the files represent the map those operations make |
| BlockStore.BlockDatabase.DropAboveGap | libraries/chain/db_management.cpp:91-110 | the gap loop ends and leaves exactly the blocks at or below the gap |
| ForeignIds.KeysAgree | libraries/chain/crosschain_record_evaluate.cpp:209-219 | the key of a result is the foreign id itself except for ids with a bar in the ETH family |
| ForeignIds.AfterBarExact | libraries/chain/db_crosschain_trx.cpp:246-250 | what follows the first bar |
| CrossChainRun.DepositBlocksResult | libraries/chain/crosschain_record_evaluate.cpp:11-17 | a deposit of a foreign transaction blocks a result of the same transaction exactly when it is not a barred id of the ETH family |
| CrossChainLimits.BarredDepositExists | libraries/chain/crosschain_record_evaluate.cpp:11-17 | a concrete deposit of an ETH id with a bar after which the key of its result is still free |
| CrossChainLaws.CombinedMoves | libraries/chain/db_crosschain_trx.cpp:114-188 | a combination moves exactly the batch, its withdrawals and its signatures to one state |
| CrossChainLaws.CombinedForeign | libraries/chain/db_crosschain_trx.cpp:135-187 | a combination writes its foreign id into its own record and the batch's withdrawals, and nowhere else |
| CrossChainLaws.FinalizedMoves | libraries/chain/db_crosschain_trx.cpp:240-345 | a final signature or change of signer moves exactly the family of the combination |
| CrossChainLaws.FinalizedForeign | libraries/chain/db_crosschain_trx.cpp:240-345 | a final signature writes its foreign id into the combination, the withdrawals and all that was signed, and nowhere else |
| CrossChainLaws.ConfirmedMoves | libraries/chain/db_crosschain_trx.cpp:207-239 | a withdraw result for a combined or signed batch moves exactly its family to confirmed |
| CrossChainLaws.ResultFindsOpen | libraries/chain/crosschain_record_evaluate.cpp:206-240 | an accepted result never finds its batch confirmed; it finds it awaiting the ETH signature only when the combination is of the ETH family and the symbol of the result is not |
| CrossChainRun.SignedBatchIsNew | libraries/chain/crosschain_record_evaluate.cpp:600-618 | a signature is accepted only for a batch that has not been combined |
| CrossChainRun.StepKeepsIff | libraries/chain/db_crosschain_trx.cpp:9-345 | a step keeps the invariant (each batch in one state with its whole family, batches disjoint, one combination per batch, confirmed ids used) exactly when it is steady: no result on a combination that awaits its ETH signature, no reopening of an id that a confirmed combination carries; for a result this decides already whether the family stays together |
| CrossChainRun.StepKeeps | libraries/chain/db_crosschain_trx.cpp:9-345 | every accepted steady step keeps the invariant |
| CrossChainRun.AgreeingResultIsSteady | libraries/chain/crosschain_record_evaluate.cpp:206-240 | a result is steady whenever its symbol is of the ETH family if the combination's is |
| CrossChainLimits.ConfirmedTwice | libraries/chain/crosschain_record_evaluate.cpp:206-304 | whenever a combination awaits its ETH signature and a result under a symbol outside the family is accepted, the final signature and a second result are accepted too: the batch is confirmed twice, its fee collected twice, and the supply falls short of its backing by the fee |
| CrossChainLimits.ConfirmedTwiceExists | libraries/chain/crosschain_record_evaluate.cpp:206-304 | a concrete backed state in which this happens: 10 is collected for a fee of 5 |
| CrossChainLimits.ReopenConfirmsAgainIff | libraries/chain/eth_seri_record_evaluate.cpp:444-503 | before a reopening no batch can be confirmed again; after it one can be exactly when a confirmed combination carries the reopened id |
| CrossChainLimits.ReopenConfirmsAgainExists | libraries/chain/eth_seri_record_evaluate.cpp:444-503 | a concrete state in which a reopening lets a confirmed batch be confirmed again |
| CrossChainRun.StepDrift | libraries/chain/crosschain_record_evaluate.cpp:9-563 | every step moves a foreign asset's supply and what backs it by the same amount, except a batch whose fee is booked in another asset, which moves them apart by exactly the fee |
| CrossChainRun.RunSupply | libraries/chain/crosschain_record_evaluate.cpp:9-563 | over every run the supply of an asset is what it was, plus accepted deposits and batch fees, less accepted withdrawals and cold/hot results |
| CrossChainRun.RunBalance | libraries/chain/crosschain_record_evaluate.cpp:87-200 | over every run a balance is what it was, plus the holder's accepted deposits, less the holder's accepted withdrawals |
| CrossChainRun.RunFees | libraries/chain/crosschain_record_evaluate.cpp:280-304 | over every run the fees of a foreign asset, pool and block together, are what they were, plus the fees of confirmed batches, less cold/hot results |
| CrossChainRun.RecordStays | libraries/chain/db_crosschain_trx.cpp:66-345 | no step changes more of a record than its state and its foreign id |
| CrossChainRun.BatchRecorded | libraries/chain/crosschain_record_evaluate.cpp:506-524 | a batch is recorded with its withdrawals and the fee its result will earn, and moves exactly those withdrawals |
| CrossChainRun.BatchBackedIff | libraries/chain/crosschain_record_evaluate.cpp:506-524 | the evaluator does not compare the fee's asset with the batch's asset: supply and backing stay equal exactly when they agree or the fee is zero |
| CrossChainLimits.UnbackedBatchExists | libraries/chain/crosschain_record_evaluate.cpp:506-524 | a concrete batch whose fee in another asset unbalances the books |
| CrossChainRun.RunBacked | libraries/chain/crosschain_record_evaluate.cpp:9-563 | over every steady run whose batches book fees in their own asset, reopenings included, a foreign asset's supply equals balances plus fee pool plus fees collected this block plus fees of unconfirmed batches |
| CrossChainRun.UsedOnce | libraries/chain/db_crosschain_trx.cpp:9-63 | in every run a foreign id is used at most once as deposit, withdraw result or cold/hot result, plus once for each reopening by a guard |
| CrossChainRun.ConfirmedOnce | libraries/chain/crosschain_record_evaluate.cpp:206-304 | in every steady run, reopenings included, each batch is confirmed at most once |
| CrossChain.Database.MoveOrigins | libraries/chain/db_crosschain_trx.cpp:145-152 | the loop over a batch's withdrawals moves exactly those |
| Rewrites.RewriteEach | libraries/chain/db_crosschain_trx.cpp:156-167 | the loop over a range of an index replaces exactly the records of the range |
| Rewrites.AllPass | libraries/chain/crosschain_record_evaluate.cpp:603-608 | the scan over a range of an index accepts exactly when every record of the range passes |
| Rewrites.AllFound | libraries/chain/crosschain_record_evaluate.cpp:347-355 | the scan over a list of ids accepts exactly when each is on record and passes |
| CrossChain.Database.MoveRange | libraries/chain/db_crosschain_trx.cpp:162-173 | the loop over the related records moves exactly those in the given states |
| CrossChain.Database.RecordDeposit | libraries/chain/crosschain_record_evaluate.cpp:9-131 | accepted exactly when the id is free and the balance allows the amount; balance, supply and the used id change together |
| CrossChain.Database.RequestWithdraw | libraries/chain/crosschain_record_evaluate.cpp:185-201 | accepted exactly when the balance suffices and the transaction is new; balance, supply and record change together |
| CrossChain.Database.CreateBatch | libraries/chain/crosschain_record_evaluate.cpp:342-524 | the scan of the withdrawals accepts exactly new ones; they and the batch are recorded, the fee added to the supply |
| CrossChain.Database.SignBatch | libraries/chain/crosschain_record_evaluate.cpp:590-695 | the scan of the related records accepts exactly what the guard says, which under the invariant is an uncombined batch; the batch stays uncombined and the invariant is kept |
| CrossChain.Database.CombineSignatures | libraries/chain/crosschain_record_evaluate.cpp:527-563 | the scan of the withdrawals refuses a batch that is past its creation, and the in-place rewriting equals the specified one |
| CrossChain.Database.FinalizeCombination | libraries/chain/db_crosschain_trx.cpp:240-345 | the in-place rewriting equals the specified one |
| CrossChain.Database.ConfirmBatch | libraries/chain/crosschain_record_evaluate.cpp:206-304 | the checks accept exactly what the guard says; the in-place rewriting equals the specified one; the id is used and the fee collected |
| CrossChain.Database.ConfirmColdHot | libraries/chain/coldhot_transfer_evaluate.cpp:451-512 | accepted exactly when the id is free; the id is used afterwards in any case; the invariant and the distance between supply and backing are kept for every foreign asset |
| CrossChain.Database.UpdateFeePool | libraries/chain/db_witness_schedule.cpp:194-207 | every foreign asset's collected fees are added to its pool, the core asset's are not |
| CrossChain.Database.ResetCollectedFees | libraries/chain/db_witness_schedule.cpp:155-159 | the collected fees are cleared for the new block |
| ColdHotLaws.MoveFamilyMoves | libraries/chain/db_coldhot_trx.cpp:61-134 | the rewriting of a branch reaches exactly the family when it looks for the state the family is in |
| ColdHotLaws.SignedIsNew | libraries/chain/coldhot_transfer_evaluate.cpp:254-281 | a signature is accepted only before the combination |
| ColdHotLaws.StepKeeps | libraries/chain/db_coldhot_trx.cpp:6-389 | every accepted step keeps each transfer in one state with all its records, save a result on a cancelled or unsigned combination |
| ColdHotLaws.StepDecides | libraries/chain/db_coldhot_trx.cpp:61-389 | each steady decision moves exactly the family of its transfer, to awaiting signature or combined, signed, confirmed or failed |
| ColdHotLaws.StepAdds | libraries/chain/db_coldhot_trx.cpp:6-389 | the record each step adds: its id, kind, what it refers to and its state |
| ColdHotLaws.ResultKeepsIff | libraries/chain/coldhot_transfer_evaluate.cpp:426-512 | a result keeps the family together exactly when the combination is neither failed nor awaiting its ETH signature |
| ColdHotLaws.CancelledThenConfirmed | libraries/chain/coldhot_transfer_evaluate.cpp:426-589 | every combination that is cancelled can still receive a result under any symbol outside the ETH family, as long as its foreign id is not used, which tears its family apart |
| ColdHotLaws.TornTransferExists | libraries/chain/coldhot_transfer_evaluate.cpp:426-589 | a concrete transfer that is cancelled, confirmed and torn in this way |
| ColdHotLaws.FamilyShares | libraries/chain/db_coldhot_trx.cpp:61-389 | from the combination on, request, unsigned transaction, all signatures, combination and final records share one state, however many signatures there are |
| ColdHotLaws.RunShares | libraries/chain/db_coldhot_trx.cpp:6-389 | this holds over every steady run from an empty database |
| ColdHot.Database.Check | libraries/chain/coldhot_transfer_evaluate.cpp:254-455 | the look-ups and scans of the evaluators accept exactly what the guards say, the free foreign id of a result included |
| ColdHot.Database.MoveTransfer | libraries/chain/db_coldhot_trx.cpp:76-106 | unsigned transaction, request and the related records in the given states move, nothing else |
| ColdHot.Database.Adjust | libraries/chain/db_coldhot_trx.cpp:6-389 | accepts exactly what the guards accept, the scan of related records included; the new records are the specified ones; steady steps keep the invariant |
| ColdHot.Database.Perform | libraries/chain/db_coldhot_trx.cpp:6-389 | each branch of the in-place operation equals its specification |
| Schedule.CalculateSlot | libraries/chain/db_witness_schedule.cpp:308-318 | a number below the total is answered inside the loop by the one slot whose interval holds it; the fallback is taken exactly otherwise |
| Schedule.AnswersOnce | libraries/chain/db_witness_schedule.cpp:308-318 | no two slots answer to one number |
| Schedule.WeightManyNumbers | libraries/chain/db_witness_schedule.cpp:388-395 | exactly as many residues pick a slot as the slot has weight |
| Schedule.WeightExact | libraries/chain/db_witness_schedule.cpp:375-377 | a candidate's weight is its pledge times its participation in percent, rounded down |
| Schedule.DrawStep | libraries/chain/db_witness_schedule.cpp:359-403 | each draw takes the candidate whose weight interval holds the random number modulo the total, and goes on without it |
| Schedule.DrawDistinct | libraries/chain/db_witness_schedule.cpp:387-402 | the drawn miners are pairwise different and all candidates |
| Schedule.WithoutTotal | libraries/chain/db_witness_schedule.cpp:397-399 | taking a miner out by swap takes exactly its weight out of the total |
| Schedule.DrawInPlace | libraries/chain/db_witness_schedule.cpp:387-402 | the draw by swaps in place equals the draw by its meaning, total_weight being the sum of the undrawn prefix throughout |
| Schedule.UpdateSchedule | libraries/chain/db_witness_schedule.cpp:359-403 | a round of distinct unblocked miners, drawn by pledge times participation |
| Schedule.RoundNamesEach | libraries/chain/db_witness_schedule.cpp:38-44 | any full round of consecutive slots names each scheduled miner exactly once |
| Schedule.SlotAtSlotTime | libraries/chain/db_witness_schedule.cpp:46-91 | the slot at a slot's time is that slot |
| Schedule.TimeWithinSlot | libraries/chain/db_witness_schedule.cpp:46-91 | a time is before the first slot, or lies between the time of its slot and the next |
| Reward.CountedWithinPledge | libraries/chain/db_witness_schedule.cpp:327-358 | locks valued one by one with rounding down count for no more than the totals valued at the same prices |
| Reward.GuardsPaidExactly | libraries/chain/db_witness_schedule.cpp:221-233 | the guards are paid exactly their part, the last one never less than the others |
| Reward.SharesWithinPay | libraries/chain/db_witness_schedule.cpp:249-284 | the pledgers' shares never exceed what is set aside for them |
| Reward.ShareExact | libraries/chain/db_witness_schedule.cpp:255-281 | a lock's share is in proportion of its worth at the price to the pledge weight, rounded down twice |
| Reward.ShareUnique | libraries/chain/db_witness_schedule.cpp:255-281 | price, lock and pledge determine the share |
| Reward.SharesShort | libraries/chain/db_witness_schedule.cpp:255-281 | the shares together are short of the pledgers' proportion by less than one unit a lock |
| Reward.MinerPartExact | libraries/chain/db_witness_schedule.cpp:238-293 | pledgers and miner get exactly the miner part and the fees, with no underflow; contract-held locks leave exactly their shares unpaid |
| Reward.PartsOfReward | libraries/chain/db_witness_schedule.cpp:220-245 | the three parts of a reward leave at most two units unpaid |
| RewardPay.Database.PledgeWeight | libraries/chain/db_witness_schedule.cpp:331-357 | the weight is 100 per block produced plus one, and the lock totals at current prices |
| RewardPay.Database.CachedLocks | libraries/chain/db_witness_schedule.cpp:411-425 | lists the miner's locks, each once, with owner, asset, amount and contract mark; they add up to the locked amount per asset |
| RewardPay.Database.TakeSnapshot | libraries/chain/db_witness_schedule.cpp:326-441 | the cache lists each scheduled miner's locks, the prices are the current feeds, the pledge weights come from blocks produced and lock totals, and no miner's cached locks count for more than its weight |
| RewardPay.Database.PayMiner | libraries/chain/db_witness_schedule.cpp:210-297 | the pledge check passes; guards, development team, miner and pledgers get their percentages rounded down; each address is owed exactly its guard part, the shares of its own locks and, for the miner, the rest; every other entry of the ledger is unchanged |
| Reward.PayOwes | libraries/chain/db_pay_back.cpp:7-33 | a pay-back payment raises what is owed by exactly its amount |
| Locks.ChangeAgrees | libraries/chain/db_lock_balance.cpp:76-122 | changing a lock and its miner's total by the same amount keeps every miner's totals equal to the sum of its locks |
| Locks.Database.AdjustLock | libraries/chain/db_lock_balance.cpp:76-122 | refused exactly when less is locked than taken; no empty or negative lock is stored and all totals agree |
| Locks.Database.CorrectChainData | libraries/chain/balance_evaluator.cpp:188-240 | from any state the totals of the named miners, or of all, equal the sums of their lock objects; others are unchanged |
| Locks.Database.SumLocks | libraries/chain/db_witness_schedule.cpp:108-128 | the sums are, for every asset, what the lock objects of the miner add up to |
| Locks.Database.OwnLocks | libraries/chain/db_lock_balance.cpp:27-39 | lists each lock of the owner in the asset once and sums them |
| Locks.Database.ReleaseAll | libraries/chain/balance_evaluator.cpp:143-151 | gives up exactly the owner's locks in the asset and keeps the totals right |
| Locks.Database.SetBalance | libraries/chain/balance_evaluator.cpp:121-165 | balance plus locks become the claimed amount, supply moves by the same difference, locks go only when too much is there, nobody else is touched |
| NameTransfer.Database.TransferName | libraries/chain/account_evaluator.cpp:669-716 | accepted exactly under the evaluator's checks; reserves the two aliases; the waiting transfers stay apart exactly when neither account has a name that somebody has reserved |
| NameTransfer.Database.CreateAccount | libraries/chain/account_evaluator.cpp:95-145 | refused exactly when the name is taken, reserved or not; the waiting transfers stay possible exactly when nobody has reserved the name |
| NameTransfer.PairOf | libraries/chain/db_maint.cpp:945-953 | an account with an alias leads to its partner by one of the two look-ups, and to nobody else |
| NameTransfer.Database.Rename | libraries/chain/db_maint.cpp:954-972 | throws exactly when the new name is taken at that moment; otherwise all names stay unique |
| NameTransfer.SwapKeeps | libraries/chain/db_maint.cpp:954-972 | after both renames of a pair the other transfers are listed as before, and possible or not as before |
| NameTransfer.Database.ProcessNameTransfer | libraries/chain/db_maint.cpp:941-975 | the loop ends and throws exactly when some reserved name has been taken since; otherwise everybody has the name they reserved, no alias is left, other accounts are unchanged, and names are unique after each rename |
| NameTransfer.MaintainedApplies | libraries/chain/db_maint.cpp:941-975 | this is each receiver getting the sender's old name and each sender its reserved one |
| NameTransfer.Database.Perform | libraries/chain/db_maint.cpp:941-975 | over every run of creations, transfers and maintenance in which no account is created under a name reserved at the time, no maintenance throws and names stay unique |
| NameTransfer.ReservedNameCreated | libraries/chain/db_maint.cpp:941-975 | for any three names a run in which a reserved name is created and maintenance throws |
| NameTransfer.TwiceReservedReached | libraries/chain/account_evaluator.cpp:95-145 | for any five names a run of accepted operations after which one name is reserved twice |
| NameTransfer.EndlessLoop | libraries/chain/db_maint.cpp:945-974 | from there a pass of the loop can pair the wrong accounts, after which no pass changes anything although aliases are left: the loop does not end |
| NameTransfer.EndlessExists | libraries/chain/db_maint.cpp:945-974 | five names for which this happens |
| Gf32.DivisionUnique | libraries/chain/cashaddr.cpp:48-63 | over GF(32) with a^5 + a^3 + 1, quotient and remainder of division by the generator exist and are unique |
| PackedRemainder.StepRefines | libraries/chain/cashaddr.cpp:106-141 | one step on the packed word is one step of long division on its eight coefficients |
| PackedRemainder.PolyModIsRemainder | libraries/chain/cashaddr.cpp:47-152 | a word is the loop's remainder exactly when some quotient gives it as remainder of the input with its leading 1 |
| PackedRemainder.PolyMod | libraries/chain/cashaddr.cpp:47-152 | the loop's result is the packed remainder with the final 1 added, and stays below 2^40 |
| CashAddr.ChecksumUnique | libraries/chain/cashaddr.cpp:181-201 | eight symbols verify after a payload exactly when they are the created checksum |
| CashAddr.BurstDetected | libraries/chain/cashaddr.cpp:181-183 | two different strings that differ only inside eight consecutive symbols never both verify under one prefix |
| CashAddr.PrefixBurstDetected | libraries/chain/cashaddr.cpp:167-183 | one symbol string does not verify under two prefixes of one length whose low five bits differ only within eight consecutive characters |
| CashAddr.CharsetExact | libraries/chain/cashaddr.cpp:11-14 | the characters of the code, in order |
| CashAddr.ExpandPrefix | libraries/chain/cashaddr.cpp:167-176 | the low five bits of each character and a zero |
| CashAddr.CreateChecksum | libraries/chain/cashaddr.cpp:188-201 | the eight symbols that make the payload verify |
| CashAddr.Encode | libraries/chain/cashaddr.cpp:205-216 | prefix, colon, payload and checksum in the character set |
| CashAddr.Decode | libraries/chain/cashaddr.cpp:221-297 | equals the decoding by its meaning, with every rejected case |
| CashAddr.DecodeEncode | libraries/chain/cashaddr.cpp:205-297 | for every non-empty lower-case prefix and payload, decoding any one-case spelling of the encoding gives back the prefix and payload with checksum |
| CashAddr.DecodeEncoded | libraries/chain/cashaddr.cpp:205-297 | the encoding itself decodes to prefix and payload with checksum |
| CashAddr.DecodeUpper | libraries/chain/cashaddr.cpp:205-297 | and so does its upper-case form |
| CashAddr.EncodeDecode | libraries/chain/cashaddr.cpp:205-297 | every accepted string with a prefix and at least eight symbols encodes again to its lower-case form |
| KeccakSpec.OffsetsAreTriangular | libraries/chain/Keccak.cpp:124-149 | the rotation offsets are (t+1)(t+2)/2 modulo 64 along the walk of section 3.2.2 of FIPS 202 |
| KeccakSpec.WalkMeetsEveryLane | libraries/chain/Keccak.cpp:124-149 | the walk meets every lane but the first |
| KeccakTables.MasksAreRoundConstants | libraries/chain/Keccak.cpp:39-49 | the 24 masks are the round constants that the shift register of section 3.2.5 of FIPS 202 gives |
| KeccakTables.CycleIsPiRho | libraries/chain/Keccak.cpp:124-149 | what the cycle writes into each lane is pi after rho |
| Keccak.Hasher.ThetaStep | libraries/chain/Keccak.cpp:106-119 | equals the simultaneous theta |
| Keccak.Hasher.RhoPi | libraries/chain/Keccak.cpp:124-149 | the in-place cycle through one temporary equals pi after rho |
| Keccak.Hasher.ChiStep | libraries/chain/Keccak.cpp:151-163 | the in-place rows with two temporaries equal the simultaneous chi |
| Keccak.Hasher.OneRound | libraries/chain/Keccak.cpp:104-167 | one pass of the loop is one Keccak round, on every state |
| Keccak.Hasher.ProcessBlock | libraries/chain/Keccak.cpp:90-168 | mixes in the block little-endian and applies the permutation of 24 rounds |
| Keccak.Hasher.Add | libraries/chain/Keccak.cpp:172-212 | for every split into calls, state and buffer are those of the concatenated input, the buffer holding less than a block |
| Keccak.Hasher.ProcessBuffer | libraries/chain/Keccak.cpp:216-232 | absorbs the padded last block |
| Keccak.PaddingInjective | libraries/chain/Keccak.cpp:216-232 | different messages have different padded blocks, all of the block size |
| Keccak.PadBits | libraries/chain/Keccak.cpp:216-232 | bit by bit the last block is the tail, a one, zeros, and a one at its end |
| Keccak.HexDigitExact | libraries/chain/Keccak.cpp:236-271 | digits are printed as 0-9 and a-f |
| Keccak.SqueezeMixed | libraries/chain/Keccak.cpp:90-105 | bytes mixed into a zero state are read back in order |
| Keccak.Hasher.GetHash | libraries/chain/Keccak.cpp:236-271 | the hexadecimal digest of section 5.2 of FIPS 202 with no domain suffix, for all that was added |
| Keccak.Hasher.Hash | libraries/chain/Keccak.cpp:275-289 | the digest of the argument alone, whatever was added before |
| Keccak.Hasher.Reset | libraries/chain/Keccak.cpp:25-32 | state and counters as for the empty message |

## Left out

- Market.Database.CheckCallOrders: gets its two price ranges as lists, in whatever order; only the swan test looks into the price indexes itself.
- In check_call_orders an iterator whose order was culled ends the scan, because what the original does with it is not defined.
- Limit order creation, borrowing and covering, fee claims and feed updates: they would only add easy members to the market.
- total_core_in_orders of account statistics: a voting statistic, not a ledger.
- Block production, transaction evaluation and maintenance other than name transfers: apply_block is a partial function from state to state.
- Head bookkeeping, size limits and unlinked blocks of the fork database; the undo database is one stack, whatever part of it is on disk.
- BlockStore.BlockDatabase.Store: block sizes beyond 32 bits and partial writes are not modelled.
- Guard refunds and cancellations of withdrawals, guarantee orders, and multisig account creation.
- Evaluator checks against records outside the model (tunnel bindings, multisig addresses, withdraw limits, guards' own signatures, foreign-chain validation): they only refuse more steps.
- The look-up of a combination by foreign id: any combination under that id may be the one found.
- Pending transactions between blocks: fees collected there are outside the accounting of a block.
- Bonus distribution of the fee pool: computed in floating point.
- The random seed of the schedule is any sequence of numbers; hashing is not part of the draw.
- RewardPay.Database.PledgeWeight: a negative lock total counts as zero; the original would convert it to an unsigned number. Lock totals that agree with their locks are never negative.
- Locks.Database.SetBalance: the per-address lock record list is not modelled.
- Contract engine, RPC, notifications, genesis and historical exceptions below the fork heights.
- Detection of four or more scattered errors by the CashAddr code.
- Keccak on big-endian machines: lanes are read little-endian.
- NameTransfer.Database.ProcessNameTransfer: says nothing of accounts that take part in a transfer under a name somebody else has reserved, because the loop then need not end (`EndlessLoop`). `TransferName` says exactly when this happens.

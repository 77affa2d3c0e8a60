# Verified model of a Steem-derived chain node

The project models the parts of the node where a mistake would go unnoticed: the ledger and every
operation that moves money, the incrementally kept witness-vote tally, the fork switch over undo
sessions, the duplicate-transaction list, the witness schedule and the irreversible block, the peer
synopsis, the block log and the message framing. The chain is taken with all hardforks applied.

Objects whose fields the node changes in place are classes with `modifies` frames; their invariants are
predicates over field values, so that one statement serves the methods, the lemmas and the undo
sessions. `ok: bool` is a failed assertion in the node: the operation or block is then undone.
Iteration over a database index is a loop that takes the elements in any order unless the order
matters, in which case the order is part of the contract.

| module | models |
|---|---|
| `Basics`, `Sums`, `Assets`, `Division`, `Words` | shared types and constants, finite sums, floor division at prices, remainders, little-endian words |
| `Proxies`, `Witnesses`, `Recounts`, `VoteTally` | proxied witness voting and its recount |
| `Ledger`, `Payments`, `Transfers`, `Escrows`, `Claims`, `Market` | balances, supplies, operations on them, the order book |
| `PowerPlans`, `PowerDown`, `Staking`, `StakeVotes` | power-down, withdraw routes, delegations, the votes that move with them |
| `Curves`, `Curation`, `Rewards`, `Inflation` | voting power, curation weights, payouts, reward funds, new STEEM |
| `Operations`, `Sweeps`, `Blocks` | what each operation and each block end does, and both together over whole runs |
| `Forks`, `Switching`, `ForkExample`, `Duplicates` | fork database, fork switch with undo, duplicate transactions |
| `Schedule`, `Slots` | virtual-time schedule, slots, irreversibility |
| `Sync`, `BlockLog`, `Framing` | peer synopsis and reply, block file and index, message frames |

Main results:

- `Blocks.FromGenesis` and `Blocks.Chain.Run`: from genesis on, after any run of blocks, every supply equation, every
  non-negativity, the order book, the power-down reserves, the delegation and route counters, the
  curation weights, the paid-once history and the witness votes hold, the shares counted in votes are
  all vesting shares, and the virtual supply covers the STEEM supply. A run stops only before a block with an
  unbacked claim or a 128-bit overflow of reward claims. `Blocks.Chain.ApplyBlock` gives each accepted
  block a trace of exact operation effects and the eleven steps of its end, each with who is paid how much: refunds,
  returned delegations, burned and new STEEM, conversions, rewards, power-downs, savings. A refused block leaves no trace, and is
  refused only for a reason: with price feeds, an operation its evaluator does not admit, or a stated hindrance at the end.
- `VoteTally.Run`: in any run of stake changes, proxy changes, votes, declined rights and schedule updates the
  stored tally refines a recount: the decisions are those of the steps alone, the proxy graph is acyclic, each
  stored counter is the stake exactly so many hops below, each witness's votes are the count from
  scratch, every scheduled time is when the rest of the lap is run, and votes change a witness's speed but never
  the distance it has run; `Proxies.EveryShareCountedOnce` shows that the depth cut-off loses nothing.
- `Switching.Run` and `Switching.PushBlock`: for any sequence of blocks on any branches, what each push does to
  chain, state, undo states, fork index and fork head; a fork switch succeeds, restores the original
  chain, or gets stuck, each exactly when a condition on the fork index, the undo states and the
  commitments holds; the state is always the replay of the chain.
- `Market.ApplyOrder`: the order book after a new order is the function `Matched` of the book before, nothing crosses, and a
  counter-order trades only after every better-priced one, and every older one at the same price, is used up.
- `Rewards.ProcessCashout`: everyone's pending rewards and the authors' purses grow by exactly the sum of what the due comments
  owe them, and the fund falls by exactly what those take.
- `Blocks.Chain.RequestPowerDown`: in runs of blocks with any other operations, a request has paid exactly one thirteenth, rounded
  down, for every week passed, until it is paid in full.
- `Duplicates.History.Run`, `Schedule.Scheduler.Update`, `Slots.Finality.NextBlock`, `Sync.Exchange`,
  `BlockLog.Log.ReadAll` and `Framing.Connection.RoundTrip` are the corresponding results of the other parts.

Properties that fail as naively stated, each with a counter-example and the exact condition:

- An update that changes no vote does not keep a witness's scheduled time: `Witnesses.UpdateDelaysExample`. A lap is run at the
  speed of the votes but divided by one more, so the time is put off; `Witnesses.UpdateDelays` says by how much and exactly when not at all.
- A fork switch does not always bring the original chain back: `ForkExample.CommitAboveForkExample` pushes 43 blocks
  into an empty node after which it cannot. The exact condition is `WayBack` in `Switching.Node.SwitchFork`;
  with the rule for early blocks it is that at most 21 new blocks committed (`Switching.EarlyCommitted`).
- A reward fund can be overdrawn after more than fifteen days without a block: `Rewards.OverdrawExample`. Exactly when
  the 128-bit sum of claims wraps is some fund too small (`Rewards.NeverOverdrawn`); it does not wrap when blocks come
  in time and claims are bounded (`Rewards.FitsInTime`), and after a longer gap exactly as
  `Rewards.LongGapWraps` says.
- A negative power-down request is accepted. It lets an account delegate more than it owns (`Staking.OverlentExample`, exactly
  while something negative is to be withdrawn: `Staking.LendingLimit`), and from its due time on it fails
  every block exactly when its instalment is negative (`PowerPlans.NegativeRequestExample`, `Staking.NegativeRequestBlocks`).
- A deposit inside a power-down can trip the vote-overflow assertion: `VoteTally.DepositCanOverflow`; it does
  so exactly when the deposit does not fit (`VoteTally.Tally.WithdrawStake`).
- Withdraw routes can total over 100% through a route to the account with id 0, which the check and the
  payment both skip: `PowerPlans.UncheckedRouteExample`.
- The very first claimed shares can end up without STEEM behind them: `Claims.UnbackedClaimExample`; the exact
  condition is in `Claims.ClaimRewards`.
- A rebuilt block-log index is empty exactly for a one-block log, and the next append is then refused:
  `BlockLog.Log.ConstructIndex`.

## Model

| member | source | states |
|---|---|---|
| `Proxies.EveryShareCountedOnce` | libraries/chain/database.cpp:3991-3996 | for every stake map and closed acyclic proxy graph, weights at roots plus the deepest slot at non-roots add up to the total stake |
| `Proxies.DetachKeepsAcyclic` | libraries/chain/steem_evaluator.cpp:1087-1133 | taking an account off its proxy keeps every chain finite |
| `Proxies.AttachKeepsAcyclic` | libraries/chain/steem_evaluator.cpp:1100-1120 | attaching below an account whose chain does not come back keeps every chain finite |
| `Proxies.BelowAfterStake` | libraries/chain/database.cpp:1188-1204 | a stake change moves the stake exactly k hops below each ancestor and nobody else's |
| `Proxies.BelowAfterDetach` | libraries/chain/database.cpp:1160-1186 | detaching removes exactly the carried subtree from every ancestor at every distance |
| `Recounts.RecountBounded` | libraries/chain/database.cpp:1226-1228 | a full recount never exceeds the total stake |
| `Recounts.RecountAfterStake` | libraries/chain/database.cpp:1188-1204 | a stake change moves the recount of exactly the witnesses its landing root votes for |
| `Recounts.RecountAfterLeaving` | libraries/chain/database.cpp:1160-1186 | leaving a proxy moves the recount by what the walk lands on the root |
| `Recounts.StakeKeepsConsistent` | libraries/chain/database.cpp:1188-1216 | one walk up the proxy chain after a stake change re-establishes all counters and votes |
| `Recounts.DetachKeepsConsistent` | libraries/chain/steem_evaluator.cpp:1096-1133 | the walk with negated counters re-establishes all counters and votes of the detached graph |
| `Recounts.AttachKeepsConsistent` | libraries/chain/steem_evaluator.cpp:1100-1128 | the walk after attaching re-establishes all counters and votes of the new graph |
| `Recounts.NewAccountKeepsConsistent` | libraries/chain/steem_evaluator.cpp:137-206 | a new account without stake, proxy or ballot changes no counter and no recount |
| `Recounts.StoredSharesSumToTotal` | libraries/chain/database.cpp:3988-4000 | the vote sum validate_invariants forms from the stored counters is the total stake |
| `Witnesses.RescheduleSaturates` | libraries/chain/database.cpp:1218-1247 | despite wrapping arithmetic the scheduled time is when the rest of the lap is run, or saturates; never behind the clock |
| `Witnesses.PositionAdvances` | libraries/chain/database.cpp:1222-1224 | an update changes the speed, never the distance: the position is the old one plus old votes times elapsed virtual time, modulo 2^128 |
| `Witnesses.UpdatesForgotten` | libraries/chain/database.cpp:1218-1247 | an update in between that changes no vote is forgotten by the next one |
| `Witnesses.UpdatesJoin` | libraries/chain/database.cpp:1218-1247 | two changes of the votes at one time are one |
| `Witnesses.UpdateDelays` | libraries/chain/database.cpp:1231-1233 | by how much an update without a change of votes puts the scheduled time off, and exactly when it does not |
| `Witnesses.UpdateDelaysExample` | libraries/chain/database.cpp:1231-1233 | a witness without votes whose scheduled time moves by as much as time has passed |
| `VoteTally.Tally.AdjustWitnessVotes` | libraries/chain/database.cpp:1206-1216 | adds to exactly the account's approved witnesses, or fails when one would pass the total |
| `VoteTally.Tally.AdjustProxied` | libraries/chain/database.cpp:1160-1204 | pushes the counters up the chain and lands the prefix sum on the root's witnesses, cut off at the depth limit |
| `VoteTally.Tally.AddStake` | libraries/chain/database.cpp:1083-1132 | new stake keeps tally and recount equal |
| `VoteTally.Tally.ChainIsAccepted` | libraries/chain/steem_evaluator.cpp:1104-1118 | the loop accepts a proxy exactly when its chain does not lead back to the account |
| `VoteTally.AcceptedIsAcyclic` | libraries/chain/steem_evaluator.cpp:1104-1118 | what the loop accepts keeps the whole graph acyclic |
| `VoteTally.Tally.SetProxy` | libraries/chain/steem_evaluator.cpp:1087-1133 | succeeds exactly under the evaluator's conditions and keeps tally and recount equal |
| `VoteTally.Tally.VoteWitness` | libraries/chain/steem_evaluator.cpp:1136-1198 | a vote or its withdrawal keeps tally and recount equal and every witness's progress |
| `VoteTally.Tally.Decline` | libraries/chain/database.cpp:2173-2198 | declined voting rights take the whole weight out of the tally |
| `VoteTally.Tally.BurnNull` | libraries/chain/database.cpp:1294-1303 | burning the null account's stake without a vote walk is right because nobody counts it |
| `VoteTally.Tally.CreateAccount` | libraries/chain/steem_evaluator.cpp:137-206 | the tally stays a recount when an account is added |
| `VoteTally.Tally.CreateWitness` | libraries/chain/steem_evaluator.cpp:95-135 | a new witness starts with no votes and the latest scheduled time |
| `VoteTally.Tally.WithdrawStake` | libraries/chain/database.cpp:1399-1478 | a power-down with vest deposits keeps the tally exact, and is undone exactly when some deposit passes the total |
| `VoteTally.DepositCanOverflow` | libraries/chain/database.cpp:1226-1228 | a concrete state in which a deposit of the walk passes the total |
| `VoteTally.Tally.Retally` | libraries/chain/database.cpp:4186-4215 | recounting from the stored counters gives back the stored votes |
| `VoteTally.Tally.UpdateSchedule` | libraries/chain/witness_schedule.cpp:68-285 | a schedule update on the voted witnesses moves laps and clock, keeps every vote a recount, and gives everyone who starts a lap exactly the wait its votes need |
| `VoteTally.Step` | libraries/chain/steem_evaluator.cpp:1087-1198 | every kind of step changes the decisions as the evaluators say and keeps every counter a recount of them |
| `VoteTally.Run` | libraries/chain/database.cpp:1160-1263 | the stored tally refines a recount: after any sequence of steps, schedule updates included, the decisions are those of the steps alone, every counter, vote and total is their count from scratch, every scheduled time follows from position and votes, and without schedule updates nobody's progress changes |
| `Ledger.Database.AdjustBalance` | libraries/chain/database.cpp:3356-3401 | exact credit with interest; the SBD supply grows by exactly the interest; throws exactly when interest is due without a feed |
| `Ledger.Database.AdjustSavings` | libraries/chain/database.cpp:3403-3448 | the same for savings |
| `Ledger.Database.AdjustReward` | libraries/chain/database.cpp:3450-3466 | reward balances move without interest |
| `Ledger.InterestIs` | libraries/chain/database.cpp:3371-3377 | interest is paid for whole SBD-years at the rate, rounded down, at most once in thirty days |
| `Ledger.SecondsAddUp` | libraries/chain/database.cpp:3364-3369 | a movement that pays no interest loses none: SBD-seconds add up whenever the holding is brought up to date |
| `Ledger.InterestStartsOver` | libraries/chain/database.cpp:3371-3381 | once paid, interest starts over and is not paid again within thirty days |
| `Ledger.Database.AdjustSupply` | libraries/chain/database.cpp:3468-3499 | which counter moves, what the virtual supply becomes, and when it throws |
| `Ledger.Database.CreateVesting` | libraries/chain/database.cpp:1083-1132 | STEEM and shares enter fund and account together, spendable or pending; shares never lose their backing |
| `Ledger.SharesAtThePrice` | libraries/chain/database.cpp:1088-1101 | new shares are bought at the price of the old ones, rounded down, so nobody is diluted |
| `Ledger.SteemAtThePrice` | libraries/chain/database.cpp:1088-1101 | shares are sold at the price of all, rounded down |
| `Ledger.FirstPrice` | libraries/chain/database.cpp:1088-1101 | before there is a price, a thousand shares for one STEEM, both ways |
| `Ledger.NoFreeSteem` | libraries/chain/database.cpp:1083-1132 | powering up and taking the shares out again never gains anything |
| `Ledger.Database.CreateSbd` | libraries/chain/database.cpp:1036-1077 | what is printed as SBD leaves the STEEM supply; one purse and the supplies move by the same amounts |
| `Ledger.Database.UpdateVirtualSupply` | libraries/chain/database.cpp:3023-3059 | the virtual supply is recomputed and the print rate follows the share of SBD in it |
| `Ledger.PrintRate` | libraries/chain/database.cpp:3036-3052 | full rate exactly up to 2%, none exactly from 5%, in range between |
| `Ledger.PrintRateIs` | libraries/chain/database.cpp:3036-3052 | between the limits the rate falls linearly, rounded down, and it never rises |
| `Ledger.SteemForCovered` | libraries/chain/database.cpp:1088-1101 | taking shares out at the vesting price never overdraws the fund and leaves STEEM behind the shares that stay |
| `Ledger.SuppliesNonNegative` | libraries/chain/database.cpp:4060-4091 | the equations and signs imply that no supply counter is negative |
| `Ledger.Database.constructor` | libraries/chain/database.cpp:2385-2464 | the genesis ledger satisfies every equation and sign |
| `Payments.MovedTwice` | libraries/chain/database.cpp:3356-3401 | two SBD movements at one time are one: interest is settled by the first and not earned in between |
| `Payments.OneMoreBill` | libraries/chain/database.cpp:3356-3401 | payments made one by one at a time come to their sums for every account, interest settled once |
| `Transfers.Transfer` | libraries/chain/steem_evaluator.cpp:932-948 | with a feed it succeeds exactly when the sender can pay; sender and receiver change by exactly the amount and interest, all supply equations kept |
| `Transfers.TransferToVesting` | libraries/chain/steem_evaluator.cpp:950-958 | succeeds exactly when funded; the receiver gets the shares the price gives |
| `Transfers.TransferToSavings` | libraries/chain/steem_evaluator.cpp:2103-2111 | liquid to savings, with a feed exactly when covered, equations kept |
| `Transfers.TransferFromSavings` | libraries/chain/steem_evaluator.cpp:2113-2134 | savings into a pending withdrawal, with a feed exactly when covered, within the request limit and new |
| `Transfers.CancelFromSavings` | libraries/chain/steem_evaluator.cpp:2136-2146 | the pending amount returns to savings and the request is gone |
| `Transfers.ProcessSavingsWithdraws` | libraries/chain/database.cpp:1901-1919 | exactly the due withdrawals are removed; every purse grows by the due amounts addressed to it, with interest settled once, and loses one open request per own due entry; with a feed nothing can fail |
| `Transfers.PayWithdrawal` | libraries/chain/database.cpp:1907-1916 | the receiver is credited the whole amount and the sender has one request fewer; nobody else moves |
| `Transfers.Convert` | libraries/chain/steem_evaluator.cpp:1846-1866 | SBD into a pending conversion, exactly under the evaluator's conditions |
| `Transfers.ProcessConversions` | libraries/chain/database.cpp:2072-2105 | exactly the due requests are converted at the median price, and both supplies move by the totals |
| `Escrows.EscrowTransfer` | libraries/chain/steem_evaluator.cpp:745-787 | amounts and fee leave the sender and wait in the escrow; with a feed exactly when covered, in time and new |
| `Escrows.EscrowApprove` | libraries/chain/steem_evaluator.cpp:789-844 | possible exactly once per party and in time; rejection refunds the sender everything, the second approval pays the agent once, and no other purse moves |
| `Escrows.EscrowDispute` | libraries/chain/steem_evaluator.cpp:846-866 | possible exactly for ratified, undisputed, unexpired escrows |
| `Escrows.EscrowRelease` | libraries/chain/steem_evaluator.cpp:868-930 | never more than held, only to a permitted receiver, who gets exactly that; an empty escrow disappears |
| `Escrows.ExpireEscrows` | libraries/chain/database.cpp:2155-2171 | exactly the escrows not ratified in time are removed, and every sender gets back exactly both amounts and the fee of each |
| `Claims.ClaimRewards` | libraries/chain/steem_evaluator.cpp:2203-2241 | exactly what is claimed becomes spendable and shares move with their backing STEEM; they stay backed exactly under a stated condition |
| `Claims.ClaimIsProRata` | libraries/chain/steem_evaluator.cpp:2215-2223 | pending shares take their part of the pending STEEM with them, rounded down, and the last of them all of it |
| `Claims.UnbackedClaimExample` | libraries/chain/steem_evaluator.cpp:2219-2241 | from a valid ledger a claim is accepted that leaves one share and no STEEM in the fund |
| `Claims.CreateAccount` | libraries/chain/steem_evaluator.cpp:137-206 | the fee becomes the new account's stake, exactly under the evaluator's conditions, and nobody else is touched |
| `Claims.BurnNull` | libraries/chain/database.cpp:1265-1333 | everything the null account holds leaves every counter with it, the vesting pool by exactly the STEEM behind its shares; only interest just earned stays |
| `Market.MatchIsFair` | libraries/chain/database.cpp:3171-3200 | crossing orders both trade something, neither oversells, one sells out, both get their limit price rounded down |
| `Market.FillOrder` | libraries/chain/database.cpp:3273-3306 | the seller is credited the proceeds and a remainder too small to stay; STEEM and SBD in balances plus orders move by exactly what is paid and received |
| `Market.CancelOrder` | libraries/chain/database.cpp:3308-3312 | what is left returns to the seller, nothing else moves |
| `Market.Match` | libraries/chain/database.cpp:3171-3228 | each seller receives what the other pays, one of the two orders disappears, the ledger stays balanced, every remaining order still asks for something |
| `Market.MatchKeepsBystanders` | libraries/chain/database.cpp:3171-3228 | a match moves no purse but those of the two sellers, whose orders changed |
| `Market.FindFirst` | libraries/chain/database.cpp:3150-3157 | the oldest of the counter-orders that give the most for what they ask, in cross products and ids |
| `Market.StillPrior` | libraries/chain/include/steemit/chain/steem_objects.hpp:291-297 | trading with that order keeps price-time priority: nothing trades before a better or equal older order is used up |
| `Market.MatchedStep` | libraries/chain/database.cpp:3150-3169 | matching against the best counter-order is the first step of matching the whole book |
| `Market.ApplyOrder` | libraries/chain/database.cpp:3150-3169 | terminates with the book that best-price-first matching determines and nothing crossing the new order; a counter-order trades only after every better-priced and every equal older one is used up; own side and uninvolved accounts untouched |
| `Market.LiveOrdersAreScannable` | libraries/chain/database.cpp:3155-3157 | an order of at most the maximal share supply is always reached by the scan |
| `Market.LimitOrderCreate` | libraries/chain/steem_evaluator.cpp:1868-1908 | with a feed accepted exactly under the evaluator's conditions, fill-or-kill exactly when matching uses the order up; the book is the matched one and no two opposite resting orders cross |
| `Market.LimitOrderCancel` | libraries/chain/steem_evaluator.cpp:1910-1913 | the order found by the low sixteen bits of the id, and only it, is refunded |
| `Market.ClearExpiredOrders` | libraries/chain/database.cpp:3326-3337 | exactly the expired orders are removed, and every seller gets back exactly what was left of each |
| `PowerPlans.RequestIsSteady` | libraries/chain/steem_evaluator.cpp:1000-1027 | any request gives a sound plan, payable exactly when it is above minus thirteen or its rate leaves no remainder |
| `PowerPlans.RateIsThirteenth` | libraries/chain/steem_evaluator.cpp:1009-1013 | the weekly rate of a positive request is a thirteenth rounded down, and at least one share |
| `PowerPlans.ThirteenWeeks` | libraries/chain/steem_evaluator.cpp:1006-1027 | a request of thirteen shares or more is never complete before the thirteenth instalment, exactly then if thirteen divides it, and at the latest after the twenty-fifth |
| `PowerPlans.InstalmentIsExact` | libraries/chain/database.cpp:1388-1402 | no instalment of a non-negative request is cut short by the account's shares; the last one is exactly the rest |
| `PowerPlans.NegativeInstalment` | libraries/chain/database.cpp:1388-1402 | the instalment of a negative request is the remainder of its rate, zero or negative |
| `PowerPlans.InstalmentIs` | libraries/chain/database.cpp:1388-1402 | for every covered plan the instalment is non-negative exactly when payable, and then within the account's shares |
| `PowerPlans.PowerDownPaysInFull` | libraries/chain/database.cpp:1379-1470 | the instalments of one plan add up to exactly the requested total; over runs of blocks see `Blocks.Chain.PowerDown` |
| `PowerPlans.FirstInstalmentSign` | libraries/chain/database.cpp:1388-1402 | for every request, exactly when the first instalment is not negative |
| `PowerPlans.NegativeRequestExample` | libraries/protocol/steem_operations.cpp:175-179 | a request of -27 gives an instalment of -1 |
| `PowerPlans.SharesWithin` | libraries/chain/database.cpp:1451-1453 | rounded route shares of a non-negative instalment never exceed it |
| `PowerPlans.UncheckedRoute` | libraries/chain/steem_evaluator.cpp:1069-1080 | the plain route total is the checked one plus the route to account 0 |
| `PowerPlans.UncheckedRouteExample` | libraries/chain/steem_evaluator.cpp:1069-1080 | routes of 200% that pass the check |
| `PowerDown.DepositShares` | libraries/chain/database.cpp:1408-1425 | every vesting route gets its share once, totals move by their sum |
| `PowerDown.ConvertRoutes` | libraries/chain/database.cpp:1427-1449 | the other routes are paid from the fund one after the other, each its share at the price the one before left, which is never overdrawn |
| `PowerDown.PayOut` | libraries/chain/database.cpp:1404-1478 | deposited plus converted shares are exactly the instalment; every converting route gets its share in STEEM at the moving price and the owner all that no route took; all equations kept |
| `PowerDown.OneMoreInstalment` | libraries/chain/database.cpp:1379-1485 | the books after a pass are those after its instalments in their order |
| `Staking.Stakes.WithdrawVesting` | libraries/chain/steem_evaluator.cpp:960-1028 | accepted exactly under the evaluator's conditions, negative requests included; reserves cover delegations and requests and every plan stays sound |
| `Staking.Stakes.SetRoute` | libraries/chain/steem_evaluator.cpp:1030-1085 | accepted exactly when the total fits; totals and the route counter stay right |
| `Staking.TotalPercent` | libraries/chain/steem_evaluator.cpp:1070-1077 | the sixteen-bit sum is the true total whenever that fits |
| `Staking.Stakes.Delegate` | libraries/chain/steem_evaluator.cpp:2243-2333 | accepted exactly under the evaluator's conditions; new, larger and smaller delegations keep the counters equal to live plus expiring delegations and shares reserved |
| `Staking.Stakes.ClearExpiredDelegations` | libraries/chain/database.cpp:3339-3354 | exactly the expired entries are removed and every owner has back exactly what they lent |
| `Staking.Stakes.PayInstalment` | libraries/chain/database.cpp:1379-1485 | refused exactly when the instalment is negative; otherwise one account gives up exactly its instalment, not before its week, every route and the owner get their parts, and every reserve stays covered |
| `Staking.LendingLimit` | libraries/chain/steem_evaluator.cpp:2249-2262 | an account may lend more than it owns exactly while something negative is to be withdrawn |
| `Staking.OverlentExample` | libraries/chain/steem_evaluator.cpp:2249-2262 | 100 shares, a request of -12, and 112 may be delegated |
| `Staking.NegativeRequestBlocks` | libraries/chain/database.cpp:1388-1460 | a due request fails every pass exactly when its first instalment is negative or another due plan's is |
| `StakeVotes.SharesTotal` | libraries/chain/database.cpp:4082-4088 | the total behind the votes is the sum of all vesting shares |
| `StakeVotes.PayWithVotes` | libraries/chain/database.cpp:1379-1485 | one instalment moves stakes and votes together, or trips the vote-overflow assertion |
| `StakeVotes.ProcessWithdrawals` | libraries/chain/database.cpp:1371-1487 | terminates; every due account is paid, for no week before it comes due; purses, shares and pool move by exactly the instalments paid, and the votes with them; fails exactly for a negative instalment or where a deposit overflows the votes |
| `Staking.Stakes.CreateAccount` | libraries/chain/steem_evaluator.cpp:137-206 | the new account lends, owes and routes nothing |
| `Staking.Stakes.CreateWithDelegation` | libraries/chain/steem_evaluator.cpp:208-292 | accepted exactly under the evaluator's conditions; the delegation comes out of free shares and all counters stay exact |
| `Curves.ApproxSqrtMonotone` | libraries/chain/util/reward.cpp:17-36 | the bit-trick square root never falls |
| `Curves.CurveMonotone` | libraries/chain/util/reward.cpp:68-95 | every reward curve is zero at zero and never falls |
| `Curves.QuadraticIs` | libraries/chain/util/reward.cpp:73-77 | the quadratic curve is the square of the shares plus twice their product with the content constant |
| `Curves.SaturationIs` | libraries/chain/util/reward.cpp:78-83 | the curation curve saturates at 2^64, half of it at twice the content constant |
| `Curves.SqrtIsClose` | libraries/chain/util/reward.cpp:17-36 | the bit-trick square root is less than one too small and at most a sixteenth too large |
| `Curation.UpvotedUnderCurve` | libraries/chain/steem_evaluator.cpp:1421-1436 | the telescoped weights stay below the curve at the shares voted |
| `Curation.WeightTelescopes` | libraries/chain/steem_evaluator.cpp:1421-1436 | weight goes by the curve: the first vote adds all of it, and two votes add what one of both would |
| `Curation.Forum.CreateComment` | libraries/chain/steem_evaluator.cpp:495-634 | a new comment starts with no weight |
| `Curation.Forum.CastVote` | libraries/chain/steem_evaluator.cpp:1200-1600 | accepted exactly under the evaluator's conditions, declined rights, interval and voting power included; the vote, the comment and the power spent are exact; weights stay within totals and totals within the curve |
| `Curation.Forum.RecordVote` | libraries/chain/steem_evaluator.cpp:1276-1592 | what a vote of a given strength records: first, changed or late |
| `Curation.UsedPowerFits` | libraries/chain/steem_evaluator.cpp:1250-1274 | a vote costs its exact part rounded up and never more power than there is, so the assertion about it cannot fire |
| `Curation.PowerRegenerates` | libraries/chain/steem_evaluator.cpp:1250-1255 | voting power comes back evenly in five days, rounded down and capped |
| `Curation.StrengthIsPart` | libraries/chain/steem_evaluator.cpp:1257-1275 | a vote weighs the part of the effective shares that the power it costs is of all power |
| `Curation.DenominatorIs` | libraries/chain/steem_evaluator.cpp:1261-1263 | voting at full strength as often a day as the reserve says costs as much power as comes back |
| `Curation.DiscountIs` | libraries/chain/steem_evaluator.cpp:1460-1469 | the reverse auction: everything after half an hour, before that by the second, rounded down |
| `Curation.Forum.DeclineVoting` | libraries/chain/database.cpp:2173-2198 | the account can no longer vote and no weight changes |
| `Curation.Forum.NewVote` | libraries/chain/steem_evaluator.cpp:1300-1488 | the total grows by the full weight, the voter gets the discounted one |
| `Curation.Forum.ChangeVote` | libraries/chain/steem_evaluator.cpp:1491-1592 | a changed vote loses its weight and takes it out of the total |
| `Rewards.PayCurators` | libraries/chain/database.cpp:1509-1552 | every curator gains exactly the floor of their part; never over budget; paid plus unclaimed is the budget, or nothing when curation is refused |
| `Rewards.RewardBounds` | libraries/chain/util/reward.cpp:38-66 | a reward is at most its exact part of the fund, dust and caps included |
| `Rewards.RewardIs` | libraries/chain/util/reward.cpp:38-66 | the reward is the floored part of the fund, nothing when that is dust or there is no feed, and no more than the author accepts |
| `Rewards.ClaimIsPart` | libraries/chain/util/reward.cpp:50-51 | a comment claims the part of its curve value that its reward weight is of the whole, rounded down |
| `Rewards.PayBeneficiaries` | libraries/chain/database.cpp:1590-1597 | every beneficiary gains exactly the floored parts named for it, and the total paid is their sum |
| `Rewards.BeneficiariesFit` | libraries/chain/database.cpp:1590-1599 | beneficiaries together take at most their weights' part of the author's tokens, so the author's rest is never negative |
| `Rewards.PayAuthor` | libraries/chain/database.cpp:1599-1607 | what beneficiaries leave goes to the author, half of the chosen part as SBD and the rest as pending shares; no other purse moves |
| `Rewards.CashoutComment` | libraries/chain/database.cpp:1562-1688 | who gains how much of the reward, that nothing of it is lost, and that the comment can never be due again |
| `Rewards.PassOneMore` | libraries/chain/database.cpp:1763-1790 | one more comment of a pass adds its split between curators, beneficiaries and author to everyone's gains |
| `Rewards.AddClaims` | libraries/chain/database.cpp:1732-1749 | the 128-bit denominator holds every due claim before anything is paid, modulo 2^128, and whether it wrapped |
| `Rewards.FadesInTime` | libraries/chain/database.cpp:1718-1720 | within the decay time recent claims fade without wrapping |
| `Rewards.PayDue` | libraries/chain/database.cpp:1763-1790 | every account gains exactly the sum of what the due comments owe it at the given fund, denominator and curation percentage; all payouts together are at most the due claims' part of the fund |
| `Rewards.ProcessCashout` | libraries/chain/database.cpp:1690-1803 | every due comment is paid once and none is due afterwards; everyone gains what they are owed at the fund's own curation percentage, balance and denominator, and the fund falls by exactly what the comments take; fails only without a fund, a share price or a denominator; equations kept |
| `Rewards.NeverOverdrawn` | libraries/chain/database.cpp:1732-1790 | every fund can pay a pass exactly when the sum of recent and due claims does not wrap |
| `Rewards.FitsInTime` | libraries/chain/database.cpp:1718-1749 | blocks within the decay time and bounded claims keep the sum from wrapping |
| `Rewards.LongGapWraps` | libraries/chain/database.cpp:1718-1749 | after a longer gap the sum wraps exactly when the due claims make up for the overshoot |
| `Rewards.OverdrawExample` | libraries/chain/database.cpp:1718-1790 | fifteen days and three seconds: a fund of 1000 owes 2000 |
| `Inflation.PayRewardFunds` | libraries/chain/database.cpp:2047-2065 | funds grow by exactly what is reported used; the sanity check holds when percentages fit |
| `Inflation.RateFalls` | libraries/chain/database.cpp:1828-1834 | inflation falls from 9.78 % by 0.01 % every 250000 blocks down to 0.95 % |
| `Inflation.PartsOfNewSteem` | libraries/chain/database.cpp:1835-1859 | three quarters of the new STEEM for content, fifteen percent for vesting, and the rest by weight for the producer, each rounded down |
| `Inflation.ProcessFunds` | libraries/chain/database.cpp:1816-1866 | each fund, the vesting fund and the producer receive exactly their parts, and the supply grows by exactly their sum |
| `Blocks.Chain.ValidIsImageOk` | libraries/chain/database.cpp:3965-4107 | the invariant depends only on the state an undo session saves |
| `Blocks.Chain.constructor` | libraries/chain/database.cpp:2385-2464 | every invariant holds at genesis |
| `Blocks.Chain.VotesAddUp` | libraries/chain/database.cpp:3988-4088 | the vote sum of validate_invariants is total_vesting_shares |
| `Blocks.Chain.Apply` | libraries/chain/database.cpp:2898-2921 | with a price feed an operation is accepted exactly under its evaluator's conditions; it then writes exactly the records its kind may write, with the stated contents, and keeps every invariant, the count of votes included; only an unbacked claim leaves them |
| `Blocks.Chain.Push` | libraries/chain/database.cpp:739-759 | with a price feed a pending operation is accepted exactly under its evaluator's conditions; it keeps every invariant with its exact effect or leaves no trace |
| `Blocks.Chain.EndBlock` | libraries/chain/database.cpp:2661-2682 | the pipeline as eleven steps with the exact payments of each, which remove exactly what the block time makes due from every queue and keep every invariant; it fails only for a stated reason and leaves the invariants only by an overflow of claims |
| `Sweeps.SweptLeavesNothing` | libraries/chain/database.cpp:2661-2682 | after the sweep no order, escrow, savings withdrawal, conversion, delegation return or cashout is due |
| `Sweeps.StepsClear` | libraries/chain/database.cpp:2661-2682 | the steps together remove exactly what is due, and no later step undoes an earlier one |
| `Blocks.Chain.ApplyBlock` | libraries/chain/database.cpp:2595-2689 | a block applies whole, as the effects of its operations in order and the steps of its end, with nothing left due and the STEEM supply within the virtual one, or leaves no trace; refused only at an operation that is not admissible or an end that is hindered, where its trace leads |
| `Blocks.Chain.Run` | libraries/chain/database.cpp:3965-4091 | every invariant after any run of blocks, up to the first block that leaves them, if any |
| `Blocks.FromGenesis` | libraries/chain/database.cpp:3965-4091 | every invariant, the vote equation and the bound on the STEEM supply after any run of blocks from genesis |
| `Blocks.Chain.PowerDown` | libraries/chain/database.cpp:1371-1487 | over accepted blocks with any operations but another request of the account, exactly one rate is paid for every week that came due, up to exactly the request |
| `Blocks.Chain.RequestPowerDown` | libraries/chain/steem_evaluator.cpp:960-1028 | from the request on: a thirteenth a week, never complete before the thirteenth week and always after the twenty-fifth |
| `Forks.ForkDatabase.Push` | libraries/chain/fork_database.cpp:51-71 | refused exactly when too old or unlinked; the head moves only upwards |
| `Forks.ForkDatabase.Pop` | libraries/chain/fork_database.cpp:16-22 | to the parent, exactly when it is known or still held by the caller |
| `Forks.ForkDatabase.RemoveAll` | libraries/chain/database.cpp:652-659 | exactly the given branch is forgotten |
| `Forks.ForkDatabase.SetMaxSize` | libraries/chain/fork_database.cpp:94-123 | exactly the blocks too far below the head are forgotten |
| `Forks.ForkDatabase.FetchBranches` | libraries/chain/fork_database.cpp:168-210 | two linked branches to the nearest common predecessor, found exactly when any exist |
| `Forks.ForkDatabase.WalkMainBranch` | libraries/chain/fork_database.cpp:212-221 | the head's known ancestor with the given number, exactly when a known path leads there |
| `Switching.Node.TryApply` | libraries/chain/database.cpp:684-696 | success, rejection with restore, and rejection after committing itself; what the fork database forgets in each case |
| `Switching.Node.PopTo` | libraries/chain/database.cpp:632-634 | reaches the fork point exactly when undo states, blocks and ancestors are there, and then with the state of that time and the fork head as far down |
| `Switching.Node.ApplyAll` | libraries/chain/database.cpp:637-652 | stops at the first rejection with the way back open exactly when nothing above the start was committed; how far the fork database is pruned |
| `Switching.Node.SwitchFork` | libraries/chain/database.cpp:626-679 | exactly when the switch succeeds and when the original chain and state return, with chain, state, fork index and fork head after each |
| `Switching.FirstPops` | libraries/chain/database.cpp:632-634 | the branches found suffice for the first pops exactly when the undo states do |
| `Switching.WayBackIs` | libraries/chain/database.cpp:652-672 | the way back is open exactly when nothing above the fork point was committed or pruned and the ancestors of the old tip are known |
| `Switching.EarlyCommitted` | libraries/chain/database.cpp:3085-3090 | before voting decides, the way back closes exactly when more than 21 blocks of the branch commit |
| `Switching.LateRejectionSticks` | libraries/chain/database.cpp:640-672 | a branch rejected after that never gives the original chain back |
| `ForkExample.CommitAboveForkExample` | libraries/chain/database.cpp:611-703 | an empty node and 43 pushed blocks after which the original chain cannot return |
| `Switching.PushBlock` | libraries/chain/database.cpp:611-703 | exactly when a block extends, waits, is refused, fails or switches, and chain, state, fork index and fork head after each |
| `Switching.Run` | libraries/chain/database.cpp:611-703 | after any sequence of pushes the state is the replay of the chain from genesis, and the chain never gets shorter unless a switch gets stuck |
| `Duplicates.History.Apply` | libraries/chain/database.cpp:2816-2894 | accepted exactly when unlisted and unexpired, and never if executed before |
| `Duplicates.History.Finish` | libraries/chain/database.cpp:3314-3324 | exactly the expired entries go, and nothing executed becomes acceptable |
| `Duplicates.History.ApplyBlock` | libraries/chain/database.cpp:2644-2656 | all transactions of a block, exactly when each is acceptable after those before it, or none; none of them executed before |
| `Duplicates.History.Run` | libraries/chain/database.cpp:2816-2929 | no transaction is executed twice in any run, block 1 included |
| `Duplicates.ExecutedIsRefused` | libraries/chain/database.cpp:2826-2883 | an executed transaction is refused at every later time |
| `Schedule.SelectTop` | libraries/chain/witness_schedule.cpp:68-90 | keyed witnesses, none left out with more votes |
| `Schedule.SelectRunners` | libraries/chain/witness_schedule.cpp:123-148 | the earliest keyed witnesses not elected; the clock moves to the last one passed |
| `Schedule.LapIs` | libraries/chain/witness_schedule.cpp:156-157 | a lap takes the whole time in which the votes and one run it |
| `Schedule.MoreVotesSooner` | libraries/chain/witness_schedule.cpp:156-157 | of two who start a lap at the same time the one with more votes never arrives later |
| `Schedule.Scheduler.Advance` | libraries/chain/witness_schedule.cpp:11-26 | no scheduled time behind the clock, no update ahead of it; a reset exactly when a lap wraps; everyone who starts a lap waits exactly as long as its votes need, more votes never longer |
| `Schedule.Shuffle` | libraries/chain/witness_schedule.cpp:263-278 | the shuffle is the source's sequence of drawn swaps and a permutation |
| `Schedule.DrawExample` | libraries/chain/witness_schedule.cpp:268-272 | a known answer of the generator the shuffle draws from |
| `Schedule.Scheduler.Update` | libraries/chain/witness_schedule.cpp:68-285 | the round is the shuffled, duplicate-free list of elected witnesses and runners; exactly the witnesses passed start a lap, with the wait their votes need; the clock falls only by a reset |
| `Slots.EveryoneOncePerRound` | libraries/chain/database.cpp:991-997 | any n consecutive slots visit each of the n witnesses exactly once |
| `Slots.SlotsTile` | libraries/chain/database.cpp:999-1030 | slots tile time, begin at multiples of the interval, and slot times are found again |
| `Slots.NthElement` | libraries/chain/database.cpp:3103-3112 | the order statistic nth_element leaves in place |
| `Slots.Finality.NextBlock` | libraries/chain/database.cpp:3061-3119 | irreversibility never falls or passes the head, and moves only with three quarters of the witnesses, as far as they confirm |
| `Sync.MarksClimb` | libraries/app/application.cpp:794-816 | the marks strictly increase and end exactly at the last block |
| `Sync.MarksAreFew` | libraries/app/application.cpp:794-816 | the number of marks is the binary length of the span, exactly |
| `Sync.HalvesJoin` | libraries/net/node.cpp:2400-2418 | the chain half and the network half of the marks are one sequence |
| `Sync.BackendSynopsis` | libraries/app/application.cpp:786-816 | the marked ids of main chain and fork |
| `Sync.CompleteSynopsis` | libraries/net/node.cpp:2398-2419 | the marked announced ids |
| `Sync.SynopsisForPeer` | libraries/net/node.cpp:2373-2421 | together the marked ids of the joined chain, with or without announced ids, ending with the last one |
| `Sync.GetBlockIds` | libraries/app/application.cpp:562-616 | answers exactly when an entry is known, from the last known entry on, with the right remaining count |
| `Sync.MarkBelowIsNear` | libraries/app/application.cpp:794-816 | the last mark below a point lies at most twice as far from the end |
| `Sync.Exchange` | libraries/net/node.cpp:2462-2533 | an honest reply exists exactly when a chain is empty or they share an undoable block; it passes the checks and starts at block 1 or at most twice the divergence depth back |
| `Sync.Peer.TakeFresh` | libraries/net/node.cpp:2568-2607 | exactly the known front of a reply is dropped, and nothing when another peer is to deliver its first id |
| `Sync.Peer.Splice` | libraries/net/node.cpp:2608-2646 | the queue is cut at the reply's first id and continued by the reply, staying consecutive |
| `BlockLog.Log.Append` | libraries/chain/block_log.cpp:185-204 | refused exactly when the index does not end where the entry belongs; both files stay what the blocks determine |
| `BlockLog.Log.ReadBlock` | libraries/chain/block_log.cpp:212-225 | the block at its position and the position of the next |
| `BlockLog.Log.GetBlockPos` | libraries/chain/block_log.cpp:243-257 | the stored position for every block in the log and none else |
| `BlockLog.Log.ReadBlockByNum` | libraries/chain/block_log.cpp:227-241 | exactly the n-th appended block |
| `BlockLog.Log.ReadHead` | libraries/chain/block_log.cpp:259-271 | the last appended block |
| `BlockLog.Log.ReadAll` | libraries/chain/database.cpp:150-168 | reading by returned positions visits all blocks in order |
| `BlockLog.Log.ConstructIndex` | libraries/chain/block_log.cpp:278-306 | the rebuilt index equals the appended one exactly from two blocks on, and exactly then the next block can be appended |
| `BlockLog.Log.Open` | libraries/chain/block_log.cpp:92-173 | when the index is dropped, rebuilt or trusted, and exactly when the log is sound afterwards |
| `Framing.SizesAgree` | libraries/net/message_oriented_connection.cpp:154-166 | reader and writer agree on every frame length, wrap-around included |
| `Framing.Connection.Send` | libraries/net/message_oriented_connection.cpp:256-270 | a padded frame with header and data in place |
| `Framing.Connection.Receive` | libraries/net/message_oriented_connection.cpp:155-173 | when a message is read and exactly which bytes it takes |
| `Framing.Connection.RoundTrip` | libraries/net/message_oriented_connection.cpp:144-173 | every sequence of messages is recovered, with equal byte counts on both sides |

## Left out

- Witness pay normalization: the schedule's weight and factor are parameters of `ProcessFunds`; the source counts elected witnesses twice in the factor.
- 64-bit overflow: amounts are unbounded integers and the 128-bit intermediate results of prices are exact; recent claims and their sum wrap as in the source.
- Virtual supply: it is recomputed twice per block and adjusted in between; beyond the bound after a block its relation to the other supplies is stated per step, because late interest breaks the equation in the source.
- Comment trees, vote counts, children_abs_rshares, total_reward_shares2 and the edit window: not kept as invariants by the source.
- Removal of votes after payout under CLEAR_VOTES: votes of paid comments stay in the model and are never paid again.
- Blocks.Chain.Run: it stops before a block with an unbacked claim or an overflow of claims, because afterwards a fund could be overdrawn.
- Blocks.Chain.Run: declined voting rights and schedule updates are not part of a block; `VoteTally.Run`, `Curation.Forum.DeclineVoting` and `Schedule.Scheduler.Update` cover them.
- Staking.Stakes.PayInstalment: a negative instalment fails in the source by the deposit assertion or, with routes, in the conversion of an amount to unsigned, which is library code outside this model.
- Rewards.ProcessCashout: the pending vesting shares handed out with a reward, at a price that moves with every grant, are stated per grant (`Ledger.Database.CreateVesting`) and not summed over the pass; the STEEM behind them is.
- Switching.Node.TryApply: writing irreversible blocks to the log is not part of applying a block here; the fork database forgets blocks as in the source.
- Switching.Run: that the state is the replay of the chain is stated for blocks that are not rejected after committing themselves, because the source keeps what such a block left behind.
- Forks.ForkDatabase.FetchBranches: parents are looked up by id in the index; a weak pointer to a removed and re-added parent is not distinguished.
- Market.ApplyOrder: an opposite order priced above the maximal share supply for one is skipped; a new order priced beyond that limit would start the source's scan past its end.
- BlockLog.Log.Open: an index file of one to seven bytes is not covered, because the source then compares a value it did not read.
- Price feeds, median selection, witness properties and hardfork votes: parameters of a block.
- Account recovery, owner history, authority checks, signatures, Merkle roots, liquidity rewards and proof of work: disabled, one-off or foreign code.
- Network plumbing, peer database, rate limits and all queries of the application interface.

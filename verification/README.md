# The cp-amm pool engine, verified

This project models a constant-product pool with concentrated price bounds - its curve, fees, positions, vestings and
reward campaigns - and proves that its books always balance.

The state is one pool, its two token vaults and two reward vaults, any number of positions, any number of vestings and a
clock. The steps are the instruction handlers. A transaction that errors changes nothing, and the clock never goes back.

## How it is organised

- `Numbers`, `Arithmetic`, `MapSums`: fixed-width integers as subset types, the checked operations with their error codes,
  and the facts about products, quotients and finite sums the rest needs. The release profile of the program checks
  overflow, so a plain subtraction that would underflow is the error `Panic`.
- `Curve`, `Exponentiation`, `FeeMath`, `Fees`, `Settlement`, `Rewards`, `Vestings`, `Positions`, `Pools`: the arithmetic
  and the state of every component as values, one function per operation of the program.
- `Trading`, `Deposits`, `PoolTrading`, `Redemption`, `Blocking`: what traders and depositors can get out of the curve and
  of the pool.
- `Ledgers`: the whole market as one value, every handler as a function on it, and runs of instructions.
- `Books`, `Solvency`, `Safety`, `SwapSafety`, `ClaimSafety`, `LockSafety`, `SplitSafety`, `RewardSafety`, `Runs`, `History`:
  the invariant `Solvency.Inv`, its preservation by every handler, and what follows for whole runs.
- `PoolCreation`, `Earnings`, `SplitRuns`, `LockRuns`: which pools can be created, what a run earns the holder of a position,
  what splitting a position can change about it, and what a lock keeps.
- `PositionAccounts`, `PoolAccounts`, `VestingAccounts`, `StatusSafety`, `Handlers`: the accounts as objects whose fields
  the program updates in place, and the handlers on them, in the program's order of steps, proved against the functions
  above. Each handler also promises that a solvent ledger stays solvent and that its status is never a short vault
  (`StatusSafety.SafeStatus`).

## The invariant

Obligations are cross-multiplied integers, so nothing is rounded. The *claim* of a position on an accumulator is its pending
amount plus liquidity times growth since its checkpoint, scaled by 2^128 for fees and 2^192 for rewards. `Inv` says, of a
ledger:

- every vault, less the protocol's and the partner's fees and less the claims of all positions, covers the exact principal
  `L*(Pmax-P)/(Pmax*P)` of token A and `L*(P-Pmin)/2^128` of token B;
- every reward vault covers all claims plus rate times the seconds still to stream or already counted as empty;
- no checkpoint is ahead of its accumulator;
- the pool's liquidity is the sum over all positions, its permanent-lock total likewise, and the vested liquidity of each
  position is the sum of what its open vestings have yet to release;
- prices are in the pool's range and the pool's range in the global one, the base fee is a validated schedule, fee
  percentages are at most 100, both volatilities are within their maximum, and each campaign counts no more seconds than it
  was funded for.

Every handler also has the exact conditions under which it succeeds and what it then leaves behind (`...SucceedsExactly`;
claims of protocol and partner fees always succeed); a short vault is never among the ways to fail. Nothing is kept from
those it is meant for either: fees and rewards reach the liquidity to less than one unit of an accumulator
(`SwapSafety.LpFeeIsOwed`, `Solvency.AccrualIsOwed`), and a claim pays all but less than one unit (`Solvency.FeesSettle`).

## Results that differ from what the repository says

- `swap_tests.rs` asserts that a swap there and back in a pool without fees returns strictly less. It can return exactly as
  much: `Trading.ZeroFeeRoundTripCanBreakEven` gives an input and `Trading.BreakEvenExactly` the exact condition. A pool that
  passes validation always charges a fee, and then the inequality is strict (`PoolTrading.RoundTripLoses`).
- A pool with a dynamic fee has no reference price until a swap sets one, and sets one only when at least the filter period
  has passed since timestamp zero. `SwapSafety.SwapSucceedsExactly` lists this among the reasons a swap can fail
  (`DynamicFee.Blocked`), and `Blocking.QuotedButRefused` shows a pool in which it happens; with a real clock it never does.
- Splitting a position creates no value only if the position that receives is idle: merging two holdings can round up a unit
  that both would have lost (`SplitRuns.MergingCanGain`), and of its own never more than one (`SplitRuns.MergingGainsOneUnit`).
  Nor can the parts be compared with a whole that is settled more often than they are (`SplitRuns.EagerWholeCanFallBehind`);
  each settlement of the whole counts for at most a unit (`SplitRuns.SplittingNeverPays`).

## Model

| member | source | states |
|---|---|---|
| `Curve.NextPriceFromA` | programs/cp-amm/src/curve.rs:156-172 | A in: the result is the least price `n` with `l*p <= n*(l + x*p)`, never fails for positive price and liquidity, and never exceeds the old price |
| `Curve.NextPriceFromB` | programs/cp-amm/src/curve.rs:188-199 | B in: the price rises by the greatest `q` with `q*l <= y*2^128`, and the only failure is leaving 128 bits |
| `Curve.DeltaAmountABounds` | programs/cp-amm/src/curve.rs:33-65 | the amount of A between two prices is the exact quotient rounded as asked; no product or quotient can overflow 256 bits |
| `Curve.DeltaAmountBBounds` | programs/cp-amm/src/curve.rs:69-107 | the same for B, where the divisor is 2^128 |
| `Curve.SwapIsStep` | programs/cp-amm/src/state/pool.rs:479-522 | a successful raw swap satisfies the defining inequalities of price and output, stays in the price range and moves the price in the direction of the trade |
| `Trading.StepIsSwap` | programs/cp-amm/src/state/pool.rs:479-522 | conversely whatever satisfies those inequalities in the direction of the trade and in range is what the swap computes |
| `Curve.SwapIsFunded` | programs/cp-amm/src/state/pool.rs:479-522 | price containment, and the curve is never left poorer than its exact unrounded principal in either token |
| `Curve.FundedCompose` | programs/cp-amm/src/state/pool.rs:479-522 | fair price moves compose, so the bound carries over any number of swaps |
| `Trading.SliceNet` | programs/cp-amm/src/state/pool.rs:402-522 | a swap cut in two at one fee numerator goes through and pays at most as much, both directions, fee on input or output |
| `Trading.SlicingNeverHelps` | programs/cp-amm/src/state/pool.rs:402-522 | any number of consecutive slices of an order succeed whenever the whole does and pay at most as much in total |
| `Trading.RoundTripNeverPays` | programs/cp-amm/src/tests/swap_tests.rs:18-85 | swapping and swapping all proceeds back never returns more than was put in, and strictly less once either swap carries a fee |
| `Trading.BreakEvenExactly` | programs/cp-amm/src/tests/swap_tests.rs:47 | without fees the round trip returns all of the input if and only if both divisions of the first swap leave no remainder |
| `Trading.ZeroFeeRoundTripCanBreakEven` | programs/cp-amm/src/tests/swap_tests.rs:18-51 | a concrete in-range input for which the strict inequality asserted there fails without a fee |
| `PoolTrading.ResultIsNetSwap` | programs/cp-amm/src/state/pool.rs:402-478 | a swap result is a raw swap with the capped total numerator charged on one side, and exists exactly when that does |
| `PoolTrading.ResultIsCharged` | programs/cp-amm/src/state/pool.rs:402-478 | the fees of a result are all that the charge takes off its side, and the curve trades exactly the rest |
| `PoolTrading.QuoteIsNetSwap` | rust-sdk/src/quote.rs:30-63 | a quote exists exactly for a positive input to an active pool whose net swap exists, and is that net swap |
| `PoolTrading.ResultFeesAreShared` | programs/cp-amm/src/state/pool.rs:402-478 | the fees of every result are shared out between liquidity, protocol, partner and referrer as the percentages say |
| `PoolTrading.RoundTripLoses` | programs/cp-amm/src/tests/swap_tests.rs:18-85 | in every reachable pool the round trip loses strictly, because a validated pool always charges a fee |
| `PoolTrading.SlicingAnOrderNeverHelps` | programs/cp-amm/src/state/pool.rs:402-522 | slices at the pool's current charge pay at most what the pool quotes for the whole order |
| `Deposits.AmountsAreRounded` | programs/cp-amm/src/state/pool.rs:570-594 | both amounts are the exact worth of the liquidity rounded as asked, and the only failure is not fitting 64 bits |
| `Deposits.WithdrawReturnsDeposit` | programs/cp-amm/src/tests/modify_liquidity_tests.rs:14-45 | a deposit withdrawn at an unchanged price in any `k` pieces goes through and returns per token at most the deposit and at most `k` units less |
| `Deposits.InitialAmountsFit` | programs/cp-amm/src/tests/overflow_tests.rs:18-26 | for every liquidity up to the maximum and every global price the initial amounts fit 64 bits |
| `Deposits.MaxAmountInIsExact` | programs/cp-amm/src/state/pool.rs:728-748 | `get_max_amount_in` for A to B is defined, and its amounts are exactly those worth no more than the curve's A down to the lowest price |
| `Deposits.WithinMaxIsSafe` | programs/cp-amm/src/tests/overflow_tests.rs:28-34 | an A-to-B swap of any such amount never violates the range or overflows, at every global price and liquidity up to the maximum |
| `Exponentiation.PowUnrolled` | programs/cp-amm/src/math/fee_math.rs:36-197 | the 19 unrolled multiply-and-square steps compute the recursive rounds, with the early exits and the inversion |
| `Exponentiation.RoundsAreTheLoop` | programs/cp-amm/src/math/fee_math.rs:60-197 | for a base below one the unrolled rounds equal the loop they stand for |
| `Exponentiation.PowErrorBound` | programs/cp-amm/src/math/fee_math.rs:36-197 | for base below 2^64 and 0 < n < 2^19 the result is at most `base^n / 2^(64(n-1))` and less than `n` units in the last place below it |
| `Exponentiation.PowNeverOverflows` | programs/cp-amm/src/math/fee_math.rs:36-197 | for every base no checked multiplication fails: the only failure is a result truncated to zero, and then the exact power of the base, inverted if it is one or more, is below `n` units; otherwise that power is returned, inverted back if the base was |
| `FeeMath.PowersDecay` | programs/cp-amm/src/math/fee_math.rs:13-34 | powers of a decay base whose last power is large enough never rise, although each is truncated |
| `FeeMath.FeeInPeriodIsMonotone` | programs/cp-amm/src/math/fee_math.rs:13-34 | an exponential fee that is sound at its last period is defined at every earlier one and never rises |
| `FeeMath.FeeInPeriodApproximates` | programs/cp-amm/src/math/fee_math.rs:13-34 | the exponential fee after `k` periods is the cliff fee times the `k`-th power of the decay base, from below and within the stated truncations, and the base takes off exactly the ten-thousandths asked for, rounded down |
| `FeeMath.FeeInPeriodIsDefined` | programs/cp-amm/src/math/fee_math.rs:13-34 | without reduction or periods the fee is the cliff fee; it is undefined only if the reduction exceeds the whole or the exact power is below `k` units |
| `Fees.FeeOfPeriod` | programs/cp-amm/src/state/fee.rs:109-143 | in the `k`-th period after activation the fee is that of period `k`, after the last and before activation that of the last, and without periods always the cliff fee |
| `Fees.ValidatedExactly` | programs/cp-amm/src/params/fee_parameters.rs:38-70 | looking only at its two ends, validation accepts exactly the schedules whose fee is in bounds in every period |
| `Fees.LinearFeeOfPeriod` | programs/cp-amm/src/state/fee.rs:128-136 | a linear fee loses the same amount each period |
| `Fees.DeltaBinIdCounts` | programs/cp-amm/src/state/fee.rs:246-262 | the bin distance is twice the number of whole bins between two prices, in either order |
| `Fees.VariableFeeIsLeast` | programs/cp-amm/src/state/fee.rs:310-327 | the variable fee is the least number of billionths that covers the squared volatility times the control |
| `Fees.NumeratorAfterIsMonotone` | programs/cp-amm/src/params/fee_parameters.rs:38-70 | for a validated schedule, linear or exponential, every period up to the last has a fee and it never rises |
| `Fees.ScheduleIsSafe` | programs/cp-amm/src/state/fee.rs:109-143 | a schedule checked only at its ends never errors at any time, stays between its validated minimum and the cliff fee, and never rises after activation |
| `Fees.DeltaBinIdInRange` | programs/cp-amm/src/state/fee.rs:246-262 | between any two global prices the bin distance is defined and below 2^80 |
| `Fees.VariableFeeIsBounded` | programs/cp-amm/src/state/fee.rs:310-327 | the variable fee of a sound dynamic fee never overflows |
| `Fees.BeforeSwapIsSound` | programs/cp-amm/src/state/fee.rs:279-304 | the update before a swap never fails and moves the references as its three time bands say: nothing within the filter period, then the current price with the decayed volatility, from the decay period on without any; it keeps the variable fee and leaves no reference price exactly when the pool is blocked |
| `Fees.AfterSwapIsSound` | programs/cp-amm/src/state/pool.rs:759-776 | the update after a swap fails exactly when there is no reference price; otherwise the accumulator is the reference volatility plus 20,000 per whole bin from the reference price, capped, and the time moves exactly if a bin was crossed |
| `Fees.FeeIsConserved` | programs/cp-amm/src/state/fee.rs:159-220 | amount and fees add up exactly, each receiver gets its rounded-down share of the right base, and percentages up to 100 never fail |
| `SwapSafety.TradingFeeIsBounded` | programs/cp-amm/src/state/fee.rs:148-174 | in a sound pool the trading fee never errors and the fee applied lies between the minimum fee and one half |
| `Settlement.SettleBounds` | programs/cp-amm/src/state/position.rs:29-45 | one settlement creates nothing, loses less than one unit and moves the checkpoint to the accumulator |
| `Settlement.CoveredClaimSettles` | programs/cp-amm/src/state/position.rs:209-235 | a settlement succeeds whenever the claim is covered by an amount that fits 64 bits |
| `Settlement.SettleAllBounds` | programs/cp-amm/src/state/position.rs:209-235 | `k` settlements lose less than `k` units of the claim |
| `Settlement.SettlingOftenNeverPays` | programs/cp-amm/src/state/position.rs:209-235 | settling `k` times instead of once gives at most as much, and at most `k - 1` units less |
| `Settlement.PartsNeverEarnMore` | programs/cp-amm/src/state/position.rs:209-235 | two streams that divide a third, as the two of a split do (`SplitRuns.SplitDivides`), hold together at most what the third holds after one settlement, whenever and however often they are settled |
| `Settlement.PartsFollowTheWhole` | programs/cp-amm/src/state/position.rs:209-235 | settled at the same times as the third, they always divide what it holds |
| `Rewards.SecondsTimesRate` | programs/cp-amm/src/state/pool.rs:287-308 | seconds of a campaign times its rate fit 128 bits and stand for at most 64 bits |
| `Rewards.UpdateKeepsCampaign` | programs/cp-amm/src/state/pool.rs:256-281 | an update fails exactly if the 256-bit accumulator overflows; otherwise every elapsed second is streamed to the liquidity at the rate, less than one unit of the accumulator short, or counted as empty, and leaves the reserve exactly |
| `Rewards.FundKeepsCampaign` | programs/cp-amm/src/instructions/ix_fund_reward.rs:73-107 | funding, with or without carry-forward, starts a campaign of the current duration over exactly the amount, the leftover and what is carried, with no empty seconds, and reserves at most what was reserved and funded |
| `Rewards.FundSucceedsExactly` | programs/cp-amm/src/instructions/ix_fund_reward.rs:73-107 | funding is refused exactly when empty seconds would be lost or the total or end time does not fit; leftover and carried amounts always fit |
| `Rewards.WithdrawKeepsCampaign` | programs/cp-amm/src/state/pool.rs:823-837 | the ineligible reward is what the empty seconds are worth at the rate, rounded down; it always fits, and the reserve drops by exactly those seconds |
| `Vestings.UnlockedAmount` | programs/cp-amm/src/state/vesting.rs:40-69 | the schedule never fails, never unlocks more than was locked, and unlocks everything exactly from the cliff plus all periods on |
| `Vestings.UnlockedOfPeriod` | programs/cp-amm/src/state/vesting.rs:49-69 | nothing is unlocked before the cliff, and after `k` periods the cliff amount and `k` equal parts |
| `Vestings.UnlockedIsMonotone` | programs/cp-amm/src/state/vesting.rs:49-69 | what is unlocked never shrinks as time passes |
| `Vestings.ReleaseIsExact` | programs/cp-amm/src/state/vesting.rs:71-85 | a refresh releases exactly the unlocked rest and the vesting is then done exactly when its end point has come |
| `Vestings.ReleaseIsPathIndependent` | programs/cp-amm/src/instructions/ix_refresh_vesting.rs:89-101 | with a non-decreasing clock no refresh fails and what is released by the end does not depend on earlier refreshes |
| `Vestings.ValidateSucceedsExactly` | programs/cp-amm/src/instructions/ix_lock_position.rs:36-68 | exactly the schedules that start no earlier than now, have periods unless they wait for a cliff, end within the longest duration and lock something are accepted, and the total is all they ever unlock |
| `Vestings.LockFollowsSchedule` | programs/cp-amm/src/instructions/ix_lock_position.rs:119-140 | what a lock writes unlocks at every point what the parameters say: nothing before the cliff asked for, then the cliff amount and equal parts |
| `Books.OwedGrows` | programs/cp-amm/src/state/pool.rs:542-563 | growth of an accumulator is owed to the liquidity of all positions, whoever holds it |
| `Solvency.AccountIsBacked` | programs/cp-amm/src/tests/integration_tests.rs:18-80 | in a solvent ledger everything positions are owed is covered by what the vault holds beyond its other debts |
| `Solvency.FeesSettle` | programs/cp-amm/src/state/position.rs:209-235 | in a solvent ledger settling a position's fees always succeeds, makes nobody richer and costs the holder less than one unit |
| `Solvency.RewardSettles` | programs/cp-amm/src/state/position.rs:270-285 | the same for each reward |
| `Solvency.ReplaceKeeps` | programs/cp-amm/src/state/position.rs:209-285 | exchanging a position for its settled form keeps the whole invariant |
| `Solvency.AccrualKeeps` | programs/cp-amm/src/state/pool.rs:814-821 | accruing all campaigns keeps the whole invariant |
| `Solvency.AccrualIsOwed` | programs/cp-amm/src/state/pool.rs:256-281 | all that the elapsed seconds stream is owed to the positions, but for less than one unit of the accumulator |
| `Safety.UpdateRewardsIs` | programs/cp-amm/src/state/position.rs:258-268 | `update_rewards` on pool and position fails exactly on accumulator overflow, accrues every elapsed second, leaves the position less than a unit poorer in each account and keeps the invariant |
| `Safety.AddLiquiditySucceedsExactly` | programs/cp-amm/src/instructions/ix_add_liquidity.rs:74-158 | a deposit goes through if and only if some liquidity is asked for, rewards accrue, the amounts are not zero and meet the limits and pool and vaults have room; it takes exactly the rounded-up worth, settles the position to the unit in all four accounts, leaves price, fees, vestings and all other positions alone and keeps the invariant |
| `Safety.WithdrawalIsBacked` | programs/cp-amm/src/state/pool.rs:570-594 | whatever liquidity the pool has is worth no more than the vaults hold |
| `Safety.RemoveLiquiditySucceedsExactly` | programs/cp-amm/src/instructions/ix_remove_liquidity.rs:80-166 | a withdrawal goes through if and only if that much is unlocked, rewards accrue, it is worth something and the limits are met; it pays exactly the rounded-down worth, settles the position likewise, leaves the rest alone and keeps the invariant |
| `Redemption.RemoveAllIs` | programs/cp-amm/src/instructions/ix_remove_liquidity.rs:80-166 | withdrawals in a row go through exactly when every piece is worth at least one unit of a token, and pay the rounded-down worths |
| `Redemption.DepositComesBack` | programs/cp-amm/src/tests/modify_liquidity_tests.rs:14-45 | on the whole ledger: a deposit withdrawn in any `k` pieces before anyone trades restores position, price and liquidity, never leaves a vault with less than before and costs the depositor at most `k` units of each token; it fails exactly at a piece worth nothing |
| `SwapSafety.FeeOnIs` | programs/cp-amm/src/state/fee.rs:159-220 | in a sound pool the fee on any amount is defined and conserves the amount |
| `SwapSafety.SwapResultIsFair` | programs/cp-amm/src/state/pool.rs:402-478 | every quote keeps the price in range and in direction, splits every unit into trade and fees, and leaves neither principal short, in every fee mode |
| `SwapSafety.FeeModeIsOnSide` | programs/cp-amm/src/state/fee.rs:338-362 | fees are taken from the output token, or always from B in that mode, and never from the other side of the trade |
| `SwapSafety.ApplyIs` | programs/cp-amm/src/state/pool.rs:524-568 | booking a result credits protocol, partner and totals exactly and the liquidity all of the LP fee but for less than one unit of the accumulator, records the swap in the dynamic fee, and fails exactly when a book has no room or there is no reference price |
| `SwapSafety.CoveredAfterMove` | programs/cp-amm/src/state/pool.rs:479-522 | a fair move keeps each token's unrounded principal covered |
| `SwapSafety.OutputIsBacked` | programs/cp-amm/src/instructions/ix_swap.rs:162-192 | the curve's side of every quoted trade is in the output vault |
| `SwapSafety.SlackAfterSwap` | programs/cp-amm/src/state/pool.rs:524-568 | what is left in a vault after all debts grows by at least what the curve gained |
| `SwapSafety.LpFeeIsOwed` | programs/cp-amm/src/state/pool.rs:540-562 | all of the LP fee of a swap is owed to the positions, but for less than one unit of the accumulator, and nothing in the other token |
| `SwapSafety.PreSwapIs` | programs/cp-amm/src/state/pool.rs:750-757 | the update before a swap never fails and does not change what the swap computes |
| `SwapSafety.SwapSucceedsExactly` | programs/cp-amm/src/instructions/ix_swap.rs:79-192 | a swap goes through if and only if the untouched pool quotes it, the limit is met, books and input vault have room and the dynamic fee is not blocked; it then moves exactly the quoted amounts, fees and price, credits every receiver, moves the volatility as the bins say and keeps the invariant |
| `ClaimSafety.ClaimPositionFeeSucceedsExactly` | programs/cp-amm/src/instructions/ix_claim_position_fee.rs:73-120 | fees can always be claimed in full unless a lifetime total overflows; exactly what is pending once settled leaves position and vaults and is counted |
| `ClaimSafety.ClaimProtocolFeeIsPaid` | programs/cp-amm/src/instructions/admin/ix_claim_protocol_fee.rs:70-108 | a protocol claim always succeeds, takes the lesser of booked and asked from the vault and from the protocol's book and from no other, and keeps the invariant |
| `ClaimSafety.ClaimPartnerFeeIsPaid` | programs/cp-amm/src/instructions/partner/ix_claim_partner_fee.rs:56-92 | the same for the partner |
| `ClaimSafety.ClaimRewardSucceedsExactly` | programs/cp-amm/src/instructions/ix_claim_reward.rs:69-116 | rewards are paid in full and counted exactly when they accrue and the vault is not frozen; a frozen vault needs the skip flag and pays nothing |
| `LockSafety.LockedVesting` | programs/cp-amm/src/instructions/ix_lock_position.rs:119-140 | what a valid lock writes is a well-formed vesting that has released nothing, holds exactly the locked total and follows the schedule asked for |
| `LockSafety.LockPositionSucceedsExactly` | programs/cp-amm/src/instructions/ix_lock_position.rs:104-157 | a lock goes through if and only if the position exists, the address is free, the schedule is valid and its total is unlocked; that total moves from unlocked to vested, and the vesting written holds it and follows the schedule asked for |
| `LockSafety.RefreshOneIs` | programs/cp-amm/src/instructions/ix_refresh_vesting.rs:62-101 | one turn of the loop fails only on a foreign account, releases exactly up to what is unlocked and closes the vesting exactly from its end point on |
| `LockSafety.RefreshReleasesAll` | programs/cp-amm/src/instructions/ix_refresh_vesting.rs:51-101 | refreshing any open vestings never fails; the outcome does not depend on earlier refreshes, and vested liquidity again equals the open vestings |
| `LockSafety.RefreshAllIsSafe` | programs/cp-amm/src/instructions/ix_refresh_vesting.rs:51-101 | any refresh keeps the invariant and fails only on an account that is not an open vesting of the position |
| `LockSafety.RefreshSucceedsExactly` | programs/cp-amm/src/instructions/ix_refresh_vesting.rs:51-101 | a refresh goes through if and only if every account is an open vesting of the position and none that is over comes twice |
| `LockSafety.PermanentLockSucceedsExactly` | programs/cp-amm/src/instructions/ix_permanent_lock_position.rs:31-58 | a permanent lock goes through exactly when that much is unlocked; it moves exactly that to permanently locked, raises the pool total by it and changes nothing else |
| `LockSafety.CreatePositionSucceedsExactly` | programs/cp-amm/src/instructions/ix_create_position.rs:78-119 | a position can be opened exactly at an unused address; it holds nothing, is owed nothing of what was earned before, and the invariant is kept |
| `LockSafety.ClosePositionSucceedsExactly` | programs/cp-amm/src/instructions/ix_close_position.rs:54-59 | a position can be closed if and only if it holds nothing and has nothing pending; then it is owed nothing in any account and has no open vesting |
| `LockSafety.ElapseSucceedsExactly` | programs/cp-amm/src/instructions/ix_refresh_vesting.rs:56-57 | a clock that moves forward changes nothing but the clock and keeps the invariant |
| `LockRuns.EarlyRefreshDoesNothing` | programs/cp-amm/src/instructions/ix_refresh_vesting.rs:51-101 | a refresh before the cliff asked for changes nothing |
| `LockRuns.LockHolds` | programs/cp-amm/src/instructions/ix_lock_position.rs:104-157 | after a lock and any run, until the schedule asked for is over the vesting is still open and the position still holds as vested whatever the schedule has not unlocked |
| `SplitSafety.SplitExchanges` | programs/cp-amm/src/state/pool.rs:628-726 | a validated split of settled positions never fails, only moves liquidity and pending amounts from one to the other, and moves of each holding exactly the part asked for |
| `SplitSafety.ValidatedParts` | programs/cp-amm/src/instructions/ix_split_position2.rs:24-59 | a split is accepted exactly if no part is more than the whole and something is asked for |
| `SplitSafety.ExchangeKeeps` | programs/cp-amm/src/state/pool.rs:628-726 | an exchange between two settled positions keeps the whole invariant |
| `SplitSafety.SplitSucceedsExactly` | programs/cp-amm/src/instructions/ix_split_position2.rs:61-114 | a split goes through if and only if its own checks pass and the rewards accrue; it then moves exactly the parts asked for between the two settled positions and keeps the invariant |
| `Earnings.Untouched` | programs/cp-amm/src/instructions/ix_split_position2.rs:61-114 | no instruction changes a position it does not name |
| `Earnings.StepEarns` | programs/cp-amm/src/state/position.rs:209-235 | an instruction that leaves a position's liquidity alone pays its holder at most what the claim drops, and less than one unit less if it settles the account |
| `Earnings.EarnedIsClaim` | programs/cp-amm/src/state/position.rs:209-235 | over any run all payouts and the amount due at the end are at most liquidity times growth, and less by less than one unit per settlement |
| `SplitRuns.SplitDivides` | programs/cp-amm/src/state/pool.rs:628-726 | after a split the two positions divide, in all four accounts, what the first one held when settled, if the second was idle |
| `SplitRuns.SplittingNeverPays` | programs/cp-amm/src/state/pool.rs:628-726 | between any run after a split with an idle position and any run without the split that ends with the same accumulator, the two parts are paid and have due together at most what the whole has, plus one unit per earlier settlement of the whole |
| `SplitRuns.MergingGainsOneUnit` | programs/cp-amm/src/state/pool.rs:628-726 | if the receiving position is not idle the same holds against both positions left apart, with one unit more |
| `SplitRuns.RunElsewhere` | programs/cp-amm/src/instructions/ix_split_position2.rs:61-114 | what everybody else does comes out the same whether or not two positions have exchanged holdings |
| `SplitRuns.WaitingPaysTheWhole` | programs/cp-amm/src/state/pool.rs:628-726 | in the same run with and without the split, a holder who waits earns with the two parts at most what the whole earns, in every account |
| `SplitRuns.MergingCanGain` | programs/cp-amm/src/state/pool.rs:628-726 | two positions of one unit of liquidity that earn nothing apart and one unit once moved together: why the receiver has to be idle |
| `SplitRuns.EagerWholeCanFallBehind` | programs/cp-amm/src/state/position.rs:209-235 | a whole settled three times earns nothing where its halves, settled once, earn a unit each: why settlements of the whole are counted |
| `RewardSafety.InitializeRewardSucceedsExactly` | programs/cp-amm/src/instructions/admin/ix_initialize_reward.rs:49-101 | a campaign can be opened exactly once and with a duration in range; it streams nothing yet and the invariant is kept |
| `RewardSafety.UpdateRewardDurationSucceedsExactly` | programs/cp-amm/src/instructions/admin/ix_update_reward_duration.rs:19-65 | a duration changes exactly after the campaign is over and to another one in range; what is reserved stays and the invariant is kept |
| `RewardSafety.FundRewardSucceedsExactly` | programs/cp-amm/src/instructions/ix_fund_reward.rs:54-132 | funding goes through if and only if rewards accrue, the sums fit and no empty seconds are lost; the vault gains what is received, the campaign starts again over that, the leftover and what is carried, and never promises more than the vault holds |
| `RewardSafety.WithdrawIneligibleSucceedsExactly` | programs/cp-amm/src/instructions/ix_withdraw_ineligible_reward.rs:33-89 | after the end of a campaign the ineligible reward is always withdrawable once rewards accrue; the vault pays exactly what the empty seconds were worth and keeps every claim covered |
| `PoolCreation.ValidatePoolSucceedsExactly` | programs/cp-amm/src/instructions/initialize_pool/ix_initialize_customizable_pool.rs:54-91 | exactly the pools with a price in a proper range, some liquidity, a base fee in bounds at all times and a well-formed dynamic fee pass validation |
| `PoolCreation.InitializePoolSucceedsExactly` | programs/cp-amm/src/instructions/initialize_pool/ix_initialize_customizable_pool.rs:222-362 | a pool can be created if and only if its prices, liquidity and fees are valid and the amounts fit 64 bits; it is as asked for, with nothing booked, one position with all the liquidity, and the rounded-up worth of that in the vaults |
| `Runs.NewPoolKeepsInvariant` | programs/cp-amm/src/instructions/initialize_pool/ix_initialize_customizable_pool.rs:222-362 | every pool that any of the three handlers can create, with or without a partner, satisfies the invariant |
| `Runs.ExecuteIsSafe` | programs/cp-amm/src/tests/integration_tests.rs:18-80 | no instruction breaks the invariant or fails because a vault cannot pay |
| `Runs.RunKeepsInvariant` | programs/cp-amm/src/tests/integration_tests.rs:18-80 | whole-run solvency: after any instructions each vault covers unrounded principal, protocol and partner fees, pending and unsettled fees and reward reserves; prices are in range, liquidity is conserved, vestings balance |
| `Runs.NoPayoutFails` | programs/cp-amm/src/tests/integration_tests.rs:18-80 | from pool creation on, by whichever handler, no payout of any run ever finds its vault short |
| `Runs.VaultHoldsEverything` | programs/cp-amm/src/tests/integration_tests.rs:18-80 | in whole units each vault holds all withdrawable principal, all booked fees and all pending fees at once |
| `Runs.RewardVaultHoldsEverything` | programs/cp-amm/src/state/pool.rs:256-353 | in whole units each reward vault holds all pending rewards and the whole reserve at once |
| `History.LocksNeverFall` | programs/cp-amm/src/state/pool.rs:778-787 | the permanently locked total changes only with a permanent lock that goes through, by the amount locked |
| `History.RunKeepsLocks` | programs/cp-amm/src/state/pool.rs:778-787 | no run ever lowers the permanently locked total |
| `History.TradesAreFairMoves` | programs/cp-amm/src/state/pool.rs:402-568 | over any trades the vaults change at least as a fair move of the price demands |
| `History.NoFreeLunch` | programs/cp-amm/src/state/pool.rs:479-522 | over any trades at least one vault does not drop, and neither drops once the price is back |
| `History.QuoteAgrees` | rust-sdk/src/quote.rs:30-63 | whenever quote and swap both succeed on the same ledger for the same input, the swap moves exactly the quoted price, output and fees |
| `History.SwapIsQuoted` | rust-sdk/src/quote.rs:30-63 | whatever an active pool swaps it also quotes, and the swap meets the quoted output as its limit |
| `Blocking.NewPoolIsBlockedExactly` | programs/cp-amm/src/state/fee.rs:279-304 | a new pool is blocked exactly if it has a dynamic fee and the first filter period after timestamp zero is not over |
| `Blocking.QuotedButRefused` | programs/cp-amm/src/instructions/ix_swap.rs:79-192 | a concrete pool that quotes a swap and refuses it at every limit, because it is blocked |
| `PositionAccounts.UserRewardInfo.UpdateRewards` | programs/cp-amm/src/state/position.rs:29-45 | updates the reward record in place as the settlement function says |
| `PositionAccounts.Position.UpdateFee` | programs/cp-amm/src/state/position.rs:209-235 | settles both fees in place; an idle position only moves its checkpoints |
| `PositionAccounts.Position.Lock` | programs/cp-amm/src/state/position.rs:128-138 | moves unlocked liquidity to vested in place, or refuses |
| `PositionAccounts.Position.PermanentLockLiquidity` | programs/cp-amm/src/state/position.rs:140-152 | moves unlocked liquidity to permanently locked in place, or refuses |
| `PositionAccounts.Position.ReleaseVestedLiquidity` | programs/cp-amm/src/state/position.rs:237-241 | moves vested liquidity back to unlocked in place |
| `PositionAccounts.Position.UpdatePositionReward` | programs/cp-amm/src/state/position.rs:270-285 | the loop settles every initialized campaign and stops at the first failure |
| `PositionAccounts.Position.ClaimReward` | programs/cp-amm/src/state/position.rs:291-309 | returns what is pending, clears it and adds it, wrapping, to the lifetime total |
| `PositionAccounts.Position.IsEmpty` | programs/cp-amm/src/state/position.rs:318-327 | the loop and checks decide emptiness |
| `PoolAccounts.RewardInfo.UpdateRewards` | programs/cp-amm/src/state/pool.rs:256-281 | accrues in place: credits the liquidity or counts empty seconds, then moves the update time |
| `PoolAccounts.RewardInfo.UpdateRateAfterFunding` | programs/cp-amm/src/state/pool.rs:323-353 | re-rates the campaign in place with the leftover of a running one |
| `PoolAccounts.DynamicFeeStruct.UpdateReferences` | programs/cp-amm/src/state/fee.rs:279-304 | the three time bands of the reference update, in place |
| `PoolAccounts.DynamicFeeStruct.UpdateVolatilityAccumulator` | programs/cp-amm/src/state/fee.rs:264-277 | the capped accumulator update, in place |
| `PoolAccounts.Pool.UpdateRewards` | programs/cp-amm/src/state/pool.rs:814-821 | the loop accrues one campaign after the other |
| `PoolAccounts.Pool.ApplySwapResult` | programs/cp-amm/src/state/pool.rs:524-568 | books price, fees, totals and the dynamic fee in place |
| `PoolAccounts.Pool.ApplyAddLiquidity` | programs/cp-amm/src/state/pool.rs:596-610 | settles the position, then grows position and pool |
| `PoolAccounts.Pool.ApplyRemoveLiquidity` | programs/cp-amm/src/state/pool.rs:612-626 | settles the position, then shrinks position and pool |
| `PoolAccounts.Pool.ApplySplitPosition` | programs/cp-amm/src/state/pool.rs:628-726 | settles both positions, then moves the five kinds of holdings in order |
| `PoolAccounts.Pool.ClaimProtocolFee` | programs/cp-amm/src/state/pool.rs:789-799 | takes the lesser of booked and asked of both tokens |
| `PoolAccounts.Pool.ClaimIneligibleReward` | programs/cp-amm/src/state/pool.rs:823-837 | returns the ineligible reward and clears the empty seconds |
| `VestingAccounts.Vesting.AccumulateReleasedLiquidity` | programs/cp-amm/src/state/vesting.rs:77-81 | counts released liquidity in place |
| `Handlers.HandleAddLiquidity` | programs/cp-amm/src/instructions/ix_add_liquidity.rs:74-158 | the steps of the handler on the accounts write exactly what the ledger function computes |
| `Handlers.HandleRemoveLiquidity` | programs/cp-amm/src/instructions/ix_remove_liquidity.rs:80-166 | the same for withdrawals |
| `Handlers.HandleSwap` | programs/cp-amm/src/instructions/ix_swap.rs:79-192 | the same for swaps, with the order of transfers and the referral payment |
| `Handlers.HandleClaimPositionFee` | programs/cp-amm/src/instructions/ix_claim_position_fee.rs:73-120 | the same for fee claims: settle, count, pay, reset |
| `Handlers.HandleClaimProtocolFee` | programs/cp-amm/src/instructions/admin/ix_claim_protocol_fee.rs:70-108 | the same for protocol claims |
| `Handlers.HandleClaimPartnerFee` | programs/cp-amm/src/instructions/partner/ix_claim_partner_fee.rs:56-92 | the same for partner claims |
| `Handlers.HandleLockPosition` | programs/cp-amm/src/instructions/ix_lock_position.rs:104-157 | the same for locks, with the vesting account that is created |
| `Handlers.HandleRefreshVesting` | programs/cp-amm/src/instructions/ix_refresh_vesting.rs:51-101 | the loop over the remaining accounts writes what the ledger function computes and closes exactly the finished ones |
| `Handlers.HandleSplitPosition` | programs/cp-amm/src/instructions/ix_split_position2.rs:61-114 | the same for splits: rewards of pool and both positions first, then the split |
| `Handlers.HandleInitializeReward` | programs/cp-amm/src/instructions/admin/ix_initialize_reward.rs:49-101 | the same for opening a campaign |
| `Handlers.HandleUpdateRewardDuration` | programs/cp-amm/src/instructions/admin/ix_update_reward_duration.rs:19-65 | the same for changing a duration |
| `Handlers.HandleFundReward` | programs/cp-amm/src/instructions/ix_fund_reward.rs:54-132 | the same for funding: update, carry forward or refuse, re-rate, receive |
| `Handlers.HandleWithdrawIneligibleReward` | programs/cp-amm/src/instructions/ix_withdraw_ineligible_reward.rs:61-89 | the same for ineligible rewards |
| `Handlers.HandleClaimReward` | programs/cp-amm/src/instructions/ix_claim_reward.rs:69-116 | the same for reward claims, with the frozen-vault branch |
| `Handlers.HandlePermanentLockPosition` | programs/cp-amm/src/instructions/ix_permanent_lock_position.rs:31-58 | the same for permanent locks |

## Left out

- Account constraints, signers, program-derived addresses, NFT mint and burn, events, padding: framework plumbing.
- Transfer fees of Token-2022: a transfer is the vault gaining what reaches it or losing the stated amount, and slippage
  limits are compared with vault-side amounts.
- Access guards (pool status, admin and funder checks, alpha-vault and activation-point validation, token badges, quote
  mints): single-branch checks. The model lets every caller do what some caller may do.
- Creating and closing configs: a static config's checks are made when the pool is created, so several violations at once may
  be reported in another order, and its percentages, which the program always sets to the same constants, may be any up to 100.
- `split_position`: it converts percentages to the numerators of `split_position2`.
- The count of positions in the pool's metrics: nothing depends on it.
- Creating a pool and creating and closing positions are modelled on values only, not on account objects.
- `Handlers.HandleLockPosition`: takes as given that the address of the new vesting is unused, which the runtime enforces.
- `Handlers.HandleRefreshVesting`: the accounts handed in are a map by address, so one account handed in twice is one object,
  as in the runtime; returning rent is not modelled.
- The B-to-A arm of `get_max_amount_in`: it measures token A although the input is token B, so nothing is claimed about it.
- `pow` with negative exponents: only tests use it.
- `SplitRuns.SplittingNeverPays`: the liquidity of the two positions is left alone after the split; the runs end with the same
  accumulator by assumption, which `SplitRuns.WaitingPaysTheWhole` proves for the same run of everybody else.
- `Rewards.UpdateKeepsCampaign`: an overflow of the 256-bit accumulator is an error of the update, and is not shown to be
  out of reach; the same holds for the fee accumulators and lifetime totals in `SwapSafety.SwapSucceedsExactly`.
- The lending program, the simulations and the TypeScript client.

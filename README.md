# Farming staking ledger — a Dafny model

This project models the staking-and-reward ledger of the `landboard-farming-sc`
smart contract (MultiversX/Elrond, Rust). Users stake a farming token and accrue
a reward token. The contract keeps a global reward-per-wei accumulator. It
advances by `reward_amount_per_block` for every whole 6-second block while
anything is staked. Each user's pending reward is settled against a per-user
snapshot of that accumulator, pro rata to the user's balance over the total
supply.

Layout:

- `wrappers.dfy` — `Option`, `Result` (usable with `:-`) and `Outcome`.
- `storage.dfy` (`Storage`) — the storage layout of `src/state.rs` as one record
  `State`: the nine configuration slots, the three global slots and the five
  per-address maps. An address never written reads as 0, as host storage does.
  It also defines the sum of a per-address map and lemmas about it.
- `ledger.dfy` (`Ledger`) — the contract logic of `src/lib.rs` as pure functions:
  - the views `get_reward_per_wei`, `get_earned` and `get_reward_apr`;
  - `update_reward`, and the guards `require_activation` and
    `require_claim_activation`;
  - `init`, `stakeFarm`, `unstakeFarm` and `claimReward`, as transitions that
    return either an error or the new state (plus the outbound transfer for
    unstake and claim). An error leaves storage as it was, because the host
    reverts every write of an aborted transaction.
  - It also defines the ledger invariant `Inv`.
- `admin.dfy` (`Admin`) — the `set_*` setters of `src/state.rs` as one write to
  one configuration slot.
- `properties.dfy` (`Properties`) — what the ledger guarantees:
  - the invariant is kept by every endpoint and by any run of transactions;
  - the accumulator never decreases;
  - `update_reward` is idempotent;
  - strict boundaries of the penalty window and the claim cooldown;
  - a dust bound on rounding for users at the same snapshot, and an over-credit across snapshots;
  - the behaviour of an empty pool;
  - worked scenarios: a sole staker, two stakers sharing a reward, an early unstake.
- `farm.dfy` (`Contract`) — the contract as a class `Farm` with one field per
  storage slot. Every endpoint and setter is a method that writes those fields
  step by step, in the source's order. Aborts that come after earlier writes go
  through `Revert`, which restores the storage of the transaction's start, as
  the host does. Each method is proved equal to its `Ledger`/`Admin`
  transition. The endpoints also keep `Inv`.

Inputs the contract reads from the host are explicit parameters:

- the caller;
- the block timestamp `now`;
- the attached payment;
- the contract's own token balances (`get_sc_balance`), a map from token to
  amount;
- the identifier validity check (`is_valid_esdt_identifier`), as a
  function-valued parameter `isValid`.

The clock is monotone: stake, unstake and claim require `lastUpdateTime <= now`.
BigUint and u64 values are `nat`. A BigUint subtraction in the endpoints that
would go negative panics in the source; the model returns it as the error
`Underflow`.

Behaviour worth knowing, as modelled:

- While the total supply is 0, `get_earned` returns 0. `update_reward` then
  overwrites the pending reward with 0 (`EmptyPoolDiscardsPending`).
- In that state a claim always aborts (`EmptyPoolBlocksClaim`), so the abort
  reverts the zeroing.
- A stake into an empty pool, however, commits it. A sole staker who unstakes
  everything and stakes again loses the reward owed
  (`RestakeIntoEmptyPoolForfeits`).
- `early_unstake_penalty` is not bounded by its setter. Above 10000 basis
  points, the penalty subtraction in `unstakeFarm` can underflow: inside the
  window, when floor(amount × penalty / 10000) exceeds the amount, and the
  transaction then aborts. Otherwise the payout is just smaller, down to 0
  (`PenaltyAboveFullScenario`). On a reachable state this is the only
  underflow (`UnstakeKeepsInv`).
- The accumulator grows by the whole per-block reward, not by the reward per
  staked unit. A user's share is therefore taken against the total supply at
  the time of that user's own sync. Users synced at different total supplies
  can together be credited more than was accrued. Stakers of 1000 and 999000
  at t=0, with 50 per block, accrue 5000 over 100 blocks. If the large staker
  then unstakes everything, they are credited 4995, and the small staker, now
  alone, is owed all 5000 (`OverCreditScenario`). Two users synced to the same
  snapshot are never over-credited (`SharesWithinAccrual`).
- `init` checks that both token identifiers are valid. It does not check that
  the two identifiers differ, so the farming and the reward token may be the
  same. The model follows the code.

## Model

| member | source | states |
|---|---|---|
| `Storage.GetUpdate` | src/state.rs:121-139 | writing one address's per-user slot changes what that address reads and nothing any other address reads |
| `Ledger.Sub` | src/lib.rs:128-137 | BigUint subtraction succeeds exactly when it does not go below zero, and then adds back to the minuend; otherwise it aborts |
| `Ledger.RewardPerWei` | src/lib.rs:209-218 | the accumulator view is never below the stored accumulator; it is frozen when nothing is staked and when no time has passed |
| `Ledger.Earned` | src/lib.rs:221-229 | the earned view is 0 when nothing is staked, and otherwise at least the pending reward |
| `Ledger.EarnedShare` | src/lib.rs:221-229 | the newly earned part is the floor of (accumulator − user snapshot) × balance / total supply |
| `Ledger.RewardApr` | src/lib.rs:232-236 | with a positive total supply, the result is the floor of 10000 × balance / total supply; the source has no guard for a zero total |
| `Ledger.Synced` | src/lib.rs:177-178 | after the first two writes of update_reward, the update time is `now` and the stored accumulator equals the view at `now` |
| `Ledger.UpdateReward` | src/lib.rs:176-182 | succeeds iff the user's snapshot is not ahead of the accumulator; then stores the accumulator, sets the update time to `now`, credits the user with the earned view, moves the user's snapshot to the accumulator, and leaves balances, total supply, timestamps and other users untouched |
| `Ledger.CanAccrue` | src/lib.rs:222 | get_earned's subtraction is safe when the user's snapshot is not ahead of the stored accumulator, and on an empty pool only then |
| `Ledger.InPenaltyWindow` | src/lib.rs:134 | the window is open only strictly before stake time + period; for a stake at or before `now`, open iff fewer than `period` seconds have passed |
| `Ledger.EarnedAfterSync` | src/lib.rs:177-180 | get_earned evaluated after the accumulator and update time are written gives the same value as on the original state |
| `Ledger.RequireActivation` | src/lib.rs:185-190 | passes iff the paused slot holds 0; otherwise fails with "staking is not live" |
| `Ledger.RequireClaimActivation` | src/lib.rs:193-204 | passes iff the pending reward is strictly above the minimum and the last claim time plus the cooldown is strictly below `now`; the threshold check comes first |
| `Ledger.Init` | src/lib.rs:18-48 | rejects an invalid farming and then an invalid reward identifier; on success writes every configuration slot, sets paused to 0 and leaves the ledger slots untouched |
| `Ledger.StakeFarm` | src/lib.rs:73-97 | fails when paused, on a foreign token or below the minimum, in that order; on success the total supply and the caller's balance both grow by exactly the amount, the stake time is `now`, the caller's reward and snapshot are synced, the claim times are unchanged, and no other address's slots change |
| `Ledger.Payout` | src/lib.rs:133-138 | outside the window the payout is the full amount; inside it never exceeds the amount; the only failure is an underflow inside the window |
| `Ledger.PayoutPenalty` | src/lib.rs:136-137 | inside the window the withheld part is the floor of amount × penalty / 10000; with a penalty of at most 10000 the payout never aborts |
| `Ledger.UnstakeAmount` | src/lib.rs:116-126 | an omitted amount means the whole balance; a given amount is accepted iff it does not exceed the balance |
| `Ledger.SettleUnstake` | src/lib.rs:116-145 | succeeds iff the amount fits the balance and the total supply, the penalised payout does not underflow, and the contract holds at least the payout; then the balance and the total drop by the full unpenalised amount and the transfer is the penalised payout of the farming token to the caller |
| `Ledger.UnstakeFarm` | src/lib.rs:100-146 | fails when paused, on a zero balance or when the amount exceeds the balance; succeeds iff live, the balance is positive, the snapshot is not ahead, the amount fits, the penalised payout does not underflow and the contract holds it; then the balance map and the total drop by the amount at the caller only, the payout follows the strict window rule, the caller's reward and snapshot are synced and the stake and claim times are unchanged |
| `Ledger.SettleClaim` | src/lib.rs:157-171 | succeeds iff the claim guards pass and the contract holds at least the reward; then zeroes the pending reward, records `now` as the claim time and transfers the reward token |
| `Ledger.ClaimReward` | src/lib.rs:149-172 | succeeds iff live, the earned reward is strictly above the minimum, the cooldown has strictly elapsed and the contract holds the reward; then pays the whole earned reward, leaves 0 pending, sets the claim time to `now`, marks the caller paid up to the current reward per wei, and changes no other address's reward, claim time or paid mark and no balance |
| `Admin.Assign` | src/state.rs:9-68 | a setter writes exactly its own configuration slot; every other slot keeps its value |
| `Admin.Configure` | src/state.rs:9-68 | the two token-identifier setters reject an invalid identifier; every other setter stores any value without validation |
| `Contract.Farm.constructor` | src/state.rs:70-139 | storage before deployment holds zero in every slot and satisfies the invariant |
| `Contract.Farm.Init` | src/lib.rs:18-48 | the field-by-field writes of init produce the state of `Ledger.Init`, or nothing on a rejected identifier; the invariant is kept |
| `Contract.Farm.SetFarmingTokenId` | src/state.rs:9-16 | writes the farming token slot only, and only for a valid identifier; the invariant is kept |
| `Contract.Farm.SetRewardTokenId` | src/state.rs:20-27 | writes the reward token slot only, and only for a valid identifier; the invariant is kept |
| `Contract.Farm.SetMinStakeLimit` | src/state.rs:31-33 | writes the minimum stake slot only; the invariant is kept |
| `Contract.Farm.SetRewardAmountPerBlock` | src/state.rs:37-39 | writes the reward-per-block slot only; the invariant is kept |
| `Contract.Farm.SetMinClaimAmount` | src/state.rs:42-44 | writes the minimum claim slot only; the invariant is kept |
| `Contract.Farm.SetBetweenClaimTimestamp` | src/state.rs:48-50 | writes the claim cooldown slot only; the invariant is kept |
| `Contract.Farm.SetEarlyUnstakePeriod` | src/state.rs:54-56 | writes the early-unstake period slot only; the invariant is kept |
| `Contract.Farm.SetEarlyUnstakePenalty` | src/state.rs:60-62 | writes the penalty slot only, with no bound of 10000; the invariant is kept |
| `Contract.Farm.SetPaused` | src/state.rs:66-68 | stores the raw u32; the contract is live iff it is 0; the invariant is kept |
| `Contract.Farm.UpdateReward` | src/lib.rs:176-182 | the four storage writes give the state of `Ledger.UpdateReward`; on a state satisfying the invariant they never abort and keep it |
| `Contract.Farm.StakeFarm` | src/lib.rs:73-97 | the writes give `Ledger.StakeFarm`'s state, or restore the entry storage on any abort; the invariant is kept |
| `Contract.Farm.UnstakeFarm` | src/lib.rs:100-146 | the writes give `Ledger.UnstakeFarm`'s state and transfer, or restore the entry storage on any abort; the invariant is kept, and with a penalty of at most 10000 no underflow occurs |
| `Contract.Farm.SettleUnstake` | src/lib.rs:116-143 | resolving the amount, decrementing, penalising and checking liquidity in place matches `Ledger.SettleUnstake`; the invariant is kept |
| `Contract.Farm.DecrementStake` | src/lib.rs:128-131 | the total supply and the caller's balance drop by the same amount and no other slot changes; the invariant is kept |
| `Contract.Farm.TakePenalty` | src/lib.rs:133-138 | the reassignment of the local unstake amount equals `Ledger.Payout` under the strict window test |
| `Contract.Farm.ClaimReward` | src/lib.rs:149-172 | the writes give `Ledger.ClaimReward`'s state and transfer, or restore the entry storage on any abort, including the late liquidity check; the invariant is kept |
| `Contract.Farm.SettleClaim` | src/lib.rs:157-169 | zeroing the reward and writing the claim time before the liquidity check matches `Ledger.SettleClaim`; the invariant is kept |
| `Properties.EmptyInv` | src/state.rs:117-131 | zeroed storage satisfies the invariant |
| `Properties.InvCanAccrue` | src/lib.rs:221-222 | under the invariant a user's snapshot is never ahead of the accumulator, so get_earned's subtraction cannot underflow |
| `Properties.UpdateRewardKeepsInv` | src/lib.rs:176-182 | on a state satisfying the invariant, update_reward never aborts and keeps the invariant |
| `Properties.StakeKeepsInv` | src/lib.rs:93-94 | stake adds the same amount to the total supply and one balance, so total supply = sum of balances is kept |
| `Properties.DecrementStakeKeepsInv` | src/lib.rs:128-131 | taking the same amount, at most the caller's stake, out of both the total supply and the caller's balance keeps the total equal to the sum of the balances |
| `Properties.UnstakeKeepsInv` | src/lib.rs:128-137 | unstake keeps the invariant; its only possible underflow is the penalty subtraction, and it needs a penalty above 10000 |
| `Properties.ClaimKeepsInv` | src/lib.rs:149-172 | claim keeps the invariant and never underflows on a live contract |
| `Properties.NoDoubleCount` | src/lib.rs:176-182 | right after update_reward, the earned view equals the stored pending reward |
| `Properties.UpdateRewardIdempotent` | src/lib.rs:176-182 | a second update_reward at the same `now` returns exactly the state the first one produced |
| `Properties.SubBlockSecondsDropped` | src/lib.rs:176-178 | with fewer than 6 seconds elapsed, update_reward leaves the accumulator as it was but still moves the update time to `now` |
| `Properties.SplitSyncNeverGains` | src/lib.rs:209-218 | syncing at an intermediate time never makes the later accumulator view larger than viewing directly |
| `Properties.EmptyPoolDiscardsPending` | src/lib.rs:224-226 | with nothing staked, update_reward sets the user's pending reward to 0 and leaves the accumulator frozen |
| `Properties.EmptyPoolBlocksClaim` | src/lib.rs:155-159 | with nothing staked, every claim on a live contract fails below the minimum |
| `Properties.RestakeIntoEmptyPoolForfeits` | src/lib.rs:91-94 | a successful stake into an empty pool leaves the staker with 0 pending reward |
| `Properties.SharesWithinAccrual` | src/lib.rs:227 | two users synced to the same snapshot are together owed no more new reward than the accumulator grew; the floor leaves the dust with the contract |
| `Properties.PenaltyWindowBoundary` | src/lib.rs:134-137 | at exactly stake time + period there is no penalty, one second earlier there is, and a penalty that rounds to a positive amount changes the payout |
| `Properties.ClaimCooldownBoundary` | src/lib.rs:200-203 | a claim at exactly last claim + cooldown fails with the cooldown error, even when the reward is large enough; one second later it succeeds when the reward exceeds the minimum and the contract holds it |
| `Properties.Apply` | src/lib.rs:73-172 | one transaction, whether it completes or aborts, moves the update time only to `now` and the stored accumulator only to its view at `now` |
| `Properties.Run` | src/lib.rs:73-172 | over a chronological sequence of transactions the update time never moves backwards |
| `Properties.ApplyKeepsInv` | src/lib.rs:73-172 | every endpoint and every setter keeps the invariant |
| `Properties.RunKeepsInv` | src/lib.rs:93-131 | total supply = sum of balances, and every snapshot ≤ accumulator, hold after any chronological sequence of transactions |
| `Properties.RunAccumulatorMonotone` | src/lib.rs:177 | the stored accumulator never decreases over any chronological sequence of transactions |
| `Properties.ReachableInv` | src/lib.rs:18-48 | every state reached from deployment through init and any transactions satisfies the invariant |
| `Properties.ApplyTouchesOnlyCaller` | src/state.rs:121-139 | a stake, unstake or claim by one address leaves every per-address slot of every other address unchanged |
| `Properties.ConfigureIdempotent` | src/state.rs:9-68 | applying the same setter twice with the same value gives the same state as once |
| `Properties.SoleStakerScenario` | src/lib.rs:73-172 | a sole staker of 1000 at t=0 at 50 per block has earned 100 at t=12, claims it, and is left with 0 pending and claim time 12 |
| `Properties.TwoStakersScenario` | src/lib.rs:221-229 | stakers of 1000 and 3000 share 100 accrued reward as 25 and 75 |
| `Properties.OverCreditScenario` | src/lib.rs:214-227 | stakers of 1000 and 999000; after 5000 accrues and the large staker exits, they are credited 4995 and the small staker is owed 5000, more than was accrued in total |
| `Properties.PenaltyAboveFullScenario` | src/lib.rs:136-137 | a 10001 bps penalty pays 0 on 9999 and underflows on 10000 |
| `Properties.EarlyUnstakeScenario` | src/lib.rs:133-145 | unstaking 1000 inside the window with a 500 bps penalty pays 950 while the balance and total drop by 1000 |

## Left out

- `withdraw` (src/lib.rs:53-68): the owner's sweep of arbitrary tokens. It is a pure transfer with no effect on the ledger.
- Outbound transfers (`send().direct`) are not executed. Unstake and claim return the transfer they would send, as a `Transfer` value.
- Contract balances (`get_sc_balance`) are an input map rather than a host query.
- `is_valid_esdt_identifier` is a host-side string check. It is passed in as the uninterpreted function `isValid`.
- Owner-only access control (`#[only_owner]`) is enforced by the host and is not modelled. Note that `set_min_claim_amount` (src/state.rs:41-44) lacks it in the source, so any caller can change the claim minimum.
- The endpoint table in `wasm/src/lib.rs` is generated code with no logic.
- Fixed-width arithmetic: u64 and BigUint values are unbounded naturals. u64 overflow of `last_stake_times + early_unstake_period` and of `last_claim_times + between_claim_timestamp` is not modelled.
- u64 underflow of `now - last_update_time` is not modelled either: stake, unstake and claim require a monotone clock, `lastUpdateTime <= now`.
- `Ledger.Earned`: the `get_earned` view traps when the user's snapshot is ahead of the accumulator (src/lib.rs:222); the model requires `CanAccrue` instead, which holds on every state that satisfies the invariant (`Properties.InvCanAccrue`) and so on every reachable state (`Properties.ReachableInv`).
- The raw storage getters (`#[view]` accessors on each slot) are plain field reads of `State`.

/**
 * The contract as an object over its storage: one field per storage slot,
 * and one method per endpoint that writes those fields in the order the
 * contract does.  A `require!` that fails after earlier writes aborts the
 * transaction and the host restores storage; `Revert` models that restore.
 * Each method is specified by the corresponding transition of `Ledger` or
 * `Admin` on the state it started from.
 */
module Contract {
  import opened Wrappers
  import opened Storage
  import opened Ledger
  import opened Admin
  import opened Properties

  class Farm {
    /** The nine configuration slots, kept together as one record. */
    var config: Config
    var totalSupply: nat
    var rewardPerWeiStored: nat
    var lastUpdateTime: nat
    var balances: map<Address, nat>
    var rewards: map<Address, nat>
    var userRewardPerWeiPaid: map<Address, nat>
    var lastStakeTimes: map<Address, nat>
    var lastClaimTimes: map<Address, nat>

    /** The content of every storage slot. */
    function Snapshot(): State
      reads this
    {
      State(config, totalSupply, rewardPerWeiStored, lastUpdateTime,
            balances, rewards, userRewardPerWeiPaid, lastStakeTimes, lastClaimTimes)
    }

    /** The ledger invariant holds of the current storage. */
    ghost predicate Valid()
      reads this
    {
      Inv(Snapshot())
    }

    /** Freshly deployed storage: every slot zero, before `init` runs. */
    constructor ()
      ensures Snapshot() == Empty
      ensures Valid()
    {
      config := Empty.config;
      totalSupply, rewardPerWeiStored, lastUpdateTime := 0, 0, 0;
      balances, rewards, userRewardPerWeiPaid := map[], map[], map[];
      lastStakeTimes, lastClaimTimes := map[], map[];
    }

    /** The host's rollback of an aborted transaction: storage returns to `saved`. */
    method Revert(saved: State)
      modifies this
      ensures Snapshot() == saved
    {
      config := saved.config;
      totalSupply, rewardPerWeiStored, lastUpdateTime :=
        saved.totalSupply, saved.rewardPerWeiStored, saved.lastUpdateTime;
      balances, rewards, userRewardPerWeiPaid := saved.balances, saved.rewards, saved.userRewardPerWeiPaid;
      lastStakeTimes, lastClaimTimes := saved.lastStakeTimes, saved.lastClaimTimes;
    }

    /** init: validate both token identifiers, then write the configuration and mark the contract live. */
    method Init(farmingTokenId: TokenId, rewardTokenId: TokenId,
                minStakeLimit: nat, rewardAmountPerBlock: nat, minClaimAmount: nat,
                betweenClaimTimestamp: nat, earlyUnstakePeriod: nat, earlyUnstakePenalty: nat,
                isValid: TokenId -> bool) returns (r: Outcome<Error>)
      modifies this
      ensures var spec := Ledger.Init(old(Snapshot()), farmingTokenId, rewardTokenId, minStakeLimit,
                                      rewardAmountPerBlock, minClaimAmount, betweenClaimTimestamp,
                                      earlyUnstakePeriod, earlyUnstakePenalty, isValid);
        if spec.Ok? then r == Pass && Snapshot() == spec.value
        else r == Fail(spec.error) && Snapshot() == old(Snapshot())
      ensures old(Valid()) ==> Valid()
    {
      if !isValid(farmingTokenId) {
        return Fail(InvalidFarmingTokenId);
      }
      if !isValid(rewardTokenId) {
        return Fail(InvalidRewardTokenId);
      }
      config := config.(farmingTokenId := farmingTokenId);
      config := config.(rewardTokenId := rewardTokenId);
      config := config.(minStakeLimit := minStakeLimit);
      config := config.(rewardAmountPerBlock := rewardAmountPerBlock);
      config := config.(minClaimAmount := minClaimAmount);
      config := config.(betweenClaimTimestamp := betweenClaimTimestamp);
      config := config.(earlyUnstakePeriod := earlyUnstakePeriod);
      config := config.(earlyUnstakePenalty := earlyUnstakePenalty);
      config := config.(paused := 0);
      return Pass;
    }

    // ------------------------------------------------------------ setters

    method SetFarmingTokenId(id: TokenId, isValid: TokenId -> bool) returns (r: Outcome<Error>)
      modifies this
      ensures r == (if isValid(id) then Pass else Fail(InvalidFarmingTokenId))
      ensures Snapshot() == if isValid(id) then old(Snapshot()).(config := Assign(old(config), FarmingTokenId(id))) else old(Snapshot())
      ensures old(Valid()) ==> Valid()
    {
      if !isValid(id) {
        return Fail(InvalidFarmingTokenId);
      }
      config := config.(farmingTokenId := id);
      return Pass;
    }

    method SetRewardTokenId(id: TokenId, isValid: TokenId -> bool) returns (r: Outcome<Error>)
      modifies this
      ensures r == (if isValid(id) then Pass else Fail(InvalidRewardTokenId))
      ensures Snapshot() == if isValid(id) then old(Snapshot()).(config := Assign(old(config), RewardTokenId(id))) else old(Snapshot())
      ensures old(Valid()) ==> Valid()
    {
      if !isValid(id) {
        return Fail(InvalidRewardTokenId);
      }
      config := config.(rewardTokenId := id);
      return Pass;
    }

    method SetMinStakeLimit(amount: nat)
      modifies this
      ensures Snapshot() == old(Snapshot()).(config := Assign(old(config), MinStakeLimit(amount)))
      ensures old(Valid()) ==> Valid()
    {
      config := config.(minStakeLimit := amount);
    }

    method SetRewardAmountPerBlock(amount: nat)
      modifies this
      ensures Snapshot() == old(Snapshot()).(config := Assign(old(config), RewardAmountPerBlock(amount)))
      ensures old(Valid()) ==> Valid()
    {
      config := config.(rewardAmountPerBlock := amount);
    }

    method SetMinClaimAmount(amount: nat)
      modifies this
      ensures Snapshot() == old(Snapshot()).(config := Assign(old(config), MinClaimAmount(amount)))
      ensures old(Valid()) ==> Valid()
    {
      config := config.(minClaimAmount := amount);
    }

    method SetBetweenClaimTimestamp(seconds: nat)
      modifies this
      ensures Snapshot() == old(Snapshot()).(config := Assign(old(config), BetweenClaimTimestamp(seconds)))
      ensures old(Valid()) ==> Valid()
    {
      config := config.(betweenClaimTimestamp := seconds);
    }

    method SetEarlyUnstakePeriod(seconds: nat)
      modifies this
      ensures Snapshot() == old(Snapshot()).(config := Assign(old(config), EarlyUnstakePeriod(seconds)))
      ensures old(Valid()) ==> Valid()
    {
      config := config.(earlyUnstakePeriod := seconds);
    }

    method SetEarlyUnstakePenalty(bps: nat)
      modifies this
      ensures Snapshot() == old(Snapshot()).(config := Assign(old(config), EarlyUnstakePenalty(bps)))
      ensures old(Valid()) ==> Valid()
    {
      config := config.(earlyUnstakePenalty := bps);
    }

    method SetPaused(flag: U32)
      modifies this
      ensures Snapshot() == old(Snapshot()).(config := Assign(old(config), Paused(flag)))
      ensures config.Live() <==> flag == 0
      ensures old(Valid()) ==> Valid()
    {
      config := config.(paused := flag);
    }

    // ------------------------------------------------------------ reward synchronisation

    /**
     * update_reward: write the accumulator and the update time, then credit
     * the user and move its snapshot.  If get_earned's subtraction would
     * underflow, the call aborts after the first two writes.
     */
    method UpdateReward(user: Address, now: nat) returns (r: Outcome<Error>)
      requires lastUpdateTime <= now
      modifies this
      ensures var spec := Ledger.UpdateReward(old(Snapshot()), user, now);
        if spec.Ok? then r == Pass && Snapshot() == spec.value
        else r == Fail(Underflow) && Snapshot() == Synced(old(Snapshot()), now)
      ensures old(Valid()) ==> r == Pass && Valid()
    {
      ghost var entry := Snapshot();
      if Valid() {
        UpdateRewardKeepsInv(entry, user, now);
      }
      rewardPerWeiStored := RewardPerWei(Snapshot(), now);
      lastUpdateTime := now;
      if !CanAccrue(Snapshot(), user, now) {
        return Fail(Underflow);
      }
      var earned := Earned(Snapshot(), user, now);
      rewards := rewards[user := earned];
      userRewardPerWeiPaid := userRewardPerWeiPaid[user := rewardPerWeiStored];
      return Pass;
    }

    // ------------------------------------------------------------ endpoints

    /** stakeFarm, with the attached payment given as `payment`. */
    method StakeFarm(caller: Address, now: nat, payment: Payment) returns (r: Outcome<Error>)
      requires lastUpdateTime <= now
      modifies this
      ensures var spec := Ledger.StakeFarm(old(Snapshot()), caller, now, payment);
        if spec.Ok? then r == Pass && Snapshot() == spec.value
        else r == Fail(spec.error) && Snapshot() == old(Snapshot())
      ensures old(Valid()) ==> Valid()
    {
      var entry := Snapshot();
      if Valid() && Ledger.StakeFarm(entry, caller, now, payment).Ok? {
        StakeKeepsInv(entry, caller, now, payment);
      }
      var active := RequireActivation(config);
      if active.Fail? {
        return Fail(active.error);
      }
      if payment.token != config.farmingTokenId {
        return Fail(InvalidFarmingTokenId);
      }
      if payment.amount < config.minStakeLimit {
        return Fail(StakeBelowMinimum);
      }
      r := UpdateReward(caller, now);
      if r.Fail? {
        Revert(entry);
        return;
      }
      totalSupply := totalSupply + payment.amount;
      balances := balances[caller := Get(balances, caller) + payment.amount];
      lastStakeTimes := lastStakeTimes[caller := now];
    }

    /**
     * unstakeFarm: the balance and the total supply drop by the requested
     * amount before the penalty is taken and before the liquidity check; an
     * abort at either point rolls those writes back.
     */
    method UnstakeFarm(caller: Address, now: nat, requested: Option<nat>, scBalances: map<TokenId, nat>)
      returns (r: Result<Transfer, Error>)
      requires lastUpdateTime <= now
      modifies this
      ensures var spec := Ledger.UnstakeFarm(old(Snapshot()), caller, now, requested, scBalances);
        if spec.Ok? then r == Ok(spec.value.sent) && Snapshot() == spec.value.state
        else r == Err(spec.error) && Snapshot() == old(Snapshot())
      ensures old(Valid()) ==> Valid()
      ensures old(Valid()) && old(config.earlyUnstakePenalty) <= MAX_PERCENT ==> r != Err(Underflow)
    {
      var entry := Snapshot();
      ghost var wasValid := Valid();
      var active := RequireActivation(config);
      if active.Fail? {
        return Err(active.error);
      }
      if Get(balances, caller) == 0 {
        return Err(ZeroBalance);
      }
      var synced := UpdateReward(caller, now);
      if synced.Fail? {
        Revert(entry);
        return Err(synced.error);
      }
      assert Ledger.UnstakeFarm(entry, caller, now, requested, scBalances)
          == Ledger.SettleUnstake(Snapshot(), caller, now, requested, scBalances);
      r := SettleUnstake(caller, now, requested, scBalances);
      if r.Err? {
        Revert(entry);
      }
      if wasValid && entry.config.earlyUnstakePenalty <= MAX_PERCENT {
        UnstakeKeepsInv(entry, caller, now, requested, scBalances);
      }
    }

    /** The part of unstakeFarm after update_reward; when it aborts, unstakeFarm restores storage. */
    method SettleUnstake(caller: Address, now: nat, requested: Option<nat>, scBalances: map<TokenId, nat>)
      returns (r: Result<Transfer, Error>)
      modifies this
      ensures var spec := Ledger.SettleUnstake(old(Snapshot()), caller, now, requested, scBalances);
        && (spec.Ok? ==> r == Ok(spec.value.sent) && Snapshot() == spec.value.state)
        && (spec.Err? ==> r == Err(spec.error))
      ensures old(Valid()) ==> Valid()
    {
      var unstakeAmount: nat;
      match requested {
        case Some(value) =>
          if Get(balances, caller) < value {
            return Err(UnstakeExceedsBalance);
          }
          unstakeAmount := value;
        case None =>
          unstakeAmount := Get(balances, caller);
      }
      if totalSupply < unstakeAmount {
        return Err(Underflow);
      }
      DecrementStake(caller, unstakeAmount);
      var payout := TakePenalty(caller, now, unstakeAmount);
      if payout.Err? {
        return Err(payout.error);
      }
      if BalanceOf(scBalances, config.farmingTokenId) < payout.value {
        return Err(NotEnoughStakingTokens);
      }
      return Ok(Transfer(caller, config.farmingTokenId, payout.value));
    }

    /** The stake leaves the pool total and the caller's balance together. */
    method DecrementStake(caller: Address, amount: nat)
      requires amount <= Get(balances, caller) && amount <= totalSupply
      modifies this
      ensures Snapshot() == old(Snapshot()).(totalSupply := old(totalSupply) - amount,
                                             balances := old(balances)[caller := Get(old(balances), caller) - amount])
      ensures old(Valid()) ==> Valid()
    {
      if Valid() {
        DecrementStakeKeepsInv(Snapshot(), caller, amount);
      }
      totalSupply := totalSupply - amount;
      balances := balances[caller := Get(balances, caller) - amount];
    }

    /** The early-unstake penalty step of unstakeFarm: inside the window the payout is reduced. */
    method TakePenalty(caller: Address, now: nat, amount: nat) returns (r: Result<nat, Error>)
      ensures r == Payout(amount, config.earlyUnstakePenalty, InPenaltyWindow(Snapshot(), caller, now))
    {
      var unstakeAmount := amount;
      if Get(lastStakeTimes, caller) + config.earlyUnstakePeriod > now {
        var penaltyAmount := unstakeAmount * config.earlyUnstakePenalty / MAX_PERCENT;
        if unstakeAmount < penaltyAmount {
          return Err(Underflow);
        }
        unstakeAmount := unstakeAmount - penaltyAmount;
      }
      return Ok(unstakeAmount);
    }

    /** claimReward: the pending reward is zeroed and the claim time written before the liquidity check. */
    method ClaimReward(caller: Address, now: nat, scBalances: map<TokenId, nat>) returns (r: Result<Transfer, Error>)
      requires lastUpdateTime <= now
      modifies this
      ensures var spec := Ledger.ClaimReward(old(Snapshot()), caller, now, scBalances);
        if spec.Ok? then r == Ok(spec.value.sent) && Snapshot() == spec.value.state
        else r == Err(spec.error) && Snapshot() == old(Snapshot())
      ensures old(Valid()) ==> Valid() && r != Err(Underflow)
    {
      var entry := Snapshot();
      if Valid() {
        ClaimKeepsInv(entry, caller, now, scBalances);
      }
      var active := RequireActivation(config);
      if active.Fail? {
        return Err(active.error);
      }
      var synced := UpdateReward(caller, now);
      if synced.Fail? {
        Revert(entry);
        return Err(synced.error);
      }
      r := SettleClaim(caller, now, scBalances);
      if r.Err? {
        Revert(entry);
      }
    }

    /** The part of claimReward after update_reward; when it aborts, claimReward restores storage. */
    method SettleClaim(caller: Address, now: nat, scBalances: map<TokenId, nat>) returns (r: Result<Transfer, Error>)
      modifies this
      ensures var spec := Ledger.SettleClaim(old(Snapshot()), caller, now, scBalances);
        && (spec.Ok? ==> r == Ok(spec.value.sent) && Snapshot() == spec.value.state)
        && (spec.Err? ==> r == Err(spec.error))
      ensures old(Valid()) ==> Valid()
    {
      var rewardAmount := Get(rewards, caller);
      var eligible := RequireClaimActivation(Snapshot(), caller, now);
      if eligible.Fail? {
        return Err(eligible.error);
      }
      rewards := rewards[caller := Get(rewards, caller) - rewardAmount];
      lastClaimTimes := lastClaimTimes[caller := now];
      if BalanceOf(scBalances, config.rewardTokenId) < rewardAmount {
        return Err(NotEnoughRewardTokens);
      }
      return Ok(Transfer(caller, config.rewardTokenId, rewardAmount));
    }
  }
}

/**
 * The reward engine of the farming contract as pure functions of the storage
 * state: the three views, the reward synchronisation and the stake, unstake,
 * claim and init endpoints as transitions.  An endpoint either aborts with an
 * error, in which case the host discards all of its writes, or yields the new
 * state (and, for unstake and claim, the outbound transfer).
 *
 * The block timestamp `now`, the caller, the attached payment and the
 * contract's own token balances are explicit inputs.  The clock is monotone:
 * every operation requires `lastUpdateTime <= now`.
 */
module Ledger {
  import opened Wrappers
  import opened Storage

  /** Seconds per block. */
  const BLOCK_TIMES: nat := 6
  /** 100% in basis points. */
  const MAX_PERCENT: nat := 10000

  datatype Error =
    | NotLive                 // "staking is not live"
    | InvalidFarmingTokenId   // "invalid farming_token_id"
    | InvalidRewardTokenId    // "invalid reward_token_id"
    | StakeBelowMinimum       // "cannot stake less than min_stake_limit"
    | ZeroBalance             // "zero balance"
    | UnstakeExceedsBalance   // "unstake_amount cannot be greater than balance"
    | NotEnoughStakingTokens  // "not enough staking tokens in smart contract"
    | ClaimBelowMinimum       // "can not claim less than min_claim_amount"
    | ClaimTooEarly           // "can claim after between_claim_timestamp"
    | NotEnoughRewardTokens   // "not enough rewarding tokens in smart contract"
    | Underflow               // a BigUint subtraction whose result would be negative

  /** The token and amount attached to a payable call. */
  datatype Payment = Payment(token: TokenId, amount: nat)

  /** An outbound transfer the contract asks the host to perform. */
  datatype Transfer = Transfer(to: Address, token: TokenId, amount: nat)

  /** A completed endpoint that pays out: the new state and the transfer it sends. */
  datatype Receipt = Receipt(state: State, sent: Transfer)

  /** The contract's own balance of token `t`, as the host reports it (0 when absent). */
  function BalanceOf(scBalances: map<TokenId, nat>, t: TokenId): nat {
    if t in scBalances then scBalances[t] else 0
  }

  /** BigUint subtraction, which aborts the transaction instead of going negative. */
  function Sub(a: nat, b: nat): (r: Result<nat, Error>)
    ensures r.Ok? <==> b <= a
    ensures r.Ok? ==> r.value + b == a
    ensures r.Err? ==> r.error == Underflow
  {
    if b <= a then Ok(a - b) else Err(Underflow)
  }

  /** BigUint division, which rounds down. */
  function Div(a: nat, d: nat): nat
    requires d > 0
  {
    a / d
  }

  /** The quotient is the largest q with q * d <= a. */
  lemma DivBounds(a: nat, d: nat)
    requires d > 0
    ensures Div(a, d) * d <= a < (Div(a, d) + 1) * d
  {
    assert a == (a / d) * d + a % d;
  }

  // ---------------------------------------------------------------- views

  /**
   * The reward-per-wei accumulator as of `now`: frozen while nothing is
   * staked, otherwise advanced by the reward of every whole 6-second block
   * since the last update.
   */
  function RewardPerWei(s: State, now: nat): (r: nat)
    requires s.lastUpdateTime <= now
    ensures s.rewardPerWeiStored <= r
    ensures s.totalSupply == 0 ==> r == s.rewardPerWeiStored
    ensures now == s.lastUpdateTime ==> r == s.rewardPerWeiStored
  {
    if s.totalSupply == 0 then
      s.rewardPerWeiStored
    else
      var blockDelta := (now - s.lastUpdateTime) / BLOCK_TIMES;
      s.rewardPerWeiStored + blockDelta * s.config.rewardAmountPerBlock
  }

  /** get_earned subtracts the user's paid snapshot from the accumulator; this is when that cannot underflow. */
  function CanAccrue(s: State, u: Address, now: nat): (ok: bool)
    requires s.lastUpdateTime <= now
    ensures Get(s.userRewardPerWeiPaid, u) <= s.rewardPerWeiStored ==> ok
    ensures s.totalSupply == 0 ==> (ok <==> Get(s.userRewardPerWeiPaid, u) <= s.rewardPerWeiStored)
  {
    Get(s.userRewardPerWeiPaid, u) <= RewardPerWei(s, now)
  }

  /**
   * The reward `u` has earned as of `now`: the pending reward plus the
   * floor of the user's share (balance over total supply) of the accumulator
   * growth since the user's snapshot; 0 when nothing is staked.
   */
  function Earned(s: State, u: Address, now: nat): (r: nat)
    requires s.lastUpdateTime <= now
    requires CanAccrue(s, u, now)
    ensures s.totalSupply == 0 ==> r == 0
    ensures s.totalSupply > 0 ==> Get(s.rewards, u) <= r
  {
    var delta := RewardPerWei(s, now) - Get(s.userRewardPerWeiPaid, u);
    if s.totalSupply == 0 then
      0
    else
      Div(delta * Get(s.balances, u), s.totalSupply) + Get(s.rewards, u)
  }

  /** The newly earned part of Earned is the floor of the user's share of the accumulator growth. */
  lemma EarnedShare(s: State, u: Address, now: nat)
    requires s.lastUpdateTime <= now
    requires CanAccrue(s, u, now)
    requires s.totalSupply > 0
    ensures var share := Earned(s, u, now) - Get(s.rewards, u);
            var owed := (RewardPerWei(s, now) - Get(s.userRewardPerWeiPaid, u)) * Get(s.balances, u);
            share * s.totalSupply <= owed < (share + 1) * s.totalSupply
  {
    var owed := (RewardPerWei(s, now) - Get(s.userRewardPerWeiPaid, u)) * Get(s.balances, u);
    assert Earned(s, u, now) - Get(s.rewards, u) == Div(owed, s.totalSupply);
    DivBounds(owed, s.totalSupply);
  }

  /**
   * The user's share of the total supply in basis points (floor).  The
   * source divides by the total supply without a guard, so the view traps
   * when nothing is staked.
   */
  function RewardApr(s: State, u: Address): (r: nat)
    requires s.totalSupply > 0
    ensures r * s.totalSupply <= MAX_PERCENT * Get(s.balances, u) < (r + 1) * s.totalSupply
  {
    DivBounds(MAX_PERCENT * Get(s.balances, u), s.totalSupply);
    Div(MAX_PERCENT * Get(s.balances, u), s.totalSupply)
  }

  // ---------------------------------------------------------------- reward synchronisation

  /** The state after update_reward has written the accumulator and the update time. */
  function Synced(s: State, now: nat): (t: State)
    requires s.lastUpdateTime <= now
    ensures t.lastUpdateTime == now
    ensures RewardPerWei(t, now) == t.rewardPerWeiStored == RewardPerWei(s, now)
  {
    s.(rewardPerWeiStored := RewardPerWei(s, now), lastUpdateTime := now)
  }

  /**
   * update_reward(u): bring the accumulator up to `now`, credit `u` with what
   * it has earned and move its snapshot to the accumulator.  get_earned is
   * evaluated after the accumulator and the update time were written.
   */
  function UpdateReward(s: State, u: Address, now: nat): (r: Result<State, Error>)
    requires s.lastUpdateTime <= now
    ensures r.Ok? <==> CanAccrue(s, u, now)
    ensures r.Err? ==> r.error == Underflow
    ensures r.Ok? ==>
      var t := r.value;
      && t.rewardPerWeiStored == RewardPerWei(s, now)
      && t.lastUpdateTime == now
      && Get(t.rewards, u) == Earned(s, u, now)
      && Get(t.userRewardPerWeiPaid, u) == t.rewardPerWeiStored
      && s.config == t.config
      && t.totalSupply == s.totalSupply
      && t.balances == s.balances
      && t.lastStakeTimes == s.lastStakeTimes
      && t.lastClaimTimes == s.lastClaimTimes
      && (forall v :: v != u ==> SameUserSlots(s, t, v))
  {
    var synced := Synced(s, now);
    if !CanAccrue(synced, u, now) then
      Err(Underflow)
    else
      EarnedAfterSync(s, u, now);
      var earned := Earned(synced, u, now);
      Ok(synced.(rewards := synced.rewards[u := earned],
                 userRewardPerWeiPaid := synced.userRewardPerWeiPaid[u := synced.rewardPerWeiStored]))
  }

  /** Writing the accumulator and the update time does not change what the views report. */
  lemma EarnedAfterSync(s: State, u: Address, now: nat)
    requires s.lastUpdateTime <= now
    ensures CanAccrue(Synced(s, now), u, now) == CanAccrue(s, u, now)
    ensures CanAccrue(s, u, now) ==> Earned(Synced(s, now), u, now) == Earned(s, u, now)
  {
  }

  // ---------------------------------------------------------------- guards

  /** require_activation: the endpoint proceeds only while the paused slot holds 0. */
  function RequireActivation(c: Config): (r: Outcome<Error>)
    ensures r.Pass? <==> c.paused == 0
    ensures r.Fail? ==> r.error == NotLive
  {
    if c.paused == 0 then Pass else Fail(NotLive)
  }

  /**
   * require_claim_activation: the pending reward must exceed the minimum and
   * the cooldown must have fully elapsed; both comparisons are strict.
   */
  function RequireClaimActivation(t: State, u: Address, now: nat): (r: Outcome<Error>)
    ensures r.Pass? <==>
      Get(t.rewards, u) > t.config.minClaimAmount && Get(t.lastClaimTimes, u) + t.config.betweenClaimTimestamp < now
    ensures Get(t.rewards, u) <= t.config.minClaimAmount ==> r == Fail(ClaimBelowMinimum)
    ensures (Get(t.rewards, u) > t.config.minClaimAmount
             && now <= Get(t.lastClaimTimes, u) + t.config.betweenClaimTimestamp) ==> r == Fail(ClaimTooEarly)
  {
    if !(Get(t.rewards, u) > t.config.minClaimAmount) then Fail(ClaimBelowMinimum)
    else if !(Get(t.lastClaimTimes, u) + t.config.betweenClaimTimestamp < now) then Fail(ClaimTooEarly)
    else Pass
  }

  // ---------------------------------------------------------------- endpoints

  /**
   * init: store the configuration (rejecting invalid token identifiers) and
   * mark the contract live.  The accounting slots are not written.
   */
  function Init(s: State, farmingTokenId: TokenId, rewardTokenId: TokenId,
                minStakeLimit: nat, rewardAmountPerBlock: nat, minClaimAmount: nat,
                betweenClaimTimestamp: nat, earlyUnstakePeriod: nat, earlyUnstakePenalty: nat,
                isValid: TokenId -> bool): (r: Result<State, Error>)
    ensures !isValid(farmingTokenId) ==> r == Err(InvalidFarmingTokenId)
    ensures isValid(farmingTokenId) && !isValid(rewardTokenId) ==> r == Err(InvalidRewardTokenId)
    ensures r.Ok? <==> isValid(farmingTokenId) && isValid(rewardTokenId)
    ensures r.Ok? ==>
      && SameLedger(s, r.value)
      && r.value.config.Live()
      && r.value.config.farmingTokenId == farmingTokenId && r.value.config.rewardTokenId == rewardTokenId
      && r.value.config.minStakeLimit == minStakeLimit && r.value.config.rewardAmountPerBlock == rewardAmountPerBlock
      && r.value.config.minClaimAmount == minClaimAmount && r.value.config.betweenClaimTimestamp == betweenClaimTimestamp
      && r.value.config.earlyUnstakePeriod == earlyUnstakePeriod && r.value.config.earlyUnstakePenalty == earlyUnstakePenalty
  {
    if !isValid(farmingTokenId) then Err(InvalidFarmingTokenId)
    else if !isValid(rewardTokenId) then Err(InvalidRewardTokenId)
    else
      Ok(s.(config := Config(farmingTokenId, rewardTokenId, minStakeLimit, rewardAmountPerBlock,
                             minClaimAmount, betweenClaimTimestamp, earlyUnstakePeriod,
                             earlyUnstakePenalty, 0)))
  }

  /** stakeFarm: accept an attached payment of the farming token of at least the minimum. */
  function StakeFarm(s: State, caller: Address, now: nat, payment: Payment): (r: Result<State, Error>)
    requires s.lastUpdateTime <= now
    ensures !s.config.Live() ==> r == Err(NotLive)
    ensures s.config.Live() && payment.token != s.config.farmingTokenId ==> r == Err(InvalidFarmingTokenId)
    ensures s.config.Live() && payment.token == s.config.farmingTokenId && payment.amount < s.config.minStakeLimit
            ==> r == Err(StakeBelowMinimum)
    ensures r.Ok? <==>
      s.config.Live() && payment.token == s.config.farmingTokenId && payment.amount >= s.config.minStakeLimit
      && CanAccrue(s, caller, now)
    ensures r.Ok? ==>
      var t := r.value;
      && t.totalSupply == s.totalSupply + payment.amount
      && Get(t.balances, caller) == Get(s.balances, caller) + payment.amount
      && t.balances == s.balances[caller := Get(s.balances, caller) + payment.amount]
      && t.lastStakeTimes == s.lastStakeTimes[caller := now]
      && t.rewards == s.rewards[caller := Earned(s, caller, now)]
      && t.userRewardPerWeiPaid == s.userRewardPerWeiPaid[caller := RewardPerWei(s, now)]
      && t.rewardPerWeiStored == RewardPerWei(s, now)
      && t.lastUpdateTime == now
      && t.lastClaimTimes == s.lastClaimTimes
      && s.config == t.config
  {
    if RequireActivation(s.config).Fail? then Err(NotLive)
    else if payment.token != s.config.farmingTokenId then Err(InvalidFarmingTokenId)
    else if payment.amount < s.config.minStakeLimit then Err(StakeBelowMinimum)
    else
      var t :- UpdateReward(s, caller, now);
      Ok(t.(totalSupply := t.totalSupply + payment.amount,
            balances := t.balances[caller := Get(t.balances, caller) + payment.amount],
            lastStakeTimes := t.lastStakeTimes[caller := now]))
  }

  /** The early-unstake window of `u` is still open at `now` (strict comparison). */
  function InPenaltyWindow(s: State, u: Address, now: nat): (early: bool)
    ensures early ==> now < Get(s.lastStakeTimes, u) + s.config.earlyUnstakePeriod
    ensures Get(s.lastStakeTimes, u) <= now ==>
      (early <==> now - Get(s.lastStakeTimes, u) < s.config.earlyUnstakePeriod)
  {
    Get(s.lastStakeTimes, u) + s.config.earlyUnstakePeriod > now
  }

  /** The amount paid out for unstaking `amount`, after the early-unstake penalty when it applies. */
  function Payout(amount: nat, penaltyBps: nat, early: bool): (r: Result<nat, Error>)
    ensures !early ==> r == Ok(amount)
    ensures r.Ok? ==> r.value <= amount
    ensures r.Err? ==> early && r.error == Underflow
  {
    if early then
      var penaltyAmount := Div(amount * penaltyBps, MAX_PERCENT);
      Sub(amount, penaltyAmount)
    else
      Ok(amount)
  }

  /**
   * Inside the window the contract withholds the floor of `penaltyBps`
   * basis points of the amount; with a penalty of at most 100% the payout
   * never aborts.
   */
  lemma PayoutPenalty(amount: nat, penaltyBps: nat)
    ensures penaltyBps <= MAX_PERCENT ==> Payout(amount, penaltyBps, true).Ok?
    ensures var r := Payout(amount, penaltyBps, true);
      r.Ok? ==>
        var withheld := amount - r.value;
        withheld * MAX_PERCENT <= amount * penaltyBps < (withheld + 1) * MAX_PERCENT
  {
    DivBounds(amount * penaltyBps, MAX_PERCENT);
    if penaltyBps <= MAX_PERCENT {
      assert amount * penaltyBps <= amount * MAX_PERCENT;
    }
  }

  /** The amount an unstake call takes off the books: the requested amount, or the whole balance. */
  function UnstakeAmount(s: State, caller: Address, requested: Option<nat>): (r: Result<nat, Error>)
    ensures r.Ok? <==> (requested.None? || requested.value <= Get(s.balances, caller))
    ensures r.Ok? ==> r.value <= Get(s.balances, caller)
    ensures r.Ok? ==> r.value == requested.GetOr(Get(s.balances, caller))
    ensures r.Err? ==> r.error == UnstakeExceedsBalance
  {
    match requested
    case Some(value) =>
      if Get(s.balances, caller) >= value then Ok(value) else Err(UnstakeExceedsBalance)
    case None => Ok(Get(s.balances, caller))
  }

  /**
   * The part of unstakeFarm after update_reward: resolve the amount, take it
   * off the books, apply the early-unstake penalty to the payout and check
   * the contract's farming-token balance.
   */
  function SettleUnstake(t: State, caller: Address, now: nat, requested: Option<nat>,
                    scBalances: map<TokenId, nat>): (r: Result<Receipt, Error>)
    ensures requested.Some? && requested.value > Get(t.balances, caller) ==> r == Err(UnstakeExceedsBalance)
    ensures var amount := requested.GetOr(Get(t.balances, caller));
      var payout := Payout(amount, t.config.earlyUnstakePenalty, InPenaltyWindow(t, caller, now));
      r.Ok? <==>
        && amount <= Get(t.balances, caller)
        && amount <= t.totalSupply
        && payout.Ok?
        && payout.value <= BalanceOf(scBalances, t.config.farmingTokenId)
    ensures r.Ok? ==>
      var amount := requested.GetOr(Get(t.balances, caller));
      var t' := r.value.state;
      && amount <= Get(t.balances, caller)
      && t'.totalSupply + amount == t.totalSupply
      && t'.balances == t.balances[caller := Get(t.balances, caller) - amount]
      && Payout(amount, t.config.earlyUnstakePenalty, InPenaltyWindow(t, caller, now)) == Ok(r.value.sent.amount)
      && r.value.sent.to == caller && r.value.sent.token == t.config.farmingTokenId
      && r.value.sent.amount <= BalanceOf(scBalances, t.config.farmingTokenId)
      && t' == t.(totalSupply := t'.totalSupply, balances := t'.balances)
  {
    var amount :- UnstakeAmount(t, caller, requested);
    var totalSupply :- Sub(t.totalSupply, amount);
    var t' := t.(totalSupply := totalSupply,
                 balances := t.balances[caller := Get(t.balances, caller) - amount]);
    var payout :- Payout(amount, t'.config.earlyUnstakePenalty, InPenaltyWindow(t', caller, now));
    if BalanceOf(scBalances, t'.config.farmingTokenId) >= payout then
      Ok(Receipt(t', Transfer(caller, t'.config.farmingTokenId, payout)))
    else
      Err(NotEnoughStakingTokens)
  }

  /**
   * unstakeFarm: take `amount` (default: the whole balance) off the caller's
   * balance and the total supply, then pay it out less the early-unstake
   * penalty, provided the contract holds enough farming tokens.
   */
  function UnstakeFarm(s: State, caller: Address, now: nat, requested: Option<nat>,
                       scBalances: map<TokenId, nat>): (r: Result<Receipt, Error>)
    requires s.lastUpdateTime <= now
    ensures !s.config.Live() ==> r == Err(NotLive)
    ensures s.config.Live() && Get(s.balances, caller) == 0 ==> r == Err(ZeroBalance)
    ensures s.config.Live() && Get(s.balances, caller) > 0 && CanAccrue(s, caller, now)
            && requested.Some? && requested.value > Get(s.balances, caller)
            ==> r == Err(UnstakeExceedsBalance)
    ensures var amount := requested.GetOr(Get(s.balances, caller));
      var payout := Payout(amount, s.config.earlyUnstakePenalty, InPenaltyWindow(s, caller, now));
      r.Ok? <==>
        && s.config.Live()
        && Get(s.balances, caller) > 0
        && CanAccrue(s, caller, now)
        && amount <= Get(s.balances, caller)
        && amount <= s.totalSupply
        && payout.Ok?
        && payout.value <= BalanceOf(scBalances, s.config.farmingTokenId)
    ensures r.Ok? ==>
      var amount := requested.GetOr(Get(s.balances, caller));
      var t := r.value.state;
      && s.config.Live() && 0 < Get(s.balances, caller) && amount <= Get(s.balances, caller)
      && CanAccrue(s, caller, now)
      && t.totalSupply + amount == s.totalSupply
      && t.balances == s.balances[caller := Get(s.balances, caller) - amount]
      && t.rewards == s.rewards[caller := Earned(s, caller, now)]
      && t.userRewardPerWeiPaid == s.userRewardPerWeiPaid[caller := RewardPerWei(s, now)]
      && Payout(amount, s.config.earlyUnstakePenalty, InPenaltyWindow(s, caller, now)) == Ok(r.value.sent.amount)
      && r.value.sent.to == caller && r.value.sent.token == s.config.farmingTokenId
      && r.value.sent.amount <= BalanceOf(scBalances, s.config.farmingTokenId)
      && Get(t.rewards, caller) == Earned(s, caller, now)
      && t.rewardPerWeiStored == RewardPerWei(s, now)
      && t.lastUpdateTime == now
      && t.lastStakeTimes == s.lastStakeTimes
      && t.lastClaimTimes == s.lastClaimTimes
      && s.config == t.config
  {
    if RequireActivation(s.config).Fail? then Err(NotLive)
    else if Get(s.balances, caller) == 0 then Err(ZeroBalance)
    else
      var synced :- UpdateReward(s, caller, now);
      SettleUnstake(synced, caller, now, requested, scBalances)
  }

  /**
   * The part of claimReward after update_reward: check the threshold and the
   * cooldown, zero the pending reward, record the claim time and check the
   * contract's reward-token balance.
   */
  function SettleClaim(t: State, caller: Address, now: nat, scBalances: map<TokenId, nat>)
    : (r: Result<Receipt, Error>)
    ensures Get(t.rewards, caller) <= t.config.minClaimAmount ==> r == Err(ClaimBelowMinimum)
    ensures Get(t.rewards, caller) > t.config.minClaimAmount
            && Get(t.lastClaimTimes, caller) + t.config.betweenClaimTimestamp >= now
            ==> r == Err(ClaimTooEarly)
    ensures r.Ok? <==>
      && Get(t.rewards, caller) > t.config.minClaimAmount
      && Get(t.lastClaimTimes, caller) + t.config.betweenClaimTimestamp < now
      && BalanceOf(scBalances, t.config.rewardTokenId) >= Get(t.rewards, caller)
    ensures r.Ok? ==>
      && r.value.sent == Transfer(caller, t.config.rewardTokenId, Get(t.rewards, caller))
      && r.value.state == t.(rewards := t.rewards[caller := 0], lastClaimTimes := t.lastClaimTimes[caller := now])
  {
    var rewardAmount := Get(t.rewards, caller);
    match RequireClaimActivation(t, caller, now)
    case Fail(e) => Err(e)
    case Pass =>
      var t' := t.(rewards := t.rewards[caller := rewardAmount - rewardAmount],
                   lastClaimTimes := t.lastClaimTimes[caller := now]);
      if BalanceOf(scBalances, t'.config.rewardTokenId) >= rewardAmount then
        Ok(Receipt(t', Transfer(caller, t'.config.rewardTokenId, rewardAmount)))
      else
        Err(NotEnoughRewardTokens)
  }

  /**
   * claimReward: pay out the caller's whole pending reward once it exceeds
   * the minimum and the cooldown since the last claim has fully elapsed.
   */
  function ClaimReward(s: State, caller: Address, now: nat, scBalances: map<TokenId, nat>)
    : (r: Result<Receipt, Error>)
    requires s.lastUpdateTime <= now
    ensures !s.config.Live() ==> r == Err(NotLive)
    ensures r.Ok? <==>
      && s.config.Live()
      && CanAccrue(s, caller, now)
      && Earned(s, caller, now) > s.config.minClaimAmount
      && Get(s.lastClaimTimes, caller) + s.config.betweenClaimTimestamp < now
      && BalanceOf(scBalances, s.config.rewardTokenId) >= Earned(s, caller, now)
    ensures r.Ok? ==>
      var t := r.value.state;
      && r.value.sent == Transfer(caller, s.config.rewardTokenId, Earned(s, caller, now))
      && t.rewards == s.rewards[caller := 0]
      && t.lastClaimTimes == s.lastClaimTimes[caller := now]
      && t.userRewardPerWeiPaid == s.userRewardPerWeiPaid[caller := RewardPerWei(s, now)]
      && t.rewardPerWeiStored == RewardPerWei(s, now)
      && t.lastUpdateTime == now
      && t.totalSupply == s.totalSupply
      && t.balances == s.balances
      && t.lastStakeTimes == s.lastStakeTimes
      && s.config == t.config
  {
    if RequireActivation(s.config).Fail? then Err(NotLive)
    else
      var synced :- UpdateReward(s, caller, now);
      SettleClaim(synced, caller, now, scBalances)
  }

  // ---------------------------------------------------------------- invariant

  /**
   * The invariant of every reachable state: the total supply is the sum of
   * the balances, and no user's snapshot is ahead of the accumulator.
   */
  ghost predicate Inv(s: State) {
    && s.totalSupply == Sum(s.balances)
    && forall u :: u in s.userRewardPerWeiPaid ==> s.userRewardPerWeiPaid[u] <= s.rewardPerWeiStored
  }
}

/**
 * What the reward engine guarantees: the ledger invariant (total supply is
 * the sum of the balances, no snapshot ahead of the accumulator) holds in
 * every reachable state, the accumulator never decreases, synchronisation
 * is idempotent, the penalty and claim windows have strict boundaries, and
 * two users synchronised to the same snapshot are never owed more than was
 * accrued since it.  Users synchronised at different total supplies can be:
 * the accumulator is not divided by the total supply (OverCreditScenario).
 */
module Properties {
  import opened Wrappers
  import opened Storage
  import opened Ledger
  import opened Admin

  // ---------------------------------------------------------------- the invariant, call by call

  /** Freshly deployed storage satisfies the invariant. */
  lemma EmptyInv()
    ensures Inv(Empty)
  {
    assert Sum(map[]) == 0;
  }

  /** A snapshot is never ahead of the accumulator, so get_earned's subtraction cannot underflow. */
  lemma InvCanAccrue(s: State, u: Address, now: nat)
    requires s.lastUpdateTime <= now
    requires Inv(s)
    ensures CanAccrue(s, u, now)
  {
    if u in s.userRewardPerWeiPaid {
      assert Get(s.userRewardPerWeiPaid, u) <= s.rewardPerWeiStored;
    }
  }

  /** update_reward never aborts on a reachable state, keeps the invariant and does not lower the accumulator. */
  lemma UpdateRewardKeepsInv(s: State, u: Address, now: nat)
    requires s.lastUpdateTime <= now
    requires Inv(s)
    ensures UpdateReward(s, u, now).Ok?
    ensures Inv(UpdateReward(s, u, now).value)
  {
    InvCanAccrue(s, u, now);
    var t := UpdateReward(s, u, now).value;
    forall v | v in t.userRewardPerWeiPaid
      ensures t.userRewardPerWeiPaid[v] <= t.rewardPerWeiStored
    {
      if v != u {
        assert Get(t.userRewardPerWeiPaid, v) == Get(s.userRewardPerWeiPaid, v);
        assert v in s.userRewardPerWeiPaid;
      }
    }
  }

  /** A successful stake adds the same amount to the total supply and to one balance, so the sum still matches. */
  lemma StakeKeepsInv(s: State, caller: Address, now: nat, payment: Payment)
    requires s.lastUpdateTime <= now
    requires Inv(s)
    requires StakeFarm(s, caller, now, payment).Ok?
    ensures Inv(StakeFarm(s, caller, now, payment).value)
  {
    UpdateRewardKeepsInv(s, caller, now);
    var m := UpdateReward(s, caller, now).value;
    SumUpdate(m.balances, caller, Get(m.balances, caller) + payment.amount);
  }

  /**
   * On a reachable state unstake takes the amount off the total supply
   * without underflow; the only BigUint underflow left is the penalty one,
   * and it needs a penalty above 100%.
   */
  lemma UnstakeKeepsInv(s: State, caller: Address, now: nat, requested: Option<nat>,
                        scBalances: map<TokenId, nat>)
    requires s.lastUpdateTime <= now
    requires Inv(s)
    ensures UnstakeFarm(s, caller, now, requested, scBalances).Err? ==>
      UnstakeFarm(s, caller, now, requested, scBalances).error == Underflow
      ==> s.config.earlyUnstakePenalty > MAX_PERCENT
    ensures UnstakeFarm(s, caller, now, requested, scBalances).Ok? ==>
      Inv(UnstakeFarm(s, caller, now, requested, scBalances).value.state)
  {
    if s.config.Live() && Get(s.balances, caller) > 0 {
      UpdateRewardKeepsInv(s, caller, now);
      var m := UpdateReward(s, caller, now).value;
      GetAtMostSum(m.balances, caller);
      var amount := requested.GetOr(Get(m.balances, caller));
      if amount <= Get(m.balances, caller) {
        SumUpdate(m.balances, caller, Get(m.balances, caller) - amount);
        PayoutPenalty(amount, m.config.earlyUnstakePenalty);
      }
    }
  }

  /** Taking at most the caller's stake from both the total and the caller's balance keeps the invariant. */
  lemma DecrementStakeKeepsInv(s: State, caller: Address, amount: nat)
    requires Inv(s)
    requires amount <= Get(s.balances, caller) && amount <= s.totalSupply
    ensures Inv(s.(totalSupply := s.totalSupply - amount,
                   balances := s.balances[caller := Get(s.balances, caller) - amount]))
  {
    SumUpdate(s.balances, caller, Get(s.balances, caller) - amount);
  }

  /** claim only zeroes a pending reward and writes a claim time, so the invariant is kept. */
  lemma ClaimKeepsInv(s: State, caller: Address, now: nat, scBalances: map<TokenId, nat>)
    requires s.lastUpdateTime <= now
    requires Inv(s)
    ensures s.config.Live() ==> ClaimReward(s, caller, now, scBalances) != Err(Underflow)
    ensures ClaimReward(s, caller, now, scBalances).Ok? ==> Inv(ClaimReward(s, caller, now, scBalances).value.state)
  {
    UpdateRewardKeepsInv(s, caller, now);
  }

  // ---------------------------------------------------------------- synchronisation

  /** Right after update_reward(u), the view of what u has earned is exactly u's pending reward. */
  lemma NoDoubleCount(s: State, u: Address, now: nat)
    requires s.lastUpdateTime <= now
    requires UpdateReward(s, u, now).Ok?
    ensures var t := UpdateReward(s, u, now).value;
      CanAccrue(t, u, now) && Earned(t, u, now) == Get(t.rewards, u)
  {
    var t := UpdateReward(s, u, now).value;
    assert RewardPerWei(t, now) == t.rewardPerWeiStored;
    if t.totalSupply > 0 {
      assert (RewardPerWei(t, now) - Get(t.userRewardPerWeiPaid, u)) * Get(t.balances, u) == 0;
    }
  }

  /** A second update_reward(u) at the same block time writes nothing new. */
  lemma UpdateRewardIdempotent(s: State, u: Address, now: nat)
    requires s.lastUpdateTime <= now
    requires UpdateReward(s, u, now).Ok?
    ensures var t := UpdateReward(s, u, now).value;
      UpdateReward(t, u, now) == Ok(t)
  {
    var t := UpdateReward(s, u, now).value;
    NoDoubleCount(s, u, now);
    assert Synced(t, now) == t;
    assert u in t.rewards && u in t.userRewardPerWeiPaid;
    assert t.rewards[u := Get(t.rewards, u)] == t.rewards;
    assert t.userRewardPerWeiPaid[u := t.rewardPerWeiStored] == t.userRewardPerWeiPaid;
  }

  /**
   * update_reward moves the update time to `now` even when less than one
   * block has passed: those seconds never accrue.
   */
  lemma SubBlockSecondsDropped(s: State, u: Address, now: nat)
    requires s.lastUpdateTime <= now < s.lastUpdateTime + BLOCK_TIMES
    requires UpdateReward(s, u, now).Ok?
    ensures UpdateReward(s, u, now).value.rewardPerWeiStored == s.rewardPerWeiStored
    ensures UpdateReward(s, u, now).value.lastUpdateTime == now
  {
    assert (now - s.lastUpdateTime) / BLOCK_TIMES == 0;
  }

  /** Multiplying by the same factor keeps the order. */
  lemma MulMono(x: nat, y: nat, k: nat)
    requires x <= y
    ensures x * k <= y * k
  {
    var gap := y - x;
    assert y * k == x * k + gap * k;
  }

  /** A multiple of `d` that fits in `n` is at most `n / d` times `d`. */
  lemma DivLowerBound(x: nat, n: nat, d: nat)
    requires d > 0 && x * d <= n
    ensures x <= n / d
  {
    DivBounds(n, d);
    if x > n / d {
      MulMono(n / d + 1, x, d);
    }
  }

  /** Floor division of a sum is at least the sum of the floors. */
  lemma FloorSplit(a: nat, b: nat, d: nat)
    requires d > 0
    ensures a / d + b / d <= (a + b) / d
  {
    DivBounds(a, d);
    DivBounds(b, d);
    assert (a / d + b / d) * d == (a / d) * d + (b / d) * d;
    DivLowerBound(a / d + b / d, a + b, d);
  }

  /** A quotient by `d` of at most `k * d` is at most `k`. */
  lemma DivUpperBound(n: nat, k: nat, d: nat)
    requires d > 0 && n <= k * d
    ensures n / d <= k
  {
    DivBounds(n, d);
    var q := n / d;
    assert (k + 1) * d == k * d + d;
    if q > k {
      MulMono(k + 1, q, d);
    }
  }

  /**
   * Two shares `x` and `y` of a pool `total` with x + y <= total, each taking
   * the floor of its part of `d`, together get no more than `d`.
   */
  lemma FloorShares(d: nat, x: nat, y: nat, total: nat)
    requires total > 0 && x + y <= total
    ensures d * x / total + d * y / total <= d
  {
    var dx, dy := d * x, d * y;
    FloorSplit(dx, dy, total);
    assert dx + dy == (x + y) * d;
    MulMono(x + y, total, d);
    assert total * d == d * total;
    DivUpperBound(dx + dy, d, total);
  }

  /**
   * Synchronising at `mid` and then viewing at `now` never shows more than
   * viewing at `now` directly: splitting the interval only loses the
   * leftover seconds of the first part.
   */
  lemma SplitSyncNeverGains(s: State, u: Address, mid: nat, now: nat)
    requires s.lastUpdateTime <= mid <= now
    requires UpdateReward(s, u, mid).Ok?
    ensures RewardPerWei(UpdateReward(s, u, mid).value, now) <= RewardPerWei(s, now)
  {
    if s.totalSupply > 0 {
      var rate := s.config.rewardAmountPerBlock;
      FloorSplit(mid - s.lastUpdateTime, now - mid, BLOCK_TIMES);
      var b1 := (mid - s.lastUpdateTime) / BLOCK_TIMES;
      var b2 := (now - mid) / BLOCK_TIMES;
      var b := (now - s.lastUpdateTime) / BLOCK_TIMES;
      MulMono(b1 + b2, b, rate);
      assert b1 * rate + b2 * rate == (b1 + b2) * rate;
      var t := UpdateReward(s, u, mid).value;
      assert t.rewardPerWeiStored == s.rewardPerWeiStored + b1 * rate;
      assert RewardPerWei(t, now) == t.rewardPerWeiStored + b2 * rate;
    }
  }

  // ---------------------------------------------------------------- an empty pool

  /** While nothing is staked, update_reward discards the user's pending reward. */
  lemma EmptyPoolDiscardsPending(s: State, u: Address, now: nat)
    requires s.lastUpdateTime <= now
    requires s.totalSupply == 0
    requires UpdateReward(s, u, now).Ok?
    ensures Get(UpdateReward(s, u, now).value.rewards, u) == 0
    ensures UpdateReward(s, u, now).value.rewardPerWeiStored == s.rewardPerWeiStored
  {
  }

  /** While nothing is staked, every claim aborts below the minimum, so the reward cannot be collected. */
  lemma EmptyPoolBlocksClaim(s: State, caller: Address, now: nat, scBalances: map<TokenId, nat>)
    requires s.lastUpdateTime <= now
    requires Inv(s)
    requires s.totalSupply == 0 && s.config.Live()
    ensures ClaimReward(s, caller, now, scBalances) == Err(ClaimBelowMinimum)
  {
    InvCanAccrue(s, caller, now);
  }

  /**
   * A stake into an empty pool forfeits the staker's pending reward: a sole
   * staker who unstakes everything and stakes again loses what was owed.
   */
  lemma RestakeIntoEmptyPoolForfeits(s: State, caller: Address, now: nat, payment: Payment)
    requires s.lastUpdateTime <= now
    requires s.totalSupply == 0
    requires StakeFarm(s, caller, now, payment).Ok?
    ensures Get(StakeFarm(s, caller, now, payment).value.rewards, caller) == 0
    ensures StakeFarm(s, caller, now, payment).value.totalSupply == payment.amount
  {
  }

  // ---------------------------------------------------------------- rounding

  /**
   * Two users synchronised to the same snapshot `p` are owed, in newly
   * accrued reward, together no more than the accumulator growth since `p`:
   * the floor of each share leaves the dust with the contract.
   */
  lemma SharesWithinAccrual(s: State, a: Address, b: Address, now: nat)
    requires s.lastUpdateTime <= now
    requires Inv(s)
    requires a != b && s.totalSupply > 0
    requires Get(s.userRewardPerWeiPaid, a) == Get(s.userRewardPerWeiPaid, b)
    ensures CanAccrue(s, a, now) && CanAccrue(s, b, now)
    ensures (Earned(s, a, now) - Get(s.rewards, a)) + (Earned(s, b, now) - Get(s.rewards, b))
            <= RewardPerWei(s, now) - Get(s.userRewardPerWeiPaid, a)
  {
    InvCanAccrue(s, a, now);
    InvCanAccrue(s, b, now);
    var d := RewardPerWei(s, now) - Get(s.userRewardPerWeiPaid, a);
    TwoAtMostSum(s.balances, a, b);
    FloorShares(d, Get(s.balances, a), Get(s.balances, b), s.totalSupply);
  }

  // ---------------------------------------------------------------- boundaries

  /**
   * Unstaking at the exact end of the early-unstake window pays the full
   * amount; one second earlier the penalty is withheld.
   */
  lemma PenaltyWindowBoundary(s: State, u: Address)
    requires Get(s.lastStakeTimes, u) + s.config.earlyUnstakePeriod > 0
    ensures var end := Get(s.lastStakeTimes, u) + s.config.earlyUnstakePeriod;
      !InPenaltyWindow(s, u, end) && InPenaltyWindow(s, u, end - 1)
    ensures forall amount: nat :: amount * s.config.earlyUnstakePenalty >= MAX_PERCENT ==>
      Payout(amount, s.config.earlyUnstakePenalty, true) != Payout(amount, s.config.earlyUnstakePenalty, false)
  {
    forall amount: nat | amount * s.config.earlyUnstakePenalty >= MAX_PERCENT
      ensures Payout(amount, s.config.earlyUnstakePenalty, true) != Payout(amount, s.config.earlyUnstakePenalty, false)
    {
      DivBounds(amount * s.config.earlyUnstakePenalty, MAX_PERCENT);
    }
  }

  /** A claim at the exact end of the cooldown is rejected; one second later it goes through. */
  lemma ClaimCooldownBoundary(s: State, caller: Address, scBalances: map<TokenId, nat>)
    requires s.config.Live()
    requires Inv(s)
    requires s.lastUpdateTime <= Get(s.lastClaimTimes, caller) + s.config.betweenClaimTimestamp
    requires Earned(s, caller, Get(s.lastClaimTimes, caller) + s.config.betweenClaimTimestamp)
             > s.config.minClaimAmount
    ensures ClaimReward(s, caller, Get(s.lastClaimTimes, caller) + s.config.betweenClaimTimestamp, scBalances)
            == Err(ClaimTooEarly)
    ensures var later := Get(s.lastClaimTimes, caller) + s.config.betweenClaimTimestamp + 1;
      Earned(s, caller, later) > s.config.minClaimAmount
      && BalanceOf(scBalances, s.config.rewardTokenId) >= Earned(s, caller, later)
      ==> ClaimReward(s, caller, later, scBalances).Ok?
  {
    var now := Get(s.lastClaimTimes, caller) + s.config.betweenClaimTimestamp;
    UpdateRewardKeepsInv(s, caller, now);
    InvCanAccrue(s, caller, now + 1);
  }

  // ---------------------------------------------------------------- runs of transactions

  /** One call to the contract at block time `now`. */
  datatype Call =
    | Stake(caller: Address, payment: Payment)
    | Unstake(caller: Address, requested: Option<nat>, scBalances: map<TokenId, nat>)
    | Claim(caller: Address, scBalances: map<TokenId, nat>)
    | Setter(setting: Setting)

  datatype Tx = Tx(now: nat, call: Call)

  /**
   * The storage after one transaction: the endpoint's new state, or the
   * unchanged storage when it aborts (the host discards its writes).
   */
  function Apply(s: State, tx: Tx, isValid: TokenId -> bool): (t: State)
    requires s.lastUpdateTime <= tx.now
    ensures t.lastUpdateTime == s.lastUpdateTime || t.lastUpdateTime == tx.now
    ensures t.rewardPerWeiStored == s.rewardPerWeiStored || t.rewardPerWeiStored == RewardPerWei(s, tx.now)
  {
    var r := match tx.call
      case Stake(caller, payment) => StakeFarm(s, caller, tx.now, payment)
      case Unstake(caller, requested, scBalances) =>
        (match UnstakeFarm(s, caller, tx.now, requested, scBalances)
         case Ok(receipt) => Ok(receipt.state)
         case Err(e) => Err(e))
      case Claim(caller, scBalances) =>
        (match ClaimReward(s, caller, tx.now, scBalances)
         case Ok(receipt) => Ok(receipt.state)
         case Err(e) => Err(e))
      case Setter(setting) => Configure(s, setting, isValid);
    if r.Ok? then r.value else s
  }

  /** Block times never run backwards, starting at or after `from`. */
  predicate Chronological(from: nat, txs: seq<Tx>) {
    forall i :: 0 <= i < |txs| ==> from <= txs[i].now && (i + 1 < |txs| ==> txs[i].now <= txs[i + 1].now)
  }

  /** The storage after a sequence of transactions. */
  function Run(s: State, txs: seq<Tx>, isValid: TokenId -> bool): (t: State)
    requires Chronological(s.lastUpdateTime, txs)
    ensures s.lastUpdateTime <= t.lastUpdateTime
    decreases |txs|
  {
    if txs == [] then s
    else
      ChronologicalStep(s, txs, isValid);
      Run(Apply(s, txs[0], isValid), txs[1..], isValid)
  }

  /** Every block time of a chronological sequence is at least the one at position 0. */
  lemma {:induction false} ChronologicalFrom(from: nat, txs: seq<Tx>, i: nat)
    requires Chronological(from, txs)
    requires i < |txs|
    ensures txs[0].now <= txs[i].now
  {
    if i > 0 {
      ChronologicalFrom(from, txs, i - 1);
    }
  }

  /** After the first transaction, the rest of a chronological sequence is still chronological. */
  lemma ChronologicalStep(s: State, txs: seq<Tx>, isValid: TokenId -> bool)
    requires txs != [] && Chronological(s.lastUpdateTime, txs)
    ensures Chronological(Apply(s, txs[0], isValid).lastUpdateTime, txs[1..])
  {
    var next := Apply(s, txs[0], isValid);
    forall i | 0 <= i < |txs| - 1
      ensures next.lastUpdateTime <= txs[1..][i].now
    {
      ChronologicalFrom(s.lastUpdateTime, txs, i + 1);
    }
  }

  /** One transaction of any kind keeps the invariant. */
  lemma ApplyKeepsInv(s: State, tx: Tx, isValid: TokenId -> bool)
    requires s.lastUpdateTime <= tx.now
    requires Inv(s)
    ensures Inv(Apply(s, tx, isValid))
  {
    match tx.call
    case Stake(caller, payment) =>
      if StakeFarm(s, caller, tx.now, payment).Ok? {
        StakeKeepsInv(s, caller, tx.now, payment);
      }
    case Unstake(caller, requested, scBalances) =>
      UnstakeKeepsInv(s, caller, tx.now, requested, scBalances);
    case Claim(caller, scBalances) =>
      ClaimKeepsInv(s, caller, tx.now, scBalances);
    case Setter(setting) =>
  }

  /** Conservation and snapshot bound hold after any chronological sequence of transactions. */
  lemma {:induction false} RunKeepsInv(s: State, txs: seq<Tx>, isValid: TokenId -> bool)
    requires Chronological(s.lastUpdateTime, txs)
    requires Inv(s)
    ensures Inv(Run(s, txs, isValid))
    decreases |txs|
  {
    if txs != [] {
      ChronologicalStep(s, txs, isValid);
      ApplyKeepsInv(s, txs[0], isValid);
      RunKeepsInv(Apply(s, txs[0], isValid), txs[1..], isValid);
    }
  }

  /** The accumulator never decreases over any chronological sequence of transactions. */
  lemma {:induction false} RunAccumulatorMonotone(s: State, txs: seq<Tx>, isValid: TokenId -> bool)
    requires Chronological(s.lastUpdateTime, txs)
    ensures s.rewardPerWeiStored <= Run(s, txs, isValid).rewardPerWeiStored
    decreases |txs|
  {
    if txs != [] {
      ChronologicalStep(s, txs, isValid);
      RunAccumulatorMonotone(Apply(s, txs[0], isValid), txs[1..], isValid);
    }
  }

  /** Every state reached from deployment through init and any transactions satisfies the invariant. */
  lemma ReachableInv(farmingTokenId: TokenId, rewardTokenId: TokenId,
                     minStakeLimit: nat, rewardAmountPerBlock: nat, minClaimAmount: nat,
                     betweenClaimTimestamp: nat, earlyUnstakePeriod: nat, earlyUnstakePenalty: nat,
                     isValid: TokenId -> bool, txs: seq<Tx>)
    requires isValid(farmingTokenId) && isValid(rewardTokenId)
    requires Chronological(0, txs)
    ensures var s := Init(Empty, farmingTokenId, rewardTokenId, minStakeLimit, rewardAmountPerBlock,
                          minClaimAmount, betweenClaimTimestamp, earlyUnstakePeriod, earlyUnstakePenalty,
                          isValid).value;
      Inv(Run(s, txs, isValid))
  {
    EmptyInv();
    var s := Init(Empty, farmingTokenId, rewardTokenId, minStakeLimit, rewardAmountPerBlock,
                  minClaimAmount, betweenClaimTimestamp, earlyUnstakePeriod, earlyUnstakePenalty,
                  isValid).value;
    RunKeepsInv(s, txs, isValid);
  }

  /** A call by one address leaves every per-address slot of every other address as it was. */
  lemma ApplyTouchesOnlyCaller(s: State, tx: Tx, isValid: TokenId -> bool, other: Address)
    requires s.lastUpdateTime <= tx.now
    requires !tx.call.Setter? && tx.call.caller != other
    ensures SameUserSlots(s, Apply(s, tx, isValid), other)
  {
    var caller := tx.call.caller;
    if UpdateReward(s, caller, tx.now).Ok? {
      var m := UpdateReward(s, caller, tx.now).value;
      assert SameUserSlots(s, m, other);
      match tx.call
      case Stake(_, payment) =>
        GetUpdate(m.balances, caller, Get(m.balances, caller) + payment.amount, other);
        GetUpdate(m.lastStakeTimes, caller, tx.now, other);
      case Unstake(_, requested, _) =>
        var amount := requested.GetOr(Get(m.balances, caller));
        if amount <= Get(m.balances, caller) {
          GetUpdate(m.balances, caller, Get(m.balances, caller) - amount, other);
        }
      case Claim(_, _) =>
        GetUpdate(m.rewards, caller, 0, other);
        GetUpdate(m.lastClaimTimes, caller, tx.now, other);
    }
  }

  // ---------------------------------------------------------------- setters

  /** Applying a setter a second time with the same value changes nothing. */
  lemma ConfigureIdempotent(s: State, setting: Setting, isValid: TokenId -> bool)
    requires Configure(s, setting, isValid).Ok?
    ensures Configure(Configure(s, setting, isValid).value, setting, isValid) == Configure(s, setting, isValid)
  {
  }

  // ---------------------------------------------------------------- scenarios

  const Alice: Address := [1]
  const Bob: Address := [2]

  /** A live contract with the given parameters and no ledger activity yet. */
  function Deployed(minStake: nat, rate: nat, minClaim: nat, cooldown: nat, period: nat, penalty: nat): (s: State)
    ensures Inv(s) && s.config.Live() && s.totalSupply == 0 && s.lastUpdateTime == 0
  {
    EmptyInv();
    Empty.(config := Config("FARM-abcdef", "RWD-abcdef", minStake, rate, minClaim, cooldown, period, penalty, 0))
  }

  /**
   * A sole staker of 1000 at t=0 with 50 per block has earned 100 after
   * 12 seconds (two blocks), claims it, and is left with nothing pending
   * and a claim time of 12.
   */
  lemma SoleStakerScenario()
    ensures var s0 := Deployed(100, 50, 99, 0, 0, 0);
      var s1 := StakeFarm(s0, Alice, 0, Payment("FARM-abcdef", 1000));
      && s1.Ok?
      && Earned(s1.value, Alice, 12) == 100
      && var c := ClaimReward(s1.value, Alice, 12, map["RWD-abcdef" := 100]);
      && c.Ok?
      && c.value.sent == Transfer(Alice, "RWD-abcdef", 100)
      && Get(c.value.state.rewards, Alice) == 0
      && Get(c.value.state.lastClaimTimes, Alice) == 12
  {
    var s0 := Deployed(100, 50, 99, 0, 0, 0);
    var s1 := StakeFarm(s0, Alice, 0, Payment("FARM-abcdef", 1000)).value;
    assert s1.totalSupply == 1000 && Get(s1.balances, Alice) == 1000;
    assert Get(s1.userRewardPerWeiPaid, Alice) == 0 && Get(s1.rewards, Alice) == 0;
    assert RewardPerWei(s1, 12) == 100;
    assert Earned(s1, Alice, 12) == 100 * 1000 / 1000 + 0;
  }

  /**
   * Inside the early-unstake window with a 5% penalty, unstaking 1000 pays
   * out 950 while the balance and the total supply drop by the full 1000.
   */
  lemma EarlyUnstakeScenario()
    ensures var s0 := Deployed(100, 50, 99, 0, 3600, 500);
      var s1 := StakeFarm(s0, Alice, 0, Payment("FARM-abcdef", 1000));
      && s1.Ok?
      && var u := UnstakeFarm(s1.value, Alice, 60, None, map["FARM-abcdef" := 1000]);
      && u.Ok?
      && u.value.sent.amount == 950
      && Get(u.value.state.balances, Alice) == 0
      && u.value.state.totalSupply == 0
  {
    var s0 := Deployed(100, 50, 99, 0, 3600, 500);
    var s1 := StakeFarm(s0, Alice, 0, Payment("FARM-abcdef", 1000)).value;
    assert Get(s1.lastStakeTimes, Alice) == 0 && Get(s1.balances, Alice) == 1000;
    assert InPenaltyWindow(s1, Alice, 60);
    assert Payout(1000, 500, true) == Ok(950);
  }

  /**
   * Two stakers of 1000 and 3000 at t=0 share the 100 accrued over two
   * blocks in proportion to their balances: 25 and 75.
   */
  lemma TwoStakersScenario()
    ensures var s0 := Deployed(100, 50, 0, 0, 0, 0);
      var s1 := StakeFarm(s0, Alice, 0, Payment("FARM-abcdef", 1000));
      && s1.Ok?
      && var s2 := StakeFarm(s1.value, Bob, 0, Payment("FARM-abcdef", 3000));
      && s2.Ok?
      && s2.value.totalSupply == 4000
      && Earned(s2.value, Alice, 12) == 25
      && Earned(s2.value, Bob, 12) == 75
  {
    var s0 := Deployed(100, 50, 0, 0, 0, 0);
    var s1 := StakeFarm(s0, Alice, 0, Payment("FARM-abcdef", 1000)).value;
    assert s1.totalSupply == 1000 && s1.rewardPerWeiStored == 0 && s1.lastUpdateTime == 0;
    var s2 := StakeFarm(s1, Bob, 0, Payment("FARM-abcdef", 3000)).value;
    assert s2.rewardPerWeiStored == 0 && s2.lastUpdateTime == 0;
    assert Get(s2.balances, Alice) == 1000 && Get(s2.balances, Bob) == 3000;
    assert Get(s2.userRewardPerWeiPaid, Alice) == 0 && Get(s2.rewards, Alice) == 0;
    assert Get(s2.userRewardPerWeiPaid, Bob) == 0 && Get(s2.rewards, Bob) == 0;
    assert RewardPerWei(s2, 12) == 100;
  }

  /**
   * The accumulator grows by the whole reward of a block, not by the reward
   * per staked unit, so a user's share is taken against the total supply at
   * the time of that user's own sync.  Stakers of 1000 and 999000 at t=0
   * with 50 per block: after 100 blocks (5000 accrued) the large staker
   * unstakes everything and is credited 4995, after which the small staker,
   * now alone, is owed all 5000.
   */
  lemma OverCreditScenario()
    ensures var s0 := Deployed(100, 50, 0, 0, 0, 0);
      var s1 := StakeFarm(s0, Alice, 0, Payment("FARM-abcdef", 1000));
      && s1.Ok?
      && var s2 := StakeFarm(s1.value, Bob, 0, Payment("FARM-abcdef", 999000));
      && s2.Ok?
      && var u := UnstakeFarm(s2.value, Bob, 600, None, map["FARM-abcdef" := 999000]);
      && u.Ok?
      && Get(u.value.state.rewards, Bob) == 4995
      && Earned(u.value.state, Alice, 600) == 5000
      && Get(u.value.state.rewards, Bob) + Earned(u.value.state, Alice, 600) > 50 * (600 / BLOCK_TIMES)
  {
    var s0 := Deployed(100, 50, 0, 0, 0, 0);
    var s1 := StakeFarm(s0, Alice, 0, Payment("FARM-abcdef", 1000)).value;
    assert s1.totalSupply == 1000 && s1.rewardPerWeiStored == 0 && s1.lastUpdateTime == 0;
    var s2 := StakeFarm(s1, Bob, 0, Payment("FARM-abcdef", 999000)).value;
    assert s2.totalSupply == 1000000 && s2.rewardPerWeiStored == 0 && s2.lastUpdateTime == 0;
    assert Get(s2.balances, Alice) == 1000 && Get(s2.balances, Bob) == 999000;
    assert Get(s2.userRewardPerWeiPaid, Alice) == 0 && Get(s2.rewards, Alice) == 0;
    assert Get(s2.userRewardPerWeiPaid, Bob) == 0 && Get(s2.rewards, Bob) == 0;
    assert Get(s2.lastStakeTimes, Bob) == 0;
    assert RewardPerWei(s2, 600) == 5000;
    assert Earned(s2, Bob, 600) == 5000 * 999000 / 1000000 + 0 == 4995;
    var s3 := UnstakeFarm(s2, Bob, 600, None, map["FARM-abcdef" := 999000]).value.state;
    assert s3.totalSupply == 1000 && s3.rewardPerWeiStored == 5000 && s3.lastUpdateTime == 600;
    assert Get(s3.balances, Alice) == 1000;
    assert Get(s3.userRewardPerWeiPaid, Alice) == 0 && Get(s3.rewards, Alice) == 0;
    assert Earned(s3, Alice, 600) == 5000 * 1000 / 1000 + 0;
  }

  /**
   * A penalty above 100% aborts only when the withheld floor exceeds the
   * amount: 10001 bps on 9999 withholds 9999 and pays 0, on 10000 it
   * withholds 10001 and the subtraction underflows.
   */
  lemma PenaltyAboveFullScenario()
    ensures Payout(9999, 10001, true) == Ok(0)
    ensures Payout(10000, 10001, true) == Err(Underflow)
  {
    assert 9999 * 10001 / MAX_PERCENT == 9999;
    assert 10000 * 10001 / MAX_PERCENT == 10001;
  }
}

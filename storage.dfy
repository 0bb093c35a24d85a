/**
 * The storage layout of the farming contract: one slot per configuration
 * field and per global reward-accounting field, and one keyed slot per
 * address for each per-user field.  A slot that was never written reads as
 * zero (or as the empty token identifier), as the host's storage does.
 */
module Storage {

  /** An account address (a 32-byte managed address on the host). */
  type Address = seq<bv8>

  /** An ESDT token identifier, kept as its text. */
  type TokenId = string

  /** The range of a `u32` storage value. */
  type U32 = x: int | 0 <= x < 0x1_0000_0000

  /** The configuration slots, written by `init` and the setters only. */
  datatype Config = Config(
    farmingTokenId: TokenId,
    rewardTokenId: TokenId,
    minStakeLimit: nat,
    rewardAmountPerBlock: nat,
    minClaimAmount: nat,
    betweenClaimTimestamp: nat,
    earlyUnstakePeriod: nat,
    earlyUnstakePenalty: nat,
    paused: U32)
  {
    /** The contract accepts stake, unstake and claim calls only while `paused` holds 0. */
    predicate Live() {
      paused == 0
    }
  }

  /** Every storage slot: the configuration, the global reward accounting and the per-address slots. */
  datatype State = State(
    config: Config,
    totalSupply: nat,
    rewardPerWeiStored: nat,
    lastUpdateTime: nat,
    balances: map<Address, nat>,
    rewards: map<Address, nat>,
    userRewardPerWeiPaid: map<Address, nat>,
    lastStakeTimes: map<Address, nat>,
    lastClaimTimes: map<Address, nat>)

  /** Storage before any write: every slot holds its zero value. */
  const Empty: State :=
    State(Config("", "", 0, 0, 0, 0, 0, 0, 0), 0, 0, 0, map[], map[], map[], map[], map[])

  /** Reads the slot of address `u`; an address never written reads as 0. */
  function Get(m: map<Address, nat>, u: Address): nat {
    if u in m then m[u] else 0
  }

  /** Writing the slot of `k` changes what `k` reads and nothing that any other address reads. */
  lemma GetUpdate(m: map<Address, nat>, k: Address, v: nat, u: Address)
    ensures Get(m[k := v], u) == if u == k then v else Get(m, u)
  {
  }

  /** All five per-address slots of `u` hold the same values in `s` and `t`. */
  predicate SameUserSlots(s: State, t: State, u: Address) {
    && Get(s.balances, u) == Get(t.balances, u)
    && Get(s.rewards, u) == Get(t.rewards, u)
    && Get(s.userRewardPerWeiPaid, u) == Get(t.userRewardPerWeiPaid, u)
    && Get(s.lastStakeTimes, u) == Get(t.lastStakeTimes, u)
    && Get(s.lastClaimTimes, u) == Get(t.lastClaimTimes, u)
  }

  /** The global accounting slots and every per-address slot of `s` and `t` agree. */
  predicate SameLedger(s: State, t: State) {
    && s.totalSupply == t.totalSupply
    && s.rewardPerWeiStored == t.rewardPerWeiStored
    && s.lastUpdateTime == t.lastUpdateTime
    && s.balances == t.balances
    && s.rewards == t.rewards
    && s.userRewardPerWeiPaid == t.userRewardPerWeiPaid
    && s.lastStakeTimes == t.lastStakeTimes
    && s.lastClaimTimes == t.lastClaimTimes
  }

  /** The sum of all values held in a per-address map. */
  ghost function Sum(m: map<Address, nat>): nat
    decreases |m|
  {
    if m == map[] then 0
    else
      var k :| k in m;
      m[k] + Sum(m - {k})
  }

  /** Taking one entry out of the sum, whichever entry the definition happened to pick. */
  lemma {:induction false} SumRemove(m: map<Address, nat>, k: Address)
    requires k in m
    ensures Sum(m) == m[k] + Sum(m - {k})
    decreases |m|
  {
    var j :| j in m && Sum(m) == m[j] + Sum(m - {j});
    if j != k {
      SumRemove(m - {j}, k);
      SumRemove(m - {k}, j);
      assert m - {j} - {k} == m - {k} - {j};
    }
  }

  /** Writing one slot changes the sum by the difference between the new and the old value. */
  lemma SumUpdate(m: map<Address, nat>, k: Address, v: nat)
    ensures Sum(m[k := v]) + Get(m, k) == Sum(m) + v
  {
    var m' := m[k := v];
    SumRemove(m', k);
    assert m' - {k} == m - {k};
    if k in m {
      SumRemove(m, k);
    } else {
      assert m - {k} == m;
    }
  }

  /** No single slot exceeds the sum of all slots. */
  lemma GetAtMostSum(m: map<Address, nat>, k: Address)
    ensures Get(m, k) <= Sum(m)
  {
    if k in m {
      SumRemove(m, k);
    }
  }

  /** Two distinct slots together do not exceed the sum of all slots. */
  lemma TwoAtMostSum(m: map<Address, nat>, a: Address, b: Address)
    requires a != b
    ensures Get(m, a) + Get(m, b) <= Sum(m)
  {
    if a in m {
      SumRemove(m, a);
      GetAtMostSum(m - {a}, b);
      assert Get(m - {a}, b) == Get(m, b);
    } else {
      GetAtMostSum(m, b);
    }
  }
}

/**
 * The administrative setters: each writes one configuration slot.  Only the
 * two token-identifier setters validate their argument; the numeric ones
 * store any value (the early-unstake penalty is not bounded by 100%).
 */
module Admin {
  import opened Wrappers
  import opened Storage
  import opened Ledger

  /** One setter call and the value it stores. */
  datatype Setting =
    | FarmingTokenId(id: TokenId)
    | RewardTokenId(id: TokenId)
    | MinStakeLimit(amount: nat)
    | RewardAmountPerBlock(amount: nat)
    | MinClaimAmount(amount: nat)
    | BetweenClaimTimestamp(seconds: nat)
    | EarlyUnstakePeriod(seconds: nat)
    | EarlyUnstakePenalty(bps: nat)
    | Paused(flag: U32)

  /** The storage write a setter performs: its own slot takes the value, every other slot keeps its content. */
  function Assign(c: Config, setting: Setting): (d: Config)
    ensures d.farmingTokenId == (if setting.FarmingTokenId? then setting.id else c.farmingTokenId)
    ensures d.rewardTokenId == (if setting.RewardTokenId? then setting.id else c.rewardTokenId)
    ensures d.minStakeLimit == (if setting.MinStakeLimit? then setting.amount else c.minStakeLimit)
    ensures d.rewardAmountPerBlock ==
            (if setting.RewardAmountPerBlock? then setting.amount else c.rewardAmountPerBlock)
    ensures d.minClaimAmount == (if setting.MinClaimAmount? then setting.amount else c.minClaimAmount)
    ensures d.betweenClaimTimestamp ==
            (if setting.BetweenClaimTimestamp? then setting.seconds else c.betweenClaimTimestamp)
    ensures d.earlyUnstakePeriod ==
            (if setting.EarlyUnstakePeriod? then setting.seconds else c.earlyUnstakePeriod)
    ensures d.earlyUnstakePenalty == (if setting.EarlyUnstakePenalty? then setting.bps else c.earlyUnstakePenalty)
    ensures d.paused == (if setting.Paused? then setting.flag else c.paused)
  {
    match setting
    case FarmingTokenId(id) => c.(farmingTokenId := id)
    case RewardTokenId(id) => c.(rewardTokenId := id)
    case MinStakeLimit(amount) => c.(minStakeLimit := amount)
    case RewardAmountPerBlock(amount) => c.(rewardAmountPerBlock := amount)
    case MinClaimAmount(amount) => c.(minClaimAmount := amount)
    case BetweenClaimTimestamp(seconds) => c.(betweenClaimTimestamp := seconds)
    case EarlyUnstakePeriod(seconds) => c.(earlyUnstakePeriod := seconds)
    case EarlyUnstakePenalty(bps) => c.(earlyUnstakePenalty := bps)
    case Paused(flag) => c.(paused := flag)
  }

  /** A setter call: the token-identifier setters abort on an invalid identifier, the others always write. */
  function Configure(s: State, setting: Setting, isValid: TokenId -> bool): (r: Result<State, Error>)
    ensures setting.FarmingTokenId? && !isValid(setting.id) ==> r == Err(InvalidFarmingTokenId)
    ensures setting.RewardTokenId? && !isValid(setting.id) ==> r == Err(InvalidRewardTokenId)
    ensures r.Ok? <==> ((setting.FarmingTokenId? || setting.RewardTokenId?) ==> isValid(setting.id))
    ensures r.Ok? ==> r.value == s.(config := Assign(s.config, setting))
  {
    match setting
    case FarmingTokenId(id) => if isValid(id) then Ok(s.(config := Assign(s.config, setting))) else Err(InvalidFarmingTokenId)
    case RewardTokenId(id) => if isValid(id) then Ok(s.(config := Assign(s.config, setting))) else Err(InvalidRewardTokenId)
    case _ => Ok(s.(config := Assign(s.config, setting)))
  }
}

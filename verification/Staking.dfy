/** The staking program: a reward-per-token accumulator settled lazily, and the handlers around it. */
module Staking {
  import opened Numbers

  const PRECISION: nat := 1_000_000_000_000_000_000

  type Key = nat

  datatype StakingError =
    | ZeroAmount | Overflow | ProgramPaused | InsufficientStake | UnbondingNotComplete | NoUnbonding
    | NoRewardsToClaim | AccountMissing | TransferFailed

  datatype StakeAccount = StakeAccount(
    staked: u64, paid: u128, earned: u64, unbonding: u64, unbondingStart: u64)

  /** The config account, every stake account, and the vault's lamports net of rent and outside gifts. */
  datatype Pool = Pool(
    totalStaked: u64,
    rpt: u128,
    lastUpdate: u64,
    unbondingSlots: u64,
    rate: u64,
    paused: bool,
    rewardPool: u64,
    stakes: map<Key, StakeAccount>,
    vault: u64)

  type Step = Result<Pool, StakingError>

  // ---------- Accumulator ----------

  /** What `slots` slots add to the reward per token, rounded down. */
  function Added(slots: nat, rate: nat, total: nat): nat
    requires total > 0
  {
    Emission(slots, rate) / total
  }

  /** The scaled reward of `slots` slots, shared by all stakers. */
  function Emission(slots: nat, rate: nat): nat {
    slots * rate * PRECISION
  }

  /** Reward per staked token after the slots since the last update, scaled by PRECISION. */
  function CurrentRewardPerToken(p: Pool, slot: u64): Result<u128, StakingError> {
    if p.totalStaked == 0 then Ok(p.rpt) else
      :- Need(slot >= p.lastUpdate, Overflow);
      :- Need(Emission(slot - p.lastUpdate, p.rate) <= U128_MAX, Overflow);
      var added := Added(slot - p.lastUpdate, p.rate, p.totalStaked);
      :- Need(p.rpt + added <= U128_MAX, Overflow);
      Ok(p.rpt + added)
  }

  function Earned(st: StakeAccount, rpt: u128): Result<u64, StakingError> {
    if rpt < st.paid then Err(Overflow) else
    var unpaid: nat := rpt - st.paid;
    var pay: nat := st.staked * unpaid;
    :- Need(pay <= U128_MAX, Overflow);
    :- Need(pay / PRECISION <= U64_MAX && st.earned + pay / PRECISION <= U64_MAX, Overflow);
    Ok(st.earned + pay / PRECISION)
  }

  function UpdateRewardGlobal(p: Pool, slot: u64): Step {
    var rpt :- CurrentRewardPerToken(p, slot);
    Ok(p.(rpt := rpt, lastUpdate := slot))
  }

  function UpdateReward(p: Pool, who: Key, slot: u64): Step
    requires who in p.stakes
  {
    var g :- UpdateRewardGlobal(p, slot);
    var earned :- Earned(p.stakes[who], g.rpt);
    Ok(g.(stakes := p.stakes[who := p.stakes[who].(earned := earned, paid := g.rpt)]))
  }

  // ---------- Handlers ----------

  /** Settle the rewards of `who`, opening the account on a first stake. */
  function SettleOrOpen(p: Pool, who: Key, slot: u64): (r: Step)
    ensures r.Ok? ==> who in r.value.stakes
  {
    if who in p.stakes then UpdateReward(p, who, slot) else
      var g :- UpdateRewardGlobal(p, slot);
      Ok(g.(stakes := p.stakes[who := StakeAccount(0, g.rpt, 0, 0, 0)]))
  }

  function Stake(p: Pool, who: Key, amount: u64, funds: nat, slot: u64): Step {
    if amount == 0 then Err(ZeroAmount) else
    :- Need(!p.paused, ProgramPaused);
    var u :- SettleOrOpen(p, who, slot);
    var st := u.stakes[who];
    :- Need(amount <= funds && u.vault + amount <= U64_MAX, TransferFailed);
    :- Need(st.staked + amount <= U64_MAX && u.totalStaked + amount <= U64_MAX, Overflow);
    Ok(u.(totalStaked := u.totalStaked + amount, vault := u.vault + amount,
          stakes := u.stakes[who := st.(staked := st.staked + amount)]))
  }

  function Unstake(p: Pool, who: Key, amount: u64, slot: u64): Step {
    if amount == 0 then Err(ZeroAmount) else
    :- Need(!p.paused, ProgramPaused);
    :- Need(who in p.stakes, AccountMissing);
    :- Need(p.stakes[who].staked >= amount, InsufficientStake);
    var u :- UpdateReward(p, who, slot);
    var st := u.stakes[who];
    :- Need(st.unbonding + amount <= U64_MAX && amount <= u.totalStaked, Overflow);
    Ok(u.(totalStaked := u.totalStaked - amount,
          stakes := u.stakes[who := st.(staked := st.staked - amount, unbonding := st.unbonding + amount,
                                        unbondingStart := slot)]))
  }

  function WithdrawUnstaked(p: Pool, who: Key, slot: u64): Step {
    if who !in p.stakes then Err(AccountMissing) else
    var st := p.stakes[who];
    :- Need(st.unbonding > 0, NoUnbonding);
    :- Need(st.unbondingStart + p.unbondingSlots <= U64_MAX, Overflow);
    :- Need(slot >= st.unbondingStart + p.unbondingSlots, UnbondingNotComplete);
    :- Need(st.unbonding <= p.vault, Overflow);
    Ok(p.(vault := p.vault - st.unbonding,
          stakes := p.stakes[who := st.(unbonding := 0, unbondingStart := 0)]))
  }

  function ClaimRewards(p: Pool, who: Key, slot: u64): Step {
    if who !in p.stakes then Err(AccountMissing) else
    var u :- UpdateReward(p, who, slot);
    var st := u.stakes[who];
    :- Need(st.earned > 0, NoRewardsToClaim);
    :- Need(st.earned <= u.rewardPool, InsufficientStake);
    :- Need(st.earned <= u.vault, Overflow);
    Ok(u.(vault := u.vault - st.earned, rewardPool := u.rewardPool - st.earned,
          stakes := u.stakes[who := st.(earned := 0)]))
  }

  function FundRewardPool(p: Pool, amount: u64, funds: nat): Step {
    if amount == 0 then Err(ZeroAmount) else
    :- Need(amount <= funds && p.vault + amount <= U64_MAX, TransferFailed);
    :- Need(p.rewardPool + amount <= U64_MAX, Overflow);
    Ok(p.(vault := p.vault + amount, rewardPool := p.rewardPool + amount))
  }

  datatype Op =
    | StakeOp(who: Key, amount: u64, funds: nat)
    | UnstakeOp(who: Key, amount: u64)
    | WithdrawOp(who: Key)
    | ClaimOp(who: Key)
    | FundOp(amount: u64, funds: nat)
    | PauseOp(paused: bool)

  function Execute(p: Pool, op: Op, slot: u64): Step {
    match op
    case StakeOp(who, amount, funds) => Stake(p, who, amount, funds, slot)
    case UnstakeOp(who, amount) => Unstake(p, who, amount, slot)
    case WithdrawOp(who) => WithdrawUnstaked(p, who, slot)
    case ClaimOp(who) => ClaimRewards(p, who, slot)
    case FundOp(amount, funds) => FundRewardPool(p, amount, funds)
    case PauseOp(paused) => Ok(p.(paused := paused))
  }

  /** Initialize: a zero unbonding period means the default of about a week. */
  function Initialize(rate: u64, unbondingSlots: u64, slot: u64): Pool {
    Pool(0, 0, slot, if unbondingSlots == 0 then 120_960 else unbondingSlots, rate, false, 0, map[], 0)
  }
}

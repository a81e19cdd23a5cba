/** What each staking instruction asks for and what it does to its staker, and the wait between an unstake and its
    withdrawal. */
module StakingEffects {
  import opened Numbers
  import opened Totals
  import opened Staking
  import opened StakingRuns
  import opened StakingLimits

  // ---------- The wait ----------

  /** An unstake starts a wait of the unbonding period, and only its end lets the amount out. */
  lemma UnstakeStartsTheWait(p: Pool, h: History, who: Key, amount: u64, slot: u64, later: u64)
    requires Good(p, h) && slot >= p.lastUpdate && Unstake(p, who, amount, slot).Ok?
    ensures var v := Unstake(p, who, amount, slot).value;
            WithdrawUnstaked(v, who, later).Ok? <==> later >= slot + p.unbondingSlots
  {
    StepKeepsGood(p, h, UnstakeOp(who, amount), slot);
    WithdrawSucceedsExactlyWhen(Unstake(p, who, amount, slot).value,
                                Observe(h, p, UnstakeOp(who, amount), slot), who, later);
  }

  /** The wait of a staker lasts at least until a slot. */
  predicate WaitsUntil(p: Pool, who: Key, until: nat) {
    && who in p.stakes && p.stakes[who].unbondingStart <= p.lastUpdate
    && until <= p.stakes[who].unbondingStart + p.unbondingSlots
  }

  lemma UnstakeWaits(p: Pool, who: Key, amount: u64, slot: u64)
    requires Unstake(p, who, amount, slot).Ok?
    ensures WaitsUntil(Unstake(p, who, amount, slot).value, who, slot + p.unbondingSlots)
  {
  }

  lemma WaitGoesOn(p: Pool, who: Key, until: nat, op: Op, slot: u64)
    requires WaitsUntil(p, who, until) && p.lastUpdate <= slot < until && Execute(p, op, slot).Ok?
    ensures var v := Execute(p, op, slot).value;
            WaitsUntil(v, who, until) && v.stakes[who].unbonding >= p.stakes[who].unbonding
  {
  }

  /** No sequence of instructions in slots before the end of the wait lets any of the amount out. */
  lemma {:induction false} UnbondingIsHeld(p: Pool, h: History, who: Key, until: nat, ops: seq<TimedOp>)
    requires Good(p, h) && WellTimed(p.lastUpdate, ops) && WaitsUntil(p, who, until)
    requires forall i | 0 <= i < |ops| :: ops[i].slot < until
    ensures var v := Run(p, h, ops).0;
            WaitsUntil(v, who, until) && v.stakes[who].unbonding >= p.stakes[who].unbonding
    decreases |ops|
  {
    if ops != [] {
      var first, rest := ops[0], ops[1..];
      var r := Execute(p, first.op, first.slot);
      assert forall i | 0 <= i < |rest| :: rest[i] == ops[i + 1];
      if r.Err? {
        WellTimedWeaken(p.lastUpdate, first.slot, rest);
        UnbondingIsHeld(p, h, who, until, rest);
      } else {
        StepKeepsGood(p, h, first.op, first.slot);
        StepElapsed(p, h, first.op, first.slot);
        WellTimedWeaken(r.value.lastUpdate, first.slot, rest);
        WaitGoesOn(p, who, until, first.op, first.slot);
        UnbondingIsHeld(r.value, Observe(h, p, first.op, first.slot), who, until, rest);
      }
    }
  }

  /** So it is after every unstake: until the period is over the unbonding amount never falls. */
  lemma UnstakedAmountIsHeld(p: Pool, h: History, who: Key, amount: u64, slot: u64, ops: seq<TimedOp>)
    requires Good(p, h) && slot >= p.lastUpdate && Unstake(p, who, amount, slot).Ok? && WellTimed(slot, ops)
    requires forall i | 0 <= i < |ops| :: ops[i].slot < slot + p.unbondingSlots
    ensures var op := UnstakeOp(who, amount);
            var v := Unstake(p, who, amount, slot).value;
            && Good(v, Observe(h, p, op, slot)) && v.lastUpdate == slot
            && var t := Run(v, Observe(h, p, op, slot), ops).0;
               who in t.stakes && t.stakes[who].unbonding >= v.stakes[who].unbonding >= amount
  {
    StepKeepsGood(p, h, UnstakeOp(who, amount), slot);
    UnstakeWaits(p, who, amount, slot);
    UnbondingIsHeld(Unstake(p, who, amount, slot).value, Observe(h, p, UnstakeOp(who, amount), slot), who,
                    slot + p.unbondingSlots, ops);
  }

  // ---------- One settlement ----------

  /** `rpt` is the accumulator after the slots since the last update: the emission of a billion billionth of a lamport
      is shared among all that is staked and rounded down. */
  predicate IsAccumulated(p: Pool, slot: nat, rpt: nat) {
    && rpt >= p.rpt && slot >= p.lastUpdate
    && if p.totalStaked == 0 then rpt == p.rpt else
         p.totalStaked * (rpt - p.rpt) <= (slot - p.lastUpdate) * p.rate * 1_000_000_000_000_000_000
         < p.totalStaked * (rpt - p.rpt) + p.totalStaked
  }

  /** `earned` is an account's settled reward at that accumulator, in whole lamports. */
  predicate IsEarned(st: StakeAccount, rpt: nat, earned: nat) {
    && earned >= st.earned && rpt >= st.paid
    && 1_000_000_000_000_000_000 * (earned - st.earned) <= st.staked * (rpt - st.paid)
       < 1_000_000_000_000_000_000 * (earned - st.earned) + 1_000_000_000_000_000_000
  }

  lemma AccumulatorEffect(p: Pool, slot: u64)
    requires slot >= p.lastUpdate && CurrentRewardPerToken(p, slot).Ok?
    ensures IsAccumulated(p, slot, CurrentRewardPerToken(p, slot).value)
  {
    if p.totalStaked > 0 {
      var n := Emission(slot - p.lastUpdate, p.rate);
      AddedIsEmitted(slot - p.lastUpdate, p.rate, p.totalStaked);
      DivBounds(n, p.totalStaked);
    }
  }

  lemma EarningEffect(st: StakeAccount, rpt: u128)
    requires Earned(st, rpt).Ok?
    ensures IsEarned(st, rpt, Earned(st, rpt).value)
  {
    DivBounds(st.staked * (rpt - st.paid), PRECISION);
    DivNonnegative(st.staked * (rpt - st.paid), PRECISION);
  }

  /** A settlement changes the accumulator, the clock and one account's reward and checkpoint, by exactly that. */
  lemma SettlementEffect(p: Pool, who: Key, slot: u64)
    requires who in p.stakes && slot >= p.lastUpdate && UpdateReward(p, who, slot).Ok?
    ensures var u := UpdateReward(p, who, slot).value;
            && IsAccumulated(p, slot, u.rpt) && IsEarned(p.stakes[who], u.rpt, u.stakes[who].earned)
            && u.stakes == p.stakes[who := p.stakes[who].(earned := u.stakes[who].earned, paid := u.rpt)]
            && u == p.(rpt := u.rpt, lastUpdate := slot, stakes := u.stakes)
  {
    AccumulatorEffect(p, slot);
    EarningEffect(p.stakes[who], CurrentRewardPerToken(p, slot).value);
  }

  /** The widths a settlement needs: the scaled emission and the accumulator within 128 bits, the scaled pay within 128
      and the reward within 64. */
  predicate EmissionFits(p: Pool, slot: nat, rpt: nat) {
    p.totalStaked > 0 ==>
      && (slot - p.lastUpdate) * p.rate * 1_000_000_000_000_000_000 <= U128_MAX && rpt <= U128_MAX
  }

  predicate RewardFits(st: StakeAccount, rpt: nat, earned: nat) {
    st.staked * (rpt - st.paid) <= U128_MAX && earned <= U64_MAX
  }

  lemma AccumulationIsUnique(p: Pool, slot: u64, rpt: nat)
    requires IsAccumulated(p, slot, rpt)
    ensures CurrentRewardPerToken(p, slot).Ok? <==> EmissionFits(p, slot, rpt)
    ensures CurrentRewardPerToken(p, slot).Ok? ==> CurrentRewardPerToken(p, slot).value == rpt
  {
    if p.totalStaked > 0 {
      DivUnique(Emission(slot - p.lastUpdate, p.rate), p.totalStaked, rpt - p.rpt);
    }
  }

  lemma EarningIsUnique(st: StakeAccount, rpt: u128, earned: nat)
    requires IsEarned(st, rpt, earned)
    ensures Earned(st, rpt).Ok? <==> RewardFits(st, rpt, earned)
    ensures Earned(st, rpt).Ok? ==> Earned(st, rpt).value == earned
  {
    DivUnique(st.staked * (rpt - st.paid), PRECISION, earned - st.earned);
  }

  /** A settlement fails for those widths and for nothing else. */
  lemma SettlementSucceedsExactlyWhen(p: Pool, who: Key, slot: u64, rpt: nat, earned: nat)
    requires who in p.stakes && p.rpt <= rpt && p.stakes[who].paid <= p.rpt
    requires IsAccumulated(p, slot, rpt) && IsEarned(p.stakes[who], rpt, earned)
    ensures UpdateReward(p, who, slot).Ok? <==> EmissionFits(p, slot, rpt) && RewardFits(p.stakes[who], rpt, earned)
    ensures UpdateReward(p, who, slot).Ok? ==>
              UpdateReward(p, who, slot).value.rpt == rpt
              && UpdateReward(p, who, slot).value.stakes[who].earned == earned
  {
    AccumulationIsUnique(p, slot, rpt);
    if CurrentRewardPerToken(p, slot).Ok? {
      EarningIsUnique(p.stakes[who], rpt, earned);
    }
  }

  // ---------- The instructions ----------

  /** A first stake opens an account that has earned nothing so far. */
  lemma StakeEffect(p: Pool, h: History, who: Key, amount: u64, funds: nat, slot: u64)
    requires Good(p, h) && slot >= p.lastUpdate
    ensures Stake(p, who, amount, funds, slot).Ok?
            <==> && 0 < amount <= funds && !p.paused && p.vault + amount <= U64_MAX
                 && if who in p.stakes then UpdateReward(p, who, slot).Ok? else UpdateRewardGlobal(p, slot).Ok?
    ensures Stake(p, who, amount, funds, slot).Ok? ==>
              var v := Stake(p, who, amount, funds, slot).value;
              && v.totalStaked == p.totalStaked + amount && v.vault == p.vault + amount
              && IsAccumulated(p, slot, v.rpt) && who in v.stakes && v.stakes[who].paid == v.rpt
              && v.stakes == p.stakes[who := v.stakes[who]]
              && v == p.(rpt := v.rpt, lastUpdate := slot, totalStaked := v.totalStaked, vault := v.vault,
                         stakes := v.stakes)
              && if who in p.stakes then
                   && IsEarned(p.stakes[who], v.rpt, v.stakes[who].earned)
                   && v.stakes[who] == p.stakes[who].(staked := p.stakes[who].staked + amount, paid := v.rpt,
                                                      earned := v.stakes[who].earned)
                 else v.stakes[who] == StakeAccount(amount, v.rpt, 0, 0, 0)
  {
    if who in p.stakes {
      StakerIsBacked(p, h, who);
      if UpdateReward(p, who, slot).Ok? {
        SettlementEffect(p, who, slot);
      }
    }
    VaultCoversStakes(p, h);
    if UpdateRewardGlobal(p, slot).Ok? {
      AccumulatorEffect(p, slot);
    }
  }

  lemma VaultCoversStakes(p: Pool, h: History)
    requires Good(p, h)
    ensures p.totalStaked + p.rewardPool <= p.vault
  {
    TotalNonnegative(p.stakes, UnbondingOf);
  }

  /** An unstake moves the amount from the staked to the unbonding side of its account; nothing leaves the vault. */
  lemma UnstakeEffect(p: Pool, who: Key, amount: u64, slot: u64)
    requires slot >= p.lastUpdate && Unstake(p, who, amount, slot).Ok?
    ensures var v := Unstake(p, who, amount, slot).value;
            && 0 < amount && !p.paused && who in p.stakes && v.stakes == p.stakes[who := v.stakes[who]]
            && var st, st' := p.stakes[who], v.stakes[who];
            && st'.staked + amount == st.staked && st'.unbonding == st.unbonding + amount && st'.unbondingStart == slot
            && st'.paid == v.rpt && IsEarned(st, v.rpt, st'.earned) && IsAccumulated(p, slot, v.rpt)
            && v.totalStaked + amount == p.totalStaked
            && v == p.(rpt := v.rpt, lastUpdate := slot, totalStaked := v.totalStaked, stakes := v.stakes)
  {
    SettlementEffect(p, who, slot);
  }

  /** A withdrawal pays the whole unbonding amount, paused or not, and touches no reward. */
  lemma WithdrawalEffect(p: Pool, who: Key, slot: u64)
    requires WithdrawUnstaked(p, who, slot).Ok?
    ensures var v := WithdrawUnstaked(p, who, slot).value;
            && who in p.stakes && p.stakes[who].unbonding > 0 && v.vault + p.stakes[who].unbonding == p.vault
            && v.stakes == p.stakes[who := p.stakes[who].(unbonding := 0, unbondingStart := 0)]
            && v == p.(vault := v.vault, stakes := v.stakes)
  {
  }

  /** A claim pays the settled reward out of the funding, paused or not; the stake stays. */
  lemma ClaimEffect(p: Pool, who: Key, slot: u64)
    requires slot >= p.lastUpdate && ClaimRewards(p, who, slot).Ok?
    ensures var v := ClaimRewards(p, who, slot).value;
            && who in p.stakes && v.stakes == p.stakes[who := p.stakes[who].(earned := 0, paid := v.rpt)]
            && IsAccumulated(p, slot, v.rpt) && p.rewardPool > v.rewardPool
            && IsEarned(p.stakes[who], v.rpt, p.rewardPool - v.rewardPool)
            && p.vault - v.vault == p.rewardPool - v.rewardPool
            && v == p.(rpt := v.rpt, lastUpdate := slot, vault := v.vault, rewardPool := v.rewardPool,
                       stakes := v.stakes)
  {
    SettlementEffect(p, who, slot);
  }

  /** What a staker can do, in any state that can come about: stake, unstake and claim are refused for these reasons
      and no other. `rpt` and `earned` are what a settlement now would come to. */
  lemma StakerSucceedsExactlyWhen(p: Pool, h: History, who: Key, amount: u64, funds: nat, slot: u64, rpt: nat,
                                  earned: nat)
    requires Good(p, h) && who in p.stakes && IsAccumulated(p, slot, rpt) && IsEarned(p.stakes[who], rpt, earned)
    ensures var settles := EmissionFits(p, slot, rpt) && RewardFits(p.stakes[who], rpt, earned);
            && (Stake(p, who, amount, funds, slot).Ok?
                <==> settles && 0 < amount <= funds && !p.paused && p.vault + amount <= U64_MAX)
            && (Unstake(p, who, amount, slot).Ok? <==> settles && 0 < amount <= p.stakes[who].staked && !p.paused)
            && (ClaimRewards(p, who, slot).Ok? <==> settles && 0 < earned <= p.rewardPool)
  {
    StakerIsBacked(p, h, who);
    VaultCoversStakes(p, h);
    SettlementSucceedsExactlyWhen(p, who, slot, rpt, earned);
    StakeEffect(p, h, who, amount, funds, slot);
  }

  lemma FirstStakeSucceedsExactlyWhen(p: Pool, h: History, who: Key, amount: u64, funds: nat, slot: u64, rpt: nat)
    requires Good(p, h) && who !in p.stakes && IsAccumulated(p, slot, rpt)
    ensures Stake(p, who, amount, funds, slot).Ok?
            <==> && EmissionFits(p, slot, rpt) && 0 < amount <= funds && !p.paused && p.vault + amount <= U64_MAX
    ensures Unstake(p, who, amount, slot).Err? && ClaimRewards(p, who, slot).Err?
  {
    AccumulationIsUnique(p, slot, rpt);
    StakeEffect(p, h, who, amount, funds, slot);
  }

  /** Funding goes to the rewards alone. */
  lemma FundEffect(p: Pool, amount: u64, funds: nat)
    ensures FundRewardPool(p, amount, funds).Ok?
            <==> 0 < amount <= funds && p.vault + amount <= U64_MAX && p.rewardPool + amount <= U64_MAX
    ensures FundRewardPool(p, amount, funds).Ok? ==>
              var v := FundRewardPool(p, amount, funds).value;
              && v.vault - p.vault == v.rewardPool - p.rewardPool == amount
              && v == p.(vault := v.vault, rewardPool := v.rewardPool)
  {
  }

  /** A pause stops staking and unstaking and nothing else. */
  lemma PauseEffect(p: Pool, op: Op, slot: u64)
    requires p.paused
    ensures op.StakeOp? || op.UnstakeOp? ==> Execute(p, op, slot).Err?
    ensures op.WithdrawOp? || op.ClaimOp? || op.FundOp? ==>
              var running := Execute(p.(paused := false), op, slot);
              && (Execute(p, op, slot).Ok? <==> running.Ok?)
              && (running.Ok? ==> Execute(p, op, slot).value == running.value.(paused := true))
  {
  }

  /** A program starts empty and running, with a week of slots to wait if none are given. */
  lemma InitialEffect(rate: u64, unbondingSlots: u64, slot: u64)
    ensures var p := Initialize(rate, unbondingSlots, slot);
            && p.unbondingSlots == (if unbondingSlots > 0 then unbondingSlots else 120_960)
            && p.rate == rate && p.lastUpdate == slot && !p.paused && p.stakes == map[]
            && p.totalStaked == p.rpt == p.rewardPool == p.vault == 0
  {
  }

  // ---------- Refusals ----------

  /** What must be the case when an instruction reports an error. */
  predicate StakingCause(p: Pool, op: Op, slot: u64, e: StakingError) {
    match e
    case ZeroAmount => (op.StakeOp? || op.UnstakeOp? || op.FundOp?) && op.amount == 0
    case ProgramPaused => (op.StakeOp? || op.UnstakeOp?) && p.paused
    case InsufficientStake =>
      if op.UnstakeOp? then op.who in p.stakes && p.stakes[op.who].staked < op.amount
      else op.ClaimOp? && op.who in p.stakes && UpdateReward(p, op.who, slot).Ok?
           && UpdateReward(p, op.who, slot).value.stakes[op.who].earned > p.rewardPool
    case UnbondingNotComplete =>
      op.WithdrawOp? && op.who in p.stakes && slot < p.stakes[op.who].unbondingStart + p.unbondingSlots
    case NoUnbonding => op.WithdrawOp? && op.who in p.stakes && p.stakes[op.who].unbonding == 0
    case NoRewardsToClaim => op.ClaimOp? && op.who in p.stakes && p.stakes[op.who].earned == 0
    case AccountMissing => (op.UnstakeOp? || op.WithdrawOp? || op.ClaimOp?) && op.who !in p.stakes
    case TransferFailed => (op.StakeOp? || op.FundOp?) && (op.amount > op.funds || p.vault + op.amount > U64_MAX)
    case Overflow => !op.PauseOp?
  }

  /** No refusal names a cause that is not there. */
  lemma StakingRefusalsAreTrue(p: Pool, op: Op, slot: u64)
    requires Execute(p, op, slot).Err?
    ensures StakingCause(p, op, slot, Execute(p, op, slot).error)
  {
    match op {
      case StakeOp(_, _, _) => StakeRefusalsAreTrue(p, op, slot);
      case UnstakeOp(_, _) => UnstakeRefusalsAreTrue(p, op, slot);
      case ClaimOp(_) => ClaimRefusalsAreTrue(p, op, slot);
      case _ =>
    }
  }

  lemma StakeRefusalsAreTrue(p: Pool, op: Op, slot: u64)
    requires op.StakeOp? && Execute(p, op, slot).Err?
    ensures StakingCause(p, op, slot, Execute(p, op, slot).error)
  {
  }

  lemma UnstakeRefusalsAreTrue(p: Pool, op: Op, slot: u64)
    requires op.UnstakeOp? && Execute(p, op, slot).Err?
    ensures StakingCause(p, op, slot, Execute(p, op, slot).error)
  {
  }

  lemma RewardsNeverFall(st: StakeAccount, rpt: u128)
    requires Earned(st, rpt).Ok?
    ensures Earned(st, rpt).value >= st.earned
  {
    DivNonnegative(st.staked * (rpt - st.paid), PRECISION);
  }

  lemma ClaimRefusalsAreTrue(p: Pool, op: Op, slot: u64)
    requires op.ClaimOp? && Execute(p, op, slot).Err?
    ensures StakingCause(p, op, slot, Execute(p, op, slot).error)
  {
    if op.who in p.stakes && UpdateReward(p, op.who, slot).Ok? {
      RewardsNeverFall(p.stakes[op.who], CurrentRewardPerToken(p, slot).value);
    }
  }
}

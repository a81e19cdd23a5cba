/** The staking program over accounts updated in place. The handlers leave the accounts as their specifications
    say, and untouched when they fail; the entry point dispatches to them and keeps the program's invariant. */
module StakingProgram {
  import opened Numbers
  import opened Staking
  import opened StakingRuns
  import opened Totals

  function Verdict(step: Step): Outcome<StakingError> {
    if step.Ok? then Pass else Fail(step.error)
  }

  function After(p: Pool, step: Step): Pool {
    if step.Ok? then step.value else p
  }

  class Program {
    var totalStaked: u64
    var rpt: u128
    var lastUpdate: u64
    const unbondingSlots: u64
    const rate: u64
    var paused: bool
    var rewardPool: u64
    var stakes: map<Key, StakeAccount>
    var vault: u64

    ghost var history: History

    /** The books balance, rewards are covered, and every staker's are those of the reference scheme. */
    ghost predicate Valid()
      reads this
    {
      Good(View(), history)
    }

    /** What Valid means for the money: all that was claimed and is owed was emitted, and the vault holds the
        principal, the unbonding amounts and the unclaimed funding. */
    lemma Solvency()
      requires Valid()
      ensures PRECISION * history.claimed + Total(stakes, OwedAt(rpt)) <= PRECISION * (rate * history.activeSlots)
      ensures vault == totalStaked + Total(stakes, UnbondingOf) + (history.funded - history.claimed)
      ensures totalStaked == Total(stakes, StakedOf)
    {
      GoodIsSolvent(View(), history);
    }

    function View(): Pool
      reads this
    {
      Pool(totalStaked, rpt, lastUpdate, unbondingSlots, rate, paused, rewardPool, stakes, vault)
    }

    constructor (rate: u64, unbondingSlots: u64, slot: u64)
      ensures View() == Initialize(rate, unbondingSlots, slot) && history == EMPTY_HISTORY && Valid()
    {
      this.rate := rate;
      this.unbondingSlots := if unbondingSlots == 0 then 120_960 else unbondingSlots;
      totalStaked, rpt, lastUpdate, paused, rewardPool, stakes, vault := 0, 0, slot, false, 0, map[], 0;
      history := EMPTY_HISTORY;
      new;
      GoodAtStart(rate, unbondingSlots, slot);
    }

    /** The accumulator and one settled stake account, computed before anything is written back. */
    method Refresh(st: StakeAccount, slot: u64) returns (newRpt: u128, settled: StakeAccount, r: Outcome<StakingError>)
      ensures var cur := CurrentRewardPerToken(View(), slot);
              && (r.Pass? <==> cur.Ok? && Earned(st, cur.value).Ok?)
              && (r.Pass? ==> newRpt == cur.value && settled == st.(earned := Earned(st, newRpt).value, paid := newRpt))
              && (r.Fail? ==> r.reason == Overflow)
    {
      newRpt, settled := rpt, st;
      if totalStaked != 0 {
        if slot < lastUpdate { r := Fail(Overflow); return; }
        var emission := Emission(slot - lastUpdate, rate);
        if emission > U128_MAX { r := Fail(Overflow); return; }
        var added := emission / totalStaked;
        assert added == Added(slot - lastUpdate, rate, totalStaked);
        if rpt + added > U128_MAX { r := Fail(Overflow); return; }
        newRpt := rpt + added;
      }
      var earned := Earned(st, newRpt);
      if earned.Err? { r := Fail(Overflow); return; }
      settled := st.(earned := earned.value, paid := newRpt);
      r := Pass;
    }

    method ProcessStake(who: Key, amount: u64, funds: nat, slot: u64) returns (r: Outcome<StakingError>)
      modifies this`totalStaked, this`rpt, this`lastUpdate, this`stakes, this`vault
      ensures r == Verdict(Stake(old(View()), who, amount, funds, slot))
      ensures View() == After(old(View()), Stake(old(View()), who, amount, funds, slot))
    {
      if amount == 0 { return Fail(ZeroAmount); }
      if paused { return Fail(ProgramPaused); }
      var newRpt, st;
      if who in stakes {
        newRpt, st, r := Refresh(stakes[who], slot);
        if r.Fail? { return; }
      } else {
        var current := CurrentRewardPerToken(View(), slot);
        if current.Err? { return Fail(current.error); }
        newRpt, st := current.value, StakeAccount(0, current.value, 0, 0, 0);
      }
      if amount > funds || vault + amount > U64_MAX { return Fail(TransferFailed); }
      if st.staked + amount > U64_MAX || totalStaked + amount > U64_MAX { return Fail(Overflow); }
      rpt, lastUpdate := newRpt, slot;
      vault := vault + amount;
      totalStaked := totalStaked + amount;
      stakes := stakes[who := st.(staked := st.staked + amount)];
      r := Pass;
    }

    method ProcessUnstake(who: Key, amount: u64, slot: u64) returns (r: Outcome<StakingError>)
      modifies this`totalStaked, this`rpt, this`lastUpdate, this`stakes
      ensures r == Verdict(Unstake(old(View()), who, amount, slot))
      ensures View() == After(old(View()), Unstake(old(View()), who, amount, slot))
      ensures r.Pass? ==>
                && who in old(stakes) && who in stakes && stakes[who].unbondingStart == slot
                && stakes[who].unbonding - old(stakes[who].unbonding) == amount
                && old(stakes[who].staked) - stakes[who].staked == amount && vault == old(vault)
    {
      if amount == 0 { return Fail(ZeroAmount); }
      if paused { return Fail(ProgramPaused); }
      if who !in stakes { return Fail(AccountMissing); }
      if stakes[who].staked < amount { return Fail(InsufficientStake); }
      var newRpt, st;
      newRpt, st, r := Refresh(stakes[who], slot);
      if r.Fail? { return; }
      if st.unbonding + amount > U64_MAX || amount > totalStaked { return Fail(Overflow); }
      rpt, lastUpdate := newRpt, slot;
      totalStaked := totalStaked - amount;
      stakes := stakes[who := st.(staked := st.staked - amount, unbonding := st.unbonding + amount,
                                  unbondingStart := slot)];
    }

    method ProcessWithdrawUnstaked(who: Key, slot: u64) returns (r: Outcome<StakingError>)
      modifies this`stakes, this`vault
      ensures r == Verdict(WithdrawUnstaked(old(View()), who, slot))
      ensures View() == After(old(View()), WithdrawUnstaked(old(View()), who, slot))
    {
      if who !in stakes { return Fail(AccountMissing); }
      var st := stakes[who];
      if st.unbonding == 0 { return Fail(NoUnbonding); }
      var unlock := st.unbondingStart + unbondingSlots;
      if unlock > U64_MAX { return Fail(Overflow); }
      if slot < unlock { return Fail(UnbondingNotComplete); }
      if st.unbonding > vault { return Fail(Overflow); }
      vault := vault - st.unbonding;
      stakes := stakes[who := st.(unbonding := 0, unbondingStart := 0)];
      r := Pass;
    }

    method ProcessClaimRewards(who: Key, slot: u64) returns (r: Outcome<StakingError>)
      modifies this`rpt, this`lastUpdate, this`rewardPool, this`stakes, this`vault
      ensures r == Verdict(ClaimRewards(old(View()), who, slot))
      ensures View() == After(old(View()), ClaimRewards(old(View()), who, slot))
    {
      if who !in stakes { return Fail(AccountMissing); }
      var newRpt, st;
      newRpt, st, r := Refresh(stakes[who], slot);
      if r.Fail? { return; }
      var reward := st.earned;
      if reward == 0 { return Fail(NoRewardsToClaim); }
      if rewardPool < reward { return Fail(InsufficientStake); }
      if vault < reward { return Fail(Overflow); }
      rpt, lastUpdate := newRpt, slot;
      vault := vault - reward;
      rewardPool := rewardPool - reward;
      stakes := stakes[who := st.(earned := 0)];
    }

    method ProcessFundRewardPool(amount: u64, funds: nat) returns (r: Outcome<StakingError>)
      modifies this`rewardPool, this`vault
      ensures r == Verdict(FundRewardPool(old(View()), amount, funds))
      ensures View() == After(old(View()), FundRewardPool(old(View()), amount, funds))
    {
      if amount == 0 { return Fail(ZeroAmount); }
      if amount > funds || vault + amount > U64_MAX { return Fail(TransferFailed); }
      if rewardPool + amount > U64_MAX { return Fail(Overflow); }
      vault := vault + amount;
      rewardPool := rewardPool + amount;
      r := Pass;
    }

    /** The history of an instruction about to run in a slot that does not go back. */
    ghost method Note(op: Op, slot: u64)
      requires Valid() && slot >= lastUpdate
      modifies this`history
      ensures history == Noted(old(history), View(), op, slot)
      ensures Good(After(View(), Execute(View(), op, slot)), history)
    {
      if Execute(View(), op, slot).Ok? {
        StepKeepsGood(View(), history, op, slot);
      }
      history := Noted(history, View(), op, slot);
    }

    method Dispatch(op: Op, slot: u64) returns (r: Outcome<StakingError>)
      modifies this`totalStaked, this`rpt, this`lastUpdate, this`paused, this`rewardPool, this`stakes, this`vault
      ensures r == Verdict(Execute(old(View()), op, slot))
      ensures View() == After(old(View()), Execute(old(View()), op, slot))
    {
      match op {
        case StakeOp(who, amount, funds) => r := ProcessStake(who, amount, funds, slot);
        case UnstakeOp(who, amount) => r := ProcessUnstake(who, amount, slot);
        case WithdrawOp(who) => r := ProcessWithdrawUnstaked(who, slot);
        case ClaimOp(who) => r := ProcessClaimRewards(who, slot);
        case FundOp(amount, funds) => r := ProcessFundRewardPool(amount, funds);
        case PauseOp(value) =>
          paused := value;
          r := Pass;
      }
    }

    /** The entry point. In slots that do not go back every instruction is entered in the history and keeps the
        program solvent and every staker's rewards those of the reference scheme. */
    method ProcessInstruction(op: Op, slot: u64) returns (r: Outcome<StakingError>)
      requires Valid()
      modifies this
      ensures r == Verdict(Execute(old(View()), op, slot))
      ensures View() == After(old(View()), Execute(old(View()), op, slot))
      ensures slot >= old(lastUpdate) ==> history == Noted(old(history), old(View()), op, slot) && Valid()
      ensures slot >= old(lastUpdate) ==>
                && PRECISION * history.claimed + Total(stakes, OwedAt(rpt)) <= PRECISION * (rate * history.activeSlots)
                && vault == totalStaked + Total(stakes, UnbondingOf) + (history.funded - history.claimed)
    {
      if slot >= lastUpdate {
        Note(op, slot);
        r := Dispatch(op, slot);
        Solvency();
      } else {
        r := Dispatch(op, slot);
      }
    }
  }
}

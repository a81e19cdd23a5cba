/** When the staking program's arithmetic fits its widths, and what happens once it does not. */
module StakingLimits {
  import opened Numbers
  import opened Totals
  import opened Staking
  import opened StakingRuns

  // ---------- While the emission fits ----------

  /** The accumulator has grown by no more than all that was emitted. */
  ghost predicate Slow(p: Pool, h: History) {
    p.rpt <= Emission(h.activeSlots, p.rate)
  }

  lemma EmissionAdds(a: nat, b: nat, rate: nat)
    ensures Emission(a + b, rate) == Emission(a, rate) + Emission(b, rate)
  {
    assert (a + b) * rate == a * rate + b * rate;
  }

  lemma AddedIsEmitted(slots: nat, rate: nat, total: nat)
    requires total > 0
    ensures 0 <= Added(slots, rate, total) <= Emission(slots, rate)
  {
    var n := Emission(slots, rate);
    DivNonnegative(n, total);
    DivBounds(n, total);
    MulMono(n / total, 1, total);
  }

  lemma RptStaysSlow(p: Pool, h: History, slot: u64)
    requires Slow(p, h) && h.records.Keys == p.stakes.Keys && slot >= p.lastUpdate
    requires CurrentRewardPerToken(p, slot).Ok?
    ensures CurrentRewardPerToken(p, slot).value <= Emission(Accrue(h, p, slot).activeSlots, p.rate)
  {
    if p.totalStaked > 0 {
      AddedIsEmitted(slot - p.lastUpdate, p.rate, p.totalStaked);
      EmissionAdds(h.activeSlots, slot - p.lastUpdate, p.rate);
    }
  }

  lemma StepStaysSlow(p: Pool, h: History, op: Op, slot: u64)
    requires Good(p, h) && Slow(p, h) && slot >= p.lastUpdate && Execute(p, op, slot).Ok?
    ensures Slow(Execute(p, op, slot).value, Observe(h, p, op, slot))
  {
    if op.StakeOp? || op.UnstakeOp? || op.ClaimOp? {
      RptStaysSlow(p, h, slot);
    }
  }

  lemma {:induction false} RunStaysSlow(p: Pool, h: History, ops: seq<TimedOp>)
    requires Good(p, h) && Slow(p, h) && WellTimed(p.lastUpdate, ops)
    ensures var (p', h') := Run(p, h, ops); Slow(p', h')
    decreases |ops|
  {
    if ops != [] {
      var r := Execute(p, ops[0].op, ops[0].slot);
      if r.Err? {
        WellTimedWeaken(p.lastUpdate, ops[0].slot, ops[1..]);
        RunStaysSlow(p, h, ops[1..]);
      } else {
        StepKeepsGood(p, h, ops[0].op, ops[0].slot);
        StepStaysSlow(p, h, ops[0].op, ops[0].slot);
        StepElapsed(p, h, ops[0].op, ops[0].slot);
        WellTimedWeaken(r.value.lastUpdate, ops[0].slot, ops[1..]);
        RunStaysSlow(r.value, Observe(h, p, ops[0].op, ops[0].slot), ops[1..]);
      }
    }
  }

  lemma EmissionFits(slots: nat, rate: nat)
    requires rate * slots <= U64_MAX
    ensures Emission(slots, rate) <= PRECISION * U64_MAX < U128_MAX
  {
  }

  /** With all emission so far within 64 bits the accumulator can be computed. */
  lemma RptFits(p: Pool, h: History, slot: u64)
    requires Slow(p, h) && h.records.Keys == p.stakes.Keys && slot >= p.lastUpdate
    requires p.rate * Accrue(h, p, slot).activeSlots <= U64_MAX
    ensures CurrentRewardPerToken(p, slot).Ok?
  {
    if p.totalStaked > 0 {
      var slots := slot - p.lastUpdate;
      AddedIsEmitted(slots, p.rate, p.totalStaked);
      EmissionAdds(h.activeSlots, slots, p.rate);
      EmissionFits(h.activeSlots + slots, p.rate);
    }
  }

  /** So can what each staker earned. */
  lemma EarnedFits(p: Pool, h: History, who: Key)
    requires Good(p, h) && who in p.stakes && p.rate * h.activeSlots <= U64_MAX
    ensures Earned(p.stakes[who], p.rpt).Ok?
  {
    var st := p.stakes[who];
    GoodIsSolvent(p, h);
    forall i | i in p.stakes ensures OwedAt(p.rpt)(p.stakes[i]) >= 0 {
      MulMono(p.stakes[i].staked, 0, p.rpt - p.stakes[i].paid);
    }
    TotalBoundsMember(p.stakes, who, OwedAt(p.rpt));
    MulMono(st.staked, 0, p.rpt - st.paid);
    PayFits(st.earned, st.staked * (p.rpt - st.paid), p.rate * h.activeSlots);
  }

  lemma PayFits(earned: nat, pay: nat, emitted: nat)
    requires earned * PRECISION + pay <= PRECISION * emitted && emitted <= U64_MAX
    ensures pay <= U128_MAX && pay / PRECISION <= U64_MAX && earned + pay / PRECISION <= U64_MAX
  {
  }

  /** While the rate times the slots with something staked fits 64 bits, every staker can be settled. */
  lemma SettlementFits(p: Pool, h: History, who: Key, slot: u64)
    requires Good(p, h) && Slow(p, h) && slot >= p.lastUpdate && who in p.stakes
    requires p.rate * Accrue(h, p, slot).activeSlots <= U64_MAX
    ensures UpdateReward(p, who, slot).Ok?
  {
    RptFits(p, h, slot);
    GlobalUpdateKeepsGood(p, h, slot);
    EarnedFits(UpdateRewardGlobal(p, slot).value, Accrue(h, p, slot), who);
  }

  /** A staker whose settlement fits is refused an unstake for its own arguments only, and a claim for having earned
      nothing or for lack of funding. */
  lemma StakerIsServed(p: Pool, h: History, who: Key, amount: u64, slot: u64)
    requires Good(p, h) && slot >= p.lastUpdate && who in p.stakes && UpdateReward(p, who, slot).Ok?
    ensures Unstake(p, who, amount, slot).Ok? <==> amount > 0 && !p.paused && p.stakes[who].staked >= amount
    ensures var earned := UpdateReward(p, who, slot).value.stakes[who].earned;
            ClaimRewards(p, who, slot).Ok? <==> 0 < earned <= p.rewardPool
  {
    StakerIsBacked(p, h, who);
  }

  /** In every reachable state, as long as rate times age fits 64 bits, that is everybody. */
  lemma StakersAreServed(
      rate: u64, unbondingSlots: u64, start: u64, ops: seq<TimedOp>, who: Key, amount: u64, slot: u64)
    requires WellTimed(start, ops)
    ensures var (p, h) := Reached(rate, unbondingSlots, start, ops);
            slot >= p.lastUpdate && slot >= start && rate * (slot - start) <= U64_MAX && who in p.stakes ==>
              && UpdateReward(p, who, slot).Ok?
              && (Unstake(p, who, amount, slot).Ok? <==> amount > 0 && !p.paused && p.stakes[who].staked >= amount)
              && var earned := UpdateReward(p, who, slot).value.stakes[who].earned;
                 (ClaimRewards(p, who, slot).Ok? <==> 0 < earned <= p.rewardPool)
  {
    GoodAtStart(rate, unbondingSlots, start);
    RunKeepsGood(Initialize(rate, unbondingSlots, start), EMPTY_HISTORY, ops);
    RunStaysSlow(Initialize(rate, unbondingSlots, start), EMPTY_HISTORY, ops);
    var (p, h) := Reached(rate, unbondingSlots, start, ops);
    if slot >= p.lastUpdate && slot >= start && rate * (slot - start) <= U64_MAX && who in p.stakes {
      MulMono(rate, Accrue(h, p, slot).activeSlots, slot - start);
      SettlementFits(p, h, who, slot);
      StakerIsServed(p, h, who, amount, slot);
    }
  }

  /** The vault covers each staker's principal, unbonding amount and the reward pool at once. */
  lemma StakerIsBacked(p: Pool, h: History, who: Key)
    requires Good(p, h) && who in p.stakes
    ensures p.stakes[who].staked + p.stakes[who].unbonding + p.rewardPool <= p.vault
    ensures p.stakes[who].staked <= p.totalStaked
  {
    TotalBoundsMember(p.stakes, who, StakedOf);
    TotalBoundsMember(p.stakes, who, UnbondingOf);
  }

  // ---------- Once it does not ----------

  /** Something is staked, and the emission since the last update no longer fits 128 bits. */
  predicate Overdue(p: Pool, slot: nat) {
    p.totalStaked > 0 && slot >= p.lastUpdate && Emission(slot - p.lastUpdate, p.rate) > U128_MAX
  }

  lemma OverdueStays(p: Pool, slot: nat, later: nat)
    requires Overdue(p, slot) && later >= slot
    ensures Overdue(p, later)
  {
    EmissionAdds(slot - p.lastUpdate, later - slot, p.rate);
  }

  /** Nothing that touches the accumulator succeeds any more, nor changes it. */
  lemma OverdueStep(p: Pool, op: Op, slot: u64)
    requires Overdue(p, slot)
    ensures op.StakeOp? || op.UnstakeOp? || op.ClaimOp? ==> Execute(p, op, slot).Err?
    ensures Execute(p, op, slot).Ok? ==>
              var v := Execute(p, op, slot).value;
              && v.totalStaked == p.totalStaked && v.lastUpdate == p.lastUpdate && v.rate == p.rate
              && v.stakes.Keys == p.stakes.Keys
              && forall i | i in p.stakes :: v.stakes[i].staked == p.stakes[i].staked
  {
  }

  /** From then on every stake, unstake and claim fails in every later slot, whatever else happens: the accumulator and
      all principal stay where they are. */
  lemma {:induction false} PrincipalIsLocked(p: Pool, h: History, from: u64, ops: seq<TimedOp>, op: Op, slot: u64)
    requires Good(p, h) && Overdue(p, from) && WellTimed(p.lastUpdate, ops) && WellTimed(from, ops)
    requires forall i | 0 <= i < |ops| :: ops[i].slot <= slot
    requires slot >= from && (op.StakeOp? || op.UnstakeOp? || op.ClaimOp?)
    ensures var (v, _) := Run(p, h, ops);
            && Execute(v, op, slot).Err?
            && v.totalStaked == p.totalStaked && v.stakes.Keys == p.stakes.Keys
            && forall i | i in p.stakes :: v.stakes[i].staked == p.stakes[i].staked
    decreases |ops|
  {
    if ops == [] {
      OverdueStays(p, from, slot);
      OverdueStep(p, op, slot);
    } else {
      var first, rest := ops[0], ops[1..];
      var r := Execute(p, first.op, first.slot);
      OverdueStays(p, from, first.slot);
      OverdueStep(p, first.op, first.slot);
      assert forall i | 0 <= i < |rest| :: rest[i] == ops[i + 1];
      if r.Err? {
        WellTimedWeaken(p.lastUpdate, first.slot, rest);
        PrincipalIsLocked(p, h, first.slot, rest, op, slot);
      } else {
        StepKeepsGood(p, h, first.op, first.slot);
        WellTimedWeaken(r.value.lastUpdate, first.slot, rest);
        PrincipalIsLocked(r.value, Observe(h, p, first.op, first.slot), first.slot, rest, op, slot);
      }
    }
  }

  /** It happens at the highest rate after twenty slots with one lamport staked. */
  lemma LockIsReachable(unbondingSlots: u64)
    ensures var p0 := Initialize(U64_MAX, unbondingSlots, 0);
            var staked := Stake(p0, 1, 1, 1, 0);
            staked.Ok? && Overdue(staked.value, 20)
  {
    assert CurrentRewardPerToken(Initialize(U64_MAX, unbondingSlots, 0), 0) == Ok(0);
  }
}

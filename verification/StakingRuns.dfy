/** What every interleaving of stakers keeps: the vault ledger, reward solvency, and agreement of the
    lazy accumulator with paying every staker its share each slot. */
module StakingRuns {
  import opened Numbers
  import opened Totals
  import opened Staking

  // ---------- Reference scheme and history ----------

  /** The simple scheme: in every slot each staker is paid rate * stake / total, exactly. */
  ghost function PerSlotPay(staked: nat, total: nat, rate: nat, slots: nat): real
    requires total > 0
  {
    if slots == 0 then 0.0 else PerSlotPay(staked, total, rate, slots - 1) + (rate * staked) as real / total as real
  }

  /** What one staker was paid in fact and in the reference scheme, with the two sources of rounding:
      the stake held over the global updates, and the number of settlements. */
  datatype Record = Record(claimed: nat, exact: real, held: nat, settlements: nat)

  datatype History = History(claimed: nat, funded: nat, activeSlots: nat, records: map<Key, Record>)

  ghost function AccrueOne(rec: Record, st: StakeAccount, p: Pool, slots: nat): Record {
    if p.totalStaked == 0 then rec else
      rec.(exact := rec.exact + PerSlotPay(st.staked, p.totalStaked, p.rate, slots), held := rec.held + st.staked)
  }

  /** Everyone is paid for the slots since the last update. */
  ghost function Accrue(h: History, p: Pool, slot: u64): History
    requires h.records.Keys == p.stakes.Keys && slot >= p.lastUpdate
  {
    h.(activeSlots := h.activeSlots + (if p.totalStaked == 0 then 0 else slot - p.lastUpdate),
       records := map i | i in p.stakes :: AccrueOne(h.records[i], p.stakes[i], p, slot - p.lastUpdate))
  }

  ghost function Settled(h: History, who: Key): History
  {
    if who in h.records
    then h.(records := h.records[who := h.records[who].(settlements := h.records[who].settlements + 1)])
    else h.(records := h.records[who := Record(0, 0.0, 0, 0)])
  }

  ghost function Paid(h: History, who: Key, amount: nat): History
    requires who in h.records
  {
    h.(claimed := h.claimed + amount,
       records := h.records[who := h.records[who].(claimed := h.records[who].claimed + amount)])
  }

  /** The history after an instruction that succeeded. */
  ghost function Observe(h: History, p: Pool, op: Op, slot: u64): History
    requires h.records.Keys == p.stakes.Keys && slot >= p.lastUpdate && Execute(p, op, slot).Ok?
  {
    match op
    case StakeOp(who, _, _) => Settled(Accrue(h, p, slot), who)
    case UnstakeOp(who, _) => Settled(Accrue(h, p, slot), who)
    case ClaimOp(who) =>
      Paid(Settled(Accrue(h, p, slot), who), who, UpdateReward(p, who, slot).value.stakes[who].earned)
    case FundOp(amount, _) => h.(funded := h.funded + amount)
    case WithdrawOp(_) => h
    case PauseOp(_) => h
  }

  // ---------- Invariants ----------

  function StakedOf(st: StakeAccount): int { st.staked }

  function UnbondingOf(st: StakeAccount): int { st.unbonding }

  function EarnedOf(st: StakeAccount): int { st.earned }

  /** An account's settled rewards less the part of the accumulator already paid on its stake. */
  function WeightOf(st: StakeAccount): int { st.earned * PRECISION - st.staked * st.paid }

  /** The books agree: stakes with their total, and the vault with principal, unbonding and reward pool. */
  ghost predicate Ledger(p: Pool) {
    && p.totalStaked == Total(p.stakes, StakedOf)
    && p.vault == p.totalStaked + Total(p.stakes, UnbondingOf) + p.rewardPool
    && forall i | i in p.stakes :: p.stakes[i].paid <= p.rpt
  }

  /** Settled, unsettled and claimed rewards together, scaled, against what the slots emitted. */
  ghost predicate Solvent(p: Pool, h: History) {
    && Total(p.stakes, WeightOf) + p.rpt * p.totalStaked + PRECISION * h.claimed <= PRECISION * (p.rate * h.activeSlots)
    && p.rewardPool + h.claimed == h.funded
  }

  /** How far a staker's scaled reference pay is above its claimed, settled and unsettled rewards. */
  ghost function Shortfall(p: Pool, h: History, i: Key): real
    requires i in p.stakes && i in h.records
  {
    var st, rec := p.stakes[i], h.records[i];
    PRECISION as real * rec.exact
    - (PRECISION * (rec.claimed + st.earned) + st.staked * (p.rpt - st.paid)) as real
  }

  ghost predicate Refines(p: Pool, h: History) {
    && h.records.Keys == p.stakes.Keys
    && forall i | i in p.stakes ::
         0.0 <= Shortfall(p, h, i) <= (h.records[i].held + (PRECISION - 1) * h.records[i].settlements) as real
  }

  ghost predicate Good(p: Pool, h: History) {
    Ledger(p) && Solvent(p, h) && Refines(p, h)
  }

  // ---------- Global update ----------

  lemma QuotientAdds(a: real, b: real, d: real)
    requires d > 0.0
    ensures a / d + b / d == (a + b) / d
  {
  }

  lemma NextMultiple(n: nat, x: nat)
    ensures ((n + 1) * x) as real == (n * x) as real + x as real
  {
    assert (n + 1) * x == n * x + x;
  }

  lemma {:induction false} PerSlotPayClosed(staked: nat, total: nat, rate: nat, slots: nat)
    requires total > 0
    ensures PerSlotPay(staked, total, rate, slots) == (slots * (rate * staked)) as real / total as real
  {
    var one := rate * staked;
    if slots == 0 {
      assert slots * one == 0;
    } else {
      PerSlotPayClosed(staked, total, rate, slots - 1);
      QuotientAdds(((slots - 1) * one) as real, one as real, total as real);
      NextMultiple(slots - 1, one);
    }
  }

  lemma RealProduct(a: int, b: int)
    ensures (a * b) as real == a as real * b as real
  {
  }

  lemma QuotientBounds(low: real, num: real, high: real, den: real)
    requires den > 0.0 && low * den <= num <= high * den
    ensures low <= num / den <= high
  {
    var q := num / den;
    assert q * den == num;
    assert (q - low) * den >= 0.0 && (high - q) * den >= 0.0;
  }

  /** An integer sandwich carries over to the exact quotient. */
  lemma RealSandwich(low: int, num: int, high: int, den: nat)
    requires den > 0 && low * den <= num <= high * den
    ensures low as real <= num as real / den as real <= high as real
  {
    RealProduct(low, den);
    RealProduct(high, den);
    QuotientBounds(low as real, num as real, high as real, den as real);
  }

  lemma RealScale(scale: nat, num: nat, den: nat)
    requires den > 0
    ensures scale as real * (num as real / den as real) == (scale * num) as real / den as real
  {
    assert (scale * num) as real == scale as real * num as real;
  }

  /** Over one interval the accumulator pays a stake at most its exact share and less than one scaled
      unit per staked token below it. */
  lemma IntervalRounding(staked: nat, total: nat, rate: nat, slots: nat)
    requires total > 0
    ensures var added := Added(slots, rate, total);
            (staked * added) as real
              <= PRECISION as real * PerSlotPay(staked, total, rate, slots)
              <= (staked * added + staked) as real
  {
    var n, added := Emission(slots, rate), Added(slots, rate, total);
    PerSlotPayClosed(staked, total, rate, slots);
    RealScale(PRECISION, slots * (rate * staked), total);
    ShareOfEmission(staked, rate, slots);
    DivBounds(n, total);
    MulMono(staked, total * added, n);
    MulMono(staked, n, total * added + total);
    Distribute(staked, added, total);
    RealSandwich(staked * added, staked * n, staked * added + staked, total);
  }

  lemma ShareOfEmission(staked: nat, rate: nat, slots: nat)
    ensures PRECISION * (slots * (rate * staked)) == staked * Emission(slots, rate)
  {
    assert slots * (rate * staked) == staked * (slots * rate);
    assert staked * (slots * rate * PRECISION) == staked * (slots * rate) * PRECISION;
  }

  lemma Distribute(a: nat, b: nat, c: nat)
    ensures a * (c * b) == a * b * c
    ensures a * (c * b + c) == (a * b + a) * c
  {
    assert a * (c * b) == a * b * c;
    assert a * (c * b + c) == a * (c * b) + a * c;
    assert (a * b + a) * c == a * b * c + a * c;
  }

  lemma GlobalUpdateKeepsGood(p: Pool, h: History, slot: u64)
    requires Good(p, h) && slot >= p.lastUpdate && UpdateRewardGlobal(p, slot).Ok?
    ensures Good(UpdateRewardGlobal(p, slot).value, Accrue(h, p, slot))
  {
    var g, h', slots := UpdateRewardGlobal(p, slot).value, Accrue(h, p, slot), slot - p.lastUpdate;
    if p.totalStaked > 0 {
      AccumulatorIsCovered(p.rpt, p.totalStaked, p.rate, h.activeSlots, slots);
    }
    forall i | i in p.stakes
      ensures 0.0 <= Shortfall(g, h', i) <= (h'.records[i].held + (PRECISION - 1) * h'.records[i].settlements) as real
    {
      AccrualRounding(p, h, slot, i);
    }
  }

  lemma AccumulatorIsCovered(rpt: nat, total: nat, rate: nat, before: nat, slots: nat)
    requires total > 0
    ensures (rpt + Added(slots, rate, total)) * total - rpt * total
              <= PRECISION * (rate * (before + slots)) - PRECISION * (rate * before)
  {
    DivBounds(Emission(slots, rate), total);
    assert rate * (before + slots) == rate * before + slots * rate;
    assert (rpt + Added(slots, rate, total)) * total == rpt * total + Added(slots, rate, total) * total;
  }

  lemma AccrualMovesShortfall(p: Pool, h: History, slot: u64, i: Key)
    requires h.records.Keys == p.stakes.Keys && i in p.stakes && p.totalStaked > 0
    requires slot >= p.lastUpdate && UpdateRewardGlobal(p, slot).Ok?
    ensures var g, h', staked := UpdateRewardGlobal(p, slot).value, Accrue(h, p, slot), p.stakes[i].staked;
            && Shortfall(g, h', i)
               == Shortfall(p, h, i)
                  + PRECISION as real * PerSlotPay(staked, p.totalStaked, p.rate, slot - p.lastUpdate)
                  - (staked * Added(slot - p.lastUpdate, p.rate, p.totalStaked)) as real
            && h'.records[i].held == h.records[i].held + staked && h'.records[i].settlements == h.records[i].settlements
  {
    var st, slots := p.stakes[i], slot - p.lastUpdate;
    ShortfallMoves(h.records[i].exact, PerSlotPay(st.staked, p.totalStaked, p.rate, slots),
                   PRECISION * (h.records[i].claimed + st.earned), st.staked, p.rpt - st.paid,
                   Added(slots, p.rate, p.totalStaked));
  }

  lemma AccrualRounding(p: Pool, h: History, slot: u64, i: Key)
    requires h.records.Keys == p.stakes.Keys && i in p.stakes
    requires 0.0 <= Shortfall(p, h, i) <= (h.records[i].held + (PRECISION - 1) * h.records[i].settlements) as real
    requires slot >= p.lastUpdate && UpdateRewardGlobal(p, slot).Ok?
    ensures var g, h' := UpdateRewardGlobal(p, slot).value, Accrue(h, p, slot);
            0.0 <= Shortfall(g, h', i) <= (h'.records[i].held + (PRECISION - 1) * h'.records[i].settlements) as real
  {
    if p.totalStaked > 0 {
      IntervalRounding(p.stakes[i].staked, p.totalStaked, p.rate, slot - p.lastUpdate);
      AccrualMovesShortfall(p, h, slot, i);
    }
  }

  /** A shortfall after more exact pay and a higher accumulator: it moves by their difference. */
  lemma ShortfallMoves(exact: real, pay: real, settled: int, staked: nat, unpaid: int, added: nat)
    ensures PRECISION as real * (exact + pay) - (settled + staked * (unpaid + added)) as real
            == PRECISION as real * exact - (settled + staked * unpaid) as real
               + PRECISION as real * pay - (staked * added) as real
  {
    AddScaled(staked, unpaid, added);
  }

  // ---------- Settlement ----------

  /** A settlement pays whole lamports: never more than is due, and less by under one lamport. */
  lemma SettlementRounding(st: StakeAccount, rpt: u128)
    requires Earned(st, rpt).Ok?
    ensures var due := st.staked * (rpt - st.paid);
            PRECISION * (Earned(st, rpt).value - st.earned) <= due
              <= PRECISION * (Earned(st, rpt).value - st.earned) + (PRECISION - 1)
  {
    DivBounds(st.staked * (rpt - st.paid), PRECISION);
  }

  /** Overwriting one account moves each sum by that account's change. */
  lemma SumsAfterPut(p: Pool, who: Key, st: StakeAccount)
    ensures var was := if who in p.stakes then p.stakes[who] else StakeAccount(0, 0, 0, 0, 0);
            var stakes := p.stakes[who := st];
            && Total(stakes, StakedOf) == Total(p.stakes, StakedOf) + st.staked - was.staked
            && Total(stakes, UnbondingOf) == Total(p.stakes, UnbondingOf) + st.unbonding - was.unbonding
            && Total(stakes, EarnedOf) == Total(p.stakes, EarnedOf) + st.earned - was.earned
            && Total(stakes, WeightOf) == Total(p.stakes, WeightOf) + WeightOf(st) - WeightOf(was)
  {
    TotalPut(p.stakes, who, st, StakedOf);
    TotalPut(p.stakes, who, st, UnbondingOf);
    TotalPut(p.stakes, who, st, EarnedOf);
    TotalPut(p.stakes, who, st, WeightOf);
  }

  lemma MulSub(a: int, b: int, c: int)
    ensures a * (b - c) == a * b - a * c
  {
  }

  /** Writing one account leaves every other staker's shortfall as it was. */
  lemma OthersUntouched(u: Pool, h: History, v: Pool, h': History, who: Key)
    requires Refines(u, h) && v.rpt == u.rpt
    requires v.stakes.Keys == u.stakes.Keys + {who} && h'.records.Keys == v.stakes.Keys
    requires forall i | i in u.stakes && i != who :: v.stakes[i] == u.stakes[i] && h'.records[i] == h.records[i]
    requires 0.0 <= Shortfall(v, h', who)
                 <= (h'.records[who].held + (PRECISION - 1) * h'.records[who].settlements) as real
    ensures Refines(v, h')
  {
    forall i | i in v.stakes && i != who
      ensures Shortfall(v, h', i) == Shortfall(u, h, i)
    {
    }
  }

  ghost function SettledAt(st: StakeAccount, rpt: u128): StakeAccount
    requires Earned(st, rpt).Ok?
  {
    st.(earned := Earned(st, rpt).value, paid := rpt)
  }

  lemma SettleKeepsSums(g: Pool, h: History, who: Key)
    requires Ledger(g) && Solvent(g, h) && who in g.stakes && Earned(g.stakes[who], g.rpt).Ok?
    ensures var u := g.(stakes := g.stakes[who := SettledAt(g.stakes[who], g.rpt)]);
            Ledger(u) && Solvent(u, Settled(h, who))
  {
    var was := g.stakes[who];
    SumsAfterPut(g, who, SettledAt(was, g.rpt));
    SettlementRounding(was, g.rpt);
    MulSub(was.staked, g.rpt, was.paid);
  }

  lemma SettleKeepsRefines(g: Pool, h: History, who: Key)
    requires Refines(g, h) && who in g.stakes && Earned(g.stakes[who], g.rpt).Ok?
    ensures Refines(g.(stakes := g.stakes[who := SettledAt(g.stakes[who], g.rpt)]), Settled(h, who))
  {
    var was := g.stakes[who];
    var u, h' := g.(stakes := g.stakes[who := SettledAt(was, g.rpt)]), Settled(h, who);
    SettlementRounding(was, g.rpt);
    assert u.stakes[who].staked * (u.rpt - u.stakes[who].paid) == 0;
    var lost := was.staked * (g.rpt - was.paid) - PRECISION * (u.stakes[who].earned - was.earned);
    assert Shortfall(u, h', who) == Shortfall(g, h, who) + lost as real;
    OthersUntouched(g, h, u, h', who);
  }

  lemma SettleKeepsGood(g: Pool, h: History, who: Key)
    requires Good(g, h) && who in g.stakes && Earned(g.stakes[who], g.rpt).Ok?
    ensures Good(g.(stakes := g.stakes[who := SettledAt(g.stakes[who], g.rpt)]), Settled(h, who))
  {
    SettleKeepsSums(g, h, who);
    SettleKeepsRefines(g, h, who);
  }

  lemma OpenKeepsGood(g: Pool, h: History, who: Key)
    requires Good(g, h) && who !in g.stakes
    ensures Good(g.(stakes := g.stakes[who := StakeAccount(0, g.rpt, 0, 0, 0)]), Settled(h, who))
  {
    var u, h' := g.(stakes := g.stakes[who := StakeAccount(0, g.rpt, 0, 0, 0)]), Settled(h, who);
    SumsAfterPut(g, who, u.stakes[who]);
    OthersUntouched(g, h, u, h', who);
  }

  lemma SettleOrOpenKeepsGood(p: Pool, h: History, who: Key, slot: u64)
    requires Good(p, h) && slot >= p.lastUpdate && SettleOrOpen(p, who, slot).Ok?
    ensures var u := SettleOrOpen(p, who, slot).value;
            Good(u, Settled(Accrue(h, p, slot), who)) && u.stakes[who].paid == u.rpt
  {
    GlobalUpdateKeepsGood(p, h, slot);
    if who in p.stakes {
      SettleKeepsGood(UpdateRewardGlobal(p, slot).value, Accrue(h, p, slot), who);
    } else {
      OpenKeepsGood(UpdateRewardGlobal(p, slot).value, Accrue(h, p, slot), who);
    }
  }

  /** Right after a settlement a stake can change without disturbing what anyone is owed. */
  lemma RestakeKeepsGood(u: Pool, h: History, who: Key, st: StakeAccount, total: u64, vault: u64)
    requires Good(u, h) && who in u.stakes
    requires u.stakes[who].paid == u.rpt == st.paid && st.earned == u.stakes[who].earned
    requires total - u.totalStaked == st.staked - u.stakes[who].staked
    requires vault - u.vault == st.staked - u.stakes[who].staked + st.unbonding - u.stakes[who].unbonding
    ensures Good(u.(totalStaked := total, vault := vault, stakes := u.stakes[who := st]), h)
  {
    var v := u.(totalStaked := total, vault := vault, stakes := u.stakes[who := st]);
    RestakeKeepsSums(u, h, who, st, total, vault);
    assert Refines(v, h) by {
      ZeroProduct(st.staked, u.rpt - st.paid);
      ZeroProduct(u.stakes[who].staked, u.rpt - st.paid);
      assert Shortfall(v, h, who) == Shortfall(u, h, who);
      OthersUntouched(u, h, v, h, who);
    }
  }

  lemma ZeroProduct(a: int, b: int)
    requires b == 0
    ensures a * b == 0
  {
  }

  lemma RestakeKeepsSums(u: Pool, h: History, who: Key, st: StakeAccount, total: u64, vault: u64)
    requires Ledger(u) && Solvent(u, h) && who in u.stakes
    requires u.stakes[who].paid == u.rpt == st.paid && st.earned == u.stakes[who].earned
    requires total - u.totalStaked == st.staked - u.stakes[who].staked
    requires vault - u.vault == st.staked - u.stakes[who].staked + st.unbonding - u.stakes[who].unbonding
    ensures var v := u.(totalStaked := total, vault := vault, stakes := u.stakes[who := st]);
            Ledger(v) && Solvent(v, h)
  {
    SumsAfterPut(u, who, st);
    MulSub(u.rpt, total, u.totalStaked);
    MulSub(u.rpt, st.staked, u.stakes[who].staked);
  }

  lemma ClaimKeepsGood(u: Pool, h: History, who: Key, v: Pool)
    requires Good(u, h) && who in u.stakes && u.stakes[who].paid == u.rpt
    requires var e := u.stakes[who].earned;
             && e <= u.rewardPool && e <= u.vault
             && v == u.(vault := u.vault - e, rewardPool := u.rewardPool - e,
                        stakes := u.stakes[who := u.stakes[who].(earned := 0)])
    ensures Good(v, Paid(h, who, u.stakes[who].earned))
  {
    var st := u.stakes[who];
    var h' := Paid(h, who, st.earned);
    SumsAfterPut(u, who, st.(earned := 0));
    assert Shortfall(v, h', who) == Shortfall(u, h, who);
    OthersUntouched(u, h, v, h', who);
  }

  lemma WithdrawKeepsGood(p: Pool, h: History, who: Key, slot: u64)
    requires Good(p, h) && WithdrawUnstaked(p, who, slot).Ok?
    ensures Good(WithdrawUnstaked(p, who, slot).value, h)
  {
    var st := p.stakes[who];
    var v := WithdrawUnstaked(p, who, slot).value;
    SumsAfterPut(p, who, st.(unbonding := 0, unbondingStart := 0));
    assert Shortfall(v, h, who) == Shortfall(p, h, who);
    OthersUntouched(p, h, v, h, who);
  }

  // ---------- Runs ----------

  lemma RestakingKeepsGood(p: Pool, h: History, op: Op, slot: u64)
    requires Good(p, h) && slot >= p.lastUpdate && (op.StakeOp? || op.UnstakeOp?) && Execute(p, op, slot).Ok?
    ensures Good(Execute(p, op, slot).value, Observe(h, p, op, slot))
  {
    var v := Execute(p, op, slot).value;
    SettleOrOpenKeepsGood(p, h, op.who, slot);
    RestakeKeepsGood(SettleOrOpen(p, op.who, slot).value, Settled(Accrue(h, p, slot), op.who), op.who, v.stakes[op.who],
                     v.totalStaked, v.vault);
  }

  lemma ClaimingKeepsGood(p: Pool, h: History, who: Key, slot: u64)
    requires Good(p, h) && slot >= p.lastUpdate && ClaimRewards(p, who, slot).Ok?
    ensures Good(ClaimRewards(p, who, slot).value, Observe(h, p, ClaimOp(who), slot))
  {
    SettleOrOpenKeepsGood(p, h, who, slot);
    ClaimKeepsGood(SettleOrOpen(p, who, slot).value, Settled(Accrue(h, p, slot), who), who,
                   ClaimRewards(p, who, slot).value);
  }

  lemma FundingKeepsGood(p: Pool, h: History, op: Op, slot: u64)
    requires Good(p, h) && slot >= p.lastUpdate && (op.FundOp? || op.PauseOp?) && Execute(p, op, slot).Ok?
    ensures Good(Execute(p, op, slot).value, Observe(h, p, op, slot))
  {
    var v, h' := Execute(p, op, slot).value, Observe(h, p, op, slot);
    forall i | i in p.stakes
      ensures Shortfall(v, h', i) == Shortfall(p, h, i)
    {
    }
  }

  lemma StepKeepsGood(p: Pool, h: History, op: Op, slot: u64)
    requires Good(p, h) && slot >= p.lastUpdate && Execute(p, op, slot).Ok?
    ensures Good(Execute(p, op, slot).value, Observe(h, p, op, slot))
  {
    match op
    case StakeOp(_, _, _) => RestakingKeepsGood(p, h, op, slot);
    case UnstakeOp(_, _) => RestakingKeepsGood(p, h, op, slot);
    case ClaimOp(who) => ClaimingKeepsGood(p, h, who, slot);
    case WithdrawOp(who) => WithdrawKeepsGood(p, h, who, slot);
    case FundOp(_, _) => FundingKeepsGood(p, h, op, slot);
    case PauseOp(_) => FundingKeepsGood(p, h, op, slot);
  }

  /** The history after an instruction, successful or not. */
  ghost function Noted(h: History, p: Pool, op: Op, slot: u64): History
    requires h.records.Keys == p.stakes.Keys && slot >= p.lastUpdate
  {
    if Execute(p, op, slot).Ok? then Observe(h, p, op, slot) else h
  }

  datatype TimedOp = TimedOp(op: Op, slot: u64)

  /** Instructions arrive at slots that never go back. */
  ghost predicate WellTimed(from: nat, ops: seq<TimedOp>)
    decreases |ops|
  {
    ops == [] || (ops[0].slot >= from && WellTimed(ops[0].slot, ops[1..]))
  }

  /** The program state and its history after a run; a refused instruction changes neither. */
  ghost function Run(p: Pool, h: History, ops: seq<TimedOp>): (Pool, History)
    requires Good(p, h) && WellTimed(p.lastUpdate, ops)
    decreases |ops|
  {
    if ops == [] then (p, h) else
      var r := Execute(p, ops[0].op, ops[0].slot);
      if r.Err? then WellTimedWeaken(p.lastUpdate, ops[0].slot, ops[1..]); Run(p, h, ops[1..])
      else
        StepKeepsGood(p, h, ops[0].op, ops[0].slot);
        StepElapsed(p, h, ops[0].op, ops[0].slot);
        WellTimedWeaken(r.value.lastUpdate, ops[0].slot, ops[1..]);
        Run(r.value, Observe(h, p, ops[0].op, ops[0].slot), ops[1..])
  }

  lemma WellTimedWeaken(low: nat, from: nat, ops: seq<TimedOp>)
    requires low <= from && WellTimed(from, ops)
    ensures WellTimed(low, ops)
  {
  }

  lemma StepElapsed(p: Pool, h: History, op: Op, slot: u64)
    requires h.records.Keys == p.stakes.Keys && slot >= p.lastUpdate && Execute(p, op, slot).Ok?
    ensures var p', h' := Execute(p, op, slot).value, Observe(h, p, op, slot);
            && p'.rate == p.rate && p.lastUpdate <= p'.lastUpdate <= slot
            && h'.activeSlots - h.activeSlots <= p'.lastUpdate - p.lastUpdate
  {
  }

  lemma {:induction false} RunKeepsGood(p: Pool, h: History, ops: seq<TimedOp>)
    requires Good(p, h) && WellTimed(p.lastUpdate, ops)
    ensures var (p', h') := Run(p, h, ops);
            && Good(p', h') && p'.rate == p.rate
            && h'.activeSlots - h.activeSlots <= p'.lastUpdate - p.lastUpdate
    decreases |ops|
  {
    if ops != [] {
      var r := Execute(p, ops[0].op, ops[0].slot);
      if r.Err? {
        WellTimedWeaken(p.lastUpdate, ops[0].slot, ops[1..]);
        RunKeepsGood(p, h, ops[1..]);
      } else {
        StepKeepsGood(p, h, ops[0].op, ops[0].slot);
        StepElapsed(p, h, ops[0].op, ops[0].slot);
        WellTimedWeaken(r.value.lastUpdate, ops[0].slot, ops[1..]);
        RunKeepsGood(r.value, Observe(h, p, ops[0].op, ops[0].slot), ops[1..]);
      }
    }
  }

  const EMPTY_HISTORY := History(0, 0, 0, map[])

  // ---------- Main results ----------

  lemma GoodAtStart(rate: u64, unbondingSlots: u64, start: u64)
    ensures Good(Initialize(rate, unbondingSlots, start), EMPTY_HISTORY)
  {
  }

  /** The state and history after any run of a freshly initialized program. */
  ghost function Reached(rate: u64, unbondingSlots: u64, start: u64, ops: seq<TimedOp>): (Pool, History)
    requires WellTimed(start, ops)
  {
    GoodAtStart(rate, unbondingSlots, start);
    Run(Initialize(rate, unbondingSlots, start), EMPTY_HISTORY, ops)
  }

  /** What an account is owed in scaled units when the accumulator stands at `rpt`: settled and unsettled. */
  function OwedAt(rpt: nat): StakeAccount -> int {
    (st: StakeAccount) => st.earned * PRECISION + st.staked * (rpt - st.paid)
  }

  lemma OwedIsWeightAndStake(stakes: map<Key, StakeAccount>, rpt: nat)
    ensures Total(stakes, OwedAt(rpt)) == Total(stakes, WeightOf) + rpt * Total(stakes, StakedOf)
  {
    forall i | i in stakes
      ensures OwedAt(rpt)(stakes[i]) == WeightOf(stakes[i]) + rpt * StakedOf(stakes[i])
    {
      MulSub(stakes[i].staked, rpt, stakes[i].paid);
    }
    TotalCombined(stakes, WeightOf, rpt, StakedOf, OwedAt(rpt));
  }

  /** Settled rewards alone are part of what is owed. */
  lemma SettledWithinOwed(stakes: map<Key, StakeAccount>, rpt: u128)
    requires forall i | i in stakes :: stakes[i].paid <= rpt
    ensures PRECISION * Total(stakes, EarnedOf) <= Total(stakes, OwedAt(rpt))
  {
    forall i | i in stakes
      ensures PRECISION * EarnedOf(stakes[i]) <= OwedAt(rpt)(stakes[i]) + 0 * StakedOf(stakes[i])
    {
      MulMono(stakes[i].staked, 0, rpt - stakes[i].paid);
    }
    TotalLinear(stakes, PRECISION, EarnedOf, OwedAt(rpt), 0, StakedOf);
  }

  /** What the books of a good state say together. */
  lemma GoodIsSolvent(p: Pool, h: History)
    requires Good(p, h)
    ensures PRECISION * h.claimed + Total(p.stakes, OwedAt(p.rpt)) <= PRECISION * (p.rate * h.activeSlots)
    ensures h.claimed + Total(p.stakes, EarnedOf) <= p.rate * h.activeSlots
    ensures p.totalStaked == Total(p.stakes, StakedOf)
    ensures p.vault == p.totalStaked + Total(p.stakes, UnbondingOf) + (h.funded - h.claimed)
  {
    OwedIsWeightAndStake(p.stakes, p.rpt);
    SettledWithinOwed(p.stakes, p.rpt);
  }

  /** However stakers interleave, everything ever claimed plus everything owed, settled and unsettled, is at
      most the rate times the slots in which anything was staked; and the vault holds exactly the principal, the
      unbonding amounts and the unclaimed funding. */
  lemma RewardsNeverExceedEmission(rate: u64, unbondingSlots: u64, start: u64, ops: seq<TimedOp>)
    requires WellTimed(start, ops)
    ensures var (p, h) := Reached(rate, unbondingSlots, start, ops);
            && PRECISION * h.claimed + Total(p.stakes, OwedAt(p.rpt)) <= PRECISION * (rate * h.activeSlots)
            && h.claimed + Total(p.stakes, EarnedOf) <= rate * h.activeSlots
            && h.activeSlots <= p.lastUpdate - start
            && p.totalStaked == Total(p.stakes, StakedOf)
            && p.vault == p.totalStaked + Total(p.stakes, UnbondingOf) + (h.funded - h.claimed)
  {
    GoodAtStart(rate, unbondingSlots, start);
    RunKeepsGood(Initialize(rate, unbondingSlots, start), EMPTY_HISTORY, ops);
    var (p, h) := Reached(rate, unbondingSlots, start, ops);
    GoodIsSolvent(p, h);
  }

  /** The lazy accumulator against paying every staker each slot: what a staker was paid and is owed
      never exceeds its exact per-slot share, and trails it by at most the stake it held over the global
      updates (in scaled units) plus one lamport per settlement. */
  lemma AccumulatorRefinesPerSlotPay(rate: u64, unbondingSlots: u64, start: u64, ops: seq<TimedOp>, who: Key)
    requires WellTimed(start, ops)
    ensures var (p, h) := Reached(rate, unbondingSlots, start, ops);
            who in p.stakes ==>
              && who in h.records
              && var st, rec := p.stakes[who], h.records[who];
                 var paidAndOwed := PRECISION * (rec.claimed + st.earned) + st.staked * (p.rpt - st.paid);
                 && paidAndOwed as real <= PRECISION as real * rec.exact
                 && PRECISION as real * rec.exact
                     <= (paidAndOwed + rec.held + (PRECISION - 1) * rec.settlements) as real
                 && (rec.claimed + st.earned) as real <= rec.exact
  {
    GoodAtStart(rate, unbondingSlots, start);
    RunKeepsGood(Initialize(rate, unbondingSlots, start), EMPTY_HISTORY, ops);
    var (p, h) := Reached(rate, unbondingSlots, start, ops);
    if who in p.stakes {
      var st := p.stakes[who];
      assert 0.0 <= Shortfall(p, h, who);
      MulMono(st.staked, st.paid, p.rpt);
      MulSub(st.staked, p.rpt, st.paid);
    }
  }

  /** A matured withdrawal is never refused for lack of vault funds. */
  lemma WithdrawSucceedsExactlyWhen(p: Pool, h: History, who: Key, slot: u64)
    requires Good(p, h)
    ensures WithdrawUnstaked(p, who, slot).Ok? <==>
              && who in p.stakes && p.stakes[who].unbonding > 0
              && p.stakes[who].unbondingStart + p.unbondingSlots <= slot
  {
    if who in p.stakes {
      TotalBoundsMember(p.stakes, who, UnbondingOf);
      TotalNonnegative(p.stakes, StakedOf);
    }
  }

  /** While funding covers the emission, a claim is refused only when its settlement does not fit its widths or nothing
      was earned; and no claim touches principal. */
  lemma FundedClaimsSucceed(p: Pool, h: History, who: Key, slot: u64)
    requires Good(p, h) && slot >= p.lastUpdate && who in p.stakes
    requires p.rate * Accrue(h, p, slot).activeSlots <= h.funded
    ensures ClaimRewards(p, who, slot).Ok? <==>
              UpdateReward(p, who, slot).Ok? && UpdateReward(p, who, slot).value.stakes[who].earned > 0
    ensures ClaimRewards(p, who, slot).Ok? ==>
              var v := ClaimRewards(p, who, slot).value;
              && v.totalStaked == p.totalStaked
              && v.vault >= v.totalStaked + Total(v.stakes, UnbondingOf)
  {
    if UpdateReward(p, who, slot).Ok? {
      SettleOrOpenKeepsGood(p, h, who, slot);
      var u, h' := UpdateReward(p, who, slot).value, Settled(Accrue(h, p, slot), who);
      GoodIsSolvent(u, h');
      TotalBoundsMember(u.stakes, who, EarnedOf);
      TotalNonnegative(u.stakes, StakedOf);
      TotalNonnegative(u.stakes, UnbondingOf);
      if ClaimRewards(p, who, slot).Ok? {
        StepKeepsGood(p, h, ClaimOp(who), slot);
      }
    }
  }
}

/** What each instruction of the fee engine asks for and what it does to the accounts, in amounts and basis points. */
module FeeEngineEffects {
  import opened Numbers
  import opened Totals
  import opened FeeEngine
  import opened FeeEngineRuns

  /** `part` is that many basis points of the amount, rounded down. */
  predicate IsPart(amount: nat, bps: nat, part: nat) {
    10_000 * part <= amount * bps < 10_000 * part + 10_000
  }

  lemma PartIsUnique(amount: u64, bps: u16, part: nat)
    requires IsPart(amount, bps, part)
    ensures part == amount * bps / 10_000
  {
    DivUnique(amount * bps, 10_000, part);
  }

  // ---------- Collecting ----------

  /** The configuration's split for a type of fee; a registration is burned whole. */
  predicate Prices(c: Config, t: FeeType, s: FeeSplit) {
    && (t.Gas? ==> s == c.splits.gas)
    && (t.Compute? ==> s == c.splits.compute)
    && (t.Inference? ==> s == c.splits.inference)
    && (t.Bridge? ==> s == c.splits.bridge)
    && (t.SubnetRegistration? ==> s.validatorBps == 0 && s.foundationBps == 0 && s.burnBps == 10_000)
  }

  /** One type's burn counter rises, the others stay. */
  predicate BurnedMore(b: Burned, b': Burned, t: FeeType, x: int) {
    && b'.gas == b.gas + (if t.Gas? then x else 0)
    && b'.compute == b.compute + (if t.Compute? then x else 0)
    && b'.inference == b.inference + (if t.Inference? then x else 0)
    && b'.bridge == b.bridge + (if t.Bridge? then x else 0)
    && b'.subnet == b.subnet + (if t.SubnetRegistration? then x else 0)
  }

  predicate CanBurnMore(b: Burned, t: FeeType, x: int) {
    && (t.Gas? ==> b.gas + x <= U64_MAX)
    && (t.Compute? ==> b.compute + x <= U64_MAX)
    && (t.Inference? ==> b.inference + x <= U64_MAX)
    && (t.Bridge? ==> b.bridge + x <= U64_MAX)
    && (t.SubnetRegistration? ==> b.subnet + x <= U64_MAX)
  }

  /** What an epoch's pool has collected; one that is not there yet has collected nothing. */
  function CollectedIn(e: Engine, epoch: nat): nat {
    if epoch in e.pools then e.pools[epoch].collected else 0
  }

  /** A fee is refused for these reasons and no other. */
  lemma CollectSucceedsExactlyWhen(e: Engine, t: FeeType, s: FeeSplit, amount: u64, funds: nat, v: nat, f: nat)
    requires Prices(e.cfg, t, s) && IsPart(amount, s.validatorBps, v) && IsPart(amount, s.foundationBps, f)
    ensures CollectFee(e, t, amount, funds).Ok?
            <==> && !e.cfg.paused && amount <= funds
                 && (e.cfg.currentEpoch in e.pools ==> !e.pools[e.cfg.currentEpoch].finalized)
                 && amount * s.validatorBps <= U64_MAX && amount * s.foundationBps <= U64_MAX && v + f <= amount
                 && CollectedIn(e, e.cfg.currentEpoch) + v <= U64_MAX
                 && e.cfg.foundationCollected + f <= U64_MAX
                 && e.cfg.totalBurned + (amount - v - f) <= U64_MAX
                 && CanBurnMore(e.cfg.burned, t, amount - v - f)
  {
    PartIsUnique(amount, s.validatorBps, v);
    PartIsUnique(amount, s.foundationBps, f);
    assert s == GetSplit(e.cfg, t);
  }

  /** The validators' part enters the pool of the epoch, the foundation's part its account, and the rest is burned
      under the type of the fee; nothing else changes. */
  lemma CollectEffect(e: Engine, t: FeeType, s: FeeSplit, amount: u64, funds: nat)
    requires CollectFee(e, t, amount, funds).Ok? && Prices(e.cfg, t, s)
    ensures var e' := CollectFee(e, t, amount, funds).value;
            var now := e.cfg.currentEpoch;
            var v, f := CollectedIn(e', now) - CollectedIn(e, now),
                        e'.cfg.foundationCollected - e.cfg.foundationCollected;
            && 0 <= v && IsPart(amount, s.validatorBps, v)
            && 0 <= f && IsPart(amount, s.foundationBps, f)
            && BurnedMore(e.cfg.burned, e'.cfg.burned, t, amount - v - f)
            && e'.cfg.totalBurned == e.cfg.totalBurned + (amount - v - f)
            && e'.cfg == e.cfg.(totalBurned := e'.cfg.totalBurned, burned := e'.cfg.burned,
                                foundationCollected := e'.cfg.foundationCollected)
            && e'.pools.Keys == e.pools.Keys + {now}
            && e'.pools[now].distributed == (if now in e.pools then e.pools[now].distributed else 0)
            && !e'.pools[now].finalized
            && (forall n | n in e.pools && n != now :: e'.pools[n] == e.pools[n])
            && e'.validators == e.validators && e'.proposal == e.proposal
  {
    ShareBounds(amount, s.validatorBps);
    ShareBounds(amount, s.foundationBps);
    assert s == GetSplit(e.cfg, t);
  }

  // ---------- Distribution ----------

  /** The weights a distribution gives the accounts named: stake times multiplier, and nothing for inactive ones. */
  ghost predicate Weighs(vs: map<Key, Validator>, keys: seq<Key>, weights: seq<nat>) {
    && |weights| == |keys|
    && forall i | 0 <= i < |keys| ::
         && keys[i] in vs
         && weights[i] == (if vs[keys[i]].active then vs[keys[i]].stake * vs[keys[i]].multiplier else 0)
  }

  function SumOf(weights: seq<nat>): nat {
    if weights == [] then 0 else SumOf(weights[..|weights| - 1]) + weights[|weights| - 1]
  }

  /** The first pass gets through exactly if the weights add up within 64 bits. */
  lemma {:induction false} FirstPassSucceedsExactlyWhen(vs: map<Key, Validator>, keys: seq<Key>, weights: seq<nat>)
    requires Weighs(vs, keys, weights)
    ensures WeighAll(vs, keys).Ok? <==> SumOf(weights) <= U64_MAX
    ensures WeighAll(vs, keys).Ok? ==>
              WeighAll(vs, keys).value.weights == weights && WeighAll(vs, keys).value.total == SumOf(weights)
    decreases |keys|
  {
    if keys != [] {
      var n := |keys| - 1;
      FirstPassSucceedsExactlyWhen(vs, keys[..n], weights[..n]);
      WeightOfOne(vs, keys, weights, n);
      FirstPassGoesOn(vs, keys, weights);
    }
  }

  lemma WeightOfOne(vs: map<Key, Validator>, keys: seq<Key>, weights: seq<nat>, i: nat)
    requires Weighs(vs, keys, weights) && i < |keys|
    ensures keys[i] in vs && weights[i] == Weight(vs[keys[i]])
  {
  }

  lemma {:induction false} FirstPassGoesOn(vs: map<Key, Validator>, keys: seq<Key>, weights: seq<nat>)
    requires keys != [] && |keys| == |weights|
    requires var n := |keys| - 1;
             && keys[n] in vs && weights[n] == Weight(vs[keys[n]])
             && (WeighAll(vs, keys[..n]).Ok? <==> SumOf(weights[..n]) <= U64_MAX)
             && (WeighAll(vs, keys[..n]).Ok? ==>
                   && WeighAll(vs, keys[..n]).value.weights == weights[..n]
                   && WeighAll(vs, keys[..n]).value.total == SumOf(weights[..n]))
    ensures WeighAll(vs, keys).Ok? <==> SumOf(weights) <= U64_MAX
    ensures WeighAll(vs, keys).Ok? ==>
              WeighAll(vs, keys).value.weights == weights && WeighAll(vs, keys).value.total == SumOf(weights)
  {
    var n := |keys| - 1;
    assert weights == weights[..n] + [weights[n]];
  }

  lemma {:induction false} FirstPassNeedsTheAccounts(vs: map<Key, Validator>, keys: seq<Key>)
    requires WeighAll(vs, keys).Ok?
    ensures forall i | 0 <= i < |keys| :: keys[i] in vs
  {
  }

  /** While nothing pending can overflow, every account named can be paid. */
  lemma {:induction false} SecondPassFits(
      vs: map<Key, Validator>, keys: seq<Key>, weights: seq<u64>, pot: u64, total: u64)
    requires |keys| == |weights| && total > 0 && forall k | k in keys :: k in vs
    requires Total(vs, PendingOf) + RewardSum(pot, weights, total) <= U64_MAX
    ensures PayAll(vs, keys, weights, pot, total).Ok?
    decreases |keys|
  {
    if keys != [] {
      var n := |keys| - 1;
      SecondPassFits(vs, keys[..n], weights[..n], pot, total);
      SecondPassPays(vs, keys[..n], weights[..n], pot, total);
      var p := PayAll(vs, keys[..n], weights[..n], pot, total).value;
      TotalBoundsMember(p.validators, keys[n], PendingOf);
      TotalNonnegative(vs, PendingOf);
    }
  }

  /** The crank succeeds for these reasons and no other, whatever it names. */
  lemma DistributeSucceedsExactlyWhen(e: Engine, h: History, epoch: nat, keys: seq<Key>, weights: seq<u64>)
    requires Good(e, h)
    requires (forall k | k in keys :: k in e.validators) ==> Weighs(e.validators, keys, weights)
    ensures Distribute(e, epoch, keys).Ok?
            <==> && epoch == e.cfg.currentEpoch && epoch in e.pools && epoch < 0xFFFF_FFFF_FFFF_FFFF
                 && (e.pools[epoch].collected > 0 ==>
                       && keys != [] && (forall k | k in keys :: k in e.validators)
                       && 0 < SumOf(weights) <= U64_MAX
                       && e.cfg.totalDistributed + RewardSum(e.pools[epoch].collected, weights, SumOf(weights))
                          <= U64_MAX)
  {
    if epoch in e.pools && !e.pools[epoch].finalized && e.pools[epoch].collected > 0 && keys != [] {
      CrankSucceedsExactlyWhen(e, h, epoch, keys, weights);
    }
  }

  lemma CrankSucceedsExactlyWhen(e: Engine, h: History, epoch: nat, keys: seq<Key>, weights: seq<u64>)
    requires Good(e, h) && epoch in e.pools && !e.pools[epoch].finalized && e.pools[epoch].collected > 0 && keys != []
    requires (forall k | k in keys :: k in e.validators) ==> Weighs(e.validators, keys, weights)
    ensures Distribute(e, epoch, keys).Ok?
            <==> && (forall k | k in keys :: k in e.validators) && e.cfg.currentEpoch < U64_MAX
                 && 0 < SumOf(weights) <= U64_MAX
                 && e.cfg.totalDistributed + RewardSum(e.pools[epoch].collected, weights, SumOf(weights)) <= U64_MAX
  {
    if forall k | k in keys :: k in e.validators {
      var pot := e.pools[epoch].collected;
      FirstPassSucceedsExactlyWhen(e.validators, keys, weights);
      if 0 < SumOf(weights) <= U64_MAX {
        PendingIsDistributed(e, h);
        if e.cfg.totalDistributed + RewardSum(pot, weights, SumOf(weights)) <= U64_MAX {
          SecondPassFits(e.validators, keys, weights, pot, SumOf(weights));
        }
        if PayAll(e.validators, keys, weights, pot, SumOf(weights)).Ok? {
          SecondPassPays(e.validators, keys, weights, pot, SumOf(weights));
        }
      }
    } else if WeighAll(e.validators, keys).Ok? {
      FirstPassNeedsTheAccounts(e.validators, keys);
    }
  }

  lemma PendingIsDistributed(e: Engine, h: History)
    requires Ledger(e, h)
    ensures Total(e.validators, PendingOf) <= e.cfg.totalDistributed
  {
    TotalNonnegative(e.validators, ClaimedOf);
  }

  /** A distribution closes its pool, counts what it paid and opens the next epoch; nothing else changes. What each
      validator receives is said by FeeEngineRuns.DistributionPaysThePot. */
  lemma DistributionEffect(e: Engine, epoch: nat, keys: seq<Key>)
    requires Distribute(e, epoch, keys).Ok?
    ensures var e' := Distribute(e, epoch, keys).value;
            var paid := e'.cfg.totalDistributed - e.cfg.totalDistributed;
            && e'.pools == e.pools[epoch := Pool(e.pools[epoch].collected,
                                                 if e.pools[epoch].collected == 0 then e.pools[epoch].distributed
                                                 else paid, true)]
            && (e.pools[epoch].collected == 0 ==> e'.validators == e.validators && paid == 0)
            && e'.cfg == e.cfg.(totalDistributed := e'.cfg.totalDistributed, currentEpoch := e.cfg.currentEpoch + 1)
            && e'.proposal == e.proposal
  {
  }

  // ---------- Validators ----------

  /** One validator's account changes and nothing else does. */
  ghost predicate OnlyValidator(e: Engine, e': Engine, who: Key) {
    && e'.cfg == e.cfg && e'.pools == e.pools && e'.proposal == e.proposal
    && e'.validators - {who} == e.validators - {who}
  }

  lemma RegistrationEffect(e: Engine, who: Key, stake: u64, aiCapable: bool)
    ensures var r := RegisterValidator(e, who, stake, aiCapable);
            && (r.Ok? <==> who !in e.validators)
            && (r.Ok? ==>
                  && OnlyValidator(e, r.value, who) && who in r.value.validators
                  && var v := r.value.validators[who];
                     && v.stake == stake && v.multiplier == (if aiCapable then 200 else 100)
                     && v.pending == 0 && v.claimed == 0 && v.active)
  {
  }

  /** An update sets what it names, of an active validator, and keeps what that has earned. */
  lemma UpdateEffect(e: Engine, who: Key, ai: Option<bool>, stake: Option<u64>)
    ensures var r := UpdateValidator(e, who, ai, stake);
            && (r.Ok? <==> who in e.validators && e.validators[who].active)
            && (r.Ok? ==>
                  && OnlyValidator(e, r.value, who) && who in r.value.validators
                  && var v, v' := e.validators[who], r.value.validators[who];
                     && (ai == Some(true) ==> v'.multiplier == 200)
                     && (ai == Some(false) ==> v'.multiplier == 100)
                     && (ai.None? ==> v'.multiplier == v.multiplier)
                     && (stake.Some? ==> v'.stake == stake.value)
                     && (stake.None? ==> v'.stake == v.stake)
                     && v'.pending == v.pending && v'.claimed == v.claimed && v'.active)
  {
  }

  /** A claim pays all that is pending, once: nothing is pending afterwards, so the next claim is refused. */
  lemma ClaimEffect(e: Engine, who: Key, vaultBalance: nat, later: nat)
    ensures var r := ClaimRewards(e, who, vaultBalance);
            && (r.Ok? <==> && who in e.validators
                           && 0 < e.validators[who].pending <= vaultBalance
                           && e.validators[who].claimed + e.validators[who].pending <= U64_MAX)
            && (r.Ok? ==>
                  && OnlyValidator(e, r.value, who) && who in r.value.validators
                  && var v, v' := e.validators[who], r.value.validators[who];
                     && v'.pending == 0 && v'.claimed - v.claimed == v.pending
                     && v'.stake == v.stake && v'.multiplier == v.multiplier && v'.active == v.active
                     && ClaimRewards(r.value, who, later).Err?)
  {
  }

  /** A validator leaves with what was pending, and its account goes or stays behind without weight. */
  lemma DeregistrationEffect(e: Engine, who: Key, vaultBalance: nat, purged: bool)
    ensures var r := DeregisterValidator(e, who, vaultBalance, purged);
            && (r.Ok? <==> && who in e.validators && e.validators[who].active
                           && e.validators[who].pending <= vaultBalance
                           && e.validators[who].claimed + e.validators[who].pending <= U64_MAX)
            && (r.Ok? ==>
                  && OnlyValidator(e, r.value, who) && (who in r.value.validators <==> !purged)
                  && (!purged ==>
                        var v, v' := e.validators[who], r.value.validators[who];
                        && v'.pending == 0 && v'.claimed - v.claimed == v.pending && !v'.active
                        && v'.stake == v.stake && v'.multiplier == v.multiplier))
  {
  }

  // ---------- Burns ----------

  /** The foundation burns a rounded-down share of what it has collected. */
  lemma FoundationBurnEffect(e: Engine, bps: u16, balance: nat, part: nat)
    requires IsPart(e.cfg.foundationCollected, bps, part)
    ensures var r := BurnFoundationFees(e, bps, balance);
            && (r.Ok? <==> && 0 < bps <= 10_000 && 0 < part <= balance
                           && e.cfg.totalBurned + part <= U64_MAX && e.cfg.foundationBurned + part <= U64_MAX)
            && (r.Ok? ==>
                  && e.cfg.foundationCollected - r.value.cfg.foundationCollected == part
                  && r.value.cfg.totalBurned - e.cfg.totalBurned == part
                  && r.value.cfg.foundationBurned - e.cfg.foundationBurned == part
                  && r.value == e.(cfg := e.cfg.(totalBurned := r.value.cfg.totalBurned,
                                                 foundationBurned := r.value.cfg.foundationBurned,
                                                 foundationCollected := r.value.cfg.foundationCollected)))
  {
    PartIsUnique(e.cfg.foundationCollected, bps, part);
  }

  lemma TokenBurnEffect(e: Engine, amount: u64, balance: nat)
    ensures var r := BurnTokens(e, amount, balance);
            && (r.Ok? <==> 0 < amount <= balance && e.cfg.totalBurned + amount <= U64_MAX)
            && (r.Ok? ==>
                  && r.value.cfg.totalBurned - e.cfg.totalBurned == amount
                  && r.value == e.(cfg := e.cfg.(totalBurned := r.value.cfg.totalBurned)))
  {
  }

  // ---------- Splits ----------

  /** The three sides of a split share out exactly the whole. */
  predicate SharesOut(s: FeeSplit) {
    s.validatorBps + s.foundationBps + s.burnBps == 10_000
  }

  predicate SharesOutIfNamed(o: Option<FeeSplit>) {
    o.Some? ==> SharesOut(o.value)
  }

  predicate UpdateSharesOut(u: SplitUpdate) {
    && SharesOutIfNamed(u.gas) && SharesOutIfNamed(u.compute)
    && SharesOutIfNamed(u.inference) && SharesOutIfNamed(u.bridge)
  }

  lemma ValidatesExactlyWhen(s: FeeSplit, u: SplitUpdate)
    ensures Validate(s).Pass? <==> SharesOut(s)
    ensures Validate(s) == Fail(Overflow) <==> s.validatorBps + s.foundationBps + s.burnBps > 0xFFFF
    ensures ValidateAll(u).Pass? <==> UpdateSharesOut(u)
  {
  }

  /** The splits an update names are its own, the others stay. */
  predicate Updated(s: Splits, u: SplitUpdate, s': Splits) {
    && s'.gas == (if u.gas.Some? then u.gas.value else s.gas)
    && s'.compute == (if u.compute.Some? then u.compute.value else s.compute)
    && s'.inference == (if u.inference.Some? then u.inference.value else s.inference)
    && s'.bridge == (if u.bridge.Some? then u.bridge.value else s.bridge)
  }

  /** The splits, and with them the price of a fee, change and nothing else does. */
  predicate OnlySplits(e: Engine, e': Engine) {
    e'.cfg == e.cfg.(splits := e'.cfg.splits) && e'.pools == e.pools && e'.validators == e.validators
  }

  lemma ConfigUpdateEffect(e: Engine, u: SplitUpdate)
    ensures var r := UpdateFeeConfig(e, u);
            && (r.Ok? <==> UpdateSharesOut(u))
            && (r.Ok? ==>
                  && Updated(e.cfg.splits, u, r.value.cfg.splits)
                  && OnlySplits(e, r.value) && r.value.proposal == e.proposal)
  {
    ValidatesExactlyWhen(e.cfg.splits.gas, u);
  }

  /** A proposal is written down, once, to be executed 216,000 slots later, and changes no split until then. */
  lemma ProposalEffect(e: Engine, u: SplitUpdate, slot: u64)
    ensures var r := ProposeFeeUpdate(e, u, slot);
            && (r.Ok? <==> UpdateSharesOut(u) && e.proposal.Absent? && slot + 216_000 <= U64_MAX)
            && (r.Ok? ==> && r.value.cfg == e.cfg && r.value.pools == e.pools && r.value.validators == e.validators
                          && r.value.proposal == Stored(u, slot + 216_000))
  {
    ValidatesExactlyWhen(e.cfg.splits.gas, u);
  }

  /** An execution applies the whole of a complete proposal, not before its time, and clears it. */
  lemma ExecutionEffect(e: Engine, slot: u64, purged: bool)
    ensures var r := ExecuteFeeUpdate(e, slot, purged);
            && (r.Ok? <==> && e.proposal.Stored? && slot >= e.proposal.executionSlot
                           && e.proposal.update.gas.Some? && e.proposal.update.compute.Some?
                           && e.proposal.update.inference.Some? && e.proposal.update.bridge.Some?
                           && e.proposal.update.wallet.Some?)
            && (r.Ok? ==>
                  && Updated(e.cfg.splits, e.proposal.update, r.value.cfg.splits) && OnlySplits(e, r.value)
                  && r.value.proposal == if purged then Absent else Zeroed)
  {
  }

  lemma PauseEffect(e: Engine, paused: bool)
    ensures Perform(e, PauseOp(paused)).Ok?
    ensures var e' := Perform(e, PauseOp(paused)).value;
            && e'.cfg.paused == paused && e' == e.(cfg := e.cfg.(paused := e'.cfg.paused))
  {
  }

  /** An engine starts with the splits it is given, if they share out, and with empty books. */
  lemma InitialEffect(s: Splits)
    ensures var r := Initialize(s);
            && (r.Ok? <==> SharesOut(s.gas) && SharesOut(s.compute) && SharesOut(s.inference) && SharesOut(s.bridge))
            && (r.Ok? ==>
                  && r.value.cfg.splits == s && r.value.cfg.currentEpoch == 0 && !r.value.cfg.paused
                  && r.value.cfg.totalBurned == r.value.cfg.totalDistributed == 0
                  && r.value.cfg.foundationCollected == r.value.cfg.foundationBurned == 0
                  && TypeBurns(r.value.cfg.burned) == 0
                  && r.value.pools == map[] && r.value.validators == map[] && r.value.proposal.Absent?)
  {
  }

  // ---------- Refusals ----------

  /** What must be the case when an instruction reports an error. */
  predicate FeeCause(e: Engine, op: Op, error: FeeError) {
    match error
    case InvalidFeeSplit => (op.UpdateConfigOp? || op.ProposeOp?) && !UpdateSharesOut(op.update)
    case ProgramPaused => op.CollectOp? && e.cfg.paused
    case FeePoolAlreadyFinalized =>
      if op.CollectOp? then e.cfg.currentEpoch in e.pools && e.pools[e.cfg.currentEpoch].finalized
      else op.DistributeOp? && op.epoch in e.pools && e.pools[op.epoch].finalized
    case AccountMissing =>
      if op.DistributeOp? then op.epoch !in e.pools || exists k :: k in op.keys && k !in e.validators
      else op.ClaimOp? && op.who !in e.validators
    case NoValidators => op.DistributeOp?
    case NoRewardsToClaim => op.ClaimOp? && op.who in e.validators && e.validators[op.who].pending == 0
    case ValidatorNotRegistered =>
      (op.UpdateOp? || op.DeregisterOp?) && (op.who in e.validators ==> !e.validators[op.who].active)
    case ValidatorAlreadyRegistered => op.RegisterOp? && op.who in e.validators
    case InvalidBurnPercentage => op.BurnFoundationOp? && (op.bps == 0 || op.bps > 10_000)
    case InsufficientFoundationBalance => op.BurnFoundationOp? && e.cfg.foundationCollected * op.bps < 10_000
    case ZeroAmount => op.BurnTokensOp? && op.amount == 0
    case PendingUpdateExists => op.ProposeOp? && !e.proposal.Absent?
    case TimelockNotExpired => op.ExecuteOp? && e.proposal.Stored? && op.slot < e.proposal.executionSlot
    case NoPendingUpdate => op.ExecuteOp? && e.proposal.Absent?
    case AccountUnreadable => op.ExecuteOp? && !e.proposal.Absent?
    case TransferFailed =>
      (match op
       case CollectOp(_, amount, funds) => amount > funds
       case ClaimOp(who, balance) => who in e.validators && e.validators[who].pending > balance
       case DeregisterOp(who, balance, _) => who in e.validators && e.validators[who].pending > balance
       case BurnFoundationOp(_, balance) => e.cfg.foundationCollected > balance
       case BurnTokensOp(amount, balance) => amount > balance
       case _ => false)
    case Overflow => !op.RegisterOp? && !op.UpdateOp? && !op.ExecuteOp? && !op.PauseOp?
  }

  lemma {:induction false} MissingAccountIsNamed(vs: map<Key, Validator>, keys: seq<Key>)
    requires WeighAll(vs, keys) == Err(AccountMissing)
    ensures exists k :: k in keys && k !in vs
    decreases |keys|
  {
    var n := |keys| - 1;
    if keys[n] !in vs {
      assert keys[n] in keys;
    } else {
      MissingAccountIsNamed(vs, keys[..n]);
    }
  }

  lemma {:induction false} WeighingFails(vs: map<Key, Validator>, keys: seq<Key>)
    requires WeighAll(vs, keys).Err?
    ensures WeighAll(vs, keys).error in {AccountMissing, Overflow}
    decreases |keys|
  {
    if WeighAll(vs, keys[..|keys| - 1]).Err? {
      WeighingFails(vs, keys[..|keys| - 1]);
    }
  }

  lemma {:induction false} PayingFails(
      vs: map<Key, Validator>, keys: seq<Key>, weights: seq<u64>, pot: u64, total: u64)
    requires |keys| == |weights| && total > 0 && forall k | k in keys :: k in vs
    requires PayAll(vs, keys, weights, pot, total).Err?
    ensures PayAll(vs, keys, weights, pot, total).error == Overflow
    decreases |keys|
  {
    var n := |keys| - 1;
    if PayAll(vs, keys[..n], weights[..n], pot, total).Err? {
      PayingFails(vs, keys[..n], weights[..n], pot, total);
    }
  }

  /** No refusal names a cause that is not there. */
  lemma FeeRefusalsAreTrue(e: Engine, op: Op)
    requires Perform(e, op).Err?
    ensures FeeCause(e, op, Perform(e, op).error)
  {
    match op {
      case DistributeOp(epoch, keys) => DistributionRefusalsAreTrue(e, epoch, keys);
      case BurnFoundationOp(_, _) => FoundationRefusalsAreTrue(e, op);
      case CollectOp(_, _, _) => CollectionRefusalsAreTrue(e, op);
      case UpdateConfigOp(_) => UpdateRefusalsAreTrue(e, op);
      case ProposeOp(_, _) => UpdateRefusalsAreTrue(e, op);
      case _ => AccountRefusalsAreTrue(e, op);
    }
  }

  lemma FoundationRefusalsAreTrue(e: Engine, op: Op)
    requires op.BurnFoundationOp? && Perform(e, op).Err?
    ensures FeeCause(e, op, Perform(e, op).error)
  {
    DivBounds(e.cfg.foundationCollected * op.bps, 10_000);
  }

  lemma CollectionRefusalsAreTrue(e: Engine, op: Op)
    requires op.CollectOp? && Perform(e, op).Err?
    ensures FeeCause(e, op, Perform(e, op).error)
  {
  }

  lemma UpdateRefusalsAreTrue(e: Engine, op: Op)
    requires (op.UpdateConfigOp? || op.ProposeOp?) && Perform(e, op).Err?
    ensures FeeCause(e, op, Perform(e, op).error)
  {
    InvalidUpdateIsNamed(op.update);
  }

  lemma InvalidUpdateIsNamed(u: SplitUpdate)
    ensures ValidateAll(u).Fail? ==> !UpdateSharesOut(u) && ValidateAll(u).reason in {Overflow, InvalidFeeSplit}
  {
  }

  lemma AccountRefusalsAreTrue(e: Engine, op: Op)
    requires !op.DistributeOp? && !op.BurnFoundationOp? && !op.CollectOp? && !op.UpdateConfigOp? && !op.ProposeOp?
    requires Perform(e, op).Err?
    ensures FeeCause(e, op, Perform(e, op).error)
  {
  }

  lemma DistributionRefusalsAreTrue(e: Engine, epoch: nat, keys: seq<Key>)
    requires Distribute(e, epoch, keys).Err?
    ensures FeeCause(e, DistributeOp(epoch, keys), Distribute(e, epoch, keys).error)
  {
    if epoch in e.pools && !e.pools[epoch].finalized && e.pools[epoch].collected > 0 && keys != [] {
      var w := WeighAll(e.validators, keys);
      if w.Err? {
        WeighingFails(e.validators, keys);
        if w.error == AccountMissing {
          MissingAccountIsNamed(e.validators, keys);
        }
      } else if w.value.total > 0 {
        var pot := e.pools[epoch].collected;
        if PayAll(e.validators, keys, w.value.weights, pot, w.value.total).Err? {
          PayingFails(e.validators, keys, w.value.weights, pot, w.value.total);
        }
      }
    }
  }
}

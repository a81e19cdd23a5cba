/** The fee engine over accounts updated in place. The handlers leave the accounts as their specifications say; the
    entry point dispatches to them and keeps every fee accounted for. */
module FeeProgram {
  import opened Numbers
  import opened FeeEngine
  import opened FeeEngineRuns
  import E = FeeEngineEffects
  import opened Totals

  function Verdict(step: Step): Outcome<FeeError> {
    if step.Ok? then Pass else Fail(step.error)
  }

  function Settled(e: Engine, step: Step): Engine {
    if step.Ok? then step.value else e
  }

  lemma CollectionIsShared(e: Engine, t: FeeType, amount: u64, funds: nat)
    ensures CollectFee(e, t, amount, funds).Ok? ==>
              var e' := CollectFee(e, t, amount, funds).value;
              var v, f := E.CollectedIn(e', e.cfg.currentEpoch) - E.CollectedIn(e, e.cfg.currentEpoch),
                          e'.cfg.foundationCollected - e.cfg.foundationCollected;
              && e'.cfg.currentEpoch == e.cfg.currentEpoch
              && v >= 0 && E.IsPart(amount, GetSplit(e.cfg, t).validatorBps, v)
              && f >= 0 && E.IsPart(amount, GetSplit(e.cfg, t).foundationBps, f)
              && E.BurnedMore(e.cfg.burned, e'.cfg.burned, t, amount - v - f)
  {
    if CollectFee(e, t, amount, funds).Ok? {
      E.CollectEffect(e, t, GetSplit(e.cfg, t), amount, funds);
    }
  }

  class Program {
    var cfg: Config
    var pools: map<nat, Pool>
    var validators: map<Key, Validator>
    var proposal: Proposal

    ghost var history: History

    /** Pools line up with epochs, the ledger balances and the splits are valid. */
    ghost predicate Valid()
      reads this
    {
      Good(View(), history)
    }

    function View(): Engine
      reads this
    {
      Engine(cfg, pools, validators, proposal)
    }

    constructor (s: Splits)
      requires Initialize(s).Ok?
      ensures View() == Initialize(s).value && history == History(0, 0, 0) && Valid()
    {
      cfg := Config(s, 0, 0, 0, 0, false, Burned(0, 0, 0, 0, 0), 0);
      pools, validators, proposal := map[], map[], Absent;
      history := History(0, 0, 0);
    }

    method ProcessCollectFee(t: FeeType, amount: u64, funds: nat) returns (r: Outcome<FeeError>)
      modifies this`cfg, this`pools, this`validators, this`proposal
      ensures r == Verdict(CollectFee(old(View()), t, amount, funds))
      ensures View() == Settled(old(View()), CollectFee(old(View()), t, amount, funds))
      ensures var v, f := E.CollectedIn(View(), cfg.currentEpoch) - old(E.CollectedIn(View(), cfg.currentEpoch)),
                          cfg.foundationCollected - old(cfg.foundationCollected);
              r.Pass? ==>
                && v >= 0 && E.IsPart(amount, GetSplit(old(cfg), t).validatorBps, v)
                && f >= 0 && E.IsPart(amount, GetSplit(old(cfg), t).foundationBps, f)
                && E.BurnedMore(old(cfg.burned), cfg.burned, t, amount - v - f)
    {
      CollectionIsShared(View(), t, amount, funds);
      if cfg.paused { return Fail(ProgramPaused); }
      var split := Split(GetSplit(cfg, t), amount);
      if split.Err? { return Fail(split.error); }
      var epoch := cfg.currentEpoch;
      if epoch in pools && pools[epoch].finalized { return Fail(FeePoolAlreadyFinalized); }
      if amount > funds { return Fail(TransferFailed); }
      r := RecordParts(t, split.value);
    }

    /** Enter a split fee in the current pool, opened if need be, and in the statistics. */
    method RecordParts(t: FeeType, p: Parts) returns (r: Outcome<FeeError>)
      modifies this`cfg, this`pools, this`validators, this`proposal
      ensures r == Verdict(Credit(old(View()), t, p))
      ensures View() == Settled(old(View()), Credit(old(View()), t, p))
      ensures r.Pass? ==>
                && E.CollectedIn(View(), cfg.currentEpoch) - old(E.CollectedIn(View(), cfg.currentEpoch)) == p.validator
                && cfg.foundationCollected - old(cfg.foundationCollected) == p.foundation
                && E.BurnedMore(old(cfg.burned), cfg.burned, t, p.burn)
    {
      var epoch := cfg.currentEpoch;
      var pool := if epoch in pools then pools[epoch] else Pool(0, 0, false);
      if pool.collected + p.validator > U64_MAX { return Fail(Overflow); }
      if cfg.totalBurned + p.burn > U64_MAX || cfg.foundationCollected + p.foundation > U64_MAX {
        return Fail(Overflow);
      }
      if BurnedFor(cfg.burned, t) + p.burn > U64_MAX { return Fail(Overflow); }
      pools := pools[epoch := pool.(collected := pool.collected + p.validator)];
      cfg := cfg.(totalBurned := cfg.totalBurned + p.burn,
                  foundationCollected := cfg.foundationCollected + p.foundation,
                  burned := AddBurned(cfg.burned, t, p.burn));
      r := Pass;
    }

    static method WeightOf(v: Validator) returns (weight: nat)
      ensures weight == Weight(v)
    {
      if !v.active { return 0; }
      weight := v.stake * v.multiplier;
    }

    /** First pass of a distribution: each account's weight and their sum. */
    method ComputeWeights(keys: seq<Key>) returns (r: Result<Weighed, FeeError>)
      ensures r == WeighAll(validators, keys)
    {
      var totalWeight: u64 := 0;
      var weights: seq<u64> := [];
      var i := 0;
      while i < |keys|
        invariant 0 <= i <= |keys|
        invariant WeighAll(validators, keys[..i]) == Ok(Weighed(weights, totalWeight))
      {
        assert keys[..i + 1][..i] == keys[..i];
        if keys[i] !in validators {
          FailsEarly(validators, keys, i + 1);
          return Err(AccountMissing);
        }
        var weight := WeightOf(validators[keys[i]]);
        if weight > U64_MAX || totalWeight + weight > U64_MAX {
          FailsEarly(validators, keys, i + 1);
          return Err(Overflow);
        }
        totalWeight := totalWeight + weight;
        weights := weights + [weight];
        i := i + 1;
      }
      assert keys[..i] == keys;
      r := Ok(Weighed(weights, totalWeight));
    }

    /** Second pass: credit each account its share, on a copy that is kept only if all succeed. */
    method PayShares(keys: seq<Key>, weights: seq<u64>, pot: u64, total: u64) returns (r: Result<Payout, FeeError>)
      requires |keys| == |weights| && total > 0 && forall k | k in keys :: k in validators
      ensures r == PayAll(validators, keys, weights, pot, total)
    {
      var vs := validators;
      var distributed: u64 := 0;
      var i := 0;
      while i < |keys|
        invariant 0 <= i <= |keys|
        invariant PayAll(validators, keys[..i], weights[..i], pot, total) == Ok(Payout(vs, distributed))
      {
        PayNext(validators, keys, weights, pot, total, i, Payout(vs, distributed));
        if weights[i] != 0 {
          var reward := Reward(pot, weights[i], total);
          var v := vs[keys[i]];
          if v.pending + reward > U64_MAX || distributed + reward > U64_MAX {
            PayFailsEarly(validators, keys, weights, pot, total, i + 1);
            return Err(Overflow);
          }
          vs := vs[keys[i] := v.(pending := v.pending + reward)];
          distributed := distributed + reward;
        }
        i := i + 1;
      }
      assert keys[..i] == keys && weights[..i] == weights;
      r := Ok(Payout(vs, distributed));
    }

    method ProcessDistributeEpochRewards(epoch: nat, keys: seq<Key>) returns (r: Outcome<FeeError>)
      modifies this`cfg, this`pools, this`validators, this`proposal
      ensures r == Verdict(Distribute(old(View()), epoch, keys))
      ensures View() == Settled(old(View()), Distribute(old(View()), epoch, keys))
    {
      if epoch !in pools { return Fail(AccountMissing); }
      var pool := pools[epoch];
      if pool.finalized { return Fail(FeePoolAlreadyFinalized); }
      if pool.collected == 0 {
        if cfg.currentEpoch == U64_MAX { return Fail(Overflow); }
        pools := pools[epoch := pool.(finalized := true)];
        cfg := cfg.(currentEpoch := cfg.currentEpoch + 1);
        return Pass;
      }
      if keys == [] { return Fail(NoValidators); }
      var weighed := ComputeWeights(keys);
      if weighed.Err? { return Fail(weighed.error); }
      if weighed.value.total == 0 { return Fail(NoValidators); }
      var paid := PayShares(keys, weighed.value.weights, pool.collected, weighed.value.total);
      if paid.Err? { return Fail(paid.error); }
      if cfg.totalDistributed + paid.value.distributed > U64_MAX || cfg.currentEpoch == U64_MAX {
        return Fail(Overflow);
      }
      validators := paid.value.validators;
      pools := pools[epoch := pool.(distributed := paid.value.distributed, finalized := true)];
      cfg := cfg.(totalDistributed := cfg.totalDistributed + paid.value.distributed,
                  currentEpoch := cfg.currentEpoch + 1);
      r := Pass;
    }

    method ProcessClaimRewards(who: Key, vaultBalance: nat) returns (r: Outcome<FeeError>)
      modifies this`cfg, this`pools, this`validators, this`proposal
      ensures r == Verdict(ClaimRewards(old(View()), who, vaultBalance))
      ensures View() == Settled(old(View()), ClaimRewards(old(View()), who, vaultBalance))
    {
      if who !in validators { return Fail(AccountMissing); }
      var v := validators[who];
      if v.pending == 0 { return Fail(NoRewardsToClaim); }
      if v.pending > vaultBalance { return Fail(TransferFailed); }
      if v.claimed + v.pending > U64_MAX { return Fail(Overflow); }
      validators := validators[who := v.(claimed := v.claimed + v.pending, pending := 0)];
      r := Pass;
    }

    method ProcessDeregisterValidator(who: Key, vaultBalance: nat, purged: bool) returns (r: Outcome<FeeError>)
      modifies this`cfg, this`pools, this`validators, this`proposal
      ensures r == Verdict(DeregisterValidator(old(View()), who, vaultBalance, purged))
      ensures View() == Settled(old(View()), DeregisterValidator(old(View()), who, vaultBalance, purged))
    {
      if who !in validators || !validators[who].active { return Fail(ValidatorNotRegistered); }
      var v := validators[who];
      if v.pending > 0 {
        if v.pending > vaultBalance { return Fail(TransferFailed); }
        if v.claimed + v.pending > U64_MAX { return Fail(Overflow); }
        v := v.(claimed := v.claimed + v.pending, pending := 0);
      }
      v := v.(active := false);
      validators := if purged then validators - {who} else validators[who := v];
      r := Pass;
    }

    method ProcessBurnFoundationFees(bps: u16, balance: nat) returns (r: Outcome<FeeError>)
      modifies this`cfg, this`pools, this`validators, this`proposal
      ensures r == Verdict(BurnFoundationFees(old(View()), bps, balance))
      ensures View() == Settled(old(View()), BurnFoundationFees(old(View()), bps, balance))
    {
      if bps == 0 || bps > 10_000 { return Fail(InvalidBurnPercentage); }
      MulMono(cfg.foundationCollected, bps, 10_000);
      var amount: u64 := cfg.foundationCollected * bps / 10_000;
      if amount == 0 { return Fail(InsufficientFoundationBalance); }
      if amount > balance { return Fail(TransferFailed); }
      if cfg.totalBurned + amount > U64_MAX || cfg.foundationBurned + amount > U64_MAX { return Fail(Overflow); }
      cfg := cfg.(totalBurned := cfg.totalBurned + amount, foundationBurned := cfg.foundationBurned + amount,
                  foundationCollected := cfg.foundationCollected - amount);
      r := Pass;
    }

    method ProcessBurnTokens(amount: u64, balance: nat) returns (r: Outcome<FeeError>)
      modifies this`cfg, this`pools, this`validators, this`proposal
      ensures r == Verdict(BurnTokens(old(View()), amount, balance))
      ensures View() == Settled(old(View()), BurnTokens(old(View()), amount, balance))
    {
      if amount == 0 { return Fail(ZeroAmount); }
      if amount > balance { return Fail(TransferFailed); }
      if cfg.totalBurned + amount > U64_MAX { return Fail(Overflow); }
      cfg := cfg.(totalBurned := cfg.totalBurned + amount);
      r := Pass;
    }

    method ProcessRegisterValidator(who: Key, stake: u64, aiCapable: bool) returns (r: Outcome<FeeError>)
      modifies this`cfg, this`pools, this`validators, this`proposal
      ensures r == Verdict(RegisterValidator(old(View()), who, stake, aiCapable))
      ensures View() == Settled(old(View()), RegisterValidator(old(View()), who, stake, aiCapable))
    {
      if who in validators { return Fail(ValidatorAlreadyRegistered); }
      validators := validators[who := Validator(stake, if aiCapable then 200 else 100, 0, 0, true)];
      r := Pass;
    }

    method ProcessUpdateValidator(who: Key, aiCapable: Option<bool>, stake: Option<u64>) returns (r: Outcome<FeeError>)
      modifies this`cfg, this`pools, this`validators, this`proposal
      ensures r == Verdict(UpdateValidator(old(View()), who, aiCapable, stake))
      ensures View() == Settled(old(View()), UpdateValidator(old(View()), who, aiCapable, stake))
    {
      if who !in validators || !validators[who].active { return Fail(ValidatorNotRegistered); }
      var v := validators[who];
      if aiCapable.Some? {
        v := v.(multiplier := if aiCapable.value then 200 else 100);
      }
      if stake.Some? {
        v := v.(stake := stake.value);
      }
      validators := validators[who := v];
      r := Pass;
    }

    method ProcessUpdateFeeConfig(u: SplitUpdate) returns (r: Outcome<FeeError>)
      modifies this`cfg, this`pools, this`validators, this`proposal
      ensures r == Verdict(UpdateFeeConfig(old(View()), u))
      ensures View() == Settled(old(View()), UpdateFeeConfig(old(View()), u))
    {
      var valid := ValidateAll(u);
      if valid.Fail? { return valid; }
      ApplyUpdate(u);
      r := Pass;
    }

    /** Overwrite the splits an update names. */
    method ApplyUpdate(u: SplitUpdate)
      modifies this`cfg
      ensures cfg == old(cfg).(splits := Apply(old(cfg).splits, u))
    {
      var splits := cfg.splits;
      if u.gas.Some? { splits := splits.(gas := u.gas.value); }
      if u.compute.Some? { splits := splits.(compute := u.compute.value); }
      if u.inference.Some? { splits := splits.(inference := u.inference.value); }
      if u.bridge.Some? { splits := splits.(bridge := u.bridge.value); }
      cfg := cfg.(splits := splits);
    }

    method ProcessProposeFeeUpdate(u: SplitUpdate, slot: u64) returns (r: Outcome<FeeError>)
      modifies this`cfg, this`pools, this`validators, this`proposal
      ensures r == Verdict(ProposeFeeUpdate(old(View()), u, slot))
      ensures View() == Settled(old(View()), ProposeFeeUpdate(old(View()), u, slot))
    {
      var valid := ValidateAll(u);
      if valid.Fail? { return valid; }
      if !proposal.Absent? { return Fail(PendingUpdateExists); }
      if slot + TIMELOCK_DELAY > U64_MAX { return Fail(Overflow); }
      proposal := Stored(u, slot + TIMELOCK_DELAY);
      r := Pass;
    }

    method ProcessExecuteFeeUpdate(slot: u64, purged: bool) returns (r: Outcome<FeeError>)
      modifies this`cfg, this`pools, this`validators, this`proposal
      ensures r == Verdict(ExecuteFeeUpdate(old(View()), slot, purged))
      ensures View() == Settled(old(View()), ExecuteFeeUpdate(old(View()), slot, purged))
    {
      if proposal.Absent? { return Fail(NoPendingUpdate); }
      if !proposal.Stored? || !FillsAccount(proposal.update) { return Fail(AccountUnreadable); }
      if slot < proposal.executionSlot { return Fail(TimelockNotExpired); }
      ApplyUpdate(proposal.update);
      proposal := if purged then Absent else Zeroed;
      r := Pass;
    }

    method Dispatch(op: Op) returns (r: Outcome<FeeError>)
      modifies this`cfg, this`pools, this`validators, this`proposal
      ensures r == Verdict(Perform(old(View()), op)) && View() == Settled(old(View()), Perform(old(View()), op))
    {
      match op {
        case RegisterOp(who, stake, ai) => r := ProcessRegisterValidator(who, stake, ai);
        case UpdateOp(who, ai, stake) => r := ProcessUpdateValidator(who, ai, stake);
        case DeregisterOp(who, balance, purged) => r := ProcessDeregisterValidator(who, balance, purged);
        case CollectOp(t, amount, funds) => r := ProcessCollectFee(t, amount, funds);
        case DistributeOp(epoch, keys) => r := ProcessDistributeEpochRewards(epoch, keys);
        case ClaimOp(who, balance) => r := ProcessClaimRewards(who, balance);
        case UpdateConfigOp(u) => r := ProcessUpdateFeeConfig(u);
        case ProposeOp(u, slot) => r := ProcessProposeFeeUpdate(u, slot);
        case ExecuteOp(slot, deleted) => r := ProcessExecuteFeeUpdate(slot, deleted);
        case BurnFoundationOp(bps, balance) => r := ProcessBurnFoundationFees(bps, balance);
        case BurnTokensOp(amount, balance) => r := ProcessBurnTokens(amount, balance);
        case PauseOp(paused) =>
          cfg := cfg.(paused := paused);
          r := Pass;
      }
    }

    /** The history of an instruction about to run. */
    ghost method Note(op: Op)
      requires Valid()
      modifies this`history
      ensures history == if Perform(View(), op).Ok? then Record(old(history), View(), op) else old(history)
      ensures Good(Settled(View(), Perform(View(), op)), history)
    {
      if Perform(View(), op).Ok? {
        PerformKeepsGood(View(), history, op);
        history := Record(history, View(), op);
      }
    }

    /** The entry point. Every instruction is entered in the history, keeps what was distributed equal to what is
        pending, claimed or retired, and keeps every fee paid in with a pool, with the foundation or burned. */
    method ProcessInstruction(op: Op) returns (r: Outcome<FeeError>)
      requires Valid()
      modifies this
      ensures r == Verdict(Perform(old(View()), op)) && View() == Settled(old(View()), Perform(old(View()), op))
      ensures history == if r.Pass? then Record(old(history), old(View()), op) else old(history)
      ensures cfg.totalDistributed == Total(validators, PendingOf) + Total(validators, ClaimedOf) + history.retired
      ensures history.paidIn == Total(pools, CollectedOf) + (cfg.foundationCollected + cfg.foundationBurned)
                                + TypeBurns(cfg.burned)
      ensures Valid()
    {
      Note(op);
      r := Dispatch(op);
    }
  }

  /** A pass that fails on some prefix of the accounts fails the same way on all of them. */
  lemma {:induction false} FailsEarly(vs: map<Key, Validator>, keys: seq<Key>, i: nat)
    requires i <= |keys| && WeighAll(vs, keys[..i]).Err?
    ensures WeighAll(vs, keys) == WeighAll(vs, keys[..i])
    decreases |keys|
  {
    if i < |keys| {
      var n := |keys| - 1;
      assert keys[..n][..i] == keys[..i];
      FailsEarly(vs, keys[..n], i);
    } else {
      assert keys[..i] == keys;
    }
  }

  lemma {:induction false} PayFailsEarly(
      vs: map<Key, Validator>, keys: seq<Key>, weights: seq<u64>, pot: u64, total: u64, i: nat)
    requires |keys| == |weights| && total > 0 && (forall k | k in keys :: k in vs) && i <= |keys|
    requires PayAll(vs, keys[..i], weights[..i], pot, total).Err?
    ensures PayAll(vs, keys, weights, pot, total) == PayAll(vs, keys[..i], weights[..i], pot, total)
    decreases |keys|
  {
    if i < |keys| {
      var n := |keys| - 1;
      assert keys[..n][..i] == keys[..i] && weights[..n][..i] == weights[..i];
      PayFailsEarly(vs, keys[..n], weights[..n], pot, total, i);
    } else {
      assert keys[..i] == keys && weights[..i] == weights;
    }
  }
}

/** What the proportional distribution guarantees, and the ledger every run of the fee engine keeps. */
module FeeEngineRuns {
  import opened Numbers
  import opened Totals
  import opened FeeEngine

  // ---------- Distribution arithmetic ----------

  function Positive(s: seq<u64>): nat {
    if s == [] then 0 else Positive(s[..|s| - 1]) + (if s[|s| - 1] > 0 then 1 else 0)
  }

  function RewardSum(pot: u64, weights: seq<u64>, total: u64): nat
    requires total > 0
  {
    if weights == [] then 0 else
      RewardSum(pot, weights[..|weights| - 1], total) + Reward(pot, weights[|weights| - 1], total)
  }

  /** One share's rounding: less than a whole unit of the total is lost, and nothing for a zero weight. */
  lemma RewardRounds(pot: u64, weight: u64, total: u64)
    requires total > 0
    ensures total * Reward(pot, weight, total) <= pot * weight
    ensures pot * weight <= total * Reward(pot, weight, total) + (if weight > 0 then total - 1 else 0)
  {
    DivBounds(pot * weight, total);
    if weight == 0 {
      DivUnique(0, total, 0);
    }
  }

  lemma {:induction false} RewardSumRounds(pot: u64, weights: seq<u64>, total: u64)
    requires total > 0
    ensures total * RewardSum(pot, weights, total) <= pot * Sum(weights)
    ensures pot * Sum(weights) <= total * RewardSum(pot, weights, total) + (total - 1) * Positive(weights)
  {
    if weights != [] {
      var init, w := weights[..|weights| - 1], weights[|weights| - 1];
      RewardSumRounds(pot, init, total);
      SumLast(weights);
      RewardRounds(pot, w, total);
      AddScaled(pot, Sum(init), w);
      AddScaled(total, RewardSum(pot, init, total), Reward(pot, w, total));
      AddScaled(total - 1, Positive(init), if w > 0 then 1 else 0);
    }
  }

  /** A scaled deficit of less than one total per entry is a deficit of less than one unit per entry. */
  lemma DeficitBound(pot: nat, paid: nat, total: nat, entries: nat)
    requires total > 0 && entries > 0
    requires total * paid <= pot * total <= total * paid + (total - 1) * entries
    ensures paid <= pot && pot - paid < entries
  {
    if paid > pot {
      MulMono(total, pot + 1, paid);
    }
    if pot - paid >= entries {
      MulMono(total, entries, pot - paid);
      AddScaled(total, paid, pot - paid);
    }
  }

  /** The whole pot is paid but for less than one unit per account that has weight. */
  lemma DistributionLosesOnlyRounding(pot: u64, weights: seq<u64>)
    requires Sum(weights) > 0 && Sum(weights) <= U64_MAX
    ensures var paid := RewardSum(pot, weights, Sum(weights));
            paid <= pot && pot - paid < Positive(weights)
  {
    var total := Sum(weights);
    RewardSumRounds(pot, weights, total);
    PositiveExists(weights);
    DeficitBound(pot, RewardSum(pot, weights, total), total, Positive(weights));
  }

  lemma {:induction false} PositiveExists(s: seq<u64>)
    ensures Sum(s) > 0 ==> Positive(s) > 0
  {
    if s != [] {
      SumLast(s);
      PositiveExists(s[..|s| - 1]);
    }
  }

  lemma RewardIsMonotone(pot: u64, low: u64, high: u64, total: u64)
    requires total > 0 && low <= high
    ensures Reward(pot, low, total) <= Reward(pot, high, total)
  {
    MulMono(pot, low, high);
    DivMono(pot * low, pot * high, total, total);
  }

  // ---------- The two passes ----------

  function PendingOf(v: Validator): int { v.pending }

  function ClaimedOf(v: Validator): int { v.claimed }

  lemma {:induction false} FirstPassAdds(vs: map<Key, Validator>, keys: seq<Key>)
    requires WeighAll(vs, keys).Ok?
    ensures WeighAll(vs, keys).value.total == Sum(WeighAll(vs, keys).value.weights)
    decreases |keys|
  {
    if keys != [] {
      var n := |keys| - 1;
      FirstPassAdds(vs, keys[..n]);
      SumLast(WeighAll(vs, keys).value.weights);
      assert WeighAll(vs, keys).value.weights[..n] == WeighAll(vs, keys[..n]).value.weights;
    }
  }

  lemma {:induction false} FirstPassWeighs(vs: map<Key, Validator>, keys: seq<Key>, i: nat)
    requires WeighAll(vs, keys).Ok? && i < |keys|
    ensures WeighAll(vs, keys).value.weights[i] == Weight(vs[keys[i]])
    decreases |keys|
  {
    var n := |keys| - 1;
    if i < n {
      FirstPassWeighs(vs, keys[..n], i);
    }
  }

  /** What the accounts named by `keys` are paid to validator `k`, repeats included. */
  function PaidTo(k: Key, keys: seq<Key>, weights: seq<u64>, pot: u64, total: u64): nat
    requires |keys| == |weights| && total > 0
    decreases |keys|
  {
    if keys == [] then 0 else
      var n := |keys| - 1;
      PaidTo(k, keys[..n], weights[..n], pot, total) + (if keys[n] == k then Reward(pot, weights[n], total) else 0)
  }

  /** The account is credited and otherwise as it was. */
  predicate Receives(v: Validator, v': Validator, amount: nat) {
    v'.pending == v.pending + amount && v' == v.(pending := v'.pending)
  }

  lemma {:induction false} SecondPassPays(
      vs: map<Key, Validator>, keys: seq<Key>, weights: seq<u64>, pot: u64, total: u64)
    requires |keys| == |weights| && total > 0 && (forall k | k in keys :: k in vs)
    requires PayAll(vs, keys, weights, pot, total).Ok?
    ensures var p := PayAll(vs, keys, weights, pot, total).value;
            && p.distributed == RewardSum(pot, weights, total)
            && Total(p.validators, PendingOf) == Total(vs, PendingOf) + p.distributed
            && Total(p.validators, ClaimedOf) == Total(vs, ClaimedOf)
            && forall k | k in vs :: Receives(vs[k], p.validators[k], PaidTo(k, keys, weights, pot, total))
    decreases |keys|
  {
    if keys != [] {
      var n := |keys| - 1;
      SecondPassPays(vs, keys[..n], weights[..n], pot, total);
      OnePays(PayAll(vs, keys[..n], weights[..n], pot, total).value, keys[n], weights[n], pot, total);
    }
  }

  lemma OnePays(p: Payout, k: Key, weight: u64, pot: u64, total: u64)
    requires total > 0 && k in p.validators && PayOne(p, k, weight, pot, total).Ok?
    ensures var p', reward := PayOne(p, k, weight, pot, total).value, Reward(pot, weight, total);
            && p'.distributed == p.distributed + reward
            && Total(p'.validators, PendingOf) == Total(p.validators, PendingOf) + reward
            && Total(p'.validators, ClaimedOf) == Total(p.validators, ClaimedOf)
            && p'.validators == p.validators[k := p'.validators[k]]
            && Receives(p.validators[k], p'.validators[k], reward)
  {
    var v, reward := p.validators[k], Reward(pot, weight, total);
    if weight == 0 {
      RewardRounds(pot, 0, total);
      assert p.validators[k := v] == p.validators;
    } else {
      TotalPut(p.validators, k, v.(pending := v.pending + reward), PendingOf);
      TotalPut(p.validators, k, v.(pending := v.pending + reward), ClaimedOf);
    }
  }

  // ---------- Ledger ----------

  /** Totals a run accumulates beside the accounts: fees paid in, administrative burns, and what accounts
      that no longer exist had claimed. */
  datatype History = History(paidIn: nat, adminBurned: nat, retired: nat)

  datatype Op =
    | RegisterOp(who: Key, stake: u64, aiCapable: bool)
    | UpdateOp(who: Key, ai: Option<bool>, newStake: Option<u64>)
    | DeregisterOp(who: Key, vaultBalance: nat, purged: bool)
    | CollectOp(feeType: FeeType, amount: u64, funds: nat)
    | DistributeOp(epoch: nat, keys: seq<Key>)
    | ClaimOp(who: Key, vaultBalance: nat)
    | UpdateConfigOp(update: SplitUpdate)
    | ProposeOp(update: SplitUpdate, slot: u64)
    | ExecuteOp(slot: u64, deleted: bool)
    | BurnFoundationOp(bps: u16, balance: nat)
    | BurnTokensOp(amount: u64, balance: nat)
    | PauseOp(paused: bool)

  function Perform(e: Engine, op: Op): Step {
    match op
    case RegisterOp(who, stake, ai) => RegisterValidator(e, who, stake, ai)
    case UpdateOp(who, ai, stake) => UpdateValidator(e, who, ai, stake)
    case DeregisterOp(who, balance, purged) => DeregisterValidator(e, who, balance, purged)
    case CollectOp(t, amount, funds) => CollectFee(e, t, amount, funds)
    case DistributeOp(epoch, keys) => Distribute(e, epoch, keys)
    case ClaimOp(who, balance) => ClaimRewards(e, who, balance)
    case UpdateConfigOp(u) => UpdateFeeConfig(e, u)
    case ProposeOp(u, slot) => ProposeFeeUpdate(e, u, slot)
    case ExecuteOp(slot, deleted) => ExecuteFeeUpdate(e, slot, deleted)
    case BurnFoundationOp(bps, balance) => BurnFoundationFees(e, bps, balance)
    case BurnTokensOp(amount, balance) => BurnTokens(e, amount, balance)
    case PauseOp(paused) => Ok(e.(cfg := e.cfg.(paused := paused)))
  }

  function Record(h: History, e: Engine, op: Op): History
    requires Perform(e, op).Ok?
  {
    match op
    case CollectOp(_, amount, _) => h.(paidIn := h.paidIn + amount)
    case BurnTokensOp(amount, _) => h.(adminBurned := h.adminBurned + amount)
    case DeregisterOp(who, _, purged) =>
      if purged then h.(retired := h.retired + e.validators[who].claimed + e.validators[who].pending) else h
    case _ => h
  }

  function CollectedOf(p: Pool): int { p.collected }

  function DistributedOf(p: Pool): int { p.distributed }

  /** There is a pool for every past epoch, finalized, and perhaps one for the current, open. */
  ghost predicate Epochs(e: Engine) {
    && (forall n: nat | n < e.cfg.currentEpoch :: n in e.pools)
    && (forall n | n in e.pools ::
          n <= e.cfg.currentEpoch
          && (e.pools[n].finalized <==> n < e.cfg.currentEpoch)
          && e.pools[n].distributed <= e.pools[n].collected
          && (!e.pools[n].finalized ==> e.pools[n].distributed == 0))
  }

  function TypeBurns(b: Burned): nat {
    b.gas + b.compute + b.inference + b.bridge + b.subnet
  }

  ghost predicate Ledger(e: Engine, h: History) {
    && e.cfg.totalDistributed == Total(e.pools, DistributedOf)
    && e.cfg.totalDistributed == Total(e.validators, PendingOf) + Total(e.validators, ClaimedOf) + h.retired
    && e.cfg.totalBurned == TypeBurns(e.cfg.burned) + e.cfg.foundationBurned + h.adminBurned
    && h.paidIn == Total(e.pools, CollectedOf) + (e.cfg.foundationCollected + e.cfg.foundationBurned)
                   + TypeBurns(e.cfg.burned)
  }

  predicate SplitsValid(s: Splits) {
    Validate(s.gas).Pass? && Validate(s.compute).Pass? && Validate(s.inference).Pass? && Validate(s.bridge).Pass?
  }

  predicate Governed(e: Engine) {
    && SplitsValid(e.cfg.splits)
    && (e.proposal.Stored? ==> ValidateAll(e.proposal.update).Pass?)
  }

  ghost predicate Good(e: Engine, h: History) {
    Epochs(e) && Ledger(e, h) && Governed(e)
  }

  lemma CreditKeepsGood(e: Engine, h: History, t: FeeType, p: Parts)
    requires Good(e, h) && Credit(e, t, p).Ok?
    ensures Good(Credit(e, t, p).value, h.(paidIn := h.paidIn + p.validator + p.foundation + p.burn))
    ensures var e' := Credit(e, t, p).value;
            && PoolOf(e').collected - PoolOf(e).collected == p.validator
            && e'.cfg.foundationCollected - e.cfg.foundationCollected == p.foundation
            && BurnedFor(e'.cfg.burned, t) - BurnedFor(e.cfg.burned, t) == p.burn
  {
    var pool := PoolOf(e);
    var pool' := pool.(collected := pool.collected + p.validator);
    TotalPut<nat, Pool>(e.pools, e.cfg.currentEpoch, pool', CollectedOf);
    TotalPut<nat, Pool>(e.pools, e.cfg.currentEpoch, pool', DistributedOf);
    assert Epochs(Credit(e, t, p).value);
  }

  /** The crank can only finalize the current epoch's pool, though it never compares the two. */
  lemma DistributionIsForTheCurrentEpoch(e: Engine, epoch: nat, keys: seq<Key>)
    requires Epochs(e) && Distribute(e, epoch, keys).Ok?
    ensures epoch == e.cfg.currentEpoch
    ensures var e' := Distribute(e, epoch, keys).value;
            && e'.cfg.currentEpoch == epoch + 1
            && e'.pools == e.pools[epoch := e'.pools[epoch]] && e'.pools[epoch].finalized
  {
  }

  /** A distribution pays the collected pot but for less than one unit per weighted account, to the
      validators named, each the sum of its shares; nothing else about a validator changes. */
  lemma DistributionPaysThePot(e: Engine, epoch: nat, keys: seq<Key>)
    requires Epochs(e) && Distribute(e, epoch, keys).Ok? && e.pools[epoch].collected > 0
    ensures var e', pot, w := Distribute(e, epoch, keys).value, e.pools[epoch].collected,
                             WeighAll(e.validators, keys).value;
            var paid := e'.pools[epoch].distributed;
            && (forall i | 0 <= i < |keys| :: w.weights[i] == Weight(e.validators[keys[i]]))
            && w.total == Sum(w.weights)
            && paid <= pot && pot - paid < Positive(w.weights)
            && Total(e'.validators, PendingOf) == Total(e.validators, PendingOf) + paid
            && e'.validators.Keys == e.validators.Keys
            && forall k | k in e.validators ::
                 Receives(e.validators[k], e'.validators[k], PaidTo(k, keys, w.weights, pot, w.total))
  {
    var pot, w := e.pools[epoch].collected, WeighAll(e.validators, keys).value;
    FirstPassAdds(e.validators, keys);
    forall i | 0 <= i < |keys|
      ensures w.weights[i] == Weight(e.validators[keys[i]])
    {
      FirstPassWeighs(e.validators, keys, i);
    }
    SecondPassPays(e.validators, keys, w.weights, pot, w.total);
    DistributionLosesOnlyRounding(pot, w.weights);
  }

  lemma DistributeKeepsGood(e: Engine, h: History, epoch: nat, keys: seq<Key>)
    requires Good(e, h) && Distribute(e, epoch, keys).Ok?
    ensures Good(Distribute(e, epoch, keys).value, h)
  {
    DistributeKeepsEpochs(e, epoch, keys);
    DistributeKeepsLedger(e, h, epoch, keys);
  }

  lemma DistributeKeepsEpochs(e: Engine, epoch: nat, keys: seq<Key>)
    requires Epochs(e) && Distribute(e, epoch, keys).Ok?
    ensures Epochs(Distribute(e, epoch, keys).value)
  {
    DistributionIsForTheCurrentEpoch(e, epoch, keys);
    if e.pools[epoch].collected > 0 {
      DistributionPaysThePot(e, epoch, keys);
    }
    EpochCloses(e, Distribute(e, epoch, keys).value, Distribute(e, epoch, keys).value.pools[epoch]);
  }

  lemma EpochCloses(e: Engine, e': Engine, pool: Pool)
    requires Epochs(e) && e.cfg.currentEpoch in e.pools && e'.cfg.currentEpoch == e.cfg.currentEpoch + 1
    requires e'.pools == e.pools[e.cfg.currentEpoch as nat := pool]
             && pool.finalized && pool.distributed <= pool.collected
    ensures Epochs(e')
  {
  }

  lemma DistributeKeepsLedger(e: Engine, h: History, epoch: nat, keys: seq<Key>)
    requires Epochs(e) && Ledger(e, h) && Distribute(e, epoch, keys).Ok?
    ensures Ledger(Distribute(e, epoch, keys).value, h)
  {
    var pool, e' := e.pools[epoch], Distribute(e, epoch, keys).value;
    DistributionIsForTheCurrentEpoch(e, epoch, keys);
    TotalPut(e.pools, epoch, e'.pools[epoch], CollectedOf);
    TotalPut(e.pools, epoch, e'.pools[epoch], DistributedOf);
    if pool.collected > 0 {
      var w := WeighAll(e.validators, keys).value;
      DistributionPaysThePot(e, epoch, keys);
      SecondPassPays(e.validators, keys, w.weights, pool.collected, w.total);
    }
  }

  lemma ValidatorChangeKeepsLedger(e: Engine, h: History, who: Key, v: Validator)
    requires Good(e, h)
    requires var was := if who in e.validators then e.validators[who] else Validator(0, 0, 0, 0, false);
             v.pending + v.claimed == was.pending + was.claimed
    ensures Good(e.(validators := e.validators[who := v]), h)
  {
    TotalPut(e.validators, who, v, PendingOf);
    TotalPut(e.validators, who, v, ClaimedOf);
  }

  lemma PurgeKeepsGood(e: Engine, h: History, who: Key)
    requires Good(e, h) && who in e.validators
    ensures Good(e.(validators := e.validators - {who}),
                 h.(retired := h.retired + e.validators[who].claimed + e.validators[who].pending))
  {
    TotalRemove(e.validators, who, PendingOf);
    TotalRemove(e.validators, who, ClaimedOf);
  }

  lemma SplitUpdatesKeepGood(e: Engine, h: History, op: Op)
    requires Good(e, h) && (op.UpdateConfigOp? || op.ProposeOp? || op.ExecuteOp?) && Perform(e, op).Ok?
    ensures Good(Perform(e, op).value, h)
  {
    match op {
      case UpdateConfigOp(u) => ApplyKeepsValid(e.cfg.splits, u);
      case ExecuteOp(_, _) => ApplyKeepsValid(e.cfg.splits, e.proposal.update);
      case _ =>
    }
    assert Governed(Perform(e, op).value);
  }

  lemma ApplyKeepsValid(s: Splits, u: SplitUpdate)
    requires SplitsValid(s) && ValidateAll(u).Pass?
    ensures SplitsValid(Apply(s, u))
  {
  }

  lemma BurnsKeepGood(e: Engine, h: History, op: Op)
    requires Good(e, h) && (op.BurnFoundationOp? || op.BurnTokensOp?) && Perform(e, op).Ok?
    ensures Good(Perform(e, op).value, Record(h, e, op))
  {
  }

  lemma PerformKeepsGood(e: Engine, h: History, op: Op)
    requires Good(e, h) && Perform(e, op).Ok?
    ensures Good(Perform(e, op).value, Record(h, e, op))
  {
    var e' := Perform(e, op).value;
    match op
    case RegisterOp(who, _, _) => ValidatorChangeKeepsLedger(e, h, who, e'.validators[who]);
    case UpdateOp(who, _, _) => ValidatorChangeKeepsLedger(e, h, who, e'.validators[who]);
    case DeregisterOp(who, _, purged) =>
      if purged { PurgeKeepsGood(e, h, who); } else { ValidatorChangeKeepsLedger(e, h, who, e'.validators[who]); }
    case CollectOp(t, amount, funds) => CreditKeepsGood(e, h, t, Split(GetSplit(e.cfg, t), amount).value);
    case DistributeOp(epoch, keys) => DistributeKeepsGood(e, h, epoch, keys);
    case ClaimOp(who, _) => ValidatorChangeKeepsLedger(e, h, who, e'.validators[who]);
    case UpdateConfigOp(_) => SplitUpdatesKeepGood(e, h, op);
    case ProposeOp(_, _) => SplitUpdatesKeepGood(e, h, op);
    case ExecuteOp(_, _) => SplitUpdatesKeepGood(e, h, op);
    case BurnFoundationOp(_, _) => BurnsKeepGood(e, h, op);
    case BurnTokensOp(_, _) => BurnsKeepGood(e, h, op);
    case PauseOp(_) =>
  }

  // ---------- Runs ----------

  function Run(e: Engine, h: History, ops: seq<Op>): (Engine, History)
    decreases |ops|
  {
    if ops == [] then (e, h) else
      var r := Perform(e, ops[0]);
      if r.Ok? then Run(r.value, Record(h, e, ops[0]), ops[1..]) else Run(e, h, ops[1..])
  }

  lemma {:induction false} RunKeepsGood(e: Engine, h: History, ops: seq<Op>)
    requires Good(e, h)
    ensures Good(Run(e, h, ops).0, Run(e, h, ops).1)
    decreases |ops|
  {
    if ops != [] {
      var r := Perform(e, ops[0]);
      if r.Ok? {
        PerformKeepsGood(e, h, ops[0]);
        RunKeepsGood(r.value, Record(h, e, ops[0]), ops[1..]);
      } else {
        RunKeepsGood(e, h, ops[1..]);
      }
    }
  }

  /** Over every run from initialization: pools line up with epochs, every distributed unit is pending,
      claimed or retired and was collected, every burned unit has its source, and every fee paid is in a
      pool, with the foundation, or burned. */
  lemma EveryFeeIsAccountedFor(s: Splits, ops: seq<Op>)
    requires Initialize(s).Ok?
    ensures var (e, h) := Run(Initialize(s).value, History(0, 0, 0), ops);
            && Epochs(e) && Ledger(e, h) && SplitsValid(e.cfg.splits)
            && e.cfg.totalDistributed <= Total(e.pools, CollectedOf)
  {
    RunKeepsGood(Initialize(s).value, History(0, 0, 0), ops);
    var (e, h) := Run(Initialize(s).value, History(0, 0, 0), ops);
    TotalLinear(e.pools, 1, DistributedOf, CollectedOf, 0, CollectedOf);
  }

  /** A fee is refused only for a pause, the payer's means or 64-bit overflow: the current pool is never
      found finalized. */
  lemma CollectNeverMeetsAFinalizedPool(e: Engine, h: History, t: FeeType, amount: u64, funds: nat)
    requires Good(e, h)
    ensures var r := CollectFee(e, t, amount, funds);
            r.Err? ==> r.error == ProgramPaused || r.error == TransferFailed || r.error == Overflow
  {
  }

  // ---------- Proposals ----------

  /** A proposal's account that nothing can be read from any more. */
  predicate Stuck(p: Proposal) {
    p.Zeroed? || (p.Stored? && !FillsAccount(p.update))
  }

  /** Such an account stays through every run, and no update is ever proposed or executed again. */
  lemma {:induction false} StuckProposalBlocksAll(
      e: Engine, h: History, ops: seq<Op>, u: SplitUpdate, slot: u64, deleted: bool)
    requires Stuck(e.proposal)
    ensures var e' := Run(e, h, ops).0;
            e'.proposal == e.proposal && ProposeFeeUpdate(e', u, slot).Err? && ExecuteFeeUpdate(e', slot, deleted).Err?
    decreases |ops|
  {
    if ops != [] {
      var r := Perform(e, ops[0]);
      if r.Ok? {
        ProposalMoves(e, ops[0]);
        StuckProposalBlocksAll(r.value, Record(h, e, ops[0]), ops[1..], u, slot, deleted);
      } else {
        StuckProposalBlocksAll(e, h, ops[1..], u, slot, deleted);
      }
    }
  }

  lemma ProposalMoves(e: Engine, op: Op)
    requires Perform(e, op).Ok?
    ensures Perform(e, op).value.proposal ==
              match op
              case ProposeOp(u, slot) => Stored(u, slot + TIMELOCK_DELAY)
              case ExecuteOp(_, deleted) => if deleted then Absent else Zeroed
              case _ => e.proposal
    ensures op.ProposeOp? ==> e.proposal.Absent?
    ensures op.ExecuteOp? ==> e.proposal.Stored? && FillsAccount(e.proposal.update)
  {
  }

  /** A proposal is ever executed exactly if it names all that can be updated: a partial one can never be, and blocks
      every other. */
  lemma ProposalIsExecutableExactlyWhen(e: Engine, u: SplitUpdate, slot: u64, later: u64, deleted: bool)
    requires ProposeFeeUpdate(e, u, slot).Ok?
    ensures var e' := ProposeFeeUpdate(e, u, slot).value;
            && (Stuck(e'.proposal) <==> !FillsAccount(u))
            && (ExecuteFeeUpdate(e', later, deleted).Ok? <==> FillsAccount(u) && later >= slot + TIMELOCK_DELAY)
  {
  }
}

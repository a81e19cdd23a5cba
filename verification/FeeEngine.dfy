/** The MYTH fee engine: fee splits, epoch pools, proportional distribution, claims and burns. */
module FeeEngine {
  import opened Numbers

  const TIMELOCK_DELAY := 216_000

  type Key = nat

  datatype FeeError =
    | Overflow | InvalidFeeSplit | ProgramPaused | FeePoolAlreadyFinalized | AccountMissing | NoValidators
    | NoRewardsToClaim | ValidatorNotRegistered | ValidatorAlreadyRegistered | InvalidBurnPercentage
    | InsufficientFoundationBalance | ZeroAmount | PendingUpdateExists | TimelockNotExpired | NoPendingUpdate
    | AccountUnreadable | TransferFailed

  // ---------- Splits ----------

  datatype FeeSplit = FeeSplit(validatorBps: u16, foundationBps: u16, burnBps: u16)

  datatype Parts = Parts(validator: u64, foundation: u64, burn: u64)

  function Validate(s: FeeSplit): Outcome<FeeError> {
    if s.validatorBps + s.foundationBps > U16_MAX || s.validatorBps + s.foundationBps + s.burnBps > U16_MAX
    then Fail(Overflow)
    else if s.validatorBps + s.foundationBps + s.burnBps != 10_000 then Fail(InvalidFeeSplit)
    else Pass
  }

  function Split(s: FeeSplit, amount: u64): Result<Parts, FeeError> {
    if amount * s.validatorBps > U64_MAX then Err(Overflow) else
    var validator := amount * s.validatorBps / 10_000;
    :- Need(amount * s.foundationBps <= U64_MAX, Overflow);
    var foundation := amount * s.foundationBps / 10_000;
    :- Need(validator + foundation <= amount, Overflow);
    Ok(Parts(validator, foundation, amount - validator - foundation))
  }

  /** A validated split succeeds unless a 64-bit product overflows, loses nothing, and gives each side its
      basis points rounded down, the burn taking both remainders. */
  lemma SplitIsExact(s: FeeSplit, amount: u64)
    requires Validate(s).Pass?
    ensures Split(s, amount).Ok? <==> amount * s.validatorBps <= U64_MAX && amount * s.foundationBps <= U64_MAX
    ensures Split(s, amount).Ok? ==>
              var p := Split(s, amount).value;
              && p.validator + p.foundation + p.burn == amount
              && 10_000 * p.validator <= amount * s.validatorBps < 10_000 * p.validator + 10_000
              && 10_000 * p.foundation <= amount * s.foundationBps < 10_000 * p.foundation + 10_000
              && amount * s.burnBps <= 10_000 * p.burn < amount * s.burnBps + 20_000
  {
    ShareBounds(amount, s.validatorBps);
    ShareBounds(amount, s.foundationBps);
    SplitProducts(amount, s.validatorBps, s.foundationBps, s.burnBps);
  }

  lemma ShareBounds(amount: nat, bps: nat)
    ensures 0 <= 10_000 * (amount * bps / 10_000) <= amount * bps < 10_000 * (amount * bps / 10_000) + 10_000
  {
  }

  lemma SplitProducts(amount: nat, a: nat, b: nat, c: nat)
    ensures amount * a + amount * b + amount * c == amount * (a + b + c) && amount * c >= 0
  {
  }

  // ---------- State ----------

  datatype FeeType = Gas | Compute | Inference | Bridge | SubnetRegistration

  datatype Splits = Splits(gas: FeeSplit, compute: FeeSplit, inference: FeeSplit, bridge: FeeSplit)

  datatype Burned = Burned(gas: u64, compute: u64, inference: u64, bridge: u64, subnet: u64)

  datatype Config = Config(
    splits: Splits,
    currentEpoch: u64,
    totalBurned: u64,
    totalDistributed: u64,
    foundationCollected: u64,
    paused: bool,
    burned: Burned,
    foundationBurned: u64)

  datatype Pool = Pool(collected: u64, distributed: u64, finalized: bool)

  datatype Validator = Validator(stake: u64, multiplier: u16, pending: u64, claimed: u64, active: bool)

  /** The foundation's wallet is no part of the model but for being named. */
  datatype SplitUpdate = SplitUpdate(
    gas: Option<FeeSplit>, compute: Option<FeeSplit>, inference: Option<FeeSplit>, bridge: Option<FeeSplit>,
    wallet: Option<Key>)

  /** The account of a proposed update: not there, written, or emptied and left behind. */
  datatype Proposal = Absent | Stored(update: SplitUpdate, executionSlot: u64) | Zeroed

  /** All accounts of the program; pools are keyed by epoch, so each epoch has at most one. */
  datatype Engine = Engine(
    cfg: Config, pools: map<nat, Pool>, validators: map<Key, Validator>, proposal: Proposal)

  type Step = Result<Engine, FeeError>

  function GetSplit(c: Config, t: FeeType): FeeSplit {
    match t
    case Gas => c.splits.gas
    case Compute => c.splits.compute
    case Inference => c.splits.inference
    case Bridge => c.splits.bridge
    case SubnetRegistration => FeeSplit(0, 0, 10_000)
  }

  function BurnedFor(b: Burned, t: FeeType): u64 {
    match t
    case Gas => b.gas
    case Compute => b.compute
    case Inference => b.inference
    case Bridge => b.bridge
    case SubnetRegistration => b.subnet
  }

  function AddBurned(b: Burned, t: FeeType, amount: u64): Burned
    requires BurnedFor(b, t) + amount <= U64_MAX
  {
    match t
    case Gas => b.(gas := b.gas + amount)
    case Compute => b.(compute := b.compute + amount)
    case Inference => b.(inference := b.inference + amount)
    case Bridge => b.(bridge := b.bridge + amount)
    case SubnetRegistration => b.(subnet := b.subnet + amount)
  }

  // ---------- Fees in ----------

  function PoolOf(e: Engine): Pool {
    if e.cfg.currentEpoch in e.pools then e.pools[e.cfg.currentEpoch] else Pool(0, 0, false)
  }

  function CollectFee(e: Engine, t: FeeType, amount: u64, funds: nat): Step {
    if e.cfg.paused then Err(ProgramPaused) else
    var p :- Split(GetSplit(e.cfg, t), amount);
    :- Need(!PoolOf(e).finalized, FeePoolAlreadyFinalized);
    :- Need(amount <= funds, TransferFailed);
    Credit(e, t, p)
  }

  /** Enter the parts of a fee in the pool and the statistics. */
  function Credit(e: Engine, t: FeeType, p: Parts): Step {
    var pool := PoolOf(e);
    :- Need(pool.collected + p.validator <= U64_MAX && e.cfg.totalBurned + p.burn <= U64_MAX
            && e.cfg.foundationCollected + p.foundation <= U64_MAX
            && BurnedFor(e.cfg.burned, t) + p.burn <= U64_MAX, Overflow);
    Ok(e.(pools := e.pools[e.cfg.currentEpoch := pool.(collected := pool.collected + p.validator)],
          cfg := e.cfg.(totalBurned := e.cfg.totalBurned + p.burn,
                        foundationCollected := e.cfg.foundationCollected + p.foundation,
                        burned := AddBurned(e.cfg.burned, t, p.burn))))
  }

  // ---------- Distribution ----------

  datatype Weighed = Weighed(weights: seq<u64>, total: u64)

  /** The weight of an account in the distribution: its stake times its multiplier while it is active. */
  function Weight(v: Validator): nat {
    if v.active then v.stake * v.multiplier else 0
  }

  /** First pass over the accounts handed in, which may repeat a validator. */
  function WeighAll(vs: map<Key, Validator>, keys: seq<Key>): (r: Result<Weighed, FeeError>)
    ensures r.Ok? ==> |r.value.weights| == |keys| && forall k | k in keys :: k in vs
  {
    if keys == [] then Ok(Weighed([], 0)) else
      var n := |keys| - 1;
      var w :- WeighAll(vs, keys[..n]);
      :- Need(keys[n] in vs, AccountMissing);
      var weight := Weight(vs[keys[n]]);
      :- Need(weight <= U64_MAX && w.total + weight <= U64_MAX, Overflow);
      Ok(Weighed(w.weights + [weight], w.total + weight))
  }

  function Reward(pot: u64, weight: u64, total: u64): nat
    requires total > 0
  {
    var scaled: nat := pot * weight;
    scaled / total
  }

  datatype Payout = Payout(validators: map<Key, Validator>, distributed: u64)

  /** One account of the second pass. */
  function PayOne(p: Payout, k: Key, weight: u64, pot: u64, total: u64): (r: Result<Payout, FeeError>)
    requires total > 0 && k in p.validators
    ensures r.Ok? ==> r.value.validators.Keys == p.validators.Keys
  {
    if weight == 0 then Ok(p) else
      var reward := Reward(pot, weight, total);
      var v := p.validators[k];
      :- Need(v.pending + reward <= U64_MAX, Overflow);
      :- Need(p.distributed + reward <= U64_MAX, Overflow);
      Ok(Payout(p.validators[k := v.(pending := v.pending + reward)], p.distributed + reward))
  }

  /** Second pass: pay each account its share of the pot, rounded down. */
  function PayAll(vs: map<Key, Validator>, keys: seq<Key>, weights: seq<u64>, pot: u64, total: u64):
    (r: Result<Payout, FeeError>)
    requires |keys| == |weights| && total > 0 && forall k | k in keys :: k in vs
    ensures r.Ok? ==> r.value.validators.Keys == vs.Keys
    decreases |keys|
  {
    if keys == [] then Ok(Payout(vs, 0)) else
      var n := |keys| - 1;
      var p :- PayAll(vs, keys[..n], weights[..n], pot, total);
      PayOne(p, keys[n], weights[n], pot, total)
  }

  lemma PayNext(vs: map<Key, Validator>, keys: seq<Key>, weights: seq<u64>, pot: u64, total: u64, i: nat, p: Payout)
    requires |keys| == |weights| && total > 0 && (forall k | k in keys :: k in vs) && i < |keys|
    requires PayAll(vs, keys[..i], weights[..i], pot, total) == Ok(p)
    ensures p.validators.Keys == vs.Keys && keys[i] in vs
    ensures PayAll(vs, keys[..i + 1], weights[..i + 1], pot, total) == PayOne(p, keys[i], weights[i], pot, total)
  {
    assert keys[..i + 1][..i] == keys[..i] && weights[..i + 1][..i] == weights[..i];
  }

  /** The crank names any pool; nothing here checks that it is the current epoch's. */
  function Distribute(e: Engine, epoch: nat, keys: seq<Key>): Step {
    if epoch !in e.pools then Err(AccountMissing) else
    var pool := e.pools[epoch];
    :- Need(!pool.finalized, FeePoolAlreadyFinalized);
    if pool.collected == 0 then
      :- Need(e.cfg.currentEpoch < U64_MAX, Overflow);
      Ok(e.(pools := e.pools[epoch := pool.(finalized := true)],
            cfg := e.cfg.(currentEpoch := e.cfg.currentEpoch + 1)))
    else
      :- Need(keys != [], NoValidators);
      var w :- WeighAll(e.validators, keys);
      :- Need(w.total > 0, NoValidators);
      var p :- PayAll(e.validators, keys, w.weights, pool.collected, w.total);
      :- Need(e.cfg.totalDistributed + p.distributed <= U64_MAX && e.cfg.currentEpoch < U64_MAX, Overflow);
      Ok(e.(pools := e.pools[epoch := pool.(distributed := p.distributed, finalized := true)],
            validators := p.validators,
            cfg := e.cfg.(totalDistributed := e.cfg.totalDistributed + p.distributed,
                          currentEpoch := e.cfg.currentEpoch + 1)))
  }

  // ---------- Validators ----------

  function MultiplierFor(aiCapable: bool): u16 {
    if aiCapable then 200 else 100
  }

  function RegisterValidator(e: Engine, who: Key, stake: u64, aiCapable: bool): Step {
    if who in e.validators then Err(ValidatorAlreadyRegistered) else
    Ok(e.(validators := e.validators[who := Validator(stake, MultiplierFor(aiCapable), 0, 0, true)]))
  }

  function UpdateValidator(e: Engine, who: Key, aiCapable: Option<bool>, stake: Option<u64>): Step {
    if who !in e.validators || !e.validators[who].active then Err(ValidatorNotRegistered) else
    var v := e.validators[who];
    Ok(e.(validators := e.validators[who :=
      v.(multiplier := if aiCapable.Some? then MultiplierFor(aiCapable.value) else v.multiplier,
         stake := if stake.Some? then stake.value else v.stake)]))
  }

  function Claimed(v: Validator): Result<Validator, FeeError> {
    if v.claimed + v.pending > U64_MAX then Err(Overflow) else
    Ok(v.(claimed := v.claimed + v.pending, pending := 0))
  }

  function ClaimRewards(e: Engine, who: Key, vaultBalance: nat): Step {
    if who !in e.validators then Err(AccountMissing) else
    var v := e.validators[who];
    :- Need(v.pending > 0, NoRewardsToClaim);
    :- Need(v.pending <= vaultBalance, TransferFailed);
    var v' :- Claimed(v);
    Ok(e.(validators := e.validators[who := v']))
  }

  /** Pays what is pending and empties the account; the runtime then deletes it (`purged`) unless the
      same transaction funds it again, which leaves it behind inactive. */
  function DeregisterValidator(e: Engine, who: Key, vaultBalance: nat, purged: bool): Step {
    if who !in e.validators || !e.validators[who].active then Err(ValidatorNotRegistered) else
    var v := e.validators[who];
    :- Need(v.pending <= vaultBalance, TransferFailed);
    var v' :- Claimed(v);
    Ok(e.(validators := if purged then e.validators - {who} else e.validators[who := v'.(active := false)]))
  }

  // ---------- Burns ----------

  function BpsOf(amount: u64, bps: u16): (part: u64)
    requires bps <= 10_000
    ensures part <= amount
  {
    MulMono(amount, bps, 10_000);
    DivMono(amount * bps, amount * 10_000, 10_000, 10_000);
    amount * bps / 10_000
  }

  lemma BurnRoundsDown(amount: u64, bps: u16)
    requires bps <= 10_000
    ensures 10_000 * BpsOf(amount, bps) <= amount * bps < 10_000 * BpsOf(amount, bps) + 10_000
  {
    DivBounds(amount * bps, 10_000);
  }

  function BurnFoundationFees(e: Engine, bps: u16, balance: nat): Step {
    if bps == 0 || bps > 10_000 then Err(InvalidBurnPercentage) else
    var amount := BpsOf(e.cfg.foundationCollected, bps);
    :- Need(amount > 0, InsufficientFoundationBalance);
    :- Need(amount <= balance, TransferFailed);
    :- Need(e.cfg.totalBurned + amount <= U64_MAX && e.cfg.foundationBurned + amount <= U64_MAX, Overflow);
    Ok(e.(cfg := e.cfg.(totalBurned := e.cfg.totalBurned + amount,
                        foundationBurned := e.cfg.foundationBurned + amount,
                        foundationCollected := e.cfg.foundationCollected - amount)))
  }

  function BurnTokens(e: Engine, amount: u64, balance: nat): Step {
    if amount == 0 then Err(ZeroAmount) else
    :- Need(amount <= balance, TransferFailed);
    :- Need(e.cfg.totalBurned + amount <= U64_MAX, Overflow);
    Ok(e.(cfg := e.cfg.(totalBurned := e.cfg.totalBurned + amount)))
  }

  // ---------- Split updates ----------

  function ValidateAll(u: SplitUpdate): Outcome<FeeError> {
    if u.gas.Some? && Validate(u.gas.value).Fail? then Validate(u.gas.value)
    else if u.compute.Some? && Validate(u.compute.value).Fail? then Validate(u.compute.value)
    else if u.inference.Some? && Validate(u.inference.value).Fail? then Validate(u.inference.value)
    else if u.bridge.Some? && Validate(u.bridge.value).Fail? then Validate(u.bridge.value)
    else Pass
  }

  function Apply(s: Splits, u: SplitUpdate): Splits {
    Splits(if u.gas.Some? then u.gas.value else s.gas,
           if u.compute.Some? then u.compute.value else s.compute,
           if u.inference.Some? then u.inference.value else s.inference,
           if u.bridge.Some? then u.bridge.value else s.bridge)
  }

  /** The entry of an update that concerns a type of fee; registrations are always burned whole. */
  function Named(u: SplitUpdate, t: FeeType): Option<FeeSplit> {
    match t
    case Gas => u.gas
    case Compute => u.compute
    case Inference => u.inference
    case Bridge => u.bridge
    case SubnetRegistration => None
  }

  /** An update decides the split of every type it names and of no other. */
  lemma UpdateDecidesNamedTypes(c: Config, u: SplitUpdate, t: FeeType)
    ensures var after := GetSplit(c.(splits := Apply(c.splits, u)), t);
            after == if Named(u, t).Some? then Named(u, t).value else GetSplit(c, t)
    ensures ValidateAll(u).Pass? && Named(u, t).Some? ==> Validate(Named(u, t).value).Pass?
    ensures Validate(GetSplit(c, SubnetRegistration)).Pass?
  {
  }

  function UpdateFeeConfig(e: Engine, u: SplitUpdate): Step {
    if ValidateAll(u).Fail? then Err(ValidateAll(u).reason) else
    Ok(e.(cfg := e.cfg.(splits := Apply(e.cfg.splits, u))))
  }

  function ProposeFeeUpdate(e: Engine, u: SplitUpdate, slot: u64): Step {
    if ValidateAll(u).Fail? then Err(ValidateAll(u).reason) else
    :- Need(e.proposal.Absent?, PendingUpdateExists);
    :- Need(slot + TIMELOCK_DELAY <= U64_MAX, Overflow);
    Ok(e.(proposal := Stored(u, slot + TIMELOCK_DELAY)))
  }

  /** An entry left out takes one byte instead of all of its own, and an account is read back only if its value fills
      it. */
  predicate FillsAccount(u: SplitUpdate) {
    u.gas.Some? && u.compute.Some? && u.inference.Some? && u.bridge.Some? && u.wallet.Some?
  }

  /** Applies the update and empties its account; the runtime then deletes it (`purged`) unless the same transaction
      funds it again. */
  function ExecuteFeeUpdate(e: Engine, slot: u64, purged: bool): Step {
    if e.proposal.Absent? then Err(NoPendingUpdate) else
    :- Need(e.proposal.Stored? && FillsAccount(e.proposal.update), AccountUnreadable);
    :- Need(slot >= e.proposal.executionSlot, TimelockNotExpired);
    Ok(e.(proposal := if purged then Absent else Zeroed,
          cfg := e.cfg.(splits := Apply(e.cfg.splits, e.proposal.update))))
  }

  function Initialize(s: Splits): Step {
    var all := SplitUpdate(Some(s.gas), Some(s.compute), Some(s.inference), Some(s.bridge), None);
    :- ValidateAll(all);
    Ok(Engine(Config(s, 0, 0, 0, 0, false, Burned(0, 0, 0, 0, 0), 0), map[], map[], Absent))
  }
}

/** What each instruction of the vault program asks for and what it does to the accounts, and the time a withdrawal
    stays open to challenge. */
module BridgeL1Effects {
  import opened Numbers
  import opened HexCodec
  import opened RateLimiter
  import opened BridgeL1

  // ---------- Deposits ----------

  /** What both kinds of deposit must meet before anything moves. */
  predicate WithinLimits(s: State, slot: u64, amount: u64) {
    && 0 < amount && !s.paused && s.limits.min <= amount <= s.limits.max
    && Carried(s.limiter, slot) + amount <= s.limits.daily
  }

  /** The transfer is counted, and the next nonce logs the deposit. */
  predicate Logged(s: State, s': State, slot: u64, d: Deposit) {
    && s'.depositNonce == s.depositNonce + 1 && s'.deposits == s.deposits[s.depositNonce as nat := d]
    && s'.limiter.used == Carried(s.limiter, slot) + d.amount
    && s'.limiter.lastReset == if slot > s.limiter.lastReset + 216_000 then slot else s.limiter.lastReset
  }

  /** A token deposit fills the vault of its own mint by its amount and is logged as it was made. */
  lemma DepositEffect(s: State, slot: u64, d: Deposit, funds: nat)
    ensures var r := DepositToken(s, slot, d, funds);
            && (r.Ok? <==> && WithinLimits(s, slot, d.amount) && d.amount <= funds
                           && d.mint in s.vaults && s.vaults[d.mint] + d.amount <= U64_MAX
                           && s.depositNonce < 0xFFFF_FFFF_FFFF_FFFF)
            && (r.Ok? ==>
                  && Logged(s, r.value, slot, d)
                  && r.value.vaults.Keys == s.vaults.Keys
                  && (forall m | m in s.vaults ::
                        r.value.vaults[m] == s.vaults[m] + if m == d.mint then d.amount else 0)
                  && r.value == s.(limiter := r.value.limiter, depositNonce := r.value.depositNonce,
                                   deposits := r.value.deposits, vaults := r.value.vaults))
  {
    AdmitsExactlyWhen(s.limiter, slot, d.amount, s.limits.daily);
  }

  lemma DepositSolEffect(s: State, slot: u64, amount: u64, recipient: Key, funds: nat)
    ensures var r := DepositSol(s, slot, amount, recipient, funds);
            && (r.Ok? <==> && WithinLimits(s, slot, amount) && amount <= funds
                           && s.solVault + amount <= U64_MAX && s.depositNonce < 0xFFFF_FFFF_FFFF_FFFF)
            && (r.Ok? ==>
                  && Logged(s, r.value, slot, Deposit(NativeSol, amount, recipient))
                  && r.value.solVault - s.solVault == amount
                  && r.value == s.(limiter := r.value.limiter, depositNonce := r.value.depositNonce,
                                   deposits := r.value.deposits, solVault := r.value.solVault))
  {
    AdmitsExactlyWhen(s.limiter, slot, amount, s.limits.daily);
  }

  // ---------- Withdrawals ----------

  /** One withdrawal is what is said of it, the others are as they were. */
  ghost predicate OnlyWithdrawal(s: State, s': State, nonce: nat) {
    && nonce in s'.withdrawals && s'.withdrawals - {nonce} == s.withdrawals - {nonce}
  }

  /** The sequencer alone opens a withdrawal, once for each nonce, and its deadline is one challenge period from now. */
  lemma InitiationEffect(s: State, caller: Key, nonce: u64, recipient: Key, amount: u64, mint: Mint, now: i64)
    ensures var r := InitiateWithdrawal(s, caller, nonce, recipient, amount, mint, now);
            && (r.Ok? <==> && caller == s.sequencer && nonce !in s.withdrawals
                           && -0x8000_0000_0000_0000 <= now + s.challengePeriod <= 0x7FFF_FFFF_FFFF_FFFF)
            && (r.Ok? ==>
                  && OnlyWithdrawal(s, r.value, nonce)
                  && r.value == s.(withdrawals := r.value.withdrawals)
                  && var w := r.value.withdrawals[nonce];
                     && w.recipient == recipient && w.amount == amount && w.mint == mint && w.status.Pending?
                     && w.deadline - now == s.challengePeriod)
  {
  }

  /** The bond on an amount: a tenth of it rounded down, but never less than 100,000,000. */
  predicate IsBond(amount: nat, bond: nat) {
    && bond >= 100_000_000 && 10 * bond + 10 > amount
    && (bond == 100_000_000 || 10 * bond <= amount)
  }

  lemma BondIsUnique(amount: u64, bond: nat)
    requires IsBond(amount, bond) && 1_000 * amount <= U64_MAX
    ensures Bond(amount) == Ok(bond)
  {
    BondCoversTheClaim(amount);
  }

  /** A challenge is admitted for these reasons and no other; it takes the bond and stops the withdrawal. */
  lemma ChallengeEffect(s: State, nonce: u64, proofEmpty: bool, now: i64, funds: nat, bond: nat)
    requires nonce in s.withdrawals ==> IsBond(s.withdrawals[nonce].amount, bond)
    ensures var r := ChallengeWithdrawal(s, nonce, proofEmpty, now, funds);
            && (r.Ok? <==> && nonce in s.withdrawals && s.withdrawals[nonce].status.Pending?
                           && now < s.withdrawals[nonce].deadline && !proofEmpty
                           && 1_000 * s.withdrawals[nonce].amount <= U64_MAX
                           && nonce !in s.bonds && bond <= funds)
            && (r.Ok? ==>
                  && OnlyWithdrawal(s, r.value, nonce)
                  && r.value.withdrawals[nonce] == s.withdrawals[nonce].(status := Challenged)
                  && nonce in r.value.bonds && r.value.bonds[nonce] == bond && r.value.bonds - {nonce} == s.bonds
                  && r.value == s.(withdrawals := r.value.withdrawals, bonds := r.value.bonds))
  {
    if nonce in s.withdrawals {
      BondCoversTheClaim(s.withdrawals[nonce].amount);
      if Bond(s.withdrawals[nonce].amount).Ok? {
        BondIsUnique(s.withdrawals[nonce].amount, bond);
      }
    }
  }

  /** What any payout of a withdrawal must meet. */
  predicate Payable(s: State, nonce: u64, owner: Key, now: i64) {
    && !s.paused && nonce in s.withdrawals
    && var w := s.withdrawals[nonce];
       w.status.Pending? && w.amount > 0 && owner == w.recipient && now >= w.deadline
  }

  /** A payout takes the amount out of the vault of the withdrawal's mint, unless it goes back in there. */
  lemma FinalizationEffect(s: State, nonce: u64, mint: Mint, owner: Key, intoVault: bool, now: i64)
    ensures var r := FinalizeWithdrawal(s, nonce, mint, owner, intoVault, now);
            && (r.Ok? <==> && Payable(s, nonce, owner, now) && mint == s.withdrawals[nonce].mint
                           && mint in s.vaults && s.vaults[mint] >= s.withdrawals[nonce].amount)
            && (r.Ok? ==>
                  && OnlyWithdrawal(s, r.value, nonce)
                  && r.value.withdrawals[nonce] == s.withdrawals[nonce].(status := Finalized)
                  && r.value.vaults.Keys == s.vaults.Keys
                  && (forall m | m in s.vaults ::
                        s.vaults[m] - r.value.vaults[m]
                        == if m == mint && !intoVault then s.withdrawals[nonce].amount else 0)
                  && r.value == s.(withdrawals := r.value.withdrawals, vaults := r.value.vaults))
  {
  }

  /** The SOL payout takes it out of the SOL vault, whatever the mint. */
  lemma FinalizationSolEffect(s: State, nonce: u64, owner: Key, intoVault: bool, now: i64)
    ensures var r := FinalizeSolWithdrawal(s, nonce, owner, intoVault, now);
            && (r.Ok? <==> Payable(s, nonce, owner, now) && s.solVault >= s.withdrawals[nonce].amount)
            && (r.Ok? ==>
                  && OnlyWithdrawal(s, r.value, nonce)
                  && r.value.withdrawals[nonce] == s.withdrawals[nonce].(status := Finalized)
                  && s.solVault - r.value.solVault == (if intoVault then 0 else s.withdrawals[nonce].amount)
                  && r.value == s.(withdrawals := r.value.withdrawals, solVault := r.value.solVault))
  {
  }

  /** For one challenge period from its request a withdrawal cannot be paid by either instruction, and can be
      challenged; after that it is the other way round. */
  lemma PeriodIsKept(s: State, caller: Key, nonce: u64, recipient: Key, amount: u64, mint: Mint, now: i64, later: i64,
                     payee: Mint, owner: Key, intoVault: bool, proofEmpty: bool, funds: nat, bond: nat)
    requires InitiateWithdrawal(s, caller, nonce, recipient, amount, mint, now).Ok? && IsBond(amount, bond)
    ensures var s' := InitiateWithdrawal(s, caller, nonce, recipient, amount, mint, now).value;
            && (later < now + s.challengePeriod ==>
                  && FinalizeWithdrawal(s', nonce, payee, owner, intoVault, later).Err?
                  && FinalizeSolWithdrawal(s', nonce, owner, intoVault, later).Err?)
            && (!proofEmpty && 1_000 * amount <= U64_MAX && bond <= funds && nonce !in s.bonds ==>
                  (ChallengeWithdrawal(s', nonce, proofEmpty, later, funds).Ok? <==> later < now + s.challengePeriod))
  {
    var s' := InitiateWithdrawal(s, caller, nonce, recipient, amount, mint, now).value;
    InitiationEffect(s, caller, nonce, recipient, amount, mint, now);
    ChallengeEffect(s', nonce, proofEmpty, later, funds, bond);
  }

  // ---------- The rest ----------

  lemma SequencerWithdrawalEffect(s: State, caller: Key, amount: u64)
    ensures var r := SequencerWithdrawSol(s, caller, amount);
            && (r.Ok? <==> caller == s.sequencer && 0 < amount <= s.solVault)
            && (r.Ok? ==> s.solVault - r.value.solVault == amount && r.value == s.(solVault := r.value.solVault))
  {
  }

  lemma VaultEffect(s: State, mint: Mint)
    ensures var r := CreateVault(s, mint);
            && (r.Ok? <==> mint !in s.vaults)
            && (r.Ok? ==>
                  && mint in r.value.vaults && r.value.vaults[mint] == 0 && r.value.vaults - {mint} == s.vaults
                  && r.value == s.(vaults := r.value.vaults))
  {
  }

  /** A challenge period is seven days unless a positive one is given. */
  lemma InitialEffect(sequencer: Key, period: i64)
    ensures var s := Initialize(sequencer, period);
            && s.sequencer == sequencer && s.challengePeriod == (if period <= 0 then 7 * 24 * 60 * 60 else period)
            && !s.paused && s.limits == Limits(10_000_000, 1_000_000_000_000, 10_000_000_000_000)
            && s.limiter.used == s.limiter.lastReset == s.depositNonce == s.solVault == 0
            && |s.deposits| == |s.vaults| == |s.withdrawals| == |s.bonds| == 0
  {
  }

  // ---------- Refusals ----------

  /** No refusal names a cause that is not there. */
  lemma DepositRefusalsAreTrue(s: State, slot: u64, d: Deposit, funds: nat)
    ensures var r := DepositToken(s, slot, d, funds);
            && (r == Err(InsufficientFunds) ==> d.amount == 0)
            && (r == Err(BridgePaused) ==> s.paused)
            && (r == Err(AmountTooLow) ==> d.amount < s.limits.min)
            && (r == Err(AmountTooHigh) ==> d.amount > s.limits.max)
            && (r == Err(LimiterRefused(LimitExceeded)) ==>
                  Carried(s.limiter, slot) + d.amount > s.limits.daily)
            && (r == Err(TransferFailed) ==>
                  d.amount > funds || d.mint !in s.vaults || s.vaults[d.mint] + d.amount > U64_MAX)
            && (r == Err(ArithmeticOverflow) ==> s.depositNonce == U64_MAX)
  {
  }

  lemma WithdrawalRefusalsAreTrue(s: State, caller: Key, nonce: u64, recipient: Key, amount: u64, mint: Mint,
                                  now: i64, proofEmpty: bool, funds: nat, intoVault: bool)
    ensures var r := InitiateWithdrawal(s, caller, nonce, recipient, amount, mint, now);
            && (r == Err(InvalidSequencer) <==> caller != s.sequencer)
            && (r == Err(InvalidNonce) <==> caller == s.sequencer && nonce in s.withdrawals)
    ensures var r := ChallengeWithdrawal(s, nonce, proofEmpty, now, funds);
            && (r == Err(IllegalOwner) <==> nonce !in s.withdrawals)
            && (r == Err(WithdrawalAlreadyFinalized) <==>
                  nonce in s.withdrawals && !s.withdrawals[nonce].status.Pending?)
            && (r == Err(ChallengePeriodExpired) ==> now >= s.withdrawals[nonce].deadline)
            && (r == Err(InvalidMerkleProof) ==> proofEmpty)
            && (r == Err(AlreadyInitialized) ==> nonce in s.bonds)
    ensures var r := FinalizeWithdrawal(s, nonce, mint, recipient, intoVault, now);
            && (r == Err(BridgePaused) <==> s.paused)
            && (r == Err(ChallengePeriodActive) ==> now < s.withdrawals[nonce].deadline)
            && (r == Err(InvalidAccountData) ==>
                  mint != s.withdrawals[nonce].mint || recipient != s.withdrawals[nonce].recipient)
            && (r == Err(InsufficientFunds) ==> s.withdrawals[nonce].amount == 0)
            && (r == Err(TransferFailed) ==> mint in s.vaults ==> s.vaults[mint] < s.withdrawals[nonce].amount)
    ensures var r := FinalizeSolWithdrawal(s, nonce, recipient, intoVault, now);
            && (r == Err(ChallengePeriodActive) ==> now < s.withdrawals[nonce].deadline)
            && (r == Err(InsufficientFunds) ==>
                  s.withdrawals[nonce].amount == 0 || s.solVault < s.withdrawals[nonce].amount)
  {
  }
}

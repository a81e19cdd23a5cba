/** The vault side of the bridge: deposits in, challengeable withdrawals out. */
module BridgeL1 {
  import opened Numbers
  import opened HexCodec
  import opened RateLimiter
  import opened Totals

  const CHALLENGE_BOND_BPS: nat := 1_000
  const MIN_CHALLENGE_BOND: u64 := 100_000_000

  datatype Mint = Myth | NativeSol | Other(id: nat)

  datatype BridgeError =
    | InsufficientFunds | BridgePaused | AmountTooLow | AmountTooHigh | LimiterRefused(cause: LimitError)
    | TransferFailed | ArithmeticOverflow | InvalidSequencer | InvalidAuthority | InvalidNonce | IllegalOwner
    | WithdrawalAlreadyFinalized | ChallengePeriodExpired | ChallengePeriodActive | InvalidMerkleProof
    | AlreadyInitialized | InvalidAccountData

  datatype Limits = Limits(min: u64, max: u64, daily: u64)

  /** A deposit as its event reports it. */
  datatype Deposit = Deposit(mint: Mint, amount: u64, recipient: Key)

  /** No handler ever cancels a withdrawal or releases a challenged one. */
  datatype Status = Pending | Challenged | Finalized | Cancelled

  datatype Withdrawal = Withdrawal(recipient: Key, amount: u64, mint: Mint, deadline: i64, status: Status)

  /** The program's accounts, and its event log: deposits by the nonce they carry. Withdrawals and bonds live
      at addresses derived from their nonce, so there is at most one of each per nonce. */
  datatype State = State(
    sequencer: Key,
    challengePeriod: i64,
    paused: bool,
    limits: Limits,
    limiter: Limiter,
    depositNonce: u64,
    deposits: map<nat, Deposit>,
    vaults: map<Mint, u64>,
    solVault: u64,
    withdrawals: map<nat, Withdrawal>,
    bonds: map<nat, u64>)

  type Step = Result<State, BridgeError>

  function Initialize(sequencer: Key, period: i64): State {
    State(sequencer, if period > 0 then period else 604_800, false,
          Limits(10_000_000, 1_000_000_000_000, 10_000_000_000_000), Limiter(0, 0), 0, map[], map[], 0, map[], map[])
  }

  /** The checks both kinds of deposit make before moving anything. */
  function CheckDeposit(s: State, slot: u64, amount: u64): Result<Limiter, BridgeError> {
    if amount == 0 then Err(InsufficientFunds) else
    :- Need(!s.paused, BridgePaused);
    :- Need(amount >= s.limits.min, AmountTooLow);
    :- Need(amount <= s.limits.max, AmountTooHigh);
    var r := Admit(s.limiter, slot, amount, s.limits.daily);
    if r.Ok? then Ok(r.value) else Err(LimiterRefused(r.error))
  }

  function DepositToken(s: State, slot: u64, d: Deposit, funds: nat): Step {
    var limiter :- CheckDeposit(s, slot, d.amount);
    :- Need(d.amount <= funds && d.mint in s.vaults && s.vaults[d.mint] + d.amount <= U64_MAX, TransferFailed);
    :- Need(s.depositNonce < U64_MAX, ArithmeticOverflow);
    Ok(s.(limiter := limiter,
          depositNonce := s.depositNonce + 1,
          deposits := s.deposits[s.depositNonce := d],
          vaults := s.vaults[d.mint := s.vaults[d.mint] + d.amount]))
  }

  function DepositSol(s: State, slot: u64, amount: u64, recipient: Key, funds: nat): Step {
    var limiter :- CheckDeposit(s, slot, amount);
    :- Need(amount <= funds && s.solVault + amount <= U64_MAX, TransferFailed);
    :- Need(s.depositNonce < U64_MAX, ArithmeticOverflow);
    Ok(s.(limiter := limiter,
          depositNonce := s.depositNonce + 1,
          deposits := s.deposits[s.depositNonce := Deposit(NativeSol, amount, recipient)],
          solVault := s.solVault + amount))
  }

  /** Neither the pause flag nor any balance is consulted here. */
  function InitiateWithdrawal(s: State, caller: Key, nonce: u64, recipient: Key, amount: u64,
                              mint: Mint, now: i64): Step {
    if caller != s.sequencer then Err(InvalidSequencer) else
    :- Need(nonce !in s.withdrawals, InvalidNonce);
    :- Need(now + s.challengePeriod <= I64_MAX, ArithmeticOverflow);
    :- Need(-0x8000_0000_0000_0000 <= now + s.challengePeriod, ArithmeticOverflow);
    Ok(s.(withdrawals := s.withdrawals[nonce := Withdrawal(recipient, amount, mint, now + s.challengePeriod, Pending)]))
  }

  /** The larger of a tenth of the amount and the minimum. */
  function Bond(amount: u64): Result<u64, BridgeError> {
    if amount * CHALLENGE_BOND_BPS > U64_MAX then Err(ArithmeticOverflow) else
    var tenth := amount * CHALLENGE_BOND_BPS / 10_000;
    Ok(if tenth < MIN_CHALLENGE_BOND then MIN_CHALLENGE_BOND else tenth)
  }

  /** A bond is never below the minimum nor below a tenth of the amount, and is one of the two; it cannot be
      computed exactly when a thousand times the amount overflows. */
  lemma BondCoversTheClaim(amount: u64)
    ensures Bond(amount).Ok? <==> 1_000 * amount <= U64_MAX
    ensures Bond(amount).Ok? ==>
              var bond := Bond(amount).value;
              && 10 * bond + 10 > amount && bond >= 100_000_000
              && (bond == 100_000_000 || 10 * bond <= amount)
  {
    if amount * CHALLENGE_BOND_BPS <= U64_MAX {
      DivUnique(amount * 1_000, 10_000, amount / 10);
    }
  }

  function ChallengeWithdrawal(s: State, nonce: u64, proofEmpty: bool, now: i64, funds: nat): Step {
    if nonce !in s.withdrawals then Err(IllegalOwner) else
    var w := s.withdrawals[nonce];
    :- Need(w.status.Pending?, WithdrawalAlreadyFinalized);
    :- Need(now < w.deadline, ChallengePeriodExpired);
    :- Need(!proofEmpty, InvalidMerkleProof);
    var bond :- Bond(w.amount);
    :- Need(nonce !in s.bonds, AlreadyInitialized);
    :- Need(bond <= funds, TransferFailed);
    Ok(s.(bonds := s.bonds[nonce := bond],
          withdrawals := s.withdrawals[nonce := w.(status := Challenged)]))
  }

  /** Pay a withdrawal from the vault of its mint. `owner` owns the receiving token account, which may be
      the vault itself (`intoVault`): the transfer then moves nothing. */
  function FinalizeWithdrawal(s: State, nonce: u64, mint: Mint, owner: Key, intoVault: bool, now: i64): Step {
    if s.paused then Err(BridgePaused) else
    :- Need(nonce in s.withdrawals, IllegalOwner);
    var w := s.withdrawals[nonce];
    :- Need(w.status.Pending?, WithdrawalAlreadyFinalized);
    :- Need(w.amount != 0, InsufficientFunds);
    :- Need(mint == w.mint, InvalidAccountData);
    :- Need(owner == w.recipient, InvalidAccountData);
    :- Need(now >= w.deadline, ChallengePeriodActive);
    :- Need(mint in s.vaults && w.amount <= s.vaults[mint], TransferFailed);
    Ok(s.(vaults := if intoVault then s.vaults else s.vaults[mint := s.vaults[mint] - w.amount],
          withdrawals := s.withdrawals[nonce := w.(status := Finalized)]))
  }

  /** Pay a withdrawal from the SOL vault; the mint it was requested in is not looked at. */
  function FinalizeSolWithdrawal(s: State, nonce: u64, recipient: Key, intoVault: bool, now: i64): Step {
    if s.paused then Err(BridgePaused) else
    :- Need(nonce in s.withdrawals, IllegalOwner);
    var w := s.withdrawals[nonce];
    :- Need(w.status.Pending?, WithdrawalAlreadyFinalized);
    :- Need(w.amount != 0, InsufficientFunds);
    :- Need(recipient == w.recipient, InvalidAccountData);
    :- Need(now >= w.deadline, ChallengePeriodActive);
    :- Need(w.amount <= s.solVault, InsufficientFunds);
    Ok(s.(solVault := if intoVault then s.solVault else s.solVault - w.amount,
          withdrawals := s.withdrawals[nonce := w.(status := Finalized)]))
  }

  function SequencerWithdrawSol(s: State, caller: Key, amount: u64): Step {
    if caller != s.sequencer then Err(InvalidAuthority) else
    :- Need(amount != 0, InsufficientFunds);
    :- Need(amount <= s.solVault, InsufficientFunds);
    Ok(s.(solVault := s.solVault - amount))
  }

  function CreateVault(s: State, mint: Mint): Step {
    if mint in s.vaults then Err(AlreadyInitialized) else
    Ok(s.(vaults := s.vaults[mint := 0]))
  }

  /** What the caller is told, and the state it leaves: a failed instruction changes nothing. */
  function Verdict(step: Step): Outcome<BridgeError> {
    if step.Ok? then Pass else Fail(step.error)
  }

  function Settled(s: State, step: Step): State {
    if step.Ok? then step.value else s
  }

  // ---------- What every instruction keeps ----------

  /** Kept beside the accounts: withdrawals paid in MYTH, and the MYTH the vault holds beyond deposits less
      payouts (gifts, and payouts sent back into it). */
  datatype Books = Books(paid: map<nat, u64>, extra: nat)

  function MythOf(d: Deposit): int {
    if d.mint.Myth? then d.amount else 0
  }

  function PaidOf(amount: u64): int {
    amount
  }

  function MythIn(vaults: map<Mint, u64>): nat {
    if Myth in vaults then vaults[Myth] else 0
  }

  /** The nonce counts the deposits logged, a withdrawal paid in MYTH is final, and the MYTH vault holds what
      was deposited less what was paid. */
  ghost predicate Good(s: State, b: Books) {
    && (forall n: nat :: n in s.deposits <==> n < s.depositNonce)
    && (forall n | n in b.paid ::
          n in s.withdrawals && s.withdrawals[n].status.Finalized? && b.paid[n] == s.withdrawals[n].amount)
    && MythIn(s.vaults) == Total(s.deposits, MythOf) - Total(b.paid, PaidOf) + b.extra
  }

  /** A withdrawal finalized in MYTH enters the books. */
  function FinalizedBooks(s: State, b: Books, nonce: u64, mint: Mint, owner: Key, intoVault: bool, now: i64): Books {
    if FinalizeWithdrawal(s, nonce, mint, owner, intoVault, now).Err? || !mint.Myth? then b
    else
      var amount := s.withdrawals[nonce].amount;
      Books(b.paid[nonce := amount], b.extra + if intoVault then amount else 0)
  }

  /** One more deposit in the log, with the vaults after it. */
  lemma LoggingKeepsGood(s: State, b: Books, d: Deposit, limiter: Limiter, vaults: map<Mint, u64>, sol: u64)
    requires Good(s, b) && s.depositNonce < U64_MAX && MythIn(vaults) == MythIn(s.vaults) + MythOf(d)
    ensures Good(s.(limiter := limiter, depositNonce := s.depositNonce + 1, deposits := s.deposits[s.depositNonce := d],
                    vaults := vaults, solVault := sol), b)
  {
    TotalPut<nat, Deposit>(s.deposits, s.depositNonce, d, MythOf);
  }

  lemma DepositKeepsGood(s: State, b: Books, slot: u64, d: Deposit, funds: nat)
    requires Good(s, b)
    ensures Good(Settled(s, DepositToken(s, slot, d, funds)), b)
  {
    var step := DepositToken(s, slot, d, funds);
    if step.Ok? {
      LoggingKeepsGood(s, b, d, step.value.limiter, step.value.vaults, s.solVault);
    }
  }

  lemma DepositSolKeepsGood(s: State, b: Books, slot: u64, amount: u64, recipient: Key, funds: nat)
    requires Good(s, b)
    ensures Good(Settled(s, DepositSol(s, slot, amount, recipient, funds)), b)
  {
    var step := DepositSol(s, slot, amount, recipient, funds);
    if step.Ok? {
      LoggingKeepsGood(s, b, Deposit(NativeSol, amount, recipient), step.value.limiter, s.vaults, step.value.solVault);
    }
  }

  /** A withdrawal opened, or one not paid in MYTH that changes its status. */
  lemma FilingKeepsGood(s: State, b: Books, nonce: nat, w: Withdrawal, sol: u64, bonds: map<nat, u64>)
    requires Good(s, b) && nonce !in b.paid
    ensures Good(s.(withdrawals := s.withdrawals[nonce := w], solVault := sol, bonds := bonds), b)
  {
  }

  lemma InitiateKeepsGood(s: State, b: Books, caller: Key, nonce: u64, recipient: Key, amount: u64,
                          mint: Mint, now: i64)
    requires Good(s, b)
    ensures Good(Settled(s, InitiateWithdrawal(s, caller, nonce, recipient, amount, mint, now)), b)
    ensures InitiateWithdrawal(s, caller, nonce, recipient, amount, mint, now).Ok? ==>
              InitiateWithdrawal(s, caller, nonce, recipient, amount, mint, now).value.withdrawals[nonce].deadline - now
              == s.challengePeriod
  {
    var step := InitiateWithdrawal(s, caller, nonce, recipient, amount, mint, now);
    if step.Ok? {
      FilingKeepsGood(s, b, nonce, step.value.withdrawals[nonce], s.solVault, s.bonds);
    }
  }

  lemma ChallengeKeepsGood(s: State, b: Books, nonce: u64, proofEmpty: bool, now: i64, funds: nat)
    requires Good(s, b)
    ensures Good(Settled(s, ChallengeWithdrawal(s, nonce, proofEmpty, now, funds)), b)
  {
    var step := ChallengeWithdrawal(s, nonce, proofEmpty, now, funds);
    if step.Ok? {
      FilingKeepsGood(s, b, nonce, step.value.withdrawals[nonce], s.solVault, step.value.bonds);
    }
  }

  lemma FinalizeSolKeepsGood(s: State, b: Books, nonce: u64, recipient: Key, intoVault: bool, now: i64)
    requires Good(s, b)
    ensures Good(Settled(s, FinalizeSolWithdrawal(s, nonce, recipient, intoVault, now)), b)
  {
    var step := FinalizeSolWithdrawal(s, nonce, recipient, intoVault, now);
    if step.Ok? {
      FilingKeepsGood(s, b, nonce, step.value.withdrawals[nonce], step.value.solVault, s.bonds);
    }
  }

  /** A finalized withdrawal leaves the vault of its mint, or stays in it. */
  lemma FinalizeKeepsGood(s: State, b: Books, nonce: u64, mint: Mint, owner: Key, intoVault: bool, now: i64)
    requires Good(s, b)
    ensures Good(Settled(s, FinalizeWithdrawal(s, nonce, mint, owner, intoVault, now)),
                 FinalizedBooks(s, b, nonce, mint, owner, intoVault, now))
  {
    if FinalizeWithdrawal(s, nonce, mint, owner, intoVault, now).Ok? {
      TotalPut<nat, u64>(b.paid, nonce, s.withdrawals[nonce].amount, PaidOf);
    }
  }

  // ---------- The program over accounts updated in place ----------

  class Program {
    const sequencer: Key
    const challengePeriod: i64
    var paused: bool
    var limits: Limits
    var dailyVolume: u64
    var lastResetSlot: u64
    var depositNonce: u64
    var deposits: map<nat, Deposit>
    var vaults: map<Mint, u64>
    var solVault: u64
    var withdrawals: map<nat, Withdrawal>
    var bonds: map<nat, u64>

    ghost var books: Books

    ghost predicate Valid()
      reads this
    {
      Good(View(), books)
    }

    function View(): State
      reads this
    {
      State(sequencer, challengePeriod, paused, limits, Limiter(dailyVolume, lastResetSlot), depositNonce, deposits,
            vaults, solVault, withdrawals, bonds)
    }

    constructor (sequencerKey: Key, period: i64)
      ensures Valid() && View() == Initialize(sequencerKey, period) && books == Books(map[], 0)
    {
      sequencer := sequencerKey;
      challengePeriod := if period > 0 then period else 604_800;
      paused, limits := false, Limits(10_000_000, 1_000_000_000_000, 10_000_000_000_000);
      dailyVolume, lastResetSlot, depositNonce := 0, 0, 0;
      deposits, vaults, solVault, withdrawals, bonds := map[], map[], 0, map[], map[];
      books := Books(map[], 0);
    }

    /** The volume limiter, run on a copy of the configuration that is kept only if all else succeeds. */
    method CountVolume(slot: u64, amount: u64) returns (r: Result<Limiter, BridgeError>)
      ensures r == CheckDeposit(View(), slot, amount)
    {
      if amount == 0 { return Err(InsufficientFunds); }
      if paused { return Err(BridgePaused); }
      if amount < limits.min { return Err(AmountTooLow); }
      if amount > limits.max { return Err(AmountTooHigh); }
      var volume, reset := dailyVolume, lastResetSlot;
      if slot > reset && slot - reset > WINDOW_SLOTS {
        volume, reset := 0, slot;
      }
      if volume + amount > U64_MAX { return Err(LimiterRefused(Overflow)); }
      volume := volume + amount;
      if volume > limits.daily { return Err(LimiterRefused(LimitExceeded)); }
      r := Ok(Limiter(volume, reset));
    }

    method ProcessDeposit(slot: u64, d: Deposit, funds: nat) returns (r: Outcome<BridgeError>)
      requires Valid()
      modifies this
      ensures r == Verdict(DepositToken(old(View()), slot, d, funds))
      ensures View() == Settled(old(View()), DepositToken(old(View()), slot, d, funds))
      ensures Valid() && books == old(books)
    {
      DepositKeepsGood(View(), books, slot, d, funds);
      r := TakeTokens(slot, d, funds);
    }

    method TakeTokens(slot: u64, d: Deposit, funds: nat) returns (r: Outcome<BridgeError>)
      modifies this`vaults, this`depositNonce, this`dailyVolume, this`lastResetSlot, this`deposits
      ensures r == Verdict(DepositToken(old(View()), slot, d, funds))
      ensures View() == Settled(old(View()), DepositToken(old(View()), slot, d, funds))
    {
      var counted := CountVolume(slot, d.amount);
      if counted.Err? { return Fail(counted.error); }
      if d.amount > funds || d.mint !in vaults || vaults[d.mint] + d.amount > U64_MAX { return Fail(TransferFailed); }
      if depositNonce == U64_MAX { return Fail(ArithmeticOverflow); }
      vaults := vaults[d.mint := vaults[d.mint] + d.amount];
      var nonce := depositNonce;
      depositNonce, dailyVolume, lastResetSlot := nonce + 1, counted.value.used, counted.value.lastReset;
      deposits := deposits[nonce := d];
      r := Pass;
    }

    method ProcessDepositSol(slot: u64, amount: u64, recipient: Key, funds: nat) returns (r: Outcome<BridgeError>)
      requires Valid()
      modifies this
      ensures r == Verdict(DepositSol(old(View()), slot, amount, recipient, funds))
      ensures View() == Settled(old(View()), DepositSol(old(View()), slot, amount, recipient, funds))
      ensures Valid() && books == old(books)
    {
      DepositSolKeepsGood(View(), books, slot, amount, recipient, funds);
      r := TakeSol(slot, amount, recipient, funds);
    }

    method TakeSol(slot: u64, amount: u64, recipient: Key, funds: nat) returns (r: Outcome<BridgeError>)
      modifies this`solVault, this`depositNonce, this`dailyVolume, this`lastResetSlot, this`deposits
      ensures r == Verdict(DepositSol(old(View()), slot, amount, recipient, funds))
      ensures View() == Settled(old(View()), DepositSol(old(View()), slot, amount, recipient, funds))
    {
      var counted := CountVolume(slot, amount);
      if counted.Err? { return Fail(counted.error); }
      if amount > funds || solVault + amount > U64_MAX { return Fail(TransferFailed); }
      if depositNonce == U64_MAX { return Fail(ArithmeticOverflow); }
      solVault := solVault + amount;
      var nonce := depositNonce;
      depositNonce, dailyVolume, lastResetSlot := nonce + 1, counted.value.used, counted.value.lastReset;
      deposits := deposits[nonce := Deposit(NativeSol, amount, recipient)];
      r := Pass;
    }

    method ProcessInitiateWithdrawal(caller: Key, nonce: u64, recipient: Key, amount: u64, mint: Mint, now: i64)
      returns (r: Outcome<BridgeError>)
      requires Valid()
      modifies this
      ensures r == Verdict(InitiateWithdrawal(old(View()), caller, nonce, recipient, amount, mint, now))
      ensures View() == Settled(old(View()),
                                InitiateWithdrawal(old(View()), caller, nonce, recipient, amount, mint, now))
      ensures r.Pass? ==> nonce in withdrawals && withdrawals[nonce].deadline - now == challengePeriod
      ensures Valid() && books == old(books)
    {
      InitiateKeepsGood(View(), books, caller, nonce, recipient, amount, mint, now);
      if caller != sequencer { return Fail(InvalidSequencer); }
      if nonce in withdrawals { return Fail(InvalidNonce); }
      var deadline := now + challengePeriod;
      if deadline > I64_MAX || deadline < -0x8000_0000_0000_0000 { return Fail(ArithmeticOverflow); }
      withdrawals := withdrawals[nonce := Withdrawal(recipient, amount, mint, deadline, Pending)];
      r := Pass;
    }

    method ProcessChallengeWithdrawal(nonce: u64, proofEmpty: bool, now: i64, funds: nat)
      returns (r: Outcome<BridgeError>)
      requires Valid()
      modifies this
      ensures r == Verdict(ChallengeWithdrawal(old(View()), nonce, proofEmpty, now, funds))
      ensures View() == Settled(old(View()), ChallengeWithdrawal(old(View()), nonce, proofEmpty, now, funds))
      ensures Valid() && books == old(books)
    {
      ChallengeKeepsGood(View(), books, nonce, proofEmpty, now, funds);
      if nonce !in withdrawals { return Fail(IllegalOwner); }
      var w := withdrawals[nonce];
      if !w.status.Pending? { return Fail(WithdrawalAlreadyFinalized); }
      if now >= w.deadline { return Fail(ChallengePeriodExpired); }
      if proofEmpty { return Fail(InvalidMerkleProof); }
      if w.amount * CHALLENGE_BOND_BPS > U64_MAX { return Fail(ArithmeticOverflow); }
      var bond: u64 := w.amount * CHALLENGE_BOND_BPS / 10_000;
      if bond < MIN_CHALLENGE_BOND {
        bond := MIN_CHALLENGE_BOND;
      }
      if nonce in bonds { return Fail(AlreadyInitialized); }
      if bond > funds { return Fail(TransferFailed); }
      bonds := bonds[nonce := bond];
      withdrawals := withdrawals[nonce := w.(status := Challenged)];
      r := Pass;
    }

    method ProcessFinalizeWithdrawal(nonce: u64, mint: Mint, owner: Key, intoVault: bool, now: i64)
      returns (r: Outcome<BridgeError>)
      requires Valid()
      modifies this
      ensures r == Verdict(FinalizeWithdrawal(old(View()), nonce, mint, owner, intoVault, now))
      ensures View() == Settled(old(View()), FinalizeWithdrawal(old(View()), nonce, mint, owner, intoVault, now))
      ensures Valid() && books == FinalizedBooks(old(View()), old(books), nonce, mint, owner, intoVault, now)
    {
      FinalizeKeepsGood(View(), books, nonce, mint, owner, intoVault, now);
      if paused { return Fail(BridgePaused); }
      if nonce !in withdrawals { return Fail(IllegalOwner); }
      var w := withdrawals[nonce];
      if !w.status.Pending? { return Fail(WithdrawalAlreadyFinalized); }
      if w.amount == 0 { return Fail(InsufficientFunds); }
      if mint != w.mint || owner != w.recipient { return Fail(InvalidAccountData); }
      if now < w.deadline { return Fail(ChallengePeriodActive); }
      if mint !in vaults || w.amount > vaults[mint] { return Fail(TransferFailed); }
      if !intoVault {
        vaults := vaults[mint := vaults[mint] - w.amount];
      }
      withdrawals := withdrawals[nonce := w.(status := Finalized)];
      if mint.Myth? {
        books := Books(books.paid[nonce := w.amount], books.extra + if intoVault then w.amount else 0);
      }
      r := Pass;
    }

    method ProcessFinalizeSolWithdrawal(nonce: u64, recipient: Key, intoVault: bool, now: i64)
      returns (r: Outcome<BridgeError>)
      requires Valid()
      modifies this
      ensures r == Verdict(FinalizeSolWithdrawal(old(View()), nonce, recipient, intoVault, now))
      ensures View() == Settled(old(View()), FinalizeSolWithdrawal(old(View()), nonce, recipient, intoVault, now))
      ensures Valid() && books == old(books)
    {
      FinalizeSolKeepsGood(View(), books, nonce, recipient, intoVault, now);
      if paused { return Fail(BridgePaused); }
      if nonce !in withdrawals { return Fail(IllegalOwner); }
      var w := withdrawals[nonce];
      if !w.status.Pending? { return Fail(WithdrawalAlreadyFinalized); }
      if w.amount == 0 { return Fail(InsufficientFunds); }
      if recipient != w.recipient { return Fail(InvalidAccountData); }
      if now < w.deadline { return Fail(ChallengePeriodActive); }
      if solVault < w.amount { return Fail(InsufficientFunds); }
      if !intoVault {
        solVault := solVault - w.amount;
      }
      withdrawals := withdrawals[nonce := w.(status := Finalized)];
      r := Pass;
    }

    method ProcessSequencerWithdrawSol(caller: Key, amount: u64) returns (r: Outcome<BridgeError>)
      requires Valid()
      modifies this
      ensures r == Verdict(SequencerWithdrawSol(old(View()), caller, amount))
      ensures View() == Settled(old(View()), SequencerWithdrawSol(old(View()), caller, amount))
      ensures Valid() && books == old(books)
    {
      if caller != sequencer { return Fail(InvalidAuthority); }
      if amount == 0 || solVault < amount { return Fail(InsufficientFunds); }
      solVault := solVault - amount;
      r := Pass;
    }
  }
}

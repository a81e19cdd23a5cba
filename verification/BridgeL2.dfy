/** The reserve side of the bridge: native MYTH released for L1 deposits and taken back for L1 withdrawals. */
module BridgeL2 {
  import opened Numbers
  import opened HexCodec
  import opened RateLimiter
  import opened Totals

  const DECIMAL_SCALING_FACTOR: nat := 1_000

  datatype BridgeError =
    | ZeroAmount | BridgePaused | InvalidRelayer | DepositHashMismatch | AmountBelowMinRelease
    | AmountAboveMaxRelease | ArithmeticOverflow | DailyReleaseLimitExceeded | InsufficientReserve
    | DepositAlreadyProcessed | IndivisibleAmount | TransferFailed

  datatype Limits = Limits(min: u64, max: u64, daily: u64)

  datatype Release = Release(recipient: Key, amount: u64)

  /** The digest a release carries: SHA-256 over its own fields, idealised as one-to-one, or other bytes. */
  datatype Digest = Sha256(signature: seq<byte>, nonce: u64, amount: u64, recipient: Key) | Other(id: nat)

  /** A withdrawal request as its event reports it. */
  datatype Burn = Burn(recipient: Key, amount: u64)

  /** The program's accounts and event log: releases by the deposit nonce whose marker account they created
      (at most one per nonce), withdrawal requests by their own nonce. */
  datatype State = State(
    relayer: Key,
    paused: bool,
    limits: Limits,
    limiter: Limiter,
    reserve: u64,
    withdrawNonce: u64,
    totalReleased: u64,
    totalReceived: u64,
    processed: map<nat, Release>,
    burns: map<nat, Burn>)

  type Step = Result<State, BridgeError>

  function Initialize(relayer: Key): State {
    State(relayer, false, Limits(10_000_000, 1_000_000_000_000, 10_000_000_000_000), Limiter(0, 0), 0, 0, 0, 0,
          map[], map[])
  }

  /** Anyone may add to the reserve, even while the bridge is paused. */
  function FundReserve(s: State, amount: u64, funds: nat): Step {
    if amount == 0 then Err(ZeroAmount) else
    :- Need(amount <= funds && s.reserve + amount <= U64_MAX, TransferFailed);
    Ok(s.(reserve := s.reserve + amount))
  }

  /** The release limits; nothing moves yet. */
  function CheckRelease(s: State, slot: u64, amount: u64): Result<Limiter, BridgeError> {
    if amount < s.limits.min then Err(AmountBelowMinRelease) else
    :- Need(amount <= s.limits.max, AmountAboveMaxRelease);
    var r := Admit(s.limiter, slot, amount, s.limits.daily);
    if r.Ok? then Ok(r.value)
    else Err(if r.error.Overflow? then ArithmeticOverflow else DailyReleaseLimitExceeded)
  }

  /** Who may ask for a release, and with what digest. */
  function CheckRequest(s: State, caller: Key, nonce: u64, d: Release, signature: seq<byte>, digest: Digest):
    Outcome<BridgeError> {
    if d.amount == 0 then Fail(ZeroAmount)
    else if s.paused then Fail(BridgePaused)
    else if caller != s.relayer then Fail(InvalidRelayer)
    else if digest != Sha256(signature, nonce, d.amount, d.recipient) then Fail(DepositHashMismatch)
    else Pass
  }

  /** `intoReserve`: the recipient is the reserve account itself, so that the transfer moves nothing. */
  function ReleaseBridged(s: State, caller: Key, nonce: u64, d: Release, signature: seq<byte>, digest: Digest,
                          intoReserve: bool, slot: u64, rentMinimum: u64): Step {
    var request := CheckRequest(s, caller, nonce, d, signature, digest);
    :- request;
    var limiter :- CheckRelease(s, slot, d.amount);
    :- Need(d.amount + rentMinimum <= s.reserve, InsufficientReserve);
    :- Need(nonce !in s.processed, DepositAlreadyProcessed);
    :- Need(s.totalReleased + d.amount <= U64_MAX, ArithmeticOverflow);
    Ok(s.(limiter := limiter,
          reserve := if intoReserve then s.reserve else s.reserve - d.amount,
          processed := s.processed[nonce := d],
          totalReleased := s.totalReleased + d.amount))
  }

  function BridgeToL1(s: State, b: Burn, funds: nat): Step {
    if b.amount == 0 then Err(ZeroAmount) else
    :- Need(b.amount % DECIMAL_SCALING_FACTOR == 0, IndivisibleAmount);
    :- Need(!s.paused, BridgePaused);
    :- Need(b.amount <= funds && s.reserve + b.amount <= U64_MAX, TransferFailed);
    :- Need(s.withdrawNonce < U64_MAX && s.totalReceived + b.amount <= U64_MAX, ArithmeticOverflow);
    Ok(s.(reserve := s.reserve + b.amount,
          withdrawNonce := s.withdrawNonce + 1,
          totalReceived := s.totalReceived + b.amount,
          burns := s.burns[s.withdrawNonce := b]))
  }

  /** What the caller is told, and the state it leaves: a failed instruction changes nothing. */
  function Verdict(step: Step): Outcome<BridgeError> {
    if step.Ok? then Pass else Fail(step.error)
  }

  function Settled(s: State, step: Step): State {
    if step.Ok? then step.value else s
  }

  // ---------- What every instruction keeps ----------

  /** Kept beside the accounts: what the reserve was given, and releases that stayed in it. */
  datatype Books = Books(funded: nat, kept: nat)

  function ReleasedOf(r: Release): int {
    r.amount
  }

  function BurnedOf(b: Burn): int {
    b.amount
  }

  /** The nonce counts the burns logged, which are in whole L1 units; the totals are those of the logs; and the
      reserve holds what it was given and sent, less what was released out of it. */
  ghost predicate Good(s: State, b: Books) {
    && (forall n: nat :: n in s.burns <==> n < s.withdrawNonce)
    && (forall n | n in s.burns :: WholeUnits(s.burns[n].amount))
    && s.totalReleased == Total(s.processed, ReleasedOf)
    && s.totalReceived == Total(s.burns, BurnedOf)
    && s.reserve + s.totalReleased == b.funded + s.totalReceived + b.kept
  }

  predicate WholeUnits(amount: u64) {
    amount == 1_000 * (amount / 1_000)
  }

  function FundedBooks(s: State, b: Books, amount: u64, funds: nat): Books {
    if FundReserve(s, amount, funds).Ok? then b.(funded := b.funded + amount) else b
  }

  /** A release into the reserve itself is counted as released and stays. */
  function ReleasedBooks(b: Books, step: Step, d: Release, intoReserve: bool): Books {
    if step.Ok? && intoReserve then b.(kept := b.kept + d.amount) else b
  }

  lemma FundKeepsGood(s: State, b: Books, amount: u64, funds: nat)
    requires Good(s, b)
    ensures Good(Settled(s, FundReserve(s, amount, funds)), FundedBooks(s, b, amount, funds))
  {
  }

  lemma ReleaseKeepsGood(s: State, b: Books, caller: Key, nonce: u64, d: Release, signature: seq<byte>, digest: Digest,
                         intoReserve: bool, slot: u64, rentMinimum: u64)
    requires Good(s, b)
    ensures var step := ReleaseBridged(s, caller, nonce, d, signature, digest, intoReserve, slot, rentMinimum);
            Good(Settled(s, step), ReleasedBooks(b, step, d, intoReserve))
  {
    TotalPut<nat, Release>(s.processed, nonce, d, ReleasedOf);
  }

  lemma Divides(amount: u64)
    requires amount % DECIMAL_SCALING_FACTOR == 0
    ensures WholeUnits(amount)
  {
  }

  lemma BurnKeepsGood(s: State, b: Books, burn: Burn, funds: nat)
    requires Good(s, b)
    ensures Good(Settled(s, BridgeToL1(s, burn, funds)), b)
  {
    if BridgeToL1(s, burn, funds).Ok? {
      Divides(burn.amount);
      BurningKeepsGood(s, b, burn);
    }
  }

  /** One more burn in the log. */
  lemma BurningKeepsGood(s: State, b: Books, burn: Burn)
    requires Good(s, b) && s.withdrawNonce < U64_MAX && s.totalReceived + burn.amount <= U64_MAX
    requires s.reserve + burn.amount <= U64_MAX && WholeUnits(burn.amount)
    ensures Good(s.(reserve := s.reserve + burn.amount, withdrawNonce := s.withdrawNonce + 1,
                    totalReceived := s.totalReceived + burn.amount, burns := s.burns[s.withdrawNonce := burn]), b)
  {
    TotalPut<nat, Burn>(s.burns, s.withdrawNonce, burn, BurnedOf);
  }

  // ---------- The program over accounts updated in place ----------

  class Program {
    const relayer: Key
    var paused: bool
    var limits: Limits
    var dailyReleased: u64
    var lastResetSlot: u64
    var reserve: u64
    var withdrawNonce: u64
    var totalReleased: u64
    var totalReceived: u64
    var processed: map<nat, Release>
    var burns: map<nat, Burn>

    ghost var books: Books

    ghost predicate Valid()
      reads this
    {
      Good(View(), books)
    }

    function View(): State
      reads this
    {
      State(relayer, paused, limits, Limiter(dailyReleased, lastResetSlot), reserve, withdrawNonce, totalReleased,
            totalReceived, processed, burns)
    }

    constructor (relayerKey: Key)
      ensures Valid() && View() == Initialize(relayerKey) && books == Books(0, 0)
    {
      relayer := relayerKey;
      paused, limits := false, Limits(10_000_000, 1_000_000_000_000, 10_000_000_000_000);
      dailyReleased, lastResetSlot, reserve := 0, 0, 0;
      withdrawNonce, totalReleased, totalReceived := 0, 0, 0;
      processed, burns := map[], map[];
      books := Books(0, 0);
    }

    method ProcessFundReserve(amount: u64, funds: nat) returns (r: Outcome<BridgeError>)
      requires Valid()
      modifies this
      ensures r == Verdict(FundReserve(old(View()), amount, funds))
      ensures View() == Settled(old(View()), FundReserve(old(View()), amount, funds))
      ensures Valid() && books == FundedBooks(old(View()), old(books), amount, funds)
    {
      FundKeepsGood(View(), books, amount, funds);
      if amount == 0 { return Fail(ZeroAmount); }
      if amount > funds || reserve + amount > U64_MAX { return Fail(TransferFailed); }
      reserve := reserve + amount;
      books := books.(funded := books.funded + amount);
      r := Pass;
    }

    /** The limiter, run on a copy of the configuration that is kept only if all else succeeds. */
    method CountVolume(slot: u64, amount: u64) returns (r: Result<Limiter, BridgeError>)
      ensures r == CheckRelease(View(), slot, amount)
    {
      if amount < limits.min { return Err(AmountBelowMinRelease); }
      if amount > limits.max { return Err(AmountAboveMaxRelease); }
      var volume, reset := dailyReleased, lastResetSlot;
      if slot > reset && slot - reset > WINDOW_SLOTS {
        volume, reset := 0, slot;
      }
      if volume + amount > U64_MAX { return Err(ArithmeticOverflow); }
      volume := volume + amount;
      if volume > limits.daily { return Err(DailyReleaseLimitExceeded); }
      r := Ok(Limiter(volume, reset));
    }

    method VerifyRequest(caller: Key, nonce: u64, d: Release, signature: seq<byte>, digest: Digest)
      returns (r: Outcome<BridgeError>)
      ensures r == CheckRequest(View(), caller, nonce, d, signature, digest)
    {
      if d.amount == 0 { return Fail(ZeroAmount); }
      if paused { return Fail(BridgePaused); }
      if caller != relayer { return Fail(InvalidRelayer); }
      var computed := Sha256(signature, nonce, d.amount, d.recipient);
      if computed != digest { return Fail(DepositHashMismatch); }
      r := Pass;
    }

    method ProcessReleaseBridged(caller: Key, nonce: u64, d: Release, signature: seq<byte>, digest: Digest,
                                 intoReserve: bool, slot: u64, rentMinimum: u64) returns (r: Outcome<BridgeError>)
      requires Valid()
      modifies this
      ensures var step := ReleaseBridged(old(View()), caller, nonce, d, signature, digest, intoReserve, slot,
                                         rentMinimum);
              && r == Verdict(step) && View() == Settled(old(View()), step)
              && books == ReleasedBooks(old(books), step, d, intoReserve)
      ensures Valid()
    {
      ReleaseKeepsGood(View(), books, caller, nonce, d, signature, digest, intoReserve, slot, rentMinimum);
      r := Release(caller, nonce, d, signature, digest, intoReserve, slot, rentMinimum);
      if r.Pass? && intoReserve {
        books := books.(kept := books.kept + d.amount);
      }
    }

    method Release(caller: Key, nonce: u64, d: Release, signature: seq<byte>, digest: Digest,
                   intoReserve: bool, slot: u64,
                   rentMinimum: u64) returns (r: Outcome<BridgeError>)
      modifies this`reserve, this`processed, this`dailyReleased, this`lastResetSlot, this`totalReleased
      ensures var step := ReleaseBridged(old(View()), caller, nonce, d, signature, digest, intoReserve, slot,
                                         rentMinimum);
              r == Verdict(step) && View() == Settled(old(View()), step)
    {
      r := VerifyRequest(caller, nonce, d, signature, digest);
      if r.Fail? { return; }
      var counted := CountVolume(slot, d.amount);
      if counted.Err? { return Fail(counted.error); }
      var available := if reserve >= rentMinimum then reserve - rentMinimum else 0;
      if d.amount > available { return Fail(InsufficientReserve); }
      if nonce in processed { return Fail(DepositAlreadyProcessed); }
      if totalReleased + d.amount > U64_MAX { return Fail(ArithmeticOverflow); }
      if !intoReserve {
        reserve := reserve - d.amount;
      }
      processed := processed[nonce := d];
      dailyReleased, lastResetSlot := counted.value.used, counted.value.lastReset;
      totalReleased := totalReleased + d.amount;
      r := Pass;
    }

    method ProcessBridgeToL1(b: Burn, funds: nat) returns (r: Outcome<BridgeError>)
      requires Valid()
      modifies this
      ensures r == Verdict(BridgeToL1(old(View()), b, funds))
      ensures View() == Settled(old(View()), BridgeToL1(old(View()), b, funds))
      ensures Valid() && books == old(books)
    {
      BurnKeepsGood(View(), books, b, funds);
      if b.amount == 0 { return Fail(ZeroAmount); }
      if b.amount % 1_000 != 0 { return Fail(IndivisibleAmount); }
      if paused { return Fail(BridgePaused); }
      if b.amount > funds || reserve + b.amount > U64_MAX { return Fail(TransferFailed); }
      if withdrawNonce == U64_MAX || totalReceived + b.amount > U64_MAX { return Fail(ArithmeticOverflow); }
      reserve := reserve + b.amount;
      burns := burns[withdrawNonce := b];
      withdrawNonce, totalReceived := withdrawNonce + 1, totalReceived + b.amount;
      r := Pass;
    }
  }
}

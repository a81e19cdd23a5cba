/** Both chains and the relayer between them, and what every run of the three keeps. */
module BridgeSystem {
  import opened Numbers
  import opened HexCodec
  import L1 = BridgeL1
  import L2 = BridgeL2
  import R = Relayer

  datatype World = World(l1: L1.State, b1: L1.Books, l2: L2.State, b2: L2.Books, lastDeposit: u64, lastBurn: u64)

  /** `line` is whatever the relayer parsed from a log: any program called beside the bridge can print one. */
  datatype Command =
    | Deposit(slot: u64, d: L1.Deposit, funds: nat)
    | DepositSol(slot: u64, amount: u64, recipient: Key, funds: nat)
    | Gift(amount: u64)
    | CreateVault(mint: L1.Mint)
    | Initiate(caller: Key, nonce: u64, recipient: Key, amount: u64, mint: L1.Mint, now: i64)
    | Challenge(nonce: u64, proofEmpty: bool, now: i64, funds: nat)
    | Finalize(nonce: u64, mint: L1.Mint, owner: Key, intoVault: bool, now: i64)
    | FinalizeSol(nonce: u64, owner: Key, intoVault: bool, now: i64)
    | WithdrawSol(caller: Key, amount: u64)
    | ConfigureL1(pauseL1: bool, limitsL1: L1.Limits)
    | Fund(amount: u64, funds: nat)
    | Burn(b: L2.Burn, funds: nat)
    | ConfigureL2(pauseL2: bool, limitsL2: L2.Limits)
    | Release(caller: Key, nonce: u64, release: L2.Release, signature: seq<byte>, digest: L2.Digest, intoReserve: bool,
              slot: u64, rentMinimum: u64)
    | RelayDeposit(line: R.Event, signature: seq<byte>, confirmed: bool, intoReserve: bool, slot: u64, rentMinimum: u64)
    | RelayBurn(line: R.Event, confirmed: bool, now: i64)
    | Restart(deposit: u64, burn: u64)

  function Start(sequencer: Key, period: i64, relayer: Key): World {
    World(L1.Initialize(sequencer, period), L1.Books(map[], 0), L2.Initialize(relayer), L2.Books(0, 0), 0, 0)
  }

  /** The relayer acts on a line, if its filter and its reader let it. Confirmation can fail to arrive although
      the transaction took effect; it never arrives otherwise. Dropping, delaying, repeating and reordering are
      the command not being given, or being given again. */
  function ForwardDeposit(w: World, line: R.Event, signature: seq<byte>, confirmed: bool, intoReserve: bool, slot: u64,
                          rentMinimum: u64): World {
    var p := R.Handle(R.Poll(w.lastDeposit, [], 0, false), R.Deposits, line, confirmed);
    if p.requests == [] then w else
      var q := p.requests[0];
      var d := L2.Release(q.recipient, q.amount);
      var step := L2.ReleaseBridged(w.l2, w.l2.relayer, q.nonce, d, signature,
                                    L2.Sha256(signature, q.nonce, q.amount, q.recipient),
                                    intoReserve, slot, rentMinimum);
      if step.Err? then w
      else w.(l2 := step.value, b2 := L2.ReleasedBooks(w.b2, step, d, intoReserve), lastDeposit := p.last)
  }

  function ForwardBurn(w: World, line: R.Event, confirmed: bool, now: i64): World {
    var p := R.Handle(R.Poll(w.lastBurn, [], 0, false), R.Burns, line, confirmed);
    if p.requests == [] then w else
      var q := p.requests[0];
      var step := L1.InitiateWithdrawal(w.l1, w.l1.sequencer, q.nonce, q.recipient, q.amount, L1.Myth, now);
      if step.Err? then w else w.(l1 := step.value, lastBurn := p.last)
  }

  /** One step of anyone; a failed instruction leaves everything as it was. The relayer's key, which both
      programs know, signs only what the relayer forwards. */
  function Perform(w: World, c: Command): World {
    match c
    case Deposit(slot, d, funds) =>
      w.(l1 := L1.Settled(w.l1, L1.DepositToken(w.l1, slot, d, funds)))
    case DepositSol(slot, amount, recipient, funds) =>
      w.(l1 := L1.Settled(w.l1, L1.DepositSol(w.l1, slot, amount, recipient, funds)))
    case Gift(amount) =>
      if L1.Myth in w.l1.vaults && w.l1.vaults[L1.Myth] + amount <= U64_MAX then
        w.(l1 := w.l1.(vaults := w.l1.vaults[L1.Myth := w.l1.vaults[L1.Myth] + amount]),
           b1 := w.b1.(extra := w.b1.extra + amount))
      else w
    case CreateVault(mint) => w.(l1 := L1.Settled(w.l1, L1.CreateVault(w.l1, mint)))
    case Initiate(caller, nonce, recipient, amount, mint, now) =>
      if caller == w.l1.sequencer then w
      else w.(l1 := L1.Settled(w.l1, L1.InitiateWithdrawal(w.l1, caller, nonce, recipient, amount, mint, now)))
    case Challenge(nonce, proofEmpty, now, funds) =>
      w.(l1 := L1.Settled(w.l1, L1.ChallengeWithdrawal(w.l1, nonce, proofEmpty, now, funds)))
    case Finalize(nonce, mint, owner, intoVault, now) =>
      w.(l1 := L1.Settled(w.l1, L1.FinalizeWithdrawal(w.l1, nonce, mint, owner, intoVault, now)),
         b1 := L1.FinalizedBooks(w.l1, w.b1, nonce, mint, owner, intoVault, now))
    case FinalizeSol(nonce, owner, intoVault, now) =>
      w.(l1 := L1.Settled(w.l1, L1.FinalizeSolWithdrawal(w.l1, nonce, owner, intoVault, now)))
    case WithdrawSol(caller, amount) => w.(l1 := L1.Settled(w.l1, L1.SequencerWithdrawSol(w.l1, caller, amount)))
    case ConfigureL1(paused, limits) => w.(l1 := w.l1.(paused := paused, limits := limits))
    case Fund(amount, funds) =>
      w.(l2 := L2.Settled(w.l2, L2.FundReserve(w.l2, amount, funds)), b2 := L2.FundedBooks(w.l2, w.b2, amount, funds))
    case Burn(b, funds) => w.(l2 := L2.Settled(w.l2, L2.BridgeToL1(w.l2, b, funds)))
    case ConfigureL2(paused, limits) => w.(l2 := w.l2.(paused := paused, limits := limits))
    case Release(caller, nonce, release, signature, digest, intoReserve, slot, rentMinimum) =>
      if caller == w.l2.relayer then w
      else
        var step := L2.ReleaseBridged(w.l2, caller, nonce, release, signature, digest, intoReserve, slot, rentMinimum);
        w.(l2 := L2.Settled(w.l2, step))
    case RelayDeposit(line, signature, confirmed, intoReserve, slot, rentMinimum) =>
      ForwardDeposit(w, line, signature, confirmed, intoReserve, slot, rentMinimum)
    case RelayBurn(line, confirmed, now) => ForwardBurn(w, line, confirmed, now)
    case Restart(deposit, burn) => w.(lastDeposit := deposit, lastBurn := burn)
  }

  function Run(w: World, cs: seq<Command>): World
    decreases |cs|
  {
    if cs == [] then w else Perform(Run(w, cs[..|cs| - 1]), cs[|cs| - 1])
  }

  // ---------- What every run keeps, whatever the relayer is told ----------

  /** The ledgers of both programs; and the relayer never asks for nonce 0, nor for a withdrawal in anything
      but MYTH. */
  ghost predicate Kept(w: World) {
    && L1.Good(w.l1, w.b1) && L2.Good(w.l2, w.b2)
    && (forall n | n in w.l2.processed :: n > 0)
    && (forall n | n in w.l1.withdrawals :: n > 0 && w.l1.withdrawals[n].mint == L1.Myth)
  }

  /** What a line makes the relayer ask L2 for. */
  function Asked(line: R.Event): Option<L2.Release> {
    if Decoded(line.recipient).Ok? then Some(L2.Release(Decoded(line.recipient).value, R.ToL2(line.amount))) else None
  }

  /** A release the reserve can give. */
  predicate Available(w: World, line: R.Event) {
    && Asked(line).Some? && line.nonce > 0 && line.nonce !in w.l2.processed
    && w.l2.totalReleased + Asked(line).value.amount <= U64_MAX && Asked(line).value.amount <= w.l2.reserve
  }

  function Given(w: World, line: R.Event, intoReserve: bool): World
    requires Available(w, line)
  {
    var d := Asked(line).value;
    w.(l2 := w.l2.(reserve := if intoReserve then w.l2.reserve else w.l2.reserve - d.amount,
                   processed := w.l2.processed[line.nonce := d], totalReleased := w.l2.totalReleased + d.amount),
       b2 := if intoReserve then w.b2.(kept := w.b2.kept + d.amount) else w.b2)
  }

  /** All a line can bring about is one release: of what it asks for, for a nonce not answered before, within
      the limits. */
  lemma ForwardingReleases(w: World, line: R.Event, signature: seq<byte>, confirmed: bool, intoReserve: bool, slot: u64,
                           rentMinimum: u64)
    ensures var w' := ForwardDeposit(w, line, signature, confirmed, intoReserve, slot, rentMinimum);
            w' == w || (&& Available(w, line)
                        && L2.CheckRelease(w.l2, slot, Asked(line).value.amount) == Ok(w'.l2.limiter)
                        && w' == Given(w, line, intoReserve)
                              .(l2 := Given(w, line, intoReserve).l2.(limiter := w'.l2.limiter),
                                                              lastDeposit := w'.lastDeposit))
  {
  }

  lemma RelayDepositKeeps(w: World, line: R.Event, signature: seq<byte>, confirmed: bool, intoReserve: bool, slot: u64,
                          rentMinimum: u64)
    requires Kept(w)
    ensures Kept(ForwardDeposit(w, line, signature, confirmed, intoReserve, slot, rentMinimum))
  {
    var p := R.Handle(R.Poll(w.lastDeposit, [], 0, false), R.Deposits, line, confirmed);
    if p.requests != [] {
      var q := p.requests[0];
      L2.ReleaseKeepsGood(w.l2, w.b2, w.l2.relayer, q.nonce, L2.Release(q.recipient, q.amount), signature,
                          L2.Sha256(signature, q.nonce, q.amount, q.recipient), intoReserve, slot, rentMinimum);
    }
  }

  lemma RelayBurnKeeps(w: World, line: R.Event, confirmed: bool, now: i64)
    requires Kept(w)
    ensures Kept(ForwardBurn(w, line, confirmed, now))
  {
    var p := R.Handle(R.Poll(w.lastBurn, [], 0, false), R.Burns, line, confirmed);
    if p.requests != [] {
      var q := p.requests[0];
      L1.InitiateKeepsGood(w.l1, w.b1, w.l1.sequencer, q.nonce, q.recipient, q.amount, L1.Myth, now);
    }
  }

  lemma VaultStepKeeps(w: World, c: Command)
    requires Kept(w) && (c.Deposit? || c.DepositSol? || c.Gift? || c.CreateVault? || c.WithdrawSol? || c.ConfigureL1?)
    ensures Kept(Perform(w, c))
  {
    match c {
      case Deposit(slot, d, funds) => L1.DepositKeepsGood(w.l1, w.b1, slot, d, funds);
      case DepositSol(slot, amount, recipient, funds) =>
        L1.DepositSolKeepsGood(w.l1, w.b1, slot, amount, recipient, funds);
      case _ =>
    }
  }

  lemma StatusStepKeeps(w: World, c: Command)
    requires Kept(w) && (c.Challenge? || c.FinalizeSol?)
    ensures Kept(Perform(w, c))
  {
    match c {
      case Challenge(nonce, proofEmpty, now, funds) => L1.ChallengeKeepsGood(w.l1, w.b1, nonce, proofEmpty, now, funds);
      case FinalizeSol(nonce, owner, intoVault, now) =>
        L1.FinalizeSolKeepsGood(w.l1, w.b1, nonce, owner, intoVault, now);
    }
  }

  lemma PayoutStepKeeps(w: World, c: Command)
    requires Kept(w) && (c.Finalize? || c.Initiate?)
    ensures Kept(Perform(w, c))
  {
    if c.Finalize? {
      L1.FinalizeKeepsGood(w.l1, w.b1, c.nonce, c.mint, c.owner, c.intoVault, c.now);
    }
  }

  lemma ReserveStepKeeps(w: World, c: Command)
    requires Kept(w) && (c.Fund? || c.Burn?)
    ensures Kept(Perform(w, c))
  {
    match c {
      case Fund(amount, funds) => L2.FundKeepsGood(w.l2, w.b2, amount, funds);
      case Burn(b, funds) => L2.BurnKeepsGood(w.l2, w.b2, b, funds);
    }
  }

  /** Nobody but the relayer is let through to a release. */
  lemma SettingStepIsQuiet(w: World, c: Command)
    requires c.ConfigureL2? || c.Release? || c.Restart?
    ensures var w' := Perform(w, c);
            && w'.l1 == w.l1 && w'.b1 == w.b1 && w'.b2 == w.b2
            && w'.l2 == w.l2.(paused := w'.l2.paused, limits := w'.l2.limits)
  {
  }

  /** The relayer acts only on a nonce above the last one confirmed, which then is the last if the answer arrives; apart
      from a restart nothing else moves its filters. */
  lemma FilterMovesExactlyWhen(w: World, c: Command)
    ensures var w' := Perform(w, c);
            && (c.RelayDeposit? && w' != w ==>
                  && c.line.nonce > w.lastDeposit && w'.lastBurn == w.lastBurn
                  && w'.lastDeposit == if c.confirmed then c.line.nonce else w.lastDeposit)
            && (c.RelayBurn? && w' != w ==>
                  && c.line.nonce > w.lastBurn && w'.lastDeposit == w.lastDeposit
                  && w'.lastBurn == if c.confirmed then c.line.nonce else w.lastBurn)
            && (!c.RelayDeposit? && !c.RelayBurn? && !c.Restart? ==>
                  w'.lastDeposit == w.lastDeposit && w'.lastBurn == w.lastBurn)
  {
    if c.Release? {
      SettingStepIsQuiet(w, c);
    }
  }

  /** Settings are put as they are given, and reach one chain only; gifts reach the MYTH vault. */
  lemma SettingsArePut(w: World, c: Command)
    ensures var w' := Perform(w, c);
            && (c.ConfigureL1? ==> && w'.l1.paused == c.pauseL1 && w'.l1.limits == c.limitsL1
                                   && w' == w.(l1 := w.l1.(paused := w'.l1.paused, limits := w'.l1.limits)))
            && (c.ConfigureL2? ==> && w'.l2.paused == c.pauseL2 && w'.l2.limits == c.limitsL2
                                   && w' == w.(l2 := w.l2.(paused := w'.l2.paused, limits := w'.l2.limits)))
            && (c.Restart? ==> && w'.lastDeposit == c.deposit && w'.lastBurn == c.burn
                               && w' == w.(lastDeposit := w'.lastDeposit, lastBurn := w'.lastBurn))
            && (c.Gift? && w' != w ==>
                  && L1.MythIn(w'.l1.vaults) - L1.MythIn(w.l1.vaults) == w'.b1.extra - w.b1.extra == c.amount
                  && w' == w.(l1 := w.l1.(vaults := w'.l1.vaults), b1 := w.b1.(extra := w'.b1.extra)))
  {
  }

  lemma SettingStepKeeps(w: World, c: Command)
    requires Kept(w) && (c.ConfigureL2? || c.Release? || c.Restart?)
    ensures Kept(Perform(w, c))
    ensures Perform(w, c).l1 == w.l1 && Perform(w, c).b1 == w.b1
    ensures Perform(w, c).l2.processed == w.l2.processed && Perform(w, c).l2.burns == w.l2.burns
  {
    SettingStepIsQuiet(w, c);
  }

  lemma PerformKeeps(w: World, c: Command)
    requires Kept(w)
    ensures Kept(Perform(w, c))
  {
    match c {
      case Initiate(_, _, _, _, _, _) => PayoutStepKeeps(w, c);
      case Challenge(_, _, _, _) => StatusStepKeeps(w, c);
      case Finalize(_, _, _, _, _) => PayoutStepKeeps(w, c);
      case FinalizeSol(_, _, _, _) => StatusStepKeeps(w, c);
      case Fund(_, _) => ReserveStepKeeps(w, c);
      case Burn(_, _) => ReserveStepKeeps(w, c);
      case ConfigureL2(_, _) => SettingStepKeeps(w, c);
      case Release(_, _, _, _, _, _, _, _) => SettingStepKeeps(w, c);
      case Restart(_, _) => SettingStepKeeps(w, c);
      case RelayDeposit(line, signature, confirmed, intoReserve, slot, rentMinimum) =>
        RelayDepositKeeps(w, line, signature, confirmed, intoReserve, slot, rentMinimum);
      case RelayBurn(line, confirmed, now) => RelayBurnKeeps(w, line, confirmed, now);
      case _ => VaultStepKeeps(w, c);
    }
  }

  lemma {:induction false} RunKeeps(w: World, cs: seq<Command>)
    requires Kept(w)
    ensures Kept(Run(w, cs))
    decreases |cs|
  {
    if cs != [] {
      RunKeeps(w, cs[..|cs| - 1]);
      PerformKeeps(Run(w, cs[..|cs| - 1]), cs[|cs| - 1]);
    }
  }

  lemma StartIsKept(sequencer: Key, period: i64, relayer: Key)
    ensures Kept(Start(sequencer, period, relayer))
  {
  }
}

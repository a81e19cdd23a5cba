/** When the bridge gives out no more than it took in, nonce by nonce: exactly when every line the relayer acts on
    asks for no more than the MYTH of its deposit or burn. And when a withdrawal can be paid. */
module BridgeCover {
  import opened Numbers
  import opened Totals
  import opened HexCodec
  import L1 = BridgeL1
  import L2 = BridgeL2
  import R = Relayer
  import opened BridgeSystem
  import opened BridgeFaith
  import opened BridgeBacking

  /** MYTH deposited under a nonce, and burned under one, in L2 units. */
  function Deposited(w: World, n: nat): int {
    if n in w.l1.deposits then WorthOf(w.l1.deposits[n]) else 0
  }

  function Burned(w: World, n: nat): int {
    if n in w.l2.burns then L2.BurnedOf(w.l2.burns[n]) else 0
  }

  ghost predicate ReleasesCovered(w: World) {
    forall n | n in w.l2.processed :: w.l2.processed[n].amount <= Deposited(w, n)
  }

  /** Withdrawals that are only open, or challenged, count like paid ones. */
  ghost predicate WithdrawalsCovered(w: World) {
    forall n | n in w.l1.withdrawals :: 1_000 * (w.l1.withdrawals[n].amount as int) <= Burned(w, n)
  }

  ghost predicate Covered(w: World) {
    ReleasesCovered(w) && WithdrawalsCovered(w)
  }

  // ---------- Lines ----------

  predicate DepositIsModest(w: World, line: R.Event) {
    Asked(line).Some? && Asked(line).value.amount <= Deposited(w, line.nonce)
  }

  predicate BurnIsModest(w: World, line: R.Event) {
    AskedOfL1(line).Some? && 1_000 * (AskedOfL1(line).value.amount as int) <= Burned(w, line.nonce)
  }

  /** The relayer acted, and on a line that asks for no more than was taken in; or it did not act. */
  predicate Modest(w: World, c: Command) {
    && (c.RelayDeposit? && Perform(w, c) != w ==> DepositIsModest(w, c.line))
    && (c.RelayBurn? && Perform(w, c) != w ==> BurnIsModest(w, c.line))
  }

  /** The program's own lines of MYTH deposits and of burns are modest. */
  lemma OwnLinesAreModest(w: World, n: nat)
    requires Kept(w) && n <= U64_MAX
    ensures n in w.l1.deposits && w.l1.deposits[n].mint.Myth? ==> DepositIsModest(w, DepositLine(w, n))
    ensures n in w.l2.burns ==> BurnIsModest(w, BurnLine(w, n))
  {
    if n in w.l1.deposits {
      OwnDepositLineAsks(w, n);
    }
    if n in w.l2.burns {
      OwnBurnLineAsks(w, n);
      assert L2.WholeUnits(w.l2.burns[n].amount);
    }
  }

  // ---------- One step ----------

  lemma DepositLineIsDecisive(w: World, c: Command)
    requires Covered(w) && c.RelayDeposit?
    ensures Covered(Perform(w, c)) <==> Modest(w, c)
  {
    ForwardingReleases(w, c.line, c.signature, c.confirmed, c.intoReserve, c.slot, c.rentMinimum);
    var w' := Perform(w, c);
    var n := c.line.nonce;
    if w' != w {
      assert w'.l2.processed == w.l2.processed[n := Asked(c.line).value];
      assert ReleasesCovered(w') <==> DepositIsModest(w, c.line) by {
        assert n in w'.l2.processed;
      }
    }
  }

  lemma BurnLineIsDecisive(w: World, c: Command)
    requires Covered(w) && c.RelayBurn?
    ensures Covered(Perform(w, c)) <==> Modest(w, c)
  {
    ForwardingOpens(w, c.line, c.confirmed, c.now);
    var w' := Perform(w, c);
    if w' != w {
      assert WithdrawalsCovered(w') <==> BurnIsModest(w, c.line) by {
        assert c.line.nonce in w'.l1.withdrawals;
      }
    }
  }

  /** Neither log loses an entry or changes one. */
  predicate LogsGrow(w: World, w': World) {
    && (forall n | n in w.l1.deposits :: n in w'.l1.deposits && w'.l1.deposits[n] == w.l1.deposits[n])
    && (forall n | n in w.l2.burns :: n in w'.l2.burns && w'.l2.burns[n] == w.l2.burns[n])
  }

  lemma GrowingLogsCover(w: World, w': World)
    requires Covered(w) && LogsGrow(w, w') && w'.l2.processed == w.l2.processed
    requires w'.l1.withdrawals.Keys == w.l1.withdrawals.Keys
    requires forall n | n in w.l1.withdrawals :: w'.l1.withdrawals[n].amount == w.l1.withdrawals[n].amount
    ensures Covered(w')
  {
  }

  lemma OtherStepsKeepLogs(w: World, c: Command)
    requires Kept(w) && !c.RelayDeposit? && !c.RelayBurn?
    ensures LogsGrow(w, Perform(w, c))
  {
    StepExtends(w, c);
  }

  lemma VaultStepKeepsTerms(w: World, c: Command)
    requires c.Deposit? || c.DepositSol? || c.Gift? || c.CreateVault? || c.WithdrawSol? || c.ConfigureL1? || c.Initiate?
    ensures Perform(w, c).l2 == w.l2 && Perform(w, c).l1.withdrawals == w.l1.withdrawals
  {
  }

  lemma ReserveStepKeepsTerms(w: World, c: Command)
    requires Kept(w) && (c.Fund? || c.Burn? || c.ConfigureL2? || c.Release? || c.Restart?)
    ensures Perform(w, c).l1 == w.l1 && Perform(w, c).l2.processed == w.l2.processed
  {
    if c.ConfigureL2? || c.Release? || c.Restart? {
      SettingStepKeeps(w, c);
    } else {
      FundingStepGrows(w, c);
    }
  }

  /** A covered world stays covered exactly if the step is not the relayer acting on a line that asks for more than was
      taken in. */
  lemma StepStaysCoveredExactlyWhen(w: World, c: Command)
    requires Kept(w) && Covered(w)
    ensures Covered(Perform(w, c)) <==> Modest(w, c)
  {
    if c.RelayDeposit? {
      DepositLineIsDecisive(w, c);
    } else if c.RelayBurn? {
      BurnLineIsDecisive(w, c);
    } else {
      OtherStepsKeepLogs(w, c);
      if c.Challenge? || c.Finalize? || c.FinalizeSol? {
        StatusStepKeepsTerms(w, c);
      } else if c.Fund? || c.Burn? || c.ConfigureL2? || c.Release? || c.Restart? {
        ReserveStepKeepsTerms(w, c);
      } else {
        VaultStepKeepsTerms(w, c);
      }
      GrowingLogsCover(w, Perform(w, c));
    }
  }

  // ---------- Runs ----------

  ghost predicate AlwaysCovered(w: World, cs: seq<Command>)
    decreases |cs|
  {
    Covered(Run(w, cs)) && (cs != [] ==> AlwaysCovered(w, cs[..|cs| - 1]))
  }

  ghost predicate AllModest(w: World, cs: seq<Command>)
    decreases |cs|
  {
    cs == [] || (AllModest(w, cs[..|cs| - 1]) && Modest(Run(w, cs[..|cs| - 1]), cs[|cs| - 1]))
  }

  lemma {:induction false} CoveredExactlyWhen(w: World, cs: seq<Command>)
    requires Kept(w) && Covered(w)
    ensures AlwaysCovered(w, cs) <==> AllModest(w, cs)
    decreases |cs|
  {
    if cs != [] {
      var front := cs[..|cs| - 1];
      CoveredExactlyWhen(w, front);
      RunKeeps(w, front);
      if AlwaysCovered(w, front) {
        assert Covered(Run(w, front));
        StepStaysCoveredExactlyWhen(Run(w, front), cs[|cs| - 1]);
      }
    }
  }

  lemma NoReleaseInExcess(w: World)
    requires ReleasesCovered(w)
    ensures Total(Releases(w), ExcessOf) == 0
  {
    var cs := Releases(w);
    forall n | n in cs ensures ExcessOf(cs[n]) == 0 {
    }
    TotalZero(cs, ExcessOf);
  }

  lemma NoPayoutInExcess(w: World)
    requires Kept(w) && WithdrawalsCovered(w)
    ensures Total(Payouts(w), ExcessOf) == 0
  {
    var cs := Payouts(w);
    forall n | n in cs ensures ExcessOf(cs[n]) == 0 {
      if n in w.b1.paid {
        assert n in w.l1.withdrawals;
      }
    }
    TotalZero(cs, ExcessOf);
  }

  /** From the start of the bridge, under any relayer and with any lines in the logs: no nonce is ever given or
      promised more than was taken in for it exactly if every line acted on asked for no more. Then nothing is in
      excess, and what circulates is backed; whoever is paid. */
  lemma NothingInExcessExactlyWhen(sequencer: Key, period: i64, relayer: Key, cs: seq<Command>)
    ensures var w0 := Start(sequencer, period, relayer);
            var w := Run(w0, cs);
            && (AlwaysCovered(w0, cs) <==> AllModest(w0, cs))
            && (AllModest(w0, cs) ==> Excess(w) == 0 && 1_000 * L1.MythIn(w.l1.vaults) >= Circulating(w))
  {
    var w0 := Start(sequencer, period, relayer);
    StartIsKept(sequencer, period, relayer);
    RunKeeps(w0, cs);
    CoveredExactlyWhen(w0, cs);
    var w := Run(w0, cs);
    if AllModest(w0, cs) {
      assert Covered(w);
      NoReleaseInExcess(w);
      NoPayoutInExcess(w);
      VaultIdentity(w);
      OwedIsNonnegative(w);
    }
  }

  // ---------- Payment ----------

  /** A withdrawal is paid in MYTH for exactly these reasons; whether the vault holds enough is one of its own. */
  lemma FinalizeSucceedsExactlyWhen(w: World, nonce: u64, mint: L1.Mint, owner: Key, intoVault: bool, now: i64)
    requires Kept(w)
    ensures L1.FinalizeWithdrawal(w.l1, nonce, mint, owner, intoVault, now).Ok?
            <==> && !w.l1.paused && nonce in w.l1.withdrawals
                 && var d := w.l1.withdrawals[nonce];
                    && d.status.Pending? && mint == L1.Myth && owner == d.recipient && now >= d.deadline
                    && 0 < d.amount <= L1.MythIn(w.l1.vaults)
  {
  }

  /** While nothing is in excess and no more MYTH was burned on L2 than was released there, the vault covers every
      withdrawal not yet paid. */
  lemma CoveredWithdrawalsCanBePaid(w: World, nonce: nat)
    requires Kept(w) && Covered(w) && Circulating(w) >= 0
    requires nonce in w.l1.withdrawals && w.l1.withdrawals[nonce].status.Pending?
    ensures w.l1.withdrawals[nonce].amount <= L1.MythIn(w.l1.vaults)
  {
    NoReleaseInExcess(w);
    NoPayoutInExcess(w);
    VaultIdentity(w);
    TotalNonnegative(Releases(w), OwedOf);
    if w.l1.withdrawals[nonce].amount > 0 {
      TotalBoundsMember(Payouts(w), nonce, OwedOf);
    }
  }

  /** Otherwise not: MYTH that was on L2 without a deposit is burned, its own line is relayed, the deadline passes, and
      the vault has nothing to pay with. */
  lemma FaithfulWithdrawalFindsTheVaultShort(sequencer: Key, relayer: Key, user: Key)
    ensures var burn := Burn(L2.Burn(user, 1_000_000), 1_000_000);
            var relay := RelayBurn(R.Event(1, Encoded(user), 1_000_000), true, 0);
            var before := Run(Start(sequencer, 10, relayer), [burn, burn, CreateVault(L1.Myth)]);
            var w := Perform(before, relay);
            && 1 in before.l2.burns && relay.line == BurnLine(before, 1)
            && 1 in w.l1.withdrawals && w.l1.withdrawals[1] == L1.Withdrawal(user, 1_000, L1.Myth, 10, L1.Pending)
            && L1.FinalizeWithdrawal(w.l1, 1, L1.Myth, user, false, 10) == Err(L1.TransferFailed)
  {
    var burn, vault := Burn(L2.Burn(user, 1_000_000), 1_000_000), CreateVault(L1.Myth);
    var relay := RelayBurn(R.Event(1, Encoded(user), 1_000_000), true, 0);
    var w0 := Start(sequencer, 10, relayer);
    RunOfFour(w0, burn, burn, vault, vault);
    TwoBurns(w0, user);
    BurnedTwice(w0, user);
    EmptyVault(Perform(Perform(w0, burn), burn));
    var before := Perform(Perform(Perform(w0, burn), burn), vault);
    OpenedForLine(before, user);
    NotEnough(Perform(before, relay).l1, user);
  }

  lemma EmptyVault(w: World)
    requires w.l1 == L1.Initialize(w.l1.sequencer, 10)
    ensures Perform(w, CreateVault(L1.Myth)) == w.(l1 := w.l1.(vaults := map[L1.Myth := 0]))
  {
  }

  lemma NotEnough(s: L1.State, user: Key)
    requires !s.paused && s.vaults == map[L1.Myth := 0]
    requires s.withdrawals == map[1 := L1.Withdrawal(user, 1_000, L1.Myth, 10, L1.Pending)]
    ensures L1.FinalizeWithdrawal(s, 1, L1.Myth, user, false, 10) == Err(L1.TransferFailed)
  {
  }

  lemma BurnedTwice(w0: World, user: Key)
    requires w0 == Start(w0.l1.sequencer, 10, w0.l2.relayer)
    ensures var burn := Burn(L2.Burn(user, 1_000_000), 1_000_000);
            var w := Perform(Perform(w0, burn), burn);
            1 in w.l2.burns && w.l2.burns[1] == L2.Burn(user, 1_000_000)
  {
    var burn := L2.Burn(user, 1_000_000);
    var once := L2.BridgeToL1(w0.l2, burn, 1_000_000);
    assert once.Ok? && once.value.withdrawNonce == 1 && once.value.reserve == 1_000_000;
  }
}

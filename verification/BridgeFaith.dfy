/** When what one chain does answers what happened on the other: exactly when every line the relayer acts on
    asks for what the bridge program's own line would. */
module BridgeFaith {
  import opened Numbers
  import opened HexCodec
  import L2 = BridgeL2
  import R = Relayer
  import opened BridgeSystem

  /** Every release answers the deposit of its nonce: same recipient, scaled amount. */
  ghost predicate ReleasesAnswerDeposits(w: World) {
    forall n | n in w.l2.processed ::
      n in w.l1.deposits && w.l2.processed[n] == L2.Release(w.l1.deposits[n].recipient, R.ToL2(w.l1.deposits[n].amount))
  }

  /** Every withdrawal answers the burn of its nonce. */
  ghost predicate WithdrawalsAnswerBurns(w: World) {
    forall n | n in w.l1.withdrawals ::
      && n in w.l2.burns
      && w.l1.withdrawals[n].recipient == w.l2.burns[n].recipient
      && w.l1.withdrawals[n].amount == R.ToL1(w.l2.burns[n].amount)
  }

  ghost predicate Faithful(w: World) {
    ReleasesAnswerDeposits(w) && WithdrawalsAnswerBurns(w)
  }

  // ---------- Lines ----------

  /** The line the L1 program printed for a deposit, and the L2 program for a burn. */
  function DepositLine(w: World, n: nat): R.Event
    requires n in w.l1.deposits && n <= U64_MAX
  {
    R.Event(n, Encoded(w.l1.deposits[n].recipient), w.l1.deposits[n].amount)
  }

  function BurnLine(w: World, n: nat): R.Event
    requires n in w.l2.burns && n <= U64_MAX
  {
    R.Event(n, Encoded(w.l2.burns[n].recipient), w.l2.burns[n].amount)
  }

  /** What a line makes the relayer ask L1 for. */
  function AskedOfL1(line: R.Event): Option<L2.Burn> {
    if Decoded(line.recipient).Ok? then Some(L2.Burn(Decoded(line.recipient).value, R.ToL1(line.amount))) else None
  }

  /** The line asks for what the program's own line of that nonce asks for. */
  predicate DepositAgrees(w: World, line: R.Event) {
    line.nonce in w.l1.deposits && Asked(line) == Asked(DepositLine(w, line.nonce))
  }

  predicate BurnAgrees(w: World, line: R.Event) {
    line.nonce in w.l2.burns && AskedOfL1(line) == AskedOfL1(BurnLine(w, line.nonce))
  }

  /** What the programs' own lines ask for. */
  lemma OwnDepositLineAsks(w: World, n: nat)
    requires n in w.l1.deposits && n <= U64_MAX
    ensures Asked(DepositLine(w, n)) == Some(L2.Release(w.l1.deposits[n].recipient, R.ToL2(w.l1.deposits[n].amount)))
  {
    RoundTrip(w.l1.deposits[n].recipient);
  }

  lemma OwnBurnLineAsks(w: World, n: nat)
    requires n in w.l2.burns && n <= U64_MAX
    ensures AskedOfL1(BurnLine(w, n)) == Some(L2.Burn(w.l2.burns[n].recipient, R.ToL1(w.l2.burns[n].amount)))
  {
    RoundTrip(w.l2.burns[n].recipient);
  }

  /** Written as the program writes lines, with an amount that survives scaling, a line agrees only if it is the
      program's own. */
  lemma AgreeingLineIsTheOwnLine(w: World, line: R.Event, k: Key)
    requires line.recipient == Encoded(k) && line.amount * 1_000 <= U64_MAX
    requires line.nonce in w.l1.deposits && w.l1.deposits[line.nonce].amount * 1_000 <= U64_MAX
    ensures DepositAgrees(w, line) <==> line == DepositLine(w, line.nonce)
  {
    OwnDepositLineAsks(w, line.nonce);
    RoundTrip(k);
  }

  lemma AgreeingBurnLineIsTheOwnLine(w: World, line: R.Event, k: Key)
    requires line.recipient == Encoded(k) && L2.WholeUnits(line.amount)
    requires line.nonce in w.l2.burns && L2.WholeUnits(w.l2.burns[line.nonce].amount)
    ensures BurnAgrees(w, line) <==> line == BurnLine(w, line.nonce)
  {
    OwnBurnLineAsks(w, line.nonce);
    RoundTrip(k);
  }

  // ---------- One step ----------

  /** The relayer acted, and on a line that agrees; or it did not act. */
  predicate Agreed(w: World, c: Command) {
    && (c.RelayDeposit? && Perform(w, c) != w ==> DepositAgrees(w, c.line))
    && (c.RelayBurn? && Perform(w, c) != w ==> BurnAgrees(w, c.line))
  }

  lemma DepositLineDecides(w: World, c: Command)
    requires Kept(w) && Faithful(w) && c.RelayDeposit?
    ensures Faithful(Perform(w, c)) <==> Agreed(w, c)
  {
    ForwardingReleases(w, c.line, c.signature, c.confirmed, c.intoReserve, c.slot, c.rentMinimum);
    var w' := Perform(w, c);
    var n := c.line.nonce;
    if w' != w {
      assert w'.l2.processed == w.l2.processed[n := Asked(c.line).value];
      if n in w.l1.deposits {
        OwnDepositLineAsks(w, n);
      }
      assert ReleasesAnswerDeposits(w') <==> DepositAgrees(w, c.line) by {
        assert n in w'.l2.processed;
      }
    }
  }

  /** All a line can bring about on L1 is one withdrawal, of what it asks for, not opened before. */
  lemma ForwardingOpens(w: World, line: R.Event, confirmed: bool, now: i64)
    ensures var w' := ForwardBurn(w, line, confirmed, now);
            w' == w || (&& AskedOfL1(line).Some? && line.nonce !in w.l1.withdrawals
                        && w'.l1.deposits == w.l1.deposits && w'.l2 == w.l2
                        && line.nonce in w'.l1.withdrawals
                        && w'.l1.withdrawals == w.l1.withdrawals[line.nonce := w'.l1.withdrawals[line.nonce]]
                        && w'.l1.withdrawals[line.nonce].recipient == AskedOfL1(line).value.recipient
                        && w'.l1.withdrawals[line.nonce].amount == AskedOfL1(line).value.amount)
  {
  }

  lemma BurnLineDecides(w: World, c: Command)
    requires Kept(w) && Faithful(w) && c.RelayBurn?
    ensures Faithful(Perform(w, c)) <==> Agreed(w, c)
  {
    ForwardingOpens(w, c.line, c.confirmed, c.now);
    var w' := Perform(w, c);
    var n := c.line.nonce;
    if w' != w {
      if n in w.l2.burns {
        OwnBurnLineAsks(w, n);
      }
      assert WithdrawalsAnswerBurns(w') <==> BurnAgrees(w, c.line) by {
        assert n in w'.l1.withdrawals;
      }
    }
  }

  lemma VaultStepStaysFaithful(w: World, c: Command)
    requires Kept(w) && Faithful(w)
    requires c.Deposit? || c.DepositSol? || c.Gift? || c.CreateVault? || c.WithdrawSol? || c.ConfigureL1? || c.Initiate?
    ensures Faithful(Perform(w, c))
  {
  }

  /** Challenging and finalizing change a withdrawal's status and nothing it was opened with. */
  lemma StatusStepKeepsTerms(w: World, c: Command)
    requires c.Challenge? || c.Finalize? || c.FinalizeSol?
    ensures var w' := Perform(w, c);
            && w'.l2 == w.l2 && w'.l1.deposits == w.l1.deposits && w'.l1.withdrawals.Keys == w.l1.withdrawals.Keys
            && forall n | n in w.l1.withdrawals ::
                 && w'.l1.withdrawals[n].recipient == w.l1.withdrawals[n].recipient
                 && w'.l1.withdrawals[n].amount == w.l1.withdrawals[n].amount
  {
  }

  lemma StatusStepStaysFaithful(w: World, c: Command)
    requires Faithful(w) && (c.Challenge? || c.Finalize? || c.FinalizeSol?)
    ensures Faithful(Perform(w, c))
  {
    StatusStepKeepsTerms(w, c);
    var w' := Perform(w, c);
    forall n | n in w'.l1.withdrawals
      ensures n in w'.l2.burns && w'.l1.withdrawals[n].recipient == w'.l2.burns[n].recipient
              && w'.l1.withdrawals[n].amount == R.ToL1(w'.l2.burns[n].amount)
    {
    }
  }

  lemma ReserveStepStaysFaithful(w: World, c: Command)
    requires Kept(w) && Faithful(w)
    requires c.Fund? || c.Burn? || c.ConfigureL2? || c.Release? || c.Restart?
    ensures Faithful(Perform(w, c))
  {
    if c.ConfigureL2? || c.Release? || c.Restart? {
      SettingStepKeeps(w, c);
    } else {
      FundingStepGrows(w, c);
    }
  }

  lemma FundingStepGrows(w: World, c: Command)
    requires Kept(w) && (c.Fund? || c.Burn?)
    ensures Perform(w, c).l1 == w.l1 && Perform(w, c).l2.processed == w.l2.processed && Perform(w, c).b1 == w.b1
    ensures forall n | n in w.l2.burns :: n in Perform(w, c).l2.burns && Perform(w, c).l2.burns[n] == w.l2.burns[n]
  {
  }

  /** A faithful world stays faithful exactly if the step is not the relayer acting on a line that asks for
      anything else than the program's own. */
  lemma StepStaysFaithfulExactlyWhen(w: World, c: Command)
    requires Kept(w) && Faithful(w)
    ensures Faithful(Perform(w, c)) <==> Agreed(w, c)
  {
    if c.RelayDeposit? {
      DepositLineDecides(w, c);
    } else if c.RelayBurn? {
      BurnLineDecides(w, c);
    } else if c.Challenge? || c.Finalize? || c.FinalizeSol? {
      StatusStepStaysFaithful(w, c);
    } else if c.Fund? || c.Burn? || c.ConfigureL2? || c.Release? || c.Restart? {
      ReserveStepStaysFaithful(w, c);
    } else {
      VaultStepStaysFaithful(w, c);
    }
  }

  // ---------- Runs ----------

  /** Faithful after each of the commands. */
  ghost predicate AlwaysFaithful(w: World, cs: seq<Command>)
    decreases |cs|
  {
    Faithful(Run(w, cs)) && (cs != [] ==> AlwaysFaithful(w, cs[..|cs| - 1]))
  }

  /** Every line acted on agreed with the log when it was. */
  ghost predicate AllAgreed(w: World, cs: seq<Command>)
    decreases |cs|
  {
    cs == [] || (AllAgreed(w, cs[..|cs| - 1]) && Agreed(Run(w, cs[..|cs| - 1]), cs[|cs| - 1]))
  }

  lemma {:induction false} FaithfulExactlyWhen(w: World, cs: seq<Command>)
    requires Kept(w) && Faithful(w)
    ensures AlwaysFaithful(w, cs) <==> AllAgreed(w, cs)
    decreases |cs|
  {
    if cs != [] {
      var front := cs[..|cs| - 1];
      FaithfulExactlyWhen(w, front);
      RunKeeps(w, front);
      if AlwaysFaithful(w, front) {
        assert Faithful(Run(w, front));
        StepStaysFaithfulExactlyWhen(Run(w, front), cs[|cs| - 1]);
      }
    }
  }

  /** From the start of the bridge, under any relayer and with any lines in the logs: releases and withdrawals
      answer their events at every moment exactly if every line acted on asked for what the program's own line
      of its nonce asks for. Then recipients and amounts agree, and nonce 0 is never answered. */
  lemma EveryRelayIsFaithfulExactlyWhen(sequencer: Key, period: i64, relayer: Key, cs: seq<Command>)
    ensures var w0 := Start(sequencer, period, relayer);
            var w := Run(w0, cs);
            && (AlwaysFaithful(w0, cs) <==> AllAgreed(w0, cs))
            && (AllAgreed(w0, cs) ==>
                  && (forall n | n in w.l2.processed ::
                        && 0 < n < w.l1.depositNonce && n in w.l1.deposits
                        && w.l2.processed[n].recipient == w.l1.deposits[n].recipient
                        && w.l2.processed[n].amount == R.ToL2(w.l1.deposits[n].amount))
                  && (forall n | n in w.l1.withdrawals ::
                        && 0 < n < w.l2.withdrawNonce && n in w.l2.burns
                        && w.l1.withdrawals[n].recipient == w.l2.burns[n].recipient
                        && 1_000 * (w.l1.withdrawals[n].amount as int) == w.l2.burns[n].amount))
            && w.l2.reserve == w.b2.funded + w.b2.kept - w.l2.totalReleased + w.l2.totalReceived
  {
    var w0 := Start(sequencer, period, relayer);
    StartIsKept(sequencer, period, relayer);
    RunKeeps(w0, cs);
    FaithfulExactlyWhen(w0, cs);
    var w := Run(w0, cs);
    if AllAgreed(w0, cs) {
      assert Faithful(w);
      forall n | n in w.l1.withdrawals
        ensures n in w.l2.burns && 1_000 * (w.l1.withdrawals[n].amount as int) == w.l2.burns[n].amount
      {
        assert L2.WholeUnits(w.l2.burns[n].amount);
      }
    }
  }

  /** If the relayer acts only on the programs' own lines, every line acted on agrees. */
  lemma OwnLinesAgree(w: World, c: Command)
    requires c.RelayDeposit? ==> c.line.nonce in w.l1.deposits && c.line == DepositLine(w, c.line.nonce)
    requires c.RelayBurn? ==> c.line.nonce in w.l2.burns && c.line == BurnLine(w, c.line.nonce)
    ensures Agreed(w, c)
  {
  }
}

/** What the bridge's ledgers are worth together: how far MYTH circulating on L2 is backed by the L1 vault. */
module BridgeBacking {
  import opened Numbers
  import opened Totals
  import opened HexCodec
  import opened RateLimiter
  import L1 = BridgeL1
  import L2 = BridgeL2
  import R = Relayer
  import opened BridgeSystem
  import opened BridgeFaith

  /** For one nonce, in L2 units: what was taken in on one chain, and what was given for it on the other. */
  datatype Claim = Claim(taken: int, given: int)

  function OwedOf(c: Claim): int {
    if c.taken > c.given then c.taken - c.given else 0
  }

  function ExcessOf(c: Claim): int {
    if c.given > c.taken then c.given - c.taken else 0
  }

  /** Both sides of every nonce that occurs on either. */
  function Claims<A, B>(taken: map<nat, A>, f: A -> int, given: map<nat, B>, g: B -> int): map<nat, Claim> {
    map n | n in taken.Keys + given.Keys ::
      Claim(if n in taken then f(taken[n]) else 0, if n in given then g(given[n]) else 0)
  }

  function WorthOf(d: L1.Deposit): int {
    1_000 * L1.MythOf(d)
  }

  function PaidWorthOf(amount: u64): int {
    1_000 * L1.PaidOf(amount)
  }

  /** MYTH deposited and released, by deposit nonce; a release may lack a deposit. */
  function Releases(w: World): map<nat, Claim> {
    Claims(w.l1.deposits, WorthOf, w.l2.processed, L2.ReleasedOf)
  }

  /** MYTH burned and paid out, by burn nonce; a payment may lack a burn. */
  function Payouts(w: World): map<nat, Claim> {
    Claims(w.l2.burns, L2.BurnedOf, w.b1.paid, PaidWorthOf)
  }

  /** Net MYTH put into circulation on L2. */
  function Circulating(w: World): int {
    w.l2.totalReleased - w.l2.totalReceived
  }

  ghost function Owed(w: World): int {
    Total(Releases(w), OwedOf) + Total(Payouts(w), OwedOf)
  }

  /** Released or paid for a nonce beyond what was taken in for it. */
  ghost function Excess(w: World): int {
    Total(Releases(w), ExcessOf) + Total(Payouts(w), ExcessOf)
  }

  lemma ClaimsWithout<A, B>(taken: map<nat, A>, f: A -> int, given: map<nat, B>, g: B -> int, n: nat)
    ensures Claims(taken - {n}, f, given - {n}, g) == Claims(taken, f, given, g) - {n}
  {
  }

  lemma NoClaims<A, B>(taken: map<nat, A>, f: A -> int, given: map<nat, B>, g: B -> int)
    requires Claims(taken, f, given, g) == map[]
    ensures taken == map[] && given == map[]
  {
    assert taken.Keys + given.Keys == Claims(taken, f, given, g).Keys == {};
  }

  /** Owed less excess, entry by entry, is taken less given in total. */
  lemma {:induction false} ClaimsSplit<A, B>(taken: map<nat, A>, f: A -> int, given: map<nat, B>, g: B -> int)
    ensures var cs := Claims(taken, f, given, g);
            Total(cs, OwedOf) - Total(cs, ExcessOf) == Total(taken, f) - Total(given, g)
    decreases |Claims(taken, f, given, g)|
  {
    var cs := Claims(taken, f, given, g);
    if cs == map[] {
      NoClaims(taken, f, given, g);
    } else {
      var n :| n in cs;
      ClaimsWithout(taken, f, given, g, n);
      assert (cs - {n}).Keys < cs.Keys;
      ClaimsSplit(taken - {n}, f, given - {n}, g);
      OneClaim(taken, f, given, g, n);
    }
  }

  /** What one nonce contributes to either side. */
  lemma OneClaim<A, B>(taken: map<nat, A>, f: A -> int, given: map<nat, B>, g: B -> int, n: nat)
    requires n in Claims(taken, f, given, g)
    ensures var cs := Claims(taken, f, given, g);
            (Total(cs, OwedOf) - Total(cs - {n}, OwedOf)) - (Total(cs, ExcessOf) - Total(cs - {n}, ExcessOf))
            == (Total(taken, f) - Total(taken - {n}, f)) - (Total(given, g) - Total(given - {n}, g))
  {
    var cs := Claims(taken, f, given, g);
    TotalWithout(cs, n, OwedOf);
    TotalWithout(cs, n, ExcessOf);
    TotalWithout(taken, n, f);
    TotalWithout(given, n, g);
  }

  /** The vault, in L2 units, is exactly what circulates plus what is still owed for deposits and burns and what
      it was given, less what was given out in excess of them; whatever the relayer acted on. */
  lemma VaultIdentity(w: World)
    requires Kept(w)
    ensures 1_000 * L1.MythIn(w.l1.vaults) == Circulating(w) + Owed(w) - Excess(w) + 1_000 * w.b1.extra
  {
    ClaimsSplit(w.l1.deposits, WorthOf, w.l2.processed, L2.ReleasedOf);
    ClaimsSplit(w.l2.burns, L2.BurnedOf, w.b1.paid, PaidWorthOf);
    TotalScaled(w.l1.deposits, 1_000, L1.MythOf, WorthOf);
    TotalScaled(w.b1.paid, 1_000, L1.PaidOf, PaidWorthOf);
  }

  lemma OwedIsNonnegative(w: World)
    ensures Owed(w) >= 0 && Excess(w) >= 0
  {
    TotalNonnegative(Releases(w), OwedOf);
    TotalNonnegative(Releases(w), ExcessOf);
    TotalNonnegative(Payouts(w), OwedOf);
    TotalNonnegative(Payouts(w), ExcessOf);
  }

  // ---------- When nothing is in excess ----------

  ghost predicate OnlyMythReleased(w: World) {
    forall n | n in w.l2.processed && n in w.l1.deposits :: w.l1.deposits[n].mint.Myth?
  }

  lemma FaithfulReleasesAreCovered(w: World)
    requires ReleasesAnswerDeposits(w) && OnlyMythReleased(w)
    ensures Total(Releases(w), ExcessOf) == 0
  {
    TotalZero(Releases(w), ExcessOf);
  }

  lemma FaithfulPayoutsAreCovered(w: World)
    requires Kept(w) && WithdrawalsAnswerBurns(w)
    ensures Total(Payouts(w), ExcessOf) == 0
  {
    var cs := Payouts(w);
    forall n | n in cs
      ensures ExcessOf(cs[n]) == 0
    {
      if n in w.b1.paid {
        assert n in w.l1.withdrawals && n in w.l2.burns && L2.WholeUnits(w.l2.burns[n].amount);
      }
    }
    TotalZero(cs, ExcessOf);
  }

  /** Backing, after any run of both chains under any relayer and any lines in the logs: it holds exactly when
      what was given out in excess does not exceed what is still owed and what the vault was given. Nothing is
      in excess if every line acted on agreed with the program's own and only MYTH deposits were answered. */
  lemma CirculationIsBackedExactlyWhen(sequencer: Key, period: i64, relayer: Key, cs: seq<Command>)
    ensures var w0 := Start(sequencer, period, relayer);
            var w := Run(w0, cs);
            && (1_000 * L1.MythIn(w.l1.vaults) >= Circulating(w) <==> Excess(w) <= Owed(w) + 1_000 * w.b1.extra)
            && (AllAgreed(w0, cs) && OnlyMythReleased(w) ==>
                  Excess(w) == 0 && 1_000 * L1.MythIn(w.l1.vaults) >= Circulating(w))
  {
    var w0 := Start(sequencer, period, relayer);
    StartIsKept(sequencer, period, relayer);
    RunKeeps(w0, cs);
    var w := Run(w0, cs);
    VaultIdentity(w);
    OwedIsNonnegative(w);
    if AllAgreed(w0, cs) && OnlyMythReleased(w) {
      FaithfulExactlyWhen(w0, cs);
      assert Faithful(w);
      FaithfulReleasesAreCovered(w);
      FaithfulPayoutsAreCovered(w);
    }
  }

  // ---------- Runs that are not backed ----------

  lemma RunOfFour(w: World, a: Command, b: Command, c: Command, d: Command)
    ensures Run(w, [a, b]) == Perform(Perform(w, a), b)
    ensures Run(w, [a, b, c]) == Perform(Perform(Perform(w, a), b), c)
    ensures Run(w, [a, b, c, d]) == Perform(Perform(Perform(Perform(w, a), b), c), d)
  {
    var cs := [a, b, c, d];
    assert cs[..3] == [a, b, c] && [a, b, c][..2] == [a, b] && [a, b][..1] == [a] && [a][..0] == [];
    assert Run(w, [a]) == Perform(Run(w, []), a);
    assert Run(w, [a, b]) == Perform(Run(w, [a]), b);
    assert Run(w, [a, b, c]) == Perform(Run(w, [a, b]), c);
  }

  /** A line for ten million units at a nonce not yet answered, on a bridge that has only been funded. */
  lemma FundedReserveAnswers(w: World, nonce: u64, user: Key)
    requires w.l2 == L2.Initialize(w.l2.relayer).(reserve := 20_000_000_000) && w.lastDeposit == 0 && nonce > 0
    ensures var w' := Perform(w, RelayDeposit(R.Event(nonce, Encoded(user), 10_000_000), [], true, false, 0, 0));
            && w'.l1 == w.l1 && w'.l2.processed == map[nonce := L2.Release(user, 10_000_000_000)]
            && w'.l2.totalReleased == 10_000_000_000 && w'.l2.totalReceived == 0
  {
    RoundTrip(user);
    var d := L2.Release(user, 10_000_000_000);
    var step := L2.ReleaseBridged(w.l2, w.l2.relayer, nonce, d, [], L2.Sha256([], nonce, d.amount, user), false, 0, 0);
    assert step.Ok? && step.value.processed == map[nonce := d];
  }

  /** A line nobody deposited for: printed by another program in a transaction that names the bridge, it is
      parsed and acted on like any other. */
  lemma ForeignLineReleasesUnbackedMyth(sequencer: Key, relayer: Key, user: Key)
    ensures var line := R.Event(7, Encoded(user), 10_000_000);
            var cs := [Fund(20_000_000_000, 20_000_000_000), RelayDeposit(line, [], true, false, 0, 0)];
            var w := Run(Start(sequencer, 1, relayer), cs);
            && w.l1.deposits == map[] && w.l2.processed == map[7 := L2.Release(user, 10_000_000_000)]
            && !ReleasesAnswerDeposits(w)
            && Circulating(w) == 10_000_000_000 && L1.MythIn(w.l1.vaults) == 0
  {
    var fund, relay := Fund(20_000_000_000, 20_000_000_000),
                       RelayDeposit(R.Event(7, Encoded(user), 10_000_000), [], true, false, 0, 0);
    var w0 := Start(sequencer, 1, relayer);
    var w1 := Perform(w0, fund);
    assert w1.l2 == L2.Initialize(relayer).(reserve := 20_000_000_000) && w1.l1 == w0.l1;
    FundedReserveAnswers(w1, 7, user);
    RunOfFour(w0, fund, relay, relay, relay);
    assert 7 in Perform(w1, relay).l2.processed;
  }

  lemma TwoSolDeposits(sequencer: Key, relayer: Key, user: Key)
    ensures var c := DepositSol(0, 10_000_000, user, 10_000_000);
            var w := Perform(Perform(Start(sequencer, 1, relayer), c), c);
            && w.l2 == L2.Initialize(relayer) && w.lastDeposit == 0 && 1 in w.l1.deposits
            && w.l1.deposits[1] == L1.Deposit(L1.NativeSol, 10_000_000, user) && w.l1.vaults == map[]
  {
    var l0 := L1.Initialize(sequencer, 1);
    var l1 := L1.DepositSol(l0, 0, 10_000_000, user, 10_000_000);
    assert l1.Ok? && l1.value.depositNonce == 1 && l1.value.limiter == Limiter(10_000_000, 0)
           && l1.value.vaults == map[];
  }

  /** The relayer does not look at the token: two SOL deposits and a funded reserve are enough to put MYTH into
      circulation that nothing in the vault stands behind, on the program's own line. */
  lemma SolDepositReleasesUnbackedMyth(sequencer: Key, relayer: Key, user: Key)
    ensures var deposit := DepositSol(0, 10_000_000, user, 10_000_000);
            var line := R.Event(1, Encoded(user), 10_000_000);
            var cs := [deposit, deposit, Fund(20_000_000_000, 20_000_000_000),
                       RelayDeposit(line, [], true, false, 0, 0)];
            var w := Run(Start(sequencer, 1, relayer), cs);
            && 1 in w.l1.deposits && line == DepositLine(w, 1)
            && Circulating(w) == 10_000_000_000 && L1.MythIn(w.l1.vaults) == 0
  {
    var deposit := DepositSol(0, 10_000_000, user, 10_000_000);
    var fund, relay := Fund(20_000_000_000, 20_000_000_000),
                       RelayDeposit(R.Event(1, Encoded(user), 10_000_000), [], true, false, 0, 0);
    var w0 := Start(sequencer, 1, relayer);
    TwoSolDeposits(sequencer, relayer, user);
    var w2 := Perform(Perform(w0, deposit), deposit);
    var w3 := Perform(w2, fund);
    assert w3.l2 == w2.l2.(reserve := 20_000_000_000) && w3.l1 == w2.l1;
    FundedReserveAnswers(w3, 1, user);
    RunOfFour(w0, deposit, deposit, fund, relay);
  }

  // ---------- Records ----------

  /** Nothing recorded is ever taken back: events stay in the logs, each nonce keeps the one release it had, and
      a withdrawal that left the pending state, challenged or final, never changes again. */
  ghost predicate Extends(w: World, w': World) {
    && (forall n | n in w.l1.deposits :: n in w'.l1.deposits && w'.l1.deposits[n] == w.l1.deposits[n])
    && (forall n | n in w.l2.processed :: n in w'.l2.processed && w'.l2.processed[n] == w.l2.processed[n])
    && (forall n | n in w.l2.burns :: n in w'.l2.burns && w'.l2.burns[n] == w.l2.burns[n])
    && (forall n | n in w.b1.paid :: n in w'.b1.paid && w'.b1.paid[n] == w.b1.paid[n])
    && (forall n | n in w.l1.withdrawals && !w.l1.withdrawals[n].status.Pending? ::
          n in w'.l1.withdrawals && w'.l1.withdrawals[n] == w.l1.withdrawals[n])
  }

  /** What the records need: new entries go where none were. */
  ghost predicate FreshNonces(w: World) {
    && (forall n: nat :: n in w.l1.deposits <==> n < w.l1.depositNonce)
    && (forall n: nat :: n in w.l2.burns <==> n < w.l2.withdrawNonce)
    && (forall n | n in w.b1.paid :: n in w.l1.withdrawals && !w.l1.withdrawals[n].status.Pending?)
  }

  lemma VaultStepExtends(w: World, c: Command)
    requires FreshNonces(w)
    requires c.Deposit? || c.DepositSol? || c.Gift? || c.CreateVault? || c.WithdrawSol? || c.ConfigureL1?
    ensures Extends(w, Perform(w, c))
  {
  }

  lemma FilingExtends(w: World, c: Command)
    requires FreshNonces(w) && (c.Initiate? || c.Challenge? || c.FinalizeSol?)
    ensures Extends(w, Perform(w, c))
  {
  }

  lemma PayoutExtends(w: World, c: Command)
    requires FreshNonces(w) && (c.Finalize? || c.RelayBurn?)
    ensures Extends(w, Perform(w, c))
  {
  }

  lemma ReserveStepExtends(w: World, c: Command)
    requires Kept(w) && (c.Fund? || c.Release? || c.Burn? || c.ConfigureL2? || c.Restart?)
    ensures Extends(w, Perform(w, c))
  {
    if c.ConfigureL2? || c.Release? || c.Restart? {
      SettingStepKeeps(w, c);
    } else {
      FundingStepGrows(w, c);
    }
  }

  lemma RelayDepositExtends(w: World, c: Command)
    requires c.RelayDeposit?
    ensures Extends(w, Perform(w, c))
  {
    ForwardingReleases(w, c.line, c.signature, c.confirmed, c.intoReserve, c.slot, c.rentMinimum);
  }

  lemma StepExtends(w: World, c: Command)
    requires Kept(w)
    ensures Extends(w, Perform(w, c))
  {
    assert FreshNonces(w);
    if c.Initiate? || c.Challenge? || c.FinalizeSol? {
      FilingExtends(w, c);
    } else if c.Finalize? || c.RelayBurn? {
      PayoutExtends(w, c);
    } else if c.RelayDeposit? {
      RelayDepositExtends(w, c);
    } else if c.Fund? || c.Release? || c.Burn? || c.ConfigureL2? || c.Restart? {
      ReserveStepExtends(w, c);
    } else {
      VaultStepExtends(w, c);
    }
  }

  lemma {:induction false} RunExtends(w: World, cs: seq<Command>)
    requires Kept(w)
    ensures Extends(w, Run(w, cs))
    decreases |cs|
  {
    if cs != [] {
      RunExtends(w, cs[..|cs| - 1]);
      RunKeeps(w, cs[..|cs| - 1]);
      StepExtends(Run(w, cs[..|cs| - 1]), cs[|cs| - 1]);
    }
  }

  /** A withdrawal that someone challenges stays challenged through every later run: it is opened for a burn of
      a million units, challenged in time with the minimum bond, and can never be finalized, deadline or not. */
  lemma ChallengedWithdrawalIsStuck(sequencer: Key, relayer: Key, user: Key, cs: seq<Command>, now: i64)
    ensures var burn := Burn(L2.Burn(user, 1_000_000), 1_000_000);
            var relay := RelayBurn(R.Event(1, Encoded(user), 1_000_000), true, 0);
            var w := Run(Start(sequencer, 10, relayer), [burn, burn, relay, Challenge(1, false, 9, 100_000_000)]);
            var w' := Run(w, cs);
            && 1 in w'.l1.withdrawals && w'.l1.withdrawals[1] == L1.Withdrawal(user, 1_000, L1.Myth, 10, L1.Challenged)
            && L1.FinalizeWithdrawal(w'.l1, 1, L1.Myth, user, false, now).Err?
            && L1.FinalizeSolWithdrawal(w'.l1, 1, user, false, now).Err?
  {
    var burn := Burn(L2.Burn(user, 1_000_000), 1_000_000);
    var relay := RelayBurn(R.Event(1, Encoded(user), 1_000_000), true, 0);
    var challenge := Challenge(1, false, 9, 100_000_000);
    var w0 := Start(sequencer, 10, relayer);
    RunOfFour(w0, burn, burn, relay, challenge);
    var w := Run(w0, [burn, burn, relay, challenge]);
    StartIsKept(sequencer, 10, relayer);
    RunKeeps(w0, [burn, burn, relay, challenge]);
    OpenedAndChallenged(w0, user);
    RunExtends(w, cs);
  }

  lemma TwoBurns(w0: World, user: Key)
    requires w0 == Start(w0.l1.sequencer, 10, w0.l2.relayer)
    ensures var burn := Burn(L2.Burn(user, 1_000_000), 1_000_000);
            var w := Perform(Perform(w0, burn), burn);
            w.l1 == w0.l1 && w.lastBurn == 0 && 1 in w.l2.burns
  {
    var burn := L2.Burn(user, 1_000_000);
    var once := L2.BridgeToL1(w0.l2, burn, 1_000_000);
    assert once.Ok? && once.value.withdrawNonce == 1 && once.value.reserve == 1_000_000;
  }

  lemma OpenedAndChallenged(w0: World, user: Key)
    requires w0 == Start(w0.l1.sequencer, 10, w0.l2.relayer)
    ensures var burn := Burn(L2.Burn(user, 1_000_000), 1_000_000);
            var relay := RelayBurn(R.Event(1, Encoded(user), 1_000_000), true, 0);
            var w := Perform(Perform(Perform(Perform(w0, burn), burn), relay), Challenge(1, false, 9, 100_000_000));
            1 in w.l1.withdrawals && w.l1.withdrawals[1] == L1.Withdrawal(user, 1_000, L1.Myth, 10, L1.Challenged)
  {
    var burn := Burn(L2.Burn(user, 1_000_000), 1_000_000);
    TwoBurns(w0, user);
    OpenedForLine(Perform(Perform(w0, burn), burn), user);
    assert L1.Bond(1_000) == Ok(100_000_000);
  }

  lemma OpenedForLine(w: World, user: Key)
    requires w.l1 == L1.Initialize(w.l1.sequencer, 10).(vaults := w.l1.vaults) && w.lastBurn == 0
    ensures Perform(w, RelayBurn(R.Event(1, Encoded(user), 1_000_000), true, 0)).l1
            == w.l1.(withdrawals := map[1 := L1.Withdrawal(user, 1_000, L1.Myth, 10, L1.Pending)])
  {
    RoundTrip(user);
  }
}

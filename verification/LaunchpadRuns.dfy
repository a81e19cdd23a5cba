/** What every run of one launch keeps: reserves on the curve and conserved MYTH; and when its vault holds exactly what
    the launch account says. */
module LaunchpadRuns {
  import opened Numbers
  import opened Curve
  import opened Launchpad

  datatype Command =
    | BuyCommand(cfg: Config, buy: BuyArgs)
    | SellCommand(cfg: Config, sell: SellArgs)
    | GraduateCommand(counters: Counters, distribution: GraduateArgs)
    | ClaimCommand(claim: ClaimArgs)
    | GiftCommand(gift: u64)
    | BurnCommand(tokens: u64)

  function Execute(s: State, c: Command): Step {
    match c
    case BuyCommand(cfg, a) => Buy(s, cfg, a)
    case SellCommand(cfg, a) => Sell(s, cfg, a)
    case GraduateCommand(c, a) => Graduate(s, c, a)
    case ClaimCommand(a) => ClaimCreatorFee(s, a)
    case GiftCommand(amount) => Gift(s, amount)
    case BurnCommand(amount) => Burn(s, amount)
  }

  /** A refused instruction reverts, leaving the state as it was. */
  function After(s: State, c: Command): State {
    var r := Execute(s, c);
    if r.Ok? then r.value else s
  }

  function Run(s: State, cs: seq<Command>): State
    decreases |cs|
  {
    if cs == [] then s else Run(After(s, cs[0]), cs[1..])
  }

  // ---------- Invariant ----------

  /** The reserves mirror what was sold and collected, and stay near the original hyperbola. */
  predicate OnCurve(l: Launch) {
    && l.maxSupply > 0 && l.initialQuote > 0
    && l.k == l.maxSupply * l.initialQuote && l.k > 0
    && l.reserves.base == l.maxSupply - l.tokensSold
    && l.reserves.quote == l.initialQuote + l.mythCollected
    && l.reserves.base > 0
    && Near(l.reserves, l.k)
    && (l.tokensSold > 0 ==> PriceFits(l.reserves))
  }

  /** Every MYTH that came in is in exactly one place, every token sold or minted for the DEX exists or was burned, and
      until the payout the vault should hold exactly the collected MYTH plus the accrued creator fees. */
  predicate Balanced(s: State) {
    var l, b := s.launch, s.books;
    && b.paidIn == b.vault + b.foundation + b.creator + b.dexMyth + b.paidOut
    && b.supply + b.burned == l.tokensSold + b.dexTokens
    && (!l.creatorFeeClaimed ==> b.due == l.mythCollected + l.creatorFee && b.dexTokens == 0)
    && (l.creatorFeeClaimed ==> l.status == Graduated)
  }

  predicate Good(s: State) {
    OnCurve(s.launch) && Balanced(s)
  }

  /** The vault holds what it should. */
  predicate Square(s: State) {
    s.books.vault == s.books.due
  }

  lemma OpeningPrice(x: u64, y: u64, k: u128, effective: u64)
    requires x > 0 && y > 0 && k == x * y && CalculateBuyOutput(Reserves(x, y), k, effective).Ok?
    ensures k > 0 && var after := CalculateBuyOutput(Reserves(x, y), k, effective).value.after;
                     Near(after, k) && (PriceFits(after) ==> after.base > 0)
  {
    MulMono(x, 1, y);
    OpeningReservesAreNear(x, y);
    BuyStaysNear(Reserves(x, y), k, effective);
  }

  lemma ProductIsPositive(x: u64, y: u64)
    requires x > 0 && y > 0
    ensures x * y > 0
  {
    MulMono(x, 1, y);
  }

  lemma CreateIsGood(cfg: Config, a: CreateArgs, c: Counters)
    requires Create(cfg, a, c).Ok?
    ensures Good(Create(cfg, a, c).value)
    ensures var s := Create(cfg, a, c).value;
            && s.books.paidIn == a.creationFee + a.creatorBuy <= a.funds
            && a.creatorBuy * cfg.feeBps
               < 10_000 * (a.creatorBuy - s.launch.mythCollected) + 10_000 <= a.creatorBuy * cfg.feeBps + 10_000
  {
    FeeRoundsDown(a.creatorBuy, cfg.feeBps);
    OpeningReservesAreNear(a.maxSupply, a.initialQuote);
    ProductIsPositive(a.maxSupply, a.initialQuote);
    ProductFits(a.maxSupply, a.initialQuote);
    if a.creatorBuy > 0 {
      var k: u128 := a.maxSupply * a.initialQuote;
      OpeningPrice(a.maxSupply, a.initialQuote, k, a.creatorBuy - CalculateFee(a.creatorBuy, cfg.feeBps));
    }
  }

  /** A trade moves reserves, ledger and books one for one, whatever accounts it names: what is due moves with what was
      collected, and every MYTH that moves ends up somewhere. */
  predicate Trades(s: State, t: State) {
    var l, m, b, c := s.launch, t.launch, s.books, t.books;
    && l.status == Active
    && m.k == l.k && m.maxSupply == l.maxSupply && m.initialQuote == l.initialQuote
    && m.creatorFeeClaimed == l.creatorFeeClaimed
    && m.reserves.base + m.tokensSold == l.reserves.base + l.tokensSold
    && m.reserves.quote - m.mythCollected == l.reserves.quote - l.mythCollected
    && c.supply - b.supply == m.tokensSold - l.tokensSold && c.dexTokens == b.dexTokens && c.burned == b.burned
    && c.due - b.due == m.mythCollected - l.mythCollected + m.creatorFee - l.creatorFee
    && c.creator == b.creator && c.dexMyth == b.dexMyth
    && c.paidIn - b.paidIn == c.vault - b.vault + c.foundation - b.foundation + c.paidOut - b.paidOut
  }

  lemma TradeKeepsGood(s: State, t: State)
    requires Good(s) && Trades(s, t)
    requires Near(t.launch.reserves, t.launch.k) && t.launch.reserves.base > 0 && PriceFits(t.launch.reserves)
    ensures Good(t)
  {
  }

  lemma BuyTrades(s: State, cfg: Config, a: BuyArgs)
    requires Buy(s, cfg, a).Ok?
    ensures Trades(s, Buy(s, cfg, a).value) && PriceFits(Buy(s, cfg, a).value.launch.reserves)
    ensures var effective := a.mythAmount - CalculateFee(a.mythAmount, cfg.feeBps);
            var fill := CalculateBuyOutput(s.launch.reserves, s.launch.k, effective);
            fill.Ok? && Buy(s, cfg, a).value.launch.reserves == fill.value.after
  {
  }

  lemma SellTrades(s: State, cfg: Config, a: SellArgs)
    requires Sell(s, cfg, a).Ok?
    ensures Trades(s, Sell(s, cfg, a).value) && PriceFits(Sell(s, cfg, a).value.launch.reserves)
    ensures var fill := CalculateSellOutput(s.launch.reserves, s.launch.k, a.tokenAmount);
            fill.Ok? && Sell(s, cfg, a).value.launch.reserves == fill.value.after
  {
  }

  lemma MovedBy(vault: u64, from: Source, intoVault: bool, amount: u64)
    requires Moved(vault, from, intoVault, amount).Ok?
    ensures Moved(vault, from, intoVault, amount).value
            == vault - Left(from, intoVault, amount) + Came(from, intoVault, amount)
  {
  }

  lemma DistributedBy(vault: u64, a: GraduateArgs, p: Shares)
    requires Distributed(vault, a, p).Ok?
    ensures Distributed(vault, a, p).value
            == vault - Left(a.from, a.dexIntoVault, p.dex) + Came(a.from, a.dexIntoVault, p.dex)
               - Left(a.from, a.creatorIntoVault, p.creator) + Came(a.from, a.creatorIntoVault, p.creator)
               - Left(a.from, a.foundationIntoVault, p.foundation) + Came(a.from, a.foundationIntoVault, p.foundation)
  {
  }

  lemma BuyKeepsGood(s: State, cfg: Config, a: BuyArgs)
    requires Good(s) && Buy(s, cfg, a).Ok?
    ensures Good(Buy(s, cfg, a).value)
  {
    BuyTrades(s, cfg, a);
    BuyStaysNear(s.launch.reserves, s.launch.k, a.mythAmount - CalculateFee(a.mythAmount, cfg.feeBps));
    TradeKeepsGood(s, Buy(s, cfg, a).value);
  }

  lemma SellKeepsGood(s: State, cfg: Config, a: SellArgs)
    requires Good(s) && Sell(s, cfg, a).Ok?
    ensures Good(Sell(s, cfg, a).value)
  {
    SellTrades(s, cfg, a);
    SellStaysNear(s.launch.reserves, s.launch.k, a.tokenAmount);
    TradeKeepsGood(s, Sell(s, cfg, a).value);
  }

  lemma GraduateKeepsGood(s: State, c: Counters, a: GraduateArgs)
    requires Good(s) && Graduate(s, c, a).Ok?
    ensures Good(Graduate(s, c, a).value)
  {
    DistributedBy(s.books.vault, a, SharesOf(s.launch.mythCollected));
  }

  lemma OthersKeepGood(s: State, c: Command)
    requires Good(s) && (c.ClaimCommand? || c.GiftCommand? || c.BurnCommand?)
    ensures Good(After(s, c))
  {
  }

  lemma StepKeepsGood(s: State, c: Command)
    requires Good(s)
    ensures Good(After(s, c))
  {
    if Execute(s, c).Ok? {
      match c {
        case BuyCommand(cfg, a) => BuyKeepsGood(s, cfg, a);
        case SellCommand(cfg, a) => SellKeepsGood(s, cfg, a);
        case GraduateCommand(counters, a) => GraduateKeepsGood(s, counters, a);
        case _ => OthersKeepGood(s, c);
      }
    }
  }

  lemma {:induction false} RunKeepsGood(s: State, cs: seq<Command>)
    requires Good(s)
    ensures Good(Run(s, cs))
    decreases |cs|
  {
    if cs != [] {
      StepKeepsGood(s, cs[0]);
      RunKeepsGood(After(s, cs[0]), cs[1..]);
    }
  }

  // ---------- The vault ----------

  /** A transfer that should have left the vault, and what of it did not. */
  function Astray(from: Source, intoVault: bool, amount: u64): int {
    amount - Left(from, intoVault, amount) + Came(from, intoVault, amount)
  }

  /** How far an instruction that succeeds moves the vault away from what it should hold. */
  function Drift(s: State, c: Command): int
    requires Execute(s, c).Ok?
  {
    match c
    case BuyCommand(cfg, a) =>
      var fee := CalculateFee(a.mythAmount, cfg.feeBps);
      var share := CreatorShare(fee);
      Part(a.feeIntoVault, fee - share) - Part(!a.ownVault, a.mythAmount - fee + share)
    case SellCommand(cfg, a) =>
      var gross := CalculateSellOutput(s.launch.reserves, s.launch.k, a.tokenAmount).value.out;
      var fee := CalculateFee(gross, cfg.feeBps);
      Astray(a.from, a.netIntoVault, gross - fee) + Astray(a.from, a.feeIntoVault, fee - CreatorShare(fee))
    case GraduateCommand(_, a) =>
      var p := SharesOf(s.launch.mythCollected);
      Astray(a.from, a.dexIntoVault, p.dex) + Astray(a.from, a.creatorIntoVault, p.creator)
      + Astray(a.from, a.foundationIntoVault, p.foundation)
    case ClaimCommand(a) => Astray(a.from, a.intoVault, s.launch.creatorFee)
    case GiftCommand(amount) => amount
    case BurnCommand(_) => 0
  }

  /** The instruction names the launch's own vault where the vault is meant, and nowhere else, unless nothing moves. */
  predicate Linked(s: State, c: Command)
    requires Execute(s, c).Ok?
  {
    match c
    case BuyCommand(cfg, a) => a.ownVault && (a.feeIntoVault ==> CalculateFee(a.mythAmount, cfg.feeBps) == 0)
    case SellCommand(cfg, a) =>
      var gross := CalculateSellOutput(s.launch.reserves, s.launch.k, a.tokenAmount).value.out;
      || gross == 0
      || (a.from.OwnVault? && !a.netIntoVault && (a.feeIntoVault ==> CalculateFee(gross, cfg.feeBps) == 0))
    case GraduateCommand(_, a) =>
      var p := SharesOf(s.launch.mythCollected);
      || s.launch.mythCollected == 0
      || (a.from.OwnVault? && (a.dexIntoVault ==> p.dex == 0) && (a.creatorIntoVault ==> p.creator == 0)
          && (a.foundationIntoVault ==> p.foundation == 0))
    case ClaimCommand(a) => a.from.OwnVault? && !a.intoVault
    case GiftCommand(amount) => amount == 0
    case BurnCommand(_) => true
  }

  lemma FeeAndShare(amount: u64, bps: FeeBps)
    ensures var fee := CalculateFee(amount, bps);
            && (fee - CreatorShare(fee) == 0 <==> fee == 0) && (amount > 0 ==> fee - CreatorShare(fee) < amount - fee)
  {
  }

  predicate DriftsBy(s: State, c: Command)
    requires Execute(s, c).Ok?
  {
    var b, d := s.books, Execute(s, c).value.books;
    d.vault - d.due == b.vault - b.due + Drift(s, c) && (Drift(s, c) == 0 <==> Linked(s, c))
  }

  lemma BuyDrift(s: State, c: Command)
    requires c.BuyCommand? && Execute(s, c).Ok?
    ensures DriftsBy(s, c)
  {
    FeeAndShare(c.buy.mythAmount, c.cfg.feeBps);
  }

  lemma SellDrift(s: State, c: Command)
    requires c.SellCommand? && Execute(s, c).Ok?
    ensures DriftsBy(s, c)
  {
    FeeAndShare(CalculateSellOutput(s.launch.reserves, s.launch.k, c.sell.tokenAmount).value.out, c.cfg.feeBps);
  }

  /** The three payments all arrive outside exactly if those that move anything leave the vault and do not return. */
  lemma SharesAstray(a: GraduateArgs, p: Shares)
    ensures Astray(a.from, a.dexIntoVault, p.dex) + Astray(a.from, a.creatorIntoVault, p.creator)
            + Astray(a.from, a.foundationIntoVault, p.foundation) == 0
            <==> || (p.dex == 0 && p.creator == 0 && p.foundation == 0)
                 || (a.from.OwnVault? && (a.dexIntoVault ==> p.dex == 0) && (a.creatorIntoVault ==> p.creator == 0)
                     && (a.foundationIntoVault ==> p.foundation == 0))
  {
  }

  lemma NoShares(collected: u64)
    ensures var p := SharesOf(collected);
            && p.dex + p.creator + p.foundation == collected
            && (collected == 0 <==> p.dex == 0 && p.creator == 0 && p.foundation == 0)
  {
  }

  lemma GraduateDrift(s: State, c: Command)
    requires c.GraduateCommand? && Execute(s, c).Ok?
    ensures DriftsBy(s, c)
  {
    DistributedBy(s.books.vault, c.distribution, SharesOf(s.launch.mythCollected));
    SharesAstray(c.distribution, SharesOf(s.launch.mythCollected));
    NoShares(s.launch.mythCollected);
  }

  /** The drift is exactly the change of the difference, and it is zero exactly if the accounts are the right ones. */
  lemma DriftIsZeroExactlyWhen(s: State, c: Command)
    requires Execute(s, c).Ok?
    ensures var b, d := s.books, After(s, c).books;
            d.vault - d.due == b.vault - b.due + Drift(s, c)
    ensures Drift(s, c) == 0 <==> Linked(s, c)
  {
    match c {
      case BuyCommand(_, _) => BuyDrift(s, c);
      case SellCommand(_, _) => SellDrift(s, c);
      case GraduateCommand(_, _) => GraduateDrift(s, c);
      case _ => assert DriftsBy(s, c);
    }
  }

  /** Whatever accounts are named: the difference is the sum of the drifts. */
  function TotalDrift(s: State, cs: seq<Command>): int
    decreases |cs|
  {
    if cs == [] then 0 else
      (if Execute(s, cs[0]).Ok? then Drift(s, cs[0]) else 0) + TotalDrift(After(s, cs[0]), cs[1..])
  }

  lemma {:induction false} DriftsAddUp(s: State, cs: seq<Command>)
    ensures var b, d := s.books, Run(s, cs).books; d.vault - d.due == b.vault - b.due + TotalDrift(s, cs)
    decreases |cs|
  {
    if cs != [] {
      if Execute(s, cs[0]).Ok? {
        DriftIsZeroExactlyWhen(s, cs[0]);
      }
      DriftsAddUp(After(s, cs[0]), cs[1..]);
    }
  }

  predicate AlwaysSquare(s: State, cs: seq<Command>)
    decreases |cs|
  {
    Square(s) && (cs != [] ==> AlwaysSquare(After(s, cs[0]), cs[1..]))
  }

  predicate AllLinked(s: State, cs: seq<Command>)
    decreases |cs|
  {
    cs == [] || ((Execute(s, cs[0]).Ok? ==> Linked(s, cs[0])) && AllLinked(After(s, cs[0]), cs[1..]))
  }

  /** The vault holds what it should at every moment exactly if every instruction that succeeded named the right
      accounts. */
  lemma {:induction false} SquareExactlyWhen(s: State, cs: seq<Command>)
    requires Square(s)
    ensures AlwaysSquare(s, cs) <==> AllLinked(s, cs)
    decreases |cs|
  {
    if cs != [] {
      if Execute(s, cs[0]).Ok? {
        DriftIsZeroExactlyWhen(s, cs[0]);
      }
      if Square(After(s, cs[0])) {
        SquareExactlyWhen(After(s, cs[0]), cs[1..]);
      }
    }
  }

  /** Whatever instructions follow a creation, with any accounts, fees, pauses and refusals: the reserves mirror the
      ledger near the original hyperbola, the quote never drops below its opening value, and every MYTH that came in is
      accounted for. The vault differs from what the ledger says by exactly the drifts; and if the creation's fees went
      elsewhere, it never differs exactly if every instruction that succeeded named the right accounts. */
  lemma EveryReachableLaunch(cfg: Config, a: CreateArgs, c: Counters, cs: seq<Command>)
    requires Create(cfg, a, c).Ok?
    ensures var s0 := Create(cfg, a, c).value;
            var s := Run(s0, cs);
            && OnCurve(s.launch) && s.launch.k == a.maxSupply * a.initialQuote
            && a.initialQuote <= s.launch.reserves.quote && s.launch.tokensSold < a.maxSupply
            && Balanced(s)
            && s.books.vault - s.books.due
               == TotalDrift(s0, cs) + Part(a.feesIntoVault, a.creationFee + CalculateFee(a.creatorBuy, cfg.feeBps))
            && (!a.feesIntoVault ==> (AlwaysSquare(s0, cs) <==> AllLinked(s0, cs)))
  {
    CreateIsGood(cfg, a, c);
    var s0 := Create(cfg, a, c).value;
    RunKeepsGood(s0, cs);
    RunKeepsTerms(s0, cs);
    DriftsAddUp(s0, cs);
    if !a.feesIntoVault {
      SquareExactlyWhen(s0, cs);
    }
  }

  lemma {:induction false} RunKeepsTerms(s: State, cs: seq<Command>)
    ensures var t := Run(s, cs);
            && t.launch.k == s.launch.k && t.launch.maxSupply == s.launch.maxSupply
            && t.launch.initialQuote == s.launch.initialQuote
    decreases |cs|
  {
    if cs != [] {
      RunKeepsTerms(After(s, cs[0]), cs[1..]);
    }
  }
}

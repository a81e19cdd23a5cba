/** What each instruction of a launch asks for and what it does, in the terms of a trader: amounts, fees as rounded
    parts of them, and tokens as the curve leaves them. */
module LaunchpadEffects {
  import opened Numbers
  import opened Curve
  import opened Launchpad
  import opened LaunchpadRuns
  import opened LaunchpadPayouts

  /** `fee` is that many basis points of the amount, rounded down. */
  predicate IsFee(amount: nat, bps: nat, fee: nat) {
    10_000 * fee <= amount * bps < 10_000 * fee + 10_000
  }

  /** `share` is three tenths of the fee, rounded down. */
  predicate IsCreatorShare(fee: nat, share: nat) {
    10 * share <= 3 * fee < 10 * share + 10
  }

  /** `base` is the least number of tokens whose product with the quote still reaches `k`. */
  predicate IsLeastBase(base: nat, quote: nat, k: nat) {
    (base - 1) * quote < k <= base * quote
  }

  lemma FeeIsUnique(amount: u64, bps: FeeBps, fee: nat)
    requires IsFee(amount, bps, fee)
    ensures fee == CalculateFee(amount, bps)
  {
    DivUnique(amount * bps, 10_000, fee);
  }

  lemma ShareIsUnique(fee: u64, share: nat)
    requires IsCreatorShare(fee, share)
    ensures share == CreatorShare(fee)
  {
    DivUnique(fee * 30, 100, share);
  }

  lemma LeastBaseIsUnique(base: nat, quote: nat, k: nat)
    requires quote > 0 && IsLeastBase(base, quote, k)
    ensures base == CeilDiv(k, quote)
  {
    CeilDivBounds(k, quote);
    CeilDivLeast(k, quote, base);
    if CeilDiv(k, quote) < base {
      MulMono(quote, CeilDiv(k, quote), base - 1);
    }
  }

  // ---------- Creation ----------

  /** `fee` is the fee on the creator's own purchase, `base` what that leaves unsold. */
  predicate Opens(cfg: Config, a: CreateArgs, fee: nat, base: u64) {
    && fee <= a.creatorBuy && IsFee(a.creatorBuy, cfg.feeBps, fee)
    && IsLeastBase(base, a.initialQuote + a.creatorBuy - fee, a.maxSupply * a.initialQuote)
  }

  lemma FillAt(r: Reserves, k: u128, m: u64, base: u64)
    requires Near(r, k) && k > 0 && m > 0 && IsLeastBase(base, r.quote + m, k)
    ensures 0 < base <= r.base
    ensures CalculateBuyOutput(r, k, m)
            == if r.quote + m > U64_MAX then Err(Overflow) else Ok(Fill(r.base - base, Reserves(base, r.quote + m)))
  {
    LeastBaseIsUnique(base, r.quote + m, k);
    SubtractionsNeverUnderflow(r, k, m);
    BuyForm(r, k, m, base);
  }

  /** A creation is refused for these reasons and no other. */
  lemma CreateSucceedsExactlyWhen(cfg: Config, a: CreateArgs, c: Counters, fee: nat, base: u64)
    requires a.maxSupply > 0 && a.initialQuote > 0 ==> Opens(cfg, a, fee, base)
    ensures Create(cfg, a, c).Ok?
            <==> && a.maxSupply > 0 && a.initialQuote > 0 && !cfg.paused && c.launched < 0xFFFF_FFFF_FFFF_FFFF
                 && a.creationFee + a.creatorBuy <= a.funds
                 && (a.creatorBuy > 0 ==>
                       && a.initialQuote + a.creatorBuy - fee <= U64_MAX
                       && PriceFits(Reserves(base, a.initialQuote + a.creatorBuy - fee))
                       && (a.feesIntoVault ==> a.creationFee + a.creatorBuy <= U64_MAX))
  {
    if a.maxSupply > 0 && a.initialQuote > 0 && a.creatorBuy > 0 {
      FeeIsUnique(a.creatorBuy, cfg.feeBps, fee);
      OpeningReservesAreNear(a.maxSupply, a.initialQuote);
      ProductIsPositive(a.maxSupply, a.initialQuote);
      ProductFits(a.maxSupply, a.initialQuote);
      FillAt(Reserves(a.maxSupply, a.initialQuote), a.maxSupply * a.initialQuote, a.creatorBuy - fee, base);
    }
  }

  /** The creator pays the creation fee and the purchase; of the purchase the fee goes to the foundation and the rest
      onto the curve, and what leaves the curve is the creator's. */
  lemma CreateEffect(cfg: Config, a: CreateArgs, c: Counters)
    requires Create(cfg, a, c).Ok?
    ensures var s := Create(cfg, a, c).value;
            var l, b := s.launch, s.books;
            var fee := a.creatorBuy - l.mythCollected;
            && l.maxSupply == a.maxSupply && l.initialQuote == a.initialQuote
            && l.migrationThreshold == a.migrationThreshold
            && l.status == Active && l.creatorFee == 0 && !l.creatorFeeClaimed && l.k == a.maxSupply * a.initialQuote
            && 0 <= fee && IsFee(a.creatorBuy, cfg.feeBps, fee)
            && l.reserves.quote == a.initialQuote + l.mythCollected
            && l.reserves.base == a.maxSupply - l.tokensSold
            && IsLeastBase(l.reserves.base, l.reserves.quote, a.maxSupply * a.initialQuote)
            && b.paidIn == a.creationFee + a.creatorBuy <= a.funds
            && b.due == l.mythCollected
            && b.vault == l.mythCollected + (if a.feesIntoVault then a.creationFee + fee else 0)
            && b.foundation == (if a.feesIntoVault then 0 else a.creationFee + fee)
            && b.creator == b.dexMyth == b.paidOut == b.burned == b.dexTokens == 0 && b.supply == l.tokensSold
  {
    ProductFits(a.maxSupply, a.initialQuote);
    ProductIsPositive(a.maxSupply, a.initialQuote);
    FeeRoundsDown(a.creatorBuy, cfg.feeBps);
    if a.creatorBuy > 0 {
      var effective := a.creatorBuy - CalculateFee(a.creatorBuy, cfg.feeBps);
      CeilDivBounds(a.maxSupply * a.initialQuote, a.initialQuote + effective);
    } else {
      OpeningReservesAreNear(a.maxSupply, a.initialQuote);
      LeastAtOpening(a.maxSupply, a.initialQuote);
    }
  }

  lemma LeastAtOpening(x: u64, y: u64)
    requires x > 0 && y > 0
    ensures IsLeastBase(x, y, x * y)
  {
    assert (x - 1) * y == x * y - y;
  }

  // ---------- Buying ----------

  predicate Buys(l: Launch, cfg: Config, a: BuyArgs, fee: nat, share: nat, base: u64) {
    && fee <= a.mythAmount && IsFee(a.mythAmount, cfg.feeBps, fee) && IsCreatorShare(fee, share) && share <= fee
    && IsLeastBase(base, l.reserves.quote + a.mythAmount - fee, l.k)
  }

  lemma BuyFill(l: Launch, cfg: Config, a: BuyArgs, fee: nat, share: nat, base: u64)
    requires OnCurve(l) && a.mythAmount > 0 && Buys(l, cfg, a, fee, share, base)
    ensures fee == CalculateFee(a.mythAmount, cfg.feeBps) && share == CreatorShare(fee) && 0 < base <= l.reserves.base
    ensures l.reserves.quote + a.mythAmount - fee <= U64_MAX ==>
              CalculateBuyOutput(l.reserves, l.k, a.mythAmount - fee)
              == Ok(Fill(l.reserves.base - base, Reserves(base, l.reserves.quote + a.mythAmount - fee)))
    ensures l.reserves.quote + a.mythAmount - fee > U64_MAX ==>
              CalculateBuyOutput(l.reserves, l.k, a.mythAmount - fee).Err?
  {
    FeeIsUnique(a.mythAmount, cfg.feeBps, fee);
    ShareIsUnique(fee, share);
    FillAt(l.reserves, l.k, a.mythAmount - fee, base);
  }

  /** A buy is refused for these reasons and no other. */
  lemma BuySucceedsExactlyWhen(s: State, cfg: Config, a: BuyArgs, fee: nat, share: nat, base: u64)
    requires Good(s) && Buys(s.launch, cfg, a, fee, share, base)
    ensures var l, b := s.launch, s.books;
            var quote := l.reserves.quote + a.mythAmount - fee;
            Buy(s, cfg, a).Ok?
            <==> && 0 < a.mythAmount <= a.funds && !cfg.paused && l.status == Active
                 && quote <= U64_MAX && l.reserves.base - base >= a.minTokensOut && PriceFits(Reserves(base, quote))
                 && 30 * fee <= U64_MAX && l.creatorFee + share <= U64_MAX
                 && b.vault + (if a.ownVault then a.mythAmount - fee + share else 0)
                    + (if a.feeIntoVault then fee - share else 0) <= U64_MAX
  {
    if a.mythAmount > 0 {
      BuyFill(s.launch, cfg, a, fee, share, base);
      BuyIsQuoted(s.launch, cfg, a);
    }
  }

  lemma BuyIsQuoted(l: Launch, cfg: Config, a: BuyArgs)
    ensures var fee := CalculateFee(a.mythAmount, cfg.feeBps);
            var priced := CalculateBuyOutput(l.reserves, l.k, a.mythAmount - fee);
            && (PriceBuy(l, cfg, a).Ok? <==> priced.Ok? && priced.value.out >= a.minTokensOut && 30 * fee <= U64_MAX)
            && (PriceBuy(l, cfg, a).Ok? ==>
                  PriceBuy(l, cfg, a).value
                  == Quote(priced.value, a.mythAmount - fee, CreatorShare(fee), fee - CreatorShare(fee)))
  {
  }

  /** The buyer pays exactly the amount: the fee less the creator's share to the foundation's account, the rest to the
      account handed in as the vault. It gets what leaves the curve, and the curve closes once its quote reaches the
      threshold. */
  lemma BuyEffect(s: State, cfg: Config, a: BuyArgs, fee: nat, share: nat, base: u64)
    requires OnCurve(s.launch) && Buys(s.launch, cfg, a, fee, share, base) && Buy(s, cfg, a).Ok?
    ensures var l, b, m, d := s.launch, s.books, Buy(s, cfg, a).value.launch, Buy(s, cfg, a).value.books;
            && m.reserves == Reserves(base, l.reserves.quote + a.mythAmount - fee)
            && m.tokensSold - l.tokensSold == d.supply - b.supply == l.reserves.base - base >= a.minTokensOut
            && m.mythCollected - l.mythCollected == a.mythAmount - fee && m.creatorFee - l.creatorFee == share
            && d.due - b.due == a.mythAmount - fee + share
            && d.vault - b.vault == (if a.ownVault then a.mythAmount - fee + share else 0)
                                    + (if a.feeIntoVault then fee - share else 0)
            && d.foundation - b.foundation == (if a.feeIntoVault then 0 else fee - share)
            && d.paidIn - b.paidIn == (if a.ownVault then a.mythAmount else fee - share)
            && (m.status == Graduated <==> m.reserves.quote >= l.migrationThreshold) && m.status != Failed
            && m == l.(reserves := m.reserves, tokensSold := m.tokensSold, mythCollected := m.mythCollected,
                       creatorFee := m.creatorFee, status := m.status)
            && d == b.(vault := d.vault, due := d.due, foundation := d.foundation, paidIn := d.paidIn,
                       supply := d.supply)
  {
    BuyFill(s.launch, cfg, a, fee, share, base);
    BuyIsQuoted(s.launch, cfg, a);
  }

  // ---------- Selling ----------

  predicate Sells(l: Launch, cfg: Config, a: SellArgs, gross: nat, fee: nat, share: nat) {
    && gross <= l.reserves.quote && fee <= gross && IsFee(gross, cfg.feeBps, fee)
    && IsCreatorShare(fee, share) && share <= fee
    && (l.reserves.base + a.tokenAmount) * (l.reserves.quote - gross) <= l.k
       < (l.reserves.base + a.tokenAmount) * (l.reserves.quote - gross + 1)
  }

  lemma SaleFill(l: Launch, cfg: Config, a: SellArgs, gross: nat, fee: nat, share: nat)
    requires OnCurve(l) && 0 < a.tokenAmount <= l.tokensSold && Sells(l, cfg, a, gross, fee, share)
    ensures fee == CalculateFee(gross, cfg.feeBps) && share == CreatorShare(fee) && gross == Gross(l, a.tokenAmount)
    ensures CalculateSellOutput(l.reserves, l.k, a.tokenAmount)
            == Ok(Fill(gross, Reserves(l.reserves.base + a.tokenAmount, l.reserves.quote - gross)))
  {
    FeeIsUnique(gross, cfg.feeBps, fee);
    ShareIsUnique(fee, share);
    var base, quote := l.reserves.base + a.tokenAmount, l.reserves.quote - gross;
    assert base * (quote + 1) == base * quote + base;
    DivUnique(l.k, base, quote);
    SaleIsPriced(l, a.tokenAmount);
  }

  /** The seller's tokens are burned and go back on the curve. It is paid their worth on the curve less the fee, the
      foundation's account the fee less the creator's share, and that share stays in the vault for the creator. */
  lemma SaleEffect(s: State, cfg: Config, a: SellArgs, gross: nat, fee: nat, share: nat)
    requires OnCurve(s.launch) && Sells(s.launch, cfg, a, gross, fee, share) && Sell(s, cfg, a).Ok?
    ensures var l, b, m, d := s.launch, s.books, Sell(s, cfg, a).value.launch, Sell(s, cfg, a).value.books;
            && a.tokenAmount <= a.holding && gross - fee >= a.minMythOut
            && m.reserves == Reserves(l.reserves.base + a.tokenAmount, l.reserves.quote - gross)
            && l.tokensSold - m.tokensSold == b.supply - d.supply == a.tokenAmount
            && l.mythCollected - m.mythCollected == gross && m.creatorFee - l.creatorFee == share
            && b.due - d.due == gross - share
            && (a.from.OwnVault? && !a.netIntoVault ==> d.paidOut - b.paidOut == gross - fee)
            && (a.from.OwnVault? && !a.feeIntoVault ==> d.foundation - b.foundation == fee - share)
            && (a.from.OwnVault? && !a.netIntoVault && !a.feeIntoVault ==> b.vault - d.vault == gross - share)
            && m == l.(reserves := m.reserves, tokensSold := m.tokensSold, mythCollected := m.mythCollected,
                       creatorFee := m.creatorFee)
            && d == b.(vault := d.vault, due := d.due, foundation := d.foundation, paidIn := d.paidIn,
                       paidOut := d.paidOut, supply := d.supply)
  {
    SaleFill(s.launch, cfg, a, gross, fee, share);
    SaleIsQuoted(s.launch, cfg, a, CalculateSellOutput(s.launch.reserves, s.launch.k, a.tokenAmount).value);
  }

  /** The quoted price, millionths of MYTH for a token, has 64 bits. */
  lemma PriceFitsExactlyWhen(r: Reserves)
    ensures PriceFits(r) <==> r.base > 0 && 1_000_000 * r.quote < 0x1_0000_0000_0000_0000 * r.base
  {
    if r.base > 0 {
      DivBounds(r.quote * 1_000_000, r.base);
      var price := r.quote * 1_000_000 / r.base;
      if price <= U64_MAX {
        MulMono(r.base, price + 1, 0x1_0000_0000_0000_0000);
      } else {
        MulMono(r.base, 0x1_0000_0000_0000_0000, price);
      }
    }
  }

  /** A payment from the launch's vault needs its amount there, and takes it out unless it comes straight back; one
      from another account needs that account to pay, and brings its amount in if it ends in the vault. */
  lemma TransferEffect(vault: u64, from: Source, intoVault: bool, amount: u64)
    ensures var r := Moved(vault, from, intoVault, amount);
            && (from.OwnVault? ==> (r.Ok? <==> amount <= vault))
            && (from.Foreign? ==> (r.Ok? <==> from.pays && (intoVault ==> vault + amount <= U64_MAX)))
            && (r.Ok? && from.OwnVault? && !intoVault ==> r.value + amount == vault)
            && (r.Ok? && from.Foreign? && intoVault ==> r.value == vault + amount)
            && (r.Ok? && (from.OwnVault? <==> intoVault) ==> r.value == vault)
  {
  }

  // ---------- Graduating and claiming ----------

  /** A graduation closes the launch, mints what is unsold for the DEX, records a tenth as the creator's, and counts. */
  lemma GraduationEffect(s: State, c: Counters, a: GraduateArgs)
    requires Graduate(s, c, a).Ok?
    ensures var l, b, m, d := s.launch, s.books, Graduate(s, c, a).value.launch, Graduate(s, c, a).value.books;
            && m.status == Graduated && m.creatorFeeClaimed
            && 10 * m.creatorFee <= l.mythCollected < 10 * m.creatorFee + 10
            && m == l.(status := Graduated, creatorFee := m.creatorFee, creatorFeeClaimed := true)
            && d.dexTokens - b.dexTokens == d.supply - b.supply == l.maxSupply - l.tokensSold
            && b.due - d.due == l.mythCollected && d.burned == b.burned && d.paidOut == b.paidOut
            && (a.from.OwnVault? && a.dexIntoVault ==> d.dexMyth == b.dexMyth)
            && (a.from.OwnVault? && a.creatorIntoVault ==> d.creator == b.creator)
            && (a.from.OwnVault? && a.foundationIntoVault ==> d.foundation == b.foundation)
  {
    DistributedOutward(s.books.vault, a, s.launch.mythCollected);
  }

  /** A claim pays the creator what was accrued, once. */
  lemma ClaimEffect(s: State, a: ClaimArgs)
    requires ClaimCreatorFee(s, a).Ok?
    ensures var l, b, t := s.launch, s.books, ClaimCreatorFee(s, a).value;
            && l.creatorFee > 0 && t.launch == l.(creatorFeeClaimed := true)
            && b.due - t.books.due == l.creatorFee
            && (a.from.OwnVault? && !a.intoVault ==>
                  t.books == b.(vault := b.vault - l.creatorFee, due := t.books.due,
                                creator := b.creator + l.creatorFee))
            && forall again: ClaimArgs :: ClaimCreatorFee(t, again).Err?
  {
  }

  /** Gifts and burns move nothing else. */
  lemma GiftAndBurnEffect(s: State, amount: u64)
    ensures Gift(s, amount).Ok? <==> s.books.vault + amount <= U64_MAX
    ensures Gift(s, amount).Ok? ==>
              var d := Gift(s, amount).value.books;
              && d.vault - s.books.vault == d.paidIn - s.books.paidIn == amount
              && Gift(s, amount).value == s.(books := s.books.(vault := d.vault, paidIn := d.paidIn))
    ensures Burn(s, amount).Ok? <==> amount <= s.books.supply
    ensures Burn(s, amount).Ok? ==>
              var d := Burn(s, amount).value.books;
              && d.supply + amount == s.books.supply && d.burned == s.books.burned + amount
              && Burn(s, amount).value == s.(books := s.books.(supply := d.supply, burned := d.burned))
  {
  }

  // ---------- Refusals ----------

  /** What must be the case when an instruction of a launch reports an error. */
  predicate LaunchCause(s: State, c: Command, e: LaunchpadError) {
    match e
    case InvalidAmount => (c.BuyCommand? && c.buy.mythAmount == 0) || (c.SellCommand? && c.sell.tokenAmount == 0)
    case ProgramPaused => (c.BuyCommand? && c.cfg.paused) || (c.SellCommand? && c.cfg.paused)
    case CurveNotActive =>
      if c.BuyCommand? || c.SellCommand? then s.launch.status != Active
      else if c.GraduateCommand? then s.launch.status == Failed else c.ClaimCommand? && s.launch.status != Graduated
    case CurveAlreadyGraduated => c.GraduateCommand? && s.launch.status == Graduated && s.launch.creatorFeeClaimed
    case SlippageExceeded =>
      (c.BuyCommand? && c.buy.minTokensOut > 0) || (c.SellCommand? && c.sell.minMythOut > 0)
    case InsufficientFunds => c.SellCommand?
    case GraduationThresholdNotMet => c.GraduateCommand? && s.launch.reserves.quote < s.launch.migrationThreshold
    case NoCreatorFee => c.ClaimCommand? && (s.launch.creatorFeeClaimed || s.launch.creatorFee == 0)
    case TokenTransferFailed =>
      (match c
       case BuyCommand(_, a) => a.mythAmount > a.funds || s.books.vault + a.mythAmount > U64_MAX
       case BurnCommand(tokens) => tokens > s.books.supply
       case _ => true)
    case Overflow => c.BuyCommand? || c.SellCommand? || c.GraduateCommand?
  }

  /** No refusal names a cause that is not there. */
  lemma LaunchRefusalsAreTrue(s: State, c: Command)
    requires Execute(s, c).Err?
    ensures LaunchCause(s, c, Execute(s, c).error)
  {
    match c {
      case BuyCommand(cfg, a) => BuyRefusalsAreTrue(s, cfg, a);
      case SellCommand(cfg, a) => SellRefusalsAreTrue(s, cfg, a);
      case GraduateCommand(_, _) => GraduationRefusalsAreTrue(s, c);
      case _ => OtherRefusalsAreTrue(s, c);
    }
  }

  lemma GraduationRefusalsAreTrue(s: State, c: Command)
    requires c.GraduateCommand? && Execute(s, c).Err?
    ensures LaunchCause(s, c, Execute(s, c).error)
  {
    DistributionRefusals(s.books.vault, c.distribution, SharesOf(s.launch.mythCollected));
  }

  lemma DistributionRefusals(vault: u64, a: GraduateArgs, p: Shares)
    ensures Distributed(vault, a, p).Err? ==> Distributed(vault, a, p).error == TokenTransferFailed
  {
  }

  lemma OtherRefusalsAreTrue(s: State, c: Command)
    requires !c.BuyCommand? && !c.SellCommand? && !c.GraduateCommand? && Execute(s, c).Err?
    ensures LaunchCause(s, c, Execute(s, c).error)
  {
  }

  lemma BuyRefusalsAreTrue(s: State, cfg: Config, a: BuyArgs)
    requires Buy(s, cfg, a).Err?
    ensures LaunchCause(s, BuyCommand(cfg, a), Buy(s, cfg, a).error)
  {
    var q := PriceBuy(s.launch, cfg, a);
    if q.Ok? {
      PaymentIsWithinPrice(s.launch, cfg, a);
    }
  }

  lemma PaymentIsWithinPrice(l: Launch, cfg: Config, a: BuyArgs)
    requires PriceBuy(l, cfg, a).Ok?
    ensures Inflow(a, PriceBuy(l, cfg, a).value) <= a.mythAmount
  {
  }

  lemma SellRefusalsAreTrue(s: State, cfg: Config, a: SellArgs)
    requires Sell(s, cfg, a).Err?
    ensures LaunchCause(s, SellCommand(cfg, a), Sell(s, cfg, a).error)
  {
  }

  lemma CreationRefusalsAreTrue(cfg: Config, a: CreateArgs, c: Counters)
    ensures var r := Create(cfg, a, c);
            && (r == Err(InvalidAmount) ==> a.maxSupply == 0 || a.initialQuote == 0)
            && (r == Err(ProgramPaused) ==> cfg.paused)
            && (r == Err(TokenTransferFailed) ==>
                  a.creationFee + a.creatorBuy > a.funds || a.creationFee + a.creatorBuy > U64_MAX)
            && (r.Err? ==> r.error in {InvalidAmount, ProgramPaused, TokenTransferFailed, Overflow})
  {
  }
}

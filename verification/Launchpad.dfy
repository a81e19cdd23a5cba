/** One bonding-curve launch: its account, its token balances and the instructions that move them. */
module Launchpad {
  import opened Numbers
  import opened Curve

  /** Basis points of protocol fee; Initialize and UpdateConfig refuse more than ten percent. */
  type FeeBps = n: int | 0 <= n <= 1000

  datatype Config = Config(feeBps: FeeBps, paused: bool)

  /** What the configuration account counts over all launches. */
  datatype Counters = Counters(launched: u64, graduations: u64, mythCollected: u64)

  datatype Status = Active | Graduated | Failed

  /** The TokenLaunch account. */
  datatype Launch = Launch(
    reserves: Reserves,
    maxSupply: u64,
    tokensSold: u64,
    mythCollected: u64,
    status: Status,
    creatorFee: u64,
    creatorFeeClaimed: bool,
    k: u128,
    migrationThreshold: u64,
    initialQuote: u64)

  /** The launch's own vault and the launched token. `due` is what the instructions so far should have left in the
      vault. `paidIn` is all that came into the vault or was paid beside it, `paidOut` what sellers got out of it;
      `foundation`, `creator` and `dexMyth` went to the accounts handed in for them. `supply` is the launched token's
      supply, `dexTokens` the part minted for the DEX, `burned` what holders burned themselves. */
  datatype Books = Books(
    vault: u64,
    due: int,
    foundation: nat,
    creator: nat,
    dexMyth: nat,
    paidIn: nat,
    paidOut: nat,
    supply: nat,
    burned: nat,
    dexTokens: nat)

  datatype State = State(launch: Launch, books: Books)

  type Step = Result<State, LaunchpadError>

  /** The account handed in as the vault that pays: the launch's own, or another one of the same authority. `pays`
      says whether that one meets every transfer asked of it. */
  datatype Source = OwnVault | Foreign(pays: bool)

  /** Creation alone checks the vault. An account that receives can be the vault itself: the flags say which. */
  datatype CreateArgs = CreateArgs(
    maxSupply: u64, initialQuote: u64, migrationThreshold: u64, creationFee: u64, creatorBuy: u64, funds: nat,
    feesIntoVault: bool)

  datatype BuyArgs = BuyArgs(mythAmount: u64, minTokensOut: u64, funds: nat, ownVault: bool, feeIntoVault: bool)

  datatype SellArgs = SellArgs(
    tokenAmount: u64, minMythOut: u64, holding: nat, from: Source, netIntoVault: bool, feeIntoVault: bool)

  datatype GraduateArgs = GraduateArgs(
    from: Source, dexIntoVault: bool, creatorIntoVault: bool, foundationIntoVault: bool)

  datatype ClaimArgs = ClaimArgs(from: Source, intoVault: bool)

  // ---------- Pure helpers ----------

  function CalculateFee(amount: u64, bps: FeeBps): (fee: u64)
    ensures 10 * fee <= amount
  {
    assert amount * bps <= amount * 1000 by { MulMono(amount, bps, 1000); }
    DivMono(amount * bps, amount * 1000, 10_000, 10_000);
    amount * bps / 10_000
  }

  /** The fee is the basis points of the amount rounded down, and the creator's part three tenths of it. */
  lemma FeeRoundsDown(amount: u64, bps: FeeBps)
    ensures var fee := CalculateFee(amount, bps);
            && 10_000 * fee <= amount * bps < 10_000 * fee + 10_000
            && 10 * CreatorShare(fee) <= 3 * fee < 10 * CreatorShare(fee) + 10
  {
    DivBounds(amount * bps, 10_000);
  }

  /** Price of one token scaled by 10^6; the handlers fail when it does not fit 64 bits. */
  predicate PriceFits(r: Reserves) {
    r.base > 0 && r.quote * 1_000_000 / r.base <= U64_MAX
  }

  /** Thirty percent of a fee goes to the creator. */
  function CreatorShare(fee: u64): (share: u64)
    ensures share <= fee
  {
    fee * 30 / 100
  }

  predicate FeeSplits(fee: u64) {
    fee * 30 <= U64_MAX
  }

  /** The product of two 64-bit numbers fits 128 bits. */
  lemma ProductFits(a: u64, b: u64)
    ensures 0 <= a * b <= U128_MAX
  {
    MulMono(a, 0, b);
    MulMono(a, b, 0xFFFF_FFFF_FFFF_FFFF);
  }

  // ---------- Transfers ----------

  /** The launch's vault after one transfer. */
  function Moved(vault: u64, from: Source, intoVault: bool, amount: u64): Result<u64, LaunchpadError> {
    match from
    case OwnVault =>
      if amount > vault then Err(TokenTransferFailed) else Ok(if intoVault then vault else vault - amount)
    case Foreign(pays) =>
      if !pays || (intoVault && vault + amount > U64_MAX) then Err(TokenTransferFailed)
      else Ok(if intoVault then vault + amount else vault)
  }

  /** What a transfer takes out of the launch's vault, and what it brings in. */
  function Left(from: Source, intoVault: bool, amount: u64): nat {
    if from.OwnVault? && !intoVault then amount else 0
  }

  function Came(from: Source, intoVault: bool, amount: u64): nat {
    if from.Foreign? && intoVault then amount else 0
  }

  /** The part of an amount that goes into the vault, if any does. */
  function Part(into: bool, amount: nat): nat {
    if into then amount else 0
  }

  // ---------- Instructions ----------

  function Create(cfg: Config, a: CreateArgs, c: Counters): Step {
    if a.maxSupply == 0 || a.initialQuote == 0 then Err(InvalidAmount) else
    :- Need(!cfg.paused, ProgramPaused);
    ProductFits(a.maxSupply, a.initialQuote);
    var k: u128 := a.maxSupply * a.initialQuote;
    var start := Launch(Reserves(a.maxSupply, a.initialQuote), a.maxSupply, 0, 0, Active, 0, false, k,
                        a.migrationThreshold, a.initialQuote);
    :- Need(c.launched < U64_MAX, Overflow);
    :- Need(a.creationFee <= a.funds, TokenTransferFailed);
    if a.creatorBuy == 0 then Ok(State(start, OpeningBooks(a, 0, 0, 0))) else
      var fee := CalculateFee(a.creatorBuy, cfg.feeBps);
      var effective := a.creatorBuy - fee;
      var fill :- CalculateBuyOutput(start.reserves, start.k, effective);
      :- Need(a.creationFee + a.creatorBuy <= a.funds
              && effective + Part(a.feesIntoVault, a.creationFee + fee) <= U64_MAX, TokenTransferFailed);
      :- Need(PriceFits(fill.after), Overflow);
      Ok(State(start.(reserves := fill.after, tokensSold := fill.out, mythCollected := effective),
               OpeningBooks(a, effective, fee, fill.out)))
  }

  function OpeningBooks(a: CreateArgs, effective: u64, fee: u64, tokens: nat): Books
    requires effective + Part(a.feesIntoVault, a.creationFee + fee) <= U64_MAX
  {
    var fees := a.creationFee + fee;
    Books(effective + Part(a.feesIntoVault, fees), effective, Part(!a.feesIntoVault, fees), 0, 0, effective + fees, 0,
          tokens, 0, 0)
  }

  /** A trade with its fee set apart: what the curve moves, the creator's part of the fee and the foundation's. */
  datatype Quote = Quote(fill: Fill, effective: u64, share: u64, protocolFee: u64)

  function PriceBuy(l: Launch, cfg: Config, a: BuyArgs): Result<Quote, LaunchpadError> {
    var fee := CalculateFee(a.mythAmount, cfg.feeBps);
    var fill :- CalculateBuyOutput(l.reserves, l.k, a.mythAmount - fee);
    :- Need(fill.out >= a.minTokensOut, SlippageExceeded);
    :- Need(FeeSplits(fee), Overflow);
    Ok(Quote(fill, a.mythAmount - fee, CreatorShare(fee), fee - CreatorShare(fee)))
  }

  /** What a buy brings into the launch's vault: the payment, if it is handed in as the vault, and the foundation's
      fee, if it is handed in for that. */
  function Inflow(a: BuyArgs, q: Quote): nat {
    Part(a.ownVault, q.effective + q.share) + Part(a.feeIntoVault, q.protocolFee)
  }

  function PayBuy(b: Books, a: BuyArgs, q: Quote): Result<Books, LaunchpadError> {
    var inflow, outside := Inflow(a, q), Part(!a.feeIntoVault, q.protocolFee);
    if a.mythAmount > a.funds || b.vault + inflow > U64_MAX then Err(TokenTransferFailed) else
    Ok(b.(vault := b.vault + inflow, due := b.due + q.effective + q.share, foundation := b.foundation + outside,
          paidIn := b.paidIn + inflow + outside, supply := b.supply + q.fill.out))
  }

  function RecordBuy(l: Launch, q: Quote): Result<Launch, LaunchpadError> {
    if l.tokensSold + q.fill.out > U64_MAX || l.mythCollected + q.effective > U64_MAX
       || l.creatorFee + q.share > U64_MAX
    then Err(Overflow) else
    :- Need(PriceFits(q.fill.after), Overflow);
    var status := if q.fill.after.quote >= l.migrationThreshold then Graduated else l.status;
    Ok(l.(reserves := q.fill.after, tokensSold := l.tokensSold + q.fill.out,
          mythCollected := l.mythCollected + q.effective, creatorFee := l.creatorFee + q.share, status := status))
  }

  /** Any account can be handed in as the vault, and any as the foundation's. */
  function Buy(s: State, cfg: Config, a: BuyArgs): Step {
    var l, b := s.launch, s.books;
    :- Need(a.mythAmount > 0, InvalidAmount);
    :- Need(!cfg.paused, ProgramPaused);
    :- Need(l.status == Active, CurveNotActive);
    var q :- PriceBuy(l, cfg, a);
    var paid :- PayBuy(b, a, q);
    var m :- RecordBuy(l, q);
    Ok(State(m, paid))
  }

  function Sold(b: Books, a: SellArgs, net: u64, fee: u64, vault: u64): Books
    requires a.tokenAmount <= b.supply
  {
    b.(vault := vault, due := b.due - net - fee,
       foundation := b.foundation + Left(a.from, a.feeIntoVault, fee),
       paidOut := b.paidOut + Left(a.from, a.netIntoVault, net),
       paidIn := b.paidIn + Came(a.from, a.netIntoVault, net) + Came(a.from, a.feeIntoVault, fee),
       supply := b.supply - a.tokenAmount)
  }

  /** `effective` is here what the seller is paid. */
  function PriceSale(l: Launch, cfg: Config, a: SellArgs): Result<Quote, LaunchpadError> {
    var priced := CalculateSellOutput(l.reserves, l.k, a.tokenAmount);
    var fill :- priced;
    var fee := CalculateFee(fill.out, cfg.feeBps);
    :- Need(FeeSplits(fee), Overflow);
    :- Need(fill.out - fee >= a.minMythOut, SlippageExceeded);
    :- Need(fill.out <= l.mythCollected, InsufficientFunds);
    Ok(Quote(fill, fill.out - fee, CreatorShare(fee), fee - CreatorShare(fee)))
  }

  /** The launch's vault after the two payments of a sale. */
  function PaySale(vault: u64, a: SellArgs, q: Quote): Result<u64, LaunchpadError> {
    var net := Moved(vault, a.from, a.netIntoVault, q.effective);
    var paid :- net;
    Moved(paid, a.from, a.feeIntoVault, q.protocolFee)
  }

  function RecordSale(l: Launch, a: SellArgs, q: Quote): Result<Launch, LaunchpadError>
    requires q.fill.out <= l.mythCollected
  {
    if a.tokenAmount > l.tokensSold || l.creatorFee + q.share > U64_MAX then Err(Overflow) else
    :- Need(PriceFits(q.fill.after), Overflow);
    Ok(l.(reserves := q.fill.after, tokensSold := l.tokensSold - a.tokenAmount,
          mythCollected := l.mythCollected - q.fill.out, creatorFee := l.creatorFee + q.share))
  }

  /** The paying vault is checked for its authority only. */
  function Sell(s: State, cfg: Config, a: SellArgs): Step {
    var l, b := s.launch, s.books;
    :- Need(a.tokenAmount > 0, InvalidAmount);
    :- Need(!cfg.paused, ProgramPaused);
    :- Need(l.status == Active, CurveNotActive);
    var q :- PriceSale(l, cfg, a);
    :- Need(a.tokenAmount <= a.holding && a.tokenAmount <= b.supply, TokenTransferFailed);
    var vault :- PaySale(b.vault, a, q);
    var m :- RecordSale(l, a, q);
    Ok(State(m, Sold(b, a, q.effective, q.protocolFee, vault)))
  }

  /** Four fifths for the DEX, a tenth for the creator, the rest for the foundation. */
  datatype Shares = Shares(dex: u64, creator: u64, foundation: u64)

  function SharesOf(collected: u64): Shares {
    var dex, creator := collected * 80 / 100, collected * 10 / 100;
    Shares(dex, creator, collected - dex - creator)
  }

  /** The launch's vault after the three payments. */
  function Distributed(vault: u64, a: GraduateArgs, p: Shares): Result<u64, LaunchpadError> {
    var dexPaid := Moved(vault, a.from, a.dexIntoVault, p.dex);
    var afterDex :- dexPaid;
    var afterCreator :- Moved(afterDex, a.from, a.creatorIntoVault, p.creator);
    Moved(afterCreator, a.from, a.foundationIntoVault, p.foundation)
  }

  function PaidOff(b: Books, a: GraduateArgs, p: Shares, vault: u64): Books {
    b.(vault := vault,
       dexMyth := b.dexMyth + Left(a.from, a.dexIntoVault, p.dex),
       creator := b.creator + Left(a.from, a.creatorIntoVault, p.creator),
       foundation := b.foundation + Left(a.from, a.foundationIntoVault, p.foundation),
       paidIn := b.paidIn + Came(a.from, a.dexIntoVault, p.dex) + Came(a.from, a.creatorIntoVault, p.creator)
                 + Came(a.from, a.foundationIntoVault, p.foundation))
  }

  /** Anyone may call it, with any accounts to receive and any of the vault authority's to pay. */
  function Graduate(s: State, c: Counters, a: GraduateArgs): Step {
    var l, b := s.launch, s.books;
    :- Need(l.status != Graduated || !l.creatorFeeClaimed, CurveAlreadyGraduated);
    :- Need(l.status != Failed, CurveNotActive);
    :- Need(l.status != Active || l.reserves.quote >= l.migrationThreshold, GraduationThresholdNotMet);
    :- Need(l.mythCollected * 80 <= U64_MAX, Overflow);
    var p := SharesOf(l.mythCollected);
    var vault :- Distributed(b.vault, a, p);
    :- Need(l.tokensSold <= l.maxSupply, Overflow);
    var remaining := l.maxSupply - l.tokensSold;
    :- Need(c.graduations < U64_MAX && c.mythCollected + l.mythCollected <= U64_MAX, Overflow);
    Ok(State(
      l.(status := Graduated, creatorFee := p.creator, creatorFeeClaimed := true),
      PaidOff(b, a, p, vault).(due := b.due - l.mythCollected, supply := b.supply + remaining,
                               dexTokens := b.dexTokens + remaining)))
  }

  function ClaimCreatorFee(s: State, a: ClaimArgs): Step {
    var l, b := s.launch, s.books;
    :- Need(l.status == Graduated, CurveNotActive);
    :- Need(!l.creatorFeeClaimed && l.creatorFee > 0, NoCreatorFee);
    var vault :- Moved(b.vault, a.from, a.intoVault, l.creatorFee);
    Ok(State(l.(creatorFeeClaimed := true),
             b.(vault := vault, due := b.due - l.creatorFee,
                creator := b.creator + Left(a.from, a.intoVault, l.creatorFee),
                paidIn := b.paidIn + Came(a.from, a.intoVault, l.creatorFee))))
  }

  // ---------- What happens beside the program ----------

  /** Anyone can send MYTH to the vault. */
  function Gift(s: State, amount: u64): Step {
    if s.books.vault + amount > U64_MAX then Err(TokenTransferFailed) else
    Ok(s.(books := s.books.(vault := s.books.vault + amount, paidIn := s.books.paidIn + amount)))
  }

  /** Any holder can burn launched tokens. */
  function Burn(s: State, amount: u64): Step {
    if amount > s.books.supply then Err(TokenTransferFailed) else
    Ok(s.(books := s.books.(supply := s.books.supply - amount, burned := s.books.burned + amount)))
  }
}

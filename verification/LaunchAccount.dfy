/** The launch account and the configuration's counters, updated in place one instruction at a time. */
module LaunchAccount {
  import opened Numbers
  import opened Curve
  import opened Launchpad
  import opened LaunchpadRuns
  import opened LaunchpadPayouts
  import E = LaunchpadEffects

  function Verdict(step: Step): Outcome<LaunchpadError> {
    if step.Ok? then Pass else Fail(step.error)
  }

  function Settled(s: State, step: Step): State {
    if step.Ok? then step.value else s
  }

  /** The part of the configuration account that launches count in. */
  class CounterAccount {
    var launched: u64
    var graduations: u64
    var mythCollected: u64

    constructor ()
      ensures View() == Counters(0, 0, 0)
    {
      launched, graduations, mythCollected := 0, 0, 0;
    }

    function View(): Counters
      reads this
    {
      Counters(launched, graduations, mythCollected)
    }
  }

  class TokenLaunch {
    var virtualBase: u64
    var virtualQuote: u64
    var tokensSold: u64
    var mythCollected: u64
    var status: Status
    var creatorFee: u64
    var creatorFeeClaimed: bool
    const maxSupply: u64
    const k: u128
    const migrationThreshold: u64
    const initialQuote: u64
    var books: Books

    /** The reserves are on the curve and the books balance. */
    predicate Valid()
      reads this
    {
      Good(View())
    }

    function View(): State
      reads this
    {
      State(Launch(Reserves(virtualBase, virtualQuote), maxSupply, tokensSold, mythCollected, status, creatorFee,
                   creatorFeeClaimed, k, migrationThreshold, initialQuote),
            books)
    }

    /** The account of a creation that succeeded. */
    constructor (cfg: Config, a: CreateArgs, config: CounterAccount)
      requires Create(cfg, a, config.View()).Ok?
      modifies config`launched
      ensures View() == Create(cfg, a, old(config.View())).value && Valid()
      ensures config.View() == old(config.View()).(launched := old(config.launched) + 1)
      ensures books.paidIn == a.creationFee + a.creatorBuy <= a.funds
      ensures mythCollected <= a.creatorBuy && E.IsFee(a.creatorBuy, cfg.feeBps, a.creatorBuy - mythCollected)
      ensures virtualQuote == a.initialQuote + mythCollected && virtualBase == a.maxSupply - tokensSold
    {
      ProductFits(a.maxSupply, a.initialQuote);
      var curve: u128 := a.maxSupply * a.initialQuote;
      maxSupply, initialQuote, migrationThreshold, k := a.maxSupply, a.initialQuote, a.migrationThreshold, curve;
      status, creatorFee, creatorFeeClaimed := Active, 0, false;
      if a.creatorBuy > 0 {
        var fee := CalculateFee(a.creatorBuy, cfg.feeBps);
        var effective := a.creatorBuy - fee;
        var fill := CalculateBuyOutput(Reserves(a.maxSupply, a.initialQuote), curve, effective).value;
        virtualBase, virtualQuote := fill.after.base, fill.after.quote;
        tokensSold, mythCollected := fill.out, effective;
        books := OpeningBooks(a, effective, fee, fill.out);
      } else {
        virtualBase, virtualQuote := a.maxSupply, a.initialQuote;
        tokensSold, mythCollected := 0, 0;
        books := OpeningBooks(a, 0, 0, 0);
      }
      new;
      CreateIsGood(cfg, a, config.View());
      E.CreateEffect(cfg, a, config.View());
      config.launched := config.launched + 1;
    }

    method ProcessBuy(cfg: Config, a: BuyArgs) returns (r: Outcome<LaunchpadError>)
      modifies this
      ensures r == Verdict(Buy(old(View()), cfg, a))
      ensures View() == Settled(old(View()), Buy(old(View()), cfg, a))
    {
      if a.mythAmount == 0 { return Fail(InvalidAmount); }
      if cfg.paused { return Fail(ProgramPaused); }
      if status != Active { return Fail(CurveNotActive); }
      var priced := PriceBuy(View().launch, cfg, a);
      if priced.Err? { return Fail(priced.error); }
      var q := priced.value;
      var paid := PayBuy(books, a, q);
      if paid.Err? { return Fail(paid.error); }
      if tokensSold + q.fill.out > U64_MAX || mythCollected + q.effective > U64_MAX || creatorFee + q.share > U64_MAX {
        return Fail(Overflow);
      }
      if !PriceFits(q.fill.after) { return Fail(Overflow); }
      books := paid.value;
      virtualBase, virtualQuote := q.fill.after.base, q.fill.after.quote;
      tokensSold := tokensSold + q.fill.out;
      mythCollected := mythCollected + q.effective;
      creatorFee := creatorFee + q.share;
      if virtualQuote >= migrationThreshold {
        status := Graduated;
      }
      r := Pass;
    }

    method ProcessSell(cfg: Config, a: SellArgs) returns (r: Outcome<LaunchpadError>)
      modifies this
      ensures r == Verdict(Sell(old(View()), cfg, a))
      ensures View() == Settled(old(View()), Sell(old(View()), cfg, a))
    {
      if a.tokenAmount == 0 { return Fail(InvalidAmount); }
      if cfg.paused { return Fail(ProgramPaused); }
      if status != Active { return Fail(CurveNotActive); }
      var priced := PriceSale(View().launch, cfg, a);
      if priced.Err? { return Fail(priced.error); }
      var q := priced.value;
      if a.tokenAmount > a.holding || a.tokenAmount > books.supply { return Fail(TokenTransferFailed); }
      var vault := PaySale(books.vault, a, q);
      if vault.Err? { return Fail(vault.error); }
      if a.tokenAmount > tokensSold || creatorFee + q.share > U64_MAX { return Fail(Overflow); }
      if !PriceFits(q.fill.after) { return Fail(Overflow); }
      books := Sold(books, a, q.effective, q.protocolFee, vault.value);
      virtualBase, virtualQuote := q.fill.after.base, q.fill.after.quote;
      tokensSold := tokensSold - a.tokenAmount;
      mythCollected := mythCollected - q.fill.out;
      creatorFee := creatorFee + q.share;
      r := Pass;
    }

    method ProcessGraduate(a: GraduateArgs, config: CounterAccount) returns (r: Outcome<LaunchpadError>)
      modifies this, config`graduations, config`mythCollected
      ensures r == Verdict(Graduate(old(View()), old(config.View()), a))
      ensures View() == Settled(old(View()), Graduate(old(View()), old(config.View()), a))
      ensures config.View() == if r.Fail? then old(config.View()) else
                old(config.View()).(graduations := old(config.graduations) + 1,
                                    mythCollected := old(config.mythCollected) + old(mythCollected))
    {
      if status == Graduated && creatorFeeClaimed { return Fail(CurveAlreadyGraduated); }
      if status == Failed { return Fail(CurveNotActive); }
      if status == Active && virtualQuote < migrationThreshold { return Fail(GraduationThresholdNotMet); }
      if mythCollected * 80 > U64_MAX { return Fail(Overflow); }
      var shares := SharesOf(mythCollected);
      var vault := Distributed(books.vault, a, shares);
      if vault.Err? { return Fail(vault.error); }
      if tokensSold > maxSupply { return Fail(Overflow); }
      var remaining := maxSupply - tokensSold;
      if config.graduations == U64_MAX || config.mythCollected + mythCollected > U64_MAX { return Fail(Overflow); }
      books := PaidOff(books, a, shares, vault.value).(due := books.due - mythCollected,
                                                       supply := books.supply + remaining,
                                                       dexTokens := books.dexTokens + remaining);
      status := Graduated;
      creatorFee := shares.creator;
      creatorFeeClaimed := true;
      config.graduations, config.mythCollected := config.graduations + 1, config.mythCollected + mythCollected;
      r := Pass;
    }

    method ProcessClaimCreatorFee(a: ClaimArgs) returns (r: Outcome<LaunchpadError>)
      modifies this
      ensures r == Verdict(ClaimCreatorFee(old(View()), a))
      ensures View() == Settled(old(View()), ClaimCreatorFee(old(View()), a))
    {
      if status != Graduated { return Fail(CurveNotActive); }
      if creatorFeeClaimed || creatorFee == 0 { return Fail(NoCreatorFee); }
      var vault := Moved(books.vault, a.from, a.intoVault, creatorFee);
      if vault.Err? { return Fail(vault.error); }
      books := books.(vault := vault.value, due := books.due - creatorFee,
                      creator := books.creator + Left(a.from, a.intoVault, creatorFee),
                      paidIn := books.paidIn + Came(a.from, a.intoVault, creatorFee));
      creatorFeeClaimed := true;
      r := Pass;
    }

    method Dispatch(c: Command, config: CounterAccount) returns (r: Outcome<LaunchpadError>)
      requires c.GraduateCommand? ==> c.counters == config.View()
      modifies this, config`graduations, config`mythCollected
      ensures r == Verdict(Execute(old(View()), c)) && View() == After(old(View()), c)
    {
      match c {
        case BuyCommand(cfg, a) => r := ProcessBuy(cfg, a);
        case SellCommand(cfg, a) => r := ProcessSell(cfg, a);
        case GraduateCommand(_, a) => r := ProcessGraduate(a, config);
        case ClaimCommand(a) => r := ProcessClaimCreatorFee(a);
        case GiftCommand(amount) =>
          if books.vault + amount > U64_MAX { return Fail(TokenTransferFailed); }
          books := books.(vault := books.vault + amount, paidIn := books.paidIn + amount);
          r := Pass;
        case BurnCommand(amount) =>
          if amount > books.supply { return Fail(TokenTransferFailed); }
          books := books.(supply := books.supply - amount, burned := books.burned + amount);
          r := Pass;
      }
    }

    /** The entry point. Whatever accounts it is handed, an instruction keeps the reserves on the curve and every MYTH
        accounted for, and moves the vault away from what it should hold by exactly its drift: not at all if it names
        the right accounts. */
    method ProcessInstruction(c: Command, config: CounterAccount) returns (r: Outcome<LaunchpadError>)
      requires Valid() && (c.GraduateCommand? ==> c.counters == config.View())
      modifies this, config`graduations, config`mythCollected
      ensures r == Verdict(Execute(old(View()), c)) && View() == After(old(View()), c)
      ensures books.paidIn == books.vault + books.foundation + books.creator + books.dexMyth + books.paidOut
      ensures !creatorFeeClaimed ==> books.due == mythCollected + creatorFee
      ensures books.vault - books.due
              == old(books.vault - books.due) + if r.Pass? then Drift(old(View()), c) else 0
      ensures old(Square(View())) ==> (Square(View()) <==> r.Pass? ==> Linked(old(View()), c))
      ensures Valid()
    {
      StepKeepsGood(View(), c);
      if Execute(View(), c).Ok? {
        DriftIsZeroExactlyWhen(View(), c);
      }
      r := Dispatch(c, config);
    }
  }
}

/** What comes out of a launch's vault: sales back to the curve, the graduation, the creator's claim, and the runs
    in which they find it short or never happen. */
module LaunchpadPayouts {
  import opened Numbers
  import opened Curve
  import opened Launchpad
  import opened LaunchpadRuns

  // ---------- Sales ----------

  /** MYTH a sale of `t` tokens is worth before fees. */
  function Gross(l: Launch, t: nat): int
    requires l.reserves.base + t > 0
  {
    l.reserves.quote - l.k / (l.reserves.base + t)
  }

  lemma WholeSupplyPrice(l: Launch)
    requires OnCurve(l)
    ensures l.k / l.maxSupply == l.initialQuote
  {
    DivCancel(l.initialQuote, l.maxSupply);
    assert l.k == l.initialQuote * l.maxSupply;
  }

  /** No sale of tokens that were sold is worth more than was collected. */
  lemma GrossIsCovered(l: Launch, t: nat)
    requires OnCurve(l) && 0 < t <= l.tokensSold
    ensures 0 <= Gross(l, t) <= l.mythCollected
  {
    DivMono(l.k, l.k, l.maxSupply, l.reserves.base + t);
    WholeSupplyPrice(l);
    SubtractionsNeverUnderflow(l.reserves, l.k, t);
  }

  /** The account handed in as the vault meets both payments of a sale. */
  predicate Pays(vault: u64, a: SellArgs, net: u64, fee: u64) {
    && Moved(vault, a.from, a.netIntoVault, net).Ok?
    && Moved(Moved(vault, a.from, a.netIntoVault, net).value, a.from, a.feeIntoVault, fee).Ok?
  }

  /** A sale on a reachable launch is refused only by a pause, a closed curve, its own arguments, the launched tokens
      that exist, the widths of the fees and the account that pays: the curve arithmetic, the accounting and the price
      computation never refuse one. */
  lemma SellSucceedsExactlyWhen(s: State, cfg: Config, a: SellArgs)
    requires Good(s)
    ensures Sell(s, cfg, a).Ok? <==>
              && s.launch.status == Active && !cfg.paused
              && 0 < a.tokenAmount <= s.launch.tokensSold && a.tokenAmount <= Min(a.holding, s.books.supply)
              && var gross := Gross(s.launch, a.tokenAmount);
                 0 <= gross <= U64_MAX && Accepts(s, cfg, a, gross)
  {
    if 0 < a.tokenAmount <= s.launch.tokensSold {
      SaleIsPriced(s.launch, a.tokenAmount);
      SaleIsQuoted(s.launch, cfg, a, CalculateSellOutput(s.launch.reserves, s.launch.k, a.tokenAmount).value);
    }
  }

  lemma SaleIsQuoted(l: Launch, cfg: Config, a: SellArgs, fill: Fill)
    requires CalculateSellOutput(l.reserves, l.k, a.tokenAmount) == Ok(fill) && fill.out <= l.mythCollected
    ensures var fee := CalculateFee(fill.out, cfg.feeBps);
            && (PriceSale(l, cfg, a).Ok? <==> FeeSplits(fee) && fill.out - fee >= a.minMythOut)
            && (PriceSale(l, cfg, a).Ok? ==>
                  PriceSale(l, cfg, a).value == Quote(fill, fill.out - fee, CreatorShare(fee), fee - CreatorShare(fee)))
  {
  }

  lemma SaleIsPriced(l: Launch, t: u64)
    requires OnCurve(l) && 0 < t <= l.tokensSold
    ensures var fill := CalculateSellOutput(l.reserves, l.k, t);
            && 0 <= Gross(l, t) <= l.mythCollected
            && fill == Ok(Fill(Gross(l, t), Reserves(l.reserves.base + t, l.k / (l.reserves.base + t))))
            && PriceFits(fill.value.after)
  {
    GrossIsCovered(l, t);
    SwapsSucceedExactlyWhen(l.reserves, l.k, t);
    SellPriceFits(l.reserves, l.k, t);
  }

  /** What a sale worth `gross` still depends on. */
  predicate Accepts(s: State, cfg: Config, a: SellArgs, gross: u64) {
    var fee := CalculateFee(gross, cfg.feeBps);
    && FeeSplits(fee) && s.launch.creatorFee + CreatorShare(fee) <= U64_MAX
    && gross - fee >= a.minMythOut && Pays(s.books.vault, a, gross - fee, fee - CreatorShare(fee))
  }

  /** The launch's own vault meets every sale while it holds what it should. */
  lemma CoveredVaultPays(s: State, cfg: Config, a: SellArgs)
    requires Good(s) && s.launch.status == Active && 0 < a.tokenAmount <= s.launch.tokensSold && a.from.OwnVault?
    requires s.books.vault >= s.books.due
    ensures var gross := Gross(s.launch, a.tokenAmount);
            && 0 <= gross <= U64_MAX
            && var fee := CalculateFee(gross, cfg.feeBps);
               && Pays(s.books.vault, a, gross - fee, fee - CreatorShare(fee))
               && s.launch.creatorFee + CreatorShare(fee) <= U64_MAX
  {
    GrossIsCovered(s.launch, a.tokenAmount);
  }

  lemma SellPriceFits(r: Reserves, k: u128, t: u64)
    requires Near(r, k) && PriceFits(r)
    ensures var sell := CalculateSellOutput(r, k, t);
            sell.Ok? ==> PriceFits(sell.value.after)
  {
    var sell := CalculateSellOutput(r, k, t);
    if sell.Ok? {
      PriceFalls(r, sell.value.after);
    }
  }

  lemma PriceFalls(r: Reserves, r': Reserves)
    requires PriceFits(r) && r.base <= r'.base && r'.quote <= r.quote
    ensures PriceFits(r')
  {
    DivMono(r'.quote * 1_000_000, r.quote * 1_000_000, r'.base, r.base);
  }

  // ---------- Selling back ----------

  /** A sale of exactly the caller's tokens, paid by the launch's vault to accounts outside it. */
  function Piece(p: u64): SellArgs {
    SellArgs(p, 0, p, OwnVault, false, false)
  }

  /** The pieces sold one after the other by holders of exactly those tokens. */
  function SellPieces(s: State, cfg: Config, pieces: seq<u64>): Step
    decreases |pieces|
  {
    if pieces == [] then Ok(s) else
      var next :- Sell(s, cfg, Piece(pieces[0]));
      SellPieces(next, cfg, pieces[1..])
  }

  /** The guard of every piece's fee multiplication, read off the curve alone. */
  predicate FeesSplit(r: Reserves, k: u128, bps: FeeBps, pieces: seq<u64>)
    decreases |pieces|
  {
    pieces == [] ||
    (var fill := CalculateSellOutput(r, k, pieces[0]);
     fill.Ok? ==> FeeSplits(CalculateFee(fill.value.out, bps)) && FeesSplit(fill.value.after, k, bps, pieces[1..]))
  }

  /** What the pieces take out of the vault: their worth, less the creator's part of the fees. */
  function Outflow(r: Reserves, k: u128, bps: FeeBps, pieces: seq<u64>): nat
    decreases |pieces|
  {
    if pieces == [] || CalculateSellOutput(r, k, pieces[0]).Err? then 0 else
      var fill := CalculateSellOutput(r, k, pieces[0]).value;
      fill.out - CreatorShare(CalculateFee(fill.out, bps)) + Outflow(fill.after, k, bps, pieces[1..])
  }

  /** What they leave to the creator. */
  function Kept(r: Reserves, k: u128, bps: FeeBps, pieces: seq<u64>): nat
    decreases |pieces|
  {
    if pieces == [] || CalculateSellOutput(r, k, pieces[0]).Err? then 0 else
      var fill := CalculateSellOutput(r, k, pieces[0]).value;
      CreatorShare(CalculateFee(fill.out, bps)) + Kept(fill.after, k, bps, pieces[1..])
  }

  /** The tokens exist, no fee overflows the handler's multiplication or the creator's account, and the vault holds
      what the pieces take out of it. */
  predicate CanSell(r: Reserves, k: u128, bps: FeeBps, pieces: seq<u64>, creatorFee: int, supply: int, vault: int) {
    && FeesSplit(r, k, bps, pieces) && Sum(pieces) <= supply && Outflow(r, k, bps, pieces) <= vault
    && creatorFee + Kept(r, k, bps, pieces) <= U64_MAX
  }

  lemma CanSellFirst(r: Reserves, k: u128, bps: FeeBps, pieces: seq<u64>, creatorFee: int, supply: int, vault: int)
    requires pieces != [] && CalculateSellOutput(r, k, pieces[0]).Ok?
    ensures var fill := CalculateSellOutput(r, k, pieces[0]).value;
            var fee := CalculateFee(fill.out, bps);
            CanSell(r, k, bps, pieces, creatorFee, supply, vault)
            <==> && FeeSplits(fee)
                 && CanSell(fill.after, k, bps, pieces[1..], creatorFee + CreatorShare(fee), supply - pieces[0],
                            vault - (fill.out - CreatorShare(fee)))
  {
  }

  /** One piece of at most the tokens sold. */
  lemma PieceSells(s: State, cfg: Config, p: u64)
    requires Good(s) && s.launch.status == Active && !cfg.paused && 0 < p <= s.launch.tokensSold
    ensures var l, b := s.launch, s.books;
            var fill, step := CalculateSellOutput(l.reserves, l.k, p), Sell(s, cfg, Piece(p));
            && fill.Ok? && fill.value.out <= l.mythCollected
            && fill.value.after == Reserves(l.reserves.base + p, l.k / (l.reserves.base + p))
            && var fee := CalculateFee(fill.value.out, cfg.feeBps);
            && var outflow := fill.value.out - CreatorShare(fee);
            && (step.Ok? <==> && FeeSplits(fee) && p <= b.supply && outflow <= b.vault
                              && l.creatorFee + CreatorShare(fee) <= U64_MAX)
            && (step.Ok? ==>
                  var m, d := step.value.launch, step.value.books;
                  && m.reserves == fill.value.after && m.tokensSold == l.tokensSold - p
                  && m.mythCollected == l.mythCollected - fill.value.out && m.k == l.k && m.status == Active
                  && m.creatorFee == l.creatorFee + CreatorShare(fee)
                  && d.vault == b.vault - outflow && d.due == b.due - outflow && d.supply == b.supply - p)
  {
    SaleIsPriced(s.launch, p);
    SellSucceedsExactlyWhen(s, cfg, Piece(p));
  }

  /** Outstanding tokens can be sold back in any order and chunking exactly when nothing of that stands in the way. */
  lemma {:induction false} OutstandingTokensSellBack(s: State, cfg: Config, pieces: seq<u64>)
    requires Good(s) && s.launch.status == Active && !cfg.paused
    requires AllPositive(pieces) && Sum(pieces) <= s.launch.tokensSold
    ensures var l, b, t := s.launch, s.books, SellPieces(s, cfg, pieces);
            && (t.Ok? <==> CanSell(l.reserves, l.k, cfg.feeBps, pieces, l.creatorFee, b.supply, b.vault))
            && (t.Ok? ==>
                  && var m, d, outflow := t.value.launch, t.value.books, Outflow(l.reserves, l.k, cfg.feeBps, pieces);
                  && Good(t.value) && m.tokensSold == l.tokensSold - Sum(pieces)
                  && d.vault == b.vault - outflow && d.due == b.due - outflow)
    decreases |pieces|
  {
    if pieces != [] {
      var p := pieces[0];
      assert 0 < p <= s.launch.tokensSold;
      PieceSells(s, cfg, p);
      CanSellFirst(s.launch.reserves, s.launch.k, cfg.feeBps, pieces, s.launch.creatorFee,
                   s.books.supply, s.books.vault);
      var step := Sell(s, cfg, Piece(p));
      if step.Ok? {
        SellKeepsGood(s, cfg, Piece(p));
        OutstandingTokensSellBack(step.value, cfg, pieces[1..]);
      }
    }
  }

  /** The reserves end where one sale of all of them would take them. */
  lemma {:induction false} PiecesEndLikeOneSale(s: State, cfg: Config, pieces: seq<u64>)
    requires Near(s.launch.reserves, s.launch.k) && s.launch.k > 0 && pieces != [] && AllPositive(pieces)
    requires Sum(pieces) <= U64_MAX && SellPieces(s, cfg, pieces).Ok?
    ensures var whole := CalculateSellOutput(s.launch.reserves, s.launch.k, Sum(pieces));
            whole.Ok? && SellPieces(s, cfg, pieces).value.launch.reserves == whole.value.after
    decreases |pieces|
  {
    var p, tail := pieces[0], pieces[1..];
    SellTrades(s, cfg, Piece(p));
    var next := Sell(s, cfg, Piece(p)).value;
    if tail != [] {
      SumIsPositive(tail);
      SellInTwo(s.launch.reserves, s.launch.k, p, Sum(tail));
      PiecesEndLikeOneSale(next, cfg, tail);
    }
  }

  /** Read off the curve alone: what pieces take out and leave is the fall of the quote, */
  lemma {:induction false} OutflowIsFall(r: Reserves, k: u128, bps: FeeBps, pieces: seq<u64>)
    requires Near(r, k) && k > 0 && r.base > 0 && AllPositive(pieces) && r.base + Sum(pieces) <= U64_MAX
    ensures Outflow(r, k, bps, pieces) + Kept(r, k, bps, pieces) <= r.quote - k / (r.base + Sum(pieces))
    decreases |pieces|
  {
    if pieces == [] {
      FloorBelowQuote(r, k);
    } else {
      var p := pieces[0];
      SwapsSucceedExactlyWhen(r, k, p);
      SellStaysNear(r, k, p);
      OutflowIsFall(CalculateSellOutput(r, k, p).value.after, k, bps, pieces[1..]);
    }
  }

  lemma FloorBelowQuote(r: Reserves, k: u128)
    requires Near(r, k) && r.base > 0
    ensures k / r.base <= r.quote
  {
    DivBounds(k, r.base);
    if k / r.base > r.quote {
      MulMono(r.base, r.quote + 1, k / r.base);
    }
  }

  /** and their fees split if the fee on the whole fall does. */
  lemma {:induction false} SmallFallsAlwaysSplit(r: Reserves, k: u128, bps: FeeBps, pieces: seq<u64>, most: u64)
    requires Near(r, k) && k > 0 && r.base > 0 && AllPositive(pieces) && r.base + Sum(pieces) <= U64_MAX
    requires r.quote - k / (r.base + Sum(pieces)) <= most && FeeSplits(CalculateFee(most, bps))
    ensures FeesSplit(r, k, bps, pieces)
    decreases |pieces|
  {
    if pieces != [] {
      var p := pieces[0];
      SwapsSucceedExactlyWhen(r, k, p);
      SellStaysNear(r, k, p);
      var fill := CalculateSellOutput(r, k, p).value;
      DivMono(k, k, r.base + Sum(pieces), r.base + p);
      FeeMono(fill.out, most, bps);
      SmallFallsAlwaysSplit(fill.after, k, bps, pieces[1..], most);
    }
  }

  lemma FeeMono(a: u64, b: u64, bps: FeeBps)
    requires a <= b
    ensures CalculateFee(a, bps) <= CalculateFee(b, bps)
  {
    MulMono(bps, a, b);
    DivMono(a * bps, b * bps, 10_000, 10_000);
  }

  /** So a vault that holds what it should meets every chunking of all tokens not burned, and no fee is in the way if
      the one on everything collected is not. */
  lemma CoveredTokensSellBack(s: State, cfg: Config, pieces: seq<u64>)
    requires Good(s) && s.launch.status == Active && !cfg.paused
    requires AllPositive(pieces) && Sum(pieces) <= s.books.supply && s.books.vault >= s.books.due
    ensures SellPieces(s, cfg, pieces).Ok? <==> FeesSplit(s.launch.reserves, s.launch.k, cfg.feeBps, pieces)
    ensures FeeSplits(CalculateFee(s.launch.mythCollected, cfg.feeBps)) ==> SellPieces(s, cfg, pieces).Ok?
  {
    OutstandingTokensSellBack(s, cfg, pieces);
    PiecesAreCovered(s.launch, cfg.feeBps, pieces);
  }

  lemma PiecesAreCovered(l: Launch, bps: FeeBps, pieces: seq<u64>)
    requires OnCurve(l) && AllPositive(pieces) && Sum(pieces) <= l.tokensSold
    ensures Outflow(l.reserves, l.k, bps, pieces) + Kept(l.reserves, l.k, bps, pieces) <= l.mythCollected
    ensures FeeSplits(CalculateFee(l.mythCollected, bps)) ==> FeesSplit(l.reserves, l.k, bps, pieces)
  {
    OutflowIsFall(l.reserves, l.k, bps, pieces);
    FallIsCollected(l, Sum(pieces));
    if FeeSplits(CalculateFee(l.mythCollected, bps)) {
      SmallFallsAlwaysSplit(l.reserves, l.k, bps, pieces, l.mythCollected);
    }
  }

  lemma FallIsCollected(l: Launch, t: nat)
    requires OnCurve(l) && t <= l.tokensSold
    ensures Gross(l, t) <= l.mythCollected
  {
    DivMono(l.k, l.k, l.maxSupply, l.reserves.base + t);
    WholeSupplyPrice(l);
  }

  /** Selling back everything returns the curve exactly to its opening point with nothing left collected; the vault
      keeps the creator's fees and whatever it held too much, or lacks it. */
  lemma SellingEverythingRestoresTheOpening(s: State, cfg: Config, pieces: seq<u64>)
    requires Good(s) && s.launch.status == Active && !cfg.paused
    requires AllPositive(pieces) && Sum(pieces) == s.launch.tokensSold > 0
    ensures var l, b, t := s.launch, s.books, SellPieces(s, cfg, pieces);
            && (t.Ok? <==> && FeesSplit(l.reserves, l.k, cfg.feeBps, pieces) && b.burned == 0
                           && Outflow(l.reserves, l.k, cfg.feeBps, pieces) <= b.vault
                           && l.creatorFee + Kept(l.reserves, l.k, cfg.feeBps, pieces) <= U64_MAX)
            && (t.Ok? ==>
                  && t.value.launch.reserves == Reserves(l.maxSupply, l.initialQuote)
                  && t.value.launch.mythCollected == 0
                  && t.value.books.vault == t.value.launch.creatorFee + b.vault - b.due)
  {
    OutstandingTokensSellBack(s, cfg, pieces);
    var l := s.launch;
    if SellPieces(s, cfg, pieces).Ok? {
      SellKeepsTerms(s, cfg, pieces);
      PiecesEndLikeOneSale(s, cfg, pieces);
      WholeSupplyPrice(l);
      SaleIsPriced(l, l.tokensSold);
    }
  }

  lemma {:induction false} SellKeepsTerms(s: State, cfg: Config, pieces: seq<u64>)
    requires SellPieces(s, cfg, pieces).Ok?
    ensures var l, m := s.launch, SellPieces(s, cfg, pieces).value.launch;
            && m.maxSupply == l.maxSupply && m.initialQuote == l.initialQuote
            && m.creatorFeeClaimed == l.creatorFeeClaimed
    decreases |pieces|
  {
    if pieces != [] {
      SellKeepsTerms(Sell(s, cfg, Piece(pieces[0])).value, cfg, pieces[1..]);
    }
  }

  // ---------- Graduation ----------

  /** The payments leave the launch's vault for accounts outside it. */
  predicate Outward(a: GraduateArgs) {
    a.from.OwnVault? && !a.dexIntoVault && !a.creatorIntoVault && !a.foundationIntoVault
  }

  predicate Distributable(s: State, c: Counters) {
    && (s.launch.status == Active ==> s.launch.reserves.quote >= s.launch.migrationThreshold)
    && s.launch.status != Failed && !s.launch.creatorFeeClaimed
    && s.launch.mythCollected * 80 <= U64_MAX
    && c.graduations < U64_MAX && c.mythCollected + s.launch.mythCollected <= U64_MAX
  }

  /** Graduation completes the token's supply, burned tokens included. Paid outward, it pays out all collected MYTH and
      nothing else and leaves the previously accrued creator fees and any surplus; paid by another account, it takes
      nothing out of the launch's vault. */
  lemma GraduationDistributesExactly(s: State, c: Counters, a: GraduateArgs)
    requires Good(s)
    ensures Graduate(s, c, a).Ok? <==>
              Distributable(s, c) && Distributed(s.books.vault, a, SharesOf(s.launch.mythCollected)).Ok?
    ensures Graduate(s, c, a).Ok? ==>
              var b, d := s.books, Graduate(s, c, a).value.books;
              d.supply + d.burned == s.launch.maxSupply && Balanced(Graduate(s, c, a).value)
    ensures Outward(a) ==>
              (Distributed(s.books.vault, a, SharesOf(s.launch.mythCollected)).Ok? <==>
                 s.launch.mythCollected <= s.books.vault)
    ensures Graduate(s, c, a).Ok? && Outward(a) ==>
              var b, d := s.books, Graduate(s, c, a).value.books;
              && (d.dexMyth - b.dexMyth) + (d.creator - b.creator) + (d.foundation - b.foundation)
                 == s.launch.mythCollected
              && 10 * (d.creator - b.creator) <= s.launch.mythCollected < 10 * (d.creator - b.creator) + 10
              && 5 * (d.dexMyth - b.dexMyth) <= 4 * s.launch.mythCollected < 5 * (d.dexMyth - b.dexMyth) + 5
              && d.vault == s.launch.creatorFee + b.vault - b.due
    ensures Graduate(s, c, a).Ok? && a.from.Foreign? ==>
              var b, d := s.books, Graduate(s, c, a).value.books;
              && d.vault >= b.vault && d.dexMyth == b.dexMyth && d.creator == b.creator && d.foundation == b.foundation
  {
    DistributedOutward(s.books.vault, a, s.launch.mythCollected);
    if Graduate(s, c, a).Ok? {
      GraduateKeepsGood(s, c, a);
      DistributedBy(s.books.vault, a, SharesOf(s.launch.mythCollected));
    }
  }

  lemma DistributedOutward(vault: u64, a: GraduateArgs, collected: u64)
    ensures var p := SharesOf(collected);
            && p.dex + p.creator + p.foundation == collected
            && 10 * p.creator <= collected < 10 * p.creator + 10
            && 5 * p.dex <= 4 * collected < 5 * p.dex + 5
            && (Outward(a) ==> (Distributed(vault, a, p).Ok? <==> collected <= vault))
  {
  }

  /** The same books but for what others give to the vault and burn. */
  predicate OnlyGiftsAndBurns(s: State, t: State) {
    && t.launch == s.launch && t.books.vault >= s.books.vault
    && t.books == s.books.(vault := t.books.vault, paidIn := t.books.paidIn, supply := t.books.supply,
                           burned := t.books.burned)
  }

  /** Once the payout flag is set no instruction has any effect: whatever the vault then holds stays there. */
  lemma {:induction false} NothingMovesAfterThePayout(s: State, cs: seq<Command>)
    requires s.launch.status == Graduated && s.launch.creatorFeeClaimed
    ensures OnlyGiftsAndBurns(s, Run(s, cs))
    decreases |cs|
  {
    if cs != [] {
      NothingMovesAfterThePayout(After(s, cs[0]), cs[1..]);
    }
  }

  /** The collected MYTH of a graduated launch is distributed unless its creator claims the accrued fees first: a
      claim before the distribution sets the same flag, and the collected MYTH then stays in the vault. */
  lemma ClaimingFirstForfeitsTheDistribution(s: State, c: Counters, a: GraduateArgs, claim: ClaimArgs, cs: seq<Command>)
    requires Good(s) && s.launch.status == Graduated
    ensures Graduate(s, c, a).Ok? <==>
              Distributable(s, c) && Distributed(s.books.vault, a, SharesOf(s.launch.mythCollected)).Ok?
    ensures ClaimCreatorFee(s, claim).Ok? <==>
              && !s.launch.creatorFeeClaimed && s.launch.creatorFee > 0
              && Moved(s.books.vault, claim.from, claim.intoVault, s.launch.creatorFee).Ok?
    ensures ClaimCreatorFee(s, claim).Ok? ==>
              var t := Run(ClaimCreatorFee(s, claim).value, cs);
              t.books.vault >= s.books.vault - s.launch.creatorFee && t.books.dexMyth == s.books.dexMyth
  {
    GraduationDistributesExactly(s, c, a);
    if ClaimCreatorFee(s, claim).Ok? {
      MovedBy(s.books.vault, claim.from, claim.intoVault, s.launch.creatorFee);
      NothingMovesAfterThePayout(ClaimCreatorFee(s, claim).value, cs);
    }
  }

  /** So does a graduation that anyone has paid by another account of the vault's authority. */
  lemma ForeignGraduationForfeitsTheDistribution(s: State, c: Counters, a: GraduateArgs, cs: seq<Command>)
    requires Good(s) && Graduate(s, c, a).Ok? && a.from.Foreign?
    ensures var t := Run(Graduate(s, c, a).value, cs);
            && t.books.vault >= s.books.vault && t.books.dexMyth == s.books.dexMyth
            && t.books.creator == s.books.creator && t.books.foundation == s.books.foundation
  {
    GraduationDistributesExactly(s, c, a);
    NothingMovesAfterThePayout(Graduate(s, c, a).value, cs);
  }

  // ---------- Runs ----------

  lemma GraduatingBuy(c: Counters, funds: nat)
    requires c.launched < U64_MAX && funds >= 1_000
    ensures var cfg := Config(1_000, false);
            var created := Create(cfg, CreateArgs(1_000_000, 1_000_000, 1_000_100, 0, 0, 0, false), c);
            && created.Ok? && Good(created.value)
            && var s := After(created.value, BuyCommand(cfg, BuyArgs(1_000, 0, funds, true, false)));
               && Good(s) && s.launch.status == Graduated && !s.launch.creatorFeeClaimed
               && s.launch.creatorFee == 30 && s.launch.mythCollected == 900
               && s.books.vault == 930 && s.books.dexMyth == 0 && s.books.creator == 0
  {
    var cfg := Config(1_000, false);
    var a := CreateArgs(1_000_000, 1_000_000, 1_000_100, 0, 0, 0, false);
    CreateIsGood(cfg, a, c);
    var s0 := Create(cfg, a, c).value;
    var buy := BuyArgs(1_000, 0, funds, true, false);
    assert CalculateBuyOutput(s0.launch.reserves, s0.launch.k, 900) == Ok(Fill(899, Reserves(999_101, 1_000_900)));
    BuyKeepsGood(s0, cfg, buy);
  }

  /** It happens: a buy of a thousand graduates a small launch, and its creator claims the thirty of accrued fees;
      the nine hundred collected stay in the vault whatever follows. */
  lemma ForfeitureIsReachable(c: Counters, funds: nat, cs: seq<Command>)
    requires c.launched < U64_MAX && funds >= 1_000
    ensures var cfg := Config(1_000, false);
            var created := Create(cfg, CreateArgs(1_000_000, 1_000_000, 1_000_100, 0, 0, 0, false), c);
            && created.Ok?
            && var s := After(created.value, BuyCommand(cfg, BuyArgs(1_000, 0, funds, true, false)));
               var claimed := ClaimCreatorFee(s, ClaimArgs(OwnVault, false));
               && s.launch.mythCollected == 900 && claimed.Ok?
               && Run(claimed.value, cs).books.vault >= 900 && Run(claimed.value, cs).books.dexMyth == 0
  {
    GraduatingBuy(c, funds);
    var cfg := Config(1_000, false);
    var s0 := Create(cfg, CreateArgs(1_000_000, 1_000_000, 1_000_100, 0, 0, 0, false), c).value;
    var s := After(s0, BuyCommand(cfg, BuyArgs(1_000, 0, funds, true, false)));
    ClaimingFirstForfeitsTheDistribution(s, c, GraduateArgs(OwnVault, false, false, false),
                                         ClaimArgs(OwnVault, false), cs);
  }

  /** And here it is a stranger, handing in another account as the vault: all 930 stay, and the creator gets nothing. */
  lemma ForeignGraduationIsReachable(c: Counters, funds: nat, cs: seq<Command>)
    requires c.launched < U64_MAX && funds >= 1_000 && c.graduations < U64_MAX && c.mythCollected + 900 <= U64_MAX
    ensures var cfg := Config(1_000, false);
            var created := Create(cfg, CreateArgs(1_000_000, 1_000_000, 1_000_100, 0, 0, 0, false), c);
            && created.Ok?
            && var s := After(created.value, BuyCommand(cfg, BuyArgs(1_000, 0, funds, true, false)));
               var graduated := Graduate(s, c, GraduateArgs(Foreign(true), false, false, false));
               && graduated.Ok?
               && var t := Run(graduated.value, cs);
                  t.books.vault >= 930 && t.books.dexMyth == 0 && t.books.creator == 0
  {
    GraduatingBuy(c, funds);
    var cfg := Config(1_000, false);
    var s0 := Create(cfg, CreateArgs(1_000_000, 1_000_000, 1_000_100, 0, 0, 0, false), c).value;
    var s := After(s0, BuyCommand(cfg, BuyArgs(1_000, 0, funds, true, false)));
    var a := GraduateArgs(Foreign(true), false, false, false);
    GraduationDistributesExactly(s, c, a);
    ForeignGraduationForfeitsTheDistribution(s, c, a, cs);
  }

  const NO_FEES := Config(0, false)
  const SMALL := CreateArgs(1_000_000, 1_000_000, 2_000_000, 0, 0, 0, false)

  /** A thousand for the launch's vault, and a thousand for some other account. */
  const HONEST: Command := BuyCommand(NO_FEES, BuyArgs(1_000, 999, 1_000, true, false))
  const OTHER: Command := BuyCommand(NO_FEES, BuyArgs(1_000, 997, 1_000, false, false))

  /** A launch without fees at some point of its curve. */
  function SmallLaunch(base: u64, quote: u64, sold: u64, collected: u64): Launch {
    Launch(Reserves(base, quote), 1_000_000, sold, collected, Active, 0, false, 1_000_000_000_000, 2_000_000, 1_000_000)
  }

  lemma AfterCreation(c: Counters)
    requires c.launched < U64_MAX
    ensures Create(NO_FEES, SMALL, c)
            == Ok(State(SmallLaunch(1_000_000, 1_000_000, 0, 0), Books(0, 0, 0, 0, 0, 0, 0, 0, 0, 0)))
  {
  }

  const K: u128 := 1_000_000_000_000

  /** Without fees a trade moves just what the curve says. */
  lemma FreeBuy(s: State, cfg: Config, a: BuyArgs, fill: Fill)
    requires cfg.feeBps == 0 && !cfg.paused && a.mythAmount > 0 && s.launch.status == Active
    requires CalculateBuyOutput(s.launch.reserves, s.launch.k, a.mythAmount) == Ok(fill) && PriceFits(fill.after)
    requires fill.out >= a.minTokensOut && a.mythAmount <= a.funds && fill.after.quote < s.launch.migrationThreshold
    requires s.launch.tokensSold + fill.out <= U64_MAX && s.launch.mythCollected + a.mythAmount <= U64_MAX
    requires s.books.vault + a.mythAmount <= U64_MAX
    ensures var inflow := Part(a.ownVault, a.mythAmount);
            Buy(s, cfg, a)
            == Ok(State(s.launch.(reserves := fill.after, tokensSold := s.launch.tokensSold + fill.out,
                                  mythCollected := s.launch.mythCollected + a.mythAmount),
                        s.books.(vault := s.books.vault + inflow, due := s.books.due + a.mythAmount,
                                 paidIn := s.books.paidIn + inflow, supply := s.books.supply + fill.out)))
  {
    assert CalculateFee(a.mythAmount, 0) == 0;
  }

  lemma FreeSale(s: State, cfg: Config, p: u64, fill: Fill)
    requires cfg.feeBps == 0 && !cfg.paused && s.launch.status == Active
    requires 0 < p <= s.launch.tokensSold && p <= s.books.supply
    requires CalculateSellOutput(s.launch.reserves, s.launch.k, p) == Ok(fill) && PriceFits(fill.after)
    requires fill.out <= s.launch.mythCollected
    ensures Sell(s, cfg, Piece(p)) == if fill.out > s.books.vault then Err(TokenTransferFailed) else
              Ok(State(s.launch.(reserves := fill.after, tokensSold := s.launch.tokensSold - p,
                                 mythCollected := s.launch.mythCollected - fill.out),
                       s.books.(vault := s.books.vault - fill.out, due := s.books.due - fill.out,
                                paidOut := s.books.paidOut + fill.out, supply := s.books.supply - p)))
  {
    assert CalculateFee(fill.out, 0) == 0;
  }

  lemma HonestPrice()
    ensures CalculateBuyOutput(Reserves(1_000_000, 1_000_000), K, 1_000) == Ok(Fill(999, Reserves(999_001, 1_001_000)))
    ensures PriceFits(Reserves(999_001, 1_001_000))
  {
    DivUnique(K, 1_001_000, 999_000);
    DivUnique(1_001_000 * 1_000_000, 999_001, 1_002_000);
  }

  lemma OtherPrice()
    ensures CalculateBuyOutput(Reserves(999_001, 1_001_000), K, 1_000) == Ok(Fill(997, Reserves(998_004, 1_002_000)))
    ensures PriceFits(Reserves(998_004, 1_002_000))
  {
    DivUnique(K, 1_002_000, 998_003);
    DivUnique(1_002_000 * 1_000_000, 998_004, 1_004_003);
  }

  lemma OtherSalePrice()
    ensures CalculateSellOutput(Reserves(998_004, 1_002_000), K, 996) == Ok(Fill(999, Reserves(999_000, 1_001_001)))
    ensures PriceFits(Reserves(999_000, 1_001_001))
  {
    DivUnique(K, 999_000, 1_001_001);
    DivUnique(1_001_001 * 1_000_000, 999_000, 1_002_003);
  }

  lemma HonestSalePrice()
    ensures CalculateSellOutput(Reserves(999_000, 1_001_001), K, 999) == Ok(Fill(1_000, Reserves(999_999, 1_000_001)))
    ensures PriceFits(Reserves(999_999, 1_000_001))
  {
    DivUnique(K, 999_999, 1_000_001);
    DivUnique(1_000_001 * 1_000_000, 999_999, 1_000_002);
  }

  lemma TwoBuys(s: State)
    requires s == State(SmallLaunch(1_000_000, 1_000_000, 0, 0), Books(0, 0, 0, 0, 0, 0, 0, 0, 0, 0))
    ensures After(After(s, HONEST), OTHER)
            == State(SmallLaunch(998_004, 1_002_000, 1_996, 2_000), Books(1_000, 2_000, 0, 0, 0, 1_000, 0, 1_996, 0, 0))
  {
    HonestPrice();
    FreeBuy(s, NO_FEES, HONEST.buy, Fill(999, Reserves(999_001, 1_001_000)));
    OtherPrice();
    FreeBuy(After(s, HONEST), NO_FEES, OTHER.buy, Fill(997, Reserves(998_004, 1_002_000)));
  }

  lemma TwoSales(s: State)
    requires s == State(SmallLaunch(998_004, 1_002_000, 1_996, 2_000),
                        Books(1_000, 2_000, 0, 0, 0, 1_000, 0, 1_996, 0, 0))
    ensures var sold := Sell(s, NO_FEES, Piece(996));
            && sold.Ok? && sold.value.books.vault == 1 && sold.value.books.paidOut == 999
            && Sell(sold.value, NO_FEES, Piece(999)) == Err(TokenTransferFailed)
  {
    OtherSalePrice();
    FreeSale(s, NO_FEES, 996, Fill(999, Reserves(999_000, 1_001_001)));
    HonestSalePrice();
    FreeSale(Sell(s, NO_FEES, Piece(996)).value, NO_FEES, 999, Fill(1_000, Reserves(999_999, 1_000_001)));
  }

  /** Nothing compares the account a buyer pays with the launch's vault. The other buyer's tokens sell against the
      honest one's thousand, and the honest one's sale is then refused. */
  lemma PaymentElsewhereDrainsTheVault(c: Counters)
    requires c.launched < U64_MAX
    ensures var created := Create(NO_FEES, SMALL, c);
            && created.Ok?
            && var s := Run(created.value, [HONEST, OTHER]);
               var sold := Sell(s, NO_FEES, Piece(996));
               && s.books.vault == 1_000 && s.launch.mythCollected == 2_000
               && sold.Ok? && sold.value.books.vault == 1 && sold.value.books.paidOut == 999
               && Sell(sold.value, NO_FEES, Piece(999)) == Err(TokenTransferFailed)
  {
    AfterCreation(c);
    var s0 := Create(NO_FEES, SMALL, c).value;
    assert [HONEST, OTHER][1..] == [OTHER] && [OTHER][1..] == [];
    assert Run(After(s0, HONEST), [OTHER]) == Run(After(After(s0, HONEST), OTHER), []);
    assert Run(s0, [HONEST, OTHER]) == Run(After(s0, HONEST), [OTHER]);
    TwoBuys(s0);
    TwoSales(After(After(s0, HONEST), OTHER));
  }
}

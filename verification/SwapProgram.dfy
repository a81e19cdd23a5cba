/** The pool over accounts updated in place. The handlers leave the accounts as their specifications say; the entry
    point dispatches to them and keeps every liquidity token and every fee accounted for. */
module SwapProgram {
  import opened Numbers
  import opened Swap
  import opened SwapRuns
  import opened SwapShares
  import opened Totals

  // ---------- The square root by Newton's method ----------

  /** From any guess the next one is not below the root. */
  lemma NewtonStays(n: nat, x: nat)
    requires x > 0
    ensures var y := (x + n / x) / 2; n < (y + 1) * (y + 1)
  {
    var q := n / x;
    var y := (x + q) / 2;
    DivBounds(n, x);
    assert n < x * (q + 1);
    MeanExceedsProduct(x, q + 1);
    SquareMono(x + q + 1, 2 * (y + 1));
    assert (2 * (y + 1)) * (2 * (y + 1)) == 4 * ((y + 1) * (y + 1));
  }

  lemma MeanExceedsProduct(x: nat, z: nat)
    ensures 4 * (x * z) <= (x + z) * (x + z)
  {
    if x <= z {
      Squares(x, z - x);
    } else {
      Squares(z, x - z);
    }
  }

  lemma Squares(x: nat, d: nat)
    ensures 4 * (x * (x + d)) <= (x + (x + d)) * (x + (x + d))
  {
    assert (x + (x + d)) * (x + (x + d)) == 4 * (x * (x + d)) + d * d;
  }

  /** A guess that no longer falls is not above the root either. */
  lemma NewtonStops(n: nat, x: nat)
    requires x > 0 && (x + n / x) / 2 >= x
    ensures x * x <= n
  {
    DivBounds(n, x);
    MulMono(x, x, n / x);
  }

  method Isqrt(n: u128) returns (x: u128)
    requires n < U128_MAX
    ensures x == Root(n)
  {
    if n == 0 { return 0; }
    x := n;
    var y := (x + 1) / 2;
    DivUnique(n, n, 1);
    MulMono(n + 1, 1, n + 1);
    while y < x
      invariant 0 < x <= n && y == (x + n / x) / 2 && n < (x + 1) * (x + 1)
      decreases x
    {
      NewtonStays(n, x);
      x := y;
      y := (x + n / x) / 2;
    }
    NewtonStops(n, x);
    RootIsUnique(n, x);
  }

  // ---------- The handlers ----------

  function Verdict(step: Step): Outcome<SwapError> {
    if step.Ok? then Pass else Fail(step.error)
  }

  function After(s: Amm, step: Step): Amm {
    if step.Ok? then step.value else s
  }

  lemma NoFeePerToken(lpFee: u64, lpSupply: u64)
    requires lpFee == 0 || lpSupply == 0
    ensures PerToken(lpFee, lpSupply) == 0
  {
    if lpSupply > 0 {
      DivUnique(0, lpSupply, 0);
    }
  }

  class Program {
    var cfg: Config
    var open: bool
    var a: Side
    var b: Side
    var lpSupply: u64
    var volume: u128
    var fees: u128
    var positions: map<Key, Position>

    ghost var history: History

    /** The vaults, the liquidity tokens and the fees of both tokens are accounted for. */
    ghost predicate Valid()
      reads this
    {
      Good(View(), history)
    }

    function View(): Amm
      reads this
    {
      Amm(cfg, Pool(open, a, b, lpSupply, volume, fees, positions))
    }

    /** What Valid means for an open pool. */
    lemma Accounts()
      requires Valid() && open
      ensures a.vault == a.reserve + history.a.gifts && b.vault == b.reserve + history.b.gifts
      ensures lpSupply == history.minted + Total(positions, LpOf) >= history.minted
      ensures FeesBalance(history.a, a, history.minted, Total(positions, OwedA(a.acc)))
      ensures FeesBalance(history.b, b, history.minted, Total(positions, OwedB(b.acc)))
    {
      GoodBalances(View().pool, history);
    }

    constructor (cfg: Config, p: Pool)
      requires Good(Amm(cfg, p), Opening(p))
      ensures View() == Amm(cfg, p) && history == Opening(p) && Valid()
    {
      this.cfg := cfg;
      open, a, b, lpSupply, volume, fees, positions := p.open, p.a, p.b, p.lpSupply, p.volume, p.fees, p.positions;
      history := Opening(p);
    }

    /** The root of a product of two 64-bit amounts always fits 64 bits. */
    static method ProcessCreatePool(cfg: Config, x: u64, y: u64, fundsX: nat, fundsY: nat)
      returns (r: Outcome<SwapError>, program: Program?)
      requires cfg.protocolBps + cfg.lpBps <= MAX_TOTAL_FEE
      ensures var created := CreatePool(cfg, x, y, fundsX, fundsY);
              && (r.Pass? <==> created.Ok?) && (r.Fail? ==> created == Err(r.reason) && r.reason != Overflow)
              && (program == null <==> r.Fail?)
              && (program != null ==> fresh(program) && program.View() == Amm(cfg, created.value) && program.Valid())
    {
      program := null;
      if x == 0 || y == 0 { return Fail(InvalidAmount), null; }
      if cfg.paused { return Fail(ProgramPaused), null; }
      if x > fundsX || y > fundsY { return Fail(TransferFailed), null; }
      MulMono(x, y, U64_MAX);
      MulMono(U64_MAX, x, U64_MAX);
      RootOfProduct(Min(x, y), if x <= y then y else x);
      Commutes(x, y);
      var root := Isqrt(x * y);
      if root <= MIN_LIQUIDITY { return Fail(InsufficientLiquidityMinted), null; }
      CreateIsGood(cfg, x, y, fundsX, fundsY);
      program := new Program(cfg, Pool(true, Side(x, x, 0), Side(y, y, 0), root, 0, 0, map[]));
      r := Pass;
    }

    method ProcessAddLiquidity(who: Key, wantA: u64, wantB: u64, minLp: u64, fundsA: nat, fundsB: nat)
      returns (r: Outcome<SwapError>)
      modifies this`a, this`b, this`lpSupply, this`positions
      ensures r == Verdict(AddLiquidity(old(View()), who, wantA, wantB, minLp, fundsA, fundsB))
      ensures View() == After(old(View()), AddLiquidity(old(View()), who, wantA, wantB, minLp, fundsA, fundsB))
    {
      if wantA == 0 || wantB == 0 { return Fail(InvalidAmount); }
      if !open { return Fail(NotInitialized); }
      var proportional := Proportional(View().pool, wantA, wantB);
      if proportional.Err? { return Fail(proportional.error); }
      var d := proportional.value;
      if d.lp == 0 { return Fail(InsufficientLiquidityMinted); }
      if d.lp < minLp { return Fail(SlippageExceeded); }
      if d.a > fundsA || a.vault + d.a > U64_MAX { return Fail(TransferFailed); }
      if d.b > fundsB || b.vault + d.b > U64_MAX { return Fail(TransferFailed); }
      var a', b' := a.(vault := a.vault + d.a), b.(vault := b.vault + d.b);
      var position := Position(d.lp, a.acc, b.acc);
      if who in positions {
        var q := positions[who];
        var paid := PayPending(a', b', q);
        if paid.Err? { return Fail(paid.error); }
        a', b' := paid.value.a, paid.value.b;
        if q.lp + d.lp > U64_MAX { return Fail(Overflow); }
        position := position.(lp := q.lp + d.lp);
      }
      if a'.reserve + d.a > U64_MAX || b'.reserve + d.b > U64_MAX || lpSupply + d.lp > U64_MAX {
        return Fail(Overflow);
      }
      a := a'.(reserve := a'.reserve + d.a);
      b := b'.(reserve := b'.reserve + d.b);
      lpSupply := lpSupply + d.lp;
      positions := positions[who := position];
      r := Pass;
    }

    method ProcessRemoveLiquidity(who: Key, lp: u64, minA: u64, minB: u64, tokens: nat) returns (r: Outcome<SwapError>)
      modifies this`a, this`b, this`lpSupply, this`positions
      ensures r == Verdict(RemoveLiquidity(old(View()), who, lp, minA, minB, tokens))
      ensures View() == After(old(View()), RemoveLiquidity(old(View()), who, lp, minA, minB, tokens))
    {
      if lp == 0 { return Fail(InvalidAmount); }
      if who !in positions { return Fail(AccountMissing); }
      if !open { return Fail(NotInitialized); }
      if lpSupply == 0 { return Fail(ZeroLiquidity); }
      var outA, outB := Portion(lp, a.reserve, lpSupply), Portion(lp, b.reserve, lpSupply);
      if outA.Err? || outB.Err? { return Fail(Overflow); }
      if outA.value < minA || outB.value < minB { return Fail(SlippageExceeded); }
      if lp > tokens || outA.value > a.vault || outB.value > b.vault { return Fail(TransferFailed); }
      var q := positions[who];
      if q.lp < lp { return Fail(InsufficientLpTokens); }
      if outA.value > a.reserve || outB.value > b.reserve || lp > lpSupply { return Fail(Overflow); }
      positions := positions[who := q.(lp := q.lp - lp)];
      a := a.(vault := a.vault - outA.value, reserve := a.reserve - outA.value);
      b := b.(vault := b.vault - outB.value, reserve := b.reserve - outB.value);
      lpSupply := lpSupply - lp;
      r := Pass;
    }

    method ProcessSwap(x: u64, minOut: u64, aToB: bool, funds: nat) returns (r: Outcome<SwapError>)
      modifies this`cfg, this`a, this`b, this`volume, this`fees
      ensures r == Verdict(SwapTokens(old(View()), x, minOut, aToB, funds))
      ensures View() == After(old(View()), SwapTokens(old(View()), x, minOut, aToB, funds))
    {
      if x == 0 { return Fail(InvalidAmount); }
      if cfg.paused { return Fail(ProgramPaused); }
      if !open { return Fail(NotInitialized); }
      var traded := Quote(if aToB then a else b, if aToB then b else a, x, minOut, funds);
      if traded.Err? { return Fail(traded.error); }
      var t := traded.value;
      if volume + x > U128_MAX || fees + t.protocolFee + t.lpFee > U128_MAX { return Fail(Overflow); }
      if cfg.volume + x > U128_MAX || cfg.collected + t.protocolFee > U128_MAX { return Fail(Overflow); }
      if aToB {
        a, b := t.input, t.output;
      } else {
        b, a := t.input, t.output;
      }
      volume := volume + x;
      fees := fees + t.protocolFee + t.lpFee;
      cfg := cfg.(volume := cfg.volume + x, collected := cfg.collected + t.protocolFee);
      r := Pass;
    }

    /** The quote, its guards and the two tokens afterwards. */
    method Quote(i: Side, o: Side, x: u64, minOut: u64, funds: nat) returns (r: Result<Trade, SwapError>)
      ensures r == Exchange(cfg, i, o, lpSupply, x, minOut, funds)
    {
      if i.reserve == 0 || o.reserve == 0 { return Err(ZeroLiquidity); }
      if cfg.protocolBps + cfg.lpBps > BPS_DENOMINATOR { return Err(Overflow); }
      var effective := Bps(x, BPS_DENOMINATOR - cfg.protocolBps - cfg.lpBps);
      var out := AmountOut(i.reserve, o.reserve, effective);
      if out > U64_MAX { return Err(Overflow); }
      if out == 0 { return Err(InvalidAmount); }
      if out > o.reserve { return Err(InsufficientFunds); }
      if out < minOut { return Err(SlippageExceeded); }
      var protocolFee, lpFee := Bps(x, cfg.protocolBps), Bps(x, cfg.lpBps);
      if protocolFee > x || lpFee > U64_MAX { return Err(Overflow); }
      var poolInput := x - protocolFee;
      if x > funds || i.vault + poolInput > U64_MAX { return Err(TransferFailed); }
      if out > o.vault { return Err(TransferFailed); }
      var newIn, newOut := i.reserve + poolInput, o.reserve - out;
      if Product(newIn, newOut) > U128_MAX { return Err(Overflow); }
      if Product(newIn, newOut) < Product(i.reserve, o.reserve) { return Err(InvariantViolated); }
      if newIn > U64_MAX { return Err(Overflow); }
      var acc: nat := i.acc;
      if lpSupply > 0 && lpFee > 0 {
        acc := acc + PerToken(lpFee, lpSupply);
      } else {
        NoFeePerToken(lpFee, lpSupply);
      }
      if acc > U128_MAX { return Err(Overflow); }
      r := Ok(Trade(Side(newIn, i.vault + poolInput, acc), Side(newOut, o.vault - out, o.acc),
                    out, protocolFee, lpFee));
    }

    method ProcessHarvestFees(who: Key) returns (r: Outcome<SwapError>)
      modifies this`a, this`b, this`positions
      ensures r == Verdict(HarvestFees(old(View()), who))
      ensures View() == After(old(View()), HarvestFees(old(View()), who))
    {
      if who !in positions { return Fail(AccountMissing); }
      if !open { return Fail(NotInitialized); }
      var q := positions[who];
      if q.lp == 0 { return Fail(NoFeesToHarvest); }
      var feeA := Pending(a, q.lastA, q.lp);
      if feeA.Err? { return Fail(feeA.error); }
      var feeB := Pending(b, q.lastB, q.lp);
      if feeB.Err? { return Fail(feeB.error); }
      if feeA.value == 0 && feeB.value == 0 { return Fail(NoFeesToHarvest); }
      if feeA.value > a.vault || feeB.value > b.vault { return Fail(TransferFailed); }
      if feeA.value > a.reserve || feeB.value > b.reserve { return Fail(Overflow); }
      a := a.(vault := a.vault - feeA.value, reserve := a.reserve - feeA.value);
      b := b.(vault := b.vault - feeB.value, reserve := b.reserve - feeB.value);
      positions := positions[who := Position(q.lp, a.acc, b.acc)];
      r := Pass;
    }

    method ProcessUpdateConfig(protocolBps: Option<u16>, lpBps: Option<u16>) returns (r: Outcome<SwapError>)
      modifies this`cfg
      ensures r == Verdict(UpdateConfig(old(View()), protocolBps, lpBps))
      ensures View() == After(old(View()), UpdateConfig(old(View()), protocolBps, lpBps))
    {
      var cfg' := cfg;
      if protocolBps.Some? {
        if protocolBps.value + cfg'.lpBps > MAX_TOTAL_FEE { return Fail(InvalidFeeConfig); }
        cfg' := cfg'.(protocolBps := protocolBps.value);
      }
      if lpBps.Some? {
        if cfg'.protocolBps + lpBps.value > MAX_TOTAL_FEE { return Fail(InvalidFeeConfig); }
        cfg' := cfg'.(lpBps := lpBps.value);
      }
      cfg := cfg';
      r := Pass;
    }

    method Dispatch(c: Command) returns (r: Outcome<SwapError>)
      modifies this`cfg, this`open, this`a, this`b, this`lpSupply, this`volume, this`fees, this`positions
      ensures r == Verdict(Execute(old(View()), c)) && View() == After(old(View()), Execute(old(View()), c))
    {
      match c {
        case Add(who, wantA, wantB, minLp, fundsA, fundsB) =>
          r := ProcessAddLiquidity(who, wantA, wantB, minLp, fundsA, fundsB);
        case Remove(who, lp, minA, minB, tokens) => r := ProcessRemoveLiquidity(who, lp, minA, minB, tokens);
        case Trading(x, minOut, aToB, funds) => r := ProcessSwap(x, minOut, aToB, funds);
        case Harvest(who) => r := ProcessHarvestFees(who);
        case Close =>
          if !open { return Fail(NotInitialized); }
          open, a, b, lpSupply, volume, fees := false, Side(0, 0, 0), Side(0, 0, 0), 0, 0, 0;
          r := Pass;
        case Configure(protocolBps, lpBps) => r := ProcessUpdateConfig(protocolBps, lpBps);
        case Pause(paused) =>
          cfg := cfg.(paused := paused);
          r := Pass;
        case Gift(toA, amount) =>
          if (if toA then a.vault else b.vault) + amount > U64_MAX { return Fail(TransferFailed); }
          if toA {
            a := a.(vault := a.vault + amount);
          } else {
            b := b.(vault := b.vault + amount);
          }
          r := Pass;
        case Elsewhere(volume, collected) =>
          cfg := cfg.(volume := volume, collected := collected);
          r := Pass;
      }
    }

    /** The history of a command about to run. */
    ghost method Note(c: Command)
      requires Valid()
      modifies this`history
      ensures history == Noted(old(history), View(), c)
      ensures Good(After(View(), Execute(View(), c)), history)
    {
      PerformKeepsGood(View(), history, c);
      history := Noted(history, View(), c);
    }

    /** The entry point. Every command is entered in the history; while the pool is open its vaults hold the reserves,
        its fees balance, and neither of the two guards behind the swap formula ever fires. */
    method ProcessInstruction(c: Command) returns (r: Outcome<SwapError>)
      requires Valid()
      modifies this
      ensures r == Verdict(Execute(old(View()), c)) && View() == After(old(View()), Execute(old(View()), c))
      ensures history == Noted(old(history), old(View()), c)
      ensures c.Trading? ==> r != Fail(InvariantViolated) && r != Fail(InsufficientFunds)
      ensures open ==>
                && a.vault == a.reserve + history.a.gifts && b.vault == b.reserve + history.b.gifts
                && FeesBalance(history.a, a, history.minted, Total(positions, OwedA(a.acc)))
                && FeesBalance(history.b, b, history.minted, Total(positions, OwedB(b.acc)))
      ensures Valid()
    {
      if c.Trading? {
        ExchangeKeepsProduct(cfg, if c.aToB then a else b, if c.aToB then b else a, lpSupply, c.x, c.minOut, c.funds);
      }
      Note(c);
      r := Dispatch(c);
      if open {
        Accounts();
      }
    }
  }
}

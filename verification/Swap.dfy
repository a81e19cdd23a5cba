/** The constant-product pool: deposits and withdrawals in proportion, swaps along the hyperbola, and trading fees
    shared among liquidity positions by an accumulator. */
module Swap {
  import opened Numbers

  const BPS_DENOMINATOR: nat := 10_000
  const FEE_SCALE: nat := 1_000_000_000_000
  const MIN_LIQUIDITY: nat := 1_000
  const MAX_TOTAL_FEE: nat := 1_000

  type Key = nat

  datatype SwapError =
    | AccountMissing | NotInitialized | InvalidAmount | InsufficientFunds | SlippageExceeded | ProgramPaused
    | ZeroLiquidity | InsufficientLiquidityMinted | InsufficientLpTokens | NoFeesToHarvest | InvalidFeeConfig
    | InvariantViolated | Overflow | TransferFailed

  datatype Config = Config(protocolBps: u16, lpBps: u16, paused: bool, volume: u128, collected: u128)

  /** One token of a pool: the reserve the formulas see, the balance of its vault, and the fees per liquidity token
      so far, scaled. */
  datatype Side = Side(reserve: u64, vault: u64, acc: u128)

  datatype Position = Position(lp: u64, lastA: u128, lastB: u128)

  datatype Pool = Pool(
    open: bool, a: Side, b: Side, lpSupply: u64, volume: u128, fees: u128, positions: map<Key, Position>)

  datatype Amm = Amm(cfg: Config, pool: Pool)

  type Step = Result<Amm, SwapError>

  /** The integer square root, by counting up. */
  function Root(n: nat): nat {
    if n == 0 then 0 else
      var r := Root(n - 1);
      if (r + 1) * (r + 1) <= n then r + 1 else r
  }

  function Initialize(protocolBps: u16, lpBps: u16): Result<Config, SwapError> {
    if protocolBps + lpBps > MAX_TOTAL_FEE then Err(InvalidFeeConfig) else Ok(Config(protocolBps, lpBps, false, 0, 0))
  }

  /** The creator's liquidity tokens are the root of the product. They are minted without a position, and a thousand
      of them are counted but never minted. */
  function CreatePool(cfg: Config, x: u64, y: u64, fundsX: nat, fundsY: nat): Result<Pool, SwapError> {
    if x == 0 || y == 0 then Err(InvalidAmount) else
    :- Need(!cfg.paused, ProgramPaused);
    :- Need(x <= fundsX && y <= fundsY, TransferFailed);
    :- Need(Root(x * y) <= U64_MAX, Overflow);
    :- Need(Root(x * y) > MIN_LIQUIDITY, InsufficientLiquidityMinted);
    Ok(Pool(true, Side(x, x, 0), Side(y, y, 0), Root(x * y), 0, 0, map[]))
  }

  // ---------- Liquidity ----------

  /** `amount` out of `per` parts of `whole`, rounded down. */
  function Portion(amount: u64, whole: u64, per: u64): Result<u64, SwapError> {
    if per == 0 then Err(Overflow) else
    var product: nat := amount * whole;
    var share := product / per;
    :- Need(share <= U64_MAX, Overflow);
    Ok(share)
  }

  /** The liquidity tokens that an amount of one token is worth. */
  function LpFor(amount: u64, lpSupply: u64, reserve: u64): nat
    requires reserve > 0
  {
    var product: nat := amount * lpSupply;
    product / reserve
  }

  datatype Deposit = Deposit(a: u64, b: u64, lp: u64)

  /** The token that buys less liquidity is deposited whole, the other one in proportion. */
  function Proportional(p: Pool, wantA: u64, wantB: u64): Result<Deposit, SwapError> {
    if p.a.reserve == 0 || p.b.reserve == 0 then Err(ZeroLiquidity) else
    var fromA, fromB := LpFor(wantA, p.lpSupply, p.a.reserve), LpFor(wantB, p.lpSupply, p.b.reserve);
    if fromA <= fromB then
      :- Need(fromA <= U64_MAX, Overflow);
      var b :- Portion(fromA, p.b.reserve, p.lpSupply);
      Ok(Deposit(wantA, b, fromA))
    else
      :- Need(fromB <= U64_MAX, Overflow);
      var a :- Portion(fromB, p.a.reserve, p.lpSupply);
      Ok(Deposit(a, wantB, fromB))
  }

  /** What a position's liquidity has earned of one token since its checkpoint. */
  function Pending(side: Side, last: u128, lp: u64): Result<u64, SwapError> {
    if side.acc < last then Err(Overflow) else
    var scaled: nat := (side.acc - last) * lp;
    :- Need(scaled <= U128_MAX, Overflow);
    :- Need(scaled / FEE_SCALE <= U64_MAX, Overflow);
    Ok(scaled / FEE_SCALE)
  }

  function PaidIn(side: Side, amount: u64, funds: nat): Result<Side, SwapError> {
    if amount > funds || side.vault + amount > U64_MAX then Err(TransferFailed) else
    Ok(side.(vault := side.vault + amount))
  }

  function PaidOut(side: Side, amount: u64): Result<Side, SwapError> {
    if amount > side.vault then Err(TransferFailed) else
    :- Need(amount <= side.reserve, Overflow);
    Ok(side.(vault := side.vault - amount, reserve := side.reserve - amount))
  }


  datatype Sides = Sides(a: Side, b: Side)

  /** Both tokens after a position's fees were paid. */
  function PayPending(a: Side, b: Side, q: Position): Result<Sides, SwapError> {
    var pending := Pending(a, q.lastA, q.lp);
    var feeA :- pending;
    var feeB :- Pending(b, q.lastB, q.lp);
    var a' :- PaidOut(a, feeA);
    var b' :- PaidOut(b, feeB);
    Ok(Sides(a', b'))
  }

  /** Deposit into a new position, or into an old one whose fees are paid out first. */
  function AddLiquidity(s: Amm, who: Key, wantA: u64, wantB: u64, minLp: u64, fundsA: nat, fundsB: nat): Step {
    if wantA == 0 || wantB == 0 then Err(InvalidAmount) else
    var p := s.pool;
    :- Need(p.open, NotInitialized);
    var d :- Proportional(p, wantA, wantB);
    :- Need(d.lp > 0, InsufficientLiquidityMinted);
    :- Need(d.lp >= minLp, SlippageExceeded);
    var a :- PaidIn(p.a, d.a, fundsA);
    var b :- PaidIn(p.b, d.b, fundsB);
    if who !in p.positions then
      Entered(s, who, d, a, b, Position(d.lp, p.a.acc, p.b.acc))
    else
      var q := p.positions[who];
      var paid :- PayPending(a, b, q);
      :- Need(q.lp + d.lp <= U64_MAX, Overflow);
      Entered(s, who, d, paid.a, paid.b, Position(q.lp + d.lp, p.a.acc, p.b.acc))
  }

  function Entered(s: Amm, who: Key, d: Deposit, a: Side, b: Side, q: Position): Step {
    if a.reserve + d.a > U64_MAX || b.reserve + d.b > U64_MAX || s.pool.lpSupply + d.lp > U64_MAX
    then Err(Overflow) else
    Ok(s.(pool := s.pool.(a := a.(reserve := a.reserve + d.a), b := b.(reserve := b.reserve + d.b),
                          lpSupply := s.pool.lpSupply + d.lp, positions := s.pool.positions[who := q])))
  }

  /** `tokens` are the liquidity tokens in the caller's wallet. Fees pending on what is removed are not paid. */
  function RemoveLiquidity(s: Amm, who: Key, lp: u64, minA: u64, minB: u64, tokens: nat): Step {
    if lp == 0 then Err(InvalidAmount) else
    var p := s.pool;
    :- Need(who in p.positions, AccountMissing);
    :- Need(p.open, NotInitialized);
    :- Need(p.lpSupply > 0, ZeroLiquidity);
    var outA :- Portion(lp, p.a.reserve, p.lpSupply);
    var outB :- Portion(lp, p.b.reserve, p.lpSupply);
    :- Need(outA >= minA && outB >= minB, SlippageExceeded);
    :- Need(lp <= tokens && outA <= p.a.vault && outB <= p.b.vault, TransferFailed);
    var q := p.positions[who];
    :- Need(q.lp >= lp, InsufficientLpTokens);
    var a :- PaidOut(p.a, outA);
    var b :- PaidOut(p.b, outB);
    :- Need(p.lpSupply >= lp, Overflow);
    Ok(s.(pool := p.(a := a, b := b, lpSupply := p.lpSupply - lp,
                     positions := p.positions[who := q.(lp := q.lp - lp)])))
  }

  function HarvestFees(s: Amm, who: Key): Step {
    if who !in s.pool.positions then Err(AccountMissing) else
    var p, q := s.pool, s.pool.positions[who];
    :- Need(p.open, NotInitialized);
    :- Need(q.lp > 0, NoFeesToHarvest);
    var feeA :- Pending(p.a, q.lastA, q.lp);
    var feeB :- Pending(p.b, q.lastB, q.lp);
    :- Need(feeA > 0 || feeB > 0, NoFeesToHarvest);
    :- Need(feeA <= p.a.vault && feeB <= p.b.vault, TransferFailed);
    var a :- PaidOut(p.a, feeA);
    var b :- PaidOut(p.b, feeB);
    Ok(s.(pool := p.(a := a, b := b, positions := p.positions[who := Position(q.lp, p.a.acc, p.b.acc)])))
  }

  // ---------- Swaps ----------

  datatype Trade = Trade(input: Side, output: Side, amountOut: u64, protocolFee: u64, lpFee: u64)

  /** The trading fee is left out of the formula but, except for the protocol's part, put into the reserve; the
      liquidity providers' part is recorded in the accumulator as well. */
  function Exchange(cfg: Config, i: Side, o: Side, lpSupply: u64, x: u64, minOut: u64, funds: nat):
    Result<Trade, SwapError> {
    if i.reserve == 0 || o.reserve == 0 then Err(ZeroLiquidity) else
    :- Need(cfg.protocolBps + cfg.lpBps <= BPS_DENOMINATOR, Overflow);
    var out := AmountOut(i.reserve, o.reserve, Bps(x, BPS_DENOMINATOR - cfg.protocolBps - cfg.lpBps));
    :- Need(out <= U64_MAX, Overflow);
    :- Need(out > 0, InvalidAmount);
    :- Need(out <= o.reserve, InsufficientFunds);
    :- Need(out >= minOut, SlippageExceeded);
    var protocolFee, lpFee := Bps(x, cfg.protocolBps), Bps(x, cfg.lpBps);
    :- Need(protocolFee <= x && lpFee <= U64_MAX, Overflow);
    :- Need(x <= funds && i.vault + x - protocolFee <= U64_MAX && out <= o.vault, TransferFailed);
    var newIn, newOut: nat := i.reserve + x - protocolFee, o.reserve - out;
    :- Need(Product(newIn, newOut) <= U128_MAX, Overflow);
    :- Need(Product(newIn, newOut) >= Product(i.reserve, o.reserve), InvariantViolated);
    :- Need(newIn <= U64_MAX, Overflow);
    var acc := i.acc + PerToken(lpFee, lpSupply);
    :- Need(acc <= U128_MAX, Overflow);
    Ok(Trade(Side(newIn, i.vault + x - protocolFee, acc), o.(reserve := newOut, vault := o.vault - out),
             out, protocolFee, lpFee))
  }

  function Product(x: nat, y: nat): nat {
    x * y
  }

  function AmountOut(i: u64, o: u64, effective: nat): nat
    requires i > 0
  {
    var numerator: nat := o * effective;
    numerator / (i + effective)
  }

  function Bps(x: u64, bps: nat): nat {
    x * bps / BPS_DENOMINATOR
  }

  /** The scaled fee of one liquidity token. */
  function PerToken(lpFee: u64, lpSupply: u64): nat {
    if lpSupply == 0 then 0 else lpFee * FEE_SCALE / lpSupply
  }

  function SwapTokens(s: Amm, x: u64, minOut: u64, aToB: bool, funds: nat): Step {
    if x == 0 then Err(InvalidAmount) else
    var p := s.pool;
    :- Need(!s.cfg.paused, ProgramPaused);
    :- Need(p.open, NotInitialized);
    var t :- Exchange(s.cfg, if aToB then p.a else p.b, if aToB then p.b else p.a, p.lpSupply, x, minOut, funds);
    :- Need(p.volume + x <= U128_MAX && p.fees + t.protocolFee + t.lpFee <= U128_MAX, Overflow);
    :- Need(s.cfg.volume + x <= U128_MAX && s.cfg.collected + t.protocolFee <= U128_MAX, Overflow);
    Ok(Amm(s.cfg.(volume := s.cfg.volume + x, collected := s.cfg.collected + t.protocolFee),
           p.(a := if aToB then t.input else t.output, b := if aToB then t.output else t.input,
              volume := p.volume + x, fees := p.fees + t.protocolFee + t.lpFee)))
  }

  // ---------- Administration ----------

  /** Each rate is checked against the other one as it stands then. */
  function UpdateConfig(s: Amm, protocolBps: Option<u16>, lpBps: Option<u16>): Step {
    if protocolBps.Some? && protocolBps.value + s.cfg.lpBps > MAX_TOTAL_FEE then Err(InvalidFeeConfig) else
    var cfg := if protocolBps.Some? then s.cfg.(protocolBps := protocolBps.value) else s.cfg;
    :- Need(lpBps.None? || cfg.protocolBps + lpBps.value <= MAX_TOTAL_FEE, InvalidFeeConfig);
    Ok(s.(cfg := if lpBps.Some? then cfg.(lpBps := lpBps.value) else cfg))
  }

  /** The authority takes what the vaults hold; the pool's account is wiped, the positions stay. */
  function ClosePool(s: Amm): Step {
    if !s.pool.open then Err(NotInitialized) else
    Ok(s.(pool := Pool(false, Side(0, 0, 0), Side(0, 0, 0), 0, 0, 0, s.pool.positions)))
  }

  // ---------- The square root ----------

  lemma {:induction false} RootIsTheRoot(n: nat)
    ensures var r := Root(n); r * r <= n < (r + 1) * (r + 1)
  {
    if n > 0 {
      RootIsTheRoot(n - 1);
      SquareGrows(Root(n - 1) + 1);
    }
  }

  lemma SquareGrows(r: nat)
    ensures r * r < (r + 1) * (r + 1)
  {
    assert (r + 1) * (r + 1) == r * r + 2 * r + 1;
  }

  lemma SquareMono(x: nat, y: nat)
    requires x <= y
    ensures x * x <= y * y
  {
    MulMono(x, x, y);
    MulMono(y, x, y);
  }

  lemma RootIsUnique(n: nat, r: nat)
    requires r * r <= n < (r + 1) * (r + 1)
    ensures r == Root(n)
  {
    RootIsTheRoot(n);
    if r < Root(n) {
      SquareMono(r + 1, Root(n));
    } else if Root(n) < r {
      SquareMono(Root(n) + 1, r);
    }
  }

  /** The root of a product lies between its factors, and so fits their width. */
  lemma RootOfProduct(low: nat, high: nat)
    requires low <= high
    ensures low <= Root(low * high) <= high
  {
    var r := Root(low * high);
    RootIsTheRoot(low * high);
    MulMono(low, low, high);
    MulMono(high, low, high);
    if r < low {
      SquareMono(r + 1, low);
    } else if high < r {
      SquareMono(high + 1, r);
      SquareGrows(high);
    }
  }
}

/** A pool over whole runs: where its liquidity tokens, its fees and the worth of a share go. */
module SwapRuns {
  import opened Numbers
  import opened Swap
  import opened Totals

  datatype Command =
    | Add(who: Key, wantA: u64, wantB: u64, minLp: u64, fundsA: nat, fundsB: nat)
    | Remove(who: Key, lp: u64, minA: u64, minB: u64, tokens: nat)
    | Trading(x: u64, minOut: u64, aToB: bool, funds: nat)
    | Harvest(who: Key)
    | Close
    | Configure(protocolBps: Option<u16>, lpBps: Option<u16>)
    | Pause(paused: bool)
    | Gift(toA: bool, amount: u64)
    | Elsewhere(volume: u128, collected: u128)

  function Execute(s: Amm, c: Command): Step {
    match c
    case Add(who, wantA, wantB, minLp, fundsA, fundsB) => AddLiquidity(s, who, wantA, wantB, minLp, fundsA, fundsB)
    case Remove(who, lp, minA, minB, tokens) => RemoveLiquidity(s, who, lp, minA, minB, tokens)
    case Trading(x, minOut, aToB, funds) => SwapTokens(s, x, minOut, aToB, funds)
    case Harvest(who) => HarvestFees(s, who)
    case Close => ClosePool(s)
    case Configure(protocolBps, lpBps) => UpdateConfig(s, protocolBps, lpBps)
    case Pause(paused) => Ok(s.(cfg := s.cfg.(paused := paused)))
    case Gift(toA, amount) =>
      // Anyone can send tokens to a vault.
      var side := if toA then s.pool.a else s.pool.b;
      if side.vault + amount > U64_MAX then Err(TransferFailed) else
      var side' := side.(vault := side.vault + amount);
      Ok(s.(pool := if toA then s.pool.(a := side') else s.pool.(b := side')))
    case Elsewhere(volume, collected) =>
      // The other pools' swaps are counted in the same configuration account.
      Ok(s.(cfg := s.cfg.(volume := volume, collected := collected)))
  }

  // ---------- What a run's commands add up to ----------

  /** Of one token: the liquidity providers' fees, what was paid out of them, and, in scaled units, what was given
      up by removing liquidity and what was lost to rounding; and what was sent to the vault unasked. */
  datatype Book = Book(fees: nat, harvested: nat, forfeited: nat, dust: nat, gifts: nat)

  /** `minted` is the liquidity the pool was created with. */
  datatype History = History(minted: u64, a: Book, b: Book)

  const EMPTY_BOOK := Book(0, 0, 0, 0, 0)

  function Opening(p: Pool): History {
    History(p.lpSupply, EMPTY_BOOK, EMPTY_BOOK)
  }

  function Earned(book: Book, lpFee: u64, lpSupply: u64): Book {
    book.(fees := book.fees + lpFee,
          dust := book.dust + if lpSupply == 0 then 0 else lpFee * FEE_SCALE % lpSupply)
  }

  /** The scaled fees of some liquidity since a checkpoint. */
  function Owed(side: Side, last: u128, lp: u64): nat {
    if side.acc < last then 0 else (side.acc - last) * lp
  }

  function Collected(book: Book, side: Side, last: u128, lp: u64): Book {
    book.(harvested := book.harvested + Owed(side, last, lp) / FEE_SCALE,
          dust := book.dust + Owed(side, last, lp) % FEE_SCALE)
  }

  function Forfeited(book: Book, side: Side, last: u128, lp: u64): Book {
    book.(forfeited := book.forfeited + Owed(side, last, lp))
  }

  function Given(book: Book, amount: u64): Book {
    book.(gifts := book.gifts + amount)
  }

  function PaidUp(h: History, p: Pool, q: Position): History {
    h.(a := Collected(h.a, p.a, q.lastA, q.lp), b := Collected(h.b, p.b, q.lastB, q.lp))
  }

  /** The books after a command that succeeded. */
  function Record(h: History, s: Amm, c: Command): History {
    var p := s.pool;
    match c
    case Trading(x, _, aToB, _) =>
      var fee := Bps(x, s.cfg.lpBps);
      if fee > U64_MAX then h
      else if aToB then h.(a := Earned(h.a, fee, p.lpSupply)) else h.(b := Earned(h.b, fee, p.lpSupply))
    case Add(who, _, _, _, _, _) => if who in p.positions then PaidUp(h, p, p.positions[who]) else h
    case Harvest(who) => if who in p.positions then PaidUp(h, p, p.positions[who]) else h
    case Remove(who, lp, _, _, _) =>
      if who !in p.positions then h else
      var q := p.positions[who];
      h.(a := Forfeited(h.a, p.a, q.lastA, lp), b := Forfeited(h.b, p.b, q.lastB, lp))
    case Gift(toA, amount) => if toA then h.(a := Given(h.a, amount)) else h.(b := Given(h.b, amount))
    case _ => h
  }

  function Noted(h: History, s: Amm, c: Command): History {
    if Execute(s, c).Ok? then Record(h, s, c) else h
  }

  function Perform(s: Amm, c: Command): Amm {
    if Execute(s, c).Ok? then Execute(s, c).value else s
  }

  function Run(s: Amm, h: History, cs: seq<Command>): (Amm, History)
    decreases |cs|
  {
    if cs == [] then (s, h) else
      var (s', h') := Run(s, h, cs[..|cs| - 1]);
      (Perform(s', cs[|cs| - 1]), Noted(h', s', cs[|cs| - 1]))
  }

  // ---------- The invariant ----------

  function LpOf(q: Position): int {
    q.lp
  }

  function MarkA(q: Position): int {
    q.lp * q.lastA
  }

  function MarkB(q: Position): int {
    q.lp * q.lastB
  }

  /** The vault holds the reserve and the gifts. The fees are what was paid out, what the accumulator promises beyond
      the positions' checkpoints, what was given up and what was lost to rounding. */
  predicate SideGood(side: Side, lpSupply: nat, marks: int, book: Book) {
    && side.vault == side.reserve + book.gifts
    && FEE_SCALE * book.fees
       == FEE_SCALE * book.harvested + (side.acc * lpSupply - marks) + book.forfeited + book.dust
  }

  predicate Behind(p: Pool) {
    forall k {:trigger p.positions[k]} | k in p.positions ::
      p.positions[k].lastA <= p.a.acc && p.positions[k].lastB <= p.b.acc
  }

  ghost predicate PoolGood(p: Pool, h: History) {
    && h.minted > MIN_LIQUIDITY && p.lpSupply == h.minted + Total(p.positions, LpOf)
    && SideGood(p.a, p.lpSupply, Total(p.positions, MarkA), h.a)
    && SideGood(p.b, p.lpSupply, Total(p.positions, MarkB), h.b)
    && Behind(p)
  }

  ghost predicate Good(s: Amm, h: History) {
    s.cfg.protocolBps + s.cfg.lpBps <= MAX_TOTAL_FEE && (s.pool.open ==> PoolGood(s.pool, h))
  }

  // ---------- The arithmetic of a swap ----------

  lemma BpsSplit(x: u64, p: nat, l: nat)
    requires p + l <= BPS_DENOMINATOR
    ensures Bps(x, BPS_DENOMINATOR - p - l) + Bps(x, p) <= x && Bps(x, l) <= x
  {
    var e := BPS_DENOMINATOR - p - l;
    DivBounds(x * e, BPS_DENOMINATOR);
    DivBounds(x * p, BPS_DENOMINATOR);
    DivBounds(x * l, BPS_DENOMINATOR);
    MulMono(x, l, BPS_DENOMINATOR);
    MulMono(x, e + p, BPS_DENOMINATOR);
    assert x * (e + p) == x * e + x * p;
  }

  lemma ProductMono(x: nat, x': nat, y: nat)
    requires x <= x'
    ensures Product(x, y) <= Product(x', y)
  {
    MulMono(y, x, x');
  }

  /** The price formula pays out less than the reserve and, before any fee, keeps the product. */
  lemma FormulaKeepsProduct(i: u64, o: u64, e: nat)
    requires i > 0 && o > 0
    ensures AmountOut(i, o, e) < o && Product(i, o) <= Product(i + e, o - AmountOut(i, o, e))
  {
    var out := AmountOut(i, o, e);
    DivBounds(o * e, i + e);
    assert (i + e) * o == i * o + o * e;
    assert (i + e) * (o - out) == (i + e) * o - (i + e) * out;
    if out >= o {
      MulMono(i + e, o, out);
    }
  }

  lemma FeesKeepProduct(i: u64, o: u64, x: u64, p: nat, l: nat)
    requires i > 0 && o > 0 && p + l <= BPS_DENOMINATOR
    ensures var out := AmountOut(i, o, Bps(x, BPS_DENOMINATOR - p - l));
            out < o && Bps(x, p) <= x && Bps(x, l) <= x && Product(i, o) <= Product(i + x - Bps(x, p), o - out)
  {
    var e := Bps(x, BPS_DENOMINATOR - p - l);
    BpsSplit(x, p, l);
    FormulaKeepsProduct(i, o, e);
    ProductMono(i + e, i + x - Bps(x, p), o - AmountOut(i, o, e));
  }

  /** With the fees the configuration allows, the two guards behind the formula never fire: the product never falls
      and the reserve is never emptied. */
  lemma ExchangeKeepsProduct(cfg: Config, i: Side, o: Side, lpSupply: u64, x: u64, minOut: u64, funds: nat)
    requires cfg.protocolBps + cfg.lpBps <= BPS_DENOMINATOR
    ensures var r := Exchange(cfg, i, o, lpSupply, x, minOut, funds);
            && r != Err(InvariantViolated) && r != Err(InsufficientFunds)
            && (r.Ok? ==>
                  var t := r.value;
                  && Product(t.input.reserve, t.output.reserve) >= Product(i.reserve, o.reserve)
                  && 0 < t.output.reserve && 0 < t.amountOut && t.amountOut >= minOut
                  && t.output == o.(reserve := o.reserve - t.amountOut, vault := o.vault - t.amountOut)
                  && t.input.reserve - i.reserve == t.input.vault - i.vault == x - t.protocolFee
                  && t.input.acc == i.acc + PerToken(t.lpFee, lpSupply) && t.lpFee == Bps(x, cfg.lpBps))
  {
    if i.reserve > 0 && o.reserve > 0 {
      FeesKeepProduct(i.reserve, o.reserve, x, cfg.protocolBps, cfg.lpBps);
    }
  }

  // ---------- One token ----------

  lemma SideEarns(side: Side, side': Side, lpSupply: u64, marks: int, book: Book, fee: u64)
    requires SideGood(side, lpSupply, marks, book) && lpSupply > 0
    requires side'.acc == side.acc + PerToken(fee, lpSupply) && side'.vault - side'.reserve == side.vault - side.reserve
    ensures SideGood(side', lpSupply, marks, Earned(book, fee, lpSupply))
  {
    DivBounds(fee * FEE_SCALE, lpSupply);
    var d, rem := fee * FEE_SCALE / lpSupply, fee * FEE_SCALE % lpSupply;
    assert fee * FEE_SCALE == d * lpSupply + rem;
    assert (side.acc + d) * lpSupply == side.acc * lpSupply + d * lpSupply;
  }

  /** Paying what is owed since a checkpoint moves the checkpoint up to the accumulator. */
  lemma SidePays(side: Side, side': Side, lpSupply: u64, marks: int, book: Book, last: u128, lp: u64)
    requires SideGood(side, lpSupply, marks, book) && last <= side.acc
    requires side'.acc == side.acc
    requires side.reserve - side'.reserve == side.vault - side'.vault == Owed(side, last, lp) / FEE_SCALE
    ensures SideGood(side', lpSupply, marks - lp * last + lp * side.acc, Collected(book, side, last, lp))
  {
    assert (side.acc - last) * lp == lp * side.acc - lp * last;
  }

  lemma SideGrows(side: Side, side': Side, lpSupply: u64, marks: int, book: Book, lp: u64)
    requires SideGood(side, lpSupply, marks, book)
    requires side'.acc == side.acc && side'.vault - side'.reserve == side.vault - side.reserve
    ensures SideGood(side', lpSupply + lp, marks + lp * side.acc, book)
  {
    assert side.acc * (lpSupply + lp) == side.acc * lpSupply + lp * side.acc;
  }

  lemma SideShrinks(side: Side, side': Side, lpSupply: u64, marks: int, book: Book, last: u128, lp: u64)
    requires SideGood(side, lpSupply, marks, book) && last <= side.acc && lp <= lpSupply
    requires side'.acc == side.acc && side'.vault - side'.reserve == side.vault - side.reserve
    ensures SideGood(side', lpSupply - lp, marks - lp * last, Forfeited(book, side, last, lp))
  {
    assert side.acc * (lpSupply - lp) == side.acc * lpSupply - lp * side.acc;
    assert (side.acc - last) * lp == lp * side.acc - lp * last;
  }

  // ---------- Whole commands ----------

  function LpIn(p: Pool, who: Key): nat {
    if who in p.positions then p.positions[who].lp else 0
  }

  lemma PositionPut(p: Pool, who: Key, q: Position)
    ensures var ps := p.positions[who := q];
            if who in p.positions then
              var q0 := p.positions[who];
              && Total(ps, LpOf) == Total(p.positions, LpOf) + q.lp - q0.lp
              && Total(ps, MarkA) == Total(p.positions, MarkA) + q.lp * q.lastA - q0.lp * q0.lastA
              && Total(ps, MarkB) == Total(p.positions, MarkB) + q.lp * q.lastB - q0.lp * q0.lastB
            else
              && Total(ps, LpOf) == Total(p.positions, LpOf) + q.lp
              && Total(ps, MarkA) == Total(p.positions, MarkA) + q.lp * q.lastA
              && Total(ps, MarkB) == Total(p.positions, MarkB) + q.lp * q.lastB
  {
    TotalPut(p.positions, who, q, LpOf);
    TotalPut(p.positions, who, q, MarkA);
    TotalPut(p.positions, who, q, MarkB);
  }

  lemma TradingKeepsGood(p: Pool, p': Pool, h: History, aToB: bool, fee: u64)
    requires PoolGood(p, h) && p'.positions == p.positions && p'.lpSupply == p.lpSupply
    requires var (i, i', o, o') := if aToB then (p.a, p'.a, p.b, p'.b) else (p.b, p'.b, p.a, p'.a);
             && i'.acc == i.acc + PerToken(fee, p.lpSupply) && i'.vault - i'.reserve == i.vault - i.reserve
             && o'.acc == o.acc && o'.vault - o'.reserve == o.vault - o.reserve
    ensures PoolGood(p', if aToB then h.(a := Earned(h.a, fee, p.lpSupply)) else h.(b := Earned(h.b, fee, p.lpSupply)))
  {
    TotalLps(p, h);
    if aToB {
      SideEarns(p.a, p'.a, p.lpSupply, Total(p.positions, MarkA), h.a, fee);
    } else {
      SideEarns(p.b, p'.b, p.lpSupply, Total(p.positions, MarkB), h.b, fee);
    }
  }

  lemma TotalLps(p: Pool, h: History)
    requires PoolGood(p, h)
    ensures Total(p.positions, LpOf) >= 0 && p.lpSupply >= h.minted
  {
    TotalNonnegative(p.positions, LpOf);
  }

  /** The accounts after a position was paid its fees. */
  predicate Paid(p: Pool, p': Pool, who: Key)
    requires who in p.positions
  {
    var q := p.positions[who];
    && p' == p.(a := p'.a, b := p'.b, positions := p.positions[who := Position(q.lp, p.a.acc, p.b.acc)])
    && p'.a.acc == p.a.acc && p'.b.acc == p.b.acc
    && p.a.reserve - p'.a.reserve == p.a.vault - p'.a.vault == Owed(p.a, q.lastA, q.lp) / FEE_SCALE
    && p.b.reserve - p'.b.reserve == p.b.vault - p'.b.vault == Owed(p.b, q.lastB, q.lp) / FEE_SCALE
  }

  lemma PayoutKeepsGood(p: Pool, p': Pool, h: History, who: Key)
    requires PoolGood(p, h) && who in p.positions && Paid(p, p', who)
    ensures PoolGood(p', PaidUp(h, p, p.positions[who]))
  {
    var q := p.positions[who];
    PositionPut(p, who, Position(q.lp, p.a.acc, p.b.acc));
    SidePays(p.a, p'.a, p.lpSupply, Total(p.positions, MarkA), h.a, q.lastA, q.lp);
    SidePays(p.b, p'.b, p.lpSupply, Total(p.positions, MarkB), h.b, q.lastB, q.lp);
  }

  predicate Raised(side: Side, side': Side, amount: u64) {
    side'.acc == side.acc && side'.reserve - side.reserve == side'.vault - side.vault == amount
  }

  /** The accounts after a deposit into a position that is new or has just been paid. */
  predicate Deposited(p: Pool, p': Pool, who: Key, d: Deposit) {
    && who in p'.positions
    && p' == p.(a := p'.a, b := p'.b, lpSupply := p'.lpSupply, positions := p.positions[who := p'.positions[who]])
    && var q := p'.positions[who];
    && q.lp == LpIn(p, who) + d.lp && q.lastA == p.a.acc && q.lastB == p.b.acc
    && p'.lpSupply == p.lpSupply + d.lp && Raised(p.a, p'.a, d.a) && Raised(p.b, p'.b, d.b)
  }

  lemma LpTimes(x: nat, y: nat, acc: nat)
    ensures (x + y) * acc == x * acc + y * acc
  {
  }

  lemma DepositKeepsGood(p: Pool, p': Pool, h: History, who: Key, d: Deposit)
    requires PoolGood(p, h) && Deposited(p, p', who, d)
    requires who in p.positions ==> p.positions[who].lastA == p.a.acc && p.positions[who].lastB == p.b.acc
    ensures PoolGood(p', h)
  {
    PositionPut(p, who, p'.positions[who]);
    LpTimes(LpIn(p, who), d.lp, p.a.acc);
    LpTimes(LpIn(p, who), d.lp, p.b.acc);
    SideGrows(p.a, p'.a, p.lpSupply, Total(p.positions, MarkA), h.a, d.lp);
    SideGrows(p.b, p'.b, p.lpSupply, Total(p.positions, MarkB), h.b, d.lp);
  }

  predicate Removed(p: Pool, p': Pool, who: Key, lp: u64)
    requires who in p.positions
  {
    && p.positions[who].lp >= lp && p.lpSupply >= lp
    && p' == p.(a := p'.a, b := p'.b, lpSupply := p.lpSupply - lp,
                positions := p.positions[who := p.positions[who].(lp := p.positions[who].lp - lp)])
    && p'.a.acc == p.a.acc && p'.a.vault - p'.a.reserve == p.a.vault - p.a.reserve
    && p'.b.acc == p.b.acc && p'.b.vault - p'.b.reserve == p.b.vault - p.b.reserve
  }

  lemma RemovalKeepsGood(p: Pool, p': Pool, h: History, who: Key, lp: u64)
    requires PoolGood(p, h) && who in p.positions && Removed(p, p', who, lp)
    ensures var q := p.positions[who];
            PoolGood(p', h.(a := Forfeited(h.a, p.a, q.lastA, lp), b := Forfeited(h.b, p.b, q.lastB, lp)))
  {
    var q := p.positions[who];
    PositionPut(p, who, q.(lp := q.lp - lp));
    LpTimes(q.lp - lp, lp, q.lastA);
    LpTimes(q.lp - lp, lp, q.lastB);
    SideShrinks(p.a, p'.a, p.lpSupply, Total(p.positions, MarkA), h.a, q.lastA, lp);
    SideShrinks(p.b, p'.b, p.lpSupply, Total(p.positions, MarkB), h.b, q.lastB, lp);
  }

  // ---------- Every run ----------

  lemma SwapKeepsGood(s: Amm, h: History, c: Command)
    requires Good(s, h) && c.Trading? && Execute(s, c).Ok?
    ensures Good(Perform(s, c), Noted(h, s, c))
  {
    var p, p' := s.pool, Perform(s, c).pool;
    var i, o := if c.aToB then p.a else p.b, if c.aToB then p.b else p.a;
    ExchangeKeepsProduct(s.cfg, i, o, p.lpSupply, c.x, c.minOut, c.funds);
    TradingKeepsGood(p, p', h, c.aToB, Bps(c.x, s.cfg.lpBps));
  }

  lemma HarvestKeepsGood(s: Amm, h: History, c: Command)
    requires Good(s, h) && c.Harvest? && Execute(s, c).Ok?
    ensures Good(Perform(s, c), Noted(h, s, c))
  {
    PayoutKeepsGood(s.pool, Perform(s, c).pool, h, c.who);
  }

  lemma RemoveKeepsGood(s: Amm, h: History, c: Command)
    requires Good(s, h) && c.Remove? && Execute(s, c).Ok?
    ensures Good(Perform(s, c), Noted(h, s, c))
  {
    RemovalKeepsGood(s.pool, Perform(s, c).pool, h, c.who, c.lp);
  }

  /** The pool after the fees of the depositor's position, if there is one, and before the deposit. */
  function BeforeDeposit(p: Pool, who: Key): Pool
    requires who in p.positions ==>
               && Owed(p.a, p.positions[who].lastA, p.positions[who].lp) / FEE_SCALE <= Min(p.a.reserve, p.a.vault)
               && Owed(p.b, p.positions[who].lastB, p.positions[who].lp) / FEE_SCALE <= Min(p.b.reserve, p.b.vault)
  {
    if who !in p.positions then p else
    var q := p.positions[who];
    var feeA, feeB := Owed(p.a, q.lastA, q.lp) / FEE_SCALE, Owed(p.b, q.lastB, q.lp) / FEE_SCALE;
    p.(a := p.a.(reserve := p.a.reserve - feeA, vault := p.a.vault - feeA),
       b := p.b.(reserve := p.b.reserve - feeB, vault := p.b.vault - feeB),
       positions := p.positions[who := Position(q.lp, p.a.acc, p.b.acc)])
  }

  lemma AddIsPayoutAndDeposit(s: Amm, h: History, c: Command)
    requires Good(s, h) && c.Add? && Execute(s, c).Ok?
    ensures s.pool.open && Proportional(s.pool, c.wantA, c.wantB).Ok?
    ensures var p := s.pool;
            && (c.who in p.positions ==>
                  && Owed(p.a, p.positions[c.who].lastA, p.positions[c.who].lp) / FEE_SCALE
                     <= Min(p.a.reserve, p.a.vault)
                  && Owed(p.b, p.positions[c.who].lastB, p.positions[c.who].lp) / FEE_SCALE
                     <= Min(p.b.reserve, p.b.vault))
            && Deposited(BeforeDeposit(p, c.who), Perform(s, c).pool, c.who, Proportional(p, c.wantA, c.wantB).value)
            && Perform(s, c).cfg == s.cfg
  {
    var d := Proportional(s.pool, c.wantA, c.wantB).value;
    if c.who in s.pool.positions {
      var q := s.pool.positions[c.who];
      assert s.pool.positions[c.who := Position(q.lp, s.pool.a.acc, s.pool.b.acc)]
             [c.who := Perform(s, c).pool.positions[c.who]]
             == Perform(s, c).pool.positions;
    }
  }

  lemma AddKeepsGood(s: Amm, h: History, c: Command)
    requires Good(s, h) && c.Add? && Execute(s, c).Ok?
    ensures Good(Perform(s, c), Noted(h, s, c))
  {
    AddIsPayoutAndDeposit(s, h, c);
    var p, mid := s.pool, BeforeDeposit(s.pool, c.who);
    if c.who in p.positions {
      PayoutKeepsGood(p, mid, h, c.who);
    }
    DepositKeepsGood(mid, Perform(s, c).pool, Noted(h, s, c), c.who, Proportional(p, c.wantA, c.wantB).value);
  }

  lemma PerformKeepsGood(s: Amm, h: History, c: Command)
    requires Good(s, h)
    ensures Good(Perform(s, c), Noted(h, s, c))
  {
    if Execute(s, c).Ok? {
      match c {
        case Add(_, _, _, _, _, _) => AddKeepsGood(s, h, c);
        case Remove(_, _, _, _, _) => RemoveKeepsGood(s, h, c);
        case Trading(_, _, _, _) => SwapKeepsGood(s, h, c);
        case Harvest(_) => HarvestKeepsGood(s, h, c);
        case _ =>
      }
    }
  }

  lemma {:induction false} RunKeepsGood(s: Amm, h: History, cs: seq<Command>)
    requires Good(s, h)
    ensures var (s', h') := Run(s, h, cs); Good(s', h') && h'.minted == h.minted
    decreases |cs|
  {
    if cs != [] {
      RunKeepsGood(s, h, cs[..|cs| - 1]);
      var (s', h') := Run(s, h, cs[..|cs| - 1]);
      PerformKeepsGood(s', h', cs[|cs| - 1]);
    }
  }

  lemma CreateIsGood(cfg: Config, x: u64, y: u64, fundsX: nat, fundsY: nat)
    requires cfg.protocolBps + cfg.lpBps <= MAX_TOTAL_FEE && CreatePool(cfg, x, y, fundsX, fundsY).Ok?
    ensures var p := CreatePool(cfg, x, y, fundsX, fundsY).value; Good(Amm(cfg, p), Opening(p))
  {
  }
}

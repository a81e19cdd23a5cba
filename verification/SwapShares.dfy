/** What a share of a pool is worth: what keeps it, what lowers it, and which fees can be collected at all. */
module SwapShares {
  import opened Numbers
  import opened Swap
  import opened SwapRuns
  import opened Totals

  // ---------- Fees and liquidity over whole runs ----------

  /** What a position is owed of one token, in scaled units, when the accumulator stands at `acc`. */
  function OwedA(acc: nat): Position -> int {
    (q: Position) => q.lp * (acc - q.lastA)
  }

  function OwedB(acc: nat): Position -> int {
    (q: Position) => q.lp * (acc - q.lastB)
  }

  lemma OwedIsLpAndMark(ps: map<Key, Position>, acc: nat)
    ensures Total(ps, OwedA(acc)) == acc * Total(ps, LpOf) - Total(ps, MarkA)
    ensures Total(ps, OwedB(acc)) == acc * Total(ps, LpOf) - Total(ps, MarkB)
  {
    forall i | i in ps
      ensures MarkA(ps[i]) + 1 * OwedA(acc)(ps[i]) == acc * LpOf(ps[i])
      ensures MarkB(ps[i]) + 1 * OwedB(acc)(ps[i]) == acc * LpOf(ps[i])
    {
      LpLess(ps[i].lp, acc, ps[i].lastA);
      LpLess(ps[i].lp, acc, ps[i].lastB);
    }
    var scaled := (q: Position) => acc * LpOf(q);
    TotalScaled(ps, acc, LpOf, scaled);
    TotalCombined(ps, MarkA, 1, OwedA(acc), scaled);
    TotalCombined(ps, MarkB, 1, OwedB(acc), scaled);
  }

  lemma LpLess(lp: nat, acc: int, last: int)
    ensures lp * (acc - last) == acc * lp - lp * last
  {
  }

  /** Of one token: every fee was paid out, is owed to a position, is recorded for the creator's liquidity (which has
      no position and can never collect it), was given up, or was lost to rounding. */
  ghost predicate FeesBalance(book: Book, side: Side, minted: nat, owed: int) {
    && FEE_SCALE * book.fees == FEE_SCALE * book.harvested + owed + side.acc * minted + book.forfeited + book.dust
    && owed >= 0 && book.harvested <= book.fees
  }

  lemma OneSideBalances(book: Book, side: Side, lpSupply: nat, minted: nat, lps: int, marks: int, owed: int)
    requires SideGood(side, lpSupply, marks, book)
    requires lpSupply == minted + lps && owed == side.acc * lps - marks && owed >= 0
    ensures FeesBalance(book, side, minted, owed)
  {
    assert side.acc * lpSupply == side.acc * minted + side.acc * lps;
  }

  /** After any run of a pool: the vaults hold the reserves and what was sent to them unasked; the liquidity tokens are
      those of the positions and the creator's, which stay for good; and every fee is accounted for. */
  lemma EveryShareAndFee(cfg: Config, p: Pool, cs: seq<Command>)
    requires Good(Amm(cfg, p), Opening(p))
    ensures var (s, h) := Run(Amm(cfg, p), Opening(p), cs);
            s.pool.open ==>
              && s.pool.a.vault == s.pool.a.reserve + h.a.gifts && s.pool.b.vault == s.pool.b.reserve + h.b.gifts
              && s.pool.lpSupply == p.lpSupply + Total(s.pool.positions, LpOf) >= p.lpSupply > MIN_LIQUIDITY
              && FeesBalance(h.a, s.pool.a, p.lpSupply, Total(s.pool.positions, OwedA(s.pool.a.acc)))
              && FeesBalance(h.b, s.pool.b, p.lpSupply, Total(s.pool.positions, OwedB(s.pool.b.acc)))
  {
    RunKeepsGood(Amm(cfg, p), Opening(p), cs);
    var (s, h) := Run(Amm(cfg, p), Opening(p), cs);
    if s.pool.open {
      GoodBalances(s.pool, h);
    }
  }

  lemma GoodBalances(p: Pool, h: History)
    requires PoolGood(p, h)
    ensures p.lpSupply == h.minted + Total(p.positions, LpOf) >= h.minted
    ensures FeesBalance(h.a, p.a, h.minted, Total(p.positions, OwedA(p.a.acc)))
    ensures FeesBalance(h.b, p.b, h.minted, Total(p.positions, OwedB(p.b.acc)))
  {
    var ps := p.positions;
    TotalLps(p, h);
    OwedIsLpAndMark(ps, p.a.acc);
    OwedIsLpAndMark(ps, p.b.acc);
    forall i | i in ps ensures OwedA(p.a.acc)(ps[i]) >= 0 && OwedB(p.b.acc)(ps[i]) >= 0 {
      MulMono(ps[i].lp, 0, p.a.acc - ps[i].lastA);
      MulMono(ps[i].lp, 0, p.b.acc - ps[i].lastB);
    }
    TotalNonnegative(ps, OwedA(p.a.acc));
    TotalNonnegative(ps, OwedB(p.b.acc));
    OneSideBalances(h.a, p.a, p.lpSupply, h.minted, Total(ps, LpOf), Total(ps, MarkA), Total(ps, OwedA(p.a.acc)));
    OneSideBalances(h.b, p.b, p.lpSupply, h.minted, Total(ps, LpOf), Total(ps, MarkB), Total(ps, OwedB(p.b.acc)));
  }

  // ---------- Swaps alone ----------

  predicate MovesNoLiquidity(c: Command) {
    !c.Add? && !c.Remove? && !c.Harvest? && !c.Close?
  }

  function K(p: Pool): nat {
    Product(p.a.reserve, p.b.reserve)
  }

  /** However many swaps by however many traders: the product of the reserves never falls. */
  lemma {:induction false} SwapsNeverLowerTheProduct(s: Amm, h: History, cs: seq<Command>)
    requires Good(s, h) && forall c | c in cs :: MovesNoLiquidity(c)
    ensures var (s', h') := Run(s, h, cs);
            s'.pool.open == s.pool.open && s'.pool.lpSupply == s.pool.lpSupply && K(s'.pool) >= K(s.pool)
    decreases |cs|
  {
    if cs != [] {
      var before, c := cs[..|cs| - 1], cs[|cs| - 1];
      assert c in cs && forall d | d in before :: d in cs;
      SwapsNeverLowerTheProduct(s, h, before);
      RunKeepsGood(s, h, before);
      var (s', h') := Run(s, h, before);
      OneSwapKeepsTheProduct(s', h', c);
    }
  }

  lemma OneSwapKeepsTheProduct(s: Amm, h: History, c: Command)
    requires Good(s, h) && MovesNoLiquidity(c)
    ensures var p := Perform(s, c).pool;
            && p.open == s.pool.open && p.lpSupply == s.pool.lpSupply && K(p) >= K(s.pool)
            && (s.pool.a.reserve > 0 && s.pool.b.reserve > 0 ==> p.a.reserve > 0 && p.b.reserve > 0)
  {
    if c.Trading? && Execute(s, c).Ok? {
      var p := s.pool;
      var i, o := if c.aToB then p.a else p.b, if c.aToB then p.b else p.a;
      ExchangeKeepsProduct(s.cfg, i, o, p.lpSupply, c.x, c.minOut, c.funds);
      Commutes(i.reserve, o.reserve);
      var p' := Perform(s, c).pool;
      Commutes(p'.a.reserve, p'.b.reserve);
    }
  }

  lemma Commutes(x: nat, y: nat)
    ensures Product(x, y) == Product(y, x)
  {
  }

  /** So traders as a whole cannot take out of one reserve without putting into the other: in particular what was
      bought and sold back returns no more than was paid. */
  lemma TradersNeverGain(s: Amm, h: History, cs: seq<Command>)
    requires Good(s, h) && (forall c | c in cs :: MovesNoLiquidity(c))
    requires s.pool.a.reserve > 0 && s.pool.b.reserve > 0
    ensures var (s', h') := Run(s, h, cs);
            && (s'.pool.b.reserve <= s.pool.b.reserve ==> s'.pool.a.reserve >= s.pool.a.reserve)
            && (s'.pool.a.reserve <= s.pool.a.reserve ==> s'.pool.b.reserve >= s.pool.b.reserve)
  {
    SwapsNeverLowerTheProduct(s, h, cs);
    var (s', h') := Run(s, h, cs);
    SmallerFactor(s.pool.a.reserve, s.pool.b.reserve, s'.pool.a.reserve, s'.pool.b.reserve);
    Commutes(s.pool.a.reserve, s.pool.b.reserve);
    Commutes(s'.pool.a.reserve, s'.pool.b.reserve);
    SmallerFactor(s.pool.b.reserve, s.pool.a.reserve, s'.pool.b.reserve, s'.pool.a.reserve);
  }

  lemma SmallerFactor(x: nat, y: nat, x': nat, y': nat)
    requires Product(x', y') >= Product(x, y) && x > 0 && y > 0
    ensures y' <= y ==> x' >= x
  {
    if y' <= y && x' < x {
      MulMono(x', y', y);
      MulMono(y, x' + 1, x);
    }
  }

  // ---------- When a share's claim falls ----------

  /** A liquidity token's part of a reserve is smaller than it was. */
  predicate ClaimFalls(r: nat, lpSupply: nat, r': nat, lpSupply': nat) {
    r' * lpSupply < r * lpSupply'
  }

  /** Rounding a withdrawal down leaves every remaining share's claim where it was or above. */
  lemma WithdrawalKeepsClaim(r: nat, lpSupply: nat, lp: nat)
    requires 0 < lp <= lpSupply
    ensures var out := lp * r / lpSupply;
            out <= r && (lp < lpSupply && r > 0 ==> out < r) && !ClaimFalls(r, lpSupply, r - out, lpSupply - lp)
  {
    var out := lp * r / lpSupply;
    DivBounds(lp * r, lpSupply);
    MulMono(r, lp, lpSupply);
    if out > r || (out == r && r > 0 && lp < lpSupply) {
      MulMono(lpSupply, r, out);
      MulMono(r, lp + 1, lpSupply);
      assert false;
    }
    assert (r - out) * lpSupply == r * lpSupply - lpSupply * out;
    assert r * (lpSupply - lp) == r * lpSupply - lp * r;
  }

  lemma PayoutLowersClaim(r: nat, lpSupply: nat, fee: nat)
    requires fee <= r && lpSupply > 0
    ensures ClaimFalls(r, lpSupply, r - fee, lpSupply) <==> fee > 0
  {
    MulMono(lpSupply, 1, lpSupply);
    assert (r - fee) * lpSupply == r * lpSupply - fee * lpSupply;
    MulMono(lpSupply, if fee > 0 then 1 else 0, fee);
  }

  /** The token deposited whole brings a remainder along, against which fees paid on the way count. */
  lemma WholeDepositClaim(r: nat, lpSupply: nat, want: nat, fee: nat)
    requires r > 0 && fee <= r + want
    ensures var lp := want * lpSupply / r;
            ClaimFalls(r, lpSupply, r - fee + want, lpSupply + lp) <==> fee * lpSupply > want * lpSupply % r
  {
    var lp := want * lpSupply / r;
    assert want * lpSupply == r * lp + want * lpSupply % r;
    assert (r - fee + want) * lpSupply == r * lpSupply - fee * lpSupply + want * lpSupply;
    assert r * (lpSupply + lp) == r * lpSupply + r * lp;
  }

  /** The token deposited in proportion is rounded down. */
  lemma PartDepositClaim(r: nat, lpSupply: nat, lp: nat, fee: nat)
    requires lpSupply > 0 && fee <= r
    ensures var amount := lp * r / lpSupply;
            ClaimFalls(r, lpSupply, r - fee + amount, lpSupply + lp) <==> fee > 0 || lp * r % lpSupply > 0
  {
    var amount := lp * r / lpSupply;
    assert lp * r == lpSupply * amount + lp * r % lpSupply;
    assert (r - fee + amount) * lpSupply == r * lpSupply - fee * lpSupply + lpSupply * amount;
    assert r * (lpSupply + lp) == r * lpSupply + lp * r;
    MulMono(lpSupply, if fee > 0 then 1 else 0, fee);
  }

  function FeesDueA(p: Pool, who: Key): nat {
    if who in p.positions then Owed(p.a, p.positions[who].lastA, p.positions[who].lp) / FEE_SCALE else 0
  }

  function FeesDueB(p: Pool, who: Key): nat {
    if who in p.positions then Owed(p.b, p.positions[who].lastB, p.positions[who].lp) / FEE_SCALE else 0
  }

  /** The deposit takes token A whole: it buys no more liquidity than token B would. */
  predicate WholeA(p: Pool, wantA: u64, wantB: u64)
    requires p.a.reserve > 0 && p.b.reserve > 0
  {
    LpFor(wantA, p.lpSupply, p.a.reserve) <= LpFor(wantB, p.lpSupply, p.b.reserve)
  }

  /** Read off the pool before the command. */
  predicate LowersClaimOnA(p: Pool, c: Command)
    requires p.a.reserve > 0 && p.b.reserve > 0 && p.lpSupply > 0
  {
    match c
    case Harvest(who) => FeesDueA(p, who) > 0
    case Add(who, wantA, wantB, _, _, _) =>
      if WholeA(p, wantA, wantB) then FeesDueA(p, who) * p.lpSupply > wantA * p.lpSupply % p.a.reserve
      else FeesDueA(p, who) > 0 || LpFor(wantB, p.lpSupply, p.b.reserve) * p.a.reserve % p.lpSupply > 0
    case _ => false
  }

  predicate LowersClaimOnB(p: Pool, c: Command)
    requires p.a.reserve > 0 && p.b.reserve > 0 && p.lpSupply > 0
  {
    match c
    case Harvest(who) => FeesDueB(p, who) > 0
    case Add(who, wantA, wantB, _, _, _) =>
      if WholeA(p, wantA, wantB) then
        FeesDueB(p, who) > 0 || LpFor(wantA, p.lpSupply, p.a.reserve) * p.b.reserve % p.lpSupply > 0
      else FeesDueB(p, who) * p.lpSupply > wantB * p.lpSupply % p.b.reserve
    case _ => false
  }

  /** Apart from swaps, which trade one claim for the other along the product, a command lowers a liquidity token's
      claim on a reserve in exactly these cases: fees are paid out of it, or a deposit is rounded. The fees that a
      position collects are thus taken from what every share is worth. */
  lemma ClaimsFallExactlyWhen(s: Amm, h: History, c: Command)
    requires Good(s, h) && Execute(s, c).Ok? && s.pool.open && !c.Trading? && !c.Close?
    requires s.pool.a.reserve > 0 && s.pool.b.reserve > 0 && s.pool.lpSupply > 0
    ensures var p, p' := s.pool, Perform(s, c).pool;
            && (ClaimFalls(p.a.reserve, p.lpSupply, p'.a.reserve, p'.lpSupply) <==> LowersClaimOnA(p, c))
            && (ClaimFalls(p.b.reserve, p.lpSupply, p'.b.reserve, p'.lpSupply) <==> LowersClaimOnB(p, c))
  {
    match c {
      case Harvest(who) => HarvestLowersClaims(s, h, c);
      case Add(who, _, _, _, _, _) => DepositLowersClaims(s, h, c);
      case Remove(who, lp, _, _, _) =>
        WithdrawalKeepsClaim(s.pool.a.reserve, s.pool.lpSupply, lp);
        WithdrawalKeepsClaim(s.pool.b.reserve, s.pool.lpSupply, lp);
      case _ =>
    }
  }

  lemma HarvestLowersClaims(s: Amm, h: History, c: Command)
    requires Good(s, h) && Execute(s, c).Ok? && s.pool.open && c.Harvest? && s.pool.lpSupply > 0
    ensures var p, p' := s.pool, Perform(s, c).pool;
            && (ClaimFalls(p.a.reserve, p.lpSupply, p'.a.reserve, p'.lpSupply) <==> FeesDueA(p, c.who) > 0)
            && (ClaimFalls(p.b.reserve, p.lpSupply, p'.b.reserve, p'.lpSupply) <==> FeesDueB(p, c.who) > 0)
  {
    var p := s.pool;
    PayoutLowersClaim(p.a.reserve, p.lpSupply, FeesDueA(p, c.who));
    PayoutLowersClaim(p.b.reserve, p.lpSupply, FeesDueB(p, c.who));
  }

  lemma DepositLowersClaims(s: Amm, h: History, c: Command)
    requires Good(s, h) && Execute(s, c).Ok? && s.pool.open && c.Add?
    requires s.pool.a.reserve > 0 && s.pool.b.reserve > 0 && s.pool.lpSupply > 0
    ensures var p, p' := s.pool, Perform(s, c).pool;
            && (ClaimFalls(p.a.reserve, p.lpSupply, p'.a.reserve, p'.lpSupply) <==> LowersClaimOnA(p, c))
            && (ClaimFalls(p.b.reserve, p.lpSupply, p'.b.reserve, p'.lpSupply) <==> LowersClaimOnB(p, c))
  {
    AddIsPayoutAndDeposit(s, h, c);
    var p, d := s.pool, Proportional(s.pool, c.wantA, c.wantB).value;
    var feeA, feeB := FeesDueA(p, c.who), FeesDueB(p, c.who);
    if WholeA(p, c.wantA, c.wantB) {
      WholeDepositClaim(p.a.reserve, p.lpSupply, c.wantA, feeA);
      PartDepositClaim(p.b.reserve, p.lpSupply, d.lp, feeB);
    } else {
      PartDepositClaim(p.a.reserve, p.lpSupply, d.lp, feeA);
      WholeDepositClaim(p.b.reserve, p.lpSupply, c.wantB, feeB);
    }
  }

  // ---------- What a share is worth over a run ----------

  /** The product of the reserves for each squared liquidity token is no less than it was. */
  predicate NoWorse(p: Pool, p': Pool) {
    Product(K(p'), Product(p.lpSupply, p.lpSupply)) >= Product(K(p), Product(p'.lpSupply, p'.lpSupply))
  }

  lemma NoWorseChains(k: nat, l: nat, k1: nat, l1: nat, k2: nat, l2: nat)
    requires l1 > 0 && k1 * l >= k * l1 && k2 * l1 >= k1 * l2
    ensures k2 * l >= k * l2
  {
    MulMono(l, k1 * l2, k2 * l1);
    MulMono(l2, k * l1, k1 * l);
    assert l1 * (k2 * l) == l * (k2 * l1) && l * (k1 * l2) == l2 * (k1 * l) && l2 * (k * l1) == l1 * (k * l2);
    if k2 * l < k * l2 {
      MulMono(l1, k2 * l + 1, k * l2);
      assert false;
    }
  }

  lemma ClaimsKeepWorth(x: nat, y: nat, l: nat, x': nat, y': nat, l': nat)
    requires x' * l >= x * l' && y' * l >= y * l'
    ensures Product(Product(x', y'), Product(l, l)) >= Product(Product(x, y), Product(l', l'))
  {
    MulMono(x' * l, y * l', y' * l);
    MulMono(y * l', x * l', x' * l);
    assert (x' * l) * (y' * l) == (x' * y') * (l * l);
    assert (x * l') * (y * l') == (x * y) * (l' * l');
  }

  lemma KeepsWorth(s: Amm, h: History, c: Command)
    requires Good(s, h) && s.pool.open && !c.Add? && !c.Harvest? && !c.Close?
    ensures NoWorse(s.pool, Perform(s, c).pool)
  {
    var p, p' := s.pool, Perform(s, c).pool;
    TotalLps(p, h);
    if MovesNoLiquidity(c) {
      OneSwapKeepsTheProduct(s, h, c);
      MulMono(Product(p.lpSupply, p.lpSupply), K(p), K(p'));
    } else if Execute(s, c).Ok? {
      WithdrawalKeepsClaim(p.a.reserve, p.lpSupply, c.lp);
      WithdrawalKeepsClaim(p.b.reserve, p.lpSupply, c.lp);
      ClaimsKeepWorth(p.a.reserve, p.b.reserve, p.lpSupply, p'.a.reserve, p'.b.reserve, p'.lpSupply);
    }
  }

  /** Over any run of swaps and withdrawals the worth of a share, product of the reserves over the square of the
      supply, never falls. */
  lemma {:induction false} WorthNeverFallsWithoutPayouts(s: Amm, h: History, cs: seq<Command>)
    requires Good(s, h) && s.pool.open && forall c | c in cs :: !c.Add? && !c.Harvest? && !c.Close?
    ensures var (s', h') := Run(s, h, cs); s'.pool.open && NoWorse(s.pool, s'.pool)
    decreases |cs|
  {
    if cs != [] {
      var before, c := cs[..|cs| - 1], cs[|cs| - 1];
      assert c in cs && forall d | d in before :: d in cs;
      WorthNeverFallsWithoutPayouts(s, h, before);
      RunKeepsGood(s, h, before);
      var (s1, h1) := Run(s, h, before);
      var p, p1, p2 := s.pool, s1.pool, Perform(s1, c).pool;
      KeepsWorth(s1, h1, c);
      TotalLps(p1, h1);
      MulMono(p1.lpSupply, 1, p1.lpSupply);
      NoWorseChains(K(p), Product(p.lpSupply, p.lpSupply), K(p1), Product(p1.lpSupply, p1.lpSupply),
                    K(p2), Product(p2.lpSupply, p2.lpSupply));
    }
  }

  /** Swaps and withdrawals leave something in both reserves: only a payout of fees as high as the whole reserve
      empties one. */
  lemma OnlyPayoutsEmptyAReserve(s: Amm, h: History, c: Command)
    requires Good(s, h) && s.pool.open && s.pool.a.reserve > 0 && s.pool.b.reserve > 0 && !c.Close?
    requires Perform(s, c).pool.a.reserve == 0 || Perform(s, c).pool.b.reserve == 0
    ensures c.Harvest? || c.Add?
    ensures FeesDueA(s.pool, c.who) == s.pool.a.reserve || FeesDueB(s.pool, c.who) == s.pool.b.reserve
  {
    if MovesNoLiquidity(c) {
      OneSwapKeepsTheProduct(s, h, c);
    } else if c.Remove? && Execute(s, c).Ok? {
      RemovalLeavesSomething(s, h, c);
    } else if c.Add? && Execute(s, c).Ok? {
      AddIsPayoutAndDeposit(s, h, c);
    }
  }

  lemma RemovalLeavesSomething(s: Amm, h: History, c: Command)
    requires Good(s, h) && s.pool.open && s.pool.a.reserve > 0 && s.pool.b.reserve > 0 && c.Remove? && Execute(s, c).Ok?
    ensures Perform(s, c).pool.a.reserve > 0 && Perform(s, c).pool.b.reserve > 0
  {
    RemovableIsLess(s, h, c);
    WithdrawalKeepsClaim(s.pool.a.reserve, s.pool.lpSupply, c.lp);
    WithdrawalKeepsClaim(s.pool.b.reserve, s.pool.lpSupply, c.lp);
  }

  /** No position reaches the creator's liquidity. */
  lemma RemovableIsLess(s: Amm, h: History, c: Command)
    requires Good(s, h) && s.pool.open && c.Remove? && Execute(s, c).Ok?
    ensures c.lp + h.minted <= s.pool.lpSupply
  {
    TotalBoundsMember(s.pool.positions, c.who, LpOf);
  }

  // ---------- In and out again ----------

  lemma WholeComesBack(r: nat, lpSupply: nat, want: nat)
    requires r > 0 && lpSupply > 0
    ensures var lp := want * lpSupply / r; lp * (r + want) / (lpSupply + lp) <= want
  {
    var lp := want * lpSupply / r;
    DivBounds(want * lpSupply, r);
    assert lp * (r + want) == lp * r + lp * want && (lpSupply + lp) * want == want * lpSupply + lp * want;
    DivAtMost(lp * (r + want), lpSupply + lp, want);
  }

  lemma DivAtMost(a: nat, b: nat, q: nat)
    requires b > 0 && a <= b * q
    ensures a / b <= q
  {
    DivBounds(a, b);
    if a / b > q {
      MulMono(b, q + 1, a / b);
    }
  }

  lemma PartComesBack(r: nat, lpSupply: nat, lp: nat)
    requires lpSupply > 0
    ensures var amount := lp * r / lpSupply; lp * (r + amount) / (lpSupply + lp) == amount
  {
    var amount := lp * r / lpSupply;
    DivBounds(lp * r, lpSupply);
    assert lp * (r + amount) == lp * r + lp * amount && (lpSupply + lp) * amount == lpSupply * amount + lp * amount;
    DivUnique(lp * (r + amount), lpSupply + lp, amount);
  }

  /** Liquidity added to a new position and removed at once succeeds, returns no more of the token deposited whole, and
      exactly what was deposited of the other one. */
  lemma DepositComesBack(s: Amm, h: History, c: Command, tokens: nat)
    requires Good(s, h) && c.Add? && Execute(s, c).Ok? && c.who !in s.pool.positions
    requires tokens >= Proportional(s.pool, c.wantA, c.wantB).value.lp
    ensures var d, s1 := Proportional(s.pool, c.wantA, c.wantB).value, Perform(s, c);
            var back := Remove(c.who, d.lp, 0, 0, tokens);
            && Execute(s1, back).Ok?
            && var p, p' := s.pool, Perform(s1, back).pool;
            && p'.lpSupply == p.lpSupply
            && (if WholeA(p, c.wantA, c.wantB) then p'.a.reserve >= p.a.reserve && p'.b.reserve == p.b.reserve
                else p'.a.reserve == p.a.reserve && p'.b.reserve >= p.b.reserve)
  {
    AddIsPayoutAndDeposit(s, h, c);
    TotalLps(s.pool, h);
    AddKeepsGood(s, h, c);
    var p, d := s.pool, Proportional(s.pool, c.wantA, c.wantB).value;
    OwnLiquidityComesOut(Perform(s, c), Noted(h, s, c), c.who, d.lp, tokens);
    DepositRoundTrips(p, c.wantA, c.wantB);
  }

  /** Portion of what a deposit leaves, for the liquidity it bought. */
  lemma DepositRoundTrips(p: Pool, wantA: u64, wantB: u64)
    requires p.lpSupply > 0 && Proportional(p, wantA, wantB).Ok?
    ensures var d := Proportional(p, wantA, wantB).value;
            var backA := d.lp * (p.a.reserve + d.a) / (p.lpSupply + d.lp);
            var backB := d.lp * (p.b.reserve + d.b) / (p.lpSupply + d.lp);
            if WholeA(p, wantA, wantB) then backA <= d.a && backB == d.b else backA == d.a && backB <= d.b
  {
    var d := Proportional(p, wantA, wantB).value;
    if WholeA(p, wantA, wantB) {
      WholeComesBack(p.a.reserve, p.lpSupply, wantA);
      PartComesBack(p.b.reserve, p.lpSupply, d.lp);
    } else {
      PartComesBack(p.a.reserve, p.lpSupply, d.lp);
      WholeComesBack(p.b.reserve, p.lpSupply, wantB);
    }
  }

  /** A position's liquidity can always be removed by a holder of the tokens, at its portion of the reserves. */
  lemma OwnLiquidityComesOut(s: Amm, h: History, who: Key, lp: u64, tokens: nat)
    requires Good(s, h) && s.pool.open && who in s.pool.positions && s.pool.lpSupply >= lp
    requires 0 < lp <= Min(s.pool.positions[who].lp, tokens)
    ensures var p, r := s.pool, RemoveLiquidity(s, who, lp, 0, 0, tokens);
            && r.Ok? && r.value.pool.lpSupply == p.lpSupply - lp
            && r.value.pool.a.reserve == p.a.reserve - lp * p.a.reserve / p.lpSupply
            && r.value.pool.b.reserve == p.b.reserve - lp * p.b.reserve / p.lpSupply
  {
    WithdrawalKeepsClaim(s.pool.a.reserve, s.pool.lpSupply, lp);
    WithdrawalKeepsClaim(s.pool.b.reserve, s.pool.lpSupply, lp);
  }

  // ---------- Fees that cannot be collected ----------

  predicate Fits(side: Side, last: u128, lp: u64) {
    Owed(side, last, lp) <= U128_MAX && Owed(side, last, lp) / FEE_SCALE <= U64_MAX
  }

  /** A harvest pays out of the reserves, and nothing keeps the reserves above the fees that are owed. */
  lemma HarvestSucceedsExactlyWhen(s: Amm, h: History, who: Key)
    requires Good(s, h) && s.pool.open && who in s.pool.positions
    ensures var p, q := s.pool, s.pool.positions[who];
            HarvestFees(s, who).Ok?
            <==> && q.lp > 0 && Fits(p.a, q.lastA, q.lp) && Fits(p.b, q.lastB, q.lp)
                 && (FeesDueA(p, who) > 0 || FeesDueB(p, who) > 0)
                 && FeesDueA(p, who) <= p.a.reserve && FeesDueB(p, who) <= p.b.reserve
  {
  }

  /** The output of a swap is always less than the reserve, so that only the funds, the caller's limit and the widths
      of the counters can refuse one that pays anything. */
  lemma ExchangeSucceedsExactlyWhen(cfg: Config, i: Side, o: Side, lpSupply: u64, x: u64, minOut: u64, funds: nat)
    requires cfg.protocolBps + cfg.lpBps <= BPS_DENOMINATOR && i.reserve <= i.vault && o.reserve <= o.vault
    ensures Exchange(cfg, i, o, lpSupply, x, minOut, funds).Ok?
            <==> && i.reserve > 0 && o.reserve > 0 && x <= funds
                 && var out := AmountOut(i.reserve, o.reserve, Bps(x, BPS_DENOMINATOR - cfg.protocolBps - cfg.lpBps));
                 && 0 < out && minOut <= out
                 && i.vault + x - Bps(x, cfg.protocolBps) <= U64_MAX
                 && i.acc + PerToken(Bps(x, cfg.lpBps), lpSupply) <= U128_MAX
  {
    if i.reserve > 0 && o.reserve > 0 {
      FeesKeepProduct(i.reserve, o.reserve, x, cfg.protocolBps, cfg.lpBps);
      var out := AmountOut(i.reserve, o.reserve, Bps(x, BPS_DENOMINATOR - cfg.protocolBps - cfg.lpBps));
      if i.vault + x - Bps(x, cfg.protocolBps) <= U64_MAX {
        ProductFits(i.reserve + x - Bps(x, cfg.protocolBps), o.reserve - out);
      }
    }
  }

  lemma ProductFits(x: u64, y: u64)
    ensures Product(x, y) <= U128_MAX
  {
    MulMono(x, y, U64_MAX);
  }

  // ---------- A run after which fees cannot be collected ----------

  /** Ten per cent of every swap for the liquidity providers. */
  const CFG := Config(0, 1_000, false, 0, 0)

  const START := Pool(true, Side(10_000, 10_000, 0), Side(10_000, 10_000, 0), 10_000, 0, 0, map[])

  /** A position with all liquidity but the creator's, one swap, and one back. */
  const DEPOSITING: Command := Add(1, 990_000, 990_000, 0, 990_000, 990_000)
  const BUYING: Command := Trading(1_000_000_000, 0, true, 1_000_000_000)
  const SELLING: Command := Trading(1_000_000_000, 0, false, 1_000_000_000)

  const PER_TOKEN: u128 := 100_000_000_000_000

  const DEPOSITED := Pool(true, Side(1_000_000, 1_000_000, 0), Side(1_000_000, 1_000_000, 0), 1_000_000, 0, 0,
                          map[1 := Position(990_000, 0, 0)])

  const BOUGHT := DEPOSITED.(a := Side(1_001_000_000, 1_001_000_000, PER_TOKEN), b := Side(1_110, 1_110, 0),
                             volume := 1_000_000_000, fees := 100_000_000)

  const SOLD := DEPOSITED.(a := Side(1_235, 1_235, PER_TOKEN), b := Side(1_000_001_110, 1_000_001_110, PER_TOKEN),
                           volume := 2_000_000_000, fees := 200_000_000)

  lemma StartIsCreated()
    ensures CreatePool(CFG, 10_000, 10_000, 10_000, 10_000) == Ok(START)
  {
    RootIsUnique(100_000_000, 10_000);
  }

  lemma AfterDepositing()
    ensures Perform(Amm(CFG, START), DEPOSITING) == Amm(CFG, DEPOSITED)
  {
  }

  lemma AfterBuying()
    ensures Perform(Amm(CFG, DEPOSITED), BUYING) == Amm(CFG.(volume := 1_000_000_000), BOUGHT)
  {
    var e := Bps(1_000_000_000, 9_000);
    assert e == 900_000_000;
    DivUnique(1_000_000 * 900_000_000, 901_000_000, 998_890);
    assert AmountOut(1_000_000, 1_000_000, e) == 998_890;
    assert Bps(1_000_000_000, 0) == 0 && Bps(1_000_000_000, 1_000) == 100_000_000;
    assert PerToken(100_000_000, 1_000_000) == PER_TOKEN;
  }

  lemma AfterSelling()
    ensures Perform(Amm(CFG.(volume := 1_000_000_000), BOUGHT), SELLING) == Amm(CFG.(volume := 2_000_000_000), SOLD)
  {
    var e := Bps(1_000_000_000, 9_000);
    assert e == 900_000_000;
    DivUnique(1_001_000_000 * 900_000_000, 900_001_110, 1_000_998_765);
    assert AmountOut(1_110, 1_001_000_000, e) == 1_000_998_765;
    assert Bps(1_000_000_000, 0) == 0 && Bps(1_000_000_000, 1_000) == 100_000_000;
    assert PerToken(100_000_000, 1_000_000) == PER_TOKEN;
  }

  lemma AfterThree()
    ensures Run(Amm(CFG, START), Opening(START), [DEPOSITING, BUYING, SELLING]).0
            == Amm(CFG.(volume := 2_000_000_000), SOLD)
  {
    var cs := [DEPOSITING, BUYING, SELLING];
    assert cs[..2] == [DEPOSITING, BUYING] && cs[..2][..1] == [DEPOSITING] && cs[..2][..1][..0] == [];
    AfterDepositing();
    AfterBuying();
    AfterSelling();
    assert Run(Amm(CFG, START), Opening(START), cs[..2][..1]).0 == Amm(CFG, DEPOSITED);
    assert Run(Amm(CFG, START), Opening(START), cs[..2]).0 == Amm(CFG.(volume := 1_000_000_000), BOUGHT);
  }

  lemma OwedMoreThanTheReserve(s: Amm, who: Key, wantA: u64, wantB: u64, fundsA: nat, fundsB: nat)
    requires FeesDueA(s.pool, who) > s.pool.a.reserve
    ensures HarvestFees(s, who).Err? && AddLiquidity(s, who, wantA, wantB, 0, fundsA, fundsB).Err?
  {
  }

  /** A position is owed 99 000 000 of a token whose reserve is down to 1 235: it can neither harvest nor add. */
  lemma FeesCanOutgrowTheReserve(wantA: u64, wantB: u64, fundsA: nat, fundsB: nat)
    ensures CreatePool(CFG, 10_000, 10_000, 10_000, 10_000) == Ok(START)
    ensures var s := Run(Amm(CFG, START), Opening(START), [DEPOSITING, BUYING, SELLING]).0;
            && FeesDueA(s.pool, 1) == 99_000_000 && s.pool.a.reserve == 1_235
            && HarvestFees(s, 1).Err? && AddLiquidity(s, 1, wantA, wantB, 0, fundsA, fundsB).Err?
  {
    StartIsCreated();
    AfterThree();
    assert Owed(SOLD.a, 0, 990_000) == 99_000_000_000_000_000_000;
    OwedMoreThanTheReserve(Amm(CFG.(volume := 2_000_000_000), SOLD), 1, wantA, wantB, fundsA, fundsB);
  }
}

/** What each instruction of the pool asks for and what it does to the accounts, in amounts rounded down. */
module SwapEffects {
  import opened Numbers
  import opened Totals
  import opened Swap
  import opened SwapRuns
  import opened SwapShares

  /** `q` is how many whole times `d` goes into `n`. */
  predicate IsQuotient(n: nat, d: nat, q: nat) {
    d * q <= n < d * q + d
  }

  lemma QuotientIsUnique(n: nat, d: nat, q: nat)
    requires IsQuotient(n, d, q)
    ensures d > 0 && q == n / d
  {
    DivUnique(n, d, q);
  }

  /** `part` is that many basis points of the amount, rounded down. */
  predicate IsPart(amount: nat, bps: nat, part: nat) {
    10_000 * part <= amount * bps < 10_000 * part + 10_000
  }

  lemma PartIsUnique(x: u64, bps: nat, part: nat)
    requires IsPart(x, bps, part)
    ensures part == Bps(x, bps)
  {
    DivUnique(x * bps, 10_000, part);
  }

  // ---------- Creation ----------

  /** A pool opens with the root of the product in liquidity tokens, of which a thousand are nobody's. */
  lemma CreationEffect(cfg: Config, x: u64, y: u64, fundsX: nat, fundsY: nat, root: nat)
    requires root * root <= x * y < (root + 1) * (root + 1)
    ensures var r := CreatePool(cfg, x, y, fundsX, fundsY);
            && (r.Ok? <==> 0 < x <= fundsX && 0 < y <= fundsY && !cfg.paused && root > 1_000)
            && (r.Ok? ==>
                  && r.value.open && r.value.lpSupply == root && r.value.positions == map[]
                  && r.value.a.reserve == r.value.a.vault == x && r.value.b.reserve == r.value.b.vault == y
                  && r.value.a.acc == r.value.b.acc == r.value.volume == r.value.fees == 0)
  {
    RootIsUnique(x * y, root);
    if x <= y {
      RootOfProduct(x, y);
    } else {
      RootOfProduct(y, x);
      Commutes(x, y);
    }
  }

  // ---------- Swaps ----------

  /** What a swap of `x` comes to: what is left of it for the price formula, the output, and the two fees. */
  datatype Terms = Terms(effective: nat, out: nat, protocolFee: nat, lpFee: nat)

  /** The output is the most that keeps the product of the reserves, given what is left of the input. */
  predicate Prices(cfg: Config, i: Side, o: Side, x: u64, t: Terms) {
    && cfg.protocolBps + cfg.lpBps <= 10_000
    && IsPart(x, 10_000 - cfg.protocolBps - cfg.lpBps, t.effective)
    && IsPart(x, cfg.protocolBps, t.protocolFee) && IsPart(x, cfg.lpBps, t.lpFee)
    && KeepsProduct(i.reserve, o.reserve, t.effective, t.out)
    && !KeepsProduct(i.reserve, o.reserve, t.effective, t.out + 1)
  }

  predicate KeepsProduct(i: nat, o: nat, paid: nat, out: nat) {
    (i + paid) * (o - out) >= i * o
  }

  /** What a fee adds for every liquidity token, in trillionths. */
  predicate IsPerToken(fee: nat, lpSupply: nat, per: nat) {
    IsQuotient(1_000_000_000_000 * fee, lpSupply, per)
  }

  lemma LargestOutput(i: u64, o: u64, paid: nat, out: nat)
    requires i > 0 && KeepsProduct(i, o, paid, out) && !KeepsProduct(i, o, paid, out + 1)
    ensures out == AmountOut(i, o, paid)
  {
    assert (i + paid) * (o - out) == i * o + o * paid - (i + paid) * out;
    assert (i + paid) * (o - (out + 1)) == i * o + o * paid - (i + paid) * out - (i + paid);
    DivUnique(o * paid, i + paid, out);
  }

  lemma TermsAreUnique(cfg: Config, i: Side, o: Side, x: u64, t: Terms)
    requires i.reserve > 0 && Prices(cfg, i, o, x, t)
    ensures t.effective == Bps(x, 10_000 - cfg.protocolBps - cfg.lpBps)
    ensures t.out == AmountOut(i.reserve, o.reserve, t.effective)
    ensures t.protocolFee == Bps(x, cfg.protocolBps) && t.lpFee == Bps(x, cfg.lpBps)
    ensures t.protocolFee <= x && t.lpFee <= x
  {
    PartIsUnique(x, 10_000 - cfg.protocolBps - cfg.lpBps, t.effective);
    PartIsUnique(x, cfg.protocolBps, t.protocolFee);
    PartIsUnique(x, cfg.lpBps, t.lpFee);
    BpsSplit(x, cfg.protocolBps, cfg.lpBps);
    LargestOutput(i.reserve, o.reserve, t.effective, t.out);
  }

  /** What the liquidity providers' fee adds to the accumulator. */
  predicate Accrues(lpSupply: u64, t: Terms, per: nat) {
    if lpSupply == 0 then per == 0 else IsPerToken(t.lpFee, lpSupply, per)
  }

  lemma AccrualIsUnique(lpSupply: u64, t: Terms, per: nat)
    requires Accrues(lpSupply, t, per) && t.lpFee <= U64_MAX
    ensures per == PerToken(t.lpFee, lpSupply)
  {
    if lpSupply > 0 {
      QuotientIsUnique(1_000_000_000_000 * t.lpFee, lpSupply, per);
      Commutes(t.lpFee, 1_000_000_000_000);
    }
  }

  /** A swap is refused for these reasons and no other. */
  lemma SwapSucceedsExactlyWhen(s: Amm, h: History, x: u64, minOut: u64, aToB: bool, funds: nat, t: Terms, per: nat)
    requires Good(s, h) && s.pool.open
    requires var (i, o) := if aToB then (s.pool.a, s.pool.b) else (s.pool.b, s.pool.a);
             && (i.reserve > 0 ==> Prices(s.cfg, i, o, x, t))
             && Accrues(s.pool.lpSupply, t, per)
    ensures var (i, o) := if aToB then (s.pool.a, s.pool.b) else (s.pool.b, s.pool.a);
            SwapTokens(s, x, minOut, aToB, funds).Ok?
            <==> && 0 < x <= funds && !s.cfg.paused && i.reserve > 0 && o.reserve > 0
                 && 0 < t.out && minOut <= t.out
                 && i.vault + x - t.protocolFee <= U64_MAX && i.acc + per <= U128_MAX
                 && s.pool.volume + x <= U128_MAX && s.pool.fees + t.protocolFee + t.lpFee <= U128_MAX
                 && s.cfg.volume + x <= U128_MAX && s.cfg.collected + t.protocolFee <= U128_MAX
  {
    var i, o := if aToB then s.pool.a else s.pool.b, if aToB then s.pool.b else s.pool.a;
    ExchangeSucceedsExactlyWhen(s.cfg, i, o, s.pool.lpSupply, x, minOut, funds);
    if i.reserve > 0 {
      TermsAreUnique(s.cfg, i, o, x, t);
      AccrualIsUnique(s.pool.lpSupply, t, per);
    }
  }

  /** What a swap does to the two tokens: the input less the protocol's fee stays in the pool, the liquidity providers'
      part of it counted for them, and the output leaves. */
  predicate Traded(i: Side, o: Side, i': Side, o': Side, x: u64, t: Terms, per: nat) {
    && i'.reserve - i.reserve == i'.vault - i.vault == x - t.protocolFee && i'.acc - i.acc == per
    && o.reserve - o'.reserve == o.vault - o'.vault == t.out && o'.acc == o.acc
  }

  lemma SwapEffect(s: Amm, x: u64, minOut: u64, aToB: bool, funds: nat, t: Terms, per: nat)
    requires s.cfg.protocolBps + s.cfg.lpBps <= 1_000 && SwapTokens(s, x, minOut, aToB, funds).Ok?
    requires Accrues(s.pool.lpSupply, t, per)
    requires if aToB then Prices(s.cfg, s.pool.a, s.pool.b, x, t) else Prices(s.cfg, s.pool.b, s.pool.a, x, t)
    ensures var s' := SwapTokens(s, x, minOut, aToB, funds).value;
            && (if aToB then Traded(s.pool.a, s.pool.b, s'.pool.a, s'.pool.b, x, t, per)
                else Traded(s.pool.b, s.pool.a, s'.pool.b, s'.pool.a, x, t, per))
            && s'.pool.volume - s.pool.volume == s'.cfg.volume - s.cfg.volume == x
            && s'.pool.fees - s.pool.fees == t.protocolFee + t.lpFee
            && s'.cfg.collected - s.cfg.collected == t.protocolFee
            && s'.cfg == s.cfg.(volume := s'.cfg.volume, collected := s'.cfg.collected)
            && s'.pool == s.pool.(a := s'.pool.a, b := s'.pool.b, volume := s'.pool.volume, fees := s'.pool.fees)
  {
    var i, o := if aToB then s.pool.a else s.pool.b, if aToB then s.pool.b else s.pool.a;
    TermsAreUnique(s.cfg, i, o, x, t);
    AccrualIsUnique(s.pool.lpSupply, t, per);
  }

  // ---------- Deposits ----------

  /** So many liquidity tokens are worth no more than the offer of one token, at its reserve. */
  predicate Affords(want: u64, lpSupply: u64, reserve: u64, lp: nat) {
    lp * reserve <= want * lpSupply
  }

  /** The most liquidity tokens that both offers afford; the token that affords no more is taken whole and the other
      one in proportion to them. */
  predicate Fills(p: Pool, wantA: u64, wantB: u64, d: Deposit) {
    && Affords(wantA, p.lpSupply, p.a.reserve, d.lp) && Affords(wantB, p.lpSupply, p.b.reserve, d.lp)
    && if Affords(wantA, p.lpSupply, p.a.reserve, d.lp + 1) then
         && !Affords(wantB, p.lpSupply, p.b.reserve, d.lp + 1)
         && d.b == wantB && IsQuotient(d.lp * p.a.reserve, p.lpSupply, d.a)
       else d.a == wantA && IsQuotient(d.lp * p.b.reserve, p.lpSupply, d.b)
  }

  /** Not exceeding a quotient is not exceeding the numerator when scaled back. */
  lemma QuotientIsLargest(n: nat, d: nat, q: nat)
    requires d > 0
    ensures q * d <= n <==> q <= n / d
  {
    DivBounds(n, d);
    if q <= n / d {
      MulMono(d, q, n / d);
    } else {
      MulMono(d, n / d + 1, q);
    }
  }

  lemma LargestAfforded(want: u64, lpSupply: u64, reserve: u64, lp: nat)
    requires reserve > 0
    ensures Affords(want, lpSupply, reserve, lp) <==> lp <= LpFor(want, lpSupply, reserve)
  {
    QuotientIsLargest(want * lpSupply, reserve, lp);
  }

  lemma FillIsProportional(p: Pool, wantA: u64, wantB: u64, d: Deposit)
    requires p.a.reserve > 0 && p.b.reserve > 0 && p.lpSupply > 0 && Fills(p, wantA, wantB, d)
    ensures Proportional(p, wantA, wantB) == Ok(d)
  {
    LargestAfforded(wantA, p.lpSupply, p.a.reserve, d.lp);
    LargestAfforded(wantB, p.lpSupply, p.b.reserve, d.lp);
    LargestAfforded(wantA, p.lpSupply, p.a.reserve, d.lp + 1);
    LargestAfforded(wantB, p.lpSupply, p.b.reserve, d.lp + 1);
    if Affords(wantA, p.lpSupply, p.a.reserve, d.lp + 1) {
      QuotientIsUnique(d.lp * p.a.reserve, p.lpSupply, d.a);
    } else {
      QuotientIsUnique(d.lp * p.b.reserve, p.lpSupply, d.b);
    }
  }

  /** The fees due to some liquidity since a checkpoint, in whole units, and whether they can be computed. */
  predicate IsDue(side: Side, last: u128, lp: u64, due: nat) {
    last <= side.acc && IsQuotient((side.acc - last) * lp, 1_000_000_000_000, due)
  }

  predicate DueFits(side: Side, last: u128, lp: u64, due: nat) {
    (side.acc - last) * lp <= U128_MAX && due <= U64_MAX
  }

  lemma DueIsPending(side: Side, last: u128, lp: u64, due: nat)
    requires IsDue(side, last, lp, due)
    ensures Pending(side, last, lp).Ok? <==> DueFits(side, last, lp, due)
    ensures Pending(side, last, lp).Ok? ==> Pending(side, last, lp).value == due
    ensures due == Owed(side, last, lp) / FEE_SCALE
  {
    QuotientIsUnique((side.acc - last) * lp, 1_000_000_000_000, due);
  }

  /** What is due to a depositor before the deposit: nothing without a position. */
  predicate DuesOf(p: Pool, who: Key, dueA: nat, dueB: nat) {
    if who in p.positions then
      && IsDue(p.a, p.positions[who].lastA, p.positions[who].lp, dueA)
      && IsDue(p.b, p.positions[who].lastB, p.positions[who].lp, dueB)
    else dueA == dueB == 0
  }

  /** The dues can be computed and the reserves can pay them. */
  predicate DuesPayable(p: Pool, who: Key, dueA: nat, dueB: nat) {
    who in p.positions ==>
      && DueFits(p.a, p.positions[who].lastA, p.positions[who].lp, dueA) && dueA <= p.a.reserve
      && DueFits(p.b, p.positions[who].lastB, p.positions[who].lp, dueB) && dueB <= p.b.reserve
  }

  lemma DuesArePaid(p: Pool, who: Key, a: Side, b: Side, dueA: nat, dueB: nat)
    requires who in p.positions && DuesOf(p, who, dueA, dueB)
    requires a.acc == p.a.acc && a.reserve == p.a.reserve <= a.vault
    requires b.acc == p.b.acc && b.reserve == p.b.reserve <= b.vault
    ensures PayPending(a, b, p.positions[who]).Ok? <==> DuesPayable(p, who, dueA, dueB)
    ensures PayPending(a, b, p.positions[who]).Ok? ==>
              PayPending(a, b, p.positions[who]).value
              == Sides(a.(vault := a.vault - dueA, reserve := a.reserve - dueA),
                       b.(vault := b.vault - dueB, reserve := b.reserve - dueB))
  {
    var q := p.positions[who];
    DueIsPending(a, q.lastA, q.lp, dueA);
    DueIsPending(b, q.lastB, q.lp, dueB);
  }

  lemma PositionIsWithinSupply(p: Pool, h: History, who: Key)
    requires PoolGood(p, h) && who in p.positions
    ensures p.positions[who].lp <= p.lpSupply - h.minted
  {
    TotalBoundsMember(p.positions, who, LpOf);
  }

  /** A deposit into an open pool is refused for these reasons and no other. */
  lemma AddSucceedsExactlyWhen(s: Amm, h: History, who: Key, wantA: u64, wantB: u64, minLp: u64, fundsA: nat,
                               fundsB: nat, d: Deposit, dueA: nat, dueB: nat)
    requires Good(s, h) && s.pool.open && s.pool.a.reserve > 0 && s.pool.b.reserve > 0
    requires Fills(s.pool, wantA, wantB, d) && DuesOf(s.pool, who, dueA, dueB)
    ensures AddLiquidity(s, who, wantA, wantB, minLp, fundsA, fundsB).Ok?
            <==> && 0 < wantA && 0 < wantB && 0 < d.lp && minLp <= d.lp
                 && d.a <= fundsA && s.pool.a.vault + d.a <= U64_MAX
                 && d.b <= fundsB && s.pool.b.vault + d.b <= U64_MAX
                 && DuesPayable(s.pool, who, dueA, dueB) && s.pool.lpSupply + d.lp <= U64_MAX
  {
    var p := s.pool;
    TotalLps(p, h);
    FillIsProportional(p, wantA, wantB, d);
    if who in p.positions && p.a.vault + d.a <= U64_MAX && p.b.vault + d.b <= U64_MAX {
      PositionIsWithinSupply(p, h, who);
      DuesArePaid(p, who, p.a.(vault := p.a.vault + d.a), p.b.(vault := p.b.vault + d.b), dueA, dueB);
    }
  }

  lemma EmptySideTakesNoDeposit(s: Amm, who: Key, wantA: u64, wantB: u64, minLp: u64, fundsA: nat, fundsB: nat)
    requires !s.pool.open || s.pool.a.reserve == 0 || s.pool.b.reserve == 0
    ensures AddLiquidity(s, who, wantA, wantB, minLp, fundsA, fundsB).Err?
  {
  }

  /** It raises both tokens by what is taken, less the dues paid out first, and the position and the supply by the
      liquidity; the position's checkpoints move up to now. */
  lemma AddEffect(s: Amm, h: History, who: Key, wantA: u64, wantB: u64, minLp: u64, fundsA: nat, fundsB: nat,
                  d: Deposit, dueA: nat, dueB: nat)
    requires Good(s, h) && AddLiquidity(s, who, wantA, wantB, minLp, fundsA, fundsB).Ok?
    requires Fills(s.pool, wantA, wantB, d) && DuesOf(s.pool, who, dueA, dueB)
    ensures var s' := AddLiquidity(s, who, wantA, wantB, minLp, fundsA, fundsB).value;
            var p, p' := s.pool, s'.pool;
            && p'.a.reserve - p.a.reserve == p'.a.vault - p.a.vault == d.a - dueA && p'.a.acc == p.a.acc
            && p'.b.reserve - p.b.reserve == p'.b.vault - p.b.vault == d.b - dueB && p'.b.acc == p.b.acc
            && p'.lpSupply - p.lpSupply == d.lp
            && who in p'.positions && p'.positions - {who} == p.positions - {who}
            && p'.positions[who].lp == (if who in p.positions then p.positions[who].lp else 0) + d.lp
            && p'.positions[who].lastA == p.a.acc && p'.positions[who].lastB == p.b.acc
            && s' == s.(pool := p.(a := p'.a, b := p'.b, lpSupply := p'.lpSupply, positions := p'.positions))
  {
    var p := s.pool;
    TotalLps(p, h);
    FillIsProportional(p, wantA, wantB, d);
    if who in p.positions {
      DuesArePaid(p, who, p.a.(vault := p.a.vault + d.a), p.b.(vault := p.b.vault + d.b), dueA, dueB);
    }
  }

  // ---------- Withdrawals ----------

  /** What some liquidity is worth of each token. */
  predicate IsWorth(p: Pool, lp: u64, outA: nat, outB: nat) {
    IsQuotient(lp * p.a.reserve, p.lpSupply, outA) && IsQuotient(lp * p.b.reserve, p.lpSupply, outB)
  }

  lemma WorthIsPortion(p: Pool, lp: u64, outA: nat, outB: nat)
    requires IsWorth(p, lp, outA, outB) && 0 < lp <= p.lpSupply
    ensures Portion(lp, p.a.reserve, p.lpSupply) == Ok(outA) && outA <= p.a.reserve
    ensures Portion(lp, p.b.reserve, p.lpSupply) == Ok(outB) && outB <= p.b.reserve
  {
    QuotientIsUnique(lp * p.a.reserve, p.lpSupply, outA);
    QuotientIsUnique(lp * p.b.reserve, p.lpSupply, outB);
    WithdrawalKeepsClaim(p.a.reserve, p.lpSupply, lp);
    WithdrawalKeepsClaim(p.b.reserve, p.lpSupply, lp);
  }

  /** Liquidity comes out of one's own position for these reasons and no other. */
  lemma RemoveSucceedsExactlyWhen(s: Amm, h: History, who: Key, lp: u64, minA: u64, minB: u64, tokens: nat,
                                  outA: nat, outB: nat)
    requires Good(s, h) && s.pool.open && IsWorth(s.pool, lp, outA, outB)
    ensures RemoveLiquidity(s, who, lp, minA, minB, tokens).Ok?
            <==> && 0 < lp <= tokens && who in s.pool.positions && lp <= s.pool.positions[who].lp
                 && minA <= outA && minB <= outB
  {
    if who in s.pool.positions {
      PositionIsWithinSupply(s.pool, h, who);
      if 0 < lp <= s.pool.positions[who].lp {
        WorthIsPortion(s.pool, lp, outA, outB);
      }
    }
  }

  lemma RemoveEffect(s: Amm, h: History, who: Key, lp: u64, minA: u64, minB: u64, tokens: nat, outA: nat, outB: nat)
    requires Good(s, h) && IsWorth(s.pool, lp, outA, outB) && RemoveLiquidity(s, who, lp, minA, minB, tokens).Ok?
    ensures var s' := RemoveLiquidity(s, who, lp, minA, minB, tokens).value;
            var p, p' := s.pool, s'.pool;
            && p.a.reserve - p'.a.reserve == p.a.vault - p'.a.vault == outA && p'.a.acc == p.a.acc
            && p.b.reserve - p'.b.reserve == p.b.vault - p'.b.vault == outB && p'.b.acc == p.b.acc
            && p.lpSupply - p'.lpSupply == lp
            && who in p'.positions && p'.positions - {who} == p.positions - {who}
            && p'.positions[who].lp == p.positions[who].lp - lp
            && p'.positions[who].lastA == p.positions[who].lastA && p'.positions[who].lastB == p.positions[who].lastB
            && s' == s.(pool := p.(a := p'.a, b := p'.b, lpSupply := p'.lpSupply, positions := p'.positions))
  {
    PositionIsWithinSupply(s.pool, h, who);
    WorthIsPortion(s.pool, lp, outA, outB);
  }

  // ---------- Fees ----------

  /** A harvest pays a position all that is due to it, and nothing is due to it right afterwards. */
  lemma HarvestEffect(s: Amm, h: History, who: Key, dueA: nat, dueB: nat)
    requires Good(s, h) && s.pool.open && who in s.pool.positions && DuesOf(s.pool, who, dueA, dueB)
    ensures var p, r := s.pool, HarvestFees(s, who);
            && (r.Ok? <==> p.positions[who].lp > 0 && (dueA > 0 || dueB > 0) && DuesPayable(p, who, dueA, dueB))
            && (r.Ok? ==>
                  var p' := r.value.pool;
                  && p.a.reserve - p'.a.reserve == p.a.vault - p'.a.vault == dueA && p'.a.acc == p.a.acc
                  && p.b.reserve - p'.b.reserve == p.b.vault - p'.b.vault == dueB && p'.b.acc == p.b.acc
                  && who in p'.positions && p'.positions - {who} == p.positions - {who}
                  && p'.positions[who].lp == p.positions[who].lp && DuesOf(p', who, 0, 0)
                  && r.value == s.(pool := p.(a := p'.a, b := p'.b, positions := p'.positions))
                  && HarvestFees(r.value, who).Err?)
  {
    var q := s.pool.positions[who];
    DueIsPending(s.pool.a, q.lastA, q.lp, dueA);
    DueIsPending(s.pool.b, q.lastB, q.lp, dueB);
    if HarvestFees(s, who).Ok? {
      var p' := HarvestFees(s, who).value.pool;
      var q' := p'.positions[who];
      NothingDue(p'.a, q'.lp);
      NothingDue(p'.b, q'.lp);
    }
  }

  lemma NothingDue(side: Side, lp: u64)
    ensures IsDue(side, side.acc, lp, 0) && Pending(side, side.acc, lp) == Ok(0)
  {
    assert (side.acc - side.acc) * lp == 0;
    DueIsPending(side, side.acc, lp, 0);
  }

  // ---------- Administration ----------

  /** Rates change only to ones that together stay within a tenth. */
  lemma ConfigurationEffect(s: Amm, protocolBps: Option<u16>, lpBps: Option<u16>)
    requires s.cfg.protocolBps + s.cfg.lpBps <= 1_000
    ensures var r := UpdateConfig(s, protocolBps, lpBps);
            && (r.Ok? <==> && (protocolBps.Some? ==> protocolBps.value + s.cfg.lpBps <= 1_000)
                           && (lpBps.Some? ==>
                                 (if protocolBps.Some? then protocolBps.value else s.cfg.protocolBps) + lpBps.value
                                 <= 1_000))
            && (r.Ok? ==>
                  && r.value.cfg.protocolBps + r.value.cfg.lpBps <= 1_000
                  && (protocolBps.Some? ==> r.value.cfg.protocolBps == protocolBps.value)
                  && (protocolBps.None? ==> r.value.cfg.protocolBps == s.cfg.protocolBps)
                  && (lpBps.Some? ==> r.value.cfg.lpBps == lpBps.value)
                  && (lpBps.None? ==> r.value.cfg.lpBps == s.cfg.lpBps)
                  && r.value == s.(cfg := s.cfg.(protocolBps := r.value.cfg.protocolBps, lpBps := r.value.cfg.lpBps)))
  {
  }

  /** A closed pool is emptied for good: none of its instructions works any more. */
  lemma ClosingEffect(s: Amm, c: Command)
    ensures var r := ClosePool(s);
            && (r.Ok? <==> s.pool.open)
            && (r.Ok? ==>
                  && !r.value.pool.open && r.value.cfg == s.cfg && r.value.pool.positions == s.pool.positions
                  && r.value.pool.a == r.value.pool.b == Side(0, 0, 0)
                  && r.value.pool.lpSupply == r.value.pool.volume == r.value.pool.fees == 0
                  && (c.Add? || c.Remove? || c.Trading? || c.Harvest? || c.Close? ==> Execute(r.value, c).Err?))
  {
  }

  lemma SettingsEffect(s: Amm, paused: bool, protocolBps: u16, lpBps: u16)
    ensures Execute(s, Pause(paused)).Ok?
    ensures var s' := Execute(s, Pause(paused)).value;
            s'.cfg.paused == paused && s' == s.(cfg := s.cfg.(paused := s'.cfg.paused))
    ensures var r := Initialize(protocolBps, lpBps);
            && (r.Ok? <==> protocolBps + lpBps <= 1_000)
            && (r.Ok? ==> && r.value.protocolBps == protocolBps && r.value.lpBps == lpBps && !r.value.paused
                          && r.value.volume == r.value.collected == 0)
  {
  }

  // ---------- Refusals ----------

  /** What must be the case when an instruction reports an error. */
  predicate SwapCause(s: Amm, c: Command, e: SwapError) {
    match e
    case AccountMissing => (c.Remove? || c.Harvest?) && c.who !in s.pool.positions
    case NotInitialized => !s.pool.open
    case InvalidAmount =>
      (c.Add? && (c.wantA == 0 || c.wantB == 0)) || (c.Remove? && c.lp == 0) || c.Trading?
    case SlippageExceeded =>
      (c.Add? && c.minLp > 0) || (c.Remove? && (c.minA > 0 || c.minB > 0)) || (c.Trading? && c.minOut > 0)
    case ProgramPaused => c.Trading? && s.cfg.paused
    case ZeroLiquidity =>
      if c.Remove? then s.pool.lpSupply == 0
      else (c.Add? || c.Trading?) && (s.pool.a.reserve == 0 || s.pool.b.reserve == 0)
    case InsufficientLiquidityMinted => c.Add?
    case InsufficientLpTokens => c.Remove? && c.who in s.pool.positions && s.pool.positions[c.who].lp < c.lp
    case NoFeesToHarvest => c.Harvest?
    case InvalidFeeConfig => c.Configure?
    case InsufficientFunds => c.Trading?
    case InvariantViolated => c.Trading?
    case TransferFailed => c.Add? || c.Remove? || c.Trading? || c.Harvest? || c.Gift?
    case Overflow => c.Add? || c.Remove? || c.Trading? || c.Harvest?
  }

  /** No refusal names a cause that is not there. */
  lemma SwapRefusalsAreTrue(s: Amm, c: Command)
    requires Execute(s, c).Err?
    ensures SwapCause(s, c, Execute(s, c).error)
  {
    match c {
      case Add(_, _, _, _, _, _) => AddingRefusalsAreTrue(s, c);
      case Trading(_, _, _, _) => TradingRefusalsAreTrue(s, c);
      case Remove(_, _, _, _, _) => RemovalRefusalsAreTrue(s, c);
      case _ => HarvestRefusalsAreTrue(s, c);
    }
  }

  lemma AddingRefusalsAreTrue(s: Amm, c: Command)
    requires c.Add? && Execute(s, c).Err?
    ensures SwapCause(s, c, Execute(s, c).error)
  {
  }

  lemma ExchangeRefusalsAreTrue(cfg: Config, i: Side, o: Side, lpSupply: u64, x: u64, minOut: u64, funds: nat)
    ensures var r := Exchange(cfg, i, o, lpSupply, x, minOut, funds);
            && (r == Err(ZeroLiquidity) ==> i.reserve == 0 || o.reserve == 0)
            && (r == Err(SlippageExceeded) ==> minOut > 0)
            && (r.Err? ==> r.error in {ZeroLiquidity, SlippageExceeded, InvalidAmount, InsufficientFunds,
                                       TransferFailed, InvariantViolated, Overflow})
  {
  }

  lemma TradingRefusalsAreTrue(s: Amm, c: Command)
    requires c.Trading? && Execute(s, c).Err?
    ensures SwapCause(s, c, Execute(s, c).error)
  {
    var p := s.pool;
    ExchangeRefusalsAreTrue(s.cfg, if c.aToB then p.a else p.b, if c.aToB then p.b else p.a, p.lpSupply, c.x, c.minOut,
                            c.funds);
  }

  lemma RemovalRefusalsAreTrue(s: Amm, c: Command)
    requires c.Remove? && Execute(s, c).Err?
    ensures SwapCause(s, c, Execute(s, c).error)
  {
  }

  lemma HarvestRefusalsAreTrue(s: Amm, c: Command)
    requires !c.Add? && !c.Trading? && !c.Remove? && Execute(s, c).Err?
    ensures SwapCause(s, c, Execute(s, c).error)
  {
  }
}

/** The constant-product bonding curve: the two swap formulas and what they guarantee together. */
module Curve {
  import opened Numbers

  datatype LaunchpadError =
    | InvalidAmount | Overflow | ProgramPaused | CurveNotActive | CurveAlreadyGraduated
    | SlippageExceeded | InsufficientFunds | GraduationThresholdNotMet | NoCreatorFee
    | TokenTransferFailed

  /** The virtual reserves: `base` launched tokens against `quote` MYTH. */
  datatype Reserves = Reserves(base: u64, quote: u64)

  /** A priced swap: the amount paid out and the reserves it leaves. */
  datatype Fill = Fill(out: u64, after: Reserves)

  type Priced = Result<Fill, LaunchpadError>

  function CeilDiv(a: nat, b: nat): nat
    requires b > 0
  {
    if a % b != 0 then a / b + 1 else a / b
  }

  function CalculateBuyOutput(r: Reserves, k: u128, mythIn: u64): Priced {
    if mythIn == 0 then Err(InvalidAmount) else
    var newQuote := r.quote + mythIn;
    var newBase := CeilDiv(k, newQuote);
    :- Need(newBase <= r.base, Overflow);
    :- Need(newQuote <= U64_MAX, Overflow);
    Ok(Fill(r.base - newBase, Reserves(newBase, newQuote)))
  }

  function CalculateSellOutput(r: Reserves, k: u128, tokensIn: u64): Priced {
    if tokensIn == 0 then Err(InvalidAmount) else
    var newBase := r.base + tokensIn;
    var newQuote := k / newBase;
    :- Need(newQuote <= r.quote, Overflow);
    :- Need(newBase <= U64_MAX, Overflow);
    Ok(Fill(r.quote - newQuote, Reserves(newBase, newQuote)))
  }

  // ---------- No drift ----------

  /** The reserves sit within one unit of the hyperbola `base * quote == k`, on either side.
      Sells round the quote down, so `base * quote >= k` is not kept. */
  predicate Near(r: Reserves, k: nat) {
    (r.base - 1) * r.quote < k < r.base * (r.quote + 1)
  }

  lemma CeilDivBounds(a: nat, b: nat)
    requires b > 0
    ensures (CeilDiv(a, b) - 1) * b < a <= CeilDiv(a, b) * b
  {
    DivBounds(a, b);
    assert a == b * (a / b) + a % b;
  }

  lemma CeilDivLeast(a: nat, b: nat, c: nat)
    requires b > 0 && a <= c * b
    ensures CeilDiv(a, b) <= c
  {
    CeilDivBounds(a, b);
    if CeilDiv(a, b) > c {
      MulMono(b, c, CeilDiv(a, b) - 1);
    }
  }

  /** From the near-hyperbola bound alone, neither subtraction in the swap formulas can underflow. */
  lemma SubtractionsNeverUnderflow(r: Reserves, k: u128, amount: nat)
    requires Near(r, k) && amount > 0
    ensures CeilDiv(k, r.quote + amount) <= r.base
    ensures k / (r.base + amount) <= r.quote
  {
    MulMono(r.base, r.quote + 1, r.quote + amount);
    CeilDivLeast(k, r.quote + amount, r.base);
    DivBounds(k, r.base + amount);
    if k / (r.base + amount) > r.quote {
      MulMono(r.base + amount, r.quote + 1, k / (r.base + amount));
      MulMono(r.quote + 1, r.base, r.base + amount);
    }
  }

  /** On reserves near the hyperbola a swap is refused only for a zero amount or a reserve past 64 bits. */
  lemma SwapsSucceedExactlyWhen(r: Reserves, k: u128, amount: u64)
    requires Near(r, k)
    ensures CalculateBuyOutput(r, k, amount).Ok? <==> amount > 0 && r.quote + amount <= U64_MAX
    ensures CalculateSellOutput(r, k, amount).Ok? <==> amount > 0 && r.base + amount <= U64_MAX
  {
    if amount > 0 {
      SubtractionsNeverUnderflow(r, k, amount);
    }
  }

  /** Either swap lands near the hyperbola again: rounding never accumulates over trades. */
  lemma BuyStaysNear(r: Reserves, k: u128, amount: u64)
    requires k > 0 && CalculateBuyOutput(r, k, amount).Ok?
    ensures var after := CalculateBuyOutput(r, k, amount).value.after;
            Near(after, k) && after.base > 0 && after.quote > 0
  {
    var y := r.quote + amount;
    var x := CeilDiv(k, y);
    CeilDivBounds(k, y);
    assert x * (y + 1) == x * y + x;
  }

  lemma SellStaysNear(r: Reserves, k: u128, amount: u64)
    requires k > 0 && CalculateSellOutput(r, k, amount).Ok?
    ensures var after := CalculateSellOutput(r, k, amount).value.after;
            Near(after, k) && after.base > 0
  {
    var x := r.base + amount;
    var y := k / x;
    DivBounds(k, x);
    assert x * (y + 1) == x * y + x;
    assert (x - 1) * y == x * y - y;
    if y == 0 { assert x * y == 0; }
  }

  lemma OpeningReservesAreNear(maxSupply: u64, initialQuote: u64)
    requires maxSupply > 0 && initialQuote > 0
    ensures Near(Reserves(maxSupply, initialQuote), maxSupply * initialQuote)
  {
    assert (maxSupply - 1) * initialQuote == maxSupply * initialQuote - initialQuote;
  }

  // ---------- Path independence ----------

  /** The pieces bought one after the other; the first refusal reverts them all. */
  function BuyAll(r: Reserves, k: u128, pieces: seq<u64>): Priced
    decreases |pieces|
  {
    if pieces == [] then Ok(Fill(0, r)) else
      var first :- CalculateBuyOutput(r, k, pieces[0]);
      var rest :- BuyAll(first.after, k, pieces[1..]);
      :- Need(first.out + rest.out <= U64_MAX, Overflow);
      Ok(Fill(first.out + rest.out, rest.after))
  }

  function SellAll(r: Reserves, k: u128, pieces: seq<u64>): Priced
    decreases |pieces|
  {
    if pieces == [] then Ok(Fill(0, r)) else
      var first :- CalculateSellOutput(r, k, pieces[0]);
      var rest :- SellAll(first.after, k, pieces[1..]);
      :- Need(first.out + rest.out <= U64_MAX, Overflow);
      Ok(Fill(first.out + rest.out, rest.after))
  }

  predicate AllPositive(pieces: seq<u64>) {
    forall i | 0 <= i < |pieces| :: pieces[i] > 0
  }

  /** A purchase whose base does not rise, in one piece. */
  lemma BuyForm(r: Reserves, k: u128, m: u64, x: nat)
    requires m > 0 && r.quote + m > 0 && x == CeilDiv(k, r.quote + m) && x <= r.base
    ensures CalculateBuyOutput(r, k, m)
            == if r.quote + m > U64_MAX then Err(Overflow) else Ok(Fill(r.base - x, Reserves(x, r.quote + m)))
  {
  }

  lemma BuyTwice(r: Reserves, k: u128, a: u64, b: u64, x: nat, x': nat)
    requires a > 0 && b > 0 && a + b <= U64_MAX && x' <= x <= r.base
    requires x == CeilDiv(k, r.quote + a) && x' == CeilDiv(k, r.quote + a + b)
    ensures var first, whole := CalculateBuyOutput(r, k, a), CalculateBuyOutput(r, k, a + b);
            && (first.Err? ==> whole == first)
            && (first.Ok? ==>
                  var second := CalculateBuyOutput(first.value.after, k, b);
                  && (second.Err? ==> whole == second)
                  && (second.Ok? ==> first.value.out + second.value.out <= U64_MAX
                                     && whole == Ok(Fill(first.value.out + second.value.out, second.value.after))))
  {
    BuyForm(r, k, a, x);
    BuyForm(r, k, a + b, x');
    if r.quote + a <= U64_MAX {
      BuyForm(Reserves(x, r.quote + a), k, b, x');
    }
  }

  /** Two purchases in a row are one of their sum. */
  lemma BuyInTwo(r: Reserves, k: u128, a: u64, b: u64)
    requires Near(r, k) && k > 0 && a > 0 && b > 0 && a + b <= U64_MAX
    ensures var first, whole := CalculateBuyOutput(r, k, a), CalculateBuyOutput(r, k, a + b);
            && (first.Err? ==> whole == first)
            && (first.Ok? ==>
                  var second := CalculateBuyOutput(first.value.after, k, b);
                  && Near(first.value.after, k)
                  && (second.Err? ==> whole == second)
                  && (second.Ok? ==> first.value.out + second.value.out <= U64_MAX
                                     && whole == Ok(Fill(first.value.out + second.value.out, second.value.after))))
  {
    SubtractionsNeverUnderflow(r, k, a);
    CeilDivFalls(k, r.quote + a, r.quote + a + b);
    BuyTwice(r, k, a, b, CeilDiv(k, r.quote + a), CeilDiv(k, r.quote + a + b));
    if CalculateBuyOutput(r, k, a).Ok? {
      BuyStaysNear(r, k, a);
    }
  }

  lemma CeilDivFalls(k: nat, b: nat, c: nat)
    requires 0 < b <= c
    ensures 0 <= CeilDiv(k, c) <= CeilDiv(k, b)
  {
    CeilDivBounds(k, b);
    DivNonnegative(k, b);
    DivNonnegative(k, c);
    MulMono(CeilDiv(k, b), b, c);
    CeilDivLeast(k, c, CeilDiv(k, b));
  }

  /** A sale whose quote does not rise, in one piece. */
  lemma SellForm(r: Reserves, k: u128, t: u64, q: nat)
    requires t > 0 && r.base + t > 0 && q == k / (r.base + t) && q <= r.quote
    ensures CalculateSellOutput(r, k, t)
            == if r.base + t > U64_MAX then Err(Overflow) else Ok(Fill(r.quote - q, Reserves(r.base + t, q)))
  {
  }

  lemma SellTwice(r: Reserves, k: u128, a: u64, b: u64, q: nat, q': nat)
    requires a > 0 && b > 0 && a + b <= U64_MAX && q' <= q <= r.quote
    requires q == k / (r.base + a) && q' == k / (r.base + a + b)
    ensures var first, whole := CalculateSellOutput(r, k, a), CalculateSellOutput(r, k, a + b);
            && (first.Err? ==> whole == first)
            && (first.Ok? ==>
                  var second := CalculateSellOutput(first.value.after, k, b);
                  && (second.Err? ==> whole == second)
                  && (second.Ok? ==> first.value.out + second.value.out <= U64_MAX
                                     && whole == Ok(Fill(first.value.out + second.value.out, second.value.after))))
  {
    SellForm(r, k, a, q);
    SellForm(r, k, a + b, q');
    if r.base + a <= U64_MAX {
      SellForm(Reserves(r.base + a, q), k, b, q');
    }
  }

  lemma SellInTwo(r: Reserves, k: u128, a: u64, b: u64)
    requires Near(r, k) && k > 0 && a > 0 && b > 0 && a + b <= U64_MAX
    ensures var first, whole := CalculateSellOutput(r, k, a), CalculateSellOutput(r, k, a + b);
            && (first.Err? ==> whole == first)
            && (first.Ok? ==>
                  var second := CalculateSellOutput(first.value.after, k, b);
                  && Near(first.value.after, k)
                  && (second.Err? ==> whole == second)
                  && (second.Ok? ==> first.value.out + second.value.out <= U64_MAX
                                     && whole == Ok(Fill(first.value.out + second.value.out, second.value.after))))
  {
    SubtractionsNeverUnderflow(r, k, a);
    DivNonnegative(k, r.base + a);
    DivNonnegative(k, r.base + a + b);
    DivMono(k, k, r.base + a + b, r.base + a);
    SellTwice(r, k, a, b, k / (r.base + a), k / (r.base + a + b));
    if CalculateSellOutput(r, k, a).Ok? {
      SellStaysNear(r, k, a);
    }
  }

  lemma SumIsPositive(pieces: seq<u64>)
    requires pieces != [] && AllPositive(pieces)
    ensures Sum(pieces) >= pieces[0] > 0
  {
  }

  /** Splitting a purchase into any pieces gives the same tokens, the same reserves and the same refusals. */
  lemma {:induction false} BuyIsPathIndependent(r: Reserves, k: u128, pieces: seq<u64>)
    requires Near(r, k) && k > 0 && |pieces| > 0 && AllPositive(pieces) && Sum(pieces) <= U64_MAX
    ensures BuyAll(r, k, pieces) == CalculateBuyOutput(r, k, Sum(pieces))
    decreases |pieces|
  {
    var head, tail := pieces[0], pieces[1..];
    if tail != [] {
      SumIsPositive(tail);
      BuyInTwo(r, k, head, Sum(tail));
      var first := CalculateBuyOutput(r, k, head);
      if first.Ok? {
        BuyIsPathIndependent(first.value.after, k, tail);
      }
    }
  }

  lemma {:induction false} SellIsPathIndependent(r: Reserves, k: u128, pieces: seq<u64>)
    requires Near(r, k) && k > 0 && |pieces| > 0 && AllPositive(pieces) && Sum(pieces) <= U64_MAX
    ensures SellAll(r, k, pieces) == CalculateSellOutput(r, k, Sum(pieces))
    decreases |pieces|
  {
    var head, tail := pieces[0], pieces[1..];
    if tail != [] {
      SumIsPositive(tail);
      SellInTwo(r, k, head, Sum(tail));
      var first := CalculateSellOutput(r, k, head);
      if first.Ok? {
        SellIsPathIndependent(first.value.after, k, tail);
      }
    }
  }

  // ---------- Round trip ----------

  /** Buying with `m` and selling every token received pays `m` plus the quote's height above the
      floored hyperbola: never less than `m`, exactly `m` from the floor, and above `m` by at most
      ceil((quote - 1) / base). */
  lemma BuyThenSellBack(r: Reserves, k: u128, m: u64)
    requires Near(r, k) && k > 0 && r.base > 0 && r.quote > 0
    requires CalculateBuyOutput(r, k, m).Ok? && CalculateBuyOutput(r, k, m).value.out > 0
    ensures var bought := CalculateBuyOutput(r, k, m).value;
            var sold := CalculateSellOutput(bought.after, k, bought.out);
            && sold.Ok?
            && sold.value.after == Reserves(r.base, k / r.base)
            && sold.value.out == m + (r.quote - k / r.base)
            && m <= sold.value.out <= m + CeilDiv(r.quote - 1, r.base)
            && (sold.value.out == m <==> r.quote == k / r.base)
  {
    var bought := CalculateBuyOutput(r, k, m).value;
    BuyStaysNear(r, k, m);
    SwapsSucceedExactlyWhen(bought.after, k, bought.out);
    FloorIsCloseBelow(r, k);
  }

  lemma FloorIsCloseBelow(r: Reserves, k: u128)
    requires Near(r, k) && r.base > 0 && r.quote > 0
    ensures 0 <= r.quote - k / r.base <= CeilDiv(r.quote - 1, r.base)
  {
    var q, c := k / r.base, CeilDiv(r.quote - 1, r.base);
    DivBounds(k, r.base);
    if q > r.quote {
      MulMono(r.base, r.quote + 1, q);
    }
    CeilDivBounds(r.quote - 1, r.base);
    // base * (quote - q - 1) < quote - 1 <= base * c
    assert r.base * (r.quote - q - 1) == r.base * r.quote - r.base * (q + 1);
    assert (r.base - 1) * r.quote == r.base * r.quote - r.quote;
    if r.quote - q > c {
      MulMono(r.base, c, r.quote - q - 1);
    }
  }

  /** From the floored hyperbola a round trip pays back exactly what it cost and restores the reserves. */
  lemma RoundTripIsNeutralFromTheFloor(r: Reserves, k: u128, m: u64)
    requires Near(r, k) && k > 0 && r.base > 0 && r.quote > 0 && r.quote == k / r.base
    requires CalculateBuyOutput(r, k, m).Ok? && CalculateBuyOutput(r, k, m).value.out > 0
    ensures var bought := CalculateBuyOutput(r, k, m).value;
            CalculateSellOutput(bought.after, k, bought.out) == Ok(Fill(m, r))
  {
    BuyThenSellBack(r, k, m);
  }

  /** The opening reserves are on the floor, */
  lemma OpeningRoundTripIsNeutral(maxSupply: u64, initialQuote: u64, k: u128, m: u64)
    requires maxSupply > 0 && initialQuote > 0 && k == maxSupply * initialQuote && k > 0
    requires CalculateBuyOutput(Reserves(maxSupply, initialQuote), k, m).Ok?
    requires CalculateBuyOutput(Reserves(maxSupply, initialQuote), k, m).value.out > 0
    ensures var bought := CalculateBuyOutput(Reserves(maxSupply, initialQuote), k, m).value;
            CalculateSellOutput(bought.after, k, bought.out) == Ok(Fill(m, Reserves(maxSupply, initialQuote)))
  {
    OpeningReservesAreNear(maxSupply, initialQuote);
    DivCancel(initialQuote, maxSupply);
    RoundTripIsNeutralFromTheFloor(Reserves(maxSupply, initialQuote), k, m);
  }

  /** and so is whatever a sell leaves. */
  lemma RoundTripAfterASellIsNeutral(r: Reserves, k: u128, tokens: u64, m: u64)
    requires k > 0 && CalculateSellOutput(r, k, tokens).Ok?
    requires var after := CalculateSellOutput(r, k, tokens).value.after;
             after.quote > 0 && CalculateBuyOutput(after, k, m).Ok? && CalculateBuyOutput(after, k, m).value.out > 0
    ensures var after := CalculateSellOutput(r, k, tokens).value.after;
            var bought := CalculateBuyOutput(after, k, m).value;
            CalculateSellOutput(bought.after, k, bought.out) == Ok(Fill(m, after))
  {
    SellStaysNear(r, k, tokens);
    RoundTripIsNeutralFromTheFloor(CalculateSellOutput(r, k, tokens).value.after, k, m);
  }

  /** Off the floor the trader gains: after one buy of 3 on a 10-by-10 curve, a purchase of 4 sells back for 5. */
  lemma RoundTripCanGain()
    ensures var r := CalculateBuyOutput(Reserves(10, 10), 100, 3).value.after;
            && r == Reserves(8, 13)
            && CalculateBuyOutput(r, 100, 4) == Ok(Fill(2, Reserves(6, 17)))
            && CalculateSellOutput(Reserves(6, 17), 100, 2) == Ok(Fill(5, Reserves(8, 12)))
  {
    assert CalculateBuyOutput(Reserves(10, 10), 100, 3) == Ok(Fill(2, Reserves(8, 13)));
  }
}

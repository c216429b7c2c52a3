/**
 * The quote and fee arithmetic: checked u128 chains as the program computes them,
 * and the unbounded-integer twins the test driver uses.
 */
module Quotes {
  import opened Wrappers
  import opened Types
  import opened Rounding

  // ---------- on-chain quotes ----------

  function TokensOutForSolIn(virtualSol: u64, virtualTokens: u64, realSol: u64,
                             realTokens: u64, solIn: u64): Result<u64, Error>
  {
    if solIn == 0 then Failure(ZeroBuyAmount)
    else
      var x :- CheckedAdd(virtualSol, realSol);
      var k :- CheckedMul(x, virtualTokens);
      var newX :- CheckedAdd(x, solIn);
      var newY :- CheckedDiv(k, newX);
      var tokensOut :- CheckedSub(virtualTokens, newY);
      var tokensOut64 :- ToU64(tokensOut);
      if tokensOut64 > realTokens then Failure(InsufficientReserves)
      else Success(tokensOut64)
  }

  function SolInForTokensOut(virtualSol: u64, virtualTokens: u64, realSol: u64,
                             realTokens: u64, tokensOut: u64): Result<u64, Error>
  {
    if tokensOut == 0 then Failure(ZeroBuyAmount)
    else if tokensOut > realTokens then Failure(InsufficientReserves)
    else
      var x :- CheckedAdd(virtualSol, realSol);
      var k :- CheckedMul(x, virtualTokens);
      var newY :- CheckedSub(virtualTokens, tokensOut);
      var roundUp :- CheckedSub(newY, 1);
      var dividend :- CheckedAdd(k, roundUp);
      var newX :- CheckedDiv(dividend, newY);
      var solIn :- CheckedSub(newX, x);
      ToU64(solIn)
  }

  function SolOutForTokensIn(virtualSol: u64, virtualTokens: u64, realSol: u64,
                             tokensIn: u64): Result<u64, Error>
  {
    if tokensIn == 0 then Failure(ZeroSellAmount)
    else
      var x :- CheckedAdd(virtualSol, realSol);
      var k :- CheckedMul(x, virtualTokens);
      var newY :- CheckedAdd(virtualTokens, tokensIn);
      var newX :- CheckedDiv(k, newY);
      var solOut :- CheckedSub(x, newX);
      var solOut64 :- ToU64(solOut);
      Success(if solOut64 <= realSol then solOut64 else realSol)
  }

  /** floor(amount * bps / 10000), the share every fee and split is made of. */
  function Share(amount: nat, bps: nat): nat {
    (amount * bps) / 10_000
  }

  function CheckedShare(amount: u64, bps: u16): Result<u64, Error> {
    var product :- CheckedMul(amount, bps);
    var share :- CheckedDiv(product, 10_000);
    ToU64(share)
  }

  /** (creator, dino, treasury); the treasury takes what the two floors leave. */
  function SplitThreeWay(amount: u64, creatorBps: u16, dinoBps: u16, treasuryBps: u16)
    : Result<(u64, u64, u64), Error>
  {
    var creator :- CheckedShare(amount, creatorBps);
    var dino :- CheckedShare(amount, dinoBps);
    var rest :- CheckedSub(amount, creator);
    var treasury :- CheckedSub(rest, dino);
    Success((creator, dino, treasury))
  }

  /** (dino, treasury). */
  function SplitTwoWay(amount: u64, dinoBps: u16): Result<(u64, u64), Error> {
    var dino :- CheckedShare(amount, dinoBps);
    var treasury :- CheckedSub(amount, dino);
    Success((dino, treasury))
  }

  // ---------- the driver's twins ----------

  /** None where the driver throws "token_amount_out exceeds curve". */
  function QuoteSolIn(vSol: nat, vTok: nat, rSol: nat, dy: nat): Option<int> {
    var x := vSol + rSol;
    var newY := vTok - dy;
    if newY <= 0 then None
    else Some((x * vTok + newY - 1) / newY - x)
  }

  function QuoteTokensOut(vSol: nat, vTok: nat, rSol: nat, solIn: nat): int
    requires vSol + rSol + solIn > 0
  {
    var x := vSol + rSol;
    vTok - (x * vTok) / (x + solIn)
  }

  // ---------- what the quotes mean ----------

  /** Lamports a buy of t tokens costs on the curve (x, y). */
  function BuyCost(x: nat, y: nat, t: nat): (s: nat)
    requires t < y
  {
    BuyProduct(x, y, t);
    BuyX(x, y, t) - x
  }

  /** Lamports a sell of t tokens would pay if the curve held enough. */
  function UncappedPayout(x: nat, y: nat, t: nat): (p: nat)
    requires 0 < y
  {
    SellProduct(x, y, t);
    x - SellX(x, y, t)
  }

  function Min(a: nat, b: nat): nat {
    if a <= b then a else b
  }

  /** Where the exact-out quote succeeds, and what it returns. */
  lemma SolInExact(vs: u64, y: u64, r: u64, rt: u64, t: u64)
    ensures var x := vs + r; var q := SolInForTokensOut(vs, y, r, rt, t);
            q.Success? <==> 0 < t <= rt && t < y && x * y + (y - t - 1) <= U128_MAX && BuyCost(x, y, t) <= U64_MAX
    ensures var x := vs + r; var q := SolInForTokensOut(vs, y, r, rt, t);
            q.Success? ==> t < y && q.value == BuyCost(x, y, t)
  {
    var x := vs + r;
    if 0 < t <= rt && t < y {
      BuyProduct(x, y, t);
    }
  }

  /** The exact-out quote is the least payment that keeps the product. */
  lemma SolInIsLeastPayment(vs: u64, y: u64, r: u64, rt: u64, t: u64, s: nat)
    requires SolInForTokensOut(vs, y, r, rt, t).Success?
    ensures SolInForTokensOut(vs, y, r, rt, t).value <= s <==> (vs + r) * y <= (vs + r + s) * (y - t)
  {
    SolInExact(vs, y, r, rt, t);
    CeilIff((vs + r) * y, y - t, vs + r + s);
  }

  lemma NewYWithinY(x: nat, y: nat, s: nat)
    requires x + s > 0
    ensures (x * y) / (x + s) <= y
  {
    FloorIff(x * y, x + s, y + 1);
    assert (y + 1) * (x + s) == x * y + y * s + x + s;
    assert y * s >= 0;
  }

  /** Where the exact-in quote succeeds, and what it returns. */
  lemma TokensOutExact(vs: u64, y: u64, r: u64, rt: u64, s: u64)
    requires s > 0
    ensures var x := vs + r; var q := TokensOutForSolIn(vs, y, r, rt, s);
            q.Success? <==> x * y <= U128_MAX && y - (x * y) / (x + s) <= rt
    ensures var x := vs + r; var q := TokensOutForSolIn(vs, y, r, rt, s);
            q.Success? ==> q.value == y - (x * y) / (x + s)
  {
    NewYWithinY(vs + r, y, s);
  }

  /** Where the sell quote succeeds, and what it returns. */
  lemma SolOutExact(vs: u64, y: u64, r: u64, t: u64)
    requires y > 0
    ensures var x := vs + r; var q := SolOutForTokensIn(vs, y, r, t);
            q.Success? <==> 0 < t && x * y <= U128_MAX && UncappedPayout(x, y, t) <= U64_MAX
    ensures var x := vs + r; var q := SolOutForTokensIn(vs, y, r, t);
            q.Success? ==> q.value == Min(UncappedPayout(x, y, t), r)
  {
    SellProduct(vs + r, y, t);
  }

  /** The driver computes the program's quotes wherever the program returns one. */
  lemma DriverQuotesAgree(vs: u64, y: u64, r: u64, rt: u64, a: u64)
    ensures SolInForTokensOut(vs, y, r, rt, a).Success? ==>
              QuoteSolIn(vs, y, r, a) == Some(SolInForTokensOut(vs, y, r, rt, a).value)
    ensures TokensOutForSolIn(vs, y, r, rt, a).Success? ==>
              vs + r + a > 0 && QuoteTokensOut(vs, y, r, a) == TokensOutForSolIn(vs, y, r, rt, a).value
  {
    SolInExact(vs, y, r, rt, a);
    if a > 0 {
      TokensOutExact(vs, y, r, rt, a);
    }
  }

  // ---------- adjunction of the two buy quotes ----------

  lemma PaymentKeepsProductIff(x: nat, y: nat, t: nat, s: nat)
    requires t <= y && x + s > 0
    ensures x * y <= (x + s) * (y - t) <==> t <= (y * s) / (x + s)
  {
    FloorIff(y * s, x + s, t);
    assert (x + s) * (y - t) == x * y + y * s - t * (x + s);
  }

  lemma QuoteAdjunction(vs: u64, y: u64, r: u64, rt: u64, t: u64, s: nat)
    requires SolInForTokensOut(vs, y, r, rt, t).Success?
    requires vs + r + s > 0
    ensures SolInForTokensOut(vs, y, r, rt, t).value <= s <==> t <= (y * s) / (vs + r + s)
  {
    SolInExact(vs, y, r, rt, t);
    SolInIsLeastPayment(vs, y, r, rt, t, s);
    PaymentKeepsProductIff(vs + r, y, t, s);
  }

  lemma TokensLeavingIsFloorOrOneMore(x: nat, y: nat, s: nat)
    requires x + s > 0
    ensures y - (x * y) / (x + s) == (y * s) / (x + s) + if (x * y) % (x + s) == 0 then 0 else 1
  {
    var d := x + s;
    var f, m := (x * y) / d, (x * y) % d;
    var v := y - f;
    assert y * s == v * d - m by {
      assert x * y == f * d + m;
      assert v * d == y * d - f * d;
      assert y * d == x * y + y * s;
    }
    if m == 0 {
      FloorUnique(y * s, d, v, 0);
    } else {
      assert (v - 1) * d == v * d - d;
      FloorUnique(y * s, d, v - 1, d - m);
    }
  }

  lemma TokensOutIsBoundOrOneMore(vs: u64, y: u64, r: u64, rt: u64, s: u64)
    requires TokensOutForSolIn(vs, y, r, rt, s).Success?
    ensures vs + r + s > 0
    ensures var x := vs + r;
            TokensOutForSolIn(vs, y, r, rt, s).value
            == (y * s) / (x + s) + if (x * y) % (x + s) == 0 then 0 else 1
  {
    TokensOutExact(vs, y, r, rt, s);
    TokensLeavingIsFloorOrOneMore(vs + r, y, s);
  }

  lemma LessThanPaidLosesProduct(x: nat, y: nat, s: nat)
    requires s > 0 && (x * y) / (x + s) > 0
    ensures (x + s - 1) * ((x * y) / (x + s)) < x * y
  {
    var f := (x * y) / (x + s);
    FloorBounds(x * y, x + s);
    assert (x + s - 1) * f == f * (x + s) - f;
  }

  /** Paying s and then pricing the tokens received never quotes less than s. */
  lemma TokensOutThenSolIn(vs: u64, y: u64, r: u64, rt: u64, s: u64)
    requires TokensOutForSolIn(vs, y, r, rt, s).Success?
    requires SolInForTokensOut(vs, y, r, rt, TokensOutForSolIn(vs, y, r, rt, s).value).Success?
    ensures SolInForTokensOut(vs, y, r, rt, TokensOutForSolIn(vs, y, r, rt, s).value).value >= s
  {
    var x := vs + r;
    var t := TokensOutForSolIn(vs, y, r, rt, s).value;
    TokensOutExact(vs, y, r, rt, s);
    SolInExact(vs, y, r, rt, t);
    SolInIsLeastPayment(vs, y, r, rt, t, s - 1);
    LessThanPaidLosesProduct(x, y, s);
  }

  lemma KeptProductBoundsTokensLeft(x: nat, y: nat, s: nat, left: nat)
    requires x + s > 0 && x * y <= (x + s) * left
    ensures (x * y) / (x + s) <= left
  {
    FloorIff(x * y, x + s, left + 1);
    assert (left + 1) * (x + s) == (x + s) * left + (x + s);
  }

  /** Pricing t tokens and then paying that price never yields fewer than t. */
  lemma SolInThenTokensOut(vs: u64, y: u64, r: u64, rt: u64, t: u64)
    requires SolInForTokensOut(vs, y, r, rt, t).Success?
    requires TokensOutForSolIn(vs, y, r, rt, SolInForTokensOut(vs, y, r, rt, t).value).Success?
    ensures TokensOutForSolIn(vs, y, r, rt, SolInForTokensOut(vs, y, r, rt, t).value).value >= t
  {
    var x := vs + r;
    var s := SolInForTokensOut(vs, y, r, rt, t).value;
    SolInIsLeastPayment(vs, y, r, rt, t, s);
    TokensOutExact(vs, y, r, rt, s);
    KeptProductBoundsTokensLeft(x, y, s, y - t);
  }

  lemma SellXAfterExactIn(x: nat, y: nat, s: nat, t: nat)
    requires x + s > 0 && y >= x + s && t < y && y - t == (x * y) / (x + s)
    ensures SellX(x + s, y - t, t) == if (x * y) % (x + s) == 0 then x else x - 1
    ensures (x + s) * (y - t) <= x * y
  {
    var m := (x * y) % (x + s);
    assert (x + s) * (y - t) == x * y - m;
    if m == 0 {
      FloorUnique((x + s) * (y - t), y, x, 0);
    } else {
      assert (x - 1) * y == x * y - y;
      FloorUnique((x + s) * (y - t), y, x - 1, y - m);
    }
  }

  /**
   * Exact-in round trip: pay s, take the quoted tokens, apply both reserve updates, sell
   * them back. The gross return is s, or s + 1 exactly when the product did not divide
   * evenly and the curve held lamports before.
   */
  lemma ExactInRoundTrip(vs: u64, y: u64, r: u64, rt: u64, s: u64)
    requires TokensOutForSolIn(vs, y, r, rt, s).Success?
    requires y >= vs + r + s && r + s <= U64_MAX
    ensures var x := vs + r; var t := TokensOutForSolIn(vs, y, r, rt, s).value;
            && 0 < t <= y
            && SolOutForTokensIn(vs, y - t, r + s, t)
               == Success(if (x * y) % (x + s) != 0 && r > 0 then s + 1 else s)
  {
    var x := vs + r;
    var t := TokensOutForSolIn(vs, y, r, rt, s).value;
    TokensOutExact(vs, y, r, rt, s);
    SomeTokensLeaveSomeStay(x, y, s);
    if x > 0 {
      SellBackExactIn(vs, y, r, s, t);
    } else {
      SellIntoEmptyCurve(y, s);
    }
  }

  lemma SellBackExactIn(vs: u64, y: u64, r: u64, s: u64, t: u64)
    requires 0 < t < y && vs + r + s <= y && r + s <= U64_MAX && (vs + r) * y <= U128_MAX
    requires vs + r + s > 0 && y - t == ((vs + r) * y) / (vs + r + s)
    ensures SolOutForTokensIn(vs, y - t, r + s, t)
         == Success(if ((vs + r) * y) % (vs + r + s) != 0 && r > 0 then s + 1 else s)
  {
    SellXAfterExactIn(vs + r, y, s, t);
    SolOutExact(vs, y - t, r + s, t);
  }

  /** With nothing virtual and nothing real, all the tokens go for the first payment and come back for it. */
  lemma SellIntoEmptyCurve(t: u64, s: u64)
    requires 0 < t
    ensures SolOutForTokensIn(0, 0, s, t) == Success(s)
  {}

  lemma SomeTokensLeaveSomeStay(x: nat, y: nat, s: nat)
    requires 0 < s && x + s <= y
    ensures 0 <= (x * y) / (x + s) < y
    ensures 0 < x ==> 0 < (x * y) / (x + s)
    ensures x == 0 ==> (x * y) / (x + s) == 0
  {
    FloorIff(x * y, x + s, y);
    assert y * (x + s) == x * y + y * s;
    assert y * s > 0;
    if 0 < x {
      FloorIff(x * y, x + s, 1);
      MulMono(1, x, y);
    }
  }

  // ---------- rounding of the sell ----------

  /**
   * The sell quote rounds up: it is the ceiling of x * t / (y + t), cut at real_sol.
   */
  lemma SellRoundsUp(vs: u64, y: u64, r: u64, t: u64)
    requires y > 0 && SolOutForTokensIn(vs, y, r, t).Success?
    ensures SolOutForTokensIn(vs, y, r, t).value == Min(CeilDiv((vs + r) * t, y + t), r)
  {
    var x := vs + r;
    SolOutExact(vs, y, r, t);
    PayoutIsCeiling(x, y, t);
  }

  lemma PayoutIsCeiling(x: nat, y: nat, t: nat)
    requires 0 < y
    ensures UncappedPayout(x, y, t) == CeilDiv(x * t, y + t)
  {
    var d, f := y + t, SellX(x, y, t);
    SellProduct(x, y, t);
    assert (x - f) * d == x * d - f * d;
    assert x * d == x * y + x * t;
    CeilUnique(x * t, d, x - f);
  }

  /** The payout the documentation states: the exact quotient rounded down. */
  function FloorPayout(x: nat, y: nat, t: nat): nat
    requires 0 < y
  {
    (x * t) / (y + t)
  }

  function UnevenPart(x: nat, y: nat, t: nat): nat
    requires 0 < y
  {
    (x * t) % (y + t)
  }

  lemma CutCeilIsCutFloorIff(a: nat, d: nat, r: nat)
    requires d > 0
    ensures Min(CeilDiv(a, d), r) == Min(a / d, r) <==> a % d == 0 || r <= a / d
  {
    CeilFromFloor(a, d);
  }

  lemma CutPayoutIsCutFloorIff(x: nat, y: nat, t: nat, r: nat)
    requires 0 < y
    ensures Min(CeilDiv(x * t, y + t), r) == Min(FloorPayout(x, y, t), r)
            <==> UnevenPart(x, y, t) == 0 || r <= FloorPayout(x, y, t)
  {
    CutCeilIsCutFloorIff(x * t, y + t, r);
  }

  /**
   * The documented "floor" payout is met exactly when y + t divides x * t, or the curve
   * holds no more than the floor.
   */
  lemma SellPaysFloorIff(vs: u64, y: u64, r: u64, t: u64)
    requires y > 0 && SolOutForTokensIn(vs, y, r, t).Success?
    ensures SolOutForTokensIn(vs, y, r, t).value == Min(FloorPayout(vs + r, y, t), r)
            <==> UnevenPart(vs + r, y, t) == 0 || r <= FloorPayout(vs + r, y, t)
  {
    SellRoundsUp(vs, y, r, t);
    CutPayoutIsCutFloorIff(vs + r, y, t, r);
  }

  /** A buy never lowers the product. */
  lemma BuyNeverLowersProduct(vs: u64, y: u64, r: u64, rt: u64, t: u64)
    requires SolInForTokensOut(vs, y, r, rt, t).Success?
    ensures (vs + r + SolInForTokensOut(vs, y, r, rt, t).value) * (y - t) >= (vs + r) * y
  {
    SolInIsLeastPayment(vs, y, r, rt, t, SolInForTokensOut(vs, y, r, rt, t).value);
  }

  lemma ProductBelowIff(k: nat, d: nat, q: int)
    requires d > 0 && q >= k / d
    ensures q * d < k <==> q == k / d && k % d != 0
  {
    var f, m := k / d, k % d;
    assert k == f * d + m;
    if q > f {
      MulMono(f + 1, q, d);
      assert (f + 1) * d == f * d + d;
    }
  }

  lemma CutPayoutLowersProductIff(x: nat, y: nat, t: nat, r: nat)
    requires 0 < y && r <= x
    ensures (x - Min(UncappedPayout(x, y, t), r)) * (y + t) < x * y
            <==> (x * y) % (y + t) != 0 && UncappedPayout(x, y, t) <= r
  {
    var p := Min(UncappedPayout(x, y, t), r);
    SellProduct(x, y, t);
    ProductBelowIff(x * y, y + t, x - p);
  }

  /** A sell lowers the product exactly when the division is uneven and the cap does not bite. */
  lemma SellLowersProductIff(vs: u64, y: u64, r: u64, t: u64)
    requires y > 0 && SolOutForTokensIn(vs, y, r, t).Success?
    ensures var x := vs + r;
            (x - SolOutForTokensIn(vs, y, r, t).value) * (y + t) < x * y
            <==> (x * y) % (y + t) != 0 && UncappedPayout(x, y, t) <= r
  {
    SolOutExact(vs, y, r, t);
    CutPayoutLowersProductIff(vs + r, y, t, r);
  }

  // ---------- fee shares ----------

  lemma ShareBounds(amount: nat, bps: nat)
    ensures amount * bps - 9_999 <= 10_000 * Share(amount, bps) <= amount * bps
    ensures bps <= 10_000 ==> Share(amount, bps) <= amount
  {
    if bps <= 10_000 {
      MulMono(bps, 10_000, amount);
    }
  }

  lemma CheckedShareExact(amount: u64, bps: u16)
    requires bps <= 10_000
    ensures CheckedShare(amount, bps) == Success(Share(amount, bps))
    ensures Share(amount, bps) <= amount
  {
    ShareBounds(amount, bps);
    MulMono(bps, 10_000, amount);
  }

  lemma RestOfTwoShares(amount: nat, a: nat, b: nat, c: nat)
    requires a + b + c == 10_000
    ensures var rest := amount - Share(amount, a) - Share(amount, b);
            0 <= rest && amount * c <= 10_000 * rest < amount * c + 20_000
    ensures a <= c ==> Share(amount, a) <= amount - Share(amount, a) - Share(amount, b)
    ensures b <= c ==> Share(amount, b) <= amount - Share(amount, a) - Share(amount, b)
  {
    if a <= c { MulMono(a, c, amount); }
    if b <= c { MulMono(b, c, amount); }
    ShareBounds(amount, a);
    ShareBounds(amount, b);
    assert amount * (a + b + c) == amount * a + amount * b + amount * c;
    assert amount * c >= 0;
  }

  /**
   * With splits that sum to 10000 the three shares always exist and sum to the amount;
   * creator and DINO get their floors and the treasury's share exceeds its exact part by
   * less than two lamports.
   */
  lemma SplitThreeWayExact(amount: u64, creatorBps: u16, dinoBps: u16, treasuryBps: u16)
    requires creatorBps + dinoBps + treasuryBps == 10_000
    ensures var q := SplitThreeWay(amount, creatorBps, dinoBps, treasuryBps);
            && q.Success?
            && q.value.0 == Share(amount, creatorBps)
            && q.value.1 == Share(amount, dinoBps)
            && q.value.0 + q.value.1 + q.value.2 == amount
            && amount * treasuryBps <= 10_000 * q.value.2 < amount * treasuryBps + 20_000
  {
    CheckedShareExact(amount, creatorBps);
    CheckedShareExact(amount, dinoBps);
    RestOfTwoShares(amount, creatorBps, dinoBps, treasuryBps);
  }

  /** The rounding dust goes to the treasury: no share of a smaller or equal percentage exceeds its own. */
  lemma TreasuryGetsTheDust(amount: u64, creatorBps: u16, dinoBps: u16, treasuryBps: u16)
    requires creatorBps + dinoBps + treasuryBps == 10_000
    requires creatorBps <= treasuryBps && dinoBps <= treasuryBps
    ensures var q := SplitThreeWay(amount, creatorBps, dinoBps, treasuryBps);
            q.Success? && q.value.0 <= q.value.2 && q.value.1 <= q.value.2
  {
    SplitThreeWayExact(amount, creatorBps, dinoBps, treasuryBps);
    RestOfTwoShares(amount, creatorBps, dinoBps, treasuryBps);
  }

  lemma SplitTwoWayExact(amount: u64, dinoBps: u16)
    requires dinoBps <= 10_000
    ensures var q := SplitTwoWay(amount, dinoBps);
            q.Success? && q.value.0 == Share(amount, dinoBps) && q.value.0 + q.value.1 == amount
  {
    CheckedShareExact(amount, dinoBps);
  }
}

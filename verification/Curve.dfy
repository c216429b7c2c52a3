/**
 * One launch's bonding curve: its stored reserves, the effect of a single trade on them,
 * and what whole sequences of trades can and cannot do to them.
 */
module Curve {
  import opened Wrappers
  import opened Types
  import opened Rounding
  import opened Quotes

  const BASE_UNITS: nat := 1_000_000
  const VIRTUAL_SOL: nat := 30 * 1_000_000_000
  const MAX_REAL_SOL: nat := 5 * 1_000_000_000
  /** Virtual tokens of a fresh curve, in base units. */
  const VIRTUAL_TOKENS: nat := 1_236_363_636 * BASE_UNITS
  /** Tokens a fresh curve has for sale. */
  const ALLOCATION: nat := 800_000_000 * BASE_UNITS
  /** Tokens minted at graduation. */
  const GRADUATION_RESERVE: nat := 200_000_000 * BASE_UNITS
  /** Virtual tokens that can never be bought. */
  const UNSELLABLE: nat := VIRTUAL_TOKENS - ALLOCATION
  /** The product a fresh curve starts with. */
  const FRESH_PRODUCT: nat := VIRTUAL_SOL * VIRTUAL_TOKENS
  /** X of a curve that has reached the beta cap. */
  const CAP_X: nat := VIRTUAL_SOL + MAX_REAL_SOL

  datatype Reserves = Reserves(realSol: u64, realToken: u64, virtualSol: u64, virtualToken: u64, sold: u64)

  const FRESH := Reserves(0, ALLOCATION, VIRTUAL_SOL, VIRTUAL_TOKENS, 0)

  /** The bookkeeping every trading launch keeps. */
  predicate OnCurve(c: Reserves) {
    && c.virtualSol == VIRTUAL_SOL
    && c.virtualToken == c.realToken + UNSELLABLE
    && c.realToken + c.sold == ALLOCATION
    && c.realSol <= MAX_REAL_SOL
  }

  function X(c: Reserves): nat { c.virtualSol + c.realSol }

  function Y(c: Reserves): nat { c.virtualToken }

  function Product(c: Reserves): nat { X(c) * Y(c) }

  datatype Move = BuyTokens(amount: u64) | SellTokens(amount: u64)

  /** On a curve in this state every in-range quote exists. */
  lemma BuyQuoteExists(c: Reserves, t: u64)
    requires OnCurve(c) && 0 < t <= c.realToken
    ensures SolInForTokensOut(c.virtualSol, c.virtualToken, c.realSol, c.realToken, t)
         == Success(BuyCost(X(c), Y(c), t))
    ensures 0 < BuyCost(X(c), Y(c), t) <= 100_000_000_000
  {
    SolInExact(c.virtualSol, c.virtualToken, c.realSol, c.realToken, t);
    ProductFits(c);
    BuyCostsSomething(X(c), Y(c), t);
    CeilIff(Product(c), Y(c) - t, 100_000_000_000);
    MulMono(UNSELLABLE, Y(c) - t, 100_000_000_000);
  }

  lemma CostBounded(c: Reserves, t: u64)
    requires OnCurve(c) && t <= c.realToken
    ensures BuyCost(X(c), Y(c), t) <= 100_000_000_000
  {
    if t == 0 {
      CeilUnique(Product(c), Y(c), X(c));
    } else {
      BuyQuoteExists(c, t);
    }
  }

  lemma ProductFits(c: Reserves)
    requires OnCurve(c)
    ensures Product(c) <= CAP_X * VIRTUAL_TOKENS
  {
    MulMono(X(c), CAP_X, Y(c));
  }

  /** Lamports a buy of t costs. */
  function Cost(c: Reserves, t: u64): (s: u64)
    requires OnCurve(c) && t <= c.realToken
    ensures s <= 100_000_000_000
    ensures 0 < t ==> 0 < s
  {
    CostBounded(c, t);
    if t > 0 then BuyQuoteExists(c, t); BuyCost(X(c), Y(c), t) else BuyCost(X(c), Y(c), t)
  }

  lemma BuyQuoteIsCost(c: Reserves, t: u64)
    requires OnCurve(c) && 0 < t <= c.realToken
    ensures SolInForTokensOut(c.virtualSol, c.virtualToken, c.realSol, c.realToken, t) == Success(Cost(c, t))
    ensures 0 < Cost(c, t) <= 100_000_000_000
  {
    BuyQuoteExists(c, t);
  }

  /** What a sell of t would pay if the curve held enough. */
  function RawPayout(c: Reserves, t: u64): (p: nat)
    requires OnCurve(c)
  {
    UncappedPayout(X(c), Y(c), t)
  }

  /** What a sell of t pays. */
  function Payout(c: Reserves, t: u64): (p: u64)
    requires OnCurve(c)
    ensures p <= c.realSol
  {
    Min(RawPayout(c, t), c.realSol)
  }

  predicate LegalMove(c: Reserves, m: Move)
    requires OnCurve(c)
  {
    match m
    case BuyTokens(t) => 0 < t <= c.realToken && c.realSol + Cost(c, t) <= MAX_REAL_SOL
    case SellTokens(t) => 0 < t <= c.sold
  }

  lemma SellQuoteExists(c: Reserves, t: u64)
    requires OnCurve(c) && 0 < t
    ensures SolOutForTokensIn(c.virtualSol, c.virtualToken, c.realSol, t) == Success(Payout(c, t))
  {
    SolOutExact(c.virtualSol, c.virtualToken, c.realSol, t);
    ProductFits(c);
  }

  /** The reserves after one legal trade. */
  function Play(c: Reserves, m: Move): (d: Reserves)
    requires OnCurve(c) && LegalMove(c, m)
    ensures OnCurve(d)
  {
    match m
    case BuyTokens(t) =>
      Reserves(c.realSol + Cost(c, t), c.realToken - t, c.virtualSol, c.virtualToken - t, c.sold + t)
    case SellTokens(t) =>
      Reserves(c.realSol - Payout(c, t), c.realToken + t, c.virtualSol, c.virtualToken + t, c.sold - t)
  }

  /** The reserves after a whole sequence of trades; None when one of them was not legal. */
  function Replay(c: Reserves, ms: seq<Move>): (d: Option<Reserves>)
    requires OnCurve(c)
    ensures d.Some? ==> OnCurve(d.value)
  {
    if ms == [] then Some(c)
    else
      match Replay(c, ms[..|ms| - 1])
      case None => None
      case Some(b) =>
        var m := ms[|ms| - 1];
        if LegalMove(b, m) then Some(Play(b, m)) else None
  }

  function Buys(ms: seq<Move>): nat {
    if ms == [] then 0 else Buys(ms[..|ms| - 1]) + if ms[|ms| - 1].BuyTokens? then 1 else 0
  }

  function Sells(ms: seq<Move>): nat {
    if ms == [] then 0 else Sells(ms[..|ms| - 1]) + if ms[|ms| - 1].SellTokens? then 1 else 0
  }

  lemma {:induction false} ReplayConcat(c: Reserves, a: seq<Move>, b: seq<Move>)
    requires OnCurve(c) && Replay(c, a).Some?
    ensures Replay(c, a + b) == Replay(Replay(c, a).value, b)
  {
    if b == [] {
      assert a + b == a;
    } else {
      ReplayConcat(c, a, b[..|b| - 1]);
      assert (a + b)[..|a + b| - 1] == a + b[..|b| - 1];
    }
  }

  lemma ReplayOneMore(start: Reserves, ms: seq<Move>, m: Move)
    requires OnCurve(start) && Replay(start, ms).Some? && LegalMove(Replay(start, ms).value, m)
    ensures Replay(start, ms + [m]) == Some(Play(Replay(start, ms).value, m))
  {
    assert (ms + [m])[..|ms + [m]| - 1] == ms;
  }

  /** The trades of an attempted sequence that are legal where they come. */
  function Accepted(c: Reserves, ms: seq<Move>): (accepted: seq<Move>)
    requires OnCurve(c)
    ensures Replay(c, accepted).Some?
    ensures ms == [] ==> accepted == []
  {
    if ms == [] then []
    else
      var earlier, m := Accepted(c, ms[..|ms| - 1]), ms[|ms| - 1];
      assert (earlier + [m])[..|earlier + [m]| - 1] == earlier;
      if LegalMove(Replay(c, earlier).value, m) then earlier + [m] else earlier
  }

  /** The reserves after an attempted sequence, of which the illegal trades are refused. */
  function Attempt(c: Reserves, ms: seq<Move>): (d: Reserves)
    requires OnCurve(c)
    ensures OnCurve(d)
    ensures ms == [] ==> d == c
  {
    Replay(c, Accepted(c, ms)).value
  }

  /** All of an attempted sequence is accepted exactly when it is legal as it stands. */
  lemma {:induction false} AllAcceptedIff(c: Reserves, ms: seq<Move>)
    requires OnCurve(c)
    ensures |Accepted(c, ms)| <= |ms|
    ensures Accepted(c, ms) == ms <==> Replay(c, ms).Some?
    ensures Replay(c, ms).Some? ==> Attempt(c, ms) == Replay(c, ms).value
  {
    if ms != [] {
      var p, m := ms[..|ms| - 1], ms[|ms| - 1];
      AllAcceptedIff(c, p);
      assert ms == p + [m];
      if Accepted(c, ms) == ms && |Accepted(c, p)| < |p| {
        assert false;
      }
    }
  }

  lemma AttemptReplays(start: Reserves, history: seq<Move>, c: Reserves, ms: seq<Move>)
    requires OnCurve(start) && Replay(start, history) == Some(c)
    ensures Replay(start, history + Accepted(c, ms)) == Some(Attempt(c, ms))
  {
    ReplayConcat(start, history, Accepted(c, ms));
  }

  // ---------- one trade ----------

  /** A trade moves the product by less than the virtual tokens it leaves. */
  lemma MoveDrift(c: Reserves, m: Move)
    requires OnCurve(c) && LegalMove(c, m)
    ensures m.BuyTokens? ==> Product(c) <= Product(Play(c, m)) <= Product(c) + Y(Play(c, m)) - 1
    ensures m.SellTokens? ==> Product(c) - Y(Play(c, m)) + 1 <= Product(Play(c, m))
    ensures m.SellTokens? ==>
              Product(Play(c, m)) <= Product(c) || Product(Play(c, m)) == VIRTUAL_SOL * Y(Play(c, m))
  {
    match m
    case BuyTokens(t) =>
      BuyProduct(X(c), Y(c), t);
    case SellTokens(t) =>
      SellProduct(X(c), Y(c), t);
      MulMono(SellX(X(c), Y(c), t), X(Play(c, m)), Y(c) + t);
  }

  /** Buying t and selling t right back restores every reserve field. */
  lemma BuyThenSellRestores(c: Reserves, t: u64)
    requires OnCurve(c) && LegalMove(c, BuyTokens(t))
    ensures var d := Play(c, BuyTokens(t));
            && LegalMove(d, SellTokens(t))
            && Payout(d, t) == Cost(c, t)
            && Play(d, SellTokens(t)) == c
  {
    var d := Play(c, BuyTokens(t));
    BuyProduct(X(c), Y(c), t);
    BoughtBackX(X(c), Y(c), t);
  }

  lemma BoughtBackX(x: nat, y: nat, t: nat)
    requires t < y
    ensures SellX(BuyX(x, y, t), y - t, t) == x
  {
    BuyProduct(x, y, t);
    var k := BuyX(x, y, t) * (y - t);
    FloorUnique(k, y, x, k - x * y);
  }

  // ---------- drift over whole sequences ----------

  lemma ProductOfFreshBound(c: Reserves)
    requires OnCurve(c)
    ensures VIRTUAL_SOL * Y(c) <= FRESH_PRODUCT
  {}

  lemma {:induction false} DriftDown(c: Reserves, ms: seq<Move>)
    requires OnCurve(c) && Replay(c, ms).Some?
    ensures Product(c) - Sells(ms) * (VIRTUAL_TOKENS - 1) <= Product(Replay(c, ms).value)
  {
    if ms != [] {
      var p, m := ms[..|ms| - 1], ms[|ms| - 1];
      DriftDown(c, p);
      MoveDrift(Replay(c, p).value, m);
      assert (Sells(p) + 1) * (VIRTUAL_TOKENS - 1) == Sells(p) * (VIRTUAL_TOKENS - 1) + (VIRTUAL_TOKENS - 1);
    }
  }

  lemma {:induction false} DriftUp(c: Reserves, ms: seq<Move>, top: nat)
    requires OnCurve(c) && Replay(c, ms).Some?
    requires Product(c) <= top && FRESH_PRODUCT <= top
    ensures Product(Replay(c, ms).value) <= top + Buys(ms) * (VIRTUAL_TOKENS - 1)
  {
    if ms != [] {
      var p, m := ms[..|ms| - 1], ms[|ms| - 1];
      var b := Replay(c, p).value;
      DriftUp(c, p, top);
      MoveDrift(b, m);
      ProductOfFreshBound(Play(b, m));
      assert (Buys(p) + 1) * (VIRTUAL_TOKENS - 1) == Buys(p) * (VIRTUAL_TOKENS - 1) + (VIRTUAL_TOKENS - 1);
    }
  }

  /** After b buys and s sells from a fresh curve the product is k0, up to s and b rounding steps. */
  lemma FreshDrift(ms: seq<Move>)
    requires Replay(FRESH, ms).Some?
    ensures FRESH_PRODUCT - Sells(ms) * (VIRTUAL_TOKENS - 1)
         <= Product(Replay(FRESH, ms).value)
         <= FRESH_PRODUCT + Buys(ms) * (VIRTUAL_TOKENS - 1)
  {
    DriftDown(FRESH, ms);
    DriftUp(FRESH, ms, FRESH_PRODUCT);
  }

  // ---------- the payout cap ----------

  /** Lamports the real_sol cap cuts from a sell. */
  function Shortfall(c: Reserves, t: u64): nat
    requires OnCurve(c)
  {
    RawPayout(c, t) - Payout(c, t)
  }

  /** The cap costs a seller at most one lamport per sell that went before. */
  lemma ShortfallBounded(ms: seq<Move>, t: u64)
    requires Replay(FRESH, ms).Some? && t <= Replay(FRESH, ms).value.sold
    ensures Shortfall(Replay(FRESH, ms).value, t) <= Sells(ms)
  {
    var c, s := Replay(FRESH, ms).value, Sells(ms);
    var y := Y(c) + t;
    DriftDown(FRESH, ms);
    assert SellX(X(c), Y(c), t) >= VIRTUAL_SOL - s by {
      FloorIff(Product(c), y, VIRTUAL_SOL - s);
      if VIRTUAL_SOL > s {
        MulMono(y, VIRTUAL_TOKENS, VIRTUAL_SOL - s);
        assert (VIRTUAL_SOL - s) * VIRTUAL_TOKENS == FRESH_PRODUCT - s * VIRTUAL_TOKENS;
      }
    }
  }

  // ---------- splitting orders ----------

  /** n sells from c to d together pay what one sell of the total pays, and at most n - 1 lamports more. */
  predicate PayAboutOneSell(c: Reserves, d: Reserves, n: nat) {
    && OnCurve(c) && c.virtualToken < d.virtualToken
    && var one := Payout(c, d.virtualToken - c.virtualToken);
       one <= c.realSol - d.realSol <= one + n - 1
  }

  /** n buys from c to d together cost what one buy of the total costs, and at most 3(n - 1) lamports more. */
  predicate CostAboutOneBuy(c: Reserves, d: Reserves, n: nat) {
    && OnCurve(c) && d.virtualToken < c.virtualToken <= d.virtualToken + c.realToken
    && var one := Cost(c, c.virtualToken - d.virtualToken);
       one <= d.realSol - c.realSol <= one + 3 * (n - 1)
  }

  /** The buys from c to d together cost exactly what one buy of the total costs. */
  predicate CostExactlyOneBuy(c: Reserves, d: Reserves) {
    && OnCurve(c) && d.virtualToken < c.virtualToken <= d.virtualToken + c.realToken
    && d.realSol - c.realSol == Cost(c, c.virtualToken - d.virtualToken)
  }

  /** Before the last of the buys, the product has not outgrown what one buy from c to d rounds up to. */
  predicate LastPieceWithinRoom(c: Reserves, ms: seq<Move>, d: Reserves)
    requires OnCurve(c) && ms != []
  {
    Replay(c, ms[..|ms| - 1]).Some? && WithinRoom(c, Replay(c, ms[..|ms| - 1]).value, Y(d))
  }

  /** The product at b still fits under the multiple of y that one buy from c rounds up to. */
  predicate WithinRoom(c: Reserves, b: Reserves, y: nat) {
    0 < y && Product(b) <= Product(c) + Room(Product(c), y)
  }

  lemma OneMoreStep(n: nat, a: nat, b: nat)
    requires a <= b
    ensures n * a + b <= (n + 1) * b
  {
    MulMono(a, b, n);
  }

  /** What n sells from c to d can do to the product. */
  predicate SellBounds(c: Reserves, d: Reserves, n: nat) {
    && Y(c) <= Y(d)
    && Product(c) - n * (Y(d) - 1) <= Product(d)
    && (Product(d) <= Product(c) || X(d) == VIRTUAL_SOL)
  }

  lemma OneMoreSell(c: Reserves, b: Reserves, n: nat, t: u64)
    requires OnCurve(c) && OnCurve(b) && LegalMove(b, SellTokens(t)) && SellBounds(c, b, n)
    ensures SellBounds(c, Play(b, SellTokens(t)), n + 1)
    ensures Y(b) < Y(Play(b, SellTokens(t)))
  {
    var d := Play(b, SellTokens(t));
    MoveDrift(b, SellTokens(t));
    SellProduct(X(b), Y(b), t);
    OneMoreStep(n, Y(b) - 1, Y(d) - 1);
  }

  lemma {:induction false} SellsKeepBounds(c: Reserves, ms: seq<Move>, d: Reserves)
    requires OnCurve(c) && Replay(c, ms) == Some(d) && Sells(ms) == |ms|
    ensures SellBounds(c, d, |ms|)
    ensures ms != [] ==> Y(c) < Y(d)
  {
    if ms != [] {
      var p, m := ms[..|ms| - 1], ms[|ms| - 1];
      SellsAndBuys(p);
      var b := Replay(c, p).value;
      SellsKeepBounds(c, p, b);
      OneMoreSell(c, b, |p|, m.amount);
    }
  }

  lemma {:induction false} SellsAndBuys(ms: seq<Move>)
    ensures Sells(ms) + Buys(ms) == |ms|
  {
    if ms != [] {
      SellsAndBuys(ms[..|ms| - 1]);
    }
  }

  /**
   * Selling in n pieces pays, before fees, at least what one sell of the total pays and
   * at most n - 1 lamports more; the payout cap included. Nothing else differs.
   */
  lemma SplitSells(c: Reserves, ms: seq<Move>)
    requires OnCurve(c) && Replay(c, ms).Some? && ms != [] && Sells(ms) == |ms|
    ensures var d := Replay(c, ms).value; var total := d.virtualToken - c.virtualToken;
            && 0 < total && LegalMove(c, SellTokens(total))
            && PayAboutOneSell(c, d, |ms|)
            && d == Play(c, SellTokens(total)).(realSol := d.realSol)
  {
    SellsPay(c, ms, Replay(c, ms).value);
  }

  lemma SellsPay(c: Reserves, ms: seq<Move>, d: Reserves)
    requires OnCurve(c) && Replay(c, ms) == Some(d) && ms != [] && Sells(ms) == |ms|
    ensures PayAboutOneSell(c, d, |ms|)
  {
    SellsKeepBounds(c, ms, d);
    BoundsGivePay(c, d, |ms|);
  }

  lemma BoundsGivePay(c: Reserves, d: Reserves, n: nat)
    requires OnCurve(c) && OnCurve(d) && Y(c) < Y(d) && 0 < n && SellBounds(c, d, n)
    ensures PayAboutOneSell(c, d, n)
  {
    SellProduct(X(c), Y(c), Y(d) - Y(c));
    SplitSellArith(Product(c), Y(d), X(d), n);
  }

  lemma SplitSellArith(k: nat, y: nat, x: nat, n: nat)
    requires 0 < y && 0 < n && k - n * (y - 1) <= x * y
    ensures k / y - (n - 1) <= x
    ensures x * y <= k ==> x <= k / y
  {
    FloorIff(k, y, x);
    FloorIff(k, y, x + n);
    assert (x + n) * y == x * y + n * y;
    assert n * (y - 1) == n * y - n;
  }

  lemma {:induction false} BuysBounds(c: Reserves, ms: seq<Move>)
    requires OnCurve(c) && Replay(c, ms).Some? && ms != [] && Buys(ms) == |ms|
    ensures var d := Replay(c, ms).value;
            && Y(d) < Y(c)
            && Product(c) <= Product(d) <= Product(c) + (|ms| - 1) * (VIRTUAL_TOKENS - 1) + Y(d) - 1
  {
    var p, m := ms[..|ms| - 1], ms[|ms| - 1];
    SellsAndBuys(p);
    SellsAndBuys(ms);
    var b := Replay(c, p).value;
    MoveDrift(b, m);
    if p != [] {
      BuysBounds(c, p);
    }
  }

  /**
   * Buying in n pieces costs, before fees, at least what one buy of the total costs and
   * at most 3 * (n - 1) lamports more. Nothing else differs.
   */
  lemma SplitBuys(c: Reserves, ms: seq<Move>)
    requires OnCurve(c) && Replay(c, ms).Some? && ms != [] && Buys(ms) == |ms|
    ensures var d := Replay(c, ms).value; var total := c.virtualToken - d.virtualToken;
            && 0 < total && LegalMove(c, BuyTokens(total))
            && CostAboutOneBuy(c, d, |ms|)
            && d == Play(c, BuyTokens(total)).(realSol := d.realSol)
  {
    var d := Replay(c, ms).value;
    BuysBounds(c, ms);
    var total := c.virtualToken - d.virtualToken;
    SplitBuyArith(Product(c), Y(d), X(d), |ms|);
    BuyProduct(X(c), Y(c), total);
  }

  lemma SplitBuyArith(k: nat, y: nat, x: nat, n: nat)
    requires UNSELLABLE <= y && 0 < n
    requires k <= x * y <= k + (n - 1) * (VIRTUAL_TOKENS - 1) + y - 1
    ensures CeilDiv(k, y) <= x <= CeilDiv(k, y) + 3 * (n - 1)
  {
    CeilIff(k, y, x);
    var j := 3 * (n - 1) + 1;
    CeilIff(k, y, x - j);
    assert (x - j) * y == x * y - j * y;
    assert j * y == 3 * ((n - 1) * y) + y;
    MulMono(UNSELLABLE, y, n - 1);
  }

  /**
   * Splitting a buy, into however many pieces, leaves its cost unchanged exactly when the
   * product has not outgrown, before the last piece, the multiple of the final virtual
   * tokens that one buy of the total rounds up to.
   */
  lemma SplitBuysCostTheSameIff(c: Reserves, ms: seq<Move>, d: Reserves)
    requires OnCurve(c) && Replay(c, ms) == Some(d) && ms != [] && Buys(ms) == |ms|
    ensures CostExactlyOneBuy(c, d) <==> LastPieceWithinRoom(c, ms, d)
  {
    var p, m := ms[..|ms| - 1], ms[|ms| - 1];
    SellsAndBuys(p);
    SellsAndBuys(ms);
    if p != [] {
      BuysBounds(c, p);
    }
    LastBuyCostsTheRestIff(c, Replay(c, p).value, m.amount);
  }

  lemma LastBuyCostsTheRestIff(c: Reserves, b: Reserves, t: u64)
    requires OnCurve(c) && OnCurve(b) && LegalMove(b, BuyTokens(t))
    requires Y(b) <= Y(c) && Product(c) <= Product(b)
    ensures var d := Play(b, BuyTokens(t));
            CostExactlyOneBuy(c, d) <==> WithinRoom(c, b, Y(d))
  {
    LastPieceIff(Product(c), Product(b), Y(b) - t);
  }

  lemma LastPieceIff(k: nat, before: nat, y: nat)
    requires 0 < y && k <= before
    ensures CeilDiv(before, y) == CeilDiv(k, y) <==> before <= k + Room(k, y)
  {
    CeilFillsRoom(k, y);
    CeilIff(before, y, CeilDiv(k, y));
    CeilIff(k, y, CeilDiv(before, y));
    CeilIff(before, y, CeilDiv(before, y));
  }

  /** For two pieces, on the inputs: the first rounding may not exceed the rounding of the undivided buy. */
  lemma TwoBuysCostTheSameIff(c: Reserves, t: u64, u: u64)
    requires OnCurve(c) && 0 < t && 0 < u && t + u <= c.realToken
    requires LegalMove(c, BuyTokens(t))
    ensures Cost(c, t) + Cost(Play(c, BuyTokens(t)), u) == Cost(c, t + u)
            <==> Room(Product(c), Y(c) - t) <= Room(Product(c), Y(c) - t - u)
  {
    SecondBuyLandsWithFirstIff(X(c), Y(c), t, u);
  }

  lemma SecondBuyLandsWithFirstIff(x: nat, y: nat, t: nat, u: nat)
    requires t + u < y
    ensures BuyX(BuyX(x, y, t), y - t, u) == BuyX(x, y, t + u)
            <==> Room(x * y, y - t) <= Room(x * y, y - t - u)
  {
    CeilFillsRoom(x * y, y - t);
    LastPieceIff(x * y, BuyX(x, y, t) * (y - t), y - t - u);
  }

  /** Two single base units from a fresh curve cost two lamports; bought together they cost one. */
  lemma SplittingCanCostMore()
    ensures Cost(FRESH, 2) == 1
    ensures LegalMove(FRESH, BuyTokens(1)) && Cost(FRESH, 1) + Cost(Play(FRESH, BuyTokens(1)), 1) == 2
  {
    CeilUnique(FRESH_PRODUCT, VIRTUAL_TOKENS - 2, VIRTUAL_SOL + 1);
    CeilUnique(FRESH_PRODUCT, VIRTUAL_TOKENS - 1, VIRTUAL_SOL + 1);
    CeilUnique((VIRTUAL_SOL + 1) * (VIRTUAL_TOKENS - 1), VIRTUAL_TOKENS - 2, VIRTUAL_SOL + 2);
  }

  /** Selling back the first base unit ever bought pays one lamport where the documented floor is none. */
  lemma SellCanPayMoreThanFloor()
    ensures LegalMove(FRESH, BuyTokens(1))
    ensures var c := Play(FRESH, BuyTokens(1)); Payout(c, 1) == 1 && FloorPayout(X(c), Y(c), 1) == 0
  {
    CeilUnique(FRESH_PRODUCT, VIRTUAL_TOKENS - 1, VIRTUAL_SOL + 1);
    BuyThenSellRestores(FRESH, 1);
  }

  // ---------- tokens_sold ----------

  /** Everything ever bought, whatever was sold back since. */
  function Lifetime(ms: seq<Move>): nat {
    if ms == [] then 0
    else Lifetime(ms[..|ms| - 1]) + if ms[|ms| - 1].BuyTokens? then ms[|ms| - 1].amount else 0
  }

  /** tokens_sold is the lifetime total exactly as long as nobody has sold, and less ever after. */
  lemma {:induction false} SoldIsLifetimeIff(ms: seq<Move>)
    requires Replay(FRESH, ms).Some?
    ensures Replay(FRESH, ms).value.sold <= Lifetime(ms)
    ensures Replay(FRESH, ms).value.sold == Lifetime(ms) <==> Sells(ms) == 0
  {
    if ms != [] {
      SoldIsLifetimeIff(ms[..|ms| - 1]);
    }
  }

  // ---------- closed loops ----------

  /**
   * A run of trades that returns tokens_sold to where it was lowers real_sol by less than
   * three lamports per sell it contains, and not at all without a sell.
   */
  lemma ClosedLoop(c: Reserves, ms: seq<Move>)
    requires OnCurve(c) && Replay(c, ms).Some? && Replay(c, ms).value.sold == c.sold
    ensures var d := Replay(c, ms).value; var s := Sells(ms);
            if s == 0 then c.realSol <= d.realSol else c.realSol - d.realSol < 3 * s
  {
    var d, s := Replay(c, ms).value, Sells(ms);
    DriftDown(c, ms);
    LoopArith(X(c), X(d), Y(c), s);
  }

  lemma LoopArith(before: nat, after: nat, y: nat, s: nat)
    requires UNSELLABLE <= y
    requires before * y - s * (VIRTUAL_TOKENS - 1) <= after * y
    ensures if s == 0 then before <= after else before - after < 3 * s
  {
    if s == 0 {
      MulCancel(before, after, y);
    } else {
      MulMono(UNSELLABLE, y, s);
      assert (after + 3 * s) * y == after * y + 3 * (s * y);
      MulCancelStrict(before, after + 3 * s, y);
    }
  }

  /** Buys followed by one sell of everything they bought never lower real_sol. */
  lemma BuysThenOneSell(c: Reserves, ms: seq<Move>, t: u64)
    requires OnCurve(c) && Buys(ms) == |ms|
    requires Replay(c, ms + [SellTokens(t)]).Some? && Replay(c, ms + [SellTokens(t)]).value.sold == c.sold
    ensures c.realSol <= Replay(c, ms + [SellTokens(t)]).value.realSol
  {
    var all := ms + [SellTokens(t)];
    assert all[..|all| - 1] == ms;
    var b := Replay(c, ms).value;
    if ms != [] {
      BuysBounds(c, ms);
    }
    FloorIff(Product(b), Y(b) + t, X(c));
  }

  // ---------- reaching the cap exactly ----------

  /** One more base unit costs at most one more lamport while x stays below y. */
  lemma UnitStep(x: nat, y: nat, t: nat)
    requires t + 1 < y && BuyX(x, y, t) < y - t
    ensures BuyX(x, y, t + 1) <= BuyX(x, y, t) + 1
  {
    var b := BuyX(x, y, t);
    BuyProduct(x, y, t);
    CeilIff(x * y, y - t - 1, b + 1);
    assert (b + 1) * (y - t - 1) == b * (y - t) + (y - t) - b - 1;
  }

  lemma BuyXMonotone(x: nat, y: nat, t: nat, u: nat)
    requires t <= u < y
    ensures BuyX(x, y, t) <= BuyX(x, y, u)
  {
    BuyProduct(x, y, u);
    CeilIff(x * y, y - t, BuyX(x, y, u));
    MulMono(y - u, y - t, BuyX(x, y, u));
  }

  lemma BuyXOfNothing(x: nat, y: nat)
    requires 0 < y
    ensures BuyX(x, y, 0) == x
  {
    CeilUnique(x * y, y, x);
  }

  /** Every lamport level between two purchases is hit by some purchase. */
  lemma {:induction false} NoLevelSkipped(x: nat, y: nat, lo: nat, hi: nat, level: nat) returns (t: nat)
    requires lo < hi < y && level < y - hi
    requires BuyX(x, y, lo) < level <= BuyX(x, y, hi)
    ensures lo < t <= hi && BuyX(x, y, t) == level
    decreases hi - lo
  {
    UnitStep(x, y, lo);
    if BuyX(x, y, lo + 1) == level {
      t := lo + 1;
    } else {
      t := NoLevelSkipped(x, y, lo + 1, hi, level);
    }
  }

  /** A buy of t that lands real_sol exactly on the beta cap. */
  predicate LandsOnCap(c: Reserves, t: u64)
    requires OnCurve(c)
  {
    LegalMove(c, BuyTokens(t)) && Play(c, BuyTokens(t)).realSol == MAX_REAL_SOL
  }

  ghost predicate CapReachable(c: Reserves)
    requires OnCurve(c)
  {
    c.realSol == MAX_REAL_SOL || exists t :: LandsOnCap(c, t)
  }

  /** Exactly when one buy can still bring the curve to the cap. */
  lemma CapReachableIff(c: Reserves)
    requires OnCurve(c)
    ensures CapReachable(c) <==> Product(c) > (CAP_X - 1) * UNSELLABLE
  {
    if c.realSol == MAX_REAL_SOL {
      MulMono(UNSELLABLE, Y(c), CAP_X);
    } else if exists t :: LandsOnCap(c, t) {
      var t :| LandsOnCap(c, t);
      CeilIff(Product(c), Y(c) - t, CAP_X - 1);
      MulMono(UNSELLABLE, Y(c) - t, CAP_X - 1);
    } else if Product(c) > (CAP_X - 1) * UNSELLABLE {
      BuyXOfNothing(X(c), Y(c));
      CeilIff(Product(c), UNSELLABLE, CAP_X - 1);
      assert c.realToken > 0;
      var t := NoLevelSkipped(X(c), Y(c), 0, c.realToken, CAP_X);
      assert LandsOnCap(c, t);
      assert false;
    }
  }

  /** The most sells after which the cap is certain to stay within reach (over 17.6 billion of them). */
  const SELLS_TOLERATED: nat := (FRESH_PRODUCT - (CAP_X - 1) * UNSELLABLE - 1) / (VIRTUAL_TOKENS - 1)

  lemma CapStaysReachable(ms: seq<Move>)
    requires Replay(FRESH, ms).Some? && Sells(ms) <= SELLS_TOLERATED
    ensures CapReachable(Replay(FRESH, ms).value)
    ensures SELLS_TOLERATED >= 17_600_000_000
  {
    DriftDown(FRESH, ms);
    CapReachableIff(Replay(FRESH, ms).value);
    MulMono(Sells(ms), SELLS_TOLERATED, VIRTUAL_TOKENS - 1);
  }

  // ---------- sizing of the virtual reserves ----------

  function Sum(ts: seq<nat>): nat {
    if ts == [] then 0 else Sum(ts[..|ts| - 1]) + ts[|ts| - 1]
  }

  /** x after buying the given amounts in turn, with no cap. */
  function BuyAllX(x: nat, y: nat, ts: seq<nat>): nat
    requires Sum(ts) < y
  {
    if ts == [] then x
    else
      var p, t := ts[..|ts| - 1], ts[|ts| - 1];
      BuyX(BuyAllX(x, y, p), y - Sum(p), t)
  }

  lemma {:induction false} BuyAllKeepsProduct(x: nat, y: nat, ts: seq<nat>)
    requires Sum(ts) < y
    ensures x * y <= BuyAllX(x, y, ts) * (y - Sum(ts))
  {
    if ts != [] {
      var p, t := ts[..|ts| - 1], ts[|ts| - 1];
      BuyAllKeepsProduct(x, y, p);
      BuyProduct(BuyAllX(x, y, p), y - Sum(p), t);
    }
  }

  lemma SizedProduct(vsol: nat, threshold: nat, allocation: nat, vtok: nat)
    requires allocation <= vtok && vtok * threshold <= allocation * (vsol + threshold)
    ensures (vsol + threshold) * (vtok - allocation) <= vsol * vtok
  {
    assert (vsol + threshold) * (vtok - allocation)
        == vsol * vtok + vtok * threshold - allocation * (vsol + threshold);
  }

  /**
   * The sizing rule: with virtual tokens at most floor(A * (vsol + T) / T), any sequence of
   * buys that sells the whole allocation A has collected at least the threshold T.
   */
  lemma SizingReachesThreshold(vsol: nat, threshold: nat, allocation: nat, vtok: nat, ts: seq<nat>)
    requires 0 < threshold
    requires allocation < vtok <= (allocation * (vsol + threshold)) / threshold
    requires Sum(ts) == allocation
    ensures BuyAllX(vsol, vtok, ts) >= vsol + threshold
  {
    var left := vtok - allocation;
    BuyAllKeepsProduct(vsol, vtok, ts);
    FloorIff(allocation * (vsol + threshold), threshold, vtok);
    SizedProduct(vsol, threshold, allocation, vtok);
    MulCancel(vsol + threshold, BuyAllX(vsol, vtok, ts), left);
  }

  /** The program's constants follow that rule for a 55 SOL threshold. */
  lemma DefaultSizing(ts: seq<nat>)
    requires Sum(ts) == ALLOCATION
    ensures 1_236_363_636 == (800_000_000 * (30 + 55)) / 55
    ensures BuyAllX(VIRTUAL_SOL, VIRTUAL_TOKENS, ts) >= VIRTUAL_SOL + 55_000_000_000
  {
    SizingReachesThreshold(VIRTUAL_SOL, 55_000_000_000, ALLOCATION, VIRTUAL_TOKENS, ts);
  }
}

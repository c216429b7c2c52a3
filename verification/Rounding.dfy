/**
 * Integer division with rounding in either direction, and the constant-product
 * curve over plain integers: x lamports against y tokens, k = x * y.
 */
module Rounding {

  function CeilDiv(a: nat, d: nat): nat
    requires d > 0
  {
    (a + d - 1) / d
  }

  lemma MulMono(a: int, b: int, c: int)
    requires a <= b && 0 <= c
    ensures a * c <= b * c
  {}

  lemma MulCancel(a: int, b: int, c: int)
    requires a * c <= b * c && 0 < c
    ensures a <= b
  {}

  lemma MulCancelStrict(a: int, b: int, c: int)
    requires a * c < b * c && 0 < c
    ensures a < b
  {}

  /** Floor division is the greatest multiple below. */
  lemma FloorIff(a: nat, d: nat, q: int)
    requires d > 0
    ensures q <= a / d <==> q * d <= a
  {
    var f := a / d;
    assert f * d <= a < f * d + d;
    if q <= f {
      MulMono(q, f, d);
    } else {
      MulMono(f + 1, q, d);
    }
  }

  /** Ceiling division is the least multiple above. */
  lemma CeilIff(a: nat, d: nat, q: int)
    requires d > 0
    ensures CeilDiv(a, d) <= q <==> a <= q * d
  {
    FloorIff(a + d - 1, d, q + 1);
    assert (q + 1) * d == q * d + d;
  }

  lemma FloorUnique(a: nat, d: nat, q: int, m: int)
    requires d > 0 && 0 <= m < d && a == q * d + m
    ensures a / d == q && a % d == m
  {
    FloorIff(a, d, q);
    FloorIff(a, d, q + 1);
    assert (q + 1) * d == q * d + d;
  }

  lemma CeilUnique(a: nat, d: nat, q: int)
    requires d > 0 && a <= q * d < a + d
    ensures CeilDiv(a, d) == q
  {
    CeilIff(a, d, q);
    CeilIff(a, d, q - 1);
    assert (q - 1) * d == q * d - d;
  }

  lemma CeilFromFloor(a: nat, d: nat)
    requires d > 0
    ensures CeilDiv(a, d) == a / d + if a % d == 0 then 0 else 1
  {
    var f, m := a / d, a % d;
    assert a == f * d + m;
    assert (f + 1) * d == f * d + d;
    CeilUnique(a, d, if m == 0 then f else f + 1);
  }

  /** What k lacks to the next multiple of d. */
  function Room(k: nat, d: nat): nat
    requires d > 0
  {
    if k % d == 0 then 0 else d - k % d
  }

  lemma CeilFillsRoom(k: nat, d: nat)
    requires d > 0
    ensures CeilDiv(k, d) * d == k + Room(k, d)
  {
    CeilFromFloor(k, d);
    var f, m := k / d, k % d;
    assert k == f * d + m;
    assert (f + 1) * d == f * d + d;
  }

  lemma QuotientAtMostDividend(a: nat, d: nat)
    requires d > 0
    ensures a / d <= a
  {
    FloorIff(a, d, a + 1);
    MulMono(1, d, a + 1);
  }

  lemma CeilBounds(a: nat, d: nat)
    requires d > 0
    ensures a <= CeilDiv(a, d) * d <= a + d - 1
  {
    var c := CeilDiv(a, d);
    CeilIff(a, d, c);
    CeilIff(a, d, c - 1);
    assert (c - 1) * d == c * d - d;
  }

  lemma FloorBounds(a: nat, d: nat)
    requires d > 0
    ensures a - d + 1 <= (a / d) * d <= a
  {
    var f := a / d;
    FloorIff(a, d, f);
    FloorIff(a, d, f + 1);
    assert (f + 1) * d == f * d + d;
  }

  /** Lamports in the curve after t tokens leave it: rounded up. */
  function BuyX(x: nat, y: nat, t: nat): nat
    requires t < y
  {
    CeilDiv(x * y, y - t)
  }

  /** Lamports left in the curve after t tokens return to it, before the cap: rounded down. */
  function SellX(x: nat, y: nat, t: nat): nat
    requires 0 < y
  {
    (x * y) / (y + t)
  }

  lemma BuyProduct(x: nat, y: nat, t: nat)
    requires t < y
    ensures x * y <= BuyX(x, y, t) * (y - t) <= x * y + (y - t) - 1
    ensures x <= BuyX(x, y, t)
  {
    CeilBounds(x * y, y - t);
    assert x <= BuyX(x, y, t) by {
      if x > 0 {
        CeilIff(x * y, y - t, x - 1);
        MulMono(y - t, y, x - 1);
        assert (x - 1) * y == x * y - y;
      }
    }
  }

  /** A buy of at least one token costs at least one lamport. */
  lemma BuyCostsSomething(x: nat, y: nat, t: nat)
    requires 0 < t < y && 0 < x
    ensures x < BuyX(x, y, t)
  {
    CeilIff(x * y, y - t, x);
    assert x * (y - t) == x * y - x * t;
    assert x * t >= 1;
  }

  lemma SellProduct(x: nat, y: nat, t: nat)
    requires 0 < y
    ensures x * y - (y + t) + 1 <= SellX(x, y, t) * (y + t) <= x * y
    ensures SellX(x, y, t) <= x
  {
    FloorBounds(x * y, y + t);
    FloorIff(x * y, y + t, x + 1);
    assert (x + 1) * (y + t) == x * y + x * t + y + t;
    assert x * t >= 0;
  }
}

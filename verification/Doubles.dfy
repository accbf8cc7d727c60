/** Rounding to the nearest double-precision number, ties to even, as in section
    4.3.1 of IEEE 754. Only what is not negative is ever rounded here. */
module Doubles {
  function Pow2(e: int): (r: real)
    ensures r > 0.0
    decreases if e < 0 then -e else e
  {
    if e == 0 then 1.0 else if e > 0 then 2.0 * Pow2(e - 1) else Pow2(e + 1) / 2.0
  }

  // The exponents of the last place of a double.
  const LOWEST: int := -1074
  const HIGHEST: int := 971

  // The exponent, from e upwards, of the last of the 53 bits that x is rounded to.
  function LastPlace(x: real, e: int): (r: int)
    requires LOWEST <= e <= HIGHEST
    ensures e <= r <= HIGHEST
    decreases HIGHEST - e
  {
    if e == HIGHEST || x < Pow2(e + 53) then e else LastPlace(x, e + 1)
  }

  function HalfEven(q: real): int {
    var below := q.Floor;
    var part := q - below as real;
    if part < 0.5 || (part == 0.5 && below % 2 == 0) then below else below + 1
  }

  function Multiple(x: real, place: real): real
    requires place > 0.0
  {
    HalfEven(x / place) as real * place
  }

  // What would overflow stays a number, larger than any double.
  function Nearest(x: real): real {
    Multiple(x, Pow2(LastPlace(x, LOWEST)))
  }

  /// Powers

  lemma OneUp(e: int)
    ensures Pow2(e + 1) == 2.0 * Pow2(e)
  {}

  lemma FourUp(e: int)
    ensures Pow2(e + 4) == 16.0 * Pow2(e)
  {
    OneUp(e);
    OneUp(e + 1);
    OneUp(e + 2);
    OneUp(e + 3);
  }

  lemma SixteenUp(e: int)
    ensures Pow2(e + 16) == 65536.0 * Pow2(e)
  {
    FourUp(e);
    FourUp(e + 4);
    FourUp(e + 8);
    FourUp(e + 12);
  }

  lemma {:induction false} Pow2Grows(a: int, b: int)
    requires a <= b
    ensures Pow2(a) <= Pow2(b)
    decreases b - a
  {
    if a < b {
      Pow2Grows(a, b - 1);
    }
  }

  lemma {:induction false} LastPlaceIs(x: real, e: int, from: int)
    requires LOWEST <= from <= e <= HIGHEST && Pow2(e + 52) <= x < Pow2(e + 53)
    ensures LastPlace(x, from) == e
    decreases e - from
  {
    if from < e {
      Pow2Grows(from + 53, e + 52);
      LastPlaceIs(x, e, from + 1);
    }
  }

  lemma {:induction false} LastPlaceAtMost(x: real, e: int, from: int)
    requires LOWEST <= from <= e <= HIGHEST && x < Pow2(e + 53)
    ensures LastPlace(x, from) <= e
    decreases e - from
  {
    if from < e {
      LastPlaceAtMost(x, e, from + 1);
    }
  }

  /// How far rounding goes

  lemma Scaled(r: real, bound: real, place: real)
    requires place > 0.0
    ensures r < bound <==> r * place < bound * place
    ensures r > bound <==> r * place > bound * place
  {
    assert (bound - r) * place == bound * place - r * place;
  }

  // Being within half a place, counted in places and measured.
  lemma WithinHalf(r: real, d: real, place: real)
    requires place > 0.0 && d == r * place
    ensures -0.5 <= r <= 0.5 <==> -0.5 * place <= d <= 0.5 * place
    ensures -0.5 < r < 0.5 <==> -0.5 * place < d < 0.5 * place
  {
    Scaled(r, 0.5, place);
    Scaled(r, -0.5, place);
    assert (r > 0.5 <==> d > 0.5 * place) && (r < -0.5 <==> d < -0.5 * place);
  }

  lemma Distance(x: real, n: int, place: real) returns (r: real)
    requires place > 0.0
    ensures r == n as real - x / place && n as real * place - x == r * place
  {
    var q := x / place;
    assert q * place == x;
    r := n as real - q;
    assert r * place == n as real * place - q * place;
  }

  lemma HalfEvenIsNear(q: real)
    ensures -0.5 <= HalfEven(q) as real - q <= 0.5
  {}

  lemma HalfEvenIs(q: real, k: int)
    requires var r := k as real - q; -0.5 < r < 0.5 || (k % 2 == 0 && -0.5 <= r <= 0.5)
    ensures HalfEven(q) == k
  {
    assert q.Floor == k || q.Floor == k - 1;
  }

  lemma HalfPlace(x: real, place: real)
    requires place > 0.0
    ensures -0.5 * place <= Multiple(x, place) - x <= 0.5 * place
  {
    var n := HalfEven(x / place);
    HalfEvenIsNear(x / place);
    var r := Distance(x, n, place);
    WithinHalf(r, n as real * place - x, place);
  }

  // Below 2^(e+53) a number moves by no more than half of 2^e.
  lemma NearestIsNear(x: real, e: int)
    requires LOWEST <= e <= HIGHEST && x < Pow2(e + 53)
    ensures -0.5 * Pow2(e) <= Nearest(x) - x <= 0.5 * Pow2(e)
  {
    var last := LastPlace(x, LOWEST);
    LastPlaceAtMost(x, e, LOWEST);
    Pow2Grows(last, e);
    HalfPlace(x, Pow2(last));
  }

  // The multiple k is less than half a place away, or even and half a place away.
  predicate Closest(x: real, k: int, place: real) {
    var d := k as real * place - x;
    -0.5 * place < d < 0.5 * place || (k % 2 == 0 && -0.5 * place <= d <= 0.5 * place)
  }

  lemma ClosestMultiple(x: real, k: int, place: real)
    requires place > 0.0 && Closest(x, k, place)
    ensures Multiple(x, place) == k as real * place
  {
    var r := Distance(x, k, place);
    WithinHalf(r, k as real * place - x, place);
    HalfEvenIs(x / place, k);
  }

  // A number goes to the closest multiple of its last place.
  lemma NearestIs(x: real, k: int, e: int, place: real)
    requires LOWEST <= e <= HIGHEST && place == Pow2(e) && Pow2(e + 52) <= x < Pow2(e + 53)
    requires Closest(x, k, place)
    ensures Nearest(x) == k as real * place
  {
    LastPlaceIs(x, e, LOWEST);
    ClosestMultiple(x, k, place);
  }
}

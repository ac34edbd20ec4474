/** Amounts as real numbers, and the two roundings to hundredths that the services use. */
module Money {

  /** Math.round: to the nearest integer, halves upwards. */
  function RoundHalfUp(x: real): int { (x + 0.5).Floor }

  /** Math.round(x * 100) / 100. */
  function Round2(x: real): real { RoundHalfUp(x * 100.0) as real / 100.0 }

  /** Number(x.toFixed(2)): of two equally close candidates the larger, negative numbers mirrored. */
  function ToFixed2(x: real): real { if x < 0.0 then -Round2(-x) else Round2(x) }

  predicate WholeCents(x: real) { (x * 100.0).Floor as real == x * 100.0 }

  function Sum(xs: seq<real>): real {
    if xs == [] then 0.0 else Sum(xs[..|xs| - 1]) + xs[|xs| - 1]
  }

  /** Rounding moves an amount by at most half a hundredth, a half upwards, and leaves whole hundredths alone. */
  lemma RoundingIsClose(x: real)
    ensures WholeCents(Round2(x))
    ensures -0.005 < Round2(x) - x <= 0.005
    ensures WholeCents(x) ==> Round2(x) == x
    ensures x > 0.0 && WholeCents(x) ==> x >= 0.01
    ensures x >= 0.01 ==> Round2(x) >= 0.01
  {
    var n := RoundHalfUp(x * 100.0);
    assert Round2(x) * 100.0 == n as real;
    assert (n as real).Floor == n;
    var k := (x * 100.0).Floor;
    if WholeCents(x) {
      assert (k as real + 0.5).Floor == k;
    }
  }

  lemma WholeCentsAdd(x: real, y: real)
    requires WholeCents(x) && WholeCents(y)
    ensures WholeCents(x + y) && WholeCents(x - y)
  {
    var a, b := (x * 100.0).Floor, (y * 100.0).Floor;
    assert (x + y) * 100.0 == (a + b) as real;
    assert (x - y) * 100.0 == (a - b) as real;
    assert ((a + b) as real).Floor == a + b && ((a - b) as real).Floor == a - b;
  }

  lemma {:induction false} WholeCentsSum(xs: seq<real>)
    requires forall x <- xs :: WholeCents(x)
    ensures WholeCents(Sum(xs))
  {
    if xs == [] {
      assert (0.0 * 100.0).Floor == 0;
    } else {
      WholeCentsSum(xs[..|xs| - 1]);
      WholeCentsAdd(Sum(xs[..|xs| - 1]), xs[|xs| - 1]);
    }
  }

  /** Whole hundredths that differ by less than 0.01 do not differ. */
  lemma NoSmallGap(x: real, y: real)
    requires WholeCents(x) && WholeCents(y) && x < y + 0.01
    ensures x <= y
  {
    WholeCentsAdd(x, y);
    RoundingIsClose(x - y);
  }
}

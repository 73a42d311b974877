/** The source's uniform draw `getRandomNumber(min, max)`, with the platform's random number
    passed in as the parameter `u`, a value in [0, 1). */
module RandomDraw {
  import opened Arith

  /** A value of the platform's uniform random source. */
  predicate IsUnit(u: real)
  {
    0.0 <= u < 1.0
  }

  /** The draw scaled onto the range from `min` to `max`. */
  function RandomNumber(u: real, min: real, max: real): (v: real)
    requires IsUnit(u)
    ensures min < max ==> min <= v < max
    ensures min == max ==> v == min
    ensures max < min ==> max < v <= min
  {
    if min < max then
      MulUnitBelow(u, max - min);
      assert Mul(u, max - min) == u * (max - min);
      u * (max - min) + min
    else if max < min then
      MulUnitBelow(u, min - max);
      assert Mul(u, min - max) == u * (min - max);
      u * (max - min) + min
    else
      u * (max - min) + min
  }

  /** Every value of the half-open range [min, max) is the outcome of exactly one draw. */
  lemma RandomNumberReaches(v: real, min: real, max: real) returns (u: real)
    requires min <= v < max
    ensures IsUnit(u) && RandomNumber(u, min, max) == v
    ensures forall w :: IsUnit(w) && RandomNumber(w, min, max) == v ==> w == u
  {
    var d := max - min;
    u := (v - min) / d;
    assert u * d == v - min;
    QuotientBelowOne(v - min, d);
    forall w | IsUnit(w) && RandomNumber(w, min, max) == v
      ensures w == u
    {
      assert w * d == u * d;
    }
  }
}

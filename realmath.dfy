/**
  Real-number helpers shared by the three programs: the square-root
  abstraction and `std::min` as the C++ library defines it.
 */
module RealMath {

  /** `sqrt` behaves like an exact square root on every non-negative real.
      The model is parameterised by such a function instead of fixing one,
      since real arithmetic in the verifier cannot construct square roots. */
  ghost predicate IsSqrt(sqrt: real -> real) {
    forall x: real :: x >= 0.0 ==> sqrt(x) >= 0.0 && sqrt(x) * sqrt(x) == x
  }

  /** `std::sqrt` as the model uses it: the oracle's answer with its sign
      dropped. For an exact oracle this is the oracle itself (RootExact); for
      any oracle it is non-negative, as `std::sqrt` of a non-negative
      argument is. */
  function Root(sqrt: real -> real, x: real): (r: real)
    ensures r >= 0.0
  {
    if sqrt(x) < 0.0 then -sqrt(x) else sqrt(x)
  }

  /** With an exact oracle, Root is the non-negative square root. */
  lemma RootExact(sqrt: real -> real, x: real)
    requires IsSqrt(sqrt) && x >= 0.0
    ensures Root(sqrt, x) == sqrt(x)
    ensures Root(sqrt, x) * Root(sqrt, x) == x
  {
  }

  /** `std::min(a, b)`: returns `b` only when `b < a`, otherwise `a`. */
  function Min(a: real, b: real): (r: real)
    ensures r <= a && r <= b
    ensures r == a || r == b
  {
    if b < a then b else a
  }

  /** Squaring is strictly increasing on the non-negative reals. */
  lemma SquareLt(a: real, b: real)
    requires 0.0 <= a < b
    ensures a * a < b * b
  {
    assert (b - a) * (b + a) == b * b - a * a;
    PositiveProduct(b - a, b + a);
  }

  lemma PositiveProduct(u: real, v: real)
    requires u > 0.0 && v > 0.0
    ensures u * v > 0.0
  {
  }

  /** The root is the only non-negative real whose square is x. */
  lemma RootUnique(sqrt: real -> real, x: real, s: real)
    requires IsSqrt(sqrt)
    requires x >= 0.0 && s >= 0.0 && s * s == x
    ensures Root(sqrt, x) == s
  {
    RootExact(sqrt, x);
    var t := Root(sqrt, x);
    if t < s {
      SquareLt(t, s);
    } else if s < t {
      SquareLt(s, t);
    }
  }

  /** Comparing a root with a non-negative bound is comparing the radicand
      with the bound's square. */
  lemma RootLeIff(sqrt: real -> real, x: real, bound: real)
    requires IsSqrt(sqrt)
    requires x >= 0.0 && bound >= 0.0
    ensures Root(sqrt, x) <= bound <==> x <= bound * bound
  {
    RootExact(sqrt, x);
    var s := Root(sqrt, x);
    if s < bound {
      SquareLt(s, bound);
    } else if bound < s {
      SquareLt(bound, s);
    }
  }
}

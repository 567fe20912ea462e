/**
 * The 2D vector value type of js/utils/Vector2.js.
 *
 * The source mutates `this` and returns it for chaining; the model returns a
 * fresh value, which is exactly what the static `add`/`subtract`/`multiply`
 * do. `Math.sqrt` cannot be computed over `real`, so every operation that
 * needs a length receives a `sqrt` function obeying `SqrtSpec`.
 */
module Vector2 {

  datatype Vec = Vec(x: real, y: real)

  /**
   * `sqrt` behaves as the non-negative square root on non-negative reals.
   * `sqrt(0) == 0` follows from the rest; it is listed because the solver
   * does not derive facts of the form `s * s == 0` on its own.
   */
  ghost predicate SqrtSpec(sqrt: real -> real) {
    && sqrt(0.0) == 0.0
    && forall a: real :: 0.0 <= a ==> 0.0 <= sqrt(a) && sqrt(a) * sqrt(a) == a
  }

  const Zero: Vec := Vec(0.0, 0.0)

  function Add(a: Vec, b: Vec): (r: Vec)
    ensures r.x - b.x == a.x && r.y - b.y == a.y
  {
    Vec(a.x + b.x, a.y + b.y)
  }

  function Subtract(a: Vec, b: Vec): (r: Vec)
    ensures r.x + b.x == a.x && r.y + b.y == a.y
  {
    Vec(a.x - b.x, a.y - b.y)
  }

  /** Scaling: by 1 it changes nothing and by 0 it gives the zero vector. */
  function Multiply(v: Vec, s: real): (r: Vec)
    ensures s == 0.0 ==> r == Zero
    ensures s == 1.0 ==> r == v
  {
    Vec(v.x * s, v.y * s)
  }

  /** Division that ignores a zero divisor instead of producing infinities. */
  function Divide(v: Vec, s: real): (r: Vec)
    ensures s == 0.0 ==> r == v
    ensures s != 0.0 ==> r.x * s == v.x && r.y * s == v.y
  {
    if s != 0.0 then Vec(v.x / s, v.y / s) else v
  }

  function LengthSquared(v: Vec): (r: real)
    ensures 0.0 <= r
  {
    v.x * v.x + v.y * v.y
  }

  function Length(v: Vec, sqrt: real -> real): (r: real)
    requires SqrtSpec(sqrt)
    ensures 0.0 <= r && r * r == LengthSquared(v)
  {
    sqrt(LengthSquared(v))
  }

  /** The dot product: a vector with itself gives its squared length; the zero vector gives 0. */
  function Dot(a: Vec, b: Vec): (r: real)
    ensures a == b ==> r == LengthSquared(a)
    ensures a == Zero || b == Zero ==> r == 0.0
  {
    a.x * b.x + a.y * b.y
  }

  /** `zero()`: both components become 0. */
  function SetZero(v: Vec): (r: Vec)
    ensures r.x == 0.0 && r.y == 0.0 && LengthSquared(r) == 0.0
  {
    Zero
  }

  /** `equals` compares component-wise with `===`. */
  function Equals(a: Vec, b: Vec): (r: bool)
    ensures r <==> a == b
  {
    a.x == b.x && a.y == b.y
  }

  /**
   * `normalize`: divides by the length only when it is positive, so it never
   * divides by zero; the zero vector comes back as the zero vector.
   */
  function Normalize(v: Vec, sqrt: real -> real): (r: Vec)
    requires SqrtSpec(sqrt)
    ensures v == Zero ==> r == Zero
    ensures Length(v, sqrt) == 0.0 ==> r == v
    ensures Length(v, sqrt) > 0.0 ==> LengthSquared(r) == 1.0
    ensures Length(v, sqrt) > 0.0 ==> Multiply(r, Length(v, sqrt)) == v
  {
    var len := Length(v, sqrt);
    if len > 0.0 then
      UnitAfterDivide(v, len);
      Divide(v, len)
    else v
  }

  lemma UnitAfterDivide(v: Vec, len: real)
    requires 0.0 < len && len * len == LengthSquared(v)
    ensures LengthSquared(Divide(v, len)) == 1.0
  {
    var r := Divide(v, len);
    assert r.x * len == v.x && r.y * len == v.y;
    calc {
      LengthSquared(r) * (len * len);
      (r.x * len) * (r.x * len) + (r.y * len) * (r.y * len);
      v.x * v.x + v.y * v.y;
      len * len;
    }
  }

  /**
   * `limit(m)`: a vector no longer than `m` is returned unchanged; a longer
   * one is rescaled to length exactly `m` in the same direction.
   */
  function Limit(v: Vec, m: real, sqrt: real -> real): (r: Vec)
    requires SqrtSpec(sqrt)
    requires 0.0 <= m
    ensures Length(v, sqrt) <= m ==> r == v
    ensures Length(v, sqrt) > m ==> LengthSquared(r) == m * m
    ensures Length(v, sqrt) > m ==> r.x * Length(v, sqrt) == v.x * m && r.y * Length(v, sqrt) == v.y * m
  {
    var len := Length(v, sqrt);
    if len > m then
      var n := Normalize(v, sqrt);
      ScaleLengthSquared(n, m);
      SameDirection(n, len, m);
      Multiply(n, m)
    else v
  }

  /** Rescaling a vector that scales back to `v` by `len` keeps `v`'s direction. */
  lemma SameDirection(n: Vec, len: real, m: real)
    ensures Multiply(n, m).x * len == Multiply(n, len).x * m
    ensures Multiply(n, m).y * len == Multiply(n, len).y * m
  {
    calc {
      Multiply(n, m).x * len;
      (n.x * m) * len;
      (n.x * len) * m;
    }
    calc {
      Multiply(n, m).y * len;
      (n.y * m) * len;
      (n.y * len) * m;
    }
  }

  lemma ScaleLengthSquared(v: Vec, s: real)
    ensures LengthSquared(Multiply(v, s)) == s * s * LengthSquared(v)
  {
  }

  /** `a.add(b).subtract(b)` gives back `a`. */
  lemma AddSubtractRoundTrip(a: Vec, b: Vec)
    ensures Subtract(Add(a, b), b) == a
  {
  }

  /** Dividing by a non-zero scalar undoes multiplying by it. */
  lemma MultiplyDivide(v: Vec, s: real)
    requires s != 0.0
    ensures Divide(Multiply(v, s), s) == v
  {
    var r := Divide(Multiply(v, s), s);
    assert r.x * s == v.x * s && r.y * s == v.y * s;
  }

  /** `dot` is symmetric. */
  lemma DotSymmetric(a: Vec, b: Vec)
    ensures Dot(a, b) == Dot(b, a)
  {
  }
}

/** Facts about products, quotients and remainders. */
module Arithmetic {

  lemma MulSign(x: int, y: int)
    requires x >= 0 && y >= 0
    ensures x * y >= 0
  {
  }

  lemma MulMonotone(x: int, y: int, z: int)
    requires x <= y && z >= 0
    ensures x * z <= y * z
  {
    MulSign(y - x, z);
    assert (y - x) * z == y * z - x * z;
  }

  lemma DivDef(a: int, d: int)
    requires d > 0
    ensures a == d * (a / d) + a % d && 0 <= a % d < d
  {
  }

  lemma DivisionIsUnique(a: int, d: int, q: int, r: int, q': int, r': int)
    requires d > 0 && a == d * q + r && 0 <= r < d
    requires a == d * q' + r' && 0 <= r' < d
    ensures q == q' && r == r'
  {
    assert (q' - q) * d == d * q' - d * q;
    assert (q - q') * d == d * q - d * q';
    if q < q' {
      MulMonotone(1, q' - q, d);
    }
    if q' < q {
      MulMonotone(1, q - q', d);
    }
  }

  lemma ModUnique(a: int, d: int, q: int, r: int)
    requires d > 0 && a == d * q + r && 0 <= r < d
    ensures a % d == r && a / d == q
  {
    DivDef(a, d);
    DivisionIsUnique(a, d, q, r, a / d, a % d);
  }

  lemma DivExact(a: int, d: int)
    requires d > 0
    ensures (a * d) / d == a
  {
    ModUnique(a * d, d, a, 0);
  }

  /** A quotient lies between its dividend and zero. */
  lemma QuotientBound(a: int, d: int, q: int, r: int)
    requires d > 0 && a == d * q + r && 0 <= r < d
    ensures if a >= 0 then 0 <= q <= a else a <= q < 0
  {
    if a >= 0 {
      if q < 0 {
        MulMonotone(q, -1, d);
      } else {
        MulMonotone(1, d, q);
      }
    } else {
      MulMonotone(1, d, -a);
      assert d * -a == -(a * d);
      assert (a - 1) * d == a * d - d;
      if q >= 0 {
        MulSign(d, q);
      } else if q < a {
        MulMonotone(q, a - 1, d);
      }
    }
  }

  lemma DivBound(a: int, d: int)
    requires d > 0
    ensures if a >= 0 then 0 <= a / d <= a else a <= a / d < 0
  {
    DivDef(a, d);
    QuotientBound(a, d, a / d, a % d);
  }

  lemma DivMonotone(a: int, b: int, d: int)
    requires d > 0 && a <= b
    ensures a / d <= b / d
  {
    DivDef(a, d);
    DivDef(b, d);
    QuotientsOrdered(a, b, d, a / d, a % d, b / d, b % d);
  }

  lemma QuotientsOrdered(a: int, b: int, d: int, q: int, r: int, q': int, r': int)
    requires d > 0 && a <= b
    requires a == d * q + r && 0 <= r < d
    requires b == d * q' + r' && 0 <= r' < d
    ensures q <= q'
  {
    assert (q' + 1) * d == d * q' + d;
    if q > q' {
      MulMonotone(q' + 1, q, d);
    }
  }

  /** Scaling the dividend and the divisor scales the remainder. */
  lemma ModScale(a: nat, w: nat, s: nat)
    requires w > 0 && s > 0
    ensures w * s > 0 && (a * s) % (w * s) == (a % w) * s
  {
    MulMonotone(1, w, s);
    DivDef(a, w);
    var q, r := a / w, a % w;
    ScaledParts(a, w, s, q, r);
    ModUnique(a * s, w * s, q, r * s);
  }

  lemma ScaledParts(a: nat, w: nat, s: nat, q: int, r: int)
    requires w > 0 && s > 0 && a == w * q + r && 0 <= r < w
    ensures a * s == (w * s) * q + r * s && 0 <= r * s < w * s
  {
    calc {
      a * s;
      (w * q + r) * s;
      w * q * s + r * s;
      (w * s) * q + r * s;
    }
    MulSign(r, s);
    MulMonotone(r + 1, w, s);
    assert (r + 1) * s == r * s + s;
  }
}

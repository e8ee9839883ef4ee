/** Facts about multiplying and dividing by a positive number that Z3 needs spelled out. */
module Arithmetic {

  lemma MulMono(a: int, b: int, d: int)
    requires a <= b && d >= 0
    ensures d * a <= d * b
    ensures a * d <= b * d
  {}

  lemma DivUnique(x: int, d: int, q: int)
    requires d > 0 && d * q <= x < d * q + d
    ensures x / d == q
  {
    if x / d < q {
      MulMono(x / d + 1, q, d);
      assert false;
    } else if x / d > q {
      MulMono(q + 1, x / d, d);
      assert false;
    }
  }

  lemma DivStep(x: int, y: int, d: int)
    requires d > 0 && x <= y
    ensures x / d <= y / d
    ensures (y - d) / d == y / d - 1
    ensures y >= 0 ==> y / d >= 0
  {
    DivUnique(y - d, d, y / d - 1);
    if x / d > y / d {
      MulMono(y / d + 1, x / d, d);
      assert false;
    }
  }

  /** The least q with q * d >= x. */
  function CeilDiv(x: int, d: int): (q: int)
    requires d > 0
    ensures d * (q - 1) < x <= d * q
  {
    (x + d - 1) / d
  }

  lemma CeilDivIsLeast(x: int, d: int, q: int)
    requires d > 0
    ensures d * q >= x <==> q >= CeilDiv(x, d)
  {
    var c := CeilDiv(x, d);
    if q >= c {
      MulMono(c, q, d);
    } else {
      MulMono(q, c - 1, d);
    }
  }

  lemma CeilDivAsFloor(x: int, d: int)
    requires d > 0
    ensures CeilDiv(x, d) == (x - 1) / d + 1
  {
    DivStep(x + d - 1, x + d - 1, d);
  }

  /** c calls for each whole d between now and until: time takes none back, and a d that has
      passed takes c off. */
  lemma WindowsShrink(c: nat, d: int, now: int, at: int, until: int)
    requires d > 0 && now <= at <= until
    ensures 0 <= c * ((until - at) / d) <= c * ((until - now) / d)
    ensures now + d <= at ==> c * ((until - at) / d) + c <= c * ((until - now) / d)
  {
    DivStep(0, until - at, d);
    DivStep(until - at, until - now, d);
    MulMono(0, (until - at) / d, c);
    MulMono((until - at) / d, (until - now) / d, c);
    if now + d <= at {
      DivStep(until - at, until - now - d, d);
      DivStep(until - now - d, until - now, d);
      MulMono((until - at) / d + 1, (until - now) / d, c);
    }
  }
}

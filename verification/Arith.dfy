/** Facts about products and quotients that the address arithmetic needs. */
module Arith {

  lemma Distrib(x: int, y: int, s: int)
    ensures (x + y) * s == x * s + y * s
    ensures (x - y) * s == x * s - y * s
  {
  }

  lemma {:induction false} MulSign(x: int, s: int)
    requires s >= 1
    ensures x >= 1 ==> x * s >= s
    ensures x <= 0 ==> x * s <= 0
    ensures x >= 0 ==> x * s >= 0
    decreases if x < 0 then -x else x
  {
    if x > 1 {
      MulSign(x - 1, s);
      Distrib(x - 1, 1, s);
    } else if x < 0 {
      MulSign(x + 1, s);
      Distrib(x, 1, s);
    }
  }

  lemma MulLess(x: int, y: int, s: int)
    requires s >= 1
    ensures x * s < y * s <==> x < y
    ensures x < y ==> x * s + s <= y * s
  {
    Distrib(y, x, s);
    MulSign(y - x, s);
  }

  /** Quotient and remainder are the only way to write a number. */
  lemma DivUnique(a: int, s: int, q: int, r: int)
    requires s >= 1 && 0 <= r < s && a == q * s + r
    ensures a / s == q && a % s == r
  {
    var q', r' := a / s, a % s;
    assert a == q' * s + r';
    MulLess(q, q', s);
    MulLess(q', q, s);
  }

  /** Of two multiples of a less than a apart the first is not the greater one. */
  lemma NextMultiple(r: int, x: int, a: int)
    requires a > 0 && r % a == 0 && x % a == 0 && r < x + a
    ensures r <= x
  {
    var q, p := r / a, x / a;
    assert r == q * a && x == p * a;
    MulLess(p, q, a);
    Distrib(p, 1, a);
    MulLess(p + 1, q, a);
  }

  lemma {:induction false} HasLeast(q: set<int>, x: int)
    requires x in q
    ensures exists z :: z in q && forall y :: y in q ==> z <= y
    decreases q
  {
    if y :| y in q && y < x {
      HasLeast(q - {x}, y);
      var z :| z in q - {x} && forall y :: y in q - {x} ==> z <= y;
      assert y in q - {x};
      forall w | w in q ensures z <= w { assert w == x || w in q - {x}; }
    }
  }
}

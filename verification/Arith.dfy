/** Division facts the models share. */
module Arith {

  /** Quotient and remainder are what they are. */
  lemma DivMod(x: int, c: int, q: int, r: int)
    requires c > 0 && x == c * q + r && 0 <= r < c
    ensures x / c == q && x % c == r
  {
    var q', r' := x / c, x % c;
    assert x == c * q' + r';
    if q > q' { Below(c, q', q); }
    if q < q' { Below(c, q, q'); }
  }

  lemma Below(c: int, q: int, q': int)
    requires c > 0 && q < q'
    ensures c * q + c <= c * q'
  {
    AtLeast(c, q' - q);
    assert c * (q' - q) == c * q' - c * q;
  }

  lemma AtLeast(c: int, k: int)
    requires c > 0 && k > 0
    ensures c * k >= c
  {
    if k > 1 {
      AtLeast(c, k - 1);
      assert c * k == c * (k - 1) + c;
    }
  }
}

/** Small facts about Euclidean division that the solver does not find by
    itself; used by the encodings of the model. */
module Arith {

  lemma MulAtLeast(a: int, k: nat)
    requires a >= 1
    ensures a * k >= k
  {
    assert a * k == (a - 1) * k + k;
    assert (a - 1) * k >= 0;
  }

  /** Division with remainder is unique. */
  lemma DivModUnique(x: int, k: nat, d: int, r: int)
    requires k > 0 && 0 <= r < k && x == d * k + r
    ensures x % k == r && x / k == d
  {
    var d' := x / k;
    var r' := x % k;
    assert x == d' * k + r';
    var e := d - d';
    assert e * k == r' - r by { assert d * k - d' * k == (d - d') * k; }
    assert (-e) * k == -(e * k);
    if e >= 1 { MulAtLeast(e, k); }
    if e <= -1 { MulAtLeast(-e, k); }
  }

  lemma MulMod(q: int, k: nat)
    requires k > 0
    ensures (q * k) % k == 0 && (q * k) / k == q
  {
    DivModUnique(q * k, k, q, 0);
  }
}

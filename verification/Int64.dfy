/** Go's int64 arithmetic, as far as durations need it. */
module Int64 {

  const TWO63: int := 0x8000_0000_0000_0000
  const TWO64: int := 0x1_0000_0000_0000_0000

  /** Two's-complement wrap-around of an int64. */
  function Wrap64(x: int): (r: int)
    ensures -TWO63 <= r < TWO63
    ensures -TWO63 <= x < TWO63 ==> r == x
  {
    (x + TWO63) % TWO64 - TWO63
  }

  lemma AtLeastFactor(a: int, p: int)
    requires a >= 1 && p >= 1
    ensures p <= a * p
  {
  }

  lemma WrapProduct(a: int, p: int)
    requires a >= 1 && p >= 1 && a * p < TWO63
    ensures Wrap64(a * Wrap64(p)) == a * p
  {
    AtLeastFactor(a, p);
    var q := Wrap64(p);
    assert q == p;
    var x := a * q;
    assert x == a * p;
    assert x >= 0;
    assert Wrap64(x) == x;
  }

  function Pow2(n: nat): (r: int)
    ensures r >= 1
  {
    if n == 0 then 1 else 2 * Pow2(n - 1)
  }

  function Min(a: int, b: int): int {
    if a < b then a else b
  }

  lemma {:induction false} Pow2Monotone(a: nat, b: nat)
    requires a <= b
    ensures Pow2(a) <= Pow2(b)
  {
    if a < b {
      Pow2Monotone(a, b - 1);
    }
  }

  lemma Pow2Of20()
    ensures Pow2(20) == 0x10_0000
  {
    assert Pow2(10) == 1024;
    assert Pow2(12) == 4096 && Pow2(14) == 16384 && Pow2(16) == 65536 && Pow2(18) == 262144;
  }
}

/** Division with remainder, and integers of 32 bits. */
module Numbers {

  lemma MulAtLeast(k: int, n: nat)
    requires k >= 1
    ensures k * n >= n
  {
  }

  lemma MulMinus(n: nat, x: int, y: int)
    ensures n * (x - y) == n * x - n * y
    ensures n * (x + 1) == n * x + n
  {
  }

  lemma SameResidue(a: nat, b: nat, n: nat)
    requires n > 0 && a % n == b % n
    ensures b - a == n * (b / n - a / n)
  {
    var x, y := a / n, b / n;
    assert a == n * x + a % n && b == n * y + b % n;
    MulMinus(n, y, x);
  }

  lemma NextResidue(a: nat, b: nat, n: nat)
    requires n > 0 && a % n == b % n
    ensures (a + n) % n == a % n
    ensures a < b ==> a + n <= b
  {
    MulMinus(n, a / n, 0);
    DivModUnique(a + n, n, a / n + 1, a % n);
    if a < b {
      SameResidue(a, b, n);
      var d := b / n - a / n;
      if d < 1 { MulNotPositive(n, d); }
      MulAtLeast(d, n);
    }
  }

  lemma MulNotPositive(n: nat, d: int)
    requires d < 1
    ensures n * d <= 0
  {
  }

  lemma DivModUnique(a: nat, n: nat, k: nat, x: nat)
    requires n > 0 && a == n * k + x && x < n
    ensures a / n == k && a % n == x
  {
    var d := a / n - k;
    assert a == n * (a / n) + a % n;
    MulMinus(n, a / n, k);
    assert n * d == x - a % n;
    if d >= 1 { MulAtLeast(d, n); }
    if d <= -1 { MulOpposite(n, d); MulAtLeast(-d, n); }
  }

  lemma MulOpposite(n: nat, d: int)
    ensures n * -d == -(n * d)
  {
  }

  // ---------------------------------------------------------------- 32 bits

  type int32 = x: int | -0x8000_0000 <= x < 0x8000_0000

  function Wrap32(x: int): int32 {
    (x + 0x8000_0000) % 0x1_0000_0000 - 0x8000_0000
  }

  lemma WrapTwice(a: int, b: int)
    ensures Wrap32(Wrap32(a) + b) == Wrap32(a + b)
  {
  }

  lemma WrapDifference(a: int, b: int)
    ensures Wrap32(Wrap32(a) - Wrap32(b) + 1) == Wrap32(a - b + 1)
  {
  }

  lemma WrapIsExact(n: nat)
    ensures Wrap32(n) == n <==> n < 0x8000_0000
  {
  }
}

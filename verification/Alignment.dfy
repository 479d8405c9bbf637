/** Masking with ~(align - 1), for an align that is a power of two. */
module Alignment {

  predicate PowerOfTwo(n: nat) {
    n == 1 || (n > 0 && n % 2 == 0 && PowerOfTwo(n / 2))
  }

  /** n & ~(align - 1): the greatest multiple of align that is at most n. */
  function AlignDown(n: nat, align: nat): (r: nat)
    requires align > 0
    ensures n - align < r <= n && r % align == 0
  {
    AlignDownMeaning(n, align);
    n - n % align
  }

  lemma AlignDownMeaning(n: nat, align: nat)
    requires align > 0
    ensures var r := n - n % align; n - align < r <= n && r % align == 0
  {
    var q := n / align;
    assert n - n % align == q * align;
    MultipleMod(q, align);
  }

  /** Two different multiples are at least align apart. */
  lemma MultiplesApart(a: nat, b: nat, align: nat)
    requires align > 0 && a % align == 0 && b % align == 0 && a < b
    ensures a + align <= b
  {
    var p, q := a / align, b / align;
    assert a == p * align && b == q * align;
    Product(q - p, align);
    assert b - a == (q - p) * align;
  }

  lemma AlignDownGreatest(n: nat, align: nat, q: nat)
    requires align > 0 && q % align == 0 && q <= n
    ensures q <= AlignDown(n, align)
  {
    if AlignDown(n, align) < q {
      MultiplesApart(AlignDown(n, align), q, align);
    }
  }

  /** (n + align - 1) & ~(align - 1): the least multiple of align that is at
      least n. */
  function RoundUp(n: nat, align: nat): (r: nat)
    requires align > 0
    ensures n <= r < n + align && r % align == 0
  {
    AlignDown(n + align - 1, align)
  }

  /** Quotient and remainder are unique. */
  lemma RemainderUnique(n: nat, q: nat, r: nat, m: nat)
    requires m > 0 && n == q * m + r && r < m
    ensures n % m == r
  {
    var p := n / m;
    assert n == p * m + n % m;
    if q > p {
      Product(q - p, m);
    } else if p > q {
      Product(p - q, m);
    }
  }

  lemma Product(d: nat, m: nat)
    requires d >= 1
    ensures d * m >= m
  {
    assert d * m == (d - 1) * m + m;
    assert (d - 1) * m >= 0;
  }

  lemma MultipleMod(q: nat, m: nat)
    requires m > 0
    ensures q * m % m == 0
  {
    RemainderUnique(q * m, q, 0, m);
  }

  lemma AddMultiple(a: nat, b: nat, m: nat)
    requires m > 0 && b % m == 0
    ensures (a + b) % m == a % m
  {
    var p, q := a / m, b / m;
    assert (p + q) * m == p * m + q * m;
    RemainderUnique(a + b, p + q, a % m, m);
  }
}

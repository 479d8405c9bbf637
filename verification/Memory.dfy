/** Byte-addressed memory. */
module Memory {
  import opened Types

  type Mem = nat -> byte

  function Load(m: Mem, a: nat, n: nat): (bs: Bytes)
    ensures |bs| == n
  {
    seq(n, i requires 0 <= i < n => m(a + i))
  }

  function Store(m: Mem, a: nat, bs: Bytes): Mem {
    (x: nat) => if a <= x < a + |bs| then bs[x - a] else m(x)
  }

  /** The two memories agree on every byte outside [a, a + n). */
  ghost predicate SameOutside(m: Mem, m': Mem, a: nat, n: nat) {
    forall x: nat | x < a || a + n <= x :: m'(x) == m(x)
  }

  predicate Apart(a: nat, n: nat, b: nat, k: nat) {
    a + n <= b || b + k <= a
  }

  lemma LoadStored(m: Mem, a: nat, bs: Bytes)
    ensures Load(Store(m, a, bs), a, |bs|) == bs && SameOutside(m, Store(m, a, bs), a, |bs|)
  {
  }

  lemma LoadApart(m: Mem, m': Mem, a: nat, n: nat, b: nat, k: nat)
    requires SameOutside(m, m', a, n) && Apart(a, n, b, k)
    ensures Load(m', b, k) == Load(m, b, k)
  {
  }

  lemma LoadFront(m: Mem, a: nat, k: nat, n: nat)
    requires k <= n
    ensures Load(m, a, k) == Load(m, a, n)[..k]
  {
  }
}

/** Cyclic index arithmetic shared by the linear probe, the hinted free and the report ring. */
module Probe {

  const UINT32_MAX: nat := 0xffff_ffff

  /** The value of an integer expression stored in a uint32_t. */
  function Low32(x: int): nat {
    x % 0x1_0000_0000
  }

  datatype Option<+T> = None | Some(value: T)

  /** Wrapping early or late makes no difference. */
  lemma Low32Plus(x: int, d: int)
    ensures Low32(Low32(x) + d) == Low32(x + d)
  {
    var q, y := x / 0x1_0000_0000, Low32(x) + d;
    var q' := y / 0x1_0000_0000;
    assert x + d == (q + q') * 0x1_0000_0000 + Low32(y);
  }

  /** The value of an integer expression stored in a uint64_t. */
  function Low64(x: int): nat {
    x % 0x1_0000_0000_0000_0000
  }

  lemma Low64Plus(x: int, d: int)
    ensures Low64(Low64(x) + d) == Low64(x + d)
  {
    var q, y := x / 0x1_0000_0000_0000_0000, Low64(x) + d;
    var q' := y / 0x1_0000_0000_0000_0000;
    assert x + d == (q + q') * 0x1_0000_0000_0000_0000 + Low64(y);
  }

  /** What fits is stored as it is, and the next value wraps to 0. */
  lemma StoredExactly(x: nat)
    ensures x < 0x1_0000_0000 ==> Low32(x) == x
    ensures x < 0x1_0000_0000_0000_0000 ==> Low64(x) == x
    ensures Low32(0x1_0000_0000) == 0 && Low64(0x1_0000_0000_0000_0000) == 0
  {}

  /** The index that a cyclic walk from `h` reaches after `p` steps. */
  function At(h: nat, p: nat, n: nat): (i: nat)
    requires h < n && p < n
    ensures i < n && Dist(h, i, n) == p
  {
    if h + p < n then h + p else h + p - n
  }

  /** The number of steps a cyclic walk from `h` takes to reach `i`. */
  function Dist(h: nat, i: nat, n: nat): (p: nat)
    requires h < n && i < n
    ensures p < n
  {
    if h <= i then i - h else i + n - h
  }

  /** The walk of `n` steps from `h` meets index `i` exactly once, at step `Dist(h, i, n)`. */
  lemma WalkMeetsEachIndexOnce(h: nat, i: nat, p: nat, n: nat)
    requires h < n && i < n && p < n
    ensures At(h, p, n) == i <==> p == Dist(h, i, n)
  {}

  /** The index expression of the source, an addition in uint32_t and a remainder. */
  function Index32(h: nat, p: nat, n: nat): (i: nat)
    requires n > 0
    ensures i < n
  {
    Low32(h + p) % n
  }

  lemma ModWraps(x: nat, n: nat)
    requires 0 < n && x < 2 * n
    ensures x % n == if x < n then x else x - n
  {
    var q := x / n;
    assert x == q * n + x % n;
    if q >= 2 {
      MulAtLeast(q, 2, n);
    }
  }

  lemma MulAtLeast(a: nat, b: nat, n: nat)
    requires a >= b
    ensures a * n >= b * n
  {}

  lemma SameRemainderIff(x: nat, y: nat, n: nat)
    requires n > 0
    ensures x % n == y % n <==> exists k: int :: x - y == k * n
  {
    if x % n == y % n {
      assert x - y == (x / n - y / n) * n;
    }
    if k: int :| x - y == k * n {
      SameRemainder(x, y, k, n);
    }
  }

  lemma SameRemainder(x: nat, y: nat, k: int, n: nat)
    requires n > 0 && x == y + k * n
    ensures x % n == y % n
  {
    var q := y / n + k;
    assert q * n == (y / n) * n + k * n;
    UniqueDivision(x / n, x % n, q, y % n, n);
  }

  lemma UniqueDivision(q: int, r: nat, q': int, r': nat, n: nat)
    requires r < n && r' < n && q * n + r == q' * n + r'
    ensures r == r'
  {
    if q < q' {
      Beyond(q, q', n);
    } else {
      Beyond(q', q, n);
    }
  }

  lemma Beyond(q: int, q': int, n: nat)
    requires q <= q'
    ensures q == q' || q * n + n <= q' * n
  {
    if q < q' {
      MulAtLeast(q' - q, 1, n);
      assert q' * n == q * n + (q' - q) * n;
    }
  }

  lemma Index32Walks(h: nat, p: nat, n: nat)
    requires h < n && p < n && h + p < 0x1_0000_0000
    ensures Index32(h, p, n) == At(h, p, n)
  {
    ModWraps(h + p, n);
  }

  /** The 32-bit index expression is the cyclic walk exactly for capacities up to 2^31. */
  lemma Index32WalksIff(n: nat)
    requires 0 < n < 0x1_0000_0000
    ensures (forall h: nat, p: nat :: h < n && p < n ==> Index32(h, p, n) == At(h, p, n))
       <==> n <= 0x8000_0000
  {
    if n <= 0x8000_0000 {
      forall h: nat, p: nat | h < n && p < n
        ensures Index32(h, p, n) == At(h, p, n)
      {
        Index32Walks(h, p, n);
      }
    } else {
      var k := n - 1;
      assert Low32(k + k) == k + k - 0x1_0000_0000;
      ModWraps(k + k - 0x1_0000_0000, n);
      assert Index32(k, k, n) != At(k, k, n);
    }
  }

  /** The probe index as the source computes it: `(h + p) % n` in uint32_t. */
  method ProbeIndex(h: nat, p: nat, n: nat) returns (i: nat)
    requires h < n && p < n && h + p < 0x1_0000_0000
    ensures i == At(h, p, n)
  {
    i := Low32(h + p) % n;
    Index32Walks(h, p, n);
  }
}

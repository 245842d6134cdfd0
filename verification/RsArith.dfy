/** Ring positions: a counter that only grows, taken modulo the ring size. */
module RsArith {
  import opened RsWire

  lemma ModUnique(q: nat, r: nat, n: nat)
    requires r < n
    ensures (n * q + r) % n == r
  {
    var a := n * q + r;
    assert a == n * (a / n) + a % n;
    var dq := a / n - q;
    assert n * dq == r - a % n by {
      assert n * dq == n * (a / n) - n * q;
    }
  }

  lemma ModStep(a: nat, d: nat, n: nat)
    requires 0 < n && d <= n
    ensures (a + d) % n == if a % n + d < n then a % n + d else a % n + d - n
  {
    var q := a / n;
    assert a == n * q + a % n;
    if a % n + d < n {
      ModUnique(q, a % n + d, n);
    } else {
      assert n * (q + 1) == n * q + n;
      ModUnique(q + 1, a % n + d - n, n);
    }
  }

  /** Two ring positions less than a whole ring apart are different. */
  lemma ModApart(a: nat, b: nat, n: nat)
    requires a < b < a + n
    ensures a % n != b % n
  {
    ModStep(a, b - a, n);
  }

  /** The difference of two wrapped 16-bit counters, read as a signed value, is
      the difference of the counters while that fits 16 signed bits. */
  lemma ShortDiff(a: nat, b: nat)
    requires -0x8000 <= a - b < 0x8000
    ensures ToShort(a % U16 - b % U16) == a - b
  {
    var qa, qb := a / U16, b / U16;
    assert a == U16 * qa + a % U16 && b == U16 * qb + b % U16;
    assert a % U16 - b % U16 == (a - b) - U16 * (qa - qb);
  }

  /** The same for 32-bit counters. */
  lemma Int32Diff(a: nat, b: nat)
    requires -0x8000_0000 <= a - b < 0x8000_0000
    ensures ToInt32(a % U32 - b % U32) == a - b
  {
    var qa, qb := a / U32, b / U32;
    assert a == U32 * qa + a % U32 && b == U32 * qb + b % U32;
    assert a % U32 - b % U32 == (a - b) - U32 * (qa - qb);
  }

  lemma NextWrapped(a: nat, k: nat)
    requires k <= 2
    ensures (a % U32 + k) % U32 == (a + k) % U32
  {
    var q := a / U32;
    assert a + k == U32 * q + (a % U32 + k);
  }

  /** Wrapped counters less than a whole cycle apart are equal only when the counters are. */
  lemma WrappedEqual(a: nat, b: nat)
    requires a <= b < a + U16
    ensures a % U16 == b % U16 <==> a == b
  {
    var qa, qb := a / U16, b / U16;
    assert a == U16 * qa + a % U16 && b == U16 * qb + b % U16;
  }

  lemma AddWrapped16(a: nat, k: nat)
    ensures (a % U16 + k) % U16 == (a + k) % U16
  {
    var q := a / U16;
    assert a + k == U16 * q + (a % U16 + k);
  }

  /** The slot of a control request does not depend on the counter's wrap. */
  lemma SlotWrapped(a: nat)
    ensures a % U32 % 4 == a % 4
  {
    var q := a / U32;
    assert a == 4 * (0x4000_0000 * q) + a % U32;
  }
}

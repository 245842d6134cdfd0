/** Receive rings of any size: which sizes the halving of the ring suits. */
module RsRing {
  import opened RsSocket

  /** Where grant number `n` after the one made at connection time begins. */
  function FreeAt(c: Config, n: nat): nat {
    if n == 0 then c.Half() else NextFree(c, FreeAt(c, n - 1))
  }

  predicate Inside(c: Config, n: nat) { FreeAt(c, n) + c.Half() <= c.rbufSize }

  lemma {:induction false} GrantsStayInside(c: Config, n: nat)
    requires c.rbufSize % 2 == 0 || c.rbufSize <= 3
    ensures Inside(c, n)
  {
    if 0 < n { GrantsStayInside(c, n - 1); }
  }

  /** Every half ring that is ever granted lies inside the ring exactly when the ring size is
      even, or too small for the lost byte to matter. */
  lemma GrantsInsideRingIff(c: Config)
    ensures (forall n: nat :: Inside(c, n)) <==> c.rbufSize % 2 == 0 || c.rbufSize <= 3
  {
    if c.rbufSize % 2 == 0 || c.rbufSize <= 3 {
      forall n: nat ensures Inside(c, n) { GrantsStayInside(c, n); }
    } else {
      OddRingOverruns(c);
    }
  }

  /** In an odd ring of five bytes or more the second grant ends behind the ring. */
  lemma OddRingOverruns(c: Config)
    requires c.rbufSize % 2 == 1 && 5 <= c.rbufSize
    ensures FreeAt(c, 1) == c.rbufSize - 1 && !Inside(c, 1)
  {
    assert FreeAt(c, 0) == c.Half();
  }
}

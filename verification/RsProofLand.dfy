/** Carrying out a request on the peer's memory keeps the invariant. */
module RsProofLand {
  import opened Memory
  import opened RsWire
  import opened RsSocket
  import opened RsProtocol
  import opened RsInvariant
  import opened RsFrame
  import opened RsArith

  predicate CanLand(x: End, y: End) {
    && Positions(x.h) && x.h.landed < |x.h.log|
    && LandInBounds(x.h.log[x.h.landed], Pair(x, y))
  }

  function Carried(x: End): End { x.(h := x.h.(landed := x.h.landed + 1)) }

  function Struck(x: End, y: End): End
    requires CanLand(x, y)
  {
    y.(s := LandOn(x.h.log[x.h.landed], Pair(x, y)))
  }

  /** The next request addresses memory inside the peer's buffers. */
  lemma LandSafe(x: End, y: End)
    requires Flow(x, y) && x.h.landed < |x.h.log|
    ensures CanLand(x, y)
  {
    var i := x.h.landed;
    assert Readable(x, i) && AddrOk(x.h.log, i, y.s.cfg.rbufSize);
    assert GrantWrOk(x, i) && GrantPending(x, i);
  }

  lemma CarriedEnd(x: End)
    requires EndOk(x) && x.h.landed < |x.h.log|
    ensures EndOk(Carried(x))
  {
    var x' := Carried(x);
    LogFrame(x, x');
    QueueFrame(x, x');
    RingFrame(x, x');
    GrantsFrame(x, x');
    CreditsFrame(x, x');
    FinsFrame(x, x');
  }

  lemma StruckFacts(x: End, y: End)
    requires CanLand(x, y) && Shaped(y.s)
    ensures var y', w := Struck(x, y), x.h.log[x.h.landed];
            && Shaped(y'.s) && y'.h == y.h
            && y'.s == y.s.(tx := y.s.tx.(targetSgl := y'.s.tx.targetSgl), rx := y.s.rx.(rbuf := y'.s.rx.rbuf))
            && (!w.payload.ToSgl? ==> y'.s.tx.targetSgl == y.s.tx.targetSgl)
            && (!w.payload.ToRing? ==> y'.s.rx.rbuf == y.s.rx.rbuf)
  {
  }

  lemma StruckEnd(x: End, y: End)
    requires CanLand(x, y) && EndOk(y)
    ensures EndOk(Struck(x, y))
  {
    var y' := Struck(x, y);
    StruckFacts(x, y);
    QueueFrame(y, y');
    RingFrame(y, y');
    GrantsFrame(y, y');
    CreditsFrame(y, y');
    FinsFrame(y, y');
  }

  // ---- Data lands ---------------------------------------------------------------

  /** Bytes written at their ring place join the unread ones and hit none of them. */
  lemma SpliceStream(rbuf: seq<u8>, sent: seq<u8>, r: nat, l: nat, n: nat)
    requires 0 < |rbuf| && r <= l && l + n <= |sent| && l + n <= r + |rbuf|
    requires l % |rbuf| + n <= |rbuf|
    requires forall k :: r <= k < l ==> rbuf[k % |rbuf|] == sent[k]
    ensures var rbuf' := Splice(rbuf, l % |rbuf|, sent[l..l + n]);
            forall k :: r <= k < l + n ==> rbuf'[k % |rbuf|] == sent[k]
    ensures forall k :: r <= k < l ==> !(l % |rbuf| <= k % |rbuf| < l % |rbuf| + n)
  {
    var size := |rbuf|;
    forall k | r <= k < l ensures !(l % size <= k % size < l % size + n) {
      if l % size <= k % size < l % size + n {
        var d := k % size - l % size;
        ModStep(l, d, size);
        ModApart(k, l + d, size);
      }
    }
    forall k | l <= k < l + n ensures k % size == l % size + (k - l) {
      ModStep(l, k - l, size);
    }
  }

  /** The bytes of the next write, at their place in the peer's ring. */
  lemma DataLanding(x: End, y: End)
    requires SendRingOk(x) && CanLand(x, y) && Shaped(y.s) && 0 < y.s.cfg.rbufSize && FlowAddr(x, y)
    requires x.h.log[x.h.landed].payload.ToRing?
    ensures var l, n, size := Upto(x.h.log, x.h.landed).bytes, Bytes(x.h.log[x.h.landed]), y.s.cfg.rbufSize;
            && l + n <= |x.h.sent| && l % size + n <= size
            && Struck(x, y).s.rx.rbuf == Splice(y.s.rx.rbuf, l % size, x.h.sent[l..l + n])
  {
    assert Readable(x, x.h.landed) && AddrOk(x.h.log, x.h.landed, y.s.cfg.rbufSize);
  }

  lemma StreamGrows(x: End, y: End, x': End, y': End, n: nat)
    requires Positions(x.h) && Positions(x'.h) && Shaped(y.s) && Shaped(y'.s) && 0 < y.s.cfg.rbufSize
    requires FlowRead(x, y) && |x.h.sent| <= |y.h.read| + y.s.cfg.rbufSize
    requires x'.h == x.h.(landed := x'.h.landed)
    requires y'.h == y.h && y'.s == y.s.(rx := y.s.rx.(rbuf := y'.s.rx.rbuf))
    requires var l, size := Upto(x.h.log, x.h.landed).bytes, y.s.cfg.rbufSize;
             && Upto(x'.h.log, x'.h.landed).bytes == l + n
             && l + n <= |x.h.sent| && l % size + n <= size
             && y'.s.rx.rbuf == Splice(y.s.rx.rbuf, l % size, x.h.sent[l..l + n])
    ensures FlowRead(x', y')
  {
    SpliceStream(y.s.rx.rbuf, x.h.sent, |y.h.read|, Upto(x.h.log, x.h.landed).bytes, n);
  }

  lemma LandDataFlow(x: End, y: End)
    requires SendRingOk(x) && CanLand(x, y) && x.h.log[x.h.landed].payload.ToRing?
    requires Shaped(y.s) && 0 < y.s.cfg.rbufSize && |x.h.sent| <= |y.h.read| + y.s.cfg.rbufSize
    requires FlowAddr(x, y) && FlowRead(x, y)
    ensures Shaped(Struck(x, y).s) && Positions(Carried(x).h) && FlowRead(Carried(x), Struck(x, y))
  {
    StruckFacts(x, y);
    DataLanding(x, y);
    StreamGrows(x, y, Carried(x), Struck(x, y), Bytes(x.h.log[x.h.landed]));
  }

  lemma LandReadFlow(x: End, y: End)
    requires SendRingOk(x) && GrantsOk(y) && 0 < y.s.cfg.rbufSize && CanLand(x, y)
    requires FlowTarget(x, y) && FlowAddr(x, y) && FlowRead(x, y)
    ensures Shaped(Struck(x, y).s) && Positions(Carried(x).h) && FlowRead(Carried(x), Struck(x, y))
  {
    if x.h.log[x.h.landed].payload.ToRing? {
      WithinRing(x, y);
      LandDataFlow(x, y);
    } else {
      StruckFacts(x, y);
      ReadFrame(x, y, Carried(x), Struck(x, y));
    }
  }

  lemma StruckSlots(x: End, y: End)
    requires CanLand(x, y) && Shaped(y.s) && SlotsOk(y.s)
    ensures SlotsOk(Struck(x, y).s)
  {
  }

  lemma LandRestOut(x: End, y: End)
    requires CanLand(x, y) && EndOk(x) && EndOk(y) && EndOk(Carried(x)) && EndOk(Struck(x, y))
    requires FlowCredit(x, y) && FlowTarget(x, y) && FlowAddr(x, y) && FlowFin(x, y)
    ensures var x', y' := Carried(x), Struck(x, y);
            FlowCredit(x', y') && FlowTarget(x', y') && FlowAddr(x', y') && FlowFin(x', y')
  {
    var x', y' := Carried(x), Struck(x, y);
    StruckFacts(x, y);
    CreditFrame(x, y, x', y');
    TargetFrame(x, y, x', y');
    AddrFrame(x, y, x', y');
    FinFrame(x, y, x', y');
  }

  lemma LandOut(x: End, y: End)
    requires CanLand(x, y) && Flow(x, y) && EndOk(Carried(x)) && EndOk(Struck(x, y))
    ensures Flow(Carried(x), Struck(x, y))
  {
    LandReadFlow(x, y);
    StruckSlots(x, y);
    LandRestOut(x, y);
  }

  // ---- A grant lands --------------------------------------------------------------

  /** `x` grants ring space to `y`. The entry the next grant falls on is used up. */
  lemma GrantOnEmpty(x: End, y: End)
    requires GrantsOk(x) && x.s.cfg.Good() && Shaped(y.s) && FlowTarget(y, x) && |x.h.read| <= |y.h.sent|
    requires x.h.landed < |x.h.log| && x.h.log[x.h.landed].payload.ToSgl?
    ensures var g := 1 + Upto(x.h.log, x.h.landed).grants;
            && x.h.log[x.h.landed].payload.slot == g % 2
            && y.s.tx.targetSgl[g % 2].length == 0
            && y.s.tx.targetSgl[1 - y.s.tx.targetSge].length == 0
  {
    var i := x.h.landed;
    var g, half := 1 + Upto(x.h.log, i).grants, x.s.cfg.Half();
    assert GrantWrOk(x, i);
    UptoGrows(x.h.log, i + 1, |x.h.log|);
    MulGrows(half, g + 1, 1 + All(x.h.log).grants);
    assert half * (g + 1) == half * g + half;
    assert x.s.cfg.rbufSize == 2 * half;
  }

  /** The entry that lands is the half of the ring whose turn it is. */
  lemma GrantLanding(x: End)
    requires GrantsOk(x) && x.h.landed < |x.h.log| && x.h.log[x.h.landed].payload.ToSgl?
    ensures var g := x.h.log[x.h.landed].payload.grant;
            && (g.GrantCtrlBuf? ==> g.slot < |x.s.ctl.buf|)
            && GrantValue(x.s.ctl, g) == GrantSge(x.s.cfg, 1 + Upto(x.h.log, x.h.landed).grants)
  {
    assert GrantWrOk(x, x.h.landed) && GrantPending(x, x.h.landed);
  }

  /** A grant refills a used-up list, or fills the entry after the current one. */
  lemma TargetRefill(sgl: seq<Sge>, sge: nat, sent: nat, g: nat, c: Config)
    requires |sgl| == 2 && sge < 2 && c.Good() && TargetAt(sgl, sge, sent, g, c)
    requires sgl[1 - sge].length == 0
    ensures TargetAt(sgl[g % 2 := GrantSge(c, g)], sge, sent, 1 + g, c)
  {
    assert c.Half() * (1 + g) == c.Half() * g + c.Half();
    assert GrantSge(c, g).addr == Base(c.Half(), g % 2);
  }

  lemma LandTargetFlow(x: End, y: End)
    requires GrantsOk(x) && x.s.cfg.Good() && Shaped(y.s) && CanLand(x, y)
    requires FlowTarget(y, x) && |x.h.read| <= |y.h.sent|
    ensures Shaped(Struck(x, y).s) && Positions(Carried(x).h) && FlowTarget(Struck(x, y), Carried(x))
  {
    var x', y', i := Carried(x), Struck(x, y), x.h.landed;
    StruckFacts(x, y);
    if x.h.log[i].payload.ToSgl? {
      GrantOnEmpty(x, y);
      GrantLanding(x);
      TargetRefill(y.s.tx.targetSgl, y.s.tx.targetSge, |y.h.sent|, 1 + Upto(x.h.log, i).grants, x.s.cfg);
    } else {
      TargetFrame(y, x, y', x');
    }
  }

  lemma LandRestIn(x: End, y: End)
    requires CanLand(x, y) && EndOk(x) && EndOk(y) && EndOk(Carried(x)) && EndOk(Struck(x, y))
    requires FlowCredit(y, x) && FlowAddr(y, x) && FlowRead(y, x) && FlowFin(y, x)
    ensures var x', y' := Carried(x), Struck(x, y);
            FlowCredit(y', x') && FlowAddr(y', x') && FlowRead(y', x') && FlowFin(y', x')
  {
    var x', y' := Carried(x), Struck(x, y);
    StruckFacts(x, y);
    CreditFrame(y, x, y', x');
    AddrFrame(y, x, y', x');
    ReadFrame(y, x, y', x');
    FinFrame(y, x, y', x');
  }

  lemma LandIn(x: End, y: End)
    requires CanLand(x, y) && Flow(y, x) && EndOk(Carried(x)) && EndOk(Struck(x, y))
    ensures Flow(Struck(x, y), Carried(x))
  {
    LandTargetFlow(x, y);
    LandRestIn(x, y);
  }

  lemma LandKeeps(x: End, y: End)
    requires CanLand(x, y) && Inv(Pair(x, y))
    ensures Inv(Pair(Carried(x), Struck(x, y)))
  {
    CarriedEnd(x);
    StruckEnd(x, y);
    LandOut(x, y);
    LandIn(x, y);
  }
}

/** Grants, the receive ring and the sequence numbers, in every reachable state. */
module RsGrants {
  import opened RsWire
  import opened RsSocket
  import opened RsProtocol
  import opened RsInvariant
  import opened RsFrame
  import opened RsArith
  import opened RsClosure
  import RsProofLand

  // ---- The receive ring ---------------------------------------------------------

  /** What is granted, read and free always adds up to the ring. */
  lemma RingConserved(p: Pair)
    requires Reachable(p)
    ensures var granted := p.x.s.cfg.Half() * (1 + All(p.x.h.log).grants);
            && granted - |p.x.h.read| + p.x.s.rx.rbufBytesAvail == p.x.s.cfg.rbufSize
            && 0 <= p.x.s.rx.rbufBytesAvail && |p.x.h.read| <= |p.y.h.sent| <= granted
  {
    QueueHolds(p);
    ReachableSwap(p);
    TargetHolds(Pair(p.y, p.x));
    TargetHolds(p);
    GrantedCoversSent(p.y, p.x);
  }

  lemma GrantedCoversSent(x: End, y: End)
    requires Shaped(x.s) && Positions(y.h) && 0 < y.s.cfg.rbufSize && FlowTarget(x, y)
    ensures |x.h.sent| <= y.s.cfg.Half() * (1 + All(y.h.log).grants)
  {
    UptoGrows(y.h.log, y.h.landed, |y.h.log|);
    MulGrows(y.s.cfg.Half(), 1 + Upto(y.h.log, y.h.landed).grants, 1 + All(y.h.log).grants);
  }

  /** Stream byte `k` goes to ring position `k` modulo the ring size. */
  lemma RingPlacement(p: Pair, i: nat, j: nat)
    requires Reachable(p)
    requires i < |p.x.h.log| && p.x.h.log[i].payload.ToRing? && j < Bytes(p.x.h.log[i])
    ensures var addr, size := p.x.h.log[i].payload.addr, p.y.s.cfg.rbufSize;
            && addr + Bytes(p.x.h.log[i]) <= size
            && addr + j == (Upto(p.x.h.log, i).bytes + j) % size
  {
    TargetHolds(p);
    assert AddrOk(p.x.h.log, i, p.y.s.cfg.rbufSize);
    ModStep(Upto(p.x.h.log, i).bytes, j, p.y.s.cfg.rbufSize);
  }

  /** The next write to land on the peer's ring hits no byte the peer has yet to read. */
  lemma UnreadNeverOverwritten(p: Pair, k: nat)
    requires Reachable(p) && p.x.h.landed < |p.x.h.log| && p.x.h.log[p.x.h.landed].payload.ToRing?
    requires |p.y.h.read| <= k < Upto(p.x.h.log, p.x.h.landed).bytes
    ensures var w := p.x.h.log[p.x.h.landed];
            && 0 < p.y.s.cfg.rbufSize
            && !(w.payload.addr <= k % p.y.s.cfg.rbufSize < w.payload.addr + Bytes(w))
  {
    ReachableInv(p);
    UnreadSafe(p.x, p.y);
  }

  lemma UnreadSafe(x: End, y: End)
    requires Flow(x, y) && x.h.landed < |x.h.log| && x.h.log[x.h.landed].payload.ToRing?
    ensures var w := x.h.log[x.h.landed];
            forall k :: |y.h.read| <= k < Upto(x.h.log, x.h.landed).bytes ==>
              !(w.payload.addr <= k % y.s.cfg.rbufSize < w.payload.addr + Bytes(w))
  {
    WithinRing(x, y);
    RsProofLand.LandSafe(x, y);
    RsProofLand.DataLanding(x, y);
    assert AddrOk(x.h.log, x.h.landed, y.s.cfg.rbufSize);
    RsProofLand.SpliceStream(y.s.rx.rbuf, x.h.sent, |y.h.read|,
                             Upto(x.h.log, x.h.landed).bytes, Bytes(x.h.log[x.h.landed]));
  }

  /** A grant lands only on a target entry that is used up. */
  lemma GrantsNeverLost(p: Pair)
    requires Reachable(p) && p.x.h.landed < |p.x.h.log| && p.x.h.log[p.x.h.landed].payload.ToSgl?
    ensures var slot := p.x.h.log[p.x.h.landed].payload.slot;
            slot < |p.y.s.tx.targetSgl| && p.y.s.tx.targetSgl[slot].length == 0
  {
    QueueHolds(p);
    ReachableSwap(p);
    TargetHolds(p);
    TargetHolds(Pair(p.y, p.x));
    RsProofLand.GrantOnEmpty(p.x, p.y);
  }

  // ---- Sequence numbers ---------------------------------------------------------

  /** The wrapped 16-bit tests decide what the same tests on unbounded counters
      would, and the ring of unread messages never overflows. */
  lemma SequenceTestsExact(p: Pair)
    requires Reachable(p)
    ensures Positions(p.y.h) && |p.y.h.creds| == All(p.y.h.log).credits && Shaped(p.y.s)
    ensures p.x.s.tx.sseqNo != p.x.s.tx.sseqComp <==> All(p.x.h.log).msgs < Limit(p.y)
    ensures ToShort(p.y.s.rx.rseqNo - p.y.s.rx.rseqComp) >= 0 <==>
            p.y.h.nread >= CredAt(p.y.h.creds, |p.y.h.creds|) + p.y.s.cfg.rqSize / 2
    ensures |Msgs(p.y.s.rx)| <= p.y.s.cfg.rqSize
  {
    CreditHolds(p);
    SendTestExact(p.x, p.y);
    CreditTestExact(p.x, p.y);
  }

  lemma SendTestExact(x: End, y: End)
    requires CreditReady(x, y) && CreditsOk(y) && FlowCredit(x, y)
    ensures x.s.tx.sseqNo != x.s.tx.sseqComp <==> All(x.h.log).msgs < Limit(y)
    ensures |Msgs(y.s.rx)| <= y.s.cfg.rqSize
  {
    LimitBound(y);
    UptoGrows(x.h.log, x.h.polled, |x.h.log|);
    WrappedEqual(All(x.h.log).msgs, Limit(y));
  }

  lemma CreditTestExact(x: End, y: End)
    requires CreditReady(x, y) && CreditsOk(y) && FlowCredit(x, y) && y.s.cfg.rqSize <= RS_QP_MAX_SIZE
    ensures ToShort(y.s.rx.rseqNo - y.s.rx.rseqComp) >= 0 <==>
            y.h.nread >= CredAt(y.h.creds, |y.h.creds|) + y.s.cfg.rqSize / 2
  {
    LimitLatest(y);
    UptoGrows(x.h.log, x.h.polled, |x.h.log|);
    ShortDiff(y.h.nread, CredAt(y.h.creds, |y.h.creds|) + y.s.cfg.rqSize / 2);
  }

  /** No limit in use is later than the last one posted. */
  lemma LimitLatest(y: End)
    requires CreditsOk(y)
    ensures Limit(y) <= CredAt(y.h.creds, |y.h.creds|) + y.s.cfg.rqSize
    ensures CredAt(y.h.creds, |y.h.creds|) <= y.h.nread
  {
    UptoGrows(y.h.log, y.h.polled, |y.h.log|);
  }
}

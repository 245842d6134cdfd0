/** The tests on which the data path decides, in terms of what was posted, completed, granted and
    read: in every reachable state each holds exactly when it should. */
module RsTests {
  import opened RsWire
  import opened RsSocket
  import opened RsProtocol
  import opened RsInvariant
  import opened RsFrame
  import opened RsArith
  import opened RsClosure
  import opened RsGrants

  // ---- Control slots --------------------------------------------------------------------

  /** Control requests posted and not completed. */
  function CtrlsOut(h: Hist): int
    requires Positions(h)
  {
    All(h.log).ctrls - Upto(h.log, h.completed).ctrls
  }

  lemma SlotTests(e: End)
    requires QueueOk(e)
    ensures CtrlAvail(e.s.ctl) <==> CtrlsOut(e.h) + 1 <= RS_QP_CTRL_SIZE
    ensures TwoCtrlAvail(e.s.ctl) <==> CtrlsOut(e.h) + 2 <= RS_QP_CTRL_SIZE
  {
    var t, d := All(e.h.log).ctrls, Upto(e.h.log, e.h.completed).ctrls;
    UptoGrows(e.h.log, e.h.completed, |e.h.log|);
    NextWrapped(t, 1);
    Int32Diff(t, d + RS_QP_CTRL_SIZE);
    Int32Diff(t + 1, d + RS_QP_CTRL_SIZE);
  }

  /** The tests for one and for two control slots say exactly whether that many of the four are
      free. */
  lemma CtrlTestsExact(p: Pair)
    requires Reachable(p)
    ensures Positions(p.x.h)
    ensures CtrlAvail(p.x.s.ctl) <==> CtrlsOut(p.x.h) + 1 <= RS_QP_CTRL_SIZE
    ensures TwoCtrlAvail(p.x.s.ctl) <==> CtrlsOut(p.x.h) + 2 <= RS_QP_CTRL_SIZE
  {
    QueueHolds(p);
    SlotTests(p.x);
  }

  // ---- Sending ---------------------------------------------------------------------------

  /** Data requests posted and not completed, and the bytes they hold. */
  function DataOut(h: Hist): int
    requires Positions(h)
  {
    All(h.log).sqes - Upto(h.log, h.completed).sqes
  }

  function HeldOut(h: Hist): int
    requires Positions(h)
  {
    All(h.log).held - Upto(h.log, h.completed).held
  }

  lemma SpaceTest(x: End, y: End)
    requires Shaped(x.s) && Positions(y.h) && 0 < y.s.cfg.rbufSize && FlowTarget(x, y)
    ensures x.s.tx.targetSgl[x.s.tx.targetSge].length != 0 <==>
            |x.h.sent| < y.s.cfg.Half() * (1 + Upto(y.h.log, y.h.landed).grants)
  {
  }

  /** A socket can send exactly when the requests it needs fit beside those not completed, 2048
      bytes of its send ring are free, it has posted fewer messages than the peer allowed, and
      the peer granted more bytes than it has sent. */
  lemma CanSendIff(p: Pair)
    requires Reachable(p)
    ensures Shaped(p.x.s) && Positions(p.x.h) && CreditReady(p.x, p.y)
    ensures CanSend(p.x.s) <==>
            && DataOut(p.x.h) + (if p.x.s.cfg.msgSend then 2 else 1) <= p.x.s.cfg.sqSize - RS_QP_CTRL_SIZE
            && HeldOut(p.x.h) + RS_SNDLOWAT <= p.x.s.cfg.sbufSize
            && All(p.x.h.log).msgs < Limit(p.y)
            && |p.x.h.sent| < p.y.s.cfg.Half() * (1 + Upto(p.y.h.log, p.y.h.landed).grants)
  {
    QueueHolds(p);
    TargetHolds(p);
    SpaceTest(p.x, p.y);
    CreditHolds(p);
    SendTestExact(p.x, p.y);
  }

  // ---- Returning credits -------------------------------------------------------------------

  /** Credits are due exactly when the socket is connected, the control slots of an update are
      free, and half the ring is neither granted nor unread or half the messages allowed by the
      last update were read. */
  lemma CreditsDueIff(p: Pair)
    requires Reachable(p)
    ensures Positions(p.x.h) && |p.x.h.creds| == All(p.x.h.log).credits
    ensures GiveCredits(p.x.s) <==>
            && p.x.s.life.connected && CtrlsOut(p.x.h) + CtrlStep(p.x.s.cfg) <= RS_QP_CTRL_SIZE
            && (|| p.x.s.cfg.rbufSize - (p.x.s.cfg.Half() * (1 + All(p.x.h.log).grants) - |p.x.h.read|)
                   >= p.x.s.cfg.Half()
                || p.x.h.nread >= CredAt(p.x.h.creds, |p.x.h.creds|) + p.x.s.cfg.rqSize / 2)
  {
    QueueHolds(p);
    SlotTests(p.x);
    ReachableSwap(p);
    CreditHolds(Pair(p.y, p.x));
    CreditTestExact(p.y, p.x);
  }
}

/** The send queue, the send ring and the control buffer, in every reachable state. */
module RsQueues {
  import opened Memory
  import opened RsWire
  import opened RsSocket
  import opened RsProtocol
  import opened RsInvariant
  import opened RsArith
  import opened RsClosure
  import RsProofSend
  import RsProofCredit

  // ---- The send queue -----------------------------------------------------------

  /** Work requests posted and not yet completed. */
  function Outstanding(h: Hist): int { |h.log| - h.completed }

  /** Outstanding requests are exactly what the counters say, they fit the send
      queue, and the drain test on a connected socket means none is left. */
  lemma SendQueueConserved(p: Pair)
    requires Reachable(p)
    ensures Outstanding(p.x.h) ==
            p.x.s.cfg.sqSize - p.x.s.tx.sqeAvail - ToInt32(p.x.s.ctl.maxSeqno - p.x.s.ctl.seqno)
    ensures 0 <= Outstanding(p.x.h) <= p.x.s.cfg.sqSize
    ensures p.x.s.life.connected ==> (AllSendsDone(p.x.s) <==> Outstanding(p.x.h) == 0)
  {
    QueueHolds(p);
    QueueConserved(p.x);
  }

  /** The control slots left, from the wrapping counters. */
  lemma WindowLeft(e: End)
    requires QueueOk(e)
    ensures ToInt32(e.s.ctl.maxSeqno - e.s.ctl.seqno)
            == Upto(e.h.log, e.h.completed).ctrls + RS_QP_CTRL_SIZE - All(e.h.log).ctrls
  {
    UptoGrows(e.h.log, e.h.completed, |e.h.log|);
    Int32Diff(Upto(e.h.log, e.h.completed).ctrls + RS_QP_CTRL_SIZE, All(e.h.log).ctrls);
  }

  lemma QueueConserved(e: End)
    requires QueueOk(e)
    ensures Outstanding(e.h) == e.s.cfg.sqSize - e.s.tx.sqeAvail - ToInt32(e.s.ctl.maxSeqno - e.s.ctl.seqno)
    ensures 0 <= Outstanding(e.h) <= e.s.cfg.sqSize
    ensures e.s.life.connected ==> (AllSendsDone(e.s) <==> Outstanding(e.h) == 0)
  {
    EveryRequestCounted(e.h.log, |e.h.log|);
    EveryRequestCounted(e.h.log, e.h.completed);
    UptoGrows(e.h.log, e.h.completed, |e.h.log|);
    WindowLeft(e);
  }

  // ---- Buffers under outstanding requests ---------------------------------------

  /** A chunk copied into the send ring touches no byte of an uncompleted write. */
  lemma SendRingNeverOverwritten(p: Pair, data: seq<u8>, path: Path, i: nat, k: nat)
    requires Reachable(p) && CanDo(Send(data, path), p) && !path.Direct?
    requires p.x.h.completed <= i < |p.x.h.log| && RingBytesOf(p.x.h.log[i]) != 0
    requires RsProofSend.OnArc(p.x.h.log[i].payload.src, k) && k < |p.x.s.tx.sbuf|
    ensures |Do(Send(data, path), p).x.s.tx.sbuf| == |p.x.s.tx.sbuf|
    ensures Do(Send(data, path), p).x.s.tx.sbuf[k] == p.x.s.tx.sbuf[k]
  {
    QueueHolds(p);
    RingRoom(p.x);
    RingKept(p.x, data, path, i, k);
    DoSend(p, data, path);
  }

  lemma RingKept(x: End, data: seq<u8>, path: Path, i: nat, k: nat)
    requires LogOk(x.h) && QueueOk(x) && SendRingOk(x) && RsProofSend.CanSendChunk(x, data, path) && !path.Direct?
    requires x.h.completed <= i < |x.h.log| && RingBytesOf(x.h.log[i]) != 0
    requires RsProofSend.OnArc(x.h.log[i].payload.src, k) && k < |x.s.tx.sbuf|
    ensures |RsProofSend.Sent(x, data, path).s.tx.sbuf| == |x.s.tx.sbuf|
    ensures RsProofSend.Sent(x, data, path).s.tx.sbuf[k] == x.s.tx.sbuf[k]
  {
    RsProofSend.ChunkClear(x, data, path, i, k);
    RsProofSend.PlacedArc(x, data, path);
  }

  /** Granting never reuses the control-buffer slot of a grant in flight. */
  lemma CtrlBufferNeverOverwritten(p: Pair, i: nat)
    requires Reachable(p) && CanDo(Credit, p) && p.x.h.completed <= i < |p.x.h.log|
    requires p.x.h.log[i].payload.ToSgl? && p.x.h.log[i].payload.grant.GrantCtrlBuf?
    ensures var slot := p.x.h.log[i].payload.grant.slot;
            && slot < |p.x.s.ctl.buf| == |Do(Credit, p).x.s.ctl.buf|
            && Do(Credit, p).x.s.ctl.buf[slot] == p.x.s.ctl.buf[slot]
  {
    QueueHolds(p);
    SlotKept(p.x, i);
    DoCredit(p);
  }

  lemma SlotKept(x: End, i: nat)
    requires LogOk(x.h) && QueueOk(x) && GrantsOk(x)
    requires RsProofCredit.CanCredit(x) && x.h.completed <= i < |x.h.log|
    requires x.h.log[i].payload.ToSgl? && x.h.log[i].payload.grant.GrantCtrlBuf?
    ensures var slot, x' := x.h.log[i].payload.grant.slot, RsProofCredit.Credited(x);
            && slot < |x.s.ctl.buf| == |x'.s.ctl.buf|
            && x'.s.ctl.buf[slot] == x.s.ctl.buf[slot]
  {
    assert GrantWrOk(x, i) && WrOk(x.h.log[i]);
    if RsProofCredit.Granting(x) {
      RsProofCredit.SlotsApart(x, i);
      RsProofCredit.NewSlot(x);
    }
  }
}

/** A step that leaves alone what a part of the invariant talks about keeps
    that part. */
module RsFrame {
  import opened RsWire
  import opened RsSocket
  import opened RsProtocol
  import opened RsInvariant

  /** What credit accounting from `x` to `y` depends on. */
  predicate CreditReady(x: End, y: End) {
    && Positions(x.h) && Positions(y.h) && Shaped(y.s)
    && |y.h.creds| == All(y.h.log).credits
  }

  /** The number of messages `x` may send before it must wait for `y`. */
  function Limit(y: End): nat
    requires Positions(y.h) && |y.h.creds| == All(y.h.log).credits
  {
    UptoGrows(y.h.log, y.h.polled, |y.h.log|);
    CredAt(y.h.creds, Upto(y.h.log, y.h.polled).credits) + y.s.cfg.rqSize
  }

  lemma LimitBound(y: End)
    requires CreditsOk(y)
    ensures Limit(y) <= y.h.nread + y.s.cfg.rqSize
  {
    UptoGrows(y.h.log, y.h.polled, |y.h.log|);
  }

  lemma CreditFrame(x: End, y: End, x': End, y': End)
    requires CreditReady(x, y) && CreditReady(x', y') && FlowCredit(x, y)
    requires x'.s.tx.sseqNo == x.s.tx.sseqNo && x'.s.tx.sseqComp == x.s.tx.sseqComp
    requires All(x'.h.log).msgs == All(x.h.log).msgs
    requires Upto(x'.h.log, x'.h.polled).msgs == Upto(x.h.log, x.h.polled).msgs
    requires Limit(y') == Limit(y)
    requires y'.h.nread + |Msgs(y'.s.rx)| == y.h.nread + |Msgs(y.s.rx)|
    ensures FlowCredit(x', y')
  {
  }

  lemma TargetFrame(x: End, y: End, x': End, y': End)
    requires Shaped(x.s) && Positions(y.h) && 0 < y.s.cfg.rbufSize && FlowTarget(x, y)
    requires Shaped(x'.s) && Positions(y'.h) && y'.s.cfg == y.s.cfg
    requires x'.s.tx.targetSgl == x.s.tx.targetSgl && x'.s.tx.targetSge == x.s.tx.targetSge
    requires |x'.h.sent| == |x.h.sent|
    requires Upto(y'.h.log, y'.h.landed).grants == Upto(y.h.log, y.h.landed).grants
    ensures FlowTarget(x', y')
  {
  }

  lemma ReadFrame(x: End, y: End, x': End, y': End)
    requires Positions(x.h) && Shaped(y.s) && 0 < y.s.cfg.rbufSize && FlowRead(x, y)
    requires Positions(x'.h) && Shaped(y'.s) && y'.s.cfg == y.s.cfg
    requires Msgs(y'.s.rx) == Msgs(y.s.rx) && y'.s.rx.rbufOffset == y.s.rx.rbufOffset
    requires y'.s.rx.rbuf == y.s.rx.rbuf && y'.h.read == y.h.read
    requires Upto(x'.h.log, x'.h.landed).bytes == Upto(x.h.log, x.h.landed).bytes
    requires Upto(x'.h.log, x'.h.polled).told == Upto(x.h.log, x.h.polled).told
    requires x.h.sent <= x'.h.sent
    ensures FlowRead(x', y')
  {
    var r := |y.h.read|;
    assert x'.h.sent[..r] == x.h.sent[..r];
  }

  lemma AddrFrame(x: End, y: End, x': End, y': End)
    requires 0 < y.s.cfg.rbufSize && FlowAddr(x, y)
    requires x'.h.log == x.h.log && y'.s.cfg == y.s.cfg
    ensures FlowAddr(x', y')
  {
  }

  /** Posting control requests writes nothing to the peer's ring. */
  lemma AddrPosted(x: End, y: End, x': End, ws: seq<Wr>)
    requires 0 < y.s.cfg.rbufSize && FlowAddr(x, y)
    requires 1 <= |ws| <= 2 && x'.h.log == x.h.log + ws
    requires forall i :: 0 <= i < |ws| ==> !ws[i].payload.ToRing?
    ensures FlowAddr(x', y)
  {
    UptoPosted(x.h.log, ws);
    forall i | 0 <= i < |x'.h.log| ensures AddrOk(x'.h.log, i, y.s.cfg.rbufSize) {
      if i < |x.h.log| { assert AddrOk(x.h.log, i, y.s.cfg.rbufSize); }
    }
  }

  /** The read side of `y` closes for a reason, before and after. */
  lemma FinFrame(x: End, y: End, x': End, y': End)
    requires FlowFin(x, y)
    requires x.h.polled <= x'.h.polled && x.h.log <= x'.h.log
    requires y.h.readShut ==> y'.h.readShut
    requires y'.s.life.readable == y.s.life.readable && y'.s.life.pending == y.s.life.pending
    requires y.h.log <= y'.h.log
    requires forall i :: |y.h.log| <= i < |y'.h.log| ==> !IsOwnDisconnect(y'.h.log[i])
    ensures FlowFin(x', y')
  {
    assert forall i :: 0 <= i < |x.h.log| ==> x'.h.log[i] == x.h.log[i];
    assert forall i :: 0 <= i < |y.h.log| ==> y'.h.log[i] == y.h.log[i];
  }

  // ---- Ring space ---------------------------------------------------------------

  /** Unread and granted space never exceed the receive ring. */
  lemma WithinRing(x: End, y: End)
    requires Shaped(x.s) && GrantsOk(y) && 0 < y.s.cfg.rbufSize && FlowTarget(x, y)
    ensures |x.h.sent| <= |y.h.read| + y.s.cfg.rbufSize
  {
    UptoGrows(y.h.log, y.h.landed, |y.h.log|);
    MulGrows(y.s.cfg.Half(), 1 + Upto(y.h.log, y.h.landed).grants, 1 + All(y.h.log).grants);
  }

  lemma MulGrows(h: nat, a: nat, b: nat)
    requires a <= b
    ensures h * a <= h * b
  {
  }

  // ---- Posting requests -----------------------------------------------------

  /** `x` posts `ws`: its history grows, the receiving half keeps its contents. */
  predicate PostStep(x: End, x': End, ws: seq<Wr>) {
    && 1 <= |ws| <= 2
    && x'.h.log == x.h.log + ws
    && x'.h.landed == x.h.landed && x'.h.polled == x.h.polled && x'.h.completed == x.h.completed
    && x'.h.read == x.h.read && x'.h.nread == x.h.nread && x.h.creds <= x'.h.creds
    && x'.h.readShut == x.h.readShut
    && x'.s.cfg == x.s.cfg
    && x'.s.rx.rbuf == x.s.rx.rbuf && x'.s.rx.rbufOffset == x.s.rx.rbufOffset
    && x'.s.rx.rmsg == x.s.rx.rmsg
    && x'.s.rx.rmsgHead == x.s.rx.rmsgHead && x'.s.rx.rmsgTail == x.s.rx.rmsgTail
  }

  lemma PostCreditIn(y: End, x: End, x': End, ws: seq<Wr>)
    requires PostStep(x, x', ws) && CreditReady(y, x) && CreditReady(y, x') && FlowCredit(y, x)
    ensures FlowCredit(y, x')
  {
    UptoPosted(x.h.log, ws);
    UptoGrows(x.h.log, x.h.polled, |x.h.log|);
    CreditFrame(y, x, y, x');
  }

  lemma PostTargetIn(y: End, x: End, x': End, ws: seq<Wr>)
    requires PostStep(x, x', ws) && Positions(x.h)
    requires Shaped(y.s) && 0 < x.s.cfg.rbufSize && FlowTarget(y, x)
    ensures FlowTarget(y, x')
  {
    UptoPosted(x.h.log, ws);
    TargetFrame(y, x, y, x');
  }

  lemma PostReadIn(y: End, x: End, x': End, ws: seq<Wr>)
    requires PostStep(x, x', ws) && Positions(y.h) && Shaped(x.s) && Shaped(x'.s)
    requires 0 < x.s.cfg.rbufSize && FlowRead(y, x)
    ensures FlowRead(y, x')
  {
    ReadFrame(y, x, y, x');
  }

  lemma PostFinIn(y: End, x: End, x': End, ws: seq<Wr>)
    requires PostStep(x, x', ws) && FlowFin(y, x)
    requires x'.s.life == x.s.life
    requires forall i :: 0 <= i < |ws| ==> !IsOwnDisconnect(ws[i])
    ensures FlowFin(y, x')
  {
    assert forall i :: |x.h.log| <= i < |x'.h.log| ==> x'.h.log[i] == ws[i - |x.h.log|];
    FinFrame(y, x, y, x');
  }

  /** Posting leaves the data stream from the peer as it was. */
  lemma PostKeepsIn(y: End, x: End, x': End, ws: seq<Wr>)
    requires Flow(y, x) && EndOk(x') && PostStep(x, x', ws) && FlowFin(y, x')
    ensures Flow(y, x')
  {
    PostCreditIn(y, x, x', ws);
    PostTargetIn(y, x, x', ws);
    PostReadIn(y, x, x', ws);
    AddrFrame(y, x, y, x');
  }

  /** Requests that carry no data. */
  predicate NoData(ws: seq<Wr>) {
    forall i :: 0 <= i < |ws| ==> !ws[i].payload.ToRing? && !IsDataMsg(ws[i])
  }

  lemma PostedNoData(log: seq<Wr>, ws: seq<Wr>)
    requires 1 <= |ws| <= 2 && NoData(ws)
    ensures All(log + ws).msgs == All(log).msgs && All(log + ws).bytes == All(log).bytes
    ensures All(log + ws).told == All(log).told && All(log + ws).ring == All(log).ring
    ensures Upto(log + ws, |log| + 1).told == All(log).told && Upto(log + ws, |log| + 1).bytes == All(log).bytes
  {
    UptoPosted(log, ws);
  }

  lemma CtrlCreditOut(x: End, y: End, x': End, ws: seq<Wr>)
    requires PostStep(x, x', ws) && NoData(ws) && x'.s.tx == x.s.tx
    requires CreditReady(x, y) && FlowCredit(x, y)
    ensures Positions(x'.h) && FlowCredit(x', y)
  {
    UptoPosted(x.h.log, ws);
    PostedNoData(x.h.log, ws);
    CreditFrame(x, y, x', y);
  }

  lemma CtrlReadOut(x: End, y: End, x': End, ws: seq<Wr>)
    requires PostStep(x, x', ws) && x'.h.sent == x.h.sent
    requires Positions(x.h) && Shaped(y.s) && 0 < y.s.cfg.rbufSize && FlowRead(x, y)
    ensures Positions(x'.h) && FlowRead(x', y)
  {
    UptoPosted(x.h.log, ws);
    ReadFrame(x, y, x', y);
  }

  /** Posting control requests leaves the outgoing data stream as it was. */
  lemma CtrlKeepsOut(x: End, y: End, x': End, ws: seq<Wr>)
    requires Flow(x, y) && EndOk(x') && PostStep(x, x', ws) && NoData(ws)
    requires x'.s.tx == x.s.tx && x'.h.sent == x.h.sent
    ensures Flow(x', y)
  {
    CtrlCreditOut(x, y, x', ws);
    TargetFrame(x, y, x', y);
    AddrPosted(x, y, x', ws);
    CtrlReadOut(x, y, x', ws);
    FinFrame(x, y, x', y);
  }

  // ---- One end ------------------------------------------------------------------

  lemma RingFrame(x: End, x': End)
    requires SendRingOk(x) && Shaped(x'.s) && Positions(x'.h)
    requires x'.s.cfg == x.s.cfg && x'.s.tx.sbuf == x.s.tx.sbuf && x'.s.tx.ssglAddr == x.s.tx.ssglAddr
    requires x'.h.log == x.h.log && x'.h.sent == x.h.sent && x.h.landed <= x'.h.landed
    ensures SendRingOk(x')
  {
    assert forall i :: 0 <= i < |x.h.log| ==> ArcOk(x, i) ==> ArcOk(x', i);
    assert forall i :: x.h.landed <= i < |x.h.log| ==> Readable(x, i) ==> Readable(x', i);
  }

  lemma GrantsFrame(x: End, x': End)
    requires GrantsOk(x) && Shaped(x'.s) && Positions(x'.h)
    requires x'.s.cfg == x.s.cfg && x'.s.ctl.buf == x.s.ctl.buf
    requires x'.s.rx.remoteSge == x.s.rx.remoteSge && x'.s.rx.rbufFreeOffset == x.s.rx.rbufFreeOffset
    requires x'.h.log == x.h.log && x.h.landed <= x'.h.landed
    requires x'.s.rx.rbufBytesAvail - |x'.h.read| == x.s.rx.rbufBytesAvail - |x.h.read|
    requires |x.h.read| <= |x'.h.read|
    ensures GrantsOk(x')
  {
    assert forall i :: 0 <= i < |x.h.log| ==> GrantWrOk(x, i) ==> GrantWrOk(x', i);
    assert forall i :: x.h.landed <= i < |x.h.log| ==> GrantPending(x, i) ==> GrantPending(x', i);
  }

  lemma CreditsFrame(x: End, x': End)
    requires CreditsOk(x) && Positions(x'.h)
    requires x'.s.cfg == x.s.cfg && x'.h.log == x.h.log && x'.h.creds == x.h.creds
    requires x'.s.rx.rseqComp == x.s.rx.rseqComp
    requires x.h.nread <= x'.h.nread && x'.s.rx.rseqNo == x'.h.nread % U16
    ensures CreditsOk(x')
  {
    assert forall i :: 0 <= i < |x.h.log| ==> CreditWrOk(x, i) ==> CreditWrOk(x', i);
  }

  lemma FinsFrame(x: End, x': End)
    requires FinsOk(x) && Positions(x'.h)
    requires x'.h.log == x.h.log && x'.h.sent == x.h.sent && x'.h.shutAt == x.h.shutAt
    requires x'.s.life.pending == x.s.life.pending
    requires x'.s.life.connected ==> x.s.life.connected && x'.s.life.writable == x.s.life.writable
    ensures FinsOk(x')
  {
    assert forall i :: 0 <= i < |x.h.log| ==> FinWrOk(x.h, i) ==> FinWrOk(x'.h, i);
  }

  lemma LogFrame(x: End, x': End)
    requires LogOk(x.h) && Positions(x'.h) && x'.h.log == x.h.log && x'.h.sent == x.h.sent
    ensures LogOk(x'.h)
  {
  }

  lemma QueueFrame(x: End, x': End)
    requires QueueOk(x) && Positions(x'.h) && x'.h.log == x.h.log && x'.h.completed == x.h.completed
    requires x'.s.cfg == x.s.cfg
    requires x'.s.tx.sqeAvail == x.s.tx.sqeAvail && x'.s.tx.sbufBytesAvail == x.s.tx.sbufBytesAvail
    requires x'.s.ctl.seqno == x.s.ctl.seqno && x'.s.ctl.maxSeqno == x.s.ctl.maxSeqno
    ensures QueueOk(x')
  {
  }

  // ---- Changing only the state bits ---------------------------------------

  /** Only the state bits and what was recorded about shutdowns differ. */
  predicate LifeStep(x: End, x': End) {
    && x'.s == x.s.(life := x'.s.life)
    && x'.h == x.h.(shutAt := x'.h.shutAt, readShut := x'.h.readShut)
  }

  lemma LifeEnd(x: End, x': End)
    requires LifeStep(x, x') && EndOk(x) && FinsOk(x')
    ensures EndOk(x')
  {
    RingFrame(x, x');
    GrantsFrame(x, x');
    CreditsFrame(x, x');
  }

  lemma LifeOut(x: End, y: End, x': End)
    requires LifeStep(x, x') && Flow(x, y) && EndOk(x')
    ensures Flow(x', y)
  {
    CreditFrame(x, y, x', y);
    TargetFrame(x, y, x', y);
    AddrFrame(x, y, x', y);
    ReadFrame(x, y, x', y);
    FinFrame(x, y, x', y);
  }

  lemma LifeIn(x: End, y: End, x': End)
    requires LifeStep(x, x') && Flow(y, x) && EndOk(x') && FlowFin(y, x')
    ensures Flow(y, x')
  {
    CreditFrame(y, x, y, x');
    TargetFrame(y, x, y, x');
    AddrFrame(y, x, y, x');
    ReadFrame(y, x, y, x');
  }

  lemma LifeKeeps(x: End, y: End, x': End)
    requires LifeStep(x, x') && Inv(Pair(x, y)) && FinsOk(x') && FlowFin(y, x')
    ensures Inv(Pair(x', y))
  {
    LifeEnd(x, x');
    LifeOut(x, y, x');
    LifeIn(x, y, x');
  }
}

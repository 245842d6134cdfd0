/** Handling completions keeps the invariant. */
module RsProofPoll {
  import opened RsWire
  import opened RsSocket
  import opened RsProtocol
  import opened RsInvariant
  import opened RsFrame
  import opened RsArith

  // ---- A send completion ----------------------------------------------------

  function Completed(x: End): End
    requires x.h.completed < |x.h.log|
  {
    End(OnSendDone(x.s, x.h.log[x.h.completed].wrData), x.h.(completed := x.h.completed + 1))
  }

  predicate CanComplete(x: End) { Positions(x.h) && x.h.completed < x.h.landed }

  lemma CompletedFacts(x: End)
    requires CanComplete(x)
    ensures var x', w := Completed(x), x.h.log[x.h.completed];
            && x'.s.cfg == x.s.cfg && x'.s.rx == x.s.rx
            && x'.s.tx == x.s.tx.(sqeAvail := x'.s.tx.sqeAvail, sbufBytesAvail := x'.s.tx.sbufBytesAvail)
            && x'.s.ctl == x.s.ctl.(maxSeqno := x'.s.ctl.maxSeqno)
            && x'.h == x.h.(completed := x.h.completed + 1)
            && x'.s.life.pending == x.s.life.pending
            && (x'.s.life == x.s.life || (IsOwnDisconnect(w) && x'.s.life == Disconnected(x.s.life)))
            && (if IsCtrlWr(w) then x'.s.tx == x.s.tx && x'.s.ctl.maxSeqno == (x.s.ctl.maxSeqno + 1) % U32
                else && x'.s.ctl == x.s.ctl && x'.s.tx.sqeAvail == x.s.tx.sqeAvail + 1
                     && x'.s.tx.sbufBytesAvail == x.s.tx.sbufBytesAvail + MsgData(w.wrData))
  {
  }

  lemma CompletedQueue(x: End)
    requires CanComplete(x) && QueueOk(x)
    ensures QueueOk(Completed(x))
  {
    CompletedFacts(x);
    UptoGrows(x.h.log, x.h.completed + 1, |x.h.log|);
    NextWrapped(Upto(x.h.log, x.h.completed).ctrls + RS_QP_CTRL_SIZE, 1);
  }

  lemma CompletedEnd(x: End)
    requires CanComplete(x) && EndOk(x)
    ensures EndOk(Completed(x))
  {
    var x' := Completed(x);
    CompletedFacts(x);
    LogFrame(x, x');
    CompletedQueue(x);
    RingFrame(x, x');
    GrantsFrame(x, x');
    CreditsFrame(x, x');
    FinsFrame(x, x');
  }

  lemma CompletedFin(x: End, y: End)
    requires CanComplete(x) && FlowFin(y, x)
    ensures FlowFin(y, Completed(x))
  {
    CompletedFacts(x);
  }

  lemma CompletedOut(x: End, y: End)
    requires CanComplete(x) && Flow(x, y) && EndOk(Completed(x))
    ensures Flow(Completed(x), y)
  {
    var x' := Completed(x);
    CompletedFacts(x);
    CreditFrame(x, y, x', y);
    TargetFrame(x, y, x', y);
    AddrFrame(x, y, x', y);
    ReadFrame(x, y, x', y);
    FinFrame(x, y, x', y);
  }

  lemma CompletedIn(x: End, y: End)
    requires CanComplete(x) && Flow(y, x) && EndOk(Completed(x))
    ensures Flow(y, Completed(x))
  {
    var x' := Completed(x);
    CompletedFacts(x);
    CreditFrame(y, x, y, x');
    TargetFrame(y, x, y, x');
    AddrFrame(y, x, y, x');
    ReadFrame(y, x, y, x');
    CompletedFin(x, y);
  }

  lemma PollSendKeeps(x: End, y: End)
    requires CanComplete(x) && Inv(Pair(x, y))
    ensures Inv(Pair(Completed(x), y))
  {
    CompletedEnd(x);
    CompletedOut(x, y);
    CompletedIn(x, y);
  }

  // ---- A receive completion -------------------------------------------------

  /** `x` handles the next message of `y`. */
  predicate CanPoll(x: End, y: End) { Shaped(x.s) && Positions(y.h) && y.h.polled < y.h.landed }

  function Heard(x: End, y: End): End
    requires CanPoll(x, y)
  {
    var m := y.h.log[y.h.polled].msg;
    if m.Some? then x.(s := OnArrival(x.s, m.value)) else x
  }

  function Told1(y: End): End { y.(h := y.h.(polled := y.h.polled + 1)) }

  lemma HeardFacts(x: End, y: End)
    requires CanPoll(x, y)
    ensures var x', w := Heard(x, y), y.h.log[y.h.polled];
            && x'.h == x.h && x'.s.cfg == x.s.cfg && x'.s.ctl == x.s.ctl && Shaped(x'.s)
            && x'.s.tx == x.s.tx.(sseqComp := if IsCredit(w) then MsgData(w.msg.value) % U16 else x.s.tx.sseqComp)
            && (if IsDataMsg(w)
                then x'.s.rx == x.s.rx.(rmsg := x.s.rx.rmsg[x.s.rx.rmsgTail := MsgData(w.msg.value)],
                                        rmsgTail := if x.s.rx.rmsgTail + 1 == x.s.cfg.rqSize + 1 then 0
                                                    else x.s.rx.rmsgTail + 1)
                else x'.s.rx == x.s.rx)
            && x'.s.life.pending == x.s.life.pending
            && (x'.s.life != x.s.life ==> IsFin(w))
            && (x'.s.life.connected ==> x.s.life.connected && x'.s.life.writable == x.s.life.writable)
  {
  }

  lemma HeardEnd(x: End, y: End)
    requires CanPoll(x, y) && EndOk(x)
    ensures EndOk(Heard(x, y))
  {
    var x' := Heard(x, y);
    HeardFacts(x, y);
    QueueFrame(x, x');
    RingFrame(x, x');
    GrantsFrame(x, x');
    CreditsFrame(x, x');
    FinsFrame(x, x');
  }

  lemma Told1End(y: End)
    requires EndOk(y) && y.h.polled < y.h.landed
    ensures EndOk(Told1(y))
  {
    var y' := Told1(y);
    LogFrame(y, y');
    QueueFrame(y, y');
    RingFrame(y, y');
    GrantsFrame(y, y');
    CreditsFrame(y, y');
    FinsFrame(y, y');
  }

  // ---- New credits ------------------------------------------------------------

  /** The limit only moves forward. */
  lemma LimitGrows(y: End)
    requires CreditsOk(y) && y.h.polled < y.h.landed
    ensures CreditsOk(Told1(y)) && Limit(y) <= Limit(Told1(y))
    ensures var w := y.h.log[y.h.polled];
            if IsCredit(w) then MsgData(w.msg.value) % U16 == Limit(Told1(y)) % U16 else Limit(Told1(y)) == Limit(y)
  {
    var y' := Told1(y);
    CreditsFrame(y, y');
    assert CreditWrOk(y, y.h.polled);
    UptoGrows(y.h.log, y.h.polled + 1, |y.h.log|);
  }

  lemma PollCreditOut(x: End, y: End)
    requires CanPoll(x, y) && CreditReady(x, y) && CreditsOk(y) && FlowCredit(x, y)
    ensures CreditReady(Heard(x, y), Told1(y)) && FlowCredit(Heard(x, y), Told1(y))
  {
    HeardFacts(x, y);
    LimitGrows(y);
  }

  lemma PollOut(x: End, y: End)
    requires CanPoll(x, y) && Flow(x, y) && EndOk(Heard(x, y)) && EndOk(Told1(y))
    ensures Flow(Heard(x, y), Told1(y))
  {
    var x', y' := Heard(x, y), Told1(y);
    PollCreditOut(x, y);
    HeardFacts(x, y);
    TargetFrame(x, y, x', y');
    AddrFrame(x, y, x', y');
    ReadFrame(x, y, x', y');
    FinFrame(x, y, x', y');
  }

  // ---- New data -------------------------------------------------------------------

  lemma {:induction false} SumSnoc(q: seq<nat>, d: nat)
    ensures SumOf(q + [d]) == SumOf(q) + d
  {
    if q == [] {
      assert q + [d] == [d];
    } else {
      assert (q + [d])[1..] == q[1..] + [d];
      SumSnoc(q[1..], d);
    }
  }

  /** The slot after the tail is free, so the push appends. */
  lemma PushAppends(rx: Rx, d: nat, size: nat)
    requires |rx.rmsg| == size + 1 && rx.rmsgHead <= size && rx.rmsgTail <= size
    requires |Msgs(rx)| < size
    ensures var rx' := rx.(rmsg := rx.rmsg[rx.rmsgTail := d],
                           rmsgTail := if rx.rmsgTail + 1 == size + 1 then 0 else rx.rmsgTail + 1);
            Msgs(rx') == Msgs(rx) + [d]
  {
  }

  /** There is room for the message, because credits bound the unread ones. */
  lemma RoomForMessage(x: End, y: End)
    requires CanPoll(x, y) && CreditReady(y, x) && CreditsOk(x) && FlowCredit(y, x)
    requires IsDataMsg(y.h.log[y.h.polled])
    ensures |Msgs(x.s.rx)| < x.s.cfg.rqSize
  {
    LimitBound(x);
    UptoGrows(y.h.log, y.h.polled + 1, |y.h.log|);
  }

  lemma PollCreditIn(x: End, y: End)
    requires CanPoll(x, y) && CreditReady(y, x) && CreditsOk(x) && FlowCredit(y, x)
    ensures CreditReady(Told1(y), Heard(x, y)) && FlowCredit(Told1(y), Heard(x, y))
  {
    var x', w := Heard(x, y), y.h.log[y.h.polled];
    HeardFacts(x, y);
    if IsDataMsg(w) {
      RoomForMessage(x, y);
      PushAppends(x.s.rx, MsgData(w.msg.value), x.s.cfg.rqSize);
    }
    assert Limit(x') == Limit(x);
  }

  lemma PollReadIn(x: End, y: End)
    requires CanPoll(x, y) && CreditReady(y, x) && CreditsOk(x) && FlowCredit(y, x)
    requires LogOk(y.h) && 0 < x.s.cfg.rbufSize && FlowRead(y, x)
    ensures Shaped(Heard(x, y).s) && FlowRead(Told1(y), Heard(x, y))
  {
    var x', w := Heard(x, y), y.h.log[y.h.polled];
    HeardFacts(x, y);
    assert WrOk(w);
    if IsDataMsg(w) {
      RoomForMessage(x, y);
      PushAppends(x.s.rx, MsgData(w.msg.value), x.s.cfg.rqSize);
      SumSnoc(Msgs(x.s.rx), MsgData(w.msg.value));
    }
  }

  /** A message announces bytes that have landed and are not read. */
  lemma MessageFits(x: End, y: End)
    requires CanPoll(x, y) && LogOk(y.h) && 0 < x.s.cfg.rbufSize && FlowRead(y, x)
    requires |y.h.sent| <= |x.h.read| + x.s.cfg.rbufSize
    ensures Told(y.h.log[y.h.polled]) <= x.s.cfg.rbufSize
  {
    var n := y.h.polled + 1;
    assert Upto(y.h.log, n).told <= Upto(y.h.log, n).bytes;
    UptoGrows(y.h.log, n, |y.h.log|);
  }

  lemma HeardSlots(x: End, y: End)
    requires CanPoll(x, y) && SlotsOk(x.s) && Told(y.h.log[y.h.polled]) <= x.s.cfg.rbufSize
    ensures SlotsOk(Heard(x, y).s)
  {
    HeardFacts(x, y);
  }

  lemma PollFinIn(x: End, y: End)
    requires CanPoll(x, y) && FlowFin(y, x)
    ensures FlowFin(Told1(y), Heard(x, y))
  {
    HeardFacts(x, y);
    var y' := Told1(y);
    assert forall i :: 0 <= i < y.h.polled ==> IsFin(y.h.log[i]) ==> FinSeen(y'.h);
    assert IsFin(y.h.log[y.h.polled]) ==> FinSeen(y'.h);
  }

  lemma PollIn(x: End, y: End)
    requires CanPoll(x, y) && Flow(y, x) && EndOk(Heard(x, y)) && EndOk(Told1(y)) && SlotsOk(Heard(x, y).s)
    ensures Flow(Told1(y), Heard(x, y))
  {
    var x', y' := Heard(x, y), Told1(y);
    PollCreditIn(x, y);
    PollReadIn(x, y);
    PollFinIn(x, y);
    HeardFacts(x, y);
    TargetFrame(y, x, y', x');
    AddrFrame(y, x, y', x');
  }

  lemma PollRecvKeeps(x: End, y: End)
    requires CanPoll(x, y) && Inv(Pair(x, y))
    ensures Inv(Pair(Heard(x, y), Told1(y)))
  {
    HeardEnd(x, y);
    Told1End(y);
    PollOut(x, y);
    assert SlotsOk(Heard(x, y).s) by {
      WithinRing(y, x);
      MessageFits(x, y);
      HeardSlots(x, y);
    }
    PollIn(x, y);
  }
}

/** Returning credits and granting ring space keeps the invariant. */
module RsProofCredit {
  import opened RsWire
  import opened RsSocket
  import opened RsProtocol
  import opened RsInvariant
  import opened RsFrame
  import opened RsArith
  import opened RsProofCtrl

  predicate CanCredit(x: End) { Shaped(x.s) && GiveCredits(x.s) }

  function Credited(x: End): End
    requires CanCredit(x)
  {
    var x1 := Posted(x, SendCredits(x.s));
    x1.(h := x1.h.(creds := x.h.creds + [x.h.nread]))
  }

  function CreditWrs(x: End): seq<Wr>
    requires CanCredit(x)
  {
    SendCredits(x.s).posted
  }

  predicate Granting(x: End) { x.s.rx.rbufBytesAvail >= x.s.cfg.Half() }

  lemma CreditedFacts(x: End)
    requires CanCredit(x)
    ensures var x', ws := Credited(x), CreditWrs(x);
            && CtrlStepOf(x, x', ws)
            && |ws| == (if Granting(x) then CtrlStep(x.s.cfg) else 1)
            && (if |ws| == 2 then TwoCtrlAvail(x.s.ctl) else x.s.cfg.msgSend || CtrlAvail(x.s.ctl))
            && (forall i :: 0 <= i < |ws| ==> !IsFin(ws[i]) && !IsOwnDisconnect(ws[i]))
            && ws[0].payload.ToSgl? == Granting(x) && (|ws| == 2 ==> !IsCredit(ws[0]) && !ws[1].payload.ToSgl?)
            && IsCredit(ws[|ws| - 1]) && MsgData(ws[|ws| - 1].msg.value) == x.s.rx.rseqNo + x.s.cfg.rqSize
            && x'.h == x.h.(log := x.h.log + ws, creds := x.h.creds + [x.h.nread])
            && x'.s.life == x.s.life && x'.s.cfg == x.s.cfg
            && x'.s.ctl.maxSeqno == x.s.ctl.maxSeqno
            && x'.s.rx.rseqNo == x.s.rx.rseqNo
            && x'.s.rx.rseqComp == (x.s.rx.rseqNo + x.s.cfg.rqSize / 2) % U16
  {
    MsgRoundTrip(OP_SGL, x.s.rx.rseqNo + x.s.cfg.rqSize);
    MsgRoundTrip(OP_SGL, 0);
  }

  /** A credit message takes a control slot for each of its requests. */
  lemma CreditSeqno(x: End)
    requires CanCredit(x)
    ensures Credited(x).s.ctl.seqno == (x.s.ctl.seqno + |CreditWrs(x)|) % U32
  {
  }

  /** Two free slots are at least one. */
  lemma CreditWindow(x: End)
    requires CanCredit(x) && QueueOk(x)
    ensures CtrlAvail(x.s.ctl)
    ensures All(x.h.log).ctrls + |CreditWrs(x)| <= Upto(x.h.log, x.h.completed).ctrls + RS_QP_CTRL_SIZE
  {
    UptoGrows(x.h.log, x.h.completed, |x.h.log|);
    var t, d := All(x.h.log).ctrls, Upto(x.h.log, x.h.completed).ctrls;
    WindowRoom(t, d, CtrlStep(x.s.cfg));
  }

  // ---- Credits ------------------------------------------------------------------

  lemma CreditsPosted(x: End, x': End, ws: seq<Wr>)
    requires CreditsOk(x) && PostStep(x, x', ws) && x'.h.creds == x.h.creds + [x.h.nread]
    requires |ws| == 2 ==> !IsCredit(ws[0])
    requires IsCredit(ws[|ws| - 1])
    requires MsgData(ws[|ws| - 1].msg.value) % U16 == (x.h.nread + x.s.cfg.rqSize) % U16
    ensures |x'.h.creds| == All(x'.h.log).credits
    ensures forall i :: 0 <= i < |x'.h.log| ==> CreditWrOk(x', i)
  {
    UptoPosted(x.h.log, ws);
    forall i | 0 <= i < |x'.h.log| ensures CreditWrOk(x', i) {
      if i < |x.h.log| { OldCredit(x, x', ws, i); } else { NewCredit(x, x', ws, i); }
    }
  }

  lemma OldCredit(x: End, x': End, ws: seq<Wr>, i: nat)
    requires CreditsOk(x) && PostStep(x, x', ws) && x.h.creds <= x'.h.creds && i < |x.h.log|
    ensures CreditWrOk(x', i)
  {
    UptoPrefix(x.h.log, ws, i);
    assert x'.h.log[i] == x.h.log[i] && CreditWrOk(x, i);
  }

  lemma NewCredit(x: End, x': End, ws: seq<Wr>, i: nat)
    requires CreditsOk(x) && PostStep(x, x', ws) && x'.h.creds == x.h.creds + [x.h.nread]
    requires (|ws| == 2 ==> !IsCredit(ws[0])) && IsCredit(ws[|ws| - 1])
    requires MsgData(ws[|ws| - 1].msg.value) % U16 == (x.h.nread + x.s.cfg.rqSize) % U16
    requires |x.h.log| <= i < |x'.h.log|
    ensures CreditWrOk(x', i)
  {
    UptoPosted(x.h.log, ws);
    assert x'.h.log[i] == ws[i - |x.h.log|];
  }

  lemma CreditedCredits(x: End)
    requires CanCredit(x) && CreditsOk(x)
    ensures CreditsOk(Credited(x))
  {
    CreditedFacts(x);
    AddWrapped16(x.h.nread, x.s.cfg.rqSize);
    AddWrapped16(x.h.nread, x.s.cfg.rqSize / 2);
    CreditsPosted(x, Credited(x), CreditWrs(x));
  }

  // ---- Grants -------------------------------------------------------------------

  /** The new receive-side position after a grant. */
  lemma GrantTurn(c: Config, g: nat)
    requires c.Good()
    ensures var a := GrantSge(c, 1 + g).addr;
            GrantSge(c, 2 + g).addr == if a + c.Half() >= c.rbufSize then 0 else a + c.Half()
    ensures c.Half() * (2 + g) == c.Half() * (1 + g) + c.Half()
  {
    assert c.rbufSize == 2 * c.Half();
  }

  lemma CreditedRx(x: End)
    requires CanCredit(x) && GrantsOk(x) && x.s.cfg.Good()
    ensures var x', g := Credited(x), All(Credited(x).h.log).grants;
            && x'.s.rx.remoteSge == (1 + g) % 2
            && x'.s.rx.rbufFreeOffset == GrantSge(x'.s.cfg, 1 + g).addr
            && x'.s.rx.rbufBytesAvail == x'.s.cfg.rbufSize - (x'.s.cfg.Half() * (1 + g) - |x'.h.read|)
            && 0 <= x'.s.rx.rbufBytesAvail
  {
    CreditedFacts(x);
    UptoPosted(x.h.log, CreditWrs(x));
    GrantTurn(x.s.cfg, All(x.h.log).grants);
  }

  lemma NewGrantOk(x: End)
    requires CanCredit(x) && GrantsOk(x) && QueueOk(x) && Granting(x)
    ensures var x', n := Credited(x), |x.h.log|;
            n < |x'.h.log| && GrantWrOk(x', n) && GrantPending(x', n)
  {
    var x', ws, n := Credited(x), CreditWrs(x), |x.h.log|;
    NewSlot(x);
    UptoPrefix(x.h.log, ws, n);
    assert x'.h.log[n] == ws[0];
  }

  /** The control-buffer slot of a new grant follows from the unbounded count. */
  lemma NewSlot(x: End)
    requires CanCredit(x) && QueueOk(x) && Granting(x)
    ensures Credited(x).s.ctl.seqno % RS_QP_CTRL_SIZE == (All(x.h.log).ctrls + CtrlStep(x.s.cfg)) % RS_QP_CTRL_SIZE
  {
    CreditSeqno(x);
    CreditCount(x);
    SlotAfter(All(x.h.log).ctrls, CtrlStep(x.s.cfg));
  }

  lemma CreditCount(x: End)
    requires CanCredit(x) && Granting(x)
    ensures |CreditWrs(x)| == CtrlStep(x.s.cfg)
  {
  }

  lemma SlotAfter(t: nat, k: nat)
    requires k <= 2
    ensures (t % U32 + k) % U32 % RS_QP_CTRL_SIZE == (t + k) % RS_QP_CTRL_SIZE
  {
    NextWrapped(t, k);
    SlotWrapped(t + k);
  }

  /** The number of a control request in flight. */
  lemma InWindow(h: Hist, i: nat)
    requires Positions(h) && h.completed <= i < |h.log| && IsCtrlWr(h.log[i])
    ensures Upto(h.log, h.completed).ctrls <= Upto(h.log, i).ctrls < All(h.log).ctrls
  {
    UptoGrows(h.log, h.completed, i);
    UptoGrows(h.log, i + 1, |h.log|);
  }

  /** A grant in flight keeps its control-buffer slot. */
  lemma SlotsApart(x: End, i: nat)
    requires CanCredit(x) && QueueOk(x) && Granting(x)
    requires x.h.completed <= i < |x.h.log| && GrantWrOk(x, i) && WrOk(x.h.log[i])
    requires x.h.log[i].payload.ToSgl? && x.h.log[i].payload.grant.GrantCtrlBuf?
    ensures x.h.log[i].payload.grant.slot != (All(x.h.log).ctrls + CtrlStep(x.s.cfg)) % RS_QP_CTRL_SIZE
  {
    RequestsAhead(x, i);
    ModApart(Upto(x.h.log, i).ctrls + CtrlStep(x.s.cfg), All(x.h.log).ctrls + CtrlStep(x.s.cfg), RS_QP_CTRL_SIZE);
  }

  /** Fewer control requests than slots lie between one in flight and a new one. */
  lemma RequestsAhead(x: End, i: nat)
    requires CanCredit(x) && QueueOk(x) && Granting(x)
    requires x.h.completed <= i < |x.h.log| && IsCtrlWr(x.h.log[i])
    ensures Upto(x.h.log, i).ctrls < All(x.h.log).ctrls < Upto(x.h.log, i).ctrls + RS_QP_CTRL_SIZE
  {
    assert |CreditWrs(x)| >= 1;
    CreditWindow(x);
    InWindow(x.h, i);
  }

  lemma OldGrantOk(x: End, i: nat)
    requires CanCredit(x) && GrantsOk(x) && QueueOk(x) && LogOk(x.h) && i < |x.h.log|
    ensures i < |Credited(x).h.log| && GrantWrOk(Credited(x), i)
    ensures x.h.landed <= i ==> GrantPending(Credited(x), i)
  {
    var x', ws := Credited(x), CreditWrs(x);
    CreditedFacts(x);
    UptoPrefix(x.h.log, ws, i);
    assert x'.h.log[i] == x.h.log[i] && GrantWrOk(x, i) && (x.h.landed <= i ==> GrantPending(x, i));
    if x.h.landed <= i && Granting(x) && x.h.log[i].payload.ToSgl? && x.h.log[i].payload.grant.GrantCtrlBuf? {
      SlotsApart(x, i);
      NewSlot(x);
    }
  }

  lemma CreditedGrants(x: End)
    requires CanCredit(x) && GrantsOk(x) && QueueOk(x) && LogOk(x.h) && x.s.cfg.Good()
    ensures GrantsOk(Credited(x))
  {
    var x', ws := Credited(x), CreditWrs(x);
    CreditedFacts(x);
    CreditedRx(x);
    if Granting(x) { NewGrantOk(x); }
    forall i | 0 <= i < |x'.h.log| ensures GrantWrOk(x', i) && (x.h.landed <= i ==> GrantPending(x', i)) {
      if i < |x.h.log| { OldGrantOk(x, i); } else { assert x'.h.log[i] == ws[i - |x.h.log|]; }
    }
  }

  // ---- All together -------------------------------------------------------------

  lemma CreditKeepsEnd(x: End)
    requires CanCredit(x) && EndOk(x)
    ensures EndOk(Credited(x))
  {
    var x', ws := Credited(x), CreditWrs(x);
    CreditedFacts(x);
    CreditSeqno(x);
    CreditWindow(x);
    CtrlLog(x, x', ws);
    CtrlRing(x, x', ws);
    CtrlQueue(x, x', ws);
    CreditedGrants(x);
    CreditedCredits(x);
    PlainFins(x, x', ws);
  }

  lemma CreditKeepsOut(x: End, y: End)
    requires CanCredit(x) && Flow(x, y) && EndOk(Credited(x))
    ensures Flow(Credited(x), y)
  {
    CreditedFacts(x);
    CtrlKeepsOut(x, y, Credited(x), CreditWrs(x));
  }

  lemma CreditKeepsIn(x: End, y: End)
    requires CanCredit(x) && Flow(y, x) && EndOk(Credited(x))
    ensures Flow(y, Credited(x))
  {
    CreditedFacts(x);
    PostFinIn(y, x, Credited(x), CreditWrs(x));
    PostKeepsIn(y, x, Credited(x), CreditWrs(x));
  }

  lemma CreditKeeps(x: End, y: End)
    requires CanCredit(x) && Inv(Pair(x, y))
    ensures Inv(Pair(Credited(x), y))
  {
    CreditKeepsEnd(x);
    CreditKeepsOut(x, y);
    CreditKeepsIn(x, y);
  }
}

/** Posting credits, shutdown messages and keepalives keeps the invariant. */
module RsProofCtrl {
  import opened Wrappers
  import opened RsWire
  import opened RsSocket
  import opened RsProtocol
  import opened RsInvariant
  import opened RsFrame
  import opened RsArith

  // ---- Any control request ----------------------------------------------------

  /** `x` posts requests without data; the sending half does not change. */
  predicate CtrlStepOf(x: End, x': End, ws: seq<Wr>) {
    && PostStep(x, x', ws) && NoData(ws)
    && x'.s.tx == x.s.tx && x'.h.sent == x.h.sent
    && (forall i :: 0 <= i < |ws| ==> IsCtrlWr(ws[i]) && WrOk(ws[i]))
  }

  lemma CtrlLog(x: End, x': End, ws: seq<Wr>)
    requires CtrlStepOf(x, x', ws) && LogOk(x.h)
    ensures LogOk(x'.h)
  {
    var log, log' := x.h.log, x'.h.log;
    UptoPosted(log, ws);
    PostedNoData(log, ws);
    forall i | 0 <= i < |log'| ensures WrOk(log'[i]) {
      if i < |log| { assert log'[i] == log[i]; } else { assert log'[i] == ws[i - |log|]; }
    }
    forall n | 0 <= n <= |log'| ensures Upto(log', n).told <= Upto(log', n).bytes {
      if n <= |log| { assert Upto(log', n) == Upto(log, n); }
    }
  }

  lemma CtrlRing(x: End, x': End, ws: seq<Wr>)
    requires CtrlStepOf(x, x', ws) && SendRingOk(x) && Shaped(x'.s)
    ensures SendRingOk(x')
  {
    var log, log' := x.h.log, x'.h.log;
    UptoPosted(log, ws);
    PostedNoData(log, ws);
    forall i | 0 <= i < |log'| ensures ArcOk(x', i) && (x.h.landed <= i ==> Readable(x', i)) {
      if i < |log| {
        assert log'[i] == log[i] && ArcOk(x, i) && (x.h.landed <= i ==> Readable(x, i));
      } else {
        assert log'[i] == ws[i - |log|];
      }
    }
  }

  lemma CtrlCounts(log: seq<Wr>, ws: seq<Wr>)
    requires 1 <= |ws| <= 2 && forall i :: 0 <= i < |ws| ==> IsCtrlWr(ws[i])
    ensures All(log + ws).ctrls == All(log).ctrls + |ws|
    ensures All(log + ws).sqes == All(log).sqes && All(log + ws).held == All(log).held
  {
    UptoPosted(log, ws);
  }

  /** The window test on wrapped counters leaves room for the new requests. */
  lemma CtrlQueue(x: End, x': End, ws: seq<Wr>)
    requires CtrlStepOf(x, x', ws) && QueueOk(x)
    requires if |ws| == 2 then TwoCtrlAvail(x.s.ctl) else CtrlAvail(x.s.ctl)
    requires x'.s.ctl.maxSeqno == x.s.ctl.maxSeqno
    requires x'.s.ctl.seqno == (x.s.ctl.seqno + |ws|) % U32
    ensures QueueOk(x')
  {
    CtrlCounts(x.h.log, ws);
    UptoPrefix(x.h.log, ws, x.h.completed);
    UptoGrows(x.h.log, x.h.completed, |x.h.log|);
    var t, d := All(x.h.log).ctrls, Upto(x.h.log, x.h.completed).ctrls;
    WindowRoom(t, d, |ws|);
    NextWrapped(t, |ws|);
  }

  lemma WindowRoom(t: nat, d: nat, n: nat)
    requires d <= t <= d + RS_QP_CTRL_SIZE && 1 <= n <= 2
    requires if n == 2 then TwoCtrlAvail(Ctl(t % U32, (d + RS_QP_CTRL_SIZE) % U32, []))
             else CtrlAvail(Ctl(t % U32, (d + RS_QP_CTRL_SIZE) % U32, []))
    ensures t + n <= d + RS_QP_CTRL_SIZE
  {
    if n == 2 {
      NextWrapped(t, 1);
      Int32Diff(t + 1, d + RS_QP_CTRL_SIZE);
    }
  }

  // ---- Keepalive --------------------------------------------------------------

  function Alived(x: End): End
    requires CtrlAvail(x.s.ctl)
  {
    Posted(x, Keepalive(x.s))
  }

  /** A control request that is no grant, credit or closing message. */
  predicate Plain(w: Wr) {
    !w.payload.ToSgl? && !IsCredit(w) && !IsFin(w)
  }

  lemma PlainGrants(x: End, x': End, w: Wr)
    requires CtrlStepOf(x, x', [w]) && !w.payload.ToSgl? && GrantsOk(x)
    requires x'.s.rx == x.s.rx && x'.s.ctl.buf == x.s.ctl.buf
    ensures GrantsOk(x')
  {
    UptoPosted(x.h.log, [w]);
    forall i | 0 <= i < |x'.h.log| ensures GrantWrOk(x', i) && (x.h.landed <= i ==> GrantPending(x', i)) {
      if i < |x.h.log| {
        assert x'.h.log[i] == x.h.log[i] && GrantWrOk(x, i) && (x.h.landed <= i ==> GrantPending(x, i));
      }
    }
  }

  lemma PlainCredits(x: End, x': End, w: Wr)
    requires CtrlStepOf(x, x', [w]) && !IsCredit(w) && CreditsOk(x)
    requires x'.s.rx == x.s.rx && x'.h.creds == x.h.creds
    ensures CreditsOk(x')
  {
    UptoPosted(x.h.log, [w]);
    forall i | 0 <= i < |x'.h.log| ensures CreditWrOk(x', i) {
      if i < |x.h.log| { assert x'.h.log[i] == x.h.log[i] && CreditWrOk(x, i); }
    }
  }

  lemma PlainFins(x: End, x': End, ws: seq<Wr>)
    requires CtrlStepOf(x, x', ws) && FinsOk(x)
    requires forall i :: 0 <= i < |ws| ==> !IsFin(ws[i])
    requires x'.s.life == x.s.life && x'.h.shutAt == x.h.shutAt
    ensures FinsOk(x')
  {
    UptoPosted(x.h.log, ws);
    forall i | 0 <= i < |x'.h.log| ensures FinWrOk(x'.h, i) {
      if i < |x.h.log| { assert x'.h.log[i] == x.h.log[i] && FinWrOk(x.h, i); }
      else { assert x'.h.log[i] == ws[i - |x.h.log|]; }
    }
  }

  lemma AlivedFacts(x: End)
    requires CtrlAvail(x.s.ctl)
    ensures var x', w := Alived(x), Wr(NoPayload, None, MsgSet(OP_CTRL, CTRL_KEEPALIVE));
            && CtrlStepOf(x, x', [w]) && Plain(w) && !IsOwnDisconnect(w)
            && x'.s == x.s.(ctl := x.s.ctl.(seqno := (x.s.ctl.seqno + 1) % U32))
            && x'.h == x.h.(log := x.h.log + [w])
  {
    MsgRoundTrip(OP_CTRL, CTRL_KEEPALIVE);
  }

  lemma AliveKeepsEnd(x: End)
    requires CtrlAvail(x.s.ctl) && EndOk(x)
    ensures EndOk(Alived(x))
  {
    var x', w := Alived(x), Wr(NoPayload, None, MsgSet(OP_CTRL, CTRL_KEEPALIVE));
    AlivedFacts(x);
    CtrlLog(x, x', [w]);
    CtrlRing(x, x', [w]);
    CtrlQueue(x, x', [w]);
    PlainGrants(x, x', w);
    PlainCredits(x, x', w);
    PlainFins(x, x', [w]);
  }

  lemma AliveKeepsOut(x: End, y: End)
    requires CtrlAvail(x.s.ctl) && Flow(x, y) && EndOk(Alived(x))
    ensures Flow(Alived(x), y)
  {
    AlivedFacts(x);
    CtrlKeepsOut(x, y, Alived(x), [Wr(NoPayload, None, MsgSet(OP_CTRL, CTRL_KEEPALIVE))]);
  }

  lemma AliveKeepsIn(x: End, y: End)
    requires CtrlAvail(x.s.ctl) && Flow(y, x) && EndOk(Alived(x))
    ensures Flow(y, Alived(x))
  {
    var ws := [Wr(NoPayload, None, MsgSet(OP_CTRL, CTRL_KEEPALIVE))];
    AlivedFacts(x);
    PostFinIn(y, x, Alived(x), ws);
    PostKeepsIn(y, x, Alived(x), ws);
  }

  lemma AliveKeeps(x: End, y: End)
    requires CtrlAvail(x.s.ctl) && Inv(Pair(x, y))
    ensures Inv(Pair(Alived(x), y))
  {
    AliveKeepsEnd(x);
    AliveKeepsOut(x, y);
    AliveKeepsIn(x, y);
  }

  // ---- Shutdown message -------------------------------------------------------

  predicate CanPost(x: End) {
    && x.s.life.pending.Some? && x.s.life.pending.value < MSG_UNIT
    && (CtrlAvail(x.s.ctl) || !x.s.life.connected)
  }

  function PostedFin(x: End): End
    requires CanPost(x)
  {
    Posted(x, ShutPost(x.s))
  }

  function FinWr(x: End): Wr
    requires CanPost(x)
  {
    var msg := MsgSet(OP_CTRL, x.s.life.pending.value);
    Wr(NoPayload, Some(msg), msg)
  }

  lemma PostedFinFacts(x: End)
    requires CanPost(x) && x.s.life.connected && FinsOk(x)
    ensures var x', w := PostedFin(x), FinWr(x);
            && CtrlStepOf(x, x', [w]) && !w.payload.ToSgl? && !IsCredit(w) && IsFin(w)
            && (IsOwnDisconnect(w) ==> x.s.life.pending == Some(CTRL_DISCONNECT))
            && x'.s == x.s.(ctl := x.s.ctl.(seqno := (x.s.ctl.seqno + 1) % U32),
                            life := x.s.life.(pending := None))
            && x'.h == x.h.(log := x.h.log + [w])
  {
    MsgRoundTrip(OP_CTRL, x.s.life.pending.value);
  }

  lemma PostedFins(x: End)
    requires CanPost(x) && x.s.life.connected && FinsOk(x) && LogOk(x.h)
    ensures FinsOk(PostedFin(x))
  {
    var x', w := PostedFin(x), FinWr(x);
    PostedFinFacts(x);
    UptoPosted(x.h.log, [w]);
    forall i | 0 <= i < |x'.h.log| ensures FinWrOk(x'.h, i) {
      if i < |x.h.log| { assert x'.h.log[i] == x.h.log[i] && FinWrOk(x.h, i); }
    }
  }

  lemma PostKeepsEnd(x: End)
    requires CanPost(x) && x.s.life.connected && EndOk(x)
    ensures EndOk(PostedFin(x))
  {
    var x', w := PostedFin(x), FinWr(x);
    PostedFinFacts(x);
    CtrlLog(x, x', [w]);
    CtrlRing(x, x', [w]);
    CtrlQueue(x, x', [w]);
    PlainGrants(x, x', w);
    PlainCredits(x, x', w);
    PostedFins(x);
  }

  lemma PostFinFlow(x: End, y: End)
    requires CanPost(x) && x.s.life.connected && FinsOk(x) && FlowFin(y, x)
    ensures FlowFin(y, PostedFin(x))
  {
    var x', w := PostedFin(x), FinWr(x);
    PostedFinFacts(x);
    assert forall i :: 0 <= i < |x.h.log| ==> x'.h.log[i] == x.h.log[i];
  }

  lemma PostKeepsFlowOut(x: End, y: End)
    requires CanPost(x) && x.s.life.connected && Flow(x, y) && EndOk(PostedFin(x))
    ensures Flow(PostedFin(x), y)
  {
    PostedFinFacts(x);
    CtrlKeepsOut(x, y, PostedFin(x), [FinWr(x)]);
  }

  lemma PostKeepsFlowIn(x: End, y: End)
    requires CanPost(x) && x.s.life.connected && Flow(y, x) && EndOk(PostedFin(x))
    ensures Flow(y, PostedFin(x))
  {
    PostedFinFacts(x);
    PostFinFlow(x, y);
    PostKeepsIn(y, x, PostedFin(x), [FinWr(x)]);
  }

  /** A shutdown that finds the connection gone only forgets its message. */
  lemma ForgetKeeps(x: End, y: End)
    requires CanPost(x) && !x.s.life.connected && Inv(Pair(x, y))
    ensures Inv(Pair(PostedFin(x), y))
  {
    assert x.h.log + [] == x.h.log;
    var x' := x.(s := x.s.(life := x.s.life.(pending := None)));
    assert PostedFin(x) == x';
    assert FinsOk(x') && FlowFin(y, x');
    LifeKeeps(x, y, x');
  }

  lemma PostKeeps(x: End, y: End)
    requires CanPost(x) && Inv(Pair(x, y))
    ensures Inv(Pair(PostedFin(x), y))
  {
    if x.s.life.connected {
      PostKeepsEnd(x);
      PostKeepsFlowOut(x, y);
      PostKeepsFlowIn(x, y);
    } else {
      ForgetKeeps(x, y);
    }
  }

  // ---- Starting a shutdown ----------------------------------------------------

  function Marked(x: End, how: How): End {
    End(ShutMark(x.s, how),
        x.h.(readShut := x.h.readShut || !how.ShutWr?,
             shutAt := if how.ShutRd? || x.h.shutAt.Some? then x.h.shutAt else Some(|x.h.sent|)))
  }

  lemma MarkFins(x: End, how: How)
    requires x.s.life.connected && FinsOk(x) && LogOk(x.h)
    ensures FinsOk(Marked(x, how))
  {
    var x' := Marked(x, how);
    assert forall i :: 0 <= i < |x.h.log| ==> FinWrOk(x.h, i) ==> FinWrOk(x'.h, i);
  }

  lemma MarkKeeps(x: End, y: End, how: How)
    requires x.s.life.connected && Inv(Pair(x, y))
    ensures Inv(Pair(Marked(x, how), y))
  {
    MarkFins(x, how);
    assert FlowFin(y, Marked(x, how));
    LifeKeeps(x, y, Marked(x, how));
  }
}

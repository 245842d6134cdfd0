/** The largest receive queue the library allows is the largest one that works: with one entry
    more, a run of the protocol ends in a state from which the sender never sends again. */
module RsQueueLimit {
  import opened Wrappers
  import opened RsWire
  import opened RsSocket
  import opened RsProtocol
  import opened RsInvariant
  import opened RsRuns
  import opened RsClosure
  import opened RsLiveness

  // ---- A sender that stays stuck --------------------------------------------------

  predicate NoneFrom(log: seq<Wr>, n: nat, data: bool) {
    forall i :: n <= i < |log| ==> if data then !IsDataMsg(log[i]) else !IsCredit(log[i])
  }

  /** `x` has no credits left, no credits are on their way to it, and `y` will return none:
      it has nothing to read and neither of its two tests for an update holds. */
  predicate Stuck(x: End, y: End) {
    && x.s.tx.sseqNo == x.s.tx.sseqComp
    && NoneFrom(x.h.log, x.h.polled, true) && NoneFrom(y.h.log, y.h.polled, false)
    && !HaveRdata(y.s)
    && y.s.rx.rbufBytesAvail < y.s.cfg.Half() && ToShort(y.s.rx.rseqNo - y.s.rx.rseqComp) < 0
  }

  lemma NoneFromPosted(log: seq<Wr>, n: nat, data: bool, ws: seq<Wr>)
    requires NoneFrom(log, n, data) && NoneFrom(ws, 0, data)
    ensures NoneFrom(log + ws, n, data)
  {
  }

  lemma CtrlIsNeither(data: nat)
    requires data < MSG_UNIT
    ensures MsgOp(MsgSet(OP_CTRL, data)) == OP_CTRL
  {
    MsgRoundTrip(OP_CTRL, data);
  }

  /** A step of the stuck sender. */
  lemma SenderStaysStuck(st: Step, p: Pair)
    requires Stuck(p.x, p.y) && CanDo(st, p)
    ensures !st.Send? && Stuck(Do(st, p).x, Do(st, p).y)
  {
    var x, q := p.x, Do(st, p);
    match st
    case Credit => NoneFromPosted(x.h.log, x.h.polled, true, SendCredits(x.s).posted);
    case Post =>
      CtrlIsNeither(x.s.life.pending.value);
      NoneFromPosted(x.h.log, x.h.polled, true, ShutPost(x.s).posted);
    case Alive => NoneFromPosted(x.h.log, x.h.polled, true, Keepalive(x.s).posted);
    case _ =>
  }

  /** A step of the reader. */
  lemma ReaderStaysStuck(st: Step, p: Pair)
    requires Stuck(p.y, p.x) && CanDo(st, p)
    ensures Stuck(Do(st, p).y, Do(st, p).x)
  {
    var x := p.x;
    match st
    case Send(data, path) => NoneFromPosted(x.h.log, x.h.polled, false, SendChunk(x.s, data, path).posted);
    case Post =>
      CtrlIsNeither(x.s.life.pending.value);
      NoneFromPosted(x.h.log, x.h.polled, false, ShutPost(x.s).posted);
    case Alive => NoneFromPosted(x.h.log, x.h.polled, false, Keepalive(x.s).posted);
    case _ =>
  }

  /** No run lets it send again. */
  lemma {:induction false} StuckForever(s: Sys, es: seq<Event>)
    requires Stuck(s.a, s.b) && Legal(s, es)
    ensures Stuck(After(s, es).a, After(s, es).b) && Accepted(es, SideA) == []
    decreases |es|
  {
    if es != [] {
      var pre, e := es[..|es| - 1], es[|es| - 1];
      StuckForever(s, pre);
      var v := View(After(s, pre), e.side);
      if e.side.SideA? { SenderStaysStuck(e.step, v); } else { ReaderStaysStuck(e.step, v); }
    }
  }

  // ---- A run that gets there --------------------------------------------------------

  const SENDER := Config(131072, 131072, 384, 384, 64, false)

  /** The reader's receive queue has one entry too many. */
  const READER := SENDER.(rqSize := RS_QP_MAX_SIZE + 1)

  const ALL: nat := RS_QP_MAX_SIZE + 1

  /** The sender after `k` messages of one byte each, all carried out, `j` of them handled. */
  predicate SenderAt(e: End, k: nat, j: nat) {
    && k <= ALL && Shaped(e.s) && e.s.cfg == SENDER && e.s.tx.sseqNo == k && e.s.tx.sseqComp == ALL
    && e.s.tx.targetSge == 0 && e.s.tx.targetSgl[0] == Sge(k, 65536 - k)
    && e.s.tx.sqeAvail == 380 && e.s.tx.sbufBytesAvail == 131072
    && |e.h.log| == e.h.landed == e.h.completed == k && e.h.polled == j <= k
    && (forall i :: 0 <= i < k ==> e.h.log[i].msg == Some(DataMsg(1)))
  }

  /** The reader once `j` messages were handled and `r` of them read. */
  predicate ReaderAt(e: End, j: nat, r: nat) {
    && Shaped(e.s) && e.s.cfg == READER && e.s.rx.rseqNo == r && e.s.rx.rseqComp == ALL / 2
    && e.s.rx.rbufBytesAvail == r && e.s.rx.rmsgHead == r <= e.s.rx.rmsgTail == j
    && (forall i :: r <= i < j ==> e.s.rx.rmsg[i] == 1)
    && |e.h.log| == e.h.landed == e.h.polled == 1 && e.h.nread == r && e.h.creds == [0]
  }

  predicate At(s: Sys, k: nat, j: nat, r: nat) { SenderAt(s.a, k, j) && ReaderAt(s.b, j, r) }

  function A(st: Step): Event { Event(SideA, st) }

  function B(st: Step): Event { Event(SideB, st) }

  // At the start half of the ring is free, so the reader grants it.

  /** The reader's request for the grant. */
  predicate GrantWr(w: Wr) {
    w.payload == ToSgl(1, GrantInline(Sge(65536, 65536))) && w.msg == Some(CreditMsg(ALL))
  }

  lemma GrantPosted() returns (s: Sys)
    ensures Happens(Start(SENDER, READER), B(Credit), s) && s.a == Start(SENDER, READER).a
    ensures ReaderAt(s.b.(h := s.b.h.(landed := 1, polled := 1)), 0, 0)
    ensures s.b.h.landed == s.b.h.polled == 0 && GrantWr(s.b.h.log[0])
  {
    var s0 := Start(SENDER, READER);
    s := Sys(s0.a, Do(Credit, View(s0, SideB)).x);
  }

  lemma GrantLanded(s: Sys) returns (t: Sys)
    requires s.a == Start(SENDER, READER).a && ReaderAt(s.b.(h := s.b.h.(landed := 1, polled := 1)), 0, 0)
    requires s.b.h.landed == s.b.h.polled == 0 && GrantWr(s.b.h.log[0])
    ensures Happens(s, B(Land), t) && SenderAt(t.a, 0, 0)
    ensures ReaderAt(t.b.(h := t.b.h.(polled := 1)), 0, 0) && t.b.h.polled == 0 && GrantWr(t.b.h.log[0])
  {
    var p := Do(Land, View(s, SideB));
    t := Sys(p.y, p.x);
  }

  lemma GrantHeard(s: Sys) returns (t: Sys)
    requires SenderAt(s.a, 0, 0)
    requires ReaderAt(s.b.(h := s.b.h.(polled := 1)), 0, 0) && s.b.h.polled == 0 && GrantWr(s.b.h.log[0])
    ensures Happens(s, A(PollRecv), t) && At(t, 0, 0, 0)
  {
    var p := Do(PollRecv, View(s, SideA));
    t := Sys(p.x, p.y);
  }

  lemma Granted() returns (es: seq<Event>, s: Sys)
    ensures Leads(Start(SENDER, READER), es, s) && At(s, 0, 0, 0)
  {
    var s0 := Start(SENDER, READER);
    var e1 := [B(Credit)];
    var e2 := e1 + [B(Land)];
    es := e2 + [A(PollRecv)];
    var s1 := GrantPosted();
    OneMore(s0, [], s0, B(Credit), s1, e1);
    var s2 := GrantLanded(s1);
    OneMore(s0, e1, s1, B(Land), s2, e2);
    s := GrantHeard(s2);
    OneMore(s0, e2, s2, A(PollRecv), s, es);
  }

  // One message is sent, carried out and completed.

  predicate Posted1(s: Sys, k: nat) {
    && k < ALL && ReaderAt(s.b, 0, 0)
    && Shaped(s.a.s) && s.a.s.cfg == SENDER && s.a.s.tx.sseqNo == k + 1 && s.a.s.tx.sseqComp == ALL
    && s.a.s.tx.targetSge == 0 && s.a.s.tx.targetSgl[0] == Sge(k + 1, 65536 - k - 1)
    && s.a.s.tx.sqeAvail == 379 && s.a.s.tx.sbufBytesAvail == 131071
    && |s.a.h.log| == k + 1 && s.a.h.completed == k && s.a.h.polled == 0
    && (forall i :: 0 <= i < k + 1 ==> s.a.h.log[i].msg == Some(DataMsg(1)))
    && s.a.h.log[k].wrData == DataMsg(1) && s.a.h.log[k].payload.ToRing?
    && s.a.h.log[k].payload.addr == k && s.a.h.log[k].payload.src == Source(0, 0, 0, Some([0]))
  }

  lemma SendOne(s: Sys, k: nat) returns (t: Sys)
    requires At(s, k, 0, 0) && k < ALL
    ensures Happens(s, A(Send([0], Direct)), t) && Posted1(t, k) && t.a.h.landed == k
  {
    t := Sys(Do(Send([0], Direct), View(s, SideA)).x, s.b);
  }

  lemma LandOne(s: Sys, k: nat) returns (t: Sys)
    requires Posted1(s, k) && s.a.h.landed == k
    ensures Happens(s, A(Land), t) && Posted1(t, k) && t.a.h.landed == k + 1
  {
    var p := Do(Land, View(s, SideA));
    t := Sys(p.x, p.y);
  }

  lemma CompleteOne(s: Sys, k: nat) returns (t: Sys)
    requires Posted1(s, k) && s.a.h.landed == k + 1
    ensures Happens(s, A(PollSend), t) && At(t, k + 1, 0, 0)
  {
    t := Sys(Do(PollSend, View(s, SideA)).x, s.b);
  }

  lemma HandleOne(s: Sys, j: nat) returns (t: Sys)
    requires At(s, ALL, j, 0) && j < ALL
    ensures Happens(s, B(PollRecv), t) && At(t, ALL, j + 1, 0)
  {
    var p := Do(PollRecv, View(s, SideB));
    t := Sys(p.y, p.x);
  }

  lemma ReadOne(s: Sys, r: nat) returns (t: Sys)
    requires At(s, ALL, ALL, r) && r < ALL
    ensures Happens(s, B(Recv(1)), t) && At(t, ALL, ALL, r + 1)
  {
    t := Sys(s.a, Do(Recv(1), View(s, SideB)).x);
  }

  /** `k` messages are sent, then `j` handled, then `r` read. */
  lemma {:induction false} RunTo(k: nat, j: nat, r: nat) returns (es: seq<Event>, s: Sys)
    requires k <= ALL && (0 < j ==> k == ALL) && j <= ALL && (0 < r ==> j == ALL) && r <= ALL
    ensures Leads(Start(SENDER, READER), es, s) && At(s, k, j, r)
    decreases k + j + r
  {
    var s0 := Start(SENDER, READER);
    if 0 < r {
      var pre, t := RunTo(k, j, r - 1);
      s := ReadOne(t, r - 1);
      es := pre + [B(Recv(1))];
      OneMore(s0, pre, t, B(Recv(1)), s, es);
    } else if 0 < j {
      var pre, t := RunTo(k, j - 1, r);
      s := HandleOne(t, j - 1);
      es := pre + [B(PollRecv)];
      OneMore(s0, pre, t, B(PollRecv), s, es);
    } else if 0 < k {
      var pre, t := RunTo(k - 1, j, r);
      es, s := RoundOn(pre, t, k - 1);
    } else {
      es, s := Granted();
    }
  }

  lemma RoundOn(pre: seq<Event>, s: Sys, k: nat) returns (es: seq<Event>, t: Sys)
    requires Leads(Start(SENDER, READER), pre, s) && At(s, k, 0, 0) && k < ALL
    ensures Leads(Start(SENDER, READER), es, t) && At(t, k + 1, 0, 0)
  {
    var s0 := Start(SENDER, READER);
    var e1 := pre + [A(Send([0], Direct))];
    var e2 := e1 + [A(Land)];
    var s1 := SendOne(s, k);
    OneMore(s0, pre, s, A(Send([0], Direct)), s1, e1);
    var s2 := LandOne(s1, k);
    OneMore(s0, e1, s1, A(Land), s2, e2);
    t := CompleteOne(s2, k);
    es := e2 + [A(PollSend)];
    OneMore(s0, e2, s2, A(PollSend), t, es);
  }

  /** The unbounded counters call for new credits and the wrapped 16-bit test does not see it. */
  predicate TestWrong(y: End) {
    && y.h.nread >= CredAt(y.h.creds, |y.h.creds|) + y.s.cfg.rqSize / 2
    && ToShort(y.s.rx.rseqNo - y.s.rx.rseqComp) < 0
  }

  /** The reader has one queue entry too many: some run, in which all that was sent was read,
      ends where its test is wrong and the sender is without credits for ever. */
  lemma LargerQueueBreaksTest()
    ensures !READER.Good() && READER.(rqSize := RS_QP_MAX_SIZE).Good() && SENDER.Good()
    ensures exists es, s :: && Leads(Start(SENDER, READER), es, s) && !HaveRdata(s.b.s)
                            && TestWrong(s.b) && Stuck(s.a, s.b)
  {
    var es, s := RunTo(ALL, ALL, ALL);
    assert Stuck(s.a, s.b);
  }

  /** With the sizes the library allows, no connection that nobody is closing is ever stuck. */
  lemma AllowedNeverSticks(p: Pair)
    requires Reachable(p) && StaysOpen(p)
    ensures !Stuck(p.x, p.y)
  {
    if Stuck(p.x, p.y) {
      SenderCanGoOn(p);
      var es :| Frees(Sys(p.x, p.y), es);
      StuckForever(Sys(p.x, p.y), es);
      assert false;
    }
  }
}

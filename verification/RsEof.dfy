/** Whether a shutdown reaches the peer: when some run brings the reader to the end of the
    stream, and two shutdowns that cross. */
module RsEof {
  import opened Wrappers
  import opened RsWire
  import opened RsSocket
  import opened RsProtocol
  import opened RsRuns
  import opened RsInvariant
  import opened RsClosure
  import opened RsDelivery
  import opened RsProgress
  import opened RsLiveness
  import opened RsLife
  import RsProofCtrl

  // ---- End of stream gets through -----------------------------------------------------------

  /** The reader, which closed nothing more, has every byte that was accepted and sees end of
      stream. */
  ghost predicate ReachesEof(s: Sys, es: seq<Event>) {
    && Legal(s, es) && NoSends(es)
    && var s' := After(s, es);
    && s'.b.h.readShut == s.b.h.readShut
    && s'.a.h.sent == s.a.h.sent && s'.b.h.read == s'.a.h.sent && AtEof(s'.b.s)
  }

  /** A closing message of `x` is posted, or the reader closed its read side itself. */
  predicate Closing(p: Pair) {
    p.y.h.readShut || exists i :: 0 <= i < |p.x.h.log| && IsFin(p.x.h.log[i])
  }

  lemma ReadOutIsEmpty(p: Pair)
    requires Reachable(p) && Drained(p.x.h) && p.y.h.read == p.x.h.sent
    ensures !HaveRdata(p.y.s)
  {
    ReachableInv(p);
    AllMessagesRead(p.x, p.y);
  }

  /** Once a closing message is posted, landings, completions and reads alone bring the reader
      to the end of the stream, with every byte. */
  lemma FinGetsThrough(p: Pair) returns (es: seq<Event>)
    requires Reachable(p) && Closing(p)
    ensures AllFinishing(es) && ReachesEof(Sys(p.x, p.y), es)
  {
    var q;
    es, q := Finish(p);
    WorkBound(q);
    ReadOutIsEmpty(q);
    ReachableSwap(q);
    BitsExact(Swap(q));
    if !p.y.h.readShut {
      var i :| 0 <= i < |p.x.h.log| && IsFin(p.x.h.log[i]);
      assert i < q.x.h.polled && IsFin(q.x.h.log[i]);
    }
  }

  /** A state in which `x` has done more of its own requests and closed nothing. */
  ghost predicate Onward(p: Pair, q: Pair) {
    && Reachable(q) && q.x.h.log == p.x.h.log && q.x.s.life == p.x.s.life
    && q.x.h.sent == p.x.h.sent && q.y.h.readShut == p.y.h.readShut
  }

  lemma OwnStep(p: Pair, st: Step)
    requires Reachable(p) && CanDo(st, p) && (st.Land? || st.PollSend?)
    requires forall i :: 0 <= i < |p.x.h.log| ==> !IsFin(p.x.h.log[i])
    ensures var q := Do(st, p);
            Onward(p, q) && q.x.h.landed + q.x.h.completed == p.x.h.landed + p.x.h.completed + 1
  {
    ReachableStep(p, st);
    ReachableLife(p);
    if st.PollSend? { assert OwnIsTheirs(p.x.h.log[p.x.h.completed]); }
  }

  lemma OwnNext(p: Pair) returns (e: Event, q: Pair)
    requires Reachable(p) && p.x.h.completed != |p.x.h.log|
    requires forall i :: 0 <= i < |p.x.h.log| ==> !IsFin(p.x.h.log[i])
    ensures Finishing(e.step) && Happens(Sys(p.x, p.y), e, Sys(q.x, q.y)) && Onward(p, q)
    ensures p.x.h.landed + p.x.h.completed < q.x.h.landed + q.x.h.completed <= 2 * |p.x.h.log|
  {
    QueueHolds(p);
    e := Event(SideA, if p.x.h.landed < |p.x.h.log| then Land else PollSend);
    NeverOutOfBounds(p, e.step);
    OwnStep(p, e.step);
    q := Do(e.step, p);
    QueueHolds(q);
  }

  /** One end can carry out and complete all its requests by itself. */
  lemma {:induction false} CompleteOwn(p: Pair) returns (es: seq<Event>, q: Pair)
    requires Reachable(p) && forall i :: 0 <= i < |p.x.h.log| ==> !IsFin(p.x.h.log[i])
    ensures AllFinishing(es) && Leads(Sys(p.x, p.y), es, Sys(q.x, q.y))
    ensures Onward(p, q) && q.x.h.completed == |q.x.h.log|
    decreases 2 * |p.x.h.log| - p.x.h.landed - p.x.h.completed
  {
    if p.x.h.completed == |p.x.h.log| {
      es, q := [], p;
    } else {
      var e, p1 := OwnNext(p);
      var fs;
      fs, q := CompleteOwn(p1);
      LegalCons(Sys(p.x, p.y), e, fs);
      es := [e] + fs;
    }
  }

  lemma PostFin(q: Pair) returns (r: Pair)
    requires Reachable(q) && q.x.s.life.connected && q.x.s.life.pending.Some? && q.x.h.completed == |q.x.h.log|
    ensures Happens(Sys(q.x, q.y), Event(SideA, Post), Sys(r.x, r.y)) && Reachable(r) && r.x.h.sent == q.x.h.sent
    ensures r.y == q.y && Closing(r)
  {
    QueueHolds(q);
    ResourcesBack(q.x);
    NeverOutOfBounds(q, Post);
    r := Do(Post, q);
    ReachableInv(q);
    DoPost(q);
    RsProofCtrl.PostedFinFacts(q.x);
    assert r.x.h.log[|q.x.h.log|] == RsProofCtrl.FinWr(q.x);
  }

  lemma EofLater(s: Sys, es: seq<Event>, t: Sys, fs: seq<Event>)
    requires Leads(s, es, t) && NoSends(es) && t.a.h.sent == s.a.h.sent && t.b.h.readShut == s.b.h.readShut
    requires ReachesEof(t, fs)
    ensures ReachesEof(s, es + fs)
  {
    LegalAppend(s, es, t, fs, After(t, fs));
  }

  /** A shutdown message that waits for a control slot can be posted and gets through. */
  lemma PendingGetsThrough(p: Pair) returns (es: seq<Event>)
    requires Reachable(p) && p.x.s.life.connected && p.x.s.life.pending.Some? && !Closing(p)
    ensures ReachesEof(Sys(p.x, p.y), es)
  {
    var s, post := Sys(p.x, p.y), Event(SideA, Post);
    var es0, q := CompleteOwn(p);
    var r := PostFin(q);
    var fs := FinGetsThrough(r);
    OneMore(s, es0, Sys(q.x, q.y), post, Sys(r.x, r.y), es0 + [post]);
    EofLater(s, es0 + [post], Sys(r.x, r.y), fs);
    es := es0 + [post] + fs;
  }

  /** An end that lost its connection before its closing message was posted posts none. */
  lemma SilentStep(s: Sys, e: Event)
    requires CanDo(e.step, View(s, e.side)) && Reachable(View(s, e.side))
    requires !s.a.s.life.connected && forall i :: 0 <= i < |s.a.h.log| ==> !IsFin(s.a.h.log[i])
    ensures var s' := Back(Do(e.step, View(s, e.side)), e.side);
            !s'.a.s.life.connected && forall i :: 0 <= i < |s'.a.h.log| ==> !IsFin(s'.a.h.log[i])
  {
    var p := View(s, e.side);
    match e.step
    case Send(data, path) => SendIsOpen(p, data, path);
    case Credit => GiveIsOpen(p);
    case Alive => AliveIsOpen(p);
    case _ =>
  }

  lemma {:induction false} SilentForever(s: Sys, es: seq<Event>)
    requires Legal(s, es) && Reachable(Pair(s.a, s.b))
    requires !s.a.s.life.connected && forall i :: 0 <= i < |s.a.h.log| ==> !IsFin(s.a.h.log[i])
    ensures var s' := After(s, es);
            && Reachable(Pair(s'.a, s'.b))
            && !s'.a.s.life.connected && forall i :: 0 <= i < |s'.a.h.log| ==> !IsFin(s'.a.h.log[i])
    decreases |es|
  {
    if es != [] {
      var pre, e := es[..|es| - 1], es[|es| - 1];
      SilentForever(s, pre);
      ReachableSwap(Pair(After(s, pre).a, After(s, pre).b));
      SilentStep(After(s, pre), e);
      EventReachable(After(s, pre), e, SideA);
    }
  }

  /** An end that shut down its write side: some run without another send brings its peer, which
      closes nothing more itself, to the end of the stream with every byte, exactly when that
      end is still connected, or its closing message is posted, or the peer had closed its read
      side. */
  lemma ShutdownGetsThroughIff(p: Pair)
    requires Reachable(p) && p.x.h.shutAt.Some?
    ensures (exists es :: ReachesEof(Sys(p.x, p.y), es)) <==> p.x.s.life.connected || Closing(p)
  {
    if Closing(p) {
      var es := FinGetsThrough(p);
    } else if p.x.s.life.connected {
      BitsExact(p);
      PeerIsTold(p);
      var es := PendingGetsThrough(p);
    } else if exists es :: ReachesEof(Sys(p.x, p.y), es) {
      var es :| ReachesEof(Sys(p.x, p.y), es);
      SilentForever(Sys(p.x, p.y), es);
      var s' := After(Sys(p.x, p.y), es);
      ReachableSwap(Pair(s'.a, s'.b));
      BitsExact(Pair(s'.b, s'.a));
      assert false;
    }
  }

  // ---- Two shutdowns that cross ------------------------------------------------------------

  const SMALL := Config(8, 2048, 16, 16, 64, false)

  function A(st: Step): Event { Event(SideA, st) }

  function B(st: Step): Event { Event(SideB, st) }

  /** One end has used `k` control slots for keepalives; nothing else happened. */
  predicate Beating(s: Sys, k: nat) {
    && k <= RS_QP_CTRL_SIZE && Shaped(s.a.s) && s.a.s.life == Life(true, true, true, None)
    && s.a.s.ctl.seqno == k && s.a.s.ctl.maxSeqno == RS_QP_CTRL_SIZE
    && (forall i :: 0 <= i < |s.a.h.log| ==> !IsFin(s.a.h.log[i]))
    && s.a.h.polled == 0 && s.a.h.shutAt.None? && s.b == Start(SMALL, SMALL).b
  }

  lemma BeatOnce(s: Sys, k: nat) returns (t: Sys)
    requires Beating(s, k) && k < RS_QP_CTRL_SIZE
    ensures Happens(s, A(Alive), t) && Beating(t, k + 1)
  {
    AliveIsOpen(View(s, SideA));
    t := Sys(Do(Alive, View(s, SideA)).x, s.b);
  }

  lemma {:induction false} BeatsOn(k: nat) returns (es: seq<Event>, s: Sys)
    requires k <= RS_QP_CTRL_SIZE
    ensures Leads(Start(SMALL, SMALL), es, s) && Beating(s, k)
  {
    if k == 0 {
      es, s := [], Start(SMALL, SMALL);
    } else {
      var pre, t := BeatsOn(k - 1);
      s := BeatOnce(t, k - 1);
      es := pre + [A(Alive)];
      OneMore(Start(SMALL, SMALL), pre, t, A(Alive), s, es);
    }
  }

  /** One end shut down its write side and waits for a control slot; the shutdown message of
      the other has landed. */
  predicate Crossing(s: Sys) {
    && Shaped(s.a.s) && s.a.s.life == Life(true, true, false, Some(CTRL_SHUTDOWN)) && !CtrlAvail(s.a.s.ctl)
    && (forall i :: 0 <= i < |s.a.h.log| ==> !IsFin(s.a.h.log[i])) && s.a.h.shutAt.Some?
    && s.b.h.polled == 0 && s.b.h.landed == |s.b.h.log| == 1 && !s.b.h.readShut
    && s.b.h.log[0].msg == Some(MsgSet(OP_CTRL, CTRL_SHUTDOWN))
  }

  lemma MarkFirst(s: Sys) returns (t: Sys)
    requires Beating(s, RS_QP_CTRL_SIZE)
    ensures Happens(s, A(Mark(ShutWr)), t) && t.b == s.b && t.a.h.shutAt.Some? && t.a.h.log == s.a.h.log
    ensures Shaped(t.a.s) && t.a.s.life == Life(true, true, false, Some(CTRL_SHUTDOWN)) && !CtrlAvail(t.a.s.ctl)
  {
    t := Sys(Do(Mark(ShutWr), View(s, SideA)).x, s.b);
  }

  /** The other end shuts down its write side; its message is posted and carried out. */
  lemma OtherShuts(s: Sys) returns (t1: Sys, t2: Sys, t3: Sys)
    requires s.b == Start(SMALL, SMALL).b
    ensures Happens(s, B(Mark(ShutWr)), t1) && Happens(t1, B(Post), t2) && Happens(t2, B(Land), t3)
    ensures t3.a == s.a && t3.b.h.polled == 0 && t3.b.h.landed == |t3.b.h.log| == 1
    ensures t3.b.h.log[0].msg == Some(MsgSet(OP_CTRL, CTRL_SHUTDOWN)) && !t3.b.h.readShut
  {
    t1 := Sys(s.a, Do(Mark(ShutWr), View(s, SideB)).x);
    t2 := Sys(s.a, Do(Post, View(t1, SideB)).x);
    assert t2.b.h.log == [Wr(NoPayload, Some(MsgSet(OP_CTRL, CTRL_SHUTDOWN)), MsgSet(OP_CTRL, CTRL_SHUTDOWN))];
    var p := Do(Land, View(t2, SideB));
    t3 := Sys(p.y, p.x);
  }

  lemma Crosses() returns (es: seq<Event>, s: Sys)
    ensures Leads(Start(SMALL, SMALL), es, s) && Crossing(s)
  {
    var s0 := Start(SMALL, SMALL);
    var pre, t := BeatsOn(RS_QP_CTRL_SIZE);
    var t0 := MarkFirst(t);
    var e0 := pre + [A(Mark(ShutWr))];
    OneMore(s0, pre, t, A(Mark(ShutWr)), t0, e0);
    var t1, t2, t3 := OtherShuts(t0);
    OneMore(s0, e0, t0, B(Mark(ShutWr)), t1, e0 + [B(Mark(ShutWr))]);
    OneMore(s0, e0 + [B(Mark(ShutWr))], t1, B(Post), t2, e0 + [B(Mark(ShutWr))] + [B(Post)]);
    es, s := e0 + [B(Mark(ShutWr))] + [B(Post)] + [B(Land)], t3;
    OneMore(s0, e0 + [B(Mark(ShutWr))] + [B(Post)], t2, B(Land), s, es);
  }

  /** When two shutdowns cross and the control slots of one end are taken, that end gives up its
      connection before its message is posted, and its peer waits for ever: no run without
      another send brings it to the end of the stream. */
  lemma CrossingShutdownsHang()
    ensures SMALL.Good()
    ensures exists es, s :: && Leads(Start(SMALL, SMALL), es, s) && s.a.h.shutAt.Some? && !s.b.h.readShut
                            && forall fs :: !ReachesEof(s, fs)
  {
    var pre, t := Crosses();
    MsgRoundTrip(OP_CTRL, CTRL_SHUTDOWN);
    var p := Do(PollRecv, View(t, SideA));
    var s, es := Sys(p.x, p.y), pre + [A(PollRecv)];
    OneMore(Start(SMALL, SMALL), pre, t, A(PollRecv), s, es);
    RunsAreReachable(SMALL, SMALL, es, SideA);
    ShutdownGetsThroughIff(p);
  }
}

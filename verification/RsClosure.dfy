/** The invariant holds after every run. */
module RsClosure {
  import opened Memory
  import opened RsWire
  import opened RsSocket
  import opened RsProtocol
  import opened RsInvariant
  import opened RsFrame
  import opened RsProofSend
  import opened RsProofCtrl
  import opened RsProofCredit
  import opened RsProofPoll
  import opened RsProofLand
  import opened RsProofRecv

  lemma StartEnd(ca: Config, cb: Config)
    requires ca.Good() && cb.Good()
    ensures EndOk(Start(ca, cb).a)
  {
  }

  lemma StartFlow(ca: Config, cb: Config)
    requires ca.Good() && cb.Good()
    ensures Flow(Start(ca, cb).a, Start(ca, cb).b)
  {
    var x, y := Start(ca, cb).a, Start(ca, cb).b;
    StartEnd(ca, cb);
    StartEnd(cb, ca);
    assert Msgs(y.s.rx) == [] && All(y.h.log).credits == 0 && All(x.h.log).told == 0;
  }

  lemma StartKept(ca: Config, cb: Config)
    requires ca.Good() && cb.Good()
    ensures Inv(Pair(Start(ca, cb).a, Start(ca, cb).b))
  {
    StartFlow(ca, cb);
    StartFlow(cb, ca);
  }

  lemma RecvStepSafe(p: Pair, want: nat)
    requires Inv(p) && Enabled(Recv(want), p)
    ensures CanDo(Recv(want), p)
  {
    WithinRing(p.y, p.x);
    RecvSafe(p.x, p.y, want);
  }

  lemma LandStepSafe(p: Pair)
    requires Inv(p) && Enabled(Land, p)
    ensures CanDo(Land, p)
  {
    LandSafe(p.x, p.y);
  }

  lemma OtherStepSafe(st: Step, p: Pair)
    requires !st.Recv? && !st.Land?
    requires Shaped(p.x.s) && Enabled(st, p) && Positions(p.x.h) && Positions(p.y.h) && FinsOk(p.x)
    requires p.x.s.tx.sbufBytesAvail <= p.x.s.cfg.sbufSize
    ensures CanDo(st, p)
  {
  }

  lemma RingRoom(e: End)
    requires QueueOk(e)
    ensures e.s.tx.sbufBytesAvail <= e.s.cfg.sbufSize
  {
    UptoGrows(e.h.log, e.h.completed, |e.h.log|);
  }

  /** In a state of the invariant every step the software or the adapter may
      take stays inside the buffers it addresses. */
  lemma StepSafe(st: Step, p: Pair)
    requires Inv(p) && Enabled(st, p)
    ensures CanDo(st, p)
  {
    if st.Recv? {
      RecvStepSafe(p, st.want);
    } else if st.Land? {
      LandStepSafe(p);
    } else {
      RingRoom(p.x);
      OtherStepSafe(st, p);
    }
  }

  lemma DoSend(p: Pair, data: seq<u8>, path: Path)
    requires CanDo(Send(data, path), p)
    requires |data| <= p.x.s.cfg.sbufSize
    ensures CanSendChunk(p.x, data, path) && Do(Send(data, path), p) == Pair(Sent(p.x, data, path), p.y)
  {
  }

  lemma SendStepKeeps(p: Pair, data: seq<u8>, path: Path)
    requires Inv(p) && CanDo(Send(data, path), p)
    ensures Inv(Do(Send(data, path), p))
  {
    RingRoom(p.x);
    DoSend(p, data, path);
    SendKeeps(p.x, p.y, data, path);
  }

  lemma DoRecv(p: Pair, want: nat)
    requires CanDo(Recv(want), p)
    ensures CanRecv(p.x, want) && Do(Recv(want), p) == Pair(ReadOn(p.x, want), p.y)
  {
  }

  lemma RecvStepKeeps(p: Pair, want: nat)
    requires Inv(p) && CanDo(Recv(want), p)
    ensures Inv(Do(Recv(want), p))
  {
    DoRecv(p, want);
    RecvKeeps(p.x, p.y, want);
  }

  lemma DoCredit(p: Pair)
    requires CanDo(Credit, p)
    ensures CanCredit(p.x) && Do(Credit, p) == Pair(Credited(p.x), p.y)
  {
  }

  lemma CreditStepKeeps(p: Pair)
    requires Inv(p) && CanDo(Credit, p)
    ensures Inv(Do(Credit, p))
  {
    DoCredit(p);
    CreditKeeps(p.x, p.y);
  }

  lemma DoPollSend(p: Pair)
    requires CanDo(PollSend, p)
    ensures p.x.h.completed < |p.x.h.log| && Do(PollSend, p) == Pair(Completed(p.x), p.y)
  {
  }

  lemma PollSendStepKeeps(p: Pair)
    requires Inv(p) && CanDo(PollSend, p)
    ensures Inv(Do(PollSend, p))
  {
    DoPollSend(p);
    PollSendKeeps(p.x, p.y);
  }

  lemma DoPollRecv(p: Pair)
    requires CanDo(PollRecv, p)
    requires Positions(p.y.h)
    ensures CanPoll(p.x, p.y) && Do(PollRecv, p) == Pair(Heard(p.x, p.y), Told1(p.y))
  {
  }

  lemma PollRecvStepKeeps(p: Pair)
    requires Inv(p) && CanDo(PollRecv, p)
    ensures Inv(Do(PollRecv, p))
  {
    DoPollRecv(p);
    PollRecvKeeps(p.x, p.y);
  }

  lemma DoLand(p: Pair)
    requires CanDo(Land, p)
    requires Positions(p.x.h)
    ensures CanLand(p.x, p.y) && Do(Land, p) == Pair(Carried(p.x), Struck(p.x, p.y))
  {
  }

  lemma LandStepKeeps(p: Pair)
    requires Inv(p) && CanDo(Land, p)
    ensures Inv(Do(Land, p))
  {
    DoLand(p);
    LandKeeps(p.x, p.y);
  }

  lemma DoPost(p: Pair)
    requires CanDo(Post, p)
    ensures CanPost(p.x) && Do(Post, p) == Pair(PostedFin(p.x), p.y)
  {
  }

  lemma PostStepKeeps(p: Pair)
    requires Inv(p) && CanDo(Post, p)
    ensures Inv(Do(Post, p))
  {
    DoPost(p);
    PostKeeps(p.x, p.y);
  }

  lemma DoAlive(p: Pair)
    requires CanDo(Alive, p)
    ensures CtrlAvail(p.x.s.ctl) && Do(Alive, p) == Pair(Alived(p.x), p.y)
  {
  }

  lemma AliveStepKeeps(p: Pair)
    requires Inv(p) && CanDo(Alive, p)
    ensures Inv(Do(Alive, p))
  {
    DoAlive(p);
    AliveKeeps(p.x, p.y);
  }

  lemma DoMark(p: Pair, how: How)
    requires CanDo(Mark(how), p)
    ensures Do(Mark(how), p) == Pair(Marked(p.x, how), p.y)
  {
  }

  lemma MarkStepKeeps(p: Pair, how: How)
    requires Inv(p) && CanDo(Mark(how), p)
    ensures Inv(Do(Mark(how), p))
  {
    DoMark(p, how);
    MarkKeeps(p.x, p.y, how);
  }

  lemma OwnStepKeeps(st: Step, p: Pair)
    requires st.Send? || st.Recv? || st.Credit? || st.Mark?
    requires Inv(p) && CanDo(st, p)
    ensures Inv(Do(st, p))
  {
    match st
    case Send(data, path) => SendStepKeeps(p, data, path);
    case Recv(want) => RecvStepKeeps(p, want);
    case Credit => CreditStepKeeps(p);
    case Mark(how) => MarkStepKeeps(p, how);
  }

  lemma OtherStepKeeps(st: Step, p: Pair)
    requires !(st.Send? || st.Recv? || st.Credit? || st.Mark?)
    requires Inv(p) && CanDo(st, p)
    ensures Inv(Do(st, p))
  {
    match st
    case PollSend => PollSendStepKeeps(p);
    case PollRecv => PollRecvStepKeeps(p);
    case Land => LandStepKeeps(p);
    case Post => PostStepKeeps(p);
    case Alive => AliveStepKeeps(p);
  }

  /** Every step keeps the invariant. */
  lemma StepKeeps(st: Step, p: Pair)
    requires Inv(p) && CanDo(st, p)
    ensures Inv(Do(st, p))
  {
    if st.Send? || st.Recv? || st.Credit? || st.Mark? { OwnStepKeeps(st, p); } else { OtherStepKeeps(st, p); }
  }

  /** Every state a connection can reach. */
  predicate Reaches(ca: Config, cb: Config, es: seq<Event>) {
    ca.Good() && cb.Good() && Legal(Start(ca, cb), es)
  }

  function StateOf(ca: Config, cb: Config, es: seq<Event>): Sys
    requires Reaches(ca, cb, es)
  {
    After(Start(ca, cb), es)
  }

  /** A set of states, each seen from either end, that no step leaves. */
  ghost predicate Closed(all: iset<Pair>) {
    && (forall ca: Config, cb: Config :: ca.Good() && cb.Good() ==>
          Pair(Start(ca, cb).a, Start(ca, cb).b) in all)
    && (forall p :: p in all ==> Pair(p.y, p.x) in all)
    && (forall p, st :: p in all && CanDo(st, p) ==> Do(st, p) in all)
  }

  /** The states a connection can reach: those in every closed set. */
  ghost predicate Reachable(p: Pair) {
    forall all: iset<Pair> :: Closed(all) ==> p in all
  }

  lemma ReachableSwap(p: Pair)
    requires Reachable(p)
    ensures Reachable(Pair(p.y, p.x))
  {
  }

  lemma ReachableStep(p: Pair, st: Step)
    requires Reachable(p) && CanDo(st, p)
    ensures Reachable(Do(st, p))
  {
    forall all: iset<Pair> | Closed(all) ensures Do(st, p) in all {
      assert p in all;
    }
  }

  /** Every state of every run is reachable. */
  lemma {:induction false} RunsAreReachable(ca: Config, cb: Config, es: seq<Event>, side: Side)
    requires Reaches(ca, cb, es)
    ensures Reachable(View(StateOf(ca, cb, es), side))
    decreases |es|
  {
    if es == [] {
      StartReachable(ca, cb, side);
    } else {
      var pre, e := es[..|es| - 1], es[|es| - 1];
      RunsAreReachable(ca, cb, pre, e.side);
      EventReachable(StateOf(ca, cb, pre), e, side);
    }
  }

  lemma StartReachable(ca: Config, cb: Config, side: Side)
    requires ca.Good() && cb.Good()
    ensures Reachable(View(Start(ca, cb), side))
  {
    var p := Pair(Start(ca, cb).a, Start(ca, cb).b);
    assert Reachable(p);
    ReachableSwap(p);
  }

  lemma EventReachable(s: Sys, e: Event, side: Side)
    requires Reachable(View(s, e.side)) && CanDo(e.step, View(s, e.side))
    ensures Reachable(View(Back(Do(e.step, View(s, e.side)), e.side), side))
  {
    ReachableStep(View(s, e.side), e.step);
    ReachableSwap(Do(e.step, View(s, e.side)));
  }

  ghost function Invs(): iset<Pair> { iset p | Inv(p) }

  lemma InvsStart()
    ensures forall ca: Config, cb: Config :: ca.Good() && cb.Good() ==>
              Pair(Start(ca, cb).a, Start(ca, cb).b) in Invs()
  {
    forall ca: Config, cb: Config | ca.Good() && cb.Good()
      ensures Pair(Start(ca, cb).a, Start(ca, cb).b) in Invs()
    {
      StartKept(ca, cb);
    }
  }

  lemma InvsStep()
    ensures forall p, st :: p in Invs() && CanDo(st, p) ==> Do(st, p) in Invs()
  {
    forall p, st | p in Invs() && CanDo(st, p) ensures Do(st, p) in Invs() {
      StepKeeps(st, p);
    }
  }

  lemma InvsSwap()
    ensures forall p :: p in Invs() ==> Pair(p.y, p.x) in Invs()
  {
  }

  /** The invariant holds in every reachable state. */
  lemma ReachableInv(p: Pair)
    requires Reachable(p)
    ensures Inv(p)
  {
    InvsStart();
    InvsStep();
    InvsSwap();
    assert Closed(Invs());
  }

  // ---- Parts of the invariant, one at a time --------------------------------

  lemma QueueHolds(p: Pair)
    requires Reachable(p)
    ensures QueueOk(p.x) && LogOk(p.x.h) && SendRingOk(p.x) && GrantsOk(p.x) && p.x.s.cfg.Good()
  {
    ReachableInv(p);
  }

  lemma CreditHolds(p: Pair)
    requires Reachable(p)
    ensures CreditReady(p.x, p.y) && CreditsOk(p.y) && FlowCredit(p.x, p.y)
    ensures p.y.s.cfg.rqSize <= RS_QP_MAX_SIZE
  {
    ReachableInv(p);
  }

  lemma TargetHolds(p: Pair)
    requires Reachable(p)
    ensures Shaped(p.x.s) && Positions(p.y.h) && p.y.s.cfg.Good() && FlowTarget(p.x, p.y)
    ensures |p.x.h.read| <= |p.y.h.sent| && FlowAddr(p.x, p.y)
  {
    ReachableInv(p);
  }
}

/** The credit protocol cannot deadlock. */
module RsProgress {
  import opened RsWire
  import opened RsSocket
  import opened RsProtocol
  import opened RsRuns
  import opened RsInvariant
  import opened RsArith
  import opened RsClosure
  import opened RsDelivery
  import opened RsGrants
  import RsProofCredit
  import RsProofLand
  import RsProofPoll

  /** Everything posted by an end was carried out, handled and completed. */
  predicate Drained(h: Hist) { h.completed == h.landed == h.polled == |h.log| }

  /** Nothing is in flight and `y` has read all that `x` sent. */
  predicate Settled(p: Pair) {
    && Drained(p.x.h) && Drained(p.y.h)
    && |p.y.h.read| == |p.x.h.sent|
    && p.x.s.life.connected && p.y.s.life.connected
  }

  // ---- What a settled state looks like ----------------------------------------

  lemma ResourcesBack(e: End)
    requires QueueOk(e) && e.s.cfg.Good() && e.h.completed == |e.h.log|
    ensures e.s.tx.sqeAvail >= 2 && e.s.tx.sbufBytesAvail >= RS_SNDLOWAT
    ensures CtrlAvail(e.s.ctl) && TwoCtrlAvail(e.s.ctl)
  {
    var t := All(e.h.log).ctrls;
    NextWrapped(t, 1);
    Int32Diff(t + 1, t + RS_QP_CTRL_SIZE);
    Int32Diff(t, t + RS_QP_CTRL_SIZE);
  }

  lemma SumIsZeroIff(q: seq<nat>)
    requires forall i :: 0 <= i < |q| ==> 0 < q[i]
    ensures SumOf(q) == 0 <==> q == []
  {
  }

  /** All that was sent was read, so every message was counted as read. */
  lemma AllMessagesRead(x: End, y: End)
    requires Flow(x, y) && x.h.polled == |x.h.log| && |y.h.read| == |x.h.sent|
    ensures Msgs(y.s.rx) == [] && y.h.nread == All(x.h.log).msgs
  {
    SumIsZeroIff(Msgs(y.s.rx));
  }

  /** Granted space is left over exactly when the ring is not all free. */
  lemma SpaceLeft(x: End, y: End)
    requires Shaped(x.s) && GrantsOk(y) && y.s.cfg.Good() && FlowTarget(x, y)
    requires y.h.landed == |y.h.log| && |y.h.read| == |x.h.sent|
    ensures x.s.tx.targetSgl[x.s.tx.targetSge].length != 0 <==> y.s.rx.rbufBytesAvail < y.s.cfg.rbufSize
  {
  }

  lemma Receptive(x: End, y: End)
    requires Flow(x, y) && x.h.polled == |x.h.log| && |y.h.read| == |x.h.sent|
    requires y.h.landed == y.h.polled == |y.h.log|
    ensures x.s.tx.sseqNo != x.s.tx.sseqComp <==> y.h.nread < CredAt(y.h.creds, |y.h.creds|) + y.s.cfg.rqSize
    ensures x.s.tx.targetSgl[x.s.tx.targetSge].length != 0 <==> y.s.rx.rbufBytesAvail < y.s.cfg.rbufSize
  {
    AllMessagesRead(x, y);
    SendTestExact(x, y);
    SpaceLeft(x, y);
  }

  /** The facts that decide who may move in a settled state. */
  predicate Standing(x: Sock, y: Sock, nread: nat, cred: nat) {
    && Shaped(x)
    && x.tx.sqeAvail >= 2 && x.tx.sbufBytesAvail >= RS_SNDLOWAT
    && CtrlAvail(y.ctl) && TwoCtrlAvail(y.ctl) && y.life.connected && 2 <= y.cfg.rbufSize
    && (x.tx.sseqNo != x.tx.sseqComp <==> nread < cred + y.cfg.rqSize)
    && (x.tx.targetSgl[x.tx.targetSge].length != 0 <==> y.rx.rbufBytesAvail < y.cfg.rbufSize)
    && (ToShort(y.rx.rseqNo - y.rx.rseqComp) >= 0 <==> nread >= cred + y.cfg.rqSize / 2)
  }

  lemma SettledStanding(p: Pair)
    requires Reachable(p) && Settled(p)
    ensures Standing(p.x.s, p.y.s, p.y.h.nread, CredAt(p.y.h.creds, |p.y.h.creds|))
  {
    QueueHolds(p);
    ResourcesBack(p.x);
    ReachableSwap(p);
    QueueHolds(Pair(p.y, p.x));
    ResourcesBack(p.y);
    SettledReceptive(p);
    CreditHolds(p);
    CreditTestExact(p.x, p.y);
  }

  lemma SettledReceptive(p: Pair)
    requires Reachable(p) && Settled(p)
    ensures Shaped(p.x.s)
    ensures p.x.s.tx.sseqNo != p.x.s.tx.sseqComp <==>
            p.y.h.nread < CredAt(p.y.h.creds, |p.y.h.creds|) + p.y.s.cfg.rqSize
    ensures p.x.s.tx.targetSgl[p.x.s.tx.targetSge].length != 0 <==> p.y.s.rx.rbufBytesAvail < p.y.s.cfg.rbufSize
  {
    ReachableInv(p);
    Receptive(p.x, p.y);
  }

  lemma StandingMoves(x: Sock, y: Sock, nread: nat, cred: nat)
    requires Standing(x, y, nread, cred)
    ensures CanSend(x) || GiveCredits(y)
  {
  }

  /** When nothing is in flight and all was read, either the sender may send or
      the reader must return credits. */
  lemma NoDeadlock(p: Pair)
    requires Reachable(p) && Settled(p)
    ensures Shaped(p.x.s) && (CanSend(p.x.s) || GiveCredits(p.y.s))
  {
    SettledStanding(p);
    StandingMoves(p.x.s, p.y.s, p.y.h.nread, CredAt(p.y.h.creds, |p.y.h.creds|));
  }

  /** No landing or completion is left to handle, on either side. */
  predicate Quiet(p: Pair)
    requires Shaped(p.x.s) && Shaped(p.y.s)
  {
    var q := Pair(p.y, p.x);
    && !Enabled(Land, p) && !Enabled(PollSend, p) && !Enabled(PollRecv, p)
    && !Enabled(Land, q) && !Enabled(PollSend, q) && !Enabled(PollRecv, q)
  }

  lemma QuietSettled(p: Pair)
    requires Reachable(p) && p.x.s.life.connected && p.y.s.life.connected
    ensures Shaped(p.x.s) && Shaped(p.y.s)
    ensures Quiet(p) && !HaveRdata(p.y.s) ==> Settled(p)
  {
    QueueHolds(p);
    ReachableSwap(p);
    QueueHolds(Pair(p.y, p.x));
    if Quiet(p) && !HaveRdata(p.y.s) {
      EmptyIsRead(p);
    }
  }

  lemma EmptyIsRead(p: Pair)
    requires Reachable(p) && !HaveRdata(p.y.s) && p.x.h.polled == |p.x.h.log|
    ensures |p.y.h.read| == |p.x.h.sent|
  {
    ReachableInv(p);
    EmptyMeansRead(p.x, p.y);
  }

  lemma EmptyMeansRead(x: End, y: End)
    requires Flow(x, y) && !HaveRdata(y.s) && x.h.polled == |x.h.log|
    ensures |y.h.read| == |x.h.sent|
  {
    assert Msgs(y.s.rx) == [];
  }

  /** In any connected state some landing or completion is left to handle, or the
      reader has data or must return credits, or the sender may send. */
  lemma NeverStuck(p: Pair)
    requires Reachable(p) && p.x.s.life.connected && p.y.s.life.connected
    ensures Shaped(p.x.s) && Shaped(p.y.s)
    ensures !Quiet(p) || HaveRdata(p.y.s) || GiveCredits(p.y.s) || CanSend(p.x.s)
  {
    QuietSettled(p);
    if Quiet(p) && !HaveRdata(p.y.s) {
      NoDeadlock(p);
    }
  }

  // ---- One credit step frees the sender -----------------------------------------

  /** The reader returns credits, its adapter carries them over, the sender hears. */
  function Rescue(n: nat): seq<Event>
    requires 1 <= n <= 2
  {
    var land, poll := Event(SideB, Land), Event(SideA, PollRecv);
    [Event(SideB, Credit)] + (if n == 1 then [land, poll] else [land, land, poll, poll])
  }

  /** What the rescue has changed so far: `y` posted `ws`, of which `i` landed and
      `j` were heard. */
  predicate OnTheWay(p: Pair, q: Pair, ws: seq<Wr>, i: nat, j: nat) {
    && q.x.h == p.x.h && q.x.s.cfg == p.x.s.cfg
    && q.y.h.log == p.y.h.log + ws
    && q.y.h.landed == |p.y.h.log| + i && q.y.h.polled == |p.y.h.log| + j
    && q.y.h.read == p.y.h.read && q.y.h.nread == p.y.h.nread
    && q.y.h.creds == p.y.h.creds + [p.y.h.nread]
    && q.y.s.cfg == p.y.s.cfg && q.y.s.rx.rbufBytesAvail < q.y.s.cfg.rbufSize
  }

  function Swap(p: Pair): Pair { Pair(p.y, p.x) }

  lemma RescueCredit(p: Pair)
    requires Reachable(p) && Settled(p) && RsProofCredit.CanCredit(p.y)
    ensures CanDo(Credit, Swap(p))
    ensures var q, ws := Swap(Do(Credit, Swap(p))), RsProofCredit.CreditWrs(p.y);
            Reachable(q) && OnTheWay(p, q, ws, 0, 0) && 1 <= |ws| <= 2
  {
    ReachableSwap(p);
    RingConserved(Swap(p));
    QueueHolds(Swap(p));
    DoCredit(Swap(p));
    ReachableStep(Swap(p), Credit);
    ReachableSwap(Do(Credit, Swap(p)));
    RsProofCredit.CreditedFacts(p.y);
  }

  lemma RescueLand(p: Pair, q: Pair, ws: seq<Wr>, i: nat)
    requires Reachable(q) && OnTheWay(p, q, ws, i, 0) && i < |ws|
    ensures CanDo(Land, Swap(q))
    ensures var q' := Swap(Do(Land, Swap(q))); Reachable(q') && OnTheWay(p, q', ws, i + 1, 0)
  {
    ReachableSwap(q);
    NeverOutOfBounds(Swap(q), Land);
    ReachableSwap(Do(Land, Swap(q)));
    QueueHolds(Swap(q));
    TargetHolds(q);
    DoLand(Swap(q));
    RsProofLand.StruckFacts(q.y, q.x);
  }

  lemma RescuePoll(p: Pair, q: Pair, ws: seq<Wr>, j: nat)
    requires Reachable(q) && OnTheWay(p, q, ws, |ws|, j) && j < |ws|
    ensures CanDo(PollRecv, q)
    ensures var q' := Do(PollRecv, q); Reachable(q') && OnTheWay(p, q', ws, |ws|, j + 1)
  {
    NeverOutOfBounds(q, PollRecv);
    TargetHolds(q);
    DoPollRecv(q);
    RsProofPoll.HeardFacts(q.x, q.y);
  }

  lemma RescueDone(p: Pair, q: Pair, ws: seq<Wr>)
    requires Settled(p) && Reachable(q) && OnTheWay(p, q, ws, |ws|, |ws|)
    ensures Shaped(q.x.s) && CanSend(q.x.s)
  {
    RescuedStanding(p, q, ws);
    assert CredAt(q.y.h.creds, |q.y.h.creds|) == q.y.h.nread;
  }

  lemma RescuedStanding(p: Pair, q: Pair, ws: seq<Wr>)
    requires Settled(p) && Reachable(q) && OnTheWay(p, q, ws, |ws|, |ws|)
    ensures Shaped(q.x.s) && q.x.s.tx.sqeAvail >= 2 && q.x.s.tx.sbufBytesAvail >= RS_SNDLOWAT
    ensures q.x.s.tx.sseqNo != q.x.s.tx.sseqComp <==>
            q.y.h.nread < CredAt(q.y.h.creds, |q.y.h.creds|) + q.y.s.cfg.rqSize
    ensures 0 < q.y.s.cfg.rqSize
    ensures q.x.s.tx.targetSgl[q.x.s.tx.targetSge].length != 0
  {
    ReachableInv(q);
    ResourcesBack(q.x);
    Receptive(q.x, q.y);
  }

  /** One credit step, once carried over and heard, lets the blocked sender send. */
  lemma CreditFreesSender(p: Pair)
    requires Reachable(p) && Settled(p) && Shaped(p.x.s) && !CanSend(p.x.s)
    ensures Shaped(p.y.s) && GiveCredits(p.y.s)
    ensures var s, es := Sys(p.x, p.y), Rescue(|SendCredits(p.y.s).posted|);
            Legal(s, es) && Shaped(After(s, es).a.s) && CanSend(After(s, es).a.s)
  {
    NoDeadlock(p);
    TargetHolds(p);
    ReachableSwap(p);
    TargetHolds(Swap(p));
    RescueCredit(p);
    var s, ws := Sys(p.x, p.y), RsProofCredit.CreditWrs(p.y);
    var e0 := [Event(SideB, Credit)];
    LegalSnoc(s, [], Event(SideB, Credit));
    assert [] + e0 == e0;
    var q := Swap(Do(Credit, Swap(p)));
    assert After(s, e0) == Sys(q.x, q.y);
    if |ws| == 1 { RescueOne(p, q, ws, s, e0); } else { RescueTwo(p, q, ws, s, e0); }
  }

  lemma RunLand(p: Pair, q: Pair, ws: seq<Wr>, i: nat, s: Sys, es: seq<Event>) returns (q': Pair)
    requires Reachable(q) && OnTheWay(p, q, ws, i, 0) && i < |ws|
    requires Legal(s, es) && After(s, es) == Sys(q.x, q.y)
    ensures Reachable(q') && OnTheWay(p, q', ws, i + 1, 0)
    ensures Legal(s, es + [Event(SideB, Land)]) && After(s, es + [Event(SideB, Land)]) == Sys(q'.x, q'.y)
  {
    RescueLand(p, q, ws, i);
    LegalSnoc(s, es, Event(SideB, Land));
    q' := Swap(Do(Land, Swap(q)));
  }

  lemma RunPoll(p: Pair, q: Pair, ws: seq<Wr>, j: nat, s: Sys, es: seq<Event>) returns (q': Pair)
    requires Reachable(q) && OnTheWay(p, q, ws, |ws|, j) && j < |ws|
    requires Legal(s, es) && After(s, es) == Sys(q.x, q.y)
    ensures Reachable(q') && OnTheWay(p, q', ws, |ws|, j + 1)
    ensures Legal(s, es + [Event(SideA, PollRecv)]) && After(s, es + [Event(SideA, PollRecv)]) == Sys(q'.x, q'.y)
  {
    RescuePoll(p, q, ws, j);
    LegalSnoc(s, es, Event(SideA, PollRecv));
    q' := Do(PollRecv, q);
  }

  lemma RescueOne(p: Pair, q: Pair, ws: seq<Wr>, s: Sys, e0: seq<Event>)
    requires Settled(p) && Reachable(q) && OnTheWay(p, q, ws, 0, 0) && |ws| == 1
    requires Legal(s, e0) && After(s, e0) == Sys(q.x, q.y) && e0 == [Event(SideB, Credit)]
    ensures var es := Rescue(1);
            Legal(s, es) && Shaped(After(s, es).a.s) && CanSend(After(s, es).a.s)
  {
    var land, poll := Event(SideB, Land), Event(SideA, PollRecv);
    var q1 := RunLand(p, q, ws, 0, s, e0);
    var q2 := RunPoll(p, q1, ws, 0, s, e0 + [land]);
    RescueDone(p, q2, ws);
    assert e0 + [land] + [poll] == Rescue(1);
  }

  lemma RescueTwo(p: Pair, q: Pair, ws: seq<Wr>, s: Sys, e0: seq<Event>)
    requires Settled(p) && Reachable(q) && OnTheWay(p, q, ws, 0, 0) && |ws| == 2
    requires Legal(s, e0) && After(s, e0) == Sys(q.x, q.y) && e0 == [Event(SideB, Credit)]
    ensures var es := Rescue(2);
            Legal(s, es) && Shaped(After(s, es).a.s) && CanSend(After(s, es).a.s)
  {
    var land := Event(SideB, Land);
    var q1 := RunLand(p, q, ws, 0, s, e0);
    var q2 := RunLand(p, q1, ws, 1, s, e0 + [land]);
    RescueTwoPolls(p, q2, ws, s, e0 + [land] + [land]);
    assert e0 + [land] + [land] + [Event(SideA, PollRecv)] + [Event(SideA, PollRecv)] == Rescue(2);
  }

  lemma RescueTwoPolls(p: Pair, q: Pair, ws: seq<Wr>, s: Sys, es: seq<Event>)
    requires Settled(p) && Reachable(q) && OnTheWay(p, q, ws, 2, 0) && |ws| == 2
    requires Legal(s, es) && After(s, es) == Sys(q.x, q.y)
    ensures var es' := es + [Event(SideA, PollRecv)] + [Event(SideA, PollRecv)];
            Legal(s, es') && Shaped(After(s, es').a.s) && CanSend(After(s, es').a.s)
  {
    var q1 := RunPoll(p, q, ws, 0, s, es);
    var q2 := RunPoll(p, q1, ws, 1, s, es + [Event(SideA, PollRecv)]);
    RescueDone(p, q2, ws);
  }
}

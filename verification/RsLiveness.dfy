/** Whatever was accepted can still be delivered, and whoever is connected can go on sending:
    from every reachable state there is a run that gets there without another send. */
module RsLiveness {
  import opened RsSocket
  import opened RsProtocol
  import opened RsRuns
  import opened RsInvariant
  import opened RsClosure
  import opened RsDelivery
  import opened RsProgress
  import RsProofLand
  import RsProofPoll

  // ---- Steps that finish work already begun ---------------------------------------

  /** The adapters carry out requests, the software handles what they report and reads. */
  predicate Finishing(st: Step) { st.Land? || st.PollSend? || st.PollRecv? || st == Recv(1) }

  predicate AllFinishing(es: seq<Event>) { forall i :: 0 <= i < |es| ==> Finishing(es[i].step) }

  predicate NoSends(es: seq<Event>) { forall i :: 0 <= i < |es| ==> !es[i].step.Send? }

  /** What is left to do for the requests of one end and the bytes it is to read. */
  function EndWork(h: Hist, peer: Hist): int {
    3 * |h.log| - h.landed - h.polled - h.completed + |peer.sent| - |h.read|
  }

  function Work(p: Pair): int { EndWork(p.x.h, p.y.h) + EndWork(p.y.h, p.x.h) }

  lemma WorkBound(p: Pair)
    requires Reachable(p)
    ensures 0 <= Work(p)
    ensures Work(p) == 0 <==>
            Drained(p.x.h) && Drained(p.y.h) && p.x.h.read == p.y.h.sent && p.y.h.read == p.x.h.sent
  {
    ReadIsPrefix(p);
    QueueHolds(p);
    ReachableSwap(p);
    ReadIsPrefix(Swap(p));
    QueueHolds(Swap(p));
  }

  lemma FirstIsPositive(x: End, y: End)
    requires Flow(y, x) && HaveRdata(x.s)
    ensures 0 < x.s.rx.rmsg[x.s.rx.rmsgHead]
  {
    assert Msgs(x.s.rx)[0] == x.s.rx.rmsg[x.s.rx.rmsgHead];
  }

  lemma ReadsOne(p: Pair)
    requires Reachable(p) && CanDo(Recv(1), p)
    ensures |Do(Recv(1), p).x.h.read| == |p.x.h.read| + 1
  {
    ReachableInv(p);
    FirstIsPositive(p.x, p.y);
  }

  lemma StepWork(st: Step, p: Pair)
    requires Reachable(p) && CanDo(st, p) && Finishing(st)
    ensures Work(Do(st, p)) == Work(p) - 1
  {
    if st == Recv(1) { ReadsOne(p); }
  }

  /** A step that finishes some of the work that is left. */
  function NextFor(p: Pair): (st: Step)
    ensures Finishing(st)
  {
    if p.x.h.landed < |p.x.h.log| then Land
    else if p.x.h.completed < p.x.h.landed then PollSend
    else if p.y.h.polled < p.y.h.landed then PollRecv
    else Recv(1)
  }

  predicate Idle(p: Pair) {
    && p.x.h.completed == p.x.h.landed == |p.x.h.log| && p.y.h.polled == p.y.h.landed
    && |p.x.h.read| == |p.y.h.sent|
  }

  lemma PositionsHold(p: Pair)
    requires Reachable(p)
    ensures Positions(p.x.h) && Positions(p.y.h)
  {
    QueueHolds(p);
    ReachableSwap(p);
    QueueHolds(Swap(p));
  }

  lemma NextIsPossible(p: Pair)
    requires Reachable(p) && !Idle(p) && p.y.h.landed == |p.y.h.log|
    ensures CanDo(NextFor(p), p)
  {
    PositionsHold(p);
    ReachableSwap(p);
    if NextFor(p) == Recv(1) && !HaveRdata(p.x.s) { EmptyIsRead(Swap(p)); }
    NeverOutOfBounds(p, NextFor(p));
  }

  lemma LandIsPossible(p: Pair)
    requires Reachable(p) && p.x.h.landed < |p.x.h.log|
    ensures CanDo(Land, p)
  {
    QueueHolds(p);
    NeverOutOfBounds(p, Land);
  }

  lemma OtherNotIdle(p: Pair)
    requires Positions(p.x.h) && Positions(p.y.h) && Idle(p) && p.y.h.landed == |p.y.h.log|
    requires Work(p) != 0
    ensures !Idle(Swap(p))
  {
  }

  /** While work is left, one of the two ends can finish some of it. */
  lemma SomeNext(p: Pair) returns (e: Event)
    requires Reachable(p) && Work(p) != 0
    ensures Finishing(e.step) && CanDo(e.step, View(Sys(p.x, p.y), e.side))
  {
    PositionsHold(p);
    ReachableSwap(p);
    if p.x.h.landed < |p.x.h.log| {
      LandIsPossible(p);
      e := Event(SideA, Land);
    } else if p.y.h.landed < |p.y.h.log| {
      LandIsPossible(Swap(p));
      e := Event(SideB, Land);
    } else if !Idle(p) {
      NextIsPossible(p);
      e := Event(SideA, NextFor(p));
    } else {
      OtherNotIdle(p);
      NextIsPossible(Swap(p));
      e := Event(SideB, NextFor(Swap(p)));
    }
  }

  // ---- Connections nobody is closing -------------------------------------------------

  /** No request that closes the connection is on its way to the peer, or back to its sender. */
  predicate NoneCloses(h: Hist) {
    && (forall i :: h.polled <= i < |h.log| ==> !IsFin(h.log[i]))
    && (forall i :: h.completed <= i < |h.log| ==> !IsOwnDisconnect(h.log[i]))
  }

  predicate StaysOpen(p: Pair) {
    p.x.s.life.connected && p.y.s.life.connected && NoneCloses(p.x.h) && NoneCloses(p.y.h)
  }

  lemma FinishingKeepsOpen(st: Step, p: Pair)
    requires Reachable(p) && CanDo(st, p) && Finishing(st) && StaysOpen(p)
    ensures StaysOpen(Do(st, p))
  {
    QueueHolds(p);
    TargetHolds(p);
    ReachableSwap(p);
    TargetHolds(Swap(p));
    match st
    case Land => DoLand(p); RsProofLand.StruckFacts(p.x, p.y);
    case PollSend => DoPollSend(p); RsProofPoll.CompletedFacts(p.x);
    case PollRecv => DoPollRecv(p); RsProofPoll.HeardFacts(p.x, p.y);
    case Recv(_) =>
  }

  // ---- The run ------------------------------------------------------------------------

  lemma NextState(p: Pair, e: Event) returns (q: Pair)
    requires Reachable(p) && Finishing(e.step) && CanDo(e.step, View(Sys(p.x, p.y), e.side))
    ensures Sys(q.x, q.y) == Back(Do(e.step, View(Sys(p.x, p.y), e.side)), e.side)
    ensures Reachable(q) && Work(q) == Work(p) - 1 && (StaysOpen(p) ==> StaysOpen(q))
    ensures q.x.h.sent == p.x.h.sent && q.y.h.sent == p.y.h.sent
    ensures q.x.h.log == p.x.h.log && q.y.h.log == p.y.h.log && q.y.h.readShut == p.y.h.readShut
  {
    var v := View(Sys(p.x, p.y), e.side);
    ReachableSwap(p);
    var w := Do(e.step, v);
    StepWork(e.step, v);
    StepHistory(e.step, v);
    assert v.x.h.sent + [] == v.x.h.sent;
    ReachableStep(v, e.step);
    ReachableSwap(w);
    if StaysOpen(p) { FinishingKeepsOpen(e.step, v); }
    q := if e.side.SideA? then w else Swap(w);
  }

  /** All work can be finished. */
  lemma {:induction false} Finish(p: Pair) returns (es: seq<Event>, q: Pair)
    requires Reachable(p)
    ensures AllFinishing(es) && Legal(Sys(p.x, p.y), es) && After(Sys(p.x, p.y), es) == Sys(q.x, q.y)
    ensures Reachable(q) && Work(q) == 0 && (StaysOpen(p) ==> StaysOpen(q))
    ensures q.x.h.sent == p.x.h.sent && q.y.h.sent == p.y.h.sent
    ensures q.x.h.log == p.x.h.log && q.y.h.log == p.y.h.log && q.y.h.readShut == p.y.h.readShut
    decreases Work(p)
  {
    WorkBound(p);
    if Work(p) == 0 {
      es, q := [], p;
    } else {
      var e := SomeNext(p);
      var p1 := NextState(p, e);
      WorkBound(p1);
      var fs, r := Finish(p1);
      LegalCons(Sys(p.x, p.y), e, fs);
      es, q := [e] + fs, r;
    }
  }

  /** Both readers are given every byte accepted, without another send. */
  ghost predicate Delivers(s: Sys, es: seq<Event>) {
    && AllFinishing(es) && Legal(s, es)
    && var s' := After(s, es);
    && s'.a.h.sent == s.a.h.sent && s'.b.h.sent == s.b.h.sent
    && s'.b.h.read == s'.a.h.sent && s'.a.h.read == s'.b.h.sent
  }

  /** From every reachable state the adapters and the readers alone can deliver every byte
      accepted so far, in both directions. */
  lemma AllCanBeDelivered(p: Pair)
    requires Reachable(p)
    ensures exists es :: Delivers(Sys(p.x, p.y), es)
  {
    var es, q := Finish(p);
    WorkBound(q);
    assert Delivers(Sys(p.x, p.y), es);
  }

  // ---- Going on ------------------------------------------------------------------------

  lemma {:induction false} RunKeepsReads(s: Sys, es: seq<Event>)
    requires Legal(s, es) && NoSends(es) && Reachable(Pair(s.a, s.b))
    ensures var s' := After(s, es);
            && Reachable(Pair(s'.a, s'.b)) && s'.a.h.sent == s.a.h.sent
            && |s.b.h.read| <= |s'.b.h.read|
    decreases |es|
  {
    if es != [] {
      var pre, e := es[..|es| - 1], es[|es| - 1];
      RunKeepsReads(s, pre);
      var v := View(After(s, pre), e.side);
      ReachableSwap(Pair(After(s, pre).a, After(s, pre).b));
      EventReachable(After(s, pre), e, SideA);
      StepHistory(e.step, v);
      assert v.x.h.sent + [] == v.x.h.sent;
    }
  }

  /** Every byte accepted by one end is read, and that end may send again. */
  ghost predicate Frees(s: Sys, es: seq<Event>) {
    && NoSends(es) && Legal(s, es)
    && var s' := After(s, es);
    && s'.a.h.sent == s.a.h.sent == s'.b.h.read && Shaped(s'.a.s) && CanSend(s'.a.s)
  }

  /** A settled sender may send, at the latest after the reader returned credits. */
  lemma SettledCanGoOn(q: Pair) returns (es: seq<Event>)
    requires Reachable(q) && Settled(q) && q.y.h.read == q.x.h.sent
    ensures Frees(Sys(q.x, q.y), es)
  {
    NoDeadlock(q);
    if CanSend(q.x.s) {
      es := [];
    } else {
      CreditFreesSender(q);
      es := Rescue(|SendCredits(q.y.s).posted|);
      var s' := After(Sys(q.x, q.y), es);
      RunKeepsReads(Sys(q.x, q.y), es);
      ReachableSwap(Pair(s'.a, s'.b));
      ReadIsPrefix(Swap(Pair(s'.a, s'.b)));
    }
  }

  /** On a connection that nobody is closing, a sender without credits, space or send entries
      can always be freed without sending, once all it has sent is read. */
  lemma SenderCanGoOn(p: Pair)
    requires Reachable(p) && StaysOpen(p)
    ensures exists es :: Frees(Sys(p.x, p.y), es)
  {
    var es, q := Finish(p);
    WorkBound(q);
    var fs := SettledCanGoOn(q);
    LegalAppend(Sys(p.x, p.y), es, Sys(q.x, q.y), fs, After(Sys(q.x, q.y), fs));
    assert Frees(Sys(p.x, p.y), es + fs);
  }
}

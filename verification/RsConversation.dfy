/** Calls alone never deadlock: a reader whose read blocks has been given every byte and has
    returned what credits were due, so that the peer's next send is accepted. */
module RsConversation {
  import opened Memory
  import opened Wrappers
  import opened RsWire
  import opened RsSocket
  import opened RsProtocol
  import opened RsInvariant
  import opened RsFrame
  import opened RsClosure
  import opened RsRuns
  import opened RsRefine
  import opened RsRounds
  import opened RsTests
  import opened RsService
  import RsDelivery
  import RsGrants
  import RsProgress
  import RsShutdown
  import RsLife
  import C = RsCalls
  import Answers = RsAnswers

  // ---- Queues that report everything ------------------------------------------------------

  /** The queue reports everything that was carried out. */
  predicate Full(p: Pair, cq: seq<C.Wc>) {
    && Genuine(p, cq) && |SendsOf(cq)| == |ToComplete(p.x.h)| && ArrivalsOf(cq) == Notices(ToPoll(p.y.h))
  }

  function Report(ws: seq<Wr>, ms: seq<nat>): seq<C.Wc> {
    if ws != [] then [C.SendDone(ws[0].wrData)] + Report(ws[1..], ms)
    else if ms != [] then [C.Arrived(ms[0])] + Report(ws, ms[1..])
    else []
  }

  lemma {:induction false} ReportIsFull(ws: seq<Wr>, ms: seq<nat>)
    ensures SendsMatch(Report(ws, ms), ws) && |SendsOf(Report(ws, ms))| == |ws| && ArrivalsOf(Report(ws, ms)) == ms
    decreases |ws| + |ms|
  {
    var cq := Report(ws, ms);
    if ws != [] {
      ReportIsFull(ws[1..], ms);
      assert cq[1..] == Report(ws[1..], ms);
      forall i | 0 <= i < |SendsOf(cq)| ensures SendsOf(cq)[i] == ws[i].wrData {
        assert i == 0 || ws[i] == ws[1..][i - 1];
      }
    } else if ms != [] {
      ReportIsFull(ws, ms[1..]);
      assert cq[1..] == Report(ws, ms[1..]);
    }
  }

  /** In every reachable state some queue reports everything. */
  lemma SomeQueueIsFull(p: Pair)
    requires Reachable(p)
    ensures exists cq :: Full(p, cq)
  {
    ReachableSwap(p);
    QueueHolds(p);
    QueueHolds(Pair(p.y, p.x));
    ReportIsFull(ToComplete(p.x.h), Notices(ToPoll(p.y.h)));
    assert Full(p, Report(ToComplete(p.x.h), Notices(ToPoll(p.y.h))));
  }

  /** Only completions were handled. */
  predicate OnlyHandled(p: Pair, q: Pair) {
    && q.x.h == p.x.h.(completed := q.x.h.completed) && q.y.h == p.y.h.(polled := q.y.h.polled)
    && q.y.s == p.y.s && q.x.s.cfg == p.x.s.cfg
  }

  lemma CompleteFull(p: Pair, cq: seq<C.Wc>) returns (q: Pair)
    requires Reachable(p) && Full(p, cq) && cq != [] && cq[0].SendDone?
    ensures Reachable(q) && Full(q, cq[1..]) && OnlyHandled(p, q) && q.x.s == OnSendDone(p.x.s, cq[0].wrData)
  {
    CompleteOne(p, cq);
    SendsTail(cq, ToComplete(p.x.h));
    q := Do(PollSend, p);
    ReachableStep(p, PollSend);
    assert ToComplete(q.x.h) == ToComplete(p.x.h)[1..];
    assert SendsOf(cq) == [cq[0].wrData] + SendsOf(cq[1..]);
  }

  lemma ArriveFull(p: Pair, cq: seq<C.Wc>) returns (q: Pair)
    requires Reachable(p) && Shaped(p.x.s) && Full(p, cq) && cq != [] && cq[0].Arrived?
    ensures Reachable(q) && Full(q, cq[1..]) && OnlyHandled(p, q) && q.x.s == OnArrival(p.x.s, cq[0].msg)
    decreases p.y.h.landed - p.y.h.polled
  {
    var ws := ToPoll(p.y.h);
    assert ws != [] && ws[0] == p.y.h.log[p.y.h.polled];
    RsDelivery.NeverOutOfBounds(p, PollRecv);
    var r := Do(PollRecv, p);
    assert ToPoll(r.y.h) == ws[1..];
    if ws[0].msg.Some? {
      q := r;
      ArrivalsTail(cq, ws);
      assert ArrivalsOf(cq) == [cq[0].msg] + ArrivalsOf(cq[1..]) && Notices(ws) == [ws[0].msg.value] + Notices(ws[1..]);
    } else {
      q := ArriveFull(r, cq);
    }
  }

  /** A round that does not end the connection handles all that was reported. */
  lemma {:induction false} PollAllDrains(p: Pair, io: C.Io) returns (q: Pair)
    requires Legit(p, io) && Full(p, io.cq)
    ensures C.IoOk(io) && Reachable(q) && OnlyHandled(p, q) && q.x.s == C.PollAll(io).s
    ensures C.PollAll(io).cq == [] ==> Full(q, [])
    decreases |io.cq|
  {
    LegitIoOk(p, io);
    if io.cq == [] {
      q := p;
    } else {
      var r;
      if io.cq[0].SendDone? { r := CompleteFull(p, io.cq); } else { r := ArriveFull(p, io.cq); }
      if io.cq[0].Arrived? && C.Ends(io.s, io.cq[0].msg) {
        q := r;
      } else {
        q := PollAllDrains(r, C.PollOne(io));
      }
    }
  }

  // ---- A read that blocks --------------------------------------------------------------------

  lemma {:induction false} NoticeOf(ws: seq<Wr>, i: nat)
    requires i < |ws| && ws[i].msg.Some?
    ensures ws[i].msg.value in Notices(ws)
  {
    if 0 < i { NoticeOf(ws[1..], i - 1); }
  }

  lemma {:induction false} SilentArrivals(cq: seq<C.Wc>, m: nat)
    requires Answers.Silent(cq) && m in ArrivalsOf(cq)
    ensures !IsDataOp(MsgOp(m))
  {
    assert cq[0].Arrived? ==> !IsData(cq[0]);
    if !(cq[0].Arrived? && cq[0].msg == m) { SilentArrivals(cq[1..], m); }
  }

  /** With everything reported and no data message waiting, none is on its way. */
  lemma SilentHasNone(h: Hist, cq: seq<C.Wc>)
    requires Positions(h) && h.landed == |h.log| && ArrivalsOf(cq) == Notices(ToPoll(h)) && Answers.Silent(cq)
    ensures forall i :: h.polled <= i < |h.log| ==> !IsDataMsg(h.log[i])
  {
    forall i | h.polled <= i < |h.log| ensures !IsDataMsg(h.log[i]) {
      assert ToPoll(h)[i - h.polled] == h.log[i];
      if h.log[i].msg.Some? {
        NoticeOf(ToPoll(h), i - h.polled);
        SilentArrivals(cq, h.log[i].msg.value);
      }
    }
  }

  /** A read that blocks although everything carried out was reported has returned every byte
      that the peer sent. */
  lemma BlockedReadHasAll(p: Pair, io: C.Io, len: nat)
    requires Legit(p, io) && Full(p, io.cq) && p.y.h.landed == |p.y.h.log|
    requires C.IoOk(io) && C.RecvCall(io, len).blocked
    ensures p.x.h.read == p.y.h.sent
  {
    ReadBlocksIff(p, io, len);
    ReadHolds(p);
    SilentHasNone(p.y.h, io.cq);
    RsShutdown.ToldGrowsIff(p.y.h, p.y.h.polled, |p.y.h.log|);
    RsDelivery.ReadIsPrefix(p);
  }

  /** A reader that owes nothing: it allows another message and granted more than it read. */
  predicate Generous(e: End) {
    && e.h.nread < CredAt(e.h.creds, |e.h.creds|) + e.s.cfg.rqSize
    && |e.h.read| < e.s.cfg.Half() * (1 + All(e.h.log).grants)
  }

  lemma FreshIsGenerous(p: Pair)
    requires Reachable(p) && CanDo(Credit, p)
    ensures Generous(Do(Credit, p).x)
  {
    var q := Do(Credit, p);
    ReachableStep(p, Credit);
    RsGrants.RingConserved(p);
    RsGrants.RingConserved(q);
    QueueHolds(p);
    assert q.x.h.creds[|q.x.h.creds| - 1] == q.x.h.nread;
  }

  lemma NotDueIsGenerous(p: Pair)
    requires Reachable(p) && p.x.s.life.connected && p.x.h.completed == |p.x.h.log| && !GiveCredits(p.x.s)
    ensures Generous(p.x)
  {
    CreditsDueIff(p);
    RsGrants.RingConserved(p);
    QueueHolds(p);
  }

  lemma GenerousOn(p: Pair, q: Pair)
    requires Generous(p.x) && OnlyHandled(p, q)
    ensures Generous(q.x)
  {
  }

  /** A step of credits, if they are due. */
  lemma GiveIfDue(p: Pair, io: C.Io) returns (q: Pair)
    requires Legit(p, io)
    ensures C.IoOk(io) && Legit(q, C.UpdateCredits(io))
    ensures GiveCredits(io.s) ==> Generous(q.x)
    ensures q.y == p.y && q.x.s.life == p.x.s.life && p.x.h.log <= q.x.h.log && (!GiveCredits(io.s) ==> q == p)
    ensures q.x.h == p.x.h.(log := q.x.h.log, creds := q.x.h.creds)
    ensures Full(p, io.cq) ==> Full(q, io.cq)
  {
    LegitIoOk(p, io);
    if GiveCredits(io.s) {
      RsDelivery.NeverOutOfBounds(p, Credit);
      q := Do(Credit, p);
      FreshIsGenerous(p);
      StillGenuine(p, q, io.cq);
      assert ToComplete(q.x.h) == ToComplete(p.x.h);
    } else {
      q := p;
    }
  }

  lemma DrainedIsDone(p: Pair)
    requires Full(p, [])
    ensures p.x.h.completed == p.x.h.landed && Notices(ToPoll(p.y.h)) == []
  {
  }

  /** A round after which nothing is waiting leaves a connected socket generous. */
  lemma RoundIsGenerous(p: Pair, io: C.Io) returns (q: Pair)
    requires Legit(p, io) && Full(p, io.cq) && p.x.h.landed == |p.x.h.log| && C.IoOk(io)
    requires C.ProcessCq(io).cq == [] && C.ProcessCq(io).s.life.connected
    ensures Reachable(q) && q.x.s == C.ProcessCq(io).s && Generous(q.x) && q.x.h.read == p.x.h.read
    ensures q.y.s == p.y.s && q.y.h == p.y.h.(polled := q.y.h.polled)
  {
    var q1 := GiveIfDue(p, io);
    var io1 := C.UpdateCredits(io);
    var q2 := PollAllDrains(q1, io1);
    var io2 := C.PollAll(io1);
    Answers.GivingKeeps(io2);
    assert Legit(q2, io2);
    q := GiveIfDue(q2, io2);
    if !GiveCredits(io2.s) {
      if GiveCredits(io.s) {
        GenerousOn(q1, q2);
      } else {
        DrainedIsDone(q2);
        NotDueIsGenerous(q2);
      }
    }
  }

  /** A blocked read leaves its socket generous and has returned every byte. */
  lemma BlockedReadIsGenerous(p: Pair, io: C.Io, len: nat) returns (q: Pair)
    requires Legit(p, io) && Full(p, io.cq) && p.x.h.landed == |p.x.h.log| && p.y.h.landed == |p.y.h.log|
    requires C.IoOk(io) && C.RecvCall(io, len).blocked
    ensures Reachable(q) && q.x.s == C.RecvCall(io, len).io.s && Generous(q.x) && q.x.h.read == q.y.h.sent
    ensures q.y.s == p.y.s && q.y.h == p.y.h.(polled := q.y.h.polled)
  {
    BlockedReadHasAll(p, io, len);
    ReadBlocksIff(p, io, len);
    AnnouncedIsQueued(p);
    var m := ProcessMoves(p, io);
    RsLife.BitsExact(m);
    q := RoundIsGenerous(p, io);
  }

  // ---- The peer's next send ------------------------------------------------------------------

  lemma {:induction false} SameMsgs(log: seq<Wr>, m: nat, n: nat)
    requires m <= n <= |log| && forall i :: m <= i < n ==> !IsDataMsg(log[i])
    ensures Upto(log, m).msgs == Upto(log, n).msgs
    decreases n
  {
    if m < n { SameMsgs(log, m, n - 1); }
  }

  lemma {:induction false} SameCredits(log: seq<Wr>, m: nat, n: nat)
    requires m <= n <= |log| && Notices(log[m..n]) == []
    ensures Upto(log, m).credits == Upto(log, n).credits
    decreases n - m
  {
    if m < n {
      assert log[m..n][0] == log[m] && log[m..n][1..] == log[m + 1..n];
      assert log[m].msg.None?;
      SameCredits(log, m + 1, n);
      NextCredits(log, m);
    }
  }

  lemma NextCredits(log: seq<Wr>, m: nat)
    requires m < |log| && log[m].msg.None?
    ensures Upto(log, m + 1).credits == Upto(log, m).credits
  {
  }

  /** All that was sent was read, so every message was counted as read. */
  lemma AllCounted(x: End, y: End)
    requires LogOk(x.h) && CreditReady(x, y) && FlowCredit(x, y)
    requires 0 < y.s.cfg.rbufSize && FlowRead(x, y) && y.h.read == x.h.sent
    ensures All(x.h.log).msgs == y.h.nread
  {
    UptoGrows(x.h.log, x.h.polled, |x.h.log|);
    RsShutdown.ToldGrowsIff(x.h, x.h.polled, |x.h.log|);
    SameMsgs(x.h.log, x.h.polled, |x.h.log|);
    RsProgress.SumIsZeroIff(Msgs(y.s.rx));
  }

  /** With all its requests completed, all its bytes read and a generous peer of which it has
      heard everything, a socket can send. */
  lemma HeardCanSend(p: Pair)
    requires Reachable(p) && p.x.h.completed == |p.x.h.log| && p.y.h.landed == |p.y.h.log|
    requires Positions(p.y.h) && Notices(ToPoll(p.y.h)) == [] && Generous(p.y) && p.y.h.read == p.x.h.sent
    ensures Shaped(p.x.s) && CanSend(p.x.s)
  {
    CanSendIff(p);
    QueueHolds(p);
    CreditHolds(p);
    ReachableSwap(p);
    ReadHolds(Pair(p.y, p.x));
    AllCounted(p.x, p.y);
    SameCredits(p.y.h.log, p.y.h.polled, |p.y.h.log|);
  }

  lemma OpenHandlesAll(s: Sock, cq: seq<C.Wc>, n: nat)
    requires Handles(s, cq, n) && Answers.WriteOpen(s, cq)
    ensures cq[..n] == cq
  {
  }

  lemma EnoughIff(s: Sock, cq: seq<C.Wc>, s': Sock)
    requires Shaped(s) && Took(s, cq, s')
    ensures CanSend(s') <==> Answers.EnoughAfter(s, cq)
  {
  }

  lemma RoundCanSend(p: Pair, io: C.Io)
    requires Legit(p, io) && Full(p, io.cq) && p.x.h.landed == |p.x.h.log| && p.y.h.landed == |p.y.h.log|
    requires Generous(p.y) && p.y.h.read == p.x.h.sent && C.IoOk(io) && C.PollAll(io).cq == []
    ensures CanSend(C.PollAll(io).s)
  {
    var q := PollAllDrains(p, io);
    DrainedIsDone(q);
    HeardCanSend(q);
  }

  /** A send to a generous peer that has read everything is accepted, once everything was carried
      out and is reported. */
  lemma SendIsAccepted(p: Pair, io: C.Io, data: seq<u8>, vectored: bool)
    requires Legit(p, io) && Full(p, io.cq) && p.x.h.landed == |p.x.h.log| && p.y.h.landed == |p.y.h.log|
    requires Generous(p.y) && p.y.h.read == p.x.h.sent && Answers.WriteOpen(io.s, io.cq) && data != []
    ensures C.IoOk(io) && 0 < C.SendLoop(io, data, RS_OLAP_START_SIZE, vectored).count
  {
    RoomHolds(p, io);
    var m := Answers.PolledAnswers(io);
    OpenHandlesAll(io.s, io.cq, m);
    RoundCanSend(p, io);
    EnoughIff(io.s, io.cq, C.PollAll(io).s);
    var n := SendAcceptsIff(p, io, data, vectored);
    OpenHandlesAll(io.s, io.cq, n);
  }

  // ---- Both together ----------------------------------------------------------------------------

  /** One end's adapter has carried out all its requests. */
  predicate Landed(q: Pair, r: Pair) {
    && r.x.h == q.x.h.(landed := |q.x.h.log|) && r.x.s == q.x.s && r.y.h == q.y.h
    && r.y.s.life == q.y.s.life && r.y.s.cfg == q.y.s.cfg
  }

  lemma {:induction false} LandAll(q: Pair) returns (es: seq<Event>, r: Pair)
    requires Reachable(q)
    ensures Leads(Sys(q.x, q.y), es, Sys(r.x, r.y)) && Reachable(r) && Landed(q, r)
    ensures forall i :: 0 <= i < |es| ==> es[i] == Event(SideA, Land)
    decreases |q.x.h.log| - q.x.h.landed
  {
    QueueHolds(q);
    if q.x.h.landed == |q.x.h.log| {
      es, r := [], q;
    } else {
      RsDelivery.NeverOutOfBounds(q, Land);
      var q1 := Do(Land, q);
      var fs;
      fs, r := LandAll(q1);
      LegalCons(Sys(q.x, q.y), Event(SideA, Land), fs);
      es := [Event(SideA, Land)] + fs;
    }
  }

  /** A send with these completions waiting accepts bytes. */
  ghost predicate Accepts(s: Sock, cq: seq<C.Wc>, data: seq<u8>, vectored: bool) {
    var io := C.Io(s, cq, []);
    C.IoOk(io) && 0 < C.SendLoop(io, data, RS_OLAP_START_SIZE, vectored).count
  }

  /** The next send is accepted, whatever is sent and in whatever order completions arrive. */
  ghost predicate NextSendAccepted(p: Pair) {
    forall cq, data: seq<u8>, vectored ::
      Full(p, cq) && Answers.WriteOpen(p.x.s, cq) && data != [] ==> Accepts(p.x.s, cq, data, vectored)
  }

  lemma GenerousAccepts(p: Pair)
    requires Reachable(p) && p.x.h.landed == |p.x.h.log| && p.y.h.landed == |p.y.h.log|
    requires Generous(p.y) && p.y.h.read == p.x.h.sent
    ensures NextSendAccepted(p)
  {
    forall cq, data: seq<u8>, vectored | Full(p, cq) && Answers.WriteOpen(p.x.s, cq) && data != []
      ensures Accepts(p.x.s, cq, data, vectored)
    {
      SendIsAccepted(p, C.Io(p.x.s, cq, []), data, vectored);
    }
  }

  /** Calls alone make progress.  Everything either end posted was carried out, and a read that
      was told of all of it blocks.  Once the adapter has carried out what that read posted, the
      next send of the peer accepts bytes, provided its write side stays open. */
  lemma BlockedReadFreesSend(p: Pair, io: C.Io, len: nat) returns (q: Pair, es: seq<Event>, r: Pair)
    requires Legit(p, io) && Full(p, io.cq) && p.x.h.landed == |p.x.h.log| && p.y.h.landed == |p.y.h.log|
    requires C.IoOk(io) && C.RecvCall(io, len).blocked
    ensures Reachable(q) && q.x.s == C.RecvCall(io, len).io.s && q.y.s == p.y.s
    ensures Leads(Sys(q.x, q.y), es, Sys(r.x, r.y)) && forall i :: 0 <= i < |es| ==> es[i] == Event(SideA, Land)
    ensures Reachable(r) && NextSendAccepted(Pair(r.y, r.x))
  {
    q := BlockedReadIsGenerous(p, io, len);
    es, r := LandAll(q);
    ReachableSwap(r);
    GenerousAccepts(Pair(r.y, r.x));
  }
}

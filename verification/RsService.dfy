/** What the calls on a connection answer in every reachable state, whatever calls were made
    before on either end. */
module RsService {
  import opened Memory
  import opened Wrappers
  import opened RsWire
  import opened RsSocket
  import opened RsProtocol
  import opened RsInvariant
  import opened RsFrame
  import opened RsClosure
  import opened RsRefine
  import opened RsRounds
  import RsGrants
  import RsProgress
  import RsLife
  import C = RsCalls
  import Answers = RsAnswers

  // ---- There is room for what is waiting ------------------------------------------------

  /** The data messages that are waiting are among those posted and not handled. */
  lemma {:induction false} DataBound(log: seq<Wr>, c: nat, l: nat, cq: seq<C.Wc>)
    requires c <= l <= |log| && ArrivalsOf(cq) <= Notices(log[c..l])
    ensures Upto(log, c).msgs + |DataOf(cq)| <= Upto(log, l).msgs
    ensures Upto(log, c).told + SumOf(DataOf(cq)) <= Upto(log, l).told
    decreases |cq|, l - c
  {
    if cq == [] {
      UptoGrows(log, c, l);
    } else if cq[0].SendDone? {
      DataSum(cq);
      DataBound(log, c, l, cq[1..]);
    } else {
      assert log[c..l] != [] && log[c..l][0] == log[c] && log[c..l][1..] == log[c + 1..l];
      if log[c].msg.None? {
        DataBound(log, c + 1, l, cq);
      } else {
        DataSum(cq);
        ArrivalsTail(cq, log[c..l]);
        DataBound(log, c + 1, l, cq[1..]);
      }
    }
  }

  lemma RoomFor(x: End, y: End, k: nat, n: nat)
    requires LogOk(x.h) && CreditReady(x, y) && CreditsOk(y) && FlowCredit(x, y)
    requires 0 < y.s.cfg.rbufSize && FlowRead(x, y) && |x.h.sent| <= |y.h.read| + y.s.cfg.rbufSize
    requires Upto(x.h.log, x.h.polled).msgs + k <= Upto(x.h.log, x.h.landed).msgs
    requires Upto(x.h.log, x.h.polled).told + n <= Upto(x.h.log, x.h.landed).told
    ensures |Msgs(y.s.rx)| + k <= y.s.cfg.rqSize && SumOf(Msgs(y.s.rx)) + n <= y.s.cfg.rbufSize
  {
    LimitBound(y);
    UptoGrows(x.h.log, x.h.landed, |x.h.log|);
  }

  /** In every reachable state the rings have room for every message that is waiting. */
  lemma RoomHolds(p: Pair, io: C.Io)
    requires Legit(p, io)
    ensures C.IoOk(io) && Room(io)
    ensures SumOf(Msgs(io.s.rx)) + SumOf(DataOf(io.cq)) <= io.s.cfg.rbufSize
  {
    LegitIoOk(p, io);
    ReadHolds(p);
    RsGrants.RingConserved(p);
    DataBound(p.y.h.log, p.y.h.polled, p.y.h.landed, io.cq);
    ReachableSwap(p);
    CreditHolds(Pair(p.y, p.x));
    RoomFor(p.y, p.x, |DataOf(io.cq)|, SumOf(DataOf(io.cq)));
  }

  // ---- Reading -----------------------------------------------------------------------------

  /** Bytes that the peer announced and this end heard of, not yet returned. */
  function Announced(p: Pair): int
    requires Positions(p.y.h)
  {
    Upto(p.y.h.log, p.y.h.polled).told - |p.x.h.read|
  }

  lemma AnnouncedIsQueued(p: Pair)
    requires Reachable(p)
    ensures Shaped(p.x.s) && Positions(p.y.h) && Announced(p) == SumOf(Msgs(p.x.s.rx))
    ensures HaveRdata(p.x.s) <==> 0 < Announced(p)
    ensures forall i :: 0 <= i < |Msgs(p.x.s.rx)| ==> 0 < Msgs(p.x.s.rx)[i]
  {
    ReadHolds(p);
    Answers.EmptyIff(p.x.s);
    RsProgress.SumIsZeroIff(Msgs(p.x.s.rx));
  }

  /** With announced bytes not yet returned, a read returns the next of them, all or as many as
      were asked for, and handles no completion. */
  lemma AnnouncedIsReturned(p: Pair, io: C.Io, len: nat)
    requires Legit(p, io)
    ensures C.IoOk(io) && Positions(p.y.h)
    ensures 0 < Announced(p) ==>
              var g, r := C.RecvCall(io, len), |p.x.h.read|;
              && !g.blocked && g.io.cq == io.cq && |g.bytes| == C.Min(len, Announced(p))
              && r + |g.bytes| <= |p.y.h.sent| && g.bytes == p.y.h.sent[r..r + |g.bytes|]
  {
    RoomHolds(p, io);
    AnnouncedIsQueued(p);
    if 0 < Announced(p) {
      Answers.QueuedIsReturned(io, len);
      ReadReturnsStream(p, io, len);
    }
  }

  /** A read blocks exactly when every byte announced was returned, neither end closed the read
      side, and no completion that is waiting brings data or closes it. */
  lemma ReadBlocksIff(p: Pair, io: C.Io, len: nat)
    requires Legit(p, io)
    ensures C.IoOk(io) && Positions(p.y.h)
    ensures var g := C.RecvCall(io, len);
            && (g.blocked <==> && Announced(p) == 0 && !p.x.h.readShut && !FinSeen(p.y.h)
                               && Answers.Silent(io.cq))
            && (g.blocked ==> g.bytes == [] && g.io.cq == [] && !HaveRdata(g.io.s) && g.io.s.life.readable)
  {
    RoomHolds(p, io);
    AnnouncedIsQueued(p);
    RsLife.BitsExact(p);
    Answers.BlocksIff(io, len);
  }

  /** A data message that is waiting announces at least one byte. */
  lemma {:induction false} WaitingIsPositive(ws: seq<Wr>, m: nat)
    requires m in Notices(ws) && IsDataOp(MsgOp(m)) && forall i :: 0 <= i < |ws| ==> WrOk(ws[i])
    ensures 0 < MsgData(m)
  {
    assert WrOk(ws[0]);
    if !(ws[0].msg.Some? && ws[0].msg.value == m) { WaitingIsPositive(ws[1..], m); }
  }

  lemma {:induction false} ArrivalIn(cq: seq<C.Wc>, i: nat)
    requires i < |cq| && cq[i].Arrived?
    ensures cq[i].msg in ArrivalsOf(cq)
  {
    if 0 < i { ArrivalIn(cq[1..], i - 1); }
  }

  /** A data message that is waiting, with none before it that ends the connection, makes a read
      return bytes. */
  lemma WaitingIsReturned(p: Pair, io: C.Io, len: nat, i: nat)
    requires Legit(p, io) && 0 < len && i < |io.cq| && IsData(io.cq[i])
    requires forall j :: 0 <= j < i ==> !EndsAt(io.s, io.cq, j)
    ensures C.IoOk(io) && !C.RecvCall(io, len).blocked && 0 < |C.RecvCall(io, len).bytes|
  {
    RoomHolds(p, io);
    ReadHolds(p);
    ArrivalIn(io.cq, i);
    WaitingIsPositive(ToPoll(p.y.h), io.cq[i].msg);
    AnnouncedIsQueued(p);
    if HaveRdata(io.s) {
      Answers.QueuedIsReturned(io, len);
    } else {
      Answers.WaitingIsReturned(io, len, i);
    }
  }

  // ---- Sending ------------------------------------------------------------------------------

  /** A send accepts bytes exactly when the socket can send, or could after the completions that
      are waiting and none of them closes the write side. */
  lemma SendAcceptsIff(p: Pair, io: C.Io, data: seq<u8>, vectored: bool) returns (n: nat)
    requires Legit(p, io) && data != []
    ensures C.IoOk(io) && Handles(io.s, io.cq, n)
    ensures 0 < C.SendLoop(io, data, RS_OLAP_START_SIZE, vectored).count <==>
            || CanSend(io.s)
            || (Answers.EnoughAfter(io.s, io.cq[..n]) && Answers.WriteOpen(io.s, io.cq[..n]))
  {
    RoomHolds(p, io);
    n := Answers.SendAcceptsIff(io, data, RS_OLAP_START_SIZE, vectored);
  }
}

/** Bytes accepted after the write side was shut down: when a send still takes them, and what
    end of stream then means to the reader. */
module RsShutdown {
  import opened Memory
  import opened Wrappers
  import opened RsWire
  import opened RsSocket
  import opened RsProtocol
  import opened RsRuns
  import opened RsInvariant
  import opened RsClosure
  import opened RsDelivery
  import Calls = RsCalls

  // ---- When a send still takes bytes ----------------------------------------------

  lemma {:induction false} PollingKeepsShut(io: Calls.Io)
    requires Calls.IoOk(io) && !io.s.life.writable
    ensures !Calls.PollAll(io).s.life.writable
    decreases |io.cq|
  {
    if io.cq != [] {
      var io1 := Calls.PollOne(io);
      assert !io1.s.life.writable;
      if !(io.cq[0].Arrived? && Calls.Ends(io.s, io.cq[0].msg)) { PollingKeepsShut(io1); }
    }
  }

  /** Only a socket that cannot send looks at its state: a send on a socket whose write side is
      closed accepts bytes exactly when there is room, and is refused otherwise. */
  lemma SendAfterShutdownIff(io: Calls.Io, data: seq<u8>, vectored: bool)
    requires Calls.IoOk(io) && !io.s.life.writable && data != []
    ensures var r := Calls.SendLoop(io, data, RS_OLAP_START_SIZE, vectored);
            && (0 < r.count <==> CanSend(io.s))
            && (!CanSend(io.s) ==> r.outcome.Reset?)
  {
    if CanSend(io.s) {
      Calls.SendUnfolds(io, data, RS_OLAP_START_SIZE, vectored);
    } else {
      PollingKeepsShut(Calls.UpdateCredits(io));
    }
  }

  /** Shutting down changes nothing about which chunks may be posted next. */
  lemma ShutdownKeepsSends(p: Pair, how: How, data: seq<u8>, path: Path)
    requires CanDo(Mark(how), p)
    ensures CanDo(Send(data, path), Do(Mark(how), p)) <==> CanDo(Send(data, path), p)
  {
  }

  // ---- What end of stream means then ------------------------------------------------

  lemma {:induction false} ToldGrowsIff(h: Hist, m: nat, n: nat)
    requires m <= n <= |h.log| && forall i :: 0 <= i < |h.log| ==> WrOk(h.log[i])
    ensures Upto(h.log, m).told == Upto(h.log, n).told <==> forall i :: m <= i < n ==> !IsDataMsg(h.log[i])
    decreases n
  {
    if m < n {
      ToldGrowsIff(h, m, n - 1);
      UptoGrows(h.log, m, n - 1);
      assert WrOk(h.log[n - 1]);
    }
  }

  /** Some data message was posted that the peer has yet to handle. */
  predicate DataUnderway(h: Hist) {
    exists i :: h.polled <= i < |h.log| && IsDataMsg(h.log[i])
  }

  /** A reader at end of stream that did not close its own read side was given all the peer
      accepted exactly when no data message is still under way.  None is if the peer accepted
      nothing after its shutdown. */
  lemma EofCompleteIff(p: Pair)
    requires Reachable(p) && AtEof(p.x.s) && !p.x.h.readShut
    ensures p.x.h.read == p.y.h.sent <==> !DataUnderway(p.y.h)
    ensures p.y.h.shutAt == Some(|p.y.h.sent|) ==> !DataUnderway(p.y.h)
  {
    EofIsSound(p);
    ReachableInv(p);
    EofCompleteFlow(p.y, p.x);
  }

  lemma EofCompleteFlow(x: End, y: End)
    requires Flow(x, y) && AtEof(y.s)
    ensures y.h.read == x.h.sent <==> !DataUnderway(x.h)
  {
    assert Msgs(y.s.rx) == [];
    assert |y.h.read| == Upto(x.h.log, x.h.polled).told;
    assert x.h.sent[..|x.h.sent|] == x.h.sent;
    ToldGrowsIff(x.h, x.h.polled, |x.h.log|);
  }

  // ---- A run in which bytes are lost to the reader -----------------------------------

  const SMALL := Config(8, 2048, 16, 16, 64, false)

  function A(step: Step): Event { Event(SideA, step) }

  function LateSend(b: u8): seq<Event> { [A(Mark(ShutWr)), A(Post), A(Send([b], Direct))] }

  /** One end shuts down its write side and then sends `b`; the other end hears of the shutdown. */
  function LateRun(b: u8): seq<Event> { LateSend(b) + [A(Land), Event(SideB, PollRecv)] }

  const FIN := MsgSet(OP_CTRL, CTRL_SHUTDOWN)

  /** A byte is accepted after the shutdown. */
  lemma LateByteAccepted(b: u8)
    ensures SMALL.Good() && Legal(Start(SMALL, SMALL), LateSend(b))
    ensures var s := After(Start(SMALL, SMALL), LateSend(b));
            && s.a.h.shutAt == Some(0) && s.a.h.sent == [b]
            && s.a.h.log[..1] == [Wr(NoPayload, Some(FIN), FIN)] && s.a.h.landed == s.a.h.polled == 0
            && Shaped(s.a.s) && s.b == Start(SMALL, SMALL).b
  {
    var s0, e1, e2 := Start(SMALL, SMALL), [A(Mark(ShutWr))], [A(Mark(ShutWr)), A(Post)];
    LegalSnoc(s0, [], A(Mark(ShutWr)));
    assert [] + e1 == e1 && e1 + [A(Post)] == e2 && e2 + [A(Send([b], Direct))] == LateSend(b);
    LegalSnoc(s0, e1, A(Post));
    assert After(s0, e2).a.h.log == [Wr(NoPayload, Some(FIN), FIN)];
    LegalSnoc(s0, e2, A(Send([b], Direct)));
  }

  /** The reader reports end of stream without it. */
  lemma LateByteMissed(b: u8)
    ensures Legal(Start(SMALL, SMALL), LateRun(b))
    ensures var s := After(Start(SMALL, SMALL), LateRun(b));
            AtEof(s.b.s) && !s.b.h.readShut && s.a.h.sent == [b] && s.b.h.read == []
  {
    var s0, e4 := Start(SMALL, SMALL), LateSend(b) + [A(Land)];
    LateByteAccepted(b);
    var s3 := After(s0, LateSend(b));
    assert s3.a.h.log[0] == s3.a.h.log[..1][0];
    LegalSnoc(s0, LateSend(b), A(Land));
    LegalSnoc(s0, e4, Event(SideB, PollRecv));
    assert e4 + [Event(SideB, PollRecv)] == LateRun(b);
  }
}

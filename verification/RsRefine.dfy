/** Calls are runs: what a whole send, read or completion round does to a socket is what some
    steps of the protocol do to it, so what holds of all runs holds of all calls. */
module RsRefine {
  import opened Memory
  import opened RsWire
  import opened RsSocket
  import opened RsProtocol
  import opened RsInvariant
  import opened RsClosure
  import RsDelivery
  import RsGrants
  import C = RsCalls

  // ---- Completion queues ----------------------------------------------------------

  /** Own requests carried out whose completion was not handled. */
  function ToComplete(h: Hist): seq<Wr>
    requires Positions(h)
  {
    h.log[h.completed..h.landed]
  }

  /** Requests of the peer carried out whose message was not handled. */
  function ToPoll(h: Hist): seq<Wr>
    requires Positions(h)
  {
    h.log[h.polled..h.landed]
  }

  function Notices(ws: seq<Wr>): seq<nat> {
    if ws == [] then [] else (if ws[0].msg.Some? then [ws[0].msg.value] else []) + Notices(ws[1..])
  }

  function SendsOf(cq: seq<C.Wc>): seq<nat> {
    if cq == [] then [] else (if cq[0].SendDone? then [cq[0].wrData] else []) + SendsOf(cq[1..])
  }

  function ArrivalsOf(cq: seq<C.Wc>): seq<nat> {
    if cq == [] then [] else (if cq[0].Arrived? then [cq[0].msg] else []) + ArrivalsOf(cq[1..])
  }

  /** The completions are those of the oldest requests carried out, in order. */
  predicate SendsMatch(cq: seq<C.Wc>, ws: seq<Wr>) {
    |SendsOf(cq)| <= |ws| && forall i :: 0 <= i < |SendsOf(cq)| ==> SendsOf(cq)[i] == ws[i].wrData
  }

  /** A queue that reports own completions and arrivals in order, interleaved in any way. */
  predicate Genuine(p: Pair, cq: seq<C.Wc>) {
    && Positions(p.x.h) && Positions(p.y.h)
    && SendsMatch(cq, ToComplete(p.x.h)) && ArrivalsOf(cq) <= Notices(ToPoll(p.y.h))
  }

  /** A socket as its calls see it, in a reachable state. */
  ghost predicate Legit(p: Pair, io: C.Io) {
    Reachable(p) && io.s == p.x.s && Genuine(p, io.cq)
  }

  /** One end moved on: it accepted `sent` and was given `read`; the peer was not touched. */
  ghost predicate Moves(p: Pair, p': Pair, sent: seq<u8>, read: seq<u8>) {
    && Reachable(p')
    && p'.x.h.sent == p.x.h.sent + sent && p'.x.h.read == p.x.h.read + read
    && p'.y.s == p.y.s && p'.y.h.sent == p.y.h.sent && p'.y.h.read == p.y.h.read
    && p'.x.h.readShut == p.x.h.readShut && p'.y.h.shutAt == p.y.h.shutAt
  }

  lemma MovesOn(p: Pair, q: Pair, r: Pair, s1: seq<u8>, r1: seq<u8>, s2: seq<u8>, r2: seq<u8>)
    requires Moves(p, q, s1, r1) && Moves(q, r, s2, r2)
    ensures Moves(p, r, s1 + s2, r1 + r2)
  {
    assert p.x.h.sent + s1 + s2 == p.x.h.sent + (s1 + s2);
    assert p.x.h.read + r1 + r2 == p.x.h.read + (r1 + r2);
  }

  lemma StaysPut(p: Pair)
    requires Reachable(p)
    ensures Moves(p, p, [], [])
  {
    assert p.x.h.sent + [] == p.x.h.sent && p.x.h.read + [] == p.x.h.read;
  }

  // ---- One completion ----------------------------------------------------------------

  lemma {:induction false} SendsTail(cq: seq<C.Wc>, ws: seq<Wr>)
    requires cq != [] && cq[0].SendDone? && SendsMatch(cq, ws)
    ensures ws != [] && cq[0].wrData == ws[0].wrData && SendsMatch(cq[1..], ws[1..])
    ensures ArrivalsOf(cq) == ArrivalsOf(cq[1..])
  {
    var s, t := SendsOf(cq), SendsOf(cq[1..]);
    assert s == [cq[0].wrData] + t;
    forall i | 0 <= i < |t| ensures t[i] == ws[1..][i].wrData { assert t[i] == s[i + 1]; }
  }

  lemma {:induction false} ArrivalsTail(cq: seq<C.Wc>, ws: seq<Wr>)
    requires cq != [] && cq[0].Arrived? && ws != [] && ws[0].msg.Some? && ArrivalsOf(cq) <= Notices(ws)
    ensures ws[0].msg.value == cq[0].msg && ArrivalsOf(cq[1..]) <= Notices(ws[1..])
    ensures SendsOf(cq) == SendsOf(cq[1..])
  {
    var a, n := ArrivalsOf(cq), Notices(ws);
    assert a == [cq[0].msg] + ArrivalsOf(cq[1..]) && n == [ws[0].msg.value] + Notices(ws[1..]);
    assert a[0] == n[0] && a[1..] <= n[1..];
  }

  lemma StepMoves(p: Pair, st: Step)
    requires Reachable(p) && CanDo(st, p) && !st.Land? && !st.Mark?
    ensures Moves(p, Do(st, p), if st.Send? then st.data else [],
                  if st.Recv? then RecvChunk(p.x.s, st.want).bytes else [])
  {
    ReachableStep(p, st);
    RsDelivery.StepHistory(st, p);
  }

  lemma CompleteOne(p: Pair, cq: seq<C.Wc>)
    requires Reachable(p) && Genuine(p, cq) && cq != [] && cq[0].SendDone?
    ensures CanDo(PollSend, p)
    ensures var p' := Do(PollSend, p);
            && p'.x.s == OnSendDone(p.x.s, cq[0].wrData)
            && Genuine(p', cq[1..]) && Moves(p, p', [], [])
  {
    SendsTail(cq, ToComplete(p.x.h));
    RsDelivery.NeverOutOfBounds(p, PollSend);
    StepMoves(p, PollSend);
    var p' := Do(PollSend, p);
    assert ToComplete(p'.x.h) == ToComplete(p.x.h)[1..];
  }

  /** Handle silent requests of the peer until one that brings the next message. */
  lemma ArriveOne(p: Pair, cq: seq<C.Wc>) returns (p': Pair)
    requires Reachable(p) && Shaped(p.x.s) && Genuine(p, cq) && cq != [] && cq[0].Arrived?
    ensures p'.x.s == OnArrival(p.x.s, cq[0].msg)
    ensures Genuine(p', cq[1..]) && Moves(p, p', [], [])
    decreases p.y.h.landed - p.y.h.polled
  {
    var ws := ToPoll(p.y.h);
    assert ws != [] && ws[0] == p.y.h.log[p.y.h.polled];
    RsDelivery.NeverOutOfBounds(p, PollRecv);
    StepMoves(p, PollRecv);
    var q := Do(PollRecv, p);
    assert ToPoll(q.y.h) == ws[1..];
    if ws[0].msg.Some? {
      p' := q;
      ArrivalsTail(cq, ws);
    } else {
      p' := ArriveOne(q, cq);
      MovesOn(p, q, p', [], [], [], []);
    }
  }

  // ---- What the adapter and the peer owe the socket ---------------------------------------

  /** Completions give back no more than the requests they are for took. */
  lemma {:induction false} HeldBound(log: seq<Wr>, c: nat, l: nat, cq: seq<C.Wc>)
    requires c <= l <= |log| && SendsMatch(cq, log[c..l])
    ensures Upto(log, c).held + C.HeldIn(cq) <= Upto(log, l).held
    decreases |cq|
  {
    if cq == [] {
      UptoGrows(log, c, l);
    } else if cq[0].SendDone? {
      SendsTail(cq, log[c..l]);
      assert log[c..l][1..] == log[c + 1..l];
      HeldBound(log, c + 1, l, cq[1..]);
    } else {
      HeldBound(log, c, l, cq[1..]);
    }
  }

  lemma {:induction false} NoticesFit(ws: seq<Wr>, size: nat)
    requires forall i :: 0 <= i < |ws| ==> Told(ws[i]) <= size
    ensures forall m :: m in Notices(ws) && IsDataOp(MsgOp(m)) ==> MsgData(m) <= size
  {
    if ws != [] {
      assert Told(ws[0]) <= size;
      NoticesFit(ws[1..], size);
    }
  }

  lemma {:induction false} ArrivalsFit(cq: seq<C.Wc>, size: nat)
    requires forall m :: m in ArrivalsOf(cq) && IsDataOp(MsgOp(m)) ==> MsgData(m) <= size
    ensures forall i :: 0 <= i < |cq| ==> C.MsgFits(cq[i], size)
  {
    if cq != [] {
      ArrivalsFit(cq[1..], size);
      forall i | 0 <= i < |cq| ensures C.MsgFits(cq[i], size) {
        if 0 < i { assert cq[i] == cq[1..][i - 1]; }
      }
    }
  }

  /** A message not handled yet announces bytes that fit the ring. */
  lemma ToldFits(x: End, y: End, i: nat)
    requires LogOk(y.h) && Shaped(x.s) && 0 < x.s.cfg.rbufSize && FlowRead(y, x)
    requires |y.h.sent| <= |x.h.read| + x.s.cfg.rbufSize && y.h.polled <= i < |y.h.log|
    ensures Told(y.h.log[i]) <= x.s.cfg.rbufSize
  {
    UptoGrows(y.h.log, y.h.polled, i);
    UptoGrows(y.h.log, i + 1, |y.h.log|);
  }

  lemma ReadHolds(p: Pair)
    requires Reachable(p)
    ensures LogOk(p.y.h) && Shaped(p.x.s) && 0 < p.x.s.cfg.rbufSize && FlowRead(p.y, p.x) && SlotsOk(p.x.s)
  {
    ReachableInv(p);
  }

  lemma ArrivalsHold(p: Pair, cq: seq<C.Wc>)
    requires Reachable(p) && Genuine(p, cq)
    ensures forall i :: 0 <= i < |cq| ==> C.MsgFits(cq[i], p.x.s.cfg.rbufSize)
  {
    var ws, size := ToPoll(p.y.h), p.x.s.cfg.rbufSize;
    ReadHolds(p);
    RsGrants.RingConserved(p);
    forall i | 0 <= i < |ws| ensures Told(ws[i]) <= size { ToldFits(p.x, p.y, p.y.h.polled + i); }
    NoticesFit(ws, size);
    forall m | m in ArrivalsOf(cq) ensures m in Notices(ws) {}
    ArrivalsFit(cq, size);
  }

  /** In every reachable state the calls' preconditions hold of any genuine queue. */
  lemma LegitIoOk(p: Pair, io: C.Io)
    requires Legit(p, io)
    ensures C.IoOk(io)
  {
    QueueHolds(p);
    ReadHolds(p);
    ArrivalsHold(p, io.cq);
    HeldBound(p.x.h.log, p.x.h.completed, p.x.h.landed, io.cq);
    UptoGrows(p.x.h.log, p.x.h.landed, |p.x.h.log|);
  }

  // ---- Completion rounds ----------------------------------------------------------------

  lemma PollOneMoves(p: Pair, io: C.Io) returns (p': Pair)
    requires Legit(p, io) && io.cq != []
    ensures C.IoOk(io) && Legit(p', C.PollOne(io)) && Moves(p, p', [], [])
  {
    LegitIoOk(p, io);
    if io.cq[0].SendDone? {
      CompleteOne(p, io.cq);
      p' := Do(PollSend, p);
    } else {
      p' := ArriveOne(p, io.cq);
    }
  }

  lemma {:induction false} PollAllMoves(p: Pair, io: C.Io) returns (p': Pair)
    requires Legit(p, io)
    ensures C.IoOk(io) && Legit(p', C.PollAll(io)) && Moves(p, p', [], [])
    decreases |io.cq|
  {
    LegitIoOk(p, io);
    if io.cq == [] {
      p' := p;
      StaysPut(p);
    } else {
      p' := PollOneMoves(p, io);
      if !(io.cq[0].Arrived? && C.Ends(io.s, io.cq[0].msg)) {
        var q := p';
        p' := PollAllMoves(q, C.PollOne(io));
        MovesOn(p, q, p', [], [], [], []);
      }
    }
  }

  /** Posting requests leaves what is waiting in the queue as it was. */
  lemma StillGenuine(p: Pair, p': Pair, cq: seq<C.Wc>)
    requires Genuine(p, cq) && p'.y.h == p.y.h && p.x.h.log <= p'.x.h.log
    requires p'.x.h.completed == p.x.h.completed && p'.x.h.landed == p.x.h.landed && p'.x.h.polled == p.x.h.polled
    ensures Genuine(p', cq)
  {
    assert ToComplete(p'.x.h) == ToComplete(p.x.h);
  }

  lemma CreditMoves(p: Pair, io: C.Io) returns (p': Pair)
    requires Legit(p, io)
    ensures C.IoOk(io) && Legit(p', C.UpdateCredits(io)) && Moves(p, p', [], [])
  {
    LegitIoOk(p, io);
    if GiveCredits(io.s) {
      RsDelivery.NeverOutOfBounds(p, Credit);
      StepMoves(p, Credit);
      p' := Do(Credit, p);
      StillGenuine(p, p', io.cq);
    } else {
      p' := p;
      StaysPut(p);
    }
  }

  /** A completion round of a socket is a run of its end. */
  lemma ProcessMoves(p: Pair, io: C.Io) returns (p': Pair)
    requires Legit(p, io)
    ensures C.IoOk(io) && Legit(p', C.ProcessCq(io)) && Moves(p, p', [], [])
  {
    LegitIoOk(p, io);
    var q := CreditMoves(p, io);
    var r := PollAllMoves(q, C.UpdateCredits(io));
    p' := CreditMoves(r, C.PollAll(C.UpdateCredits(io)));
    MovesOn(p, q, r, [], [], [], []);
    MovesOn(p, r, p', [], [], [], []);
  }

  // ---- Sending -----------------------------------------------------------------------------

  lemma ReadyMoves(p: Pair, io: C.Io) returns (p': Pair)
    requires Legit(p, io)
    ensures C.IoOk(io) && Legit(p', C.Ready(io).0) && Moves(p, p', [], [])
  {
    LegitIoOk(p, io);
    if CanSend(io.s) {
      p' := p;
      StaysPut(p);
    } else {
      p' := ProcessMoves(p, io);
    }
  }

  /** Posting a chunk is a send step. */
  lemma ChunkMoves(p: Pair, io: C.Io, data: seq<u8>, olen: nat, vectored: bool) returns (p': Pair)
    requires Legit(p, io) && Shaped(io.s) && CanSend(io.s) && data != [] && C.OlenOk(olen)
    ensures C.IoOk(io) && Legit(p', C.PostChunk(io, data, olen, vectored))
    ensures C.XferSize(io.s, |data|, olen) <= |data|
    ensures Moves(p, p', data[..C.XferSize(io.s, |data|, olen)], [])
  {
    LegitIoOk(p, io);
    var n := C.XferSize(io.s, |data|, olen);
    var st := Send(data[..n], C.PathOf(io.s, n, vectored));
    RsDelivery.NeverOutOfBounds(p, st);
    StepMoves(p, st);
    p' := Do(st, p);
    StillGenuine(p, p', io.cq);
  }

  /** One pass of the send loop: completions if need be, then a chunk. */
  lemma PassMoves(p: Pair, io: C.Io, data: seq<u8>, olen: nat, vectored: bool) returns (p': Pair)
    requires Legit(p, io) && C.IoOk(io) && C.OlenOk(olen) && data != [] && C.Ready(io).1.AllSent?
    ensures var io1 := C.Ready(io).0;
            && C.IoOk(io1) && CanSend(io1.s) && C.XferSize(io1.s, |data|, olen) <= |data|
            && Legit(p', C.PostChunk(io1, data, olen, vectored))
            && Moves(p, p', data[..C.XferSize(io1.s, |data|, olen)], [])
  {
    var io1 := C.Ready(io).0;
    var q := ReadyMoves(p, io);
    LegitIoOk(q, io1);
    p' := ChunkMoves(q, io1, data, olen, vectored);
    var n := C.XferSize(io1.s, |data|, olen);
    MovesOn(p, q, p', [], [], data[..n], []);
    assert [] + data[..n] == data[..n];
  }

  lemma JoinSends(p: Pair, q: Pair, p': Pair, data: seq<u8>, n: nat, rest: C.Sent, all: C.Sent)
    requires n <= |data| && rest.count <= |data| - n && all == C.After(n, rest)
    requires Moves(p, q, data[..n], []) && Moves(q, p', data[n..][..rest.count], []) && Legit(p', rest.io)
    ensures all.count <= |data| && Moves(p, p', data[..all.count], []) && Legit(p', all.io)
  {
    MovesOn(p, q, p', data[..n], [], data[n..][..rest.count], []);
    assert data[..n] + data[n..][..rest.count] == data[..all.count];
  }

  /** A whole send call, plain or vectored, is a run that accepts the bytes it reports. */
  lemma {:induction false} SendMoves(p: Pair, io: C.Io, data: seq<u8>, olen: nat, vectored: bool) returns (p': Pair)
    requires Legit(p, io) && C.OlenOk(olen)
    ensures C.IoOk(io)
    ensures var r := C.SendLoop(io, data, olen, vectored);
            Legit(p', r.io) && Moves(p, p', data[..r.count], [])
    decreases |data|
  {
    LegitIoOk(p, io);
    if data == [] {
      p' := p;
      StaysPut(p);
    } else if !C.Ready(io).1.AllSent? {
      p' := ReadyMoves(p, io);
    } else {
      var io1 := C.Ready(io).0;
      var q := PassMoves(p, io, data, olen, vectored);
      var n, io2 := C.XferSize(io1.s, |data|, olen), C.PostChunk(io1, data, olen, vectored);
      p' := SendMoves(q, io2, data[n..], C.NextOlen(|data|, olen), vectored);
      var rest := C.SendLoop(io2, data[n..], C.NextOlen(|data|, olen), vectored);
      C.SendUnfolds(io, data, olen, vectored);
      JoinSends(p, q, p', data, n, rest, C.SendLoop(io, data, olen, vectored));
    }
  }

  // ---- Reading ----------------------------------------------------------------------------

  /** One pass of the read loop. */
  lemma ReadOnce(p: Pair, len: nat) returns (q: Pair)
    requires Reachable(p) && C.RxOk(p.x.s) && 0 < len && HaveRdata(p.x.s)
    ensures ChunkSize(p.x.s, len) <= p.x.s.cfg.rbufSize
    ensures var d := RecvChunk(p.x.s, len);
            && Reachable(q) && q.x.s == d.sock && Moves(p, q, [], d.bytes)
            && q.x.h == p.x.h.(read := q.x.h.read, nread := q.x.h.nread) && q.y == p.y
  {
    C.ChunkProgress(p.x.s, len);
    RsDelivery.NeverOutOfBounds(p, Recv(len));
    StepMoves(p, Recv(len));
    q := Do(Recv(len), p);
  }

  lemma {:induction false} ReadMoves(p: Pair, len: nat) returns (p': Pair)
    requires Reachable(p) && C.RxOk(p.x.s)
    ensures var r := C.RecvLoop(p.x.s, len);
            && p'.x.s == r.sock && Moves(p, p', [], r.bytes)
            && p'.x.h == p.x.h.(read := p'.x.h.read, nread := p'.x.h.nread) && p'.y == p.y
    decreases |Msgs(p.x.s.rx)|, len
  {
    if len == 0 || !HaveRdata(p.x.s) {
      p' := p;
      StaysPut(p);
    } else {
      var q := ReadOnce(p, len);
      var d := RecvChunk(p.x.s, len);
      C.ChunkProgress(p.x.s, len);
      p' := ReadMoves(q, len - |d.bytes|);
      MovesOn(p, q, p', [], d.bytes, [], C.RecvLoop(d.sock, len - |d.bytes|).bytes);
    }
  }

  lemma SameWaiting(p: Pair, p': Pair, cq: seq<C.Wc>)
    requires Genuine(p, cq) && p'.y == p.y && p'.x.h == p.x.h.(read := p'.x.h.read, nread := p'.x.h.nread)
    ensures Genuine(p', cq)
  {
  }

  lemma RefreshMoves(p: Pair, io: C.Io) returns (p': Pair)
    requires Legit(p, io)
    ensures C.IoOk(io) && Legit(p', C.Refreshed(io)) && Moves(p, p', [], [])
  {
    LegitIoOk(p, io);
    if HaveRdata(io.s) {
      p' := p;
      StaysPut(p);
    } else {
      p' := ProcessMoves(p, io);
    }
  }

  /** A whole read call is a run that is given the bytes it returns. */
  lemma RecvMoves(p: Pair, io: C.Io, len: nat) returns (p': Pair)
    requires Legit(p, io)
    ensures C.IoOk(io)
    ensures var g := C.RecvCall(io, len);
            Legit(p', g.io) && Moves(p, p', [], g.bytes)
  {
    LegitIoOk(p, io);
    var io1 := C.Refreshed(io);
    var q := RefreshMoves(p, io);
    LegitIoOk(q, io1);
    if !HaveRdata(io1.s) && io1.s.life.readable {
      p' := q;
    } else {
      p' := ReadMoves(q, len);
      SameWaiting(q, p', io1.cq);
      var bytes := C.RecvLoop(io1.s, len).bytes;
      MovesOn(p, q, p', [], [], [], bytes);
      assert [] + bytes == bytes;
    }
  }

  // ---- What the calls guarantee --------------------------------------------------------------

  /** Whatever calls were made before on either end, a read returns the bytes of the peer's
      stream that follow those already returned. */
  lemma ReadReturnsStream(p: Pair, io: C.Io, len: nat)
    requires Legit(p, io)
    ensures C.IoOk(io)
    ensures var got, r := C.RecvCall(io, len).bytes, |p.x.h.read|;
            r + |got| <= |p.y.h.sent| && got == p.y.h.sent[r..r + |got|]
  {
    var p' := RecvMoves(p, io, len);
    RsDelivery.ReadIsPrefix(p');
    var got, r := C.RecvCall(io, len).bytes, |p.x.h.read|;
    assert p'.x.h.read[r..] == got;
  }

  /** What a send call accepts is appended to the stream, and a vectored send appends the
      concatenation of its vectors as far as it got. */
  lemma SendExtendsStream(p: Pair, io: C.Io, data: seq<u8>, vectored: bool) returns (p': Pair)
    requires Legit(p, io)
    ensures C.IoOk(io)
    ensures var r := C.SendLoop(io, data, RS_OLAP_START_SIZE, vectored);
            && Legit(p', r.io)
            && p'.x.h.sent == p.x.h.sent + data[..r.count] && p'.x.h.read == p.x.h.read
            && p'.y.s == p.y.s && p'.y.h.sent == p.y.h.sent && p'.y.h.read == p.y.h.read
  {
    p' := SendMoves(p, io, data, RS_OLAP_START_SIZE, vectored);
    assert p.x.h.read + [] == p.x.h.read;
  }

  lemma AnnouncedFits(x: End, y: End)
    requires LogOk(y.h) && Shaped(x.s) && 0 < x.s.cfg.rbufSize && FlowRead(y, x)
    requires |y.h.sent| <= |x.h.read| + x.s.cfg.rbufSize
    ensures SumOf(Msgs(x.s.rx)) <= x.s.cfg.rbufSize
    ensures forall i :: 0 <= i < |Msgs(x.s.rx)| ==> 0 < Msgs(x.s.rx)[i]
  {
    UptoGrows(y.h.log, y.h.polled, |y.h.log|);
  }

  /** In a reachable state a read reports end of stream exactly when nothing is left to read
      and the read side is closed. */
  lemma EofIsReported(p: Pair, io: C.Io, len: nat)
    requires Legit(p, io) && 0 < len
    ensures C.IoOk(io)
    ensures !C.ReadFrom(io, len).blocked && C.ReadFrom(io, len).bytes == [] <==> AtEof(p.x.s)
  {
    LegitIoOk(p, io);
    ReadHolds(p);
    RsGrants.RingConserved(p);
    AnnouncedFits(p.x, p.y);
    C.EofIsReported(io, len);
  }

  /** A read call on an end that did not close its read side returns no byte without blocking
      only after every byte that the peer accepted before its shutdown was returned. */
  lemma EofCallIsSound(p: Pair, io: C.Io, len: nat)
    requires Legit(p, io) && C.IoOk(io) && 0 < len && !p.x.h.readShut
    requires !C.RecvCall(io, len).blocked && C.RecvCall(io, len).bytes == []
    ensures p.y.h.shutAt.Some? && p.y.h.shutAt.value <= |p.y.h.sent|
    ensures p.y.h.sent[..p.y.h.shutAt.value] <= p.x.h.read <= p.y.h.sent
  {
    var q := RefreshMoves(p, io);
    EofIsReported(q, C.Refreshed(io), len);
    RsDelivery.EofIsSound(q);
    assert p.x.h.read + [] == p.x.h.read;
  }
}

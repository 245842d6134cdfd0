/** Whole calls on one stream socket: what a non-blocking send, vectored send,
    read and peek do, as compositions of the socket's steps. */
module RsCalls {
  import opened Memory
  import opened Wrappers
  import opened RsWire
  import opened RsSocket
  import opened RsChunk

  /** A completion the adapter reports: of an own request, or a message's arrival. */
  datatype Wc = SendDone(wrData: nat) | Arrived(msg: nat)

  /** A socket, the completions waiting in its queue, the requests it posted. */
  datatype Io = Io(s: Sock, cq: seq<Wc>, posted: seq<Wr>)

  function HeldBy(c: Wc): nat {
    if c.SendDone? && MsgOp(c.wrData) != OP_SGL && MsgOp(c.wrData) != OP_CTRL then MsgData(c.wrData) else 0
  }

  function HeldIn(cq: seq<Wc>): nat { if cq == [] then 0 else HeldBy(cq[0]) + HeldIn(cq[1..]) }

  predicate MsgFits(c: Wc, size: nat) {
    c.Arrived? && IsDataOp(MsgOp(c.msg)) ==> MsgData(c.msg) <= size
  }

  /** What the adapter and the peer owe the socket: completions give back no more
      than was taken, and no message announces more bytes than the ring has. */
  predicate IoOk(io: Io) {
    && Shaped(io.s)
    && io.s.tx.sbufBytesAvail + HeldIn(io.cq) <= io.s.cfg.sbufSize
    && (forall i :: 0 <= i < |io.cq| ==> MsgFits(io.cq[i], io.s.cfg.rbufSize))
    && SlotsOk(io.s)
  }

  // ---- Completions ------------------------------------------------------------

  /** A message that ends the connection at once. */
  predicate Ends(s: Sock, msg: nat) {
    MsgOp(msg) == OP_CTRL &&
    (MsgData(msg) == CTRL_DISCONNECT || (MsgData(msg) == CTRL_SHUTDOWN && !s.life.writable))
  }

  function OnCompletion(s: Sock, c: Wc): Sock
    requires Shaped(s)
  {
    if c.SendDone? then OnSendDone(s, c.wrData) else OnArrival(s, c.msg)
  }

  /** The socket after its oldest completion. */
  function PollOne(io: Io): (r: Io)
    requires IoOk(io) && io.cq != []
    ensures IoOk(r)
  {
    Io(OnCompletion(io.s, io.cq[0]), io.cq[1..], io.posted)
  }

  /** Handle completions until the queue is empty or the connection ends. */
  function PollAll(io: Io): (r: Io)
    requires IoOk(io)
    ensures IoOk(r)
    decreases |io.cq|
  {
    if io.cq == [] then io
    else if io.cq[0].Arrived? && Ends(io.s, io.cq[0].msg) then PollOne(io)
    else PollAll(PollOne(io))
  }

  function UpdateCredits(io: Io): (r: Io)
    requires IoOk(io)
    ensures IoOk(r)
  {
    if GiveCredits(io.s) then
      var d := SendCredits(io.s);
      Io(d.sock, io.cq, io.posted + d.posted)
    else io
  }

  /** One non-blocking round over the completion queue. */
  function ProcessCq(io: Io): (r: Io)
    requires IoOk(io)
    ensures IoOk(r)
  {
    UpdateCredits(PollAll(UpdateCredits(io)))
  }

  // ---- Sending ------------------------------------------------------------------

  function Min(a: int, b: int): int { if a <= b then a else b }

  /** The size of the next chunk, from the growing overlap size and the room left. */
  function XferSize(s: Sock, left: nat, olen: nat): nat
    requires Shaped(s) && 0 <= s.tx.sbufBytesAvail
  {
    Min(Min(Min(olen, left), s.tx.sbufBytesAvail), s.tx.targetSgl[s.tx.targetSge].length)
  }

  function NextOlen(left: nat, olen: nat): nat {
    if olen < left && olen < RS_MAX_TRANSFER then 2 * olen else olen
  }

  function PathOf(s: Sock, n: nat, vectored: bool): Path {
    if n > s.cfg.sqInline then Ring else if vectored then RingInline else Direct
  }

  /** How a send call ends. */
  datatype Outcome = AllSent | WouldBlock | Reset

  datatype Sent = Sent(io: Io, count: nat, outcome: Outcome)

  /** The result of a call that accepted `n` bytes before the rest. */
  function After(n: nat, r: Sent): Sent { r.(count := n + r.count) }

  predicate OlenOk(olen: nat) { olen in {2048, 4096, 8192, 16384, 32768, 65536} }

  /** A socket ready for the next chunk, or the reason there is none. */
  function Ready(io: Io): (Io, Outcome)
    requires IoOk(io)
  {
    if CanSend(io.s) then (io, AllSent)
    else
      var io1 := ProcessCq(io);
      if !CanSend(io1.s) && io1.s.life.writable then (io1, WouldBlock)
      else if !io1.s.life.writable then (io1, Reset)
      else (io1, AllSent)
  }

  /** Post one chunk from the front of `data`. */
  function PostChunk(io: Io, data: seq<u8>, olen: nat, vectored: bool): (r: Io)
    requires IoOk(io) && CanSend(io.s) && data != [] && OlenOk(olen)
    ensures IoOk(r)
  {
    var n := XferSize(io.s, |data|, olen);
    var d := SendChunk(io.s, data[..n], PathOf(io.s, n, vectored));
    Io(d.sock, io.cq, io.posted + d.posted)
  }

  /** The send loop: chunks of growing size until all is accepted or none fits. */
  function SendLoop(io: Io, data: seq<u8>, olen: nat, vectored: bool): (r: Sent)
    requires IoOk(io) && OlenOk(olen)
    ensures IoOk(r.io) && r.count <= |data| && (r.outcome.AllSent? <==> r.count == |data|)
    decreases |data|
  {
    if data == [] then Sent(io, 0, AllSent)
    else
      var (io1, o) := Ready(io);
      if !o.AllSent? then Sent(io1, 0, o)
      else
        var n := XferSize(io1.s, |data|, olen);
        After(n, SendLoop(PostChunk(io1, data, olen, vectored), data[n..], NextOlen(|data|, olen), vectored))
  }

  /** One pass of the send loop and the passes after it. */
  lemma SendUnfolds(io: Io, data: seq<u8>, olen: nat, vectored: bool)
    requires IoOk(io) && OlenOk(olen) && data != [] && Ready(io).1.AllSent?
    requires IoOk(Ready(io).0) && CanSend(Ready(io).0.s) && XferSize(Ready(io).0.s, |data|, olen) <= |data|
    ensures var io1 := Ready(io).0;
            var n := XferSize(io1.s, |data|, olen);
            SendLoop(io, data, olen, vectored)
            == After(n, SendLoop(PostChunk(io1, data, olen, vectored), data[n..], NextOlen(|data|, olen), vectored))
  {
  }

  // ---- A vectored send is a send of the concatenation -----------------------

  function Flat(iov: seq<seq<u8>>): seq<u8> { if iov == [] then [] else iov[0] + Flat(iov[1..]) }

  /** A placed chunk gathers to its own bytes. */
  lemma PlacedGathers(tx: Tx, data: seq<u8>)
    requires tx.ssglAddr < |tx.sbuf| && |data| <= |tx.sbuf|
    ensures var r := PlaceInRing(tx, data);
            SourceFits(r.1, |r.0.sbuf|) && Gather(r.0.sbuf, r.1) == data
  {
  }

  /** Two requests that differ only in where their bytes are taken from. */
  predicate AlikeWr(w: Wr, v: Wr) {
    && w.msg == v.msg && w.wrData == v.wrData
    && (if w.payload.ToRing?
        then v.payload.ToRing? && v.payload.addr == w.payload.addr && v.payload.src.Len() == w.payload.src.Len()
        else v.payload == w.payload)
  }

  predicate AlikeTx(a: Tx, b: Tx) { b == a.(sbuf := b.sbuf, ssglAddr := b.ssglAddr) }

  /** Two sockets that differ only in the contents of the send ring. */
  predicate Alike(a: Io, b: Io) {
    && b.s == a.s.(tx := b.s.tx) && AlikeTx(a.s.tx, b.s.tx) && b.cq == a.cq
    && |b.posted| == |a.posted|
    && (forall i :: 0 <= i < |a.posted| ==> AlikeWr(a.posted[i], b.posted[i]))
  }

  lemma AlikePosted(a: seq<Wr>, b: seq<Wr>, ws: seq<Wr>, vs: seq<Wr>)
    requires |a| == |b| && |ws| == |vs|
    requires forall i :: 0 <= i < |a| ==> AlikeWr(a[i], b[i])
    requires forall i :: 0 <= i < |ws| ==> AlikeWr(ws[i], vs[i])
    ensures forall i :: 0 <= i < |a + ws| ==> AlikeWr((a + ws)[i], (b + vs)[i])
  {
  }

  lemma PollOneAlike(a: Io, b: Io)
    requires IoOk(a) && IoOk(b) && Alike(a, b) && a.cq != []
    ensures Alike(PollOne(a), PollOne(b))
  {
  }

  lemma {:induction false} PollAlike(a: Io, b: Io)
    requires IoOk(a) && IoOk(b) && Alike(a, b)
    ensures Alike(PollAll(a), PollAll(b))
    decreases |a.cq|
  {
    if a.cq != [] {
      PollOneAlike(a, b);
      if !(a.cq[0].Arrived? && Ends(a.s, a.cq[0].msg)) {
        PollAlike(PollOne(a), PollOne(b));
      }
    }
  }

  lemma CreditsAlike(a: Io, b: Io)
    requires IoOk(a) && IoOk(b) && Alike(a, b)
    ensures Alike(UpdateCredits(a), UpdateCredits(b))
  {
    if GiveCredits(a.s) {
      AlikePosted(a.posted, b.posted, SendCredits(a.s).posted, SendCredits(b.s).posted);
    }
  }

  lemma ReadyAlike(a: Io, b: Io)
    requires IoOk(a) && IoOk(b) && Alike(a, b)
    ensures Alike(Ready(a).0, Ready(b).0) && Ready(a).1 == Ready(b).1
  {
    CreditsAlike(a, b);
    PollAlike(UpdateCredits(a), UpdateCredits(b));
    CreditsAlike(PollAll(UpdateCredits(a)), PollAll(UpdateCredits(b)));
  }

  /** Writing from different places in memory differs in nothing else. */
  lemma WriteAlike(s: Sock, t: Sock, src: Source, tgt: Source, n: nat)
    requires s.tx.targetSge < |s.tx.targetSgl| == 2 && n < MSG_UNIT
    requires n <= s.tx.targetSgl[s.tx.targetSge].length
    requires t == s.(tx := t.tx) && AlikeTx(s.tx, t.tx) && src.Len() == tgt.Len()
    ensures var d, e := WriteData(s, src, n), WriteData(t, tgt, n);
            && e.sock == d.sock.(tx := e.sock.tx) && AlikeTx(d.sock.tx, e.sock.tx)
            && |e.posted| == |d.posted|
            && (forall i :: 0 <= i < |d.posted| ==> AlikeWr(d.posted[i], e.posted[i]))
  {
  }

  lemma PlacedAlike(tx: Tx, data: seq<u8>)
    requires tx.ssglAddr < |tx.sbuf| && |data| <= |tx.sbuf|
    ensures AlikeTx(tx, PlaceInRing(tx, data).0) && PlaceInRing(tx, data).1.Len() == |data|
  {
  }

  lemma SendChunkAlike(s: Sock, t: Sock, data: seq<u8>)
    requires Shaped(s) && Shaped(t) && t == s.(tx := t.tx) && AlikeTx(s.tx, t.tx)
    requires ChunkOk(s, data, PathOf(s, |data|, false)) && |data| <= s.cfg.sbufSize
    ensures ChunkOk(t, data, PathOf(t, |data|, true))
    ensures var d, e := SendChunk(s, data, PathOf(s, |data|, false)), SendChunk(t, data, PathOf(t, |data|, true));
            && e.sock == d.sock.(tx := e.sock.tx) && AlikeTx(d.sock.tx, e.sock.tx)
            && |e.posted| == |d.posted|
            && (forall i :: 0 <= i < |d.posted| ==> AlikeWr(d.posted[i], e.posted[i]))
  {
    var ps, pt := PlaceInRing(s.tx, data), PlaceInRing(t.tx, data);
    PlacedAlike(s.tx, data);
    PlacedAlike(t.tx, data);
    if |data| > s.cfg.sqInline {
      WriteAlike(s.(tx := ps.0), t.(tx := pt.0), ps.1, pt.1, |data|);
    } else {
      WriteAlike(s, t.(tx := pt.0), Source(0, 0, 0, Some(data)), pt.1.(captured := Some(data)), |data|);
    }
  }

  lemma ChunkAlike(a: Io, b: Io, data: seq<u8>, olen: nat)
    requires IoOk(a) && IoOk(b) && Alike(a, b) && CanSend(a.s) && data != [] && OlenOk(olen)
    ensures XferSize(a.s, |data|, olen) == XferSize(b.s, |data|, olen)
    ensures Alike(PostChunk(a, data, olen, false), PostChunk(b, data, olen, true))
  {
    var n := XferSize(a.s, |data|, olen);
    SendChunkAlike(a.s, b.s, data[..n]);
    AlikePosted(a.posted, b.posted, SendChunk(a.s, data[..n], PathOf(a.s, n, false)).posted,
                SendChunk(b.s, data[..n], PathOf(b.s, n, true)).posted);
  }

  /** Sending through the ring accepts the same bytes, in the same chunks, with
      the same requests, as sending small chunks straight from the caller. */
  lemma {:induction false} VectoredSendsTheSame(a: Io, b: Io, data: seq<u8>, olen: nat)
    requires IoOk(a) && IoOk(b) && Alike(a, b) && OlenOk(olen)
    ensures var r, v := SendLoop(a, data, olen, false), SendLoop(b, data, olen, true);
            v.count == r.count && v.outcome == r.outcome && Alike(r.io, v.io)
    decreases |data|
  {
    if data != [] {
      ReadyAlike(a, b);
      var a1, b1 := Ready(a).0, Ready(b).0;
      if Ready(a).1.AllSent? {
        var n := XferSize(a1.s, |data|, olen);
        ChunkAlike(a1, b1, data, olen);
        VectoredSendsTheSame(PostChunk(a1, data, olen, false), PostChunk(b1, data, olen, true),
                             data[n..], NextOlen(|data|, olen));
      }
    }
  }

  // ---- Reading ------------------------------------------------------------------

  predicate RxOk(s: Sock) {
    Shaped(s) && SlotsOk(s)
  }

  lemma ChunkProgress(s: Sock, want: nat)
    requires RxOk(s) && HaveRdata(s)
    ensures var s', q, q' := RecvChunk(s, want).sock, Msgs(s.rx), Msgs(RecvChunk(s, want).sock.rx);
            && RxOk(s') && q != [] && q[0] == s.rx.rmsg[s.rx.rmsgHead]
            && q' == (if want < q[0] then [q[0] - want] + q[1..] else q[1..])
            && |RecvChunk(s, want).bytes| == Min(want, q[0])
  {
    MsgsAfterChunk(s, want);
  }

  /** The read loop: message by message until `len` bytes or no message is left. */
  function RecvLoop(s: Sock, len: nat): (r: Done)
    requires RxOk(s)
    ensures RxOk(r.sock) && |r.bytes| <= len && r.posted == []
    ensures r.sock == s.(rx := r.sock.rx)
    decreases |Msgs(s.rx)|, len
  {
    if len == 0 || !HaveRdata(s) then Done(s, [], [])
    else
      ChunkProgress(s, len);
      var d := RecvChunk(s, len);
      Then(d.bytes, RecvLoop(d.sock, len - |d.bytes|))
  }

  function PendingFrom(rx: Rx, head: nat): nat
    requires head < |rx.rmsg| && rx.rmsgTail < |rx.rmsg|
  {
    if head <= rx.rmsgTail then rx.rmsgTail - head else rx.rmsgTail + |rx.rmsg| - head
  }

  /** The peek loop: the same walk with its own head and offset. */
  function PeekLoop(s: Sock, head: nat, offset: nat, left: nat): (r: seq<u8>)
    requires RxOk(s) && head <= s.cfg.rqSize && offset <= s.cfg.rbufSize
    ensures |r| <= left
    decreases PendingFrom(s.rx, head), left
  {
    if left == 0 || head == s.rx.rmsgTail then []
    else
      var d := s.rx.rmsg[head];
      var n := if left < d then left else d;
      var head' := if left < d then head else if head + 1 == s.cfg.rqSize + 1 then 0 else head + 1;
      RingBytes(s.rx.rbuf, offset, n) + PeekLoop(s, head', AdvanceOffset(s.cfg.rbufSize, offset, n), left - n)
  }

  function Peek(s: Sock, len: nat): seq<u8>
    requires RxOk(s)
  {
    PeekLoop(s, s.rx.rmsgHead, s.rx.rbufOffset, len)
  }

  /** A socket whose unread messages, seen from `head`, are those of another. */
  predicate SameFrom(s: Sock, t: Sock, head: nat, offset: nat) {
    && t.cfg == s.cfg && t.rx.rbuf == s.rx.rbuf && t.rx.rmsg == s.rx.rmsg && t.rx.rmsgTail == s.rx.rmsgTail
    && t.rx.rmsgHead == head && t.rx.rbufOffset == offset
  }

  /** A read pass moves on as a peek pass does. */
  lemma ChunkMovesOn(s: Sock, t: Sock, head: nat, offset: nat, left: nat)
    requires RxOk(s) && RxOk(t) && SameFrom(s, t, head, offset) && head != s.rx.rmsgTail && s.rx.rmsg[head] <= left
    ensures var head' := if head + 1 == s.cfg.rqSize + 1 then 0 else head + 1;
            var d, t' := s.rx.rmsg[head], RecvChunk(t, left);
            && RxOk(t'.sock) && SameFrom(s, t'.sock, head', AdvanceOffset(s.cfg.rbufSize, offset, d))
            && t'.bytes == RingBytes(s.rx.rbuf, offset, d)
  {
  }

  /** Both stop within the first message. */
  lemma WalkEnds(s: Sock, t: Sock, head: nat, offset: nat, left: nat)
    requires RxOk(s) && RxOk(t) && SameFrom(s, t, head, offset) && head != s.rx.rmsgTail && 0 < left < s.rx.rmsg[head]
    ensures PeekLoop(s, head, offset, left) == RecvLoop(t, left).bytes
  {
    ChunkProgress(t, left);
    var r, t' := RingBytes(s.rx.rbuf, offset, left), RecvChunk(t, left);
    assert t'.bytes == r && RecvLoop(t'.sock, 0).bytes == [];
    assert PeekLoop(s, head, AdvanceOffset(s.cfg.rbufSize, offset, left), 0) == [];
    assert RecvLoop(t, left).bytes == r + [] == PeekLoop(s, head, offset, left);
  }

  lemma RecvUnfolds(t: Sock, left: nat)
    requires RxOk(t) && HaveRdata(t) && 0 < left
    ensures var d := RecvChunk(t, left);
            && RxOk(d.sock) && |d.bytes| <= left
            && RecvLoop(t, left).bytes == d.bytes + RecvLoop(d.sock, left - |d.bytes|).bytes
  {
    ChunkProgress(t, left);
  }

  lemma PeekUnfolds(s: Sock, head: nat, offset: nat, left: nat, rest: seq<u8>)
    requires RxOk(s) && head <= s.cfg.rqSize && offset <= s.cfg.rbufSize && head != s.rx.rmsgTail
    requires 0 < left && s.rx.rmsg[head] <= left
    requires var head' := if head + 1 == s.cfg.rqSize + 1 then 0 else head + 1;
             var d := s.rx.rmsg[head];
             PeekLoop(s, head', AdvanceOffset(s.cfg.rbufSize, offset, d), left - d) == rest
    ensures PeekLoop(s, head, offset, left) == RingBytes(s.rx.rbuf, offset, s.rx.rmsg[head]) + rest
  {
  }

  /** Both take the first message and then the same bytes. */
  lemma WalkOn(s: Sock, t: Sock, head: nat, offset: nat, left: nat, rest: seq<u8>)
    requires RxOk(s) && RxOk(t) && SameFrom(s, t, head, offset) && head != s.rx.rmsgTail
    requires 0 < left && s.rx.rmsg[head] <= left && RxOk(RecvChunk(t, left).sock)
    requires var head' := if head + 1 == s.cfg.rqSize + 1 then 0 else head + 1;
             var d := s.rx.rmsg[head];
             && PeekLoop(s, head', AdvanceOffset(s.cfg.rbufSize, offset, d), left - d) == rest
             && RecvLoop(RecvChunk(t, left).sock, left - d).bytes == rest
    ensures PeekLoop(s, head, offset, left) == RecvLoop(t, left).bytes
  {
    ChunkMovesOn(s, t, head, offset, left);
    RecvUnfolds(t, left);
    PeekUnfolds(s, head, offset, left, rest);
  }

  lemma {:induction false} PeekWalk(s: Sock, t: Sock, head: nat, offset: nat, left: nat)
    requires RxOk(s) && RxOk(t) && SameFrom(s, t, head, offset)
    ensures PeekLoop(s, head, offset, left) == RecvLoop(t, left).bytes
    decreases PendingFrom(s.rx, head), left
  {
    if left != 0 && head != s.rx.rmsgTail {
      var d := s.rx.rmsg[head];
      if left < d {
        WalkEnds(s, t, head, offset, left);
      } else {
        var head' := if head + 1 == s.cfg.rqSize + 1 then 0 else head + 1;
        ChunkMovesOn(s, t, head, offset, left);
        PeekWalk(s, RecvChunk(t, left).sock, head', AdvanceOffset(s.cfg.rbufSize, offset, d), left - d);
        WalkOn(s, t, head, offset, left, RecvLoop(RecvChunk(t, left).sock, left - d).bytes);
      }
    }
  }

  /** Peeking returns what reading the same length would return next. */
  lemma PeekMatchesRecv(s: Sock, len: nat)
    requires RxOk(s)
    ensures Peek(s, len) == RecvLoop(s, len).bytes
  {
    PeekWalk(s, s, s.rx.rmsgHead, s.rx.rbufOffset, len);
  }

  /** Two reads in a row are one read of both lengths. */
  lemma RingBytesJoin(rbuf: seq<u8>, offset: nat, a: nat, b: nat)
    requires offset <= |rbuf| && a + b <= |rbuf|
    ensures AdvanceOffset(|rbuf|, offset, a) <= |rbuf|
    ensures RingBytes(rbuf, offset, a) + RingBytes(rbuf, AdvanceOffset(|rbuf|, offset, a), b)
            == RingBytes(rbuf, offset, a + b)
  {
  }

  lemma LeftAfterChunk(s: Sock, len: nat)
    requires RxOk(s) && HaveRdata(s)
    ensures |RecvChunk(s, len).bytes| == Min(len, Msgs(s.rx)[0]) <= SumOf(Msgs(s.rx))
    ensures SumOf(Msgs(RecvChunk(s, len).sock.rx)) == SumOf(Msgs(s.rx)) - Min(len, Msgs(s.rx)[0])
  {
    MsgsAfterChunk(s, len);
    SumAfterChunk(s, len);
  }

  lemma ChunkRing(s: Sock, len: nat)
    requires RxOk(s) && HaveRdata(s)
    ensures var d := RecvChunk(s, len);
            && d.sock.rx.rbuf == s.rx.rbuf && d.sock.cfg == s.cfg
            && d.bytes == RingBytes(s.rx.rbuf, s.rx.rbufOffset, |d.bytes|)
            && d.sock.rx.rbufOffset == AdvanceOffset(s.cfg.rbufSize, s.rx.rbufOffset, |d.bytes|)
            && d.sock.rx.rbufBytesAvail == s.rx.rbufBytesAvail + |d.bytes|
  {
  }

  /** That a read result is the next `n` bytes of the ring. */
  predicate IsNext(s: Sock, r: Done, n: nat)
    requires RxOk(s) && RxOk(r.sock)
  {
    && n <= s.cfg.rbufSize
    && r.bytes == RingBytes(s.rx.rbuf, s.rx.rbufOffset, n)
    && SumOf(Msgs(r.sock.rx)) == SumOf(Msgs(s.rx)) - n
    && r.sock.rx.rbufBytesAvail == s.rx.rbufBytesAvail + n
  }

  lemma NextJoins(s: Sock, d: Done, r: Done, n: nat)
    requires RxOk(s) && RxOk(d.sock) && RxOk(r.sock) && |d.bytes| + n <= s.cfg.rbufSize
    requires d.sock.rx.rbuf == s.rx.rbuf && d.sock.cfg == s.cfg
    requires d.sock.rx.rbufOffset == AdvanceOffset(s.cfg.rbufSize, s.rx.rbufOffset, |d.bytes|)
    requires IsNext(s, d, |d.bytes|) && IsNext(d.sock, r, n)
    ensures IsNext(s, Then(d.bytes, r), |d.bytes| + n)
  {
    RingBytesJoin(s.rx.rbuf, s.rx.rbufOffset, |d.bytes|, n);
  }

  /** A read that returned `bytes` before the rest. */
  function Then(bytes: seq<u8>, r: Done): Done { Done(r.sock, [], bytes + r.bytes) }

  lemma ThenThen(a: seq<u8>, b: seq<u8>, r: Done)
    ensures Then(a, Then(b, r)) == Then(a + b, r)
  {
    assert a + (b + r.bytes) == a + b + r.bytes;
  }

  function Unread(s: Sock): nat
    requires Shaped(s)
  {
    |Msgs(s.rx)|
  }

  /** A read that has `got` and goes on for `left` more bytes. */
  function Reading(got: seq<u8>, s: Sock, left: nat): Done
    requires RxOk(s)
  {
    Then(got, RecvLoop(s, left))
  }

  lemma LoopStarts(s: Sock, left: nat)
    requires RxOk(s)
    ensures Reading([], s, left) == RecvLoop(s, left)
  {
    assert [] + RecvLoop(s, left).bytes == RecvLoop(s, left).bytes;
  }

  /** One pass of the read loop, with what was read before it. */
  lemma LoopStep(s: Sock, left: nat, got: seq<u8>, whole: Done)
    requires RxOk(s) && HaveRdata(s) && 0 < left && whole == Reading(got, s, left)
    ensures var d := RecvChunk(s, left);
            && RxOk(d.sock) && |d.bytes| <= left
            && Unread(d.sock) <= Unread(s) && (Unread(d.sock) < Unread(s) || |d.bytes| == left)
            && whole == Reading(got + d.bytes, d.sock, left - |d.bytes|)
  {
    var d := RecvChunk(s, left);
    ChunkProgress(s, left);
    ThenThen(got, d.bytes, RecvLoop(d.sock, left - |d.bytes|));
  }

  /** A position of the peek loop in the message ring and the byte ring. */
  predicate PeekAt(s: Sock, head: nat, offset: nat) {
    RxOk(s) && head <= s.cfg.rqSize && offset <= s.cfg.rbufSize
  }

  /** A peek that has copied `got` and goes on for `left` more bytes. */
  function Peeking(got: seq<u8>, s: Sock, head: nat, offset: nat, left: nat): seq<u8>
    requires PeekAt(s, head, offset)
  {
    got + PeekLoop(s, head, offset, left)
  }

  lemma PeekStarts(s: Sock, left: nat)
    requires RxOk(s)
    ensures Peeking([], s, s.rx.rmsgHead, s.rx.rbufOffset, left) == Peek(s, left)
  {
  }

  /** One pass of the peek loop, with what was copied before it. */
  lemma PeekStep(s: Sock, head: nat, offset: nat, left: nat, got: seq<u8>)
    requires PeekAt(s, head, offset) && 0 < left && head != s.rx.rmsgTail
    ensures var d := s.rx.rmsg[head];
            var n := if left < d then left else d;
            var head' := if left < d then head else if head + 1 == s.cfg.rqSize + 1 then 0 else head + 1;
            var offset' := AdvanceOffset(s.cfg.rbufSize, offset, n);
            && n <= s.cfg.rbufSize && PeekAt(s, head', offset')
            && Peeking(got, s, head, offset, left)
               == Peeking(got + RingBytes(s.rx.rbuf, offset, n), s, head', offset', left - n)
  {
  }

  lemma PeekEnds(s: Sock, head: nat, offset: nat, left: nat, got: seq<u8>)
    requires PeekAt(s, head, offset) && (left == 0 || head == s.rx.rmsgTail)
    ensures Peeking(got, s, head, offset, left) == got
  {
    assert got + [] == got;
  }

  lemma SplicePrefix(was: seq<u8>, at: nat, piece: seq<u8>)
    requires at + |piece| <= |was|
    ensures Splice(was, at, piece)[..at + |piece|] == was[..at] + piece
  {
  }

  lemma LoopEnds(s: Sock, left: nat, got: seq<u8>, whole: Done)
    requires RxOk(s) && (left == 0 || !HaveRdata(s)) && whole == Reading(got, s, left)
    ensures whole == Done(s, [], got)
  {
    assert got + [] == got;
  }

  lemma NextStep(s: Sock, len: nat, r: Done)
    requires RxOk(s) && SumOf(Msgs(s.rx)) <= s.cfg.rbufSize && HaveRdata(s)
    requires var d := RecvChunk(s, len);
             && RxOk(d.sock) && RxOk(r.sock) && |d.bytes| <= len
             && IsNext(d.sock, r, Min(len - |d.bytes|, SumOf(Msgs(d.sock.rx))))
    ensures IsNext(s, Then(RecvChunk(s, len).bytes, r), Min(len, SumOf(Msgs(s.rx))))
  {
    var d := RecvChunk(s, len);
    LeftAfterChunk(s, len);
    ChunkRing(s, len);
    NextJoins(s, d, r, Min(len - |d.bytes|, SumOf(Msgs(d.sock.rx))));
  }

  lemma StillFits(s: Sock, len: nat)
    requires RxOk(s) && SumOf(Msgs(s.rx)) <= s.cfg.rbufSize && HaveRdata(s) && 0 < len
    ensures var d := RecvChunk(s, len);
            && RxOk(d.sock) && |d.bytes| <= len && SumOf(Msgs(d.sock.rx)) <= d.sock.cfg.rbufSize
            && |Msgs(d.sock.rx)| <= |Msgs(s.rx)| && (|Msgs(d.sock.rx)| < |Msgs(s.rx)| || 0 < |d.bytes|)
  {
    ChunkProgress(s, len);
    LeftAfterChunk(s, len);
  }

  /** A read returns the next bytes of the ring: as many as asked for and announced. */
  lemma {:induction false} RecvReturnsNext(s: Sock, len: nat)
    requires RxOk(s) && SumOf(Msgs(s.rx)) <= s.cfg.rbufSize
    ensures IsNext(s, RecvLoop(s, len), Min(len, SumOf(Msgs(s.rx))))
    decreases |Msgs(s.rx)|, len
  {
    if len != 0 && HaveRdata(s) {
      var d := RecvChunk(s, len);
      StillFits(s, len);
      RecvReturnsNext(d.sock, len - |d.bytes|);
      var r := RecvLoop(d.sock, len - |d.bytes|);
      NextStep(s, len, r);
      assert RecvLoop(s, len) == Then(d.bytes, r);
    } else if len != 0 {
      assert Msgs(s.rx) == [];
    }
  }

  datatype Got = Got(io: Io, bytes: seq<u8>, blocked: bool)

  /** The socket a read works on: completions are handled only if nothing is queued. */
  function Refreshed(io: Io): (r: Io)
    requires IoOk(io)
    ensures IoOk(r)
  {
    if HaveRdata(io.s) then io else ProcessCq(io)
  }

  function ReadFrom(io: Io, len: nat): (g: Got)
    requires IoOk(io)
    ensures IoOk(g.io)
  {
    if !HaveRdata(io.s) && io.s.life.readable then Got(io, [], true)
    else
      var d := RecvLoop(io.s, len);
      Got(io.(s := d.sock), d.bytes, false)
  }

  /** A non-blocking read. */
  function RecvCall(io: Io, len: nat): (g: Got)
    requires IoOk(io)
    ensures IoOk(g.io)
  {
    ReadFrom(Refreshed(io), len)
  }

  /** A read of at least one byte that neither blocks nor returns any reports end of
      stream, and does so exactly when nothing is left and the read side is closed. */
  lemma EofIsReported(io: Io, len: nat)
    requires IoOk(io) && 0 < len && SumOf(Msgs(io.s.rx)) <= io.s.cfg.rbufSize
    requires forall i :: 0 <= i < |Msgs(io.s.rx)| ==> 0 < Msgs(io.s.rx)[i]
    ensures !ReadFrom(io, len).blocked && ReadFrom(io, len).bytes == [] <==> AtEof(io.s)
  {
    RecvReturnsNext(io.s, len);
    if HaveRdata(io.s) {
      assert Msgs(io.s.rx) != [] && SumOf(Msgs(io.s.rx)) >= Msgs(io.s.rx)[0];
    }
  }

  // ---- Scattered buffers ----------------------------------------------------

  predicate CursorOk(iov: seq<seq<u8>>, cur: nat, offset: nat) {
    cur <= |iov| && (if cur < |iov| then offset <= |iov[cur]| else offset == 0)
  }

  /** The bytes of scattered buffers from a vector and an offset in it on. */
  function Remaining(iov: seq<seq<u8>>, cur: nat, offset: nat): seq<u8>
    requires CursorOk(iov, cur, offset)
    decreases |iov| - cur
  {
    if cur == |iov| then [] else iov[cur][offset..] + Remaining(iov, cur + 1, 0)
  }

  lemma {:induction false} RemainingIsFlat(iov: seq<seq<u8>>, cur: nat)
    requires cur <= |iov|
    ensures CursorOk(iov, cur, 0) && Remaining(iov, cur, 0) == Flat(iov[cur..])
    decreases |iov| - cur
  {
    if cur < |iov| {
      assert iov[cur..][1..] == iov[cur + 1..];
      RemainingIsFlat(iov, cur + 1);
    }
  }

  lemma {:induction false} FlatSnoc(iov: seq<seq<u8>>, v: seq<u8>)
    ensures Flat(iov + [v]) == Flat(iov) + v
  {
    if iov == [] {
      assert iov + [v] == [v];
    } else {
      assert (iov + [v])[1..] == iov[1..] + [v];
      FlatSnoc(iov[1..], v);
    }
  }

  /** Copying a piece and then the rest of a range copies the whole range. */
  lemma PieceThenRest(dst: seq<u8>, at: nat, rest: seq<u8>, k: nat, len: nat)
    requires k <= len <= |rest| && at + len <= |dst|
    ensures Splice(Splice(dst, at, rest[..k]), at + k, rest[k..][..len - k]) == Splice(dst, at, rest[..len])
    ensures rest[k..][len - k..] == rest[len..]
  {
  }

  lemma NothingLeft(dst: seq<u8>, at: nat, rest: seq<u8>)
    requires at <= |dst|
    ensures Splice(dst, at, rest[..0]) == dst && rest[0..] == rest
  {
  }
}

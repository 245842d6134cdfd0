/** Sending a chunk keeps the invariant. */
module RsProofSend {
  import opened Memory
  import opened Wrappers
  import opened RsWire
  import opened RsSocket
  import opened RsProtocol
  import opened RsInvariant
  import opened RsArith
  import opened RsFrame

  /** The state a chunk leaves behind. */
  function Sent(x: End, data: seq<u8>, path: Path): End
    requires CanSendChunk(x, data, path)
  {
    var x1 := Posted(x, SendChunk(x.s, data, path));
    x1.(h := x1.h.(sent := x.h.sent + data))
  }

  predicate CanSendChunk(x: End, data: seq<u8>, path: Path) {
    Shaped(x.s) && ChunkOk(x.s, data, path) && |data| <= x.s.cfg.sbufSize
  }

  function ChunkSource(x: End, data: seq<u8>, path: Path): Source
    requires CanSendChunk(x, data, path)
  {
    if path.Direct? then Source(0, 0, 0, Some(data))
    else
      var src := PlaceInRing(x.s.tx, data).1;
      if path.RingInline? then src.(captured := Some(data)) else src
  }

  function ChunkWrs(x: End, data: seq<u8>, path: Path): seq<Wr>
    requires CanSendChunk(x, data, path)
  {
    PostWriteMsg(x.s.cfg.msgSend,
                 ToRing(x.s.tx.targetSgl[x.s.tx.targetSge].addr, ChunkSource(x, data, path)),
                 DataMsg(|data|))
  }

  lemma SentParts(x: End, data: seq<u8>, path: Path)
    requires CanSendChunk(x, data, path)
    ensures Sent(x, data, path).h == x.h.(log := x.h.log + ChunkWrs(x, data, path), sent := x.h.sent + data)
    ensures Sent(x, data, path).s == x.s.(tx := Sent(x, data, path).s.tx)
  {
  }

  /** How the totals change. */
  lemma SentCounts(x: End, data: seq<u8>, path: Path)
    requires CanSendChunk(x, data, path)
    ensures var log, ws := x.h.log, ChunkWrs(x, data, path);
            var t := All(log);
            && |ws| == (if x.s.cfg.msgSend then 2 else 1)
            && ws[0].payload.ToRing? && Bytes(ws[0]) == Held(ws[0]) == |data| && !IsCtrlWr(ws[0]) && !IsCredit(ws[0])
            && !IsFin(ws[0]) && !IsOwnDisconnect(ws[0]) && WrOk(ws[0])
            && (|ws| == 2 ==> && !IsDataMsg(ws[0]) && ws[1].payload.NoPayload? && IsDataMsg(ws[1])
                              && !IsFin(ws[1]) && !IsOwnDisconnect(ws[1]) && !IsCredit(ws[1]) && WrOk(ws[1]))
            && All(log + ws) ==
                 t.(bytes := t.bytes + |data|, told := t.told + |data|, msgs := t.msgs + 1,
                    sqes := t.sqes + |ws|, held := t.held + |data|,
                    ring := t.ring + (if path.Direct? then 0 else |data|))
  {
    UptoPosted(x.h.log, ChunkWrs(x, data, path));
    MsgRoundTrip(OP_DATA, |data|);
    MsgRoundTrip(OP_DATA, 0);
  }

  lemma SendLog(x: End, data: seq<u8>, path: Path)
    requires CanSendChunk(x, data, path) && LogOk(x.h)
    ensures LogOk(Sent(x, data, path).h)
  {
    var log, ws := x.h.log, ChunkWrs(x, data, path);
    SentParts(x, data, path);
    SentCounts(x, data, path);
    UptoPosted(log, ws);
    var log' := log + ws;
    forall i | 0 <= i < |log'| ensures WrOk(log'[i]) {
      assert i < |log| ==> log'[i] == log[i];
      assert i == |log| ==> log'[i] == ws[0];
    }
    forall n | 0 <= n <= |log'| ensures Upto(log', n).told <= Upto(log', n).bytes {
      if n <= |log| { assert Upto(log', n) == Upto(log, n); }
    }
  }

  lemma SendQueue(x: End, data: seq<u8>, path: Path)
    requires CanSendChunk(x, data, path) && QueueOk(x)
    ensures QueueOk(Sent(x, data, path))
  {
    SentParts(x, data, path);
    SentCounts(x, data, path);
    UptoPosted(x.h.log, ChunkWrs(x, data, path));
  }

  lemma SendGrants(x: End, data: seq<u8>, path: Path)
    requires CanSendChunk(x, data, path) && GrantsOk(x)
    ensures GrantsOk(Sent(x, data, path))
  {
    var x' := Sent(x, data, path);
    var log, ws := x.h.log, ChunkWrs(x, data, path);
    SentParts(x, data, path);
    SentCounts(x, data, path);
    UptoPosted(log, ws);
    forall i | 0 <= i < |x'.h.log| ensures GrantWrOk(x', i) && (x.h.landed <= i ==> GrantPending(x', i)) {
      if i < |log| {
        assert x'.h.log[i] == log[i] && GrantWrOk(x, i) && (x.h.landed <= i ==> GrantPending(x, i));
      } else {
        assert x'.h.log[i] == ws[i - |log|];
      }
    }
  }

  lemma CreditsAfterSend(x: End, data: seq<u8>, path: Path)
    requires CanSendChunk(x, data, path) && CreditsOk(x)
    ensures CreditsOk(Sent(x, data, path))
  {
    var x' := Sent(x, data, path);
    var log, ws := x.h.log, ChunkWrs(x, data, path);
    SentParts(x, data, path);
    SentCounts(x, data, path);
    UptoPosted(log, ws);
    forall i | 0 <= i < |x'.h.log| ensures CreditWrOk(x', i) {
      if i < |log| { assert x'.h.log[i] == log[i] && CreditWrOk(x, i); }
    }
  }

  lemma SendFins(x: End, data: seq<u8>, path: Path)
    requires CanSendChunk(x, data, path) && FinsOk(x)
    ensures FinsOk(Sent(x, data, path))
  {
    var x' := Sent(x, data, path);
    var log, ws := x.h.log, ChunkWrs(x, data, path);
    SentParts(x, data, path);
    SentCounts(x, data, path);
    UptoPosted(log, ws);
    forall i | 0 <= i < |x'.h.log| ensures FinWrOk(x'.h, i) {
      if i < |log| { assert x'.h.log[i] == log[i] && FinWrOk(x.h, i); }
    }
  }

  // ---- The send ring ----------------------------------------------------------

  /** A placed chunk is an arc starting at the current ring position. */
  lemma PlacedArc(x: End, data: seq<u8>, path: Path)
    requires CanSendChunk(x, data, path) && !path.Direct?
    ensures var src, tx' := ChunkSource(x, data, path), Sent(x, data, path).s.tx;
            && src.at == x.s.tx.ssglAddr && src.first + src.rest == |data|
            && (src.rest == 0 || src.at + src.first == x.s.cfg.sbufSize)
            && src.at + src.first <= x.s.cfg.sbufSize
            && |tx'.sbuf| == x.s.cfg.sbufSize
            && tx'.ssglAddr == (if src.at + |data| < x.s.cfg.sbufSize then src.at + |data|
                                else src.at + |data| - x.s.cfg.sbufSize)
            && (forall j :: 0 <= j < |data| ==> tx'.sbuf[RingIndex(src, j)] == data[j])
            && (forall k :: 0 <= k < x.s.cfg.sbufSize && !OnArc(src, k) ==> tx'.sbuf[k] == x.s.tx.sbuf[k])
  {
  }

  predicate OnArc(src: Source, k: nat) {
    src.at <= k < src.at + src.first || k < src.rest
  }

  /** The bytes of an arc, one by one. */
  lemma GatherAt(sbuf: seq<u8>, src: Source)
    requires src.captured.None? && SourceFits(src, |sbuf|)
    ensures forall j :: 0 <= j < src.Len() ==> Gather(sbuf, src)[j] == sbuf[RingIndex(src, j)]
  {
  }

  /** An arc is the run of ring positions from its start. */
  lemma ArcIndex(src: Source, pos: nat, size: nat, j: nat)
    requires 0 < size && ArcAt(src, pos, size) && j < src.first + src.rest
    ensures RingIndex(src, j) == (pos + j) % size
  {
    ModStep(pos, j, size);
  }

  lemma ArcOffset(src: Source, pos: nat, size: nat, k: nat) returns (j: nat)
    requires 0 < size && ArcAt(src, pos, size) && OnArc(src, k)
    ensures j < src.first + src.rest && k == (pos + j) % size
  {
    j := if src.at <= k < src.at + src.first then k - src.at else src.first + k;
    ArcIndex(src, pos, size, j);
  }

  /** Arcs that together fit the ring do not meet. */
  lemma ArcsApart(s: Source, p: nat, t: Source, q: nat, size: nat, k: nat)
    requires 0 < size && ArcAt(s, p, size) && ArcAt(t, q, size)
    requires p + s.first + s.rest <= q && q + t.first + t.rest <= p + size
    requires OnArc(s, k)
    ensures !OnArc(t, k)
  {
    var j := ArcOffset(s, p, size, k);
    if OnArc(t, k) {
      var i := ArcOffset(t, q, size, k);
      ModApart(p + j, q + i, size);
    }
  }

  /** Ring bytes in use never exceed the bytes the completions will return. */
  lemma {:induction false} RingWithinHeld(h: Hist, m: nat, n: nat)
    requires m <= n <= |h.log| && forall i :: 0 <= i < |h.log| ==> WrOk(h.log[i])
    ensures Upto(h.log, n).ring - Upto(h.log, m).ring <= Upto(h.log, n).held - Upto(h.log, m).held
    decreases n
  {
    if m < n {
      RingWithinHeld(h, m, n - 1);
      assert WrOk(h.log[n - 1]);
    }
  }

  /** The new chunk stays clear of every uncompleted write in the send ring. */
  lemma ChunkClear(x: End, data: seq<u8>, path: Path, i: nat, k: nat)
    requires CanSendChunk(x, data, path) && !path.Direct?
    requires LogOk(x.h) && QueueOk(x) && SendRingOk(x)
    requires x.h.completed <= i < |x.h.log| && RingBytesOf(x.h.log[i]) != 0
    requires OnArc(x.h.log[i].payload.src, k)
    ensures !OnArc(ChunkSource(x, data, path), k)
  {
    PlacedArc(x, data, path);
    RingWithinHeld(x.h, i, |x.h.log|);
    UptoGrows(x.h.log, x.h.completed, i);
    UptoGrows(x.h.log, i + 1, |x.h.log|);
    assert ArcOk(x, i);
    ArcsApart(x.h.log[i].payload.src, Upto(x.h.log, i).ring,
              ChunkSource(x, data, path), All(x.h.log).ring, x.s.cfg.sbufSize, k);
  }

  /** The bytes that an uncompleted write will take from the send ring stay. */
  lemma RingKeepsOld(x: End, data: seq<u8>, path: Path, i: nat)
    requires CanSendChunk(x, data, path) && !path.Direct?
    requires LogOk(x.h) && QueueOk(x) && SendRingOk(x)
    requires x.h.landed <= i < |x.h.log| && x.h.log[i].payload.ToRing? && x.h.log[i].payload.src.captured.None?
    requires x.h.log[i].payload.src.Len() != 0 && SourceFits(x.h.log[i].payload.src, x.s.cfg.sbufSize)
    ensures var src, sbuf := x.h.log[i].payload.src, Sent(x, data, path).s.tx.sbuf;
            |sbuf| == x.s.cfg.sbufSize && Gather(sbuf, src) == Gather(x.s.tx.sbuf, src)
  {
    var src, sbuf := x.h.log[i].payload.src, Sent(x, data, path).s.tx.sbuf;
    PlacedArc(x, data, path);
    assert WrOk(x.h.log[i]);
    forall j | 0 <= j < src.Len() ensures sbuf[RingIndex(src, j)] == x.s.tx.sbuf[RingIndex(src, j)] {
      ChunkClear(x, data, path, i, RingIndex(src, j));
    }
    GatherAt(x.s.tx.sbuf, src);
    GatherAt(sbuf, src);
    assert Gather(sbuf, src) == Gather(x.s.tx.sbuf, src);
  }

  /** A request that gathers the bytes of its place in the stream is readable. */
  lemma ReadsBack(e: End, i: nat, data: seq<u8>)
    requires i < |e.h.log| && Shaped(e.s) && e.h.log[i].payload.ToRing?
    requires var src, k := e.h.log[i].payload.src, Upto(e.h.log, i).bytes;
             && src.Len() == |data| && SourceFits(src, e.s.cfg.sbufSize) && Gather(e.s.tx.sbuf, src) == data
             && k + |data| <= |e.h.sent| && e.h.sent[k..k + |data|] == data
    ensures Readable(e, i)
  {
  }

  lemma OldGathers(x: End, data: seq<u8>, path: Path, i: nat)
    requires CanSendChunk(x, data, path)
    requires LogOk(x.h) && QueueOk(x) && SendRingOk(x)
    requires x.h.landed <= i < |x.h.log| && x.h.log[i].payload.ToRing?
    requires SourceFits(x.h.log[i].payload.src, x.s.cfg.sbufSize)
    ensures var src, sbuf := x.h.log[i].payload.src, Sent(x, data, path).s.tx.sbuf;
            |sbuf| == x.s.cfg.sbufSize && Gather(sbuf, src) == Gather(x.s.tx.sbuf, src)
  {
    var src := x.h.log[i].payload.src;
    if !path.Direct? { PlacedArc(x, data, path); }
    if src.captured.None? && !path.Direct? && src.Len() != 0 { RingKeepsOld(x, data, path, i); }
  }

  lemma OldStaysReadable(x: End, data: seq<u8>, path: Path, i: nat)
    requires CanSendChunk(x, data, path)
    requires LogOk(x.h) && QueueOk(x) && SendRingOk(x)
    requires x.h.landed <= i < |x.h.log|
    ensures Shaped(Sent(x, data, path).s) && i < |Sent(x, data, path).h.log| && Readable(Sent(x, data, path), i)
  {
    var x', w := Sent(x, data, path), x.h.log[i];
    SentParts(x, data, path);
    UptoPrefix(x.h.log, ChunkWrs(x, data, path), i);
    assert x'.h.log[i] == w && Readable(x, i);
    if w.payload.ToRing? {
      var k, n := Upto(x.h.log, i).bytes, w.payload.src.Len();
      OldGathers(x, data, path, i);
      assert x'.h.sent[k..k + n] == x.h.sent[k..k + n];
      ReadsBack(x', i, x.h.sent[k..k + n]);
    }
  }

  /** The adapter will find the new chunk where its request takes it from. */
  lemma ChunkGathers(x: End, data: seq<u8>, path: Path)
    requires CanSendChunk(x, data, path)
    ensures var src, sbuf := ChunkSource(x, data, path), Sent(x, data, path).s.tx.sbuf;
            && |sbuf| == x.s.cfg.sbufSize && SourceFits(src, |sbuf|) && src.Len() == |data|
            && Gather(sbuf, src) == data
  {
    var src, sbuf := ChunkSource(x, data, path), Sent(x, data, path).s.tx.sbuf;
    if !path.Direct? { PlacedArc(x, data, path); }
    if src.captured.None? {
      GatherAt(sbuf, src);
      assert Gather(sbuf, src) == data;
    }
  }

  lemma EndsWith(sent: seq<u8>, data: seq<u8>)
    ensures (sent + data)[|sent|..|sent| + |data|] == data
  {
  }

  lemma NewIsReadable(x: End, data: seq<u8>, path: Path)
    requires CanSendChunk(x, data, path) && LogOk(x.h)
    ensures var x' := Sent(x, data, path);
            Shaped(x'.s) && |x.h.log| < |x'.h.log| && Readable(x', |x.h.log|)
  {
    var x', n := Sent(x, data, path), |x.h.log|;
    SentParts(x, data, path);
    UptoPrefix(x.h.log, ChunkWrs(x, data, path), n);
    assert x'.h.log[n] == ChunkWrs(x, data, path)[0];
    ChunkGathers(x, data, path);
    EndsWith(x.h.sent, data);
    ReadsBack(x', n, data);
  }

  /** The send ring position follows the ring bytes of all requests. */
  lemma SendPosition(x: End, data: seq<u8>, path: Path)
    requires CanSendChunk(x, data, path) && SendRingOk(x)
    ensures var x' := Sent(x, data, path);
            Shaped(x'.s) && x'.s.tx.ssglAddr == All(x'.h.log).ring % x'.s.cfg.sbufSize
  {
    SentParts(x, data, path);
    SentCounts(x, data, path);
    if !path.Direct? {
      PlacedArc(x, data, path);
      ModStep(All(x.h.log).ring, |data|, x.s.cfg.sbufSize);
    }
  }

  lemma SendArcs(x: End, data: seq<u8>, path: Path)
    requires CanSendChunk(x, data, path) && SendRingOk(x)
    ensures var x' := Sent(x, data, path);
            && Shaped(x'.s) && (forall i :: 0 <= i < |x'.h.log| ==> ArcOk(x', i))
            && x'.s.tx.ssglAddr == All(x'.h.log).ring % x'.s.cfg.sbufSize
  {
    var x' := Sent(x, data, path);
    var log, ws := x.h.log, ChunkWrs(x, data, path);
    SentParts(x, data, path);
    SendPosition(x, data, path);
    UptoPosted(log, ws);
    if !path.Direct? { PlacedArc(x, data, path); }
    forall i | 0 <= i < |x'.h.log| ensures ArcOk(x', i) {
      if i < |log| { assert x'.h.log[i] == log[i] && ArcOk(x, i); } else { assert x'.h.log[i] == ws[i - |log|]; }
    }
  }

  lemma SendRing(x: End, data: seq<u8>, path: Path)
    requires CanSendChunk(x, data, path)
    requires LogOk(x.h) && QueueOk(x) && SendRingOk(x)
    ensures SendRingOk(Sent(x, data, path))
  {
    var x' := Sent(x, data, path);
    var log, ws := x.h.log, ChunkWrs(x, data, path);
    SendArcs(x, data, path);
    SentParts(x, data, path);
    NewIsReadable(x, data, path);
    forall i | x.h.landed <= i < |x'.h.log| ensures Readable(x', i) {
      if i < |log| {
        OldStaysReadable(x, data, path, i);
      } else if i > |log| {
        assert x'.h.log[i] == ws[1];
      }
    }
  }

  lemma SendKeepsEnd(x: End, data: seq<u8>, path: Path)
    requires CanSendChunk(x, data, path) && EndOk(x)
    ensures EndOk(Sent(x, data, path))
  {
    SendLog(x, data, path);
    SendQueue(x, data, path);
    SendRing(x, data, path);
    SendGrants(x, data, path);
    CreditsAfterSend(x, data, path);
    SendFins(x, data, path);
  }

  // ---- Towards the peer -------------------------------------------------------

  /** Two 16-bit counters that differ leave room for one more message. */
  lemma RoomForOne(sent: nat, limit: nat)
    requires sent <= limit < sent + U16 && sent % U16 != limit % U16
    ensures sent + 1 <= limit && (sent % U16 + 1) % U16 == (sent + 1) % U16
  {
    AddWrapped16(sent, 1);
  }

  /** One more message, within the limit because the 16-bit test said so. */
  lemma OneMoreMessage(x: End, y: End, x': End)
    requires CreditReady(x, y) && CreditReady(x', y) && FlowCredit(x, y)
    requires Limit(y) <= y.h.nread + y.s.cfg.rqSize < y.h.nread + U16
    requires y.h.nread <= All(x.h.log).msgs
    requires x.s.tx.sseqNo != x.s.tx.sseqComp
    requires x'.s.tx.sseqNo == (x.s.tx.sseqNo + 1) % U16 && x'.s.tx.sseqComp == x.s.tx.sseqComp
    requires All(x'.h.log).msgs == All(x.h.log).msgs + 1
    requires Upto(x'.h.log, x'.h.polled).msgs == Upto(x.h.log, x.h.polled).msgs
    ensures FlowCredit(x', y)
  {
    RoomForOne(All(x.h.log).msgs, Limit(y));
  }

  /** Part of the current half of the peer's ring is used up. */
  lemma TargetAdvance(sgl: seq<Sge>, sge: nat, sent: nat, g: nat, c: Config, n: nat)
    requires |sgl| == 2 && sge < 2 && c.Good() && TargetAt(sgl, sge, sent, g, c)
    requires 0 < n <= sgl[sge].length
    ensures var cur := sgl[sge];
            TargetAt(sgl[sge := Sge(cur.addr + n, cur.length - n)],
                     if n < cur.length then sge else 1 - sge, sent + n, g, c)
  {
    ModStep(sent, n, c.rbufSize);
    assert c.rbufSize == 2 * c.Half();
  }

  lemma SentAddr(x: End, y: End, x': End, data: seq<u8>, ws: seq<Wr>)
    requires Shaped(x.s) && Positions(y.h) && y.s.cfg.Good() && All(x.h.log).bytes == |x.h.sent|
    requires FlowTarget(x, y) && FlowAddr(x, y)
    requires 1 <= |ws| <= 2 && x'.h.log == x.h.log + ws
    requires var cur := x.s.tx.targetSgl[x.s.tx.targetSge];
             && 0 < |data| <= cur.length && ws[0].payload.ToRing? && ws[0].payload.addr == cur.addr
             && Bytes(ws[0]) == |data| && (|ws| == 2 ==> !ws[1].payload.ToRing?)
    ensures FlowAddr(x', y)
  {
    UptoPosted(x.h.log, ws);
    var log, size := x.h.log, y.s.cfg.rbufSize;
    assert size == 2 * y.s.cfg.Half();
    assert x'.h.log[|log|] == ws[0];
    assert AddrOk(x'.h.log, |log|, size);
    forall i | 0 <= i < |x'.h.log| ensures AddrOk(x'.h.log, i, size) {
      if i < |log| { assert AddrOk(log, i, size); }
    }
  }

  /** Everything the chunk does, as the flow lemmas need it. */
  lemma SentFacts(x: End, data: seq<u8>, path: Path)
    requires CanSendChunk(x, data, path)
    ensures var x', ws, cur := Sent(x, data, path), ChunkWrs(x, data, path), x.s.tx.targetSgl[x.s.tx.targetSge];
            && PostStep(x, x', ws) && x'.s.life == x.s.life && x'.h.sent == x.h.sent + data
            && ws[0].payload.ToRing? && ws[0].payload.addr == cur.addr && Bytes(ws[0]) == |data|
            && (|ws| == 2 ==> !ws[1].payload.ToRing?)
            && (forall i :: 0 <= i < |ws| ==> !IsOwnDisconnect(ws[i]))
            && x'.s.tx.sseqNo == (x.s.tx.sseqNo + 1) % U16 && x'.s.tx.sseqComp == x.s.tx.sseqComp
            && x'.s.tx.targetSgl == x.s.tx.targetSgl[x.s.tx.targetSge := Sge(cur.addr + |data|, cur.length - |data|)]
            && x'.s.tx.targetSge == (if |data| < cur.length then x.s.tx.targetSge else 1 - x.s.tx.targetSge)
  {
    SentParts(x, data, path);
    SentCounts(x, data, path);
  }

  lemma SendCreditOut(x: End, y: End, data: seq<u8>, path: Path)
    requires CanSendChunk(x, data, path) && CreditReady(x, y) && CreditsOk(y) && FlowCredit(x, y)
    ensures Positions(Sent(x, data, path).h) && FlowCredit(Sent(x, data, path), y)
  {
    LimitBound(y);
    UptoGrows(x.h.log, x.h.polled, |x.h.log|);
    SentFacts(x, data, path);
    SentCounts(x, data, path);
    UptoPosted(x.h.log, ChunkWrs(x, data, path));
    OneMoreMessage(x, y, Sent(x, data, path));
  }

  lemma SendReadOut(x: End, y: End, data: seq<u8>, path: Path)
    requires CanSendChunk(x, data, path)
    requires Positions(x.h) && Shaped(y.s) && 0 < y.s.cfg.rbufSize && FlowRead(x, y)
    ensures Positions(Sent(x, data, path).h) && FlowRead(Sent(x, data, path), y)
  {
    SentFacts(x, data, path);
    UptoPosted(x.h.log, ChunkWrs(x, data, path));
    ReadFrame(x, y, Sent(x, data, path), y);
  }

  lemma SendTargetOut(x: End, y: End, data: seq<u8>, path: Path)
    requires CanSendChunk(x, data, path) && Shaped(Sent(x, data, path).s)
    requires Positions(y.h) && y.s.cfg.Good() && FlowTarget(x, y)
    ensures FlowTarget(Sent(x, data, path), y)
  {
    SentFacts(x, data, path);
    TargetAdvance(x.s.tx.targetSgl, x.s.tx.targetSge, |x.h.sent|,
                  1 + Upto(y.h.log, y.h.landed).grants, y.s.cfg, |data|);
  }

  lemma SendAddrOut(x: End, y: End, data: seq<u8>, path: Path)
    requires CanSendChunk(x, data, path) && Positions(y.h) && y.s.cfg.Good()
    requires All(x.h.log).bytes == |x.h.sent| && FlowTarget(x, y) && FlowAddr(x, y)
    ensures FlowAddr(Sent(x, data, path), y)
  {
    SentFacts(x, data, path);
    SentAddr(x, y, Sent(x, data, path), data, ChunkWrs(x, data, path));
  }

  lemma SendFinOut(x: End, y: End, data: seq<u8>, path: Path)
    requires CanSendChunk(x, data, path) && FlowFin(x, y)
    ensures FlowFin(Sent(x, data, path), y)
  {
    SentFacts(x, data, path);
    FinFrame(x, y, Sent(x, data, path), y);
  }

  lemma SendKeepsOut(x: End, y: End, data: seq<u8>, path: Path)
    requires CanSendChunk(x, data, path) && Flow(x, y) && EndOk(Sent(x, data, path))
    ensures Flow(Sent(x, data, path), y)
  {
    SendCreditOut(x, y, data, path);
    SendTargetOut(x, y, data, path);
    SendAddrOut(x, y, data, path);
    SendReadOut(x, y, data, path);
    SendFinOut(x, y, data, path);
  }

  lemma SendKeepsIn(x: End, y: End, data: seq<u8>, path: Path)
    requires CanSendChunk(x, data, path) && Flow(y, x) && EndOk(Sent(x, data, path))
    ensures Flow(y, Sent(x, data, path))
  {
    var x', ws := Sent(x, data, path), ChunkWrs(x, data, path);
    assert PostStep(x, x', ws) && FlowFin(y, x') by {
      SentFacts(x, data, path);
      PostFinIn(y, x, x', ws);
    }
    PostKeepsIn(y, x, x', ws);
  }

  lemma SendKeeps(x: End, y: End, data: seq<u8>, path: Path)
    requires CanSendChunk(x, data, path) && Inv(Pair(x, y))
    ensures Inv(Pair(Sent(x, data, path), y))
  {
    SendKeepsEnd(x, data, path);
    SendKeepsOut(x, y, data, path);
    SendKeepsIn(x, y, data, path);
  }
}

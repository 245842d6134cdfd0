/** A stream socket as the library keeps it: an object whose counters, rings and
    buffers the calls update in place. Each method is proved against the steps
    and calls defined on socket values. */
module RsStream {
  import opened Memory
  import opened Wrappers
  import opened RsWire
  import opened RsSocket
  import opened RsCalls

  /** Copy from the vector at the cursor, at most `len` bytes, and move the cursor. */
  method CopyFromVector(dst: array<u8>, at: nat, iov: seq<seq<u8>>, cur0: nat, offset0: nat, len: nat)
    returns (k: nat, cur: nat, offset: nat)
    requires cur0 < |iov| && offset0 <= |iov[cur0]| && 0 < len && at + len <= dst.Length
    modifies dst
    ensures CursorOk(iov, cur, offset) && k <= len && (k == len || cur0 < cur)
    ensures var rest := Remaining(iov, cur0, offset0);
            && k <= |rest| && Remaining(iov, cur, offset) == rest[k..]
            && dst[..] == Splice(old(dst[..]), at, rest[..k])
  {
    var size := |iov[cur0]| - offset0;
    if size > len {
      MemCopy(dst, at, iov[cur0][offset0..offset0 + len]);
      k, cur, offset := len, cur0, offset0 + len;
    } else {
      MemCopy(dst, at, iov[cur0][offset0..]);
      k, cur, offset := size, cur0 + 1, 0;
    }
  }

  /** Copy the next `len0` bytes of scattered buffers into `dst` and move the cursor. */
  method CopyIov(dst: array<u8>, at: nat, iov: seq<seq<u8>>, cur0: nat, offset0: nat, len0: nat)
    returns (cur: nat, offset: nat)
    requires CursorOk(iov, cur0, offset0) && at + len0 <= dst.Length
    requires len0 <= |Remaining(iov, cur0, offset0)|
    modifies dst
    ensures CursorOk(iov, cur, offset)
    ensures var rest := Remaining(iov, cur0, offset0);
            && Remaining(iov, cur, offset) == rest[len0..]
            && dst[..] == Splice(old(dst[..]), at, rest[..len0])
  {
    ghost var rest := Remaining(iov, cur0, offset0);
    ghost var whole, tail := Splice(dst[..], at, rest[..len0]), rest[len0..];
    cur, offset := cur0, offset0;
    var to: nat, len: nat := at, len0;
    while len != 0
      invariant to + len == at + len0 && CursorOk(iov, cur, offset)
      invariant rest == Remaining(iov, cur, offset) && len <= |rest|
      invariant whole == Splice(dst[..], to, rest[..len]) && tail == rest[len..]
      decreases len, |iov| - cur
    {
      ghost var was := dst[..];
      var k;
      k, cur, offset := CopyFromVector(dst, to, iov, cur, offset, len);
      PieceThenRest(was, to, rest, k, len);
      rest := rest[k..];
      to, len := to + k, len - k;
    }
    NothingLeft(dst[..], to, rest);
  }

  class RSocket {
    const cfg: Config

    var sseqNo: nat
    var sseqComp: nat
    const targetSgl: array<Sge>
    var targetSge: nat
    const sbuf: array<u8>
    var ssglAddr: nat
    var sbufBytesAvail: int
    var sqeAvail: int

    var rseqNo: nat
    var rseqComp: nat
    var remoteSge: nat
    const rbuf: array<u8>
    var rbufBytesAvail: int
    var rbufFreeOffset: nat
    var rbufOffset: nat
    const rmsg: array<nat>
    var rmsgHead: nat
    var rmsgTail: nat

    var ctrlSeqno: nat
    var ctrlMaxSeqno: nat
    const ctrlBuf: array<Sge>

    var life: Life

    var cq: seq<Wc>      // completions the adapter has reported
    var posted: seq<Wr>  // requests handed to the adapter

    /** The socket as a value. */
    ghost function View(): Sock
      reads this, targetSgl, sbuf, rbuf, rmsg, ctrlBuf
    {
      Sock(cfg,
           Tx(sseqNo, sseqComp, targetSgl[..], targetSge, sbuf[..], ssglAddr, sbufBytesAvail, sqeAvail),
           Rx(rseqNo, rseqComp, remoteSge, rbuf[..], rbufBytesAvail, rbufFreeOffset, rbufOffset,
              rmsg[..], rmsgHead, rmsgTail),
           Ctl(ctrlSeqno, ctrlMaxSeqno, ctrlBuf[..]),
           life)
    }

    ghost function Now(): Io
      reads this, targetSgl, sbuf, rbuf, rmsg, ctrlBuf
    {
      Io(View(), cq, posted)
    }

    ghost predicate Valid()
      reads this, targetSgl, sbuf, rbuf, rmsg, ctrlBuf
    {
      && sbuf != rbuf && targetSgl != ctrlBuf
      && IoOk(Now())
    }

    /** A socket of a new connection, with what the peer announced. */
    constructor (c: Config, peer: Config)
      requires c.Good() && peer.Good()
      ensures Valid() && Now() == Io(Init(c, peer), [], [])
      ensures fresh(targetSgl) && fresh(sbuf) && fresh(rbuf) && fresh(rmsg) && fresh(ctrlBuf)
    {
      cfg := c;
      sseqNo, sseqComp := 0, peer.rqSize;
      targetSgl := new Sge[2](i => if i == 0 then Sge(0, peer.Half()) else Sge(0, 0));
      targetSge := 0;
      sbuf := new u8[c.sbufSize](_ => 0);
      ssglAddr, sbufBytesAvail, sqeAvail := 0, c.sbufSize, c.sqSize - RS_QP_CTRL_SIZE;
      rseqNo, rseqComp, remoteSge := 0, c.rqSize / 2, 1;
      rbuf := new u8[c.rbufSize](_ => 0);
      rbufBytesAvail, rbufFreeOffset, rbufOffset := c.Half(), c.Half(), 0;
      rmsg := new nat[c.rqSize + 1](_ => 0);
      rmsgHead, rmsgTail := 0, 0;
      ctrlSeqno, ctrlMaxSeqno := 0, RS_QP_CTRL_SIZE;
      ctrlBuf := new Sge[RS_QP_CTRL_SIZE](_ => Sge(0, 0));
      life := Life(true, true, true, None);
      cq, posted := [], [];
      new;
      assert View().tx.targetSgl == Init(c, peer).tx.targetSgl;
    }

    // ---- Tests ------------------------------------------------------------------

    predicate CanSendNow()
      requires Valid()
      reads this, targetSgl, sbuf, rbuf, rmsg, ctrlBuf
      ensures CanSendNow() <==> CanSend(View())
    {
      && (if cfg.msgSend then sqeAvail >= 2 else sqeAvail != 0)
      && sbufBytesAvail >= RS_SNDLOWAT
      && sseqNo != sseqComp
      && targetSgl[targetSge].length != 0
    }

    predicate GiveCreditsNow()
      reads this, targetSgl, sbuf, rbuf, rmsg, ctrlBuf
      ensures GiveCreditsNow() <==> GiveCredits(View())
    {
      && (rbufBytesAvail >= cfg.Half() || ToShort(rseqNo - rseqComp) >= 0)
      && (if cfg.msgSend then ToInt32((ctrlSeqno + 1) % U32 - ctrlMaxSeqno) < 0 else ctrlSeqno != ctrlMaxSeqno)
      && life.connected
    }

    // ---- Completions ------------------------------------------------------------

    /** Keep the entry for the adapter, in the control buffer if it cannot go inline. */
    method StageGrant(sge: Sge) returns (grant: GrantSource)
      requires Shaped(View())
      modifies this`ctrlSeqno, ctrlBuf
      ensures ctrlSeqno == if cfg.msgSend then (old(ctrlSeqno) + 1) % U32 else old(ctrlSeqno)
      ensures var slot := ctrlSeqno % RS_QP_CTRL_SIZE;
              if cfg.sqInline < RS_MAX_CTRL_MSG
              then grant == GrantCtrlBuf(slot) && ctrlBuf[..] == old(ctrlBuf[..])[slot := sge]
              else grant == GrantInline(sge) && ctrlBuf[..] == old(ctrlBuf[..])
    {
      if cfg.msgSend { ctrlSeqno := (ctrlSeqno + 1) % U32; }
      grant := GrantInline(sge);
      if cfg.sqInline < RS_MAX_CTRL_MSG {
        var slot := ctrlSeqno % RS_QP_CTRL_SIZE;
        ctrlBuf[slot] := sge;
        grant := GrantCtrlBuf(slot);
      }
    }

    /** The half just granted is no longer free. */
    method AdvanceGrant()
      modifies this`rbufBytesAvail, this`rbufFreeOffset, this`remoteSge
      ensures rbufBytesAvail == old(rbufBytesAvail) - cfg.Half()
      ensures rbufFreeOffset == NextFree(cfg, old(rbufFreeOffset))
      ensures remoteSge == if old(remoteSge) + 1 == 2 then 0 else old(remoteSge) + 1
    {
      rbufBytesAvail := rbufBytesAvail - cfg.Half();
      rbufFreeOffset := rbufFreeOffset + cfg.Half();
      if rbufFreeOffset >= cfg.rbufSize { rbufFreeOffset := 0; }
      remoteSge := remoteSge + 1;
      if remoteSge == 2 { remoteSge := 0; }
    }

    method GrantNow(msg: nat)
      requires Shaped(View()) && msg < U32
      modifies this`ctrlSeqno, this`posted, this`rbufBytesAvail, this`rbufFreeOffset, this`remoteSge, ctrlBuf
      ensures var s := old(View());
              var seq2 := if cfg.msgSend then (s.ctl.seqno + 1) % U32 else s.ctl.seqno;
              var useBuf, slot, sge := cfg.sqInline < RS_MAX_CTRL_MSG, seq2 % RS_QP_CTRL_SIZE,
                                       Sge(s.rx.rbufFreeOffset, cfg.Half());
              && View().ctl == s.ctl.(seqno := seq2, buf := if useBuf then s.ctl.buf[slot := sge] else s.ctl.buf)
              && View().rx == s.rx.(rbufBytesAvail := s.rx.rbufBytesAvail - cfg.Half(),
                                    rbufFreeOffset := NextFree(cfg, s.rx.rbufFreeOffset),
                                    remoteSge := if s.rx.remoteSge + 1 == 2 then 0 else s.rx.remoteSge + 1)
              && posted == old(posted) + PostWriteMsg(cfg.msgSend,
                   ToSgl(s.rx.remoteSge, if useBuf then GrantCtrlBuf(slot) else GrantInline(sge)), msg)
    {
      var grant := StageGrant(Sge(rbufFreeOffset, cfg.Half()));
      posted := posted + PostWriteMsg(cfg.msgSend, ToSgl(remoteSge, grant), msg);
      AdvanceGrant();
    }

    method CountCredit()
      modifies this`ctrlSeqno, this`rseqComp
      ensures ctrlSeqno == (old(ctrlSeqno) + 1) % U32
      ensures rseqComp == (rseqNo + cfg.rqSize / 2) % U16
    {
      ctrlSeqno := (ctrlSeqno + 1) % U32;
      rseqComp := (rseqNo + cfg.rqSize / 2) % U16;
    }

    method SendCreditsNow()
      requires Valid()
      modifies this`ctrlSeqno, this`rseqComp, this`posted, this`rbufBytesAvail, this`rbufFreeOffset,
               this`remoteSge, ctrlBuf
      ensures View() == SendCredits(old(View())).sock
      ensures posted == old(posted) + SendCredits(old(View())).posted
    {
      var msg := CreditMsg(rseqNo + cfg.rqSize);
      CountCredit();
      if rbufBytesAvail >= cfg.Half() {
        GrantNow(msg);
      } else {
        posted := posted + [Wr(NoPayload, Some(msg), msg)];
      }
    }

    method UpdateCreditsNow()
      requires Valid()
      modifies this, ctrlBuf
      ensures Valid() && Now() == UpdateCredits(old(Now()))
    {
      if GiveCreditsNow() {
        SendCreditsNow();
        assert Now() == UpdateCredits(old(Now()));
      }
    }

    method OnSendDoneNow(wrData: nat)
      requires Shaped(View())
      modifies this
      ensures View() == OnSendDone(old(View()), wrData) && cq == old(cq) && posted == old(posted)
    {
      var op, data := MsgOp(wrData), MsgData(wrData);
      if op == OP_SGL {
        ctrlMaxSeqno := (ctrlMaxSeqno + 1) % U32;
      } else if op == OP_CTRL {
        ctrlMaxSeqno := (ctrlMaxSeqno + 1) % U32;
        if data == CTRL_DISCONNECT { life := Disconnected(life); }
      } else {
        sqeAvail := sqeAvail + 1;
        sbufBytesAvail := sbufBytesAvail + data;
      }
    }

    method OnArrivalNow(msg: nat) returns (ended: bool)
      requires Shaped(View())
      modifies this, rmsg
      ensures View() == OnArrival(old(View()), msg) && cq == old(cq) && posted == old(posted)
      ensures ended <==> Ends(old(View()), msg)
    {
      var op, data := MsgOp(msg), MsgData(msg);
      ended := false;
      if op == OP_SGL {
        sseqComp := data % U16;
      } else if op == OP_CTRL {
        if data == CTRL_DISCONNECT {
          life := Disconnected(life);
          ended := true;
        } else if data == CTRL_SHUTDOWN {
          if life.writable {
            life := life.(readable := false);
          } else {
            life := Disconnected(life);
            ended := true;
          }
        }
      } else if op != OP_IOMAP_SGL && op != OP_WRITE {
        rmsg[rmsgTail] := data;
        rmsgTail := rmsgTail + 1;
        if rmsgTail == cfg.rqSize + 1 { rmsgTail := 0; }
      }
    }

    /** Handle the oldest completion; say whether it ended the connection. */
    method PollOneNow() returns (ended: bool)
      requires Valid() && cq != []
      modifies this, rmsg
      ensures Valid() && Now() == PollOne(old(Now()))
      ensures ended <==> old(cq)[0].Arrived? && Ends(old(View()), old(cq)[0].msg)
    {
      var c := cq[0];
      cq := cq[1..];
      assert View() == old(View());
      if c.Arrived? {
        ended := OnArrivalNow(c.msg);
      } else {
        OnSendDoneNow(c.wrData);
        ended := false;
      }
    }

    /** Drain the completion queue, stopping when the connection ends. */
    method PollCq()
      requires Valid()
      modifies this, rmsg
      ensures Valid() && Now() == PollAll(old(Now()))
    {
      var ended := false;
      while cq != [] && !ended
        invariant Valid()
        invariant PollAll(old(Now())) == if ended then Now() else PollAll(Now())
        decreases |cq|
      {
        ended := PollOneNow();
      }
    }

    method ProcessCqNow()
      requires Valid()
      modifies this, ctrlBuf, rmsg
      ensures Valid() && Now() == ProcessCq(old(Now()))
    {
      UpdateCreditsNow();
      PollCq();
      UpdateCreditsNow();
    }

    // ---- Sending --------------------------------------------------------------

    /** Use up `length` bytes of the current target entry; turn to the next if it is spent. */
    method TakeTarget(length: nat) returns (addr: nat)
      requires targetSgl.Length == 2 && targetSge < 2 && length <= targetSgl[targetSge].length
      modifies this`targetSge, targetSgl
      ensures var e := old(targetSgl[targetSge]);
              && addr == e.addr
              && targetSgl[..] == old(targetSgl[..])[old(targetSge) := Sge(e.addr + length, e.length - length)]
              && targetSge == if e.length - length != 0 then old(targetSge)
                              else if old(targetSge) + 1 == 2 then 0 else old(targetSge) + 1
    {
      var e := targetSgl[targetSge];
      addr := e.addr;
      targetSgl[targetSge] := Sge(e.addr + length, e.length - length);
      if e.length - length == 0 {
        targetSge := targetSge + 1;
        if targetSge == 2 { targetSge := 0; }
      }
    }

    /** A data write takes a credit, send-queue entries and send-ring bytes. */
    method TakeCounters(length: nat)
      modifies this`sseqNo, this`sqeAvail, this`sbufBytesAvail
      ensures sseqNo == (old(sseqNo) + 1) % U16
      ensures sqeAvail == old(sqeAvail) - (if cfg.msgSend then 2 else 1)
      ensures sbufBytesAvail == old(sbufBytesAvail) - length
    {
      sseqNo := (sseqNo + 1) % U16;
      sqeAvail := sqeAvail - 1;
      if cfg.msgSend { sqeAvail := sqeAvail - 1; }
      sbufBytesAvail := sbufBytesAvail - length;
    }

    /** Take a credit, queue entries and target space, then post the write. */
    method WriteDataNow(src: Source, length: nat)
      requires Shaped(View()) && targetSgl != ctrlBuf
      requires length <= targetSgl[targetSge].length && length < MSG_UNIT
      modifies this`sseqNo, this`sqeAvail, this`sbufBytesAvail, this`targetSge, this`posted, targetSgl
      ensures View() == WriteData(old(View()), src, length).sock
      ensures posted == old(posted) + WriteData(old(View()), src, length).posted
    {
      TakeCounters(length);
      var addr := TakeTarget(length);
      posted := posted + PostWriteMsg(cfg.msgSend, ToRing(addr, src), DataMsg(length));
    }

    /** Copy a chunk into the send ring and move on; split it at the end of the ring. */
    method PlaceNow(data: seq<u8>) returns (src: Source)
      requires Shaped(View()) && sbuf != rbuf && |data| <= cfg.sbufSize
      modifies this`ssglAddr, sbuf
      ensures var r := PlaceInRing(old(View()).tx, data);
              src == r.1 && View() == old(View()).(tx := r.0)
    {
      var left := cfg.sbufSize - ssglAddr;
      if |data| <= left {
        MemCopy(sbuf, ssglAddr, data);
        src := Source(ssglAddr, |data|, 0, None);
        ssglAddr := if |data| < left then ssglAddr + |data| else 0;
      } else {
        MemCopy(sbuf, ssglAddr, data[..left]);
        MemCopy(sbuf, 0, data[left..]);
        src := Source(ssglAddr, left, |data| - left, None);
        ssglAddr := |data| - left;
      }
    }

    method PostChunkNow(data: seq<u8>, n: nat, olen: nat)
      requires Valid() && CanSend(View()) && data != [] && OlenOk(olen)
      requires n == XferSize(View(), |data|, olen)
      modifies this, targetSgl, sbuf
      ensures Valid() && Now() == PostChunk(old(Now()), data, olen, false)
    {
      if n <= cfg.sqInline {
        WriteDataNow(Source(0, 0, 0, Some(data[..n])), n);
      } else {
        var src := PlaceNow(data[..n]);
        WriteDataNow(src, n);
      }
      assert Now() == PostChunk(old(Now()), data, olen, false);
    }

    /** Make sure the next chunk can be posted, or say why not. */
    method ReadyNow() returns (o: Outcome)
      requires Valid()
      modifies this, ctrlBuf, rmsg
      ensures Valid() && (Now(), o) == Ready(old(Now()))
    {
      o := AllSent;
      if !CanSendNow() {
        ProcessCqNow();
        if !CanSendNow() && life.writable {
          o := WouldBlock;
        } else if !life.writable {
          o := Reset;
        }
      }
    }

    method XferNow(left: nat, olen: nat) returns (n: nat)
      requires Valid() && CanSend(View())
      ensures n == XferSize(View(), left, olen)
    {
      n := if olen < left then olen else left;
      if n > sbufBytesAvail { n := sbufBytesAvail; }
      if n > targetSgl[targetSge].length { n := targetSgl[targetSge].length; }
    }

    /** One pass of the send loop, and what it leaves to the passes after it. */
    method SendOne(data: seq<u8>, olen: nat) returns (n: nat, o: Outcome)
      requires Valid() && data != [] && OlenOk(olen)
      modifies this, targetSgl, sbuf, ctrlBuf, rmsg
      ensures Valid()
      ensures var all := SendLoop(old(Now()), data, olen, false);
              if o.AllSent?
              then 0 < n <= |data| && all == After(n, SendLoop(Now(), data[n..], NextOlen(|data|, olen), false))
              else all == Sent(Now(), 0, o)
    {
      o := ReadyNow();
      n := 0;
      if o.AllSent? {
        n := XferNow(|data|, olen);
        PostChunkNow(data, n, olen);
      }
    }

    /** A non-blocking send: how many bytes were accepted, and why no more. */
    method Send(buf: seq<u8>) returns (count: nat, outcome: Outcome)
      requires Valid()
      modifies this, targetSgl, sbuf, ctrlBuf, rmsg
      ensures Valid() && Sent(Now(), count, outcome) == SendLoop(old(Now()), buf, RS_OLAP_START_SIZE, false)
    {
      ghost var all := SendLoop(Now(), buf, RS_OLAP_START_SIZE, false);
      var olen: nat := RS_OLAP_START_SIZE;
      var rest := buf;
      count, outcome := 0, AllSent;
      while rest != []
        invariant Valid() && OlenOk(olen) && outcome.AllSent?
        invariant all == After(count, SendLoop(Now(), rest, olen, false))
        decreases |rest|
      {
        var n;
        n, outcome := SendOne(rest, olen);
        if !outcome.AllSent? { return; }
        olen := NextOlen(|rest|, olen);
        rest, count := rest[n..], count + n;
      }
    }

    // ---- Vectored send ------------------------------------------------------------

    /** Gather the next `n` bytes of the vectors into the send ring. */
    method PlaceIov(iov: seq<seq<u8>>, cur0: nat, offset0: nat, n: nat)
      returns (src: Source, cur: nat, offset: nat)
      requires Shaped(View()) && n <= cfg.sbufSize
      requires CursorOk(iov, cur0, offset0) && n <= |Remaining(iov, cur0, offset0)|
      modifies this`ssglAddr, sbuf
      ensures CursorOk(iov, cur, offset)
      ensures var rest := Remaining(iov, cur0, offset0);
              var r := PlaceInRing(old(View()).tx, rest[..n]);
              && Remaining(iov, cur, offset) == rest[n..]
              && src == r.1 && sbuf[..] == r.0.sbuf && ssglAddr == r.0.ssglAddr
    {
      ghost var rest := Remaining(iov, cur0, offset0);
      var left := cfg.sbufSize - ssglAddr;
      if n <= left {
        cur, offset := CopyIov(sbuf, ssglAddr, iov, cur0, offset0, n);
        src := Source(ssglAddr, n, 0, None);
        ssglAddr := if n < left then ssglAddr + n else 0;
      } else {
        cur, offset := CopyIov(sbuf, ssglAddr, iov, cur0, offset0, left);
        cur, offset := CopyIov(sbuf, 0, iov, cur, offset, n - left);
        assert rest[..n][..left] == rest[..left] && rest[..n][left..] == rest[left..][..n - left];
        assert rest[left..][n - left..] == rest[n..];
        src := Source(ssglAddr, left, n - left, None);
        ssglAddr := n - left;
      }
    }

    /** The bytes the adapter copies when a request is posted inline. */
    method Captured(src: Source) returns (bytes: seq<u8>)
      requires src.captured.None? && SourceFits(src, sbuf.Length)
      ensures bytes == Gather(sbuf[..], src)
    {
      bytes := sbuf[src.at..src.at + src.first] + sbuf[..src.rest];
    }

    /** Post a chunk that is in the send ring, inline if it is small enough. */
    method PostPlaced(src: Source, ghost piece: seq<u8>, n: nat)
      requires Shaped(View()) && targetSgl != ctrlBuf
      requires n <= targetSgl[targetSge].length && n < MSG_UNIT
      requires src.captured.None? && SourceFits(src, sbuf.Length) && Gather(sbuf[..], src) == piece
      modifies this`sseqNo, this`sqeAvail, this`sbufBytesAvail, this`targetSge, this`posted, targetSgl
      ensures var d := WriteData(old(View()), if n <= cfg.sqInline then src.(captured := Some(piece)) else src, n);
              View() == d.sock && posted == old(posted) + d.posted
    {
      if n <= cfg.sqInline {
        var now := Captured(src);
        WriteDataNow(src.(captured := Some(now)), n);
      } else {
        WriteDataNow(src, n);
      }
    }

    /** Gather a chunk from the vectors and post it. */
    method GatherAndPost(iov: seq<seq<u8>>, ghost rest: seq<u8>, cur0: nat, offset0: nat, n: nat)
      returns (cur: nat, offset: nat)
      requires Shaped(View()) && sbuf != rbuf && targetSgl != ctrlBuf
      requires CursorOk(iov, cur0, offset0) && rest == Remaining(iov, cur0, offset0)
      requires n <= |rest| && n <= cfg.sbufSize && ChunkOk(View(), rest[..n], PathOf(View(), n, true))
      modifies this`ssglAddr, sbuf
      modifies this`sseqNo, this`sqeAvail, this`sbufBytesAvail, this`targetSge, this`posted, targetSgl
      ensures CursorOk(iov, cur, offset) && Remaining(iov, cur, offset) == rest[n..]
      ensures var d := SendChunk(old(View()), rest[..n], PathOf(old(View()), n, true));
              View() == d.sock && posted == old(posted) + d.posted
    {
      var src;
      src, cur, offset := PlaceIov(iov, cur0, offset0, n);
      ghost var piece := rest[..n];
      ghost var placed := PlaceInRing(old(View()).tx, piece);
      assert View() == old(View()).(tx := placed.0) && src == placed.1;
      PlacedGathers(old(View()).tx, piece);
      PostPlaced(src, piece, n);
    }

    method PostIov(iov: seq<seq<u8>>, ghost data: seq<u8>, cur0: nat, offset0: nat, n: nat, olen: nat)
      returns (cur: nat, offset: nat)
      requires Valid() && CanSend(View()) && OlenOk(olen)
      requires CursorOk(iov, cur0, offset0) && data != [] && data == Remaining(iov, cur0, offset0)
      requires n == XferSize(View(), |data|, olen)
      modifies this, targetSgl, sbuf
      ensures Valid() && CursorOk(iov, cur, offset) && Remaining(iov, cur, offset) == data[n..]
      ensures Now() == PostChunk(old(Now()), data, olen, true)
    {
      cur, offset := GatherAndPost(iov, data, cur0, offset0, n);
      assert Now() == PostChunk(old(Now()), data, olen, true);
    }

    /** One pass of the vectored send loop. */
    method SendIovOne(iov: seq<seq<u8>>, ghost data: seq<u8>, cur0: nat, offset0: nat, left: nat, olen: nat)
      returns (n: nat, cur: nat, offset: nat, o: Outcome)
      requires Valid() && OlenOk(olen) && 0 < left == |data|
      requires CursorOk(iov, cur0, offset0) && data == Remaining(iov, cur0, offset0)
      modifies this, targetSgl, sbuf, ctrlBuf, rmsg
      ensures Valid() && CursorOk(iov, cur, offset)
      ensures var all := SendLoop(old(Now()), data, olen, true);
              if o.AllSent?
              then && 0 < n <= left && Remaining(iov, cur, offset) == data[n..]
                   && all == After(n, SendLoop(Now(), data[n..], NextOlen(left, olen), true))
              else all == Sent(Now(), 0, o)
    {
      o := ReadyNow();
      n, cur, offset := 0, cur0, offset0;
      if o.AllSent? {
        n := XferNow(left, olen);
        cur, offset := PostIov(iov, data, cur0, offset0, n, olen);
      }
    }

    /** The bytes in all vectors together. */
    static method TotalLength(iov: seq<seq<u8>>) returns (len: nat)
      requires iov != []
      ensures len == |Flat(iov)|
    {
      len := |iov[0]|;
      assert Flat(iov[..1]) == iov[0] by { assert iov[..1] == [iov[0]] && Flat([iov[0]]) == iov[0] + Flat([]); }
      for i := 1 to |iov|
        invariant len == |Flat(iov[..i])|
      {
        FlatSnoc(iov[..i], iov[i]);
        assert iov[..i] + [iov[i]] == iov[..i + 1];
        len := len + |iov[i]|;
      }
      assert iov[..|iov|] == iov;
    }

    /** A non-blocking vectored send. */
    method SendV(iov: seq<seq<u8>>) returns (count: nat, outcome: Outcome)
      requires Valid() && iov != []
      modifies this, targetSgl, sbuf, ctrlBuf, rmsg
      ensures Valid() && Sent(Now(), count, outcome) == SendLoop(old(Now()), Flat(iov), RS_OLAP_START_SIZE, true)
    {
      var len := TotalLength(iov);
      RemainingIsFlat(iov, 0);
      assert iov[0..] == iov;
      count, outcome := SendVectors(iov, Flat(iov), len);
    }

    method SendVectors(iov: seq<seq<u8>>, ghost data: seq<u8>, len: nat) returns (count: nat, outcome: Outcome)
      requires Valid() && CursorOk(iov, 0, 0) && data == Remaining(iov, 0, 0) && len == |data|
      modifies this, targetSgl, sbuf, ctrlBuf, rmsg
      ensures Valid() && Sent(Now(), count, outcome) == SendLoop(old(Now()), data, RS_OLAP_START_SIZE, true)
    {
      ghost var all := SendLoop(Now(), data, RS_OLAP_START_SIZE, true);
      var olen: nat := RS_OLAP_START_SIZE;
      var cur: nat, offset: nat := 0, 0;
      count, outcome := 0, AllSent;
      ghost var rest := data;
      while count < len
        invariant Valid() && OlenOk(olen) && count + |rest| == len && outcome.AllSent?
        invariant CursorOk(iov, cur, offset) && Remaining(iov, cur, offset) == rest
        invariant all == After(count, SendLoop(Now(), rest, olen, true))
        decreases len - count
      {
        var n;
        n, cur, offset, outcome := SendIovOne(iov, rest, cur, offset, len - count, olen);
        if !outcome.AllSent? { return; }
        olen := NextOlen(len - count, olen);
        rest := rest[n..];
        count := count + n;
      }
    }

    // ---- Reading --------------------------------------------------------------------

    /** Copy `n` bytes of the receive ring from `offset` on into the caller's buffer. */
    method CopyOut(buf: array<u8>, at: nat, offset: nat, n: nat) returns (next: nat)
      requires buf != rbuf && rbuf.Length == cfg.rbufSize
      requires offset <= cfg.rbufSize && n <= cfg.rbufSize && at + n <= buf.Length
      modifies buf
      ensures next == AdvanceOffset(cfg.rbufSize, offset, n)
      ensures buf[..] == Splice(old(buf[..]), at, RingBytes(rbuf[..], offset, n))
    {
      var end := cfg.rbufSize - offset;
      if n > end {
        MemCopy(buf, at, rbuf[offset..]);
        MemCopy(buf, at + end, rbuf[..n - end]);
        next := n - end;
        assert RingBytes(rbuf[..], offset, n) == rbuf[offset..] + rbuf[..n - end];
      } else {
        MemCopy(buf, at, rbuf[offset..offset + n]);
        next := offset + n;
      }
    }

    /** Copy ring bytes behind what the caller's buffer already holds. */
    method CopyNext(buf: array<u8>, at: nat, offset: nat, n: nat, ghost got: seq<u8>)
      returns (next: nat, ghost got': seq<u8>)
      requires buf != rbuf && rbuf.Length == cfg.rbufSize
      requires offset <= cfg.rbufSize && n <= cfg.rbufSize && at + n <= buf.Length && got == buf[..at]
      modifies buf
      ensures next == AdvanceOffset(cfg.rbufSize, offset, n)
      ensures got' == got + RingBytes(rbuf[..], offset, n) && got' == buf[..at + n]
      ensures buf[at + n..] == old(buf[at + n..])
    {
      ghost var was := buf[..];
      next := CopyOut(buf, at, offset, n);
      SplicePrefix(was, at, RingBytes(rbuf[..], offset, n));
      got' := got + RingBytes(rbuf[..], offset, n);
      assert was[..at] == got && buf[..at + n] == buf[..][..at + n];
      assert buf[at + n..] == buf[..][at + n..] == was[at + n..];
    }

    /** Take at most `left` bytes of the oldest message; give its credit back when it is used up. */
    method TakeMessage(left: nat) returns (n: nat)
      requires Shaped(View()) && HaveRdata(View())
      modifies this`rseqNo, this`rmsgHead, rmsg
      ensures n == ChunkSize(old(View()), left)
      ensures var d := old(rmsg[rmsgHead]);
              if left < d
              then rseqNo == old(rseqNo) && rmsgHead == old(rmsgHead) && rmsg[..] == old(rmsg[..])[rmsgHead := d - left]
              else && rseqNo == (old(rseqNo) + 1) % U16 && rmsg[..] == old(rmsg[..])
                   && rmsgHead == if old(rmsgHead) + 1 == cfg.rqSize + 1 then 0 else old(rmsgHead) + 1
    {
      var d := rmsg[rmsgHead];
      if left < d {
        n := left;
        rmsg[rmsgHead] := d - left;
      } else {
        n := d;
        rseqNo := (rseqNo + 1) % U16;
        rmsgHead := rmsgHead + 1;
        if rmsgHead == cfg.rqSize + 1 { rmsgHead := 0; }
      }
    }

    /** One pass of the read loop. */
    method RecvOne(buf: array<u8>, at: nat, left: nat, ghost got: seq<u8>) returns (n: nat, ghost got': seq<u8>)
      requires RxOk(View()) && HaveRdata(View()) && buf != rbuf && buf != sbuf
      requires at + left <= buf.Length && got == buf[..at]
      modifies this`rseqNo, this`rmsgHead, this`rbufOffset, this`rbufBytesAvail, rmsg, buf
      ensures var d := RecvChunk(old(View()), left);
              && View() == d.sock && n == |d.bytes| <= left
              && got' == got + d.bytes && got' == buf[..at + n] && buf[at + n..] == old(buf[at + n..])
    {
      n := TakeMessage(left);
      rbufOffset, got' := CopyNext(buf, at, rbufOffset, n, got);
      rbufBytesAvail := rbufBytesAvail + n;
    }

    /** One pass of the read loop, and what it leaves to the passes after it. */
    method RecvStep(buf: array<u8>, at: nat, left: nat, ghost s: Sock, ghost got: seq<u8>, ghost whole: Done)
      returns (n: nat, left': nat, ghost s': Sock, ghost got': seq<u8>)
      requires s == View() && RxOk(s) && HaveRdata(s) && buf != rbuf && buf != sbuf
      requires 0 < left && at + left <= buf.Length && got == buf[..at] && whole == Reading(got, s, left)
      modifies this`rseqNo, this`rmsgHead, this`rbufOffset, this`rbufBytesAvail, rmsg, buf
      ensures s' == View() && RxOk(s') && n + left' == left && got' == buf[..at + n]
      ensures whole == Reading(got', s', left')
      ensures Unread(s') <= Unread(s) && (Unread(s') < Unread(s) || left' == 0)
    {
      LoopStep(s, left, got, whole);
      n, got' := RecvOne(buf, at, left, got);
      s', left' := View(), left - n;
    }

    /** Read up to a buffer's length of queued bytes. */
    method RecvQueued(buf: array<u8>) returns (n: nat)
      requires RxOk(View()) && buf != rbuf && buf != sbuf
      modifies this`rseqNo, this`rmsgHead, this`rbufOffset, this`rbufBytesAvail, rmsg, buf
      ensures n <= buf.Length && Done(View(), [], buf[..n]) == RecvLoop(old(View()), buf.Length)
    {
      var left: nat := buf.Length;
      n := 0;
      ghost var s, got := View(), [];
      ghost var whole, pending := RecvLoop(s, left), Unread(s);
      LoopStarts(s, left);
      while left != 0 && rmsgHead != rmsgTail
        invariant n + left == buf.Length && s == View() && RxOk(s) && pending == Unread(s)
        invariant got == buf[..n] && whole == Reading(got, s, left)
        decreases pending, left
      {
        var k;
        k, left, s, got := RecvStep(buf, n, left, s, got, whole);
        n := n + k;
        pending := Unread(s);
      }
      LoopEnds(s, left, got, whole);
    }

    /** A non-blocking read. */
    method Recv(buf: array<u8>) returns (n: nat, blocked: bool)
      requires Valid() && buf != rbuf && buf != sbuf
      modifies this, ctrlBuf, rmsg, buf
      ensures Valid()
      ensures var g := RecvCall(old(Now()), buf.Length);
              Now() == g.io && n == |g.bytes| && buf[..n] == g.bytes && blocked == g.blocked
    {
      if rmsgHead == rmsgTail {
        ProcessCqNow();
      }
      n, blocked := 0, false;
      if rmsgHead == rmsgTail && life.readable {
        blocked := true;
      } else {
        n := RecvQueued(buf);
      }
    }

    /** One pass of the peek loop. */
    method PeekOne(buf: array<u8>, at: nat, head: nat, offset: nat, left: nat, ghost s: Sock, ghost got: seq<u8>)
      returns (n: nat, head': nat, offset': nat, left': nat, ghost got': seq<u8>)
      requires s == View() && PeekAt(s, head, offset) && head != rmsgTail
      requires buf != rbuf && buf != sbuf && 0 < left && at + left <= buf.Length && got == buf[..at]
      modifies buf
      ensures View() == s && n + left' == left && PeekAt(s, head', offset') && got' == buf[..at + n]
      ensures Peeking(got, s, head, offset, left) == Peeking(got', s, head', offset', left')
      ensures PendingFrom(s.rx, head') <= PendingFrom(s.rx, head)
      ensures PendingFrom(s.rx, head') < PendingFrom(s.rx, head) || left' == 0
    {
      PeekStep(s, head, offset, left, got);
      var d := rmsg[head];
      if left < d {
        n, head' := left, head;
      } else {
        n, head' := d, if head + 1 == cfg.rqSize + 1 then 0 else head + 1;
      }
      left' := left - n;
      offset', got' := CopyNext(buf, at, offset, n, got);
    }

    /** A peek: the bytes a read would return, with the socket unchanged. */
    method PeekNow(buf: array<u8>) returns (n: nat)
      requires RxOk(View()) && buf != rbuf && buf != sbuf
      modifies buf
      ensures n <= buf.Length && buf[..n] == Peek(View(), buf.Length)
      ensures View() == old(View())
    {
      var head: nat, offset: nat, left: nat := rmsgHead, rbufOffset, buf.Length;
      n := 0;
      ghost var s, got := View(), [];
      ghost var whole, pending := Peek(s, left), PendingFrom(s.rx, head);
      PeekStarts(s, left);
      while left != 0 && head != rmsgTail
        invariant n + left == buf.Length && View() == s && PeekAt(s, head, offset) && got == buf[..n]
        invariant whole == Peeking(got, s, head, offset, left) && pending == PendingFrom(s.rx, head)
        decreases pending, left
      {
        var k;
        k, head, offset, left, got := PeekOne(buf, n, head, offset, left, s, got);
        n := n + k;
        pending := PendingFrom(s.rx, head);
      }
      PeekEnds(s, head, offset, left, got);
    }
  }
}

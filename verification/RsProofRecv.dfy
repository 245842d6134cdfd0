/** Reading keeps the invariant and returns the next bytes of the stream. */
module RsProofRecv {
  import opened Memory
  import opened RsWire
  import opened RsSocket
  import opened RsProtocol
  import opened RsInvariant
  import opened RsFrame
  import opened RsArith
  import opened RsChunk

  predicate CanRecv(x: End, want: nat) {
    && Shaped(x.s) && HaveRdata(x.s) && 0 < want
    && ChunkSize(x.s, want) <= x.s.cfg.rbufSize
  }

  function ReadOn(x: End, want: nat): End
    requires CanRecv(x, want)
  {
    var d := RecvChunk(x.s, want);
    End(d.sock, x.h.(read := x.h.read + d.bytes,
                     nread := if want < x.s.rx.rmsg[x.s.rx.rmsgHead] then x.h.nread else x.h.nread + 1))
  }

  /** What a read of `n` bytes changes, and that it changes nothing else. */
  predicate ReadFacts(x: End, x': End, n: nat)
    requires Shaped(x.s) && n <= x.s.cfg.rbufSize
  {
    && Shaped(x'.s) && x'.s.cfg == x.s.cfg && x'.s.tx == x.s.tx && x'.s.ctl == x.s.ctl && x'.s.life == x.s.life
    && x'.h == x.h.(read := x'.h.read, nread := x'.h.nread)
    && x'.h.read == x.h.read + RingBytes(x.s.rx.rbuf, x.s.rx.rbufOffset, n)
    && x'.s.rx.rbuf == x.s.rx.rbuf && x'.s.rx.remoteSge == x.s.rx.remoteSge
    && x'.s.rx.rbufFreeOffset == x.s.rx.rbufFreeOffset && x'.s.rx.rseqComp == x.s.rx.rseqComp
    && x'.s.rx.rbufBytesAvail == x.s.rx.rbufBytesAvail + n
    && x'.s.rx.rbufOffset == AdvanceOffset(x.s.cfg.rbufSize, x.s.rx.rbufOffset, n)
    && x'.h.nread + |Msgs(x'.s.rx)| == x.h.nread + |Msgs(x.s.rx)|
    && x'.s.rx.rseqNo == (if x'.h.nread == x.h.nread then x.s.rx.rseqNo else (x.s.rx.rseqNo + 1) % U16)
    && x.h.nread <= x'.h.nread <= x.h.nread + 1
  }

  lemma ReadOnFacts(x: End, want: nat)
    requires CanRecv(x, want)
    ensures ReadFacts(x, ReadOn(x, want), ChunkSize(x.s, want))
  {
    MsgsAfterChunk(x.s, want);
  }

  lemma NextSeqNo(nread: nat, nread': nat, rseqNo: nat, rseqNo': nat)
    requires rseqNo == nread % U16 && nread <= nread' <= nread + 1
    requires rseqNo' == if nread' == nread then rseqNo else (rseqNo + 1) % U16
    ensures rseqNo' == nread' % U16
  {
    AddWrapped16(nread, 1);
  }

  lemma ReadKeepsEnd(x: End, x': End, n: nat)
    requires Shaped(x.s) && n <= x.s.cfg.rbufSize && ReadFacts(x, x', n) && EndOk(x)
    ensures EndOk(x')
  {
    NextSeqNo(x.h.nread, x'.h.nread, x.s.rx.rseqNo, x'.s.rx.rseqNo);
    CreditsFrame(x, x');
    QueueFrame(x, x');
    RingFrame(x, x');
    GrantsFrame(x, x');
    FinsFrame(x, x');
  }

  lemma ReadOnEnd(x: End, want: nat)
    requires CanRecv(x, want) && EndOk(x)
    ensures EndOk(ReadOn(x, want))
  {
    ReadOnFacts(x, want);
    ReadKeepsEnd(x, ReadOn(x, want), ChunkSize(x.s, want));
  }

  /** The next chunk lies inside the receive ring. */
  lemma RecvSafe(x: End, y: End, want: nat)
    requires Flow(y, x) && HaveRdata(x.s) && 0 < want
    requires |y.h.sent| <= |x.h.read| + x.s.cfg.rbufSize
    ensures CanRecv(x, want)
  {
    var q := Msgs(x.s.rx);
    assert q != [] && q[0] == x.s.rx.rmsg[x.s.rx.rmsgHead];
    UptoGrows(y.h.log, y.h.polled, |y.h.log|);
    assert SumOf(q) >= q[0];
  }

  /** Byte `j` from the read position, and its place in the ring. */
  lemma RingByte(rbuf: seq<u8>, offset: nat, r: nat, n: nat, j: nat)
    requires 0 < |rbuf| && offset <= |rbuf| && n <= |rbuf| && j < n
    requires offset % |rbuf| == r % |rbuf|
    ensures RingBytes(rbuf, offset, n)[j] == rbuf[(r + j) % |rbuf|]
  {
    ModStep(r, j, |rbuf|);
    OffsetPlace(|rbuf|, offset);
  }

  lemma OffsetPlace(size: nat, offset: nat)
    requires 0 < size && offset <= size
    ensures offset % size == if offset == size then 0 else offset
  {
    ModStep(0, offset, size);
  }

  lemma OffsetAdvance(size: nat, offset: nat, r: nat, n: nat)
    requires 0 < size && offset <= size && n <= size && offset % size == r % size
    ensures AdvanceOffset(size, offset, n) <= size
    ensures AdvanceOffset(size, offset, n) % size == (r + n) % size
  {
    ModStep(r, n, size);
    OffsetPlace(size, offset);
    OffsetPlace(size, AdvanceOffset(size, offset, n));
  }

  /** Ring bytes from the read position are the stream from the read count. */
  lemma RingIsStream(rbuf: seq<u8>, sent: seq<u8>, offset: nat, r: nat, n: nat)
    requires 0 < |rbuf| && offset <= |rbuf| && n <= |rbuf| && r + n <= |sent|
    requires offset % |rbuf| == r % |rbuf|
    requires forall k :: r <= k < r + n ==> rbuf[k % |rbuf|] == sent[k]
    ensures RingBytes(rbuf, offset, n) == sent[r..r + n]
  {
    forall j | 0 <= j < n ensures RingBytes(rbuf, offset, n)[j] == sent[r..r + n][j] {
      RingByte(rbuf, offset, r, n, j);
    }
  }

  lemma StreamRead(y: End, x: End, x': End, n: nat)
    requires Positions(y.h) && Shaped(x.s) && Shaped(x'.s) && 0 < x.s.cfg.rbufSize && FlowRead(y, x)
    requires n <= x.s.cfg.rbufSize && |x.h.read| + n <= Upto(y.h.log, y.h.landed).bytes
    requires x'.s.cfg == x.s.cfg && x'.s.rx.rbuf == x.s.rx.rbuf
    requires x'.h.read == x.h.read + RingBytes(x.s.rx.rbuf, x.s.rx.rbufOffset, n)
    requires x'.s.rx.rbufOffset == AdvanceOffset(x.s.cfg.rbufSize, x.s.rx.rbufOffset, n)
    requires SumOf(Msgs(x'.s.rx)) + n == SumOf(Msgs(x.s.rx))
    requires forall i :: 0 <= i < |Msgs(x'.s.rx)| ==> 0 < Msgs(x'.s.rx)[i]
    ensures FlowRead(y, x')
  {
    var r := |x.h.read|;
    RingIsStream(x.s.rx.rbuf, y.h.sent, x.s.rx.rbufOffset, r, n);
    OffsetAdvance(x.s.cfg.rbufSize, x.s.rx.rbufOffset, r, n);
    assert x'.h.read == y.h.sent[..r + n];
  }

  /** What was announced has been written. */
  lemma ToldIsThere(h: Hist)
    requires LogOk(h)
    ensures Upto(h.log, h.polled).told <= Upto(h.log, h.landed).bytes
  {
    assert Upto(h.log, h.polled).told <= Upto(h.log, h.polled).bytes;
    UptoGrows(h.log, h.polled, h.landed);
  }

  lemma RecvReadFlow(x: End, y: End, want: nat)
    requires CanRecv(x, want) && EndOk(x) && LogOk(y.h) && FlowRead(y, x)
    ensures Shaped(ReadOn(x, want).s) && FlowRead(y, ReadOn(x, want))
  {
    MsgsAfterChunk(x.s, want);
    SumAfterChunk(x.s, want);
    ReadOnFacts(x, want);
    ToldIsThere(y.h);
    StreamRead(y, x, ReadOn(x, want), ChunkSize(x.s, want));
  }

  lemma ReadOnSlots(x: End, want: nat)
    requires CanRecv(x, want) && SlotsOk(x.s)
    ensures SlotsOk(ReadOn(x, want).s)
  {
  }

  lemma RecvIn(x: End, y: End, want: nat)
    requires CanRecv(x, want) && Flow(y, x) && EndOk(ReadOn(x, want))
    ensures Flow(y, ReadOn(x, want))
  {
    var x' := ReadOn(x, want);
    RecvReadFlow(x, y, want);
    ReadOnSlots(x, want);
    ReadOnFacts(x, want);
    CreditFrame(y, x, y, x');
    TargetFrame(y, x, y, x');
    AddrFrame(y, x, y, x');
    FinFrame(y, x, y, x');
  }

  lemma RecvOut(x: End, y: End, want: nat)
    requires CanRecv(x, want) && Flow(x, y) && EndOk(ReadOn(x, want))
    ensures Flow(ReadOn(x, want), y)
  {
    var x' := ReadOn(x, want);
    ReadOnFacts(x, want);
    CreditFrame(x, y, x', y);
    TargetFrame(x, y, x', y);
    AddrFrame(x, y, x', y);
    ReadFrame(x, y, x', y);
    FinFrame(x, y, x', y);
  }

  lemma RecvKeeps(x: End, y: End, want: nat)
    requires CanRecv(x, want) && Inv(Pair(x, y))
    ensures Inv(Pair(ReadOn(x, want), y))
  {
    ReadOnEnd(x, want);
    RecvOut(x, y, want);
    RecvIn(x, y, want);
  }
}

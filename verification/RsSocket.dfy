/** One stream socket as a value: the fields of `struct rsocket` that the data
    path uses, and what each step of the data path does to them. */
module RsSocket {
  import opened Memory
  import opened Wrappers
  import opened RsWire

  datatype Config = Config(
    rbufSize: nat, sbufSize: nat, sqSize: nat, rqSize: nat, sqInline: nat, msgSend: bool)
  {
    function Half(): nat { rbufSize / 2 }

    /** What socket creation enforces, plus an even receive ring. */
    predicate Good() {
      && 2 <= rbufSize && rbufSize % 2 == 0
      && RS_SNDLOWAT <= sbufSize
      && RS_QP_MIN_SIZE <= sqSize <= RS_QP_MAX_SIZE
      && RS_QP_MIN_SIZE <= rqSize <= RS_QP_MAX_SIZE
      && (msgSend ==> RS_MSG_SIZE <= sqInline)
    }
  }

  /** Sending half: credits, the peer's grants, the send ring. */
  datatype Tx = Tx(
    sseqNo: nat, sseqComp: nat,
    targetSgl: seq<Sge>, targetSge: nat,
    sbuf: seq<u8>, ssglAddr: nat, sbufBytesAvail: int,
    sqeAvail: int)

  /** Receiving half: the receive ring and the ring of unread messages. */
  datatype Rx = Rx(
    rseqNo: nat, rseqComp: nat, remoteSge: nat,
    rbuf: seq<u8>, rbufBytesAvail: int, rbufFreeOffset: nat, rbufOffset: nat,
    rmsg: seq<nat>, rmsgHead: nat, rmsgTail: nat)

  /** The window of work requests reserved for control messages. */
  datatype Ctl = Ctl(seqno: nat, maxSeqno: nat, buf: seq<Sge>)

  /** The state bits, and a shutdown message still waiting for a control slot. */
  datatype Life = Life(connected: bool, readable: bool, writable: bool, pending: Option<nat>)

  datatype Sock = Sock(cfg: Config, tx: Tx, rx: Rx, ctl: Ctl, life: Life)

  datatype How = ShutRd | ShutWr | ShutRdWr

  /** How a chunk reaches the adapter: inline from the caller's buffer, through
      the send ring, or copied to the send ring and then posted inline. */
  datatype Path = Direct | Ring | RingInline

  /** The result of a step: the socket, the requests it posted, bytes it returned. */
  datatype Done = Done(sock: Sock, posted: seq<Wr>, bytes: seq<u8>)

  // ---- Start of a connection -------------------------------------------

  function Init(c: Config, peer: Config): Sock {
    Sock(c,
         Tx(0, peer.rqSize, [Sge(0, peer.Half()), Sge(0, 0)], 0,
            seq(c.sbufSize, _ => 0), 0, c.sbufSize, c.sqSize - RS_QP_CTRL_SIZE),
         Rx(0, c.rqSize / 2, 1,
            seq(c.rbufSize, _ => 0), c.Half(), c.Half(), 0,
            seq(c.rqSize + 1, _ => 0), 0, 0),
         Ctl(0, RS_QP_CTRL_SIZE, seq(RS_QP_CTRL_SIZE, _ => Sge(0, 0))),
         Life(true, true, true, None))
  }

  /** The shape every step relies on: buffer lengths and index ranges. */
  predicate Shaped(s: Sock) {
    && |s.tx.targetSgl| == 2 && s.tx.targetSge < 2
    && |s.tx.sbuf| == s.cfg.sbufSize && s.tx.ssglAddr < s.cfg.sbufSize
    && |s.rx.rbuf| == s.cfg.rbufSize && s.rx.rbufOffset <= s.cfg.rbufSize
    && |s.rx.rmsg| == s.cfg.rqSize + 1
    && s.rx.rmsgHead <= s.cfg.rqSize && s.rx.rmsgTail <= s.cfg.rqSize
    && s.rx.rseqNo < U16 && s.cfg.rqSize < U16
    && |s.ctl.buf| == RS_QP_CTRL_SIZE
  }

  /** No message slot announces more than the receive ring holds. */
  predicate SlotsOk(s: Sock) {
    forall i :: 0 <= i < |s.rx.rmsg| ==> s.rx.rmsg[i] <= s.cfg.rbufSize
  }

  // ---- Tests --------------------------------------------------------------

  predicate CanSend(s: Sock)
    requires s.tx.targetSge < |s.tx.targetSgl|
  {
    && (if s.cfg.msgSend then s.tx.sqeAvail >= 2 else s.tx.sqeAvail != 0)
    && s.tx.sbufBytesAvail >= RS_SNDLOWAT
    && s.tx.sseqNo != s.tx.sseqComp
    && s.tx.targetSgl[s.tx.targetSge].length != 0
  }

  predicate CtrlAvail(c: Ctl) { c.seqno != c.maxSeqno }

  predicate TwoCtrlAvail(c: Ctl) { ToInt32((c.seqno + 1) % U32 - c.maxSeqno) < 0 }

  predicate GiveCredits(s: Sock) {
    && (s.rx.rbufBytesAvail >= s.cfg.Half() || ToShort(s.rx.rseqNo - s.rx.rseqComp) >= 0)
    && (if s.cfg.msgSend then TwoCtrlAvail(s.ctl) else CtrlAvail(s.ctl))
    && s.life.connected
  }

  predicate HaveRdata(s: Sock) { s.rx.rmsgHead != s.rx.rmsgTail }

  /** With nothing left to read and the read side closed, a read reports end of stream. */
  predicate AtEof(s: Sock) { !HaveRdata(s) && !s.life.readable }

  predicate AllSendsDone(s: Sock) {
    ToInt32(s.ctl.maxSeqno - s.ctl.seqno) + s.tx.sqeAvail == s.cfg.sqSize || !s.life.connected
  }

  /** The unread messages, oldest first. */
  function Msgs(rx: Rx): seq<nat>
    requires rx.rmsgHead <= |rx.rmsg| && rx.rmsgTail <= |rx.rmsg|
  {
    if rx.rmsgHead <= rx.rmsgTail then rx.rmsg[rx.rmsgHead..rx.rmsgTail]
    else rx.rmsg[rx.rmsgHead..] + rx.rmsg[..rx.rmsgTail]
  }

  function SumOf(q: seq<nat>): nat { if q == [] then 0 else q[0] + SumOf(q[1..]) }

  // ---- Sending --------------------------------------------------------------

  /** A write and its message: one request, or two when messages are sent apart. */
  function PostWriteMsg(msgSend: bool, payload: Payload, msg: nat): seq<Wr>
    requires msg < U32
  {
    if !msgSend then [Wr(payload, Some(msg), msg)]
    else [Wr(payload, None, msg), Wr(NoPayload, Some(msg), MsgSet(MsgOp(msg), 0))]
  }

  /** Copy a chunk into the send ring, in one piece or split at the end. */
  function PlaceInRing(tx: Tx, data: seq<u8>): (Tx, Source)
    requires tx.ssglAddr < |tx.sbuf| && |data| <= |tx.sbuf|
  {
    var left := |tx.sbuf| - tx.ssglAddr;
    if |data| <= left then
      (tx.(sbuf := Splice(tx.sbuf, tx.ssglAddr, data),
           ssglAddr := if |data| < left then tx.ssglAddr + |data| else 0),
       Source(tx.ssglAddr, |data|, 0, None))
    else
      (tx.(sbuf := Splice(Splice(tx.sbuf, tx.ssglAddr, data[..left]), 0, data[left..]),
           ssglAddr := |data| - left),
       Source(tx.ssglAddr, left, |data| - left, None))
  }

  /** Consume a credit, send-queue entries and target space, then post the write. */
  function WriteData(s: Sock, src: Source, length: nat): Done
    requires s.tx.targetSge < |s.tx.targetSgl| == 2
    requires length <= s.tx.targetSgl[s.tx.targetSge].length
    requires length < MSG_UNIT
  {
    var e := s.tx.targetSgl[s.tx.targetSge];
    var e' := Sge(e.addr + length, e.length - length);
    var tx' := s.tx.(
      sseqNo := (s.tx.sseqNo + 1) % U16,
      sqeAvail := s.tx.sqeAvail - (if s.cfg.msgSend then 2 else 1),
      sbufBytesAvail := s.tx.sbufBytesAvail - length,
      targetSgl := s.tx.targetSgl[s.tx.targetSge := e'],
      targetSge := if e'.length != 0 then s.tx.targetSge
                   else if s.tx.targetSge + 1 == 2 then 0 else s.tx.targetSge + 1);
    Done(s.(tx := tx'), PostWriteMsg(s.cfg.msgSend, ToRing(e.addr, src), DataMsg(length)), [])
  }

  /** The chunk sizes one pass of the send loop may choose. */
  predicate ChunkOk(s: Sock, data: seq<u8>, path: Path)
    requires Shaped(s)
  {
    && CanSend(s)
    && 0 < |data| <= RS_MAX_TRANSFER
    && |data| <= s.tx.sbufBytesAvail
    && |data| <= s.tx.targetSgl[s.tx.targetSge].length
    && (path.Ring? <==> |data| > s.cfg.sqInline)
  }

  function SendChunk(s: Sock, data: seq<u8>, path: Path): Done
    requires Shaped(s) && ChunkOk(s, data, path)
    requires !path.Direct? ==> |data| <= s.cfg.sbufSize
  {
    if path.Direct? then
      WriteData(s, Source(0, 0, 0, Some(data)), |data|)
    else
      var (tx', src) := PlaceInRing(s.tx, data);
      WriteData(s.(tx := tx'), if path.RingInline? then src.(captured := Some(data)) else src, |data|)
  }

  // ---- Granting credits and space -------------------------------------------

  /** Where the half after the one at `offset` begins. */
  function NextFree(c: Config, offset: nat): nat {
    if offset + c.Half() >= c.rbufSize then 0 else offset + c.Half()
  }

  /** Return message credits and, when half the ring is free, grant that half. */
  function SendCredits(s: Sock): Done
    requires Shaped(s)
  {
    var seq1 := (s.ctl.seqno + 1) % U32;
    var msg := CreditMsg(s.rx.rseqNo + s.cfg.rqSize);
    var rx1 := s.rx.(rseqComp := (s.rx.rseqNo + s.cfg.rqSize / 2) % U16);
    if s.rx.rbufBytesAvail >= s.cfg.Half() then
      var seq2 := if s.cfg.msgSend then (seq1 + 1) % U32 else seq1;
      var sge := Sge(s.rx.rbufFreeOffset, s.cfg.Half());
      var useBuf := s.cfg.sqInline < RS_MAX_CTRL_MSG;
      var slot := seq2 % RS_QP_CTRL_SIZE;
      var grant := if useBuf then GrantCtrlBuf(slot) else GrantInline(sge);
      Done(s.(ctl := s.ctl.(seqno := seq2, buf := if useBuf then s.ctl.buf[slot := sge] else s.ctl.buf),
              rx := rx1.(rbufBytesAvail := s.rx.rbufBytesAvail - s.cfg.Half(),
                         rbufFreeOffset := NextFree(s.cfg, s.rx.rbufFreeOffset),
                         remoteSge := if s.rx.remoteSge + 1 == 2 then 0 else s.rx.remoteSge + 1)),
           PostWriteMsg(s.cfg.msgSend, ToSgl(s.rx.remoteSge, grant), msg), [])
    else
      Done(s.(ctl := s.ctl.(seqno := seq1), rx := rx1), [Wr(NoPayload, Some(msg), msg)], [])
  }

  // ---- Completions ----------------------------------------------------------

  function Disconnected(l: Life): Life { l.(connected := false, readable := false, writable := false) }

  /** A send completion gives back what its request held. */
  function OnSendDone(s: Sock, wrData: nat): Sock {
    var op := MsgOp(wrData);
    if op == OP_SGL then
      s.(ctl := s.ctl.(maxSeqno := (s.ctl.maxSeqno + 1) % U32))
    else if op == OP_CTRL then
      s.(ctl := s.ctl.(maxSeqno := (s.ctl.maxSeqno + 1) % U32),
         life := if MsgData(wrData) == CTRL_DISCONNECT then Disconnected(s.life) else s.life)
    else
      s.(tx := s.tx.(sqeAvail := s.tx.sqeAvail + 1,
                     sbufBytesAvail := s.tx.sbufBytesAvail + MsgData(wrData)))
  }

  /** A receive completion: new credits, a control message, or data to read. */
  function OnArrival(s: Sock, msg: nat): Sock
    requires Shaped(s)
  {
    var op := MsgOp(msg);
    if op == OP_SGL then
      s.(tx := s.tx.(sseqComp := MsgData(msg) % U16))
    else if op == OP_IOMAP_SGL || op == OP_WRITE then
      s
    else if op == OP_CTRL then
      if MsgData(msg) == CTRL_DISCONNECT then s.(life := Disconnected(s.life))
      else if MsgData(msg) == CTRL_SHUTDOWN then
        s.(life := if s.life.writable then s.life.(readable := false) else Disconnected(s.life))
      else s
    else
      s.(rx := s.rx.(rmsg := s.rx.rmsg[s.rx.rmsgTail := MsgData(msg)],
                     rmsgTail := if s.rx.rmsgTail + 1 == s.cfg.rqSize + 1 then 0 else s.rx.rmsgTail + 1))
  }

  // ---- Receiving --------------------------------------------------------------

  function ChunkSize(s: Sock, want: nat): nat
    requires Shaped(s)
  {
    if want < s.rx.rmsg[s.rx.rmsgHead] then want else s.rx.rmsg[s.rx.rmsgHead]
  }

  /** `n` bytes of the receive ring from `offset` on, split at the end if needed. */
  function RingBytes(rbuf: seq<u8>, offset: nat, n: nat): (r: seq<u8>)
    requires offset <= |rbuf| && n <= |rbuf|
    ensures |r| == n
  {
    var end := |rbuf| - offset;
    if n > end then rbuf[offset..] + rbuf[..n - end] else rbuf[offset..offset + n]
  }

  function AdvanceOffset(size: nat, offset: nat, n: nat): nat
    requires offset <= size
  {
    if n > size - offset then n - (size - offset) else offset + n
  }

  /** One pass of the read loop: at most one message, at most `want` bytes. */
  function RecvChunk(s: Sock, want: nat): Done
    requires Shaped(s) && HaveRdata(s)
    requires ChunkSize(s, want) <= s.cfg.rbufSize
  {
    var n := ChunkSize(s, want);
    var d := s.rx.rmsg[s.rx.rmsgHead];
    var rx1 :=
      if want < d then s.rx.(rmsg := s.rx.rmsg[s.rx.rmsgHead := d - want])
      else s.rx.(rseqNo := (s.rx.rseqNo + 1) % U16,
                 rmsgHead := if s.rx.rmsgHead + 1 == s.cfg.rqSize + 1 then 0 else s.rx.rmsgHead + 1);
    Done(s.(rx := rx1.(rbufOffset := AdvanceOffset(s.cfg.rbufSize, s.rx.rbufOffset, n),
                       rbufBytesAvail := s.rx.rbufBytesAvail + n)),
         [], RingBytes(s.rx.rbuf, s.rx.rbufOffset, n))
  }

  // ---- Shutdown and keepalive ---------------------------------------------

  /** Clear the state bits and decide which message, if any, must follow. */
  function ShutMark(s: Sock, how: How): Sock {
    match how
    case ShutRdWr =>
      s.(life := s.life.(readable := false, writable := false, pending := Some(CTRL_DISCONNECT)))
    case ShutWr =>
      s.(life := s.life.(writable := false,
                         pending := Some(if s.life.readable then CTRL_SHUTDOWN else CTRL_DISCONNECT)))
    case ShutRd =>
      s.(life := s.life.(readable := false,
                         pending := if s.life.writable then None else Some(CTRL_DISCONNECT)))
  }

  /** Post the shutdown message if still connected. */
  function ShutPost(s: Sock): Done
    requires s.life.pending.Some? && s.life.pending.value < MSG_UNIT
  {
    var s1 := s.(life := s.life.(pending := None));
    if s.life.connected && CtrlAvail(s.ctl) then
      var msg := MsgSet(OP_CTRL, s.life.pending.value);
      Done(s1.(ctl := s.ctl.(seqno := (s.ctl.seqno + 1) % U32)), [Wr(NoPayload, Some(msg), msg)], [])
    else
      Done(s1, [], [])
  }

  /** A zero-byte write that needs no answer from the peer's software. */
  function Keepalive(s: Sock): Done
    requires CtrlAvail(s.ctl)
  {
    Done(s.(ctl := s.ctl.(seqno := (s.ctl.seqno + 1) % U32)),
         [Wr(NoPayload, None, MsgSet(OP_CTRL, CTRL_KEEPALIVE))], [])
  }
}

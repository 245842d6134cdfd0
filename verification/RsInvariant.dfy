/** What holds in every reachable state of two connected stream sockets. */
module RsInvariant {
  import opened Wrappers
  import opened RsWire
  import opened RsSocket
  import opened RsProtocol

  // ---- Totals over the posted requests ---------------------------------------

  /** Totals over posted requests: bytes written to the peer's ring and bytes
      announced by messages, data messages, grants, credit messages, the
      send-queue entries, send-ring bytes and control slots their completions
      give back, and send-ring bytes they occupy. */
  datatype Count = Count(
    bytes: nat, told: nat, msgs: nat, grants: nat, credits: nat,
    sqes: nat, held: nat, ctrls: nat, ring: nat)

  predicate IsDataMsg(w: Wr) { w.msg.Some? && IsDataOp(MsgOp(w.msg.value)) }

  predicate IsCredit(w: Wr) { w.msg.Some? && MsgOp(w.msg.value) == OP_SGL }

  predicate IsCtrlWr(w: Wr) { MsgOp(w.wrData) == OP_SGL || MsgOp(w.wrData) == OP_CTRL }

  /** A message that closes the peer's read side. */
  predicate IsFin(w: Wr) {
    w.msg.Some? && MsgOp(w.msg.value) == OP_CTRL &&
    (MsgData(w.msg.value) == CTRL_DISCONNECT || MsgData(w.msg.value) == CTRL_SHUTDOWN)
  }

  predicate IsOwnDisconnect(w: Wr) {
    MsgOp(w.wrData) == OP_CTRL && MsgData(w.wrData) == CTRL_DISCONNECT
  }

  function Bytes(w: Wr): nat { if w.payload.ToRing? then w.payload.src.Len() else 0 }
  function RingBytesOf(w: Wr): nat { if w.payload.ToRing? then w.payload.src.first + w.payload.src.rest else 0 }
  function Held(w: Wr): nat { if IsCtrlWr(w) then 0 else MsgData(w.wrData) }
  function Told(w: Wr): nat { if IsDataMsg(w) then MsgData(w.msg.value) else 0 }

  function Plus(c: Count, w: Wr): Count {
    Count(c.bytes + Bytes(w), c.told + Told(w), c.msgs + (if IsDataMsg(w) then 1 else 0),
          c.grants + (if w.payload.ToSgl? then 1 else 0), c.credits + (if IsCredit(w) then 1 else 0),
          c.sqes + (if IsCtrlWr(w) then 0 else 1), c.held + Held(w),
          c.ctrls + (if IsCtrlWr(w) then 1 else 0), c.ring + RingBytesOf(w))
  }

  /** The totals over the first `n` requests. */
  function Upto(log: seq<Wr>, n: nat): Count
    requires n <= |log|
  {
    if n == 0 then Count(0, 0, 0, 0, 0, 0, 0, 0, 0) else Plus(Upto(log, n - 1), log[n - 1])
  }

  function All(log: seq<Wr>): Count { Upto(log, |log|) }

  lemma {:induction false} UptoPrefix(log: seq<Wr>, more: seq<Wr>, n: nat)
    requires n <= |log|
    ensures Upto(log + more, n) == Upto(log, n)
  {
    if n != 0 {
      UptoPrefix(log, more, n - 1);
      assert (log + more)[n - 1] == log[n - 1];
    }
  }

  /** Posting one or two requests adds them to the totals and changes no earlier one. */
  lemma UptoPosted(log: seq<Wr>, ws: seq<Wr>)
    requires 1 <= |ws| <= 2
    ensures forall n :: 0 <= n <= |log| ==> Upto(log + ws, n) == Upto(log, n)
    ensures Upto(log + ws, |log| + 1) == Plus(All(log), ws[0])
    ensures |ws| == 1 ==> All(log + ws) == Plus(All(log), ws[0])
    ensures |ws| == 2 ==> All(log + ws) == Plus(Plus(All(log), ws[0]), ws[1])
  {
    forall n | 0 <= n <= |log| ensures Upto(log + ws, n) == Upto(log, n) { UptoPrefix(log, ws, n); }
    assert (log + ws)[|log|] == ws[0];
    if |ws| == 2 { assert (log + ws)[|log| + 1] == ws[1]; }
  }

  predicate AtMost(a: Count, b: Count) {
    && a.bytes <= b.bytes && a.told <= b.told && a.msgs <= b.msgs && a.grants <= b.grants
    && a.credits <= b.credits && a.sqes <= b.sqes && a.held <= b.held && a.ctrls <= b.ctrls
    && a.ring <= b.ring
  }

  lemma {:induction false} UptoGrows(log: seq<Wr>, m: nat, n: nat)
    requires m <= n <= |log|
    ensures AtMost(Upto(log, m), Upto(log, n))
    decreases n
  {
    if m < n { UptoGrows(log, m, n - 1); }
  }

  /** Every request is either a data request or a control request. */
  lemma {:induction false} EveryRequestCounted(log: seq<Wr>, n: nat)
    requires n <= |log|
    ensures Upto(log, n).sqes + Upto(log, n).ctrls == n
  {
    if n != 0 { EveryRequestCounted(log, n - 1); }
  }

  // ---- One end -------------------------------------------------------------

  predicate Positions(h: Hist) {
    h.completed <= h.landed <= |h.log| && h.polled <= h.landed
  }

  /** The shape of a single posted request. */
  predicate WrOk(w: Wr) {
    && (w.payload.ToRing? ==>
          && Held(w) == Bytes(w) && !IsCtrlWr(w)
          && (RingBytesOf(w) == 0 || RingBytesOf(w) == Bytes(w))
          && (w.payload.src.captured.None? ==> RingBytesOf(w) == Bytes(w)))
    && (IsDataMsg(w) ==> 0 < MsgData(w.msg.value))
    && (w.payload.ToSgl? ==> IsCtrlWr(w))
  }

  /** Requests announce no byte before writing it, and in the end all of them. */
  predicate LogOk(h: Hist) {
    && Positions(h)
    && (forall i :: 0 <= i < |h.log| ==> WrOk(h.log[i]))
    && (forall n :: 0 <= n <= |h.log| ==> Upto(h.log, n).told <= Upto(h.log, n).bytes)
    && All(h.log).told == All(h.log).bytes == |h.sent|
  }

  /** Counters against outstanding requests. */
  predicate QueueOk(e: End) {
    && Positions(e.h)
    && var t, d := All(e.h.log), Upto(e.h.log, e.h.completed);
    && e.s.tx.sqeAvail == e.s.cfg.sqSize - RS_QP_CTRL_SIZE - (t.sqes - d.sqes)
    && 0 <= e.s.tx.sqeAvail
    && e.s.tx.sbufBytesAvail == e.s.cfg.sbufSize - (t.held - d.held)
    && 0 <= e.s.tx.sbufBytesAvail
    && e.s.ctl.seqno == t.ctrls % U32
    && e.s.ctl.maxSeqno == (d.ctrls + RS_QP_CTRL_SIZE) % U32
    && t.ctrls <= d.ctrls + RS_QP_CTRL_SIZE
  }

  /** A placed write is one arc of the send ring. */
  predicate ArcAt(src: Source, pos: nat, size: nat)
    requires 0 < size
  {
    && src.at == pos % size
    && (src.rest == 0 || src.at + src.first == size)
    && src.at + src.first <= size && src.first + src.rest <= size
  }

  /** Write `i` still to be carried out finds the accepted bytes in the ring. */
  predicate Readable(e: End, i: nat)
    requires i < |e.h.log| && Shaped(e.s)
  {
    var w := e.h.log[i];
    w.payload.ToRing? ==>
      var src, k := w.payload.src, Upto(e.h.log, i).bytes;
      && SourceFits(src, e.s.cfg.sbufSize)
      && k + src.Len() <= |e.h.sent|
      && Gather(e.s.tx.sbuf, src) == e.h.sent[k..k + src.Len()]
  }

  predicate ArcOk(e: End, i: nat)
    requires i < |e.h.log| && Shaped(e.s)
  {
    RingBytesOf(e.h.log[i]) != 0 ==>
      ArcAt(e.h.log[i].payload.src, Upto(e.h.log, i).ring, e.s.cfg.sbufSize)
  }

  predicate SendRingOk(e: End) {
    && Shaped(e.s) && Positions(e.h)
    && e.s.tx.ssglAddr == All(e.h.log).ring % e.s.cfg.sbufSize
    && (forall i :: 0 <= i < |e.h.log| ==> ArcOk(e, i))
    && (forall i :: e.h.landed <= i < |e.h.log| ==> Readable(e, i))
  }

  /** The half of the receive ring that grant number `g` stands for. */
  function GrantSge(c: Config, g: nat): Sge {
    Sge(if g % 2 == 1 then c.Half() else 0, c.Half())
  }

  /** Control slots a grant takes before its write. */
  function CtrlStep(c: Config): nat { if c.msgSend then 2 else 1 }

  predicate GrantWrOk(e: End, i: nat)
    requires i < |e.h.log|
  {
    var w, c := e.h.log[i], Upto(e.h.log, i);
    w.payload.ToSgl? ==>
      && w.payload.slot == (1 + c.grants) % 2
      && (w.payload.grant.GrantInline? ==> w.payload.grant.sge == GrantSge(e.s.cfg, 1 + c.grants))
      && (w.payload.grant.GrantCtrlBuf? ==>
            w.payload.grant.slot == (c.ctrls + CtrlStep(e.s.cfg)) % RS_QP_CTRL_SIZE)
  }

  /** Grant `i` still to be carried out finds its entry in the control buffer. */
  predicate GrantPending(e: End, i: nat)
    requires i < |e.h.log|
  {
    var w := e.h.log[i];
    w.payload.ToSgl? && w.payload.grant.GrantCtrlBuf? ==>
      && w.payload.grant.slot < |e.s.ctl.buf|
      && e.s.ctl.buf[w.payload.grant.slot] == GrantSge(e.s.cfg, 1 + Upto(e.h.log, i).grants)
  }

  predicate GrantsOk(e: End) {
    && Shaped(e.s) && Positions(e.h)
    && (forall i :: 0 <= i < |e.h.log| ==> GrantWrOk(e, i))
    && (forall i :: e.h.landed <= i < |e.h.log| ==> GrantPending(e, i))
    && e.s.rx.remoteSge == (1 + All(e.h.log).grants) % 2
    && e.s.rx.rbufFreeOffset == GrantSge(e.s.cfg, 1 + All(e.h.log).grants).addr
    && e.s.rx.rbufBytesAvail == e.s.cfg.rbufSize - (e.s.cfg.Half() * (1 + All(e.h.log).grants) - |e.h.read|)
    && 0 <= e.s.rx.rbufBytesAvail
  }

  /** The last credit count among the first `k` credit messages. */
  function CredAt(creds: seq<nat>, k: nat): nat
    requires k <= |creds|
  {
    if k == 0 then 0 else creds[k - 1]
  }

  /** A credit message carries, modulo 2^16, the read count of its time plus the queue size. */
  predicate CreditWrOk(e: End, i: nat)
    requires i < |e.h.log|
  {
    IsCredit(e.h.log[i]) ==>
      && Upto(e.h.log, i).credits < |e.h.creds|
      && MsgData(e.h.log[i].msg.value) % U16 == (e.h.creds[Upto(e.h.log, i).credits] + e.s.cfg.rqSize) % U16
  }

  predicate CreditsOk(e: End) {
    && Positions(e.h)
    && |e.h.creds| == All(e.h.log).credits
    && (forall i, j :: 0 <= i <= j < |e.h.creds| ==> e.h.creds[i] <= e.h.creds[j])
    && (forall i :: 0 <= i < |e.h.creds| ==> e.h.creds[i] <= e.h.nread)
    && (forall i :: 0 <= i < |e.h.log| ==> CreditWrOk(e, i))
    && e.s.rx.rseqNo == e.h.nread % U16
    && e.s.rx.rseqComp == (CredAt(e.h.creds, |e.h.creds|) + e.s.cfg.rqSize / 2) % U16
  }

  /** A closing message follows every byte accepted before the shutdown. */
  predicate FinWrOk(h: Hist, i: nat)
    requires i < |h.log|
  {
    IsFin(h.log[i]) ==> h.shutAt.Some? && h.shutAt.value <= Upto(h.log, i).told
  }

  predicate FinsOk(e: End) {
    && Positions(e.h)
    && (e.h.shutAt.Some? ==> e.h.shutAt.value <= |e.h.sent|)
    && (e.s.life.pending.Some? ==> e.h.shutAt.Some? && e.s.life.pending.value <= CTRL_SHUTDOWN
                                   && e.s.life.pending.value != CTRL_KEEPALIVE)
    && (e.s.life.connected && !e.s.life.writable ==> e.h.shutAt.Some?)
    && (forall i :: 0 <= i < |e.h.log| ==> FinWrOk(e.h, i))
  }

  predicate EndOk(e: End) {
    && e.s.cfg.Good() && Shaped(e.s)
    && LogOk(e.h) && QueueOk(e) && SendRingOk(e) && GrantsOk(e) && CreditsOk(e) && FinsOk(e)
  }

  // ---- From one end to the other ------------------------------------------

  /** `x` sends data, `y` reads it and grants credit and space. The 16-bit
      counters of `x` against the unbounded totals. */
  predicate FlowCredit(x: End, y: End)
    requires Positions(x.h) && Positions(y.h) && Shaped(y.s)
    requires |y.h.creds| == All(y.h.log).credits
  {
    UptoGrows(y.h.log, y.h.polled, |y.h.log|);
    var limit := CredAt(y.h.creds, Upto(y.h.log, y.h.polled).credits) + y.s.cfg.rqSize;
    && x.s.tx.sseqNo == All(x.h.log).msgs % U16
    && x.s.tx.sseqComp == limit % U16
    && All(x.h.log).msgs <= limit
    && y.h.nread + |Msgs(y.s.rx)| == Upto(x.h.log, x.h.polled).msgs
  }

  /** Where the half of the ring that entry `sge` stands for begins. */
  function Base(half: nat, sge: nat): nat { if sge == 0 then 0 else half }

  /** A target list with current entry `sge` after `sent` bytes, when `g` grants
      of the peer with configuration `c` have landed. */
  predicate TargetAt(sgl: seq<Sge>, sge: nat, sent: nat, g: nat, c: Config)
    requires |sgl| == 2 && sge < 2 && 0 < c.rbufSize
  {
    var half, cur, oth := c.Half(), sgl[sge], sgl[1 - sge];
    && cur.length + oth.length == half * g - sent
    && (cur.length == 0 ==> oth.length == 0)
    && cur.length <= half && (oth.length == 0 || oth.length == half)
    && (g % 2 == sge <==> (oth.length == half || cur.length == 0))
    && (cur.length != 0 ==> cur.addr + cur.length == Base(half, sge) + half)
    && (oth.length != 0 ==> oth.addr == Base(half, 1 - sge))
    && sent % c.rbufSize == Base(half, sge) + (if cur.length == 0 then 0 else half - cur.length)
  }

  /** The target list of `x` against the grants of `y` that have landed. */
  predicate FlowTarget(x: End, y: End)
    requires Shaped(x.s) && Positions(y.h) && 0 < y.s.cfg.rbufSize
  {
    TargetAt(x.s.tx.targetSgl, x.s.tx.targetSge, |x.h.sent|, 1 + Upto(y.h.log, y.h.landed).grants, y.s.cfg)
  }

  /** Data write `i` is addressed to its place in the receive ring. */
  predicate AddrOk(log: seq<Wr>, i: nat, size: nat)
    requires i < |log| && 0 < size
  {
    log[i].payload.ToRing? ==>
      && log[i].payload.addr == Upto(log, i).bytes % size
      && log[i].payload.addr + Bytes(log[i]) <= size
  }

  predicate FlowAddr(x: End, y: End)
    requires 0 < y.s.cfg.rbufSize
  {
    forall i :: 0 <= i < |x.h.log| ==> AddrOk(x.h.log, i, y.s.cfg.rbufSize)
  }

  /** What `y` has read, may read and has in its ring. */
  predicate FlowRead(x: End, y: End)
    requires Positions(x.h) && Shaped(y.s) && 0 < y.s.cfg.rbufSize
  {
    var r, l := |y.h.read|, Upto(x.h.log, x.h.landed).bytes;
    && (forall i :: 0 <= i < |Msgs(y.s.rx)| ==> 0 < Msgs(y.s.rx)[i])
    && r + SumOf(Msgs(y.s.rx)) == Upto(x.h.log, x.h.polled).told
    && y.s.rx.rbufOffset % y.s.cfg.rbufSize == r % y.s.cfg.rbufSize
    && l <= |x.h.sent| && r <= l
    && (forall k :: r <= k < l ==> y.s.rx.rbuf[k % y.s.cfg.rbufSize] == x.h.sent[k])
    && y.h.read == x.h.sent[..r]
  }

  /** Some message closing the read side of the peer was handled. */
  predicate FinSeen(h: Hist) {
    exists i :: 0 <= i < h.polled && i < |h.log| && IsFin(h.log[i])
  }

  /** `y` stops reading only because of its own shutdown or the peer's. */
  predicate FlowFin(x: End, y: End) {
    && (!y.s.life.readable ==> y.h.readShut || FinSeen(x.h))
    && (y.s.life.pending == Some(CTRL_DISCONNECT) ==> y.h.readShut || FinSeen(x.h))
    && (forall i :: 0 <= i < |y.h.log| && IsOwnDisconnect(y.h.log[i]) ==> y.h.readShut || FinSeen(x.h))
  }

  predicate Flow(x: End, y: End) {
    && EndOk(x) && EndOk(y) && SlotsOk(y.s)
    && FlowCredit(x, y) && FlowTarget(x, y) && FlowAddr(x, y) && FlowRead(x, y) && FlowFin(x, y)
  }

  predicate Inv(p: Pair) { Flow(p.x, p.y) && Flow(p.y, p.x) }
}

/** Datagram sockets: send buffers chained through their own bytes, and receive buffers that
    belong to the adapter, to a completion queue or to the reader. */
module Datagram {
  import opened Memory
  import opened RsWire
  import opened Indexer
  import opened SendArea

  const DS_IPV4_HDR_LEN := 8
  const GRH_SIZE := 40

  /** A completion.  `byteLen` counts the routing header that the adapter puts before what was
      sent; `ok` is a successful one whose datagram header has a known version and length. */
  datatype Wc = RecvDone(slot: nat, byteLen: nat, ok: bool) | SendDone(slot: nat) {
    /** A receive that carries a datagram. */
    predicate Valid() { RecvDone? && ok && byteLen >= GRH_SIZE + DS_IPV4_HDR_LEN }
  }

  /** A queued datagram: the queue pair it came on and the receive buffer that holds it. */
  datatype Rmsg = Rmsg(qp: nat, slot: nat, length: nat)

  /** A queue pair: receive buffers posted to the adapter, completions not yet polled, and
      receive buffers whose repost failed. */
  datatype Qp = Qp(posted: set<nat>, cq: seq<Wc>, dropped: set<nat>)

  /** A datagram socket.  `mem` holds the send buffers, numbered from 1, and `free` is the head
      of the list threaded through the free ones.  `chain` is what that list should be and
      `sends` what the other buffers should hold; `inflight` are those the adapter has and
      `leaked` those whose post failed. */
  datatype Ds = Ds(sq: nat, rq: nat, mem: seq<u8>, free: nat, chain: seq<nat>, sends: map<int, seq<u8>>,
                   inflight: set<int>, leaked: set<int>, sqeAvail: int,
                   qps: seq<Qp>, queue: seq<Rmsg>, rqeAvail: int)

  function Slots(n: nat): (r: set<nat>)
    ensures forall k: nat :: k in r <==> k < n
  {
    if n == 0 then {} else Slots(n - 1) + {n - 1}
  }

  /** The area after the first `i` of `sq` buffers were linked, each to the next, the last to none. */
  function Threaded(sq: nat, i: nat): (r: seq<u8>)
    requires i <= sq
    ensures |r| == sq * RS_SNDLOWAT
  {
    if i == 0 then seq(sq * RS_SNDLOWAT, _ => 0)
    else Put(Threaded(sq, i - 1), i, Encode(if i < sq then i + 1 else 0, LINK_SIZE))
  }

  function Init(sq: nat, rq: nat): Ds
    requires 0 < sq
  {
    Ds(sq, rq, Threaded(sq, sq), 1, Range(1, sq + 1), map[], {}, {}, sq, [], [], rq)
  }

  // ---- Steps ----------------------------------------------------------------------

  datatype Step =
    | AddQp
    | Send(hdr: seq<u8>, data: seq<u8>, posts: bool)
    | AdapterSent(q: nat, slot: nat)
    | AdapterReceived(q: nat, slot: nat, byteLen: nat, ok: bool)
    | Poll(q: nat, reposts: bool)
    | Read(reposts: bool)

  /** The adapter reports only buffers it was given; a link that leads nowhere is not followed. */
  predicate Enabled(d: Ds, s: Step) {
    && |d.mem| == d.sq * RS_SNDLOWAT
    && match s
       case AddQp => true
       case Send(_, _, _) => d.sqeAvail != 0 && 0 < d.free <= d.sq
       case AdapterSent(q, k) => q < |d.qps| && k in d.inflight
       case AdapterReceived(q, k, _, _) => q < |d.qps| && k in d.qps[q].posted
       case Poll(q, _) => CanPoll(d, q)
       case Read(_) => d.queue != [] && d.queue[0].qp < |d.qps|
  }

  predicate CanPoll(d: Ds, q: nat) {
    && |d.mem| == d.sq * RS_SNDLOWAT
    && q < |d.qps| && d.qps[q].cq != []
    && (d.qps[q].cq[0].SendDone? ==> 0 < d.qps[q].cq[0].slot <= d.sq)
  }

  /** Take the first free buffer, follow its link, copy header and data over it, post it. */
  function Sent(d: Ds, hdr: seq<u8>, data: seq<u8>, posts: bool): Ds
    requires |d.mem| == d.sq * RS_SNDLOWAT && 0 < d.free <= d.sq
  {
    var k := d.free;
    d.(free := LinkAt(d.mem, k), mem := Put(d.mem, k, hdr + data), sqeAvail := d.sqeAvail - 1,
       chain := if d.chain == [] then [] else d.chain[1..], sends := d.sends[k := hdr + data],
       inflight := if posts then d.inflight + {k} else d.inflight,
       leaked := if posts then d.leaked else d.leaked + {k})
  }

  /** A receive buffer goes back to the adapter, or is dropped when the post fails. */
  function Repost(qps: seq<Qp>, q: nat, slot: nat, reposts: bool): seq<Qp>
    requires q < |qps|
  {
    qps[q := if reposts then qps[q].(posted := qps[q].posted + {slot})
             else qps[q].(dropped := qps[q].dropped + {slot})]
  }

  function Polled(d: Ds, q: nat, reposts: bool): Ds
    requires CanPoll(d, q)
  {
    var wc, rest := d.qps[q].cq[0], d.qps[q := d.qps[q].(cq := d.qps[q].cq[1..])];
    match wc
    case RecvDone(k, byteLen, _) =>
      if d.rqeAvail != 0 && wc.Valid()
      then d.(qps := rest, queue := d.queue + [Rmsg(q, k, byteLen - GRH_SIZE)], rqeAvail := d.rqeAvail - 1)
      else d.(qps := Repost(rest, q, k, reposts))
    case SendDone(k) =>
      d.(qps := rest, mem := Put(d.mem, k, Encode(d.free, LINK_SIZE)), free := k,
         chain := [k] + d.chain, sends := d.sends - {k}, sqeAvail := d.sqeAvail + 1)
  }

  function ReadOne(d: Ds, reposts: bool): Ds
    requires d.queue != [] && d.queue[0].qp < |d.qps|
  {
    d.(queue := d.queue[1..], rqeAvail := d.rqeAvail + 1,
       qps := Repost(d.qps, d.queue[0].qp, d.queue[0].slot, reposts))
  }

  function Do(d: Ds, s: Step): Ds
    requires Enabled(d, s)
  {
    match s
    case AddQp => d.(qps := d.qps + [Qp(Slots(d.rq), [], {})])
    case Send(hdr, data, posts) => Sent(d, hdr, data, posts)
    case AdapterSent(q, k) =>
      d.(inflight := d.inflight - {k}, qps := d.qps[q := d.qps[q].(cq := d.qps[q].cq + [SendDone(k)])])
    case AdapterReceived(q, k, byteLen, ok) =>
      var qp := d.qps[q];
      d.(qps := d.qps[q := qp.(posted := qp.posted - {k}, cq := qp.cq + [RecvDone(k, byteLen, ok)])])
    case Poll(q, reposts) => Polled(d, q, reposts)
    case Read(reposts) => ReadOne(d, reposts)
  }

  // ---- Where each buffer is -------------------------------------------------------------

  function One(b: bool): nat { if b then 1 else 0 }

  function RecvIn(cq: seq<Wc>, k: nat): nat {
    if cq == [] then 0 else One(cq[0].RecvDone? && cq[0].slot == k) + RecvIn(cq[1..], k)
  }

  function SendIn(cq: seq<Wc>, k: nat): nat {
    if cq == [] then 0 else One(cq[0].SendDone? && cq[0].slot == k) + SendIn(cq[1..], k)
  }

  function SendInAll(qps: seq<Qp>, k: nat): nat {
    if qps == [] then 0 else SendIn(qps[0].cq, k) + SendInAll(qps[1..], k)
  }

  function Queued(queue: seq<Rmsg>, q: nat, k: nat): nat {
    if queue == [] then 0 else One(queue[0].qp == q && queue[0].slot == k) + Queued(queue[1..], q, k)
  }

  /** How often send buffer `k` is with the adapter, completed, or leaked. */
  function SendPlaces(d: Ds, k: nat): nat { One(k in d.inflight) + SendInAll(d.qps, k) + One(k in d.leaked) }

  /** How often receive buffer `k` of queue pair `q` is posted, completed, queued, or dropped. */
  function RecvPlaces(d: Ds, q: nat, k: nat): nat
    requires q < |d.qps|
  {
    One(k in d.qps[q].posted) + RecvIn(d.qps[q].cq, k) + Queued(d.queue, q, k) + One(k in d.qps[q].dropped)
  }

  /** A send buffer is on the free list, or it holds one datagram and is in one place. */
  ghost predicate SendOk(d: Ds) {
    && Distinct(d.chain) && d.sqeAvail == |d.chain|
    && (forall k: nat :: k in d.chain ==> 0 < k <= d.sq && k !in d.sends)
    && (forall k: nat :: 0 < k <= d.sq && k !in d.chain ==> k in d.sends)
    && (forall k :: k in d.sends ==> 0 < k <= d.sq) && (forall k :: k in d.leaked ==> 0 < k)
    && (forall k: nat :: SendPlaces(d, k) == One(k in d.sends))
  }

  ghost predicate RecvOk(d: Ds) {
    && d.rqeAvail + |d.queue| == d.rq && 0 <= d.rqeAvail
    && (forall i :: 0 <= i < |d.queue| ==> d.queue[i].qp < |d.qps|)
    && (forall q: nat, k: nat :: q < |d.qps| ==> RecvPlaces(d, q, k) == One(k < d.rq))
  }

  /** Buffer `chain[j]` links to the next one of the chain, the last one to none. */
  ghost predicate LinkOk(mem: seq<u8>, chain: seq<nat>, j: nat)
    requires j < |chain|
  {
    InArea(mem, chain[j]) && LinkAt(mem, chain[j]) == if j + 1 < |chain| then chain[j + 1] else 0
  }

  /** The list threaded through the free buffers is the chain. */
  ghost predicate ListOk(d: Ds) {
    && d.free == (if d.chain == [] then 0 else d.chain[0])
    && forall j :: 0 <= j < |d.chain| ==> LinkOk(d.mem, d.chain, j)
  }

  /** The bytes of the area say the same: the free list, and every datagram not completed. */
  ghost predicate MemOk(d: Ds) {
    && 0 < d.sq < U16 && |d.mem| == d.sq * RS_SNDLOWAT && ListOk(d)
    && (forall k: nat :: k in d.sends ==> HoldsAt(d.mem, k, d.sends[k]))
  }

  ghost predicate Inv(d: Ds) { MemOk(d) && SendOk(d) && RecvOk(d) }

  // ---- Counting -----------------------------------------------------------------------

  lemma {:induction false} InSnoc(cq: seq<Wc>, wc: Wc, k: nat)
    ensures RecvIn(cq + [wc], k) == RecvIn(cq, k) + One(wc.RecvDone? && wc.slot == k)
    ensures SendIn(cq + [wc], k) == SendIn(cq, k) + One(wc.SendDone? && wc.slot == k)
  {
    if cq != [] {
      assert (cq + [wc])[1..] == cq[1..] + [wc];
      InSnoc(cq[1..], wc, k);
    }
  }

  lemma {:induction false} QueuedSnoc(queue: seq<Rmsg>, m: Rmsg, q: nat, k: nat)
    ensures Queued(queue + [m], q, k) == Queued(queue, q, k) + One(m.qp == q && m.slot == k)
  {
    if queue != [] {
      assert (queue + [m])[1..] == queue[1..] + [m];
      QueuedSnoc(queue[1..], m, q, k);
    }
  }

  lemma {:induction false} InAllMoved(qps: seq<Qp>, q: nat, qp: Qp, k: nat)
    requires q < |qps|
    ensures SendInAll(qps[q := qp], k) == SendInAll(qps, k) - SendIn(qps[q].cq, k) + SendIn(qp.cq, k)
    ensures SendIn(qps[q].cq, k) <= SendInAll(qps, k)
  {
    var qps' := qps[q := qp];
    if q == 0 {
      assert qps'[1..] == qps[1..];
    } else {
      assert qps'[1..] == qps[1..][q - 1 := qp];
      InAllMoved(qps[1..], q - 1, qp, k);
    }
  }

  lemma {:induction false} InAllSnoc(qps: seq<Qp>, qp: Qp, k: nat)
    ensures SendInAll(qps + [qp], k) == SendInAll(qps, k) + SendIn(qp.cq, k)
  {
    if qps != [] {
      assert (qps + [qp])[1..] == qps[1..] + [qp];
      InAllSnoc(qps[1..], qp, k);
    }
  }

  lemma {:induction false} NotQueued(queue: seq<Rmsg>, q: nat, k: nat)
    requires forall i :: 0 <= i < |queue| ==> queue[i].qp != q
    ensures Queued(queue, q, k) == 0
  {
    if queue != [] { NotQueued(queue[1..], q, k); }
  }

  // ---- Every step keeps every buffer in one place --------------------------------------------

  /** A new queue pair posts all its receive buffers. */
  lemma AddQpKeeps(d: Ds)
    requires Inv(d)
    ensures Inv(Do(d, AddQp))
  {
    var d', n := Do(d, AddQp), |d.qps|;
    forall j: nat ensures SendPlaces(d', j) == SendPlaces(d, j) { InAllSnoc(d.qps, d'.qps[n], j); }
    forall p: nat, j: nat | p < |d'.qps| ensures RecvPlaces(d', p, j) == One(j < d.rq) {
      if p < n { assert RecvPlaces(d, p, j) == One(j < d.rq); } else { NotQueued(d.queue, n, j); }
    }
  }

  predicate FitsBuffer(hdr: seq<u8>, data: seq<u8>) { |hdr| + |data| <= RS_SNDLOWAT }

  lemma SendCounts(d: Ds, hdr: seq<u8>, data: seq<u8>, posts: bool)
    requires SendOk(d) && d.chain != [] && d.free == d.chain[0] && |d.mem| == d.sq * RS_SNDLOWAT
    ensures 0 < d.free <= d.sq && SendOk(Sent(d, hdr, data, posts))
  {
    var k := d.chain[0];
    assert k in d.chain;
    var d' := Sent(d, hdr, data, posts);
    assert d.chain == [k] + d'.chain && k !in d'.chain;
    forall j: nat ensures j in d.chain <==> j == k || j in d'.chain {}
    assert SendPlaces(d, k) == 0;
    forall j: nat ensures SendPlaces(d', j) == One(j in d'.sends) { assert SendPlaces(d, j) == One(j in d.sends); }
  }

  /** A datagram that fits its buffer leaves the free list and all other datagrams alone. */
  lemma SendMem(d: Ds, hdr: seq<u8>, data: seq<u8>, posts: bool)
    requires Inv(d) && d.chain != [] && FitsBuffer(hdr, data)
    ensures 0 < d.free <= d.sq && MemOk(Sent(d, hdr, data, posts))
  {
    assert LinkOk(d.mem, d.chain, 0) && d.chain[0] in d.chain;
    var d', k := Sent(d, hdr, data, posts), d.free;
    forall j | 0 <= j < |d'.chain| ensures LinkOk(d'.mem, d'.chain, j) {
      assert LinkOk(d.mem, d.chain, j + 1) && d.chain[j + 1] != k;
      PutStays(d.mem, k, hdr + data, d.chain[j + 1]);
      SameBuffer(d.mem, d'.mem, d.chain[j + 1]);
    }
    forall i: nat | i in d'.sends ensures HoldsAt(d'.mem, i, d'.sends[i]) {
      PutStays(d.mem, k, hdr + data, i);
      if i != k { SameBuffer(d.mem, d'.mem, i); }
    }
  }

  lemma SendKeeps(d: Ds, hdr: seq<u8>, data: seq<u8>, posts: bool)
    requires Inv(d) && d.chain != [] && FitsBuffer(hdr, data)
    ensures 0 < d.free <= d.sq && Inv(Sent(d, hdr, data, posts))
  {
    SendCounts(d, hdr, data, posts);
    SendMem(d, hdr, data, posts);
    var d' := Sent(d, hdr, data, posts);
    forall q: nat, k: nat | q < |d.qps| ensures RecvPlaces(d', q, k) == RecvPlaces(d, q, k) {}
  }

  /** Completions enter and leave a queue without changing where send buffers are counted. */
  lemma AdapterSentKeeps(d: Ds, q: nat, k: nat)
    requires Inv(d) && Enabled(d, AdapterSent(q, k))
    ensures Inv(Do(d, AdapterSent(q, k)))
  {
    var d', cq := Do(d, AdapterSent(q, k)), d.qps[q].cq;
    forall j: nat ensures SendPlaces(d', j) == SendPlaces(d, j) {
      InAllMoved(d.qps, q, d'.qps[q], j);
      InSnoc(cq, SendDone(k), j);
    }
    forall p: nat, j: nat | p < |d.qps| ensures RecvPlaces(d', p, j) == RecvPlaces(d, p, j) {
      InSnoc(cq, SendDone(k), j);
    }
  }

  lemma AdapterReceivedKeeps(d: Ds, q: nat, k: nat, byteLen: nat, ok: bool)
    requires Inv(d) && Enabled(d, AdapterReceived(q, k, byteLen, ok))
    ensures Inv(Do(d, AdapterReceived(q, k, byteLen, ok)))
  {
    var d', cq, wc := Do(d, AdapterReceived(q, k, byteLen, ok)), d.qps[q].cq, RecvDone(k, byteLen, ok);
    forall j: nat ensures SendPlaces(d', j) == SendPlaces(d, j) {
      InAllMoved(d.qps, q, d'.qps[q], j);
      InSnoc(cq, wc, j);
    }
    forall p: nat, j: nat | p < |d.qps| ensures RecvPlaces(d', p, j) == RecvPlaces(d, p, j) {
      InSnoc(cq, wc, j);
    }
  }

  /** A send that completed was holding its buffer. */
  lemma SendIsHeld(d: Ds, q: nat)
    requires SendOk(d) && q < |d.qps| && d.qps[q].cq != [] && d.qps[q].cq[0].SendDone?
    ensures d.qps[q].cq[0].slot in d.sends
  {
    var k := d.qps[q].cq[0].slot;
    InAllMoved(d.qps, q, d.qps[q], k);
    assert SendPlaces(d, k) == One(k in d.sends);
  }

  lemma PollSendCounts(d: Ds, q: nat, reposts: bool)
    requires SendOk(d) && RecvOk(d) && CanPoll(d, q) && d.qps[q].cq[0].SendDone?
    ensures SendOk(Polled(d, q, reposts)) && RecvOk(Polled(d, q, reposts))
  {
    var d', k := Polled(d, q, reposts), d.qps[q].cq[0].slot;
    SendIsHeld(d, q);
    forall j: nat ensures SendPlaces(d', j) == SendPlaces(d, j) - One(j == k) {
      InAllMoved(d.qps, q, d'.qps[q], j);
    }
    forall j: nat ensures SendPlaces(d', j) == One(j in d'.sends) { assert SendPlaces(d, j) == One(j in d.sends); }
    forall p: nat, j: nat | p < |d.qps| ensures RecvPlaces(d', p, j) == RecvPlaces(d, p, j) {}
  }

  /** Linking a returned buffer touches no other one. */
  lemma PollSendMem(d: Ds, q: nat, reposts: bool)
    requires MemOk(d) && SendOk(d) && CanPoll(d, q) && d.qps[q].cq[0].SendDone?
    ensures MemOk(Polled(d, q, reposts))
  {
    var d', k := Polled(d, q, reposts), d.qps[q].cq[0].slot;
    SendIsHeld(d, q);
    FreeIsSmall(d);
    var link := Encode(d.free, LINK_SIZE);
    PutLink(d.mem, k, d.free);
    forall j | 0 <= j < |d'.chain| ensures LinkOk(d'.mem, d'.chain, j) {
      if 0 < j {
        assert LinkOk(d.mem, d.chain, j - 1) && d.chain[j - 1] in d.chain;
        PutStays(d.mem, k, link, d.chain[j - 1]);
        SameBuffer(d.mem, d'.mem, d.chain[j - 1]);
      }
    }
    forall i: nat | i in d'.sends ensures HoldsAt(d'.mem, i, d'.sends[i]) {
      PutStays(d.mem, k, link, i);
      SameBuffer(d.mem, d'.mem, i);
    }
  }

  lemma FreeIsSmall(d: Ds)
    requires MemOk(d) && SendOk(d)
    ensures SendArea.Fits(d.free, LINK_SIZE)
  {
    if d.chain != [] { assert d.chain[0] in d.chain; }
    SmallFits(d.free);
  }

  /** A polled send returns its buffer to the head of the free list. */
  lemma PollSendKeeps(d: Ds, q: nat, reposts: bool)
    requires Inv(d) && CanPoll(d, q) && d.qps[q].cq[0].SendDone?
    ensures Inv(Polled(d, q, reposts))
  {
    PollSendCounts(d, q, reposts);
    PollSendMem(d, q, reposts);
  }

  /** A polled receive is queued, or its buffer goes back to the adapter or is dropped. */
  lemma PollRecvKeeps(d: Ds, q: nat, reposts: bool)
    requires Inv(d) && CanPoll(d, q) && d.qps[q].cq[0].RecvDone?
    ensures Inv(Polled(d, q, reposts))
  {
    var d', wc := Polled(d, q, reposts), d.qps[q].cq[0];
    assert d'.qps == d.qps[q := d'.qps[q]];
    forall j: nat ensures SendPlaces(d', j) == SendPlaces(d, j) {
      InAllMoved(d.qps, q, d'.qps[q], j);
    }
    forall p: nat, j: nat | p < |d.qps| ensures RecvPlaces(d', p, j) == RecvPlaces(d, p, j) {
      assert RecvPlaces(d, p, j) == One(j < d.rq);
      if wc.Valid() { QueuedSnoc(d.queue, Rmsg(q, wc.slot, wc.byteLen - GRH_SIZE), p, j); }
    }
  }

  lemma ReadKeeps(d: Ds, reposts: bool)
    requires Inv(d) && Enabled(d, Read(reposts))
    ensures Inv(ReadOne(d, reposts))
  {
    var d', m := ReadOne(d, reposts), d.queue[0];
    forall j: nat ensures SendPlaces(d', j) == SendPlaces(d, j) {
      InAllMoved(d.qps, m.qp, d'.qps[m.qp], j);
    }
    forall p: nat, j: nat | p < |d.qps| ensures RecvPlaces(d', p, j) == RecvPlaces(d, p, j) {
      assert RecvPlaces(d, p, j) == One(j < d.rq);
    }
  }

  /** Every step whose datagram, if it sends one, fits its buffer. */
  predicate StepFits(s: Step) { s.Send? ==> FitsBuffer(s.hdr, s.data) }

  lemma StepKeeps(d: Ds, s: Step)
    requires Inv(d) && Enabled(d, s) && StepFits(s)
    ensures Inv(Do(d, s)) && Do(d, s).sq == d.sq && Do(d, s).rq == d.rq
  {
    match s
    case AddQp => AddQpKeeps(d);
    case Send(hdr, data, posts) => SendKeeps(d, hdr, data, posts);
    case AdapterSent(q, k) => AdapterSentKeeps(d, q, k);
    case AdapterReceived(q, k, byteLen, ok) => AdapterReceivedKeeps(d, q, k, byteLen, ok);
    case Poll(q, reposts) =>
      if d.qps[q].cq[0].SendDone? { PollSendKeeps(d, q, reposts); } else { PollRecvKeeps(d, q, reposts); }
    case Read(reposts) => ReadKeeps(d, reposts);
  }

  lemma AreaHas(mem: seq<u8>, sq: nat, j: nat)
    requires |mem| == sq * RS_SNDLOWAT && 0 < j <= sq
    ensures InArea(mem, j)
  {
  }

  lemma {:induction false} ThreadedLinks(sq: nat, i: nat, j: nat)
    requires 0 < j <= i <= sq < U16
    ensures InArea(Threaded(sq, i), j) && LinkAt(Threaded(sq, i), j) == if j < sq then j + 1 else 0
  {
    var mem, n := Threaded(sq, i - 1), if i < sq then i + 1 else 0;
    AreaHas(mem, sq, i);
    AreaHas(mem, sq, j);
    var link := Encode(n, LINK_SIZE);
    assert Threaded(sq, i) == Put(mem, i, link);
    LinksAfter(mem, i, n, link, j);
    if j < i { ThreadedLinks(sq, i - 1, j); }
  }

  lemma InitOk(sq: nat, rq: nat)
    requires 0 < sq < U16
    ensures Inv(Init(sq, rq))
  {
    var d, chain := Init(sq, rq), Range(1, sq + 1);
    forall k: nat ensures k in chain <==> 0 < k <= sq { InRange(1, sq + 1, k); }
    forall j | 0 <= j < |chain| ensures LinkOk(d.mem, chain, j) { ThreadedLinks(sq, sq, j + 1); }
  }

  predicate Legal(d: Ds, ss: seq<Step>)
    decreases |ss|
  {
    ss == [] || (Enabled(d, ss[0]) && Legal(Do(d, ss[0]), ss[1..]))
  }

  function After(d: Ds, ss: seq<Step>): Ds
    requires Legal(d, ss)
    decreases |ss|
  {
    if ss == [] then d else After(Do(d, ss[0]), ss[1..])
  }

  predicate AllFit(ss: seq<Step>) { forall i :: 0 <= i < |ss| ==> StepFits(ss[i]) }

  predicate AllPosted(ss: seq<Step>) { forall i :: 0 <= i < |ss| && ss[i].Send? ==> ss[i].posts }

  /** A step that hands a receive buffer back and fails to. */
  predicate Drops(d: Ds, s: Step)
    requires Enabled(d, s)
  {
    match s
    case Poll(q, reposts) =>
      var wc := d.qps[q].cq[0];
      wc.RecvDone? && !(d.rqeAvail != 0 && wc.Valid()) && !reposts
    case Read(reposts) => !reposts
    case _ => false
  }

  predicate NeverDrops(d: Ds, ss: seq<Step>)
    requires Legal(d, ss)
    decreases |ss|
  {
    ss == [] || (!Drops(d, ss[0]) && NeverDrops(Do(d, ss[0]), ss[1..]))
  }

  predicate NoneDropped(d: Ds) { forall q :: 0 <= q < |d.qps| ==> d.qps[q].dropped == {} }

  lemma StepDrops(d: Ds, s: Step)
    requires Enabled(d, s)
    ensures NoneDropped(Do(d, s)) <==> NoneDropped(d) && !Drops(d, s)
  {
    var d' := Do(d, s);
    if s.Poll? {
      assert forall p :: 0 <= p < |d.qps| && p != s.q ==> d'.qps[p] == d.qps[p];
      assert d'.qps[s.q].dropped == {} <==> d.qps[s.q].dropped == {} && !Drops(d, s);
    } else if s.Read? {
      var q := d.queue[0].qp;
      assert forall p :: 0 <= p < |d.qps| && p != q ==> d'.qps[p] == d.qps[p];
      assert d'.qps[q].dropped == {} <==> d.qps[q].dropped == {} && s.reposts;
    } else {
      assert forall p :: 0 <= p < |d.qps| ==> d'.qps[p].dropped == d.qps[p].dropped;
      assert s.AddQp? ==> d'.qps[|d.qps|].dropped == {};
    }
  }

  lemma {:induction false} RunKeeps(d: Ds, ss: seq<Step>)
    requires Inv(d) && Legal(d, ss) && AllFit(ss)
    ensures Inv(After(d, ss)) && After(d, ss).sq == d.sq && After(d, ss).rq == d.rq
    ensures After(d, ss).leaked == {} <==> d.leaked == {} && AllPosted(ss)
    ensures NoneDropped(After(d, ss)) <==> NoneDropped(d) && NeverDrops(d, ss)
    decreases |ss|
  {
    if ss != [] {
      StepKeeps(d, ss[0]);
      StepDrops(d, ss[0]);
      RunKeeps(Do(d, ss[0]), ss[1..]);
    }
  }

  /** In every run whose datagrams fit their buffers: the list threaded through the area is the
      chain, each send buffer is on it or holds its datagram in exactly one place, each receive
      buffer of each queue pair is in exactly one place, and queued datagrams fit the ring. */
  lemma BuffersConserved(sq: nat, rq: nat, ss: seq<Step>)
    requires 0 < sq < U16 && Legal(Init(sq, rq), ss) && AllFit(ss)
    ensures var d := After(Init(sq, rq), ss);
            && ListOk(d) && d.sqeAvail == |d.chain| && Distinct(d.chain)
            && (forall k: nat :: 0 < k <= sq ==> One(k in d.chain) + SendPlaces(d, k) == 1)
            && (forall k: nat :: 0 < k <= sq && k !in d.chain ==> k in d.sends && HoldsAt(d.mem, k, d.sends[k]))
            && (forall q: nat, k: nat :: q < |d.qps| && k < rq ==> RecvPlaces(d, q, k) == 1)
            && d.rqeAvail + |d.queue| == rq && |d.queue| <= rq
            && (d.leaked == {} <==> AllPosted(ss)) && (NoneDropped(d) <==> NeverDrops(Init(sq, rq), ss))
  {
    InitOk(sq, rq);
    RunKeeps(Init(sq, rq), ss);
    var d := After(Init(sq, rq), ss);
    forall k: nat | 0 < k <= sq ensures One(k in d.chain) + SendPlaces(d, k) == 1 {
      assert SendPlaces(d, k) == One(k in d.sends);
    }
  }

  /** After any run whose datagrams fit, a next datagram of `n` bytes leaves all other buffers
      alone, whatever its contents, exactly when it fits too. */
  lemma NextSendStaysIff(sq: nat, rq: nat, ss: seq<Step>, hdr: seq<u8>, n: nat, posts: bool)
    requires 0 < sq < U16 && Legal(Init(sq, rq), ss) && AllFit(ss) && |hdr| <= RS_SNDLOWAT
    requires After(Init(sq, rq), ss).sqeAvail != 0
    ensures var d := After(Init(sq, rq), ss);
            && |d.mem| == d.sq * RS_SNDLOWAT && 0 < d.free <= d.sq
            && ((forall data :: |data| == n ==>
                   Contained(d.mem, Sent(d, hdr, data, posts).mem, d.free, hdr + data))
                <==> |hdr| + n <= RS_SNDLOWAT)
  {
    InitOk(sq, rq);
    RunKeeps(Init(sq, rq), ss);
    var d := After(Init(sq, rq), ss);
    assert d.chain[0] in d.chain;
    StaysInBufferIff(d.mem, d.sq, d.free, hdr, n);
  }

  /** With the following buffer free, the list survives every datagram of `n` bytes exactly when
      such a datagram fits its buffer. */
  lemma ListKeptIff(d: Ds, hdr: seq<u8>, n: nat, posts: bool)
    requires Inv(d) && d.chain != [] && |hdr| <= RS_SNDLOWAT && d.free + 1 in d.chain
    ensures 0 < d.free <= d.sq
    ensures (forall data :: |data| == n ==> ListOk(Sent(d, hdr, data, posts))) <==> |hdr| + n <= RS_SNDLOWAT
  {
    assert d.chain[0] in d.chain;
    if |hdr| + n <= RS_SNDLOWAT {
      forall data | |data| == n ensures ListOk(Sent(d, hdr, data, posts)) { SendMem(d, hdr, data, posts); }
    } else {
      ListBroken(d, hdr, n, posts);
    }
  }

  lemma ListBroken(d: Ds, hdr: seq<u8>, n: nat, posts: bool)
    requires Inv(d) && d.chain != [] && |hdr| <= RS_SNDLOWAT < |hdr| + n && d.free + 1 in d.chain
    ensures 0 < d.free <= d.sq
    ensures exists data :: |data| == n && !ListOk(Sent(d, hdr, data, posts))
  {
    var k := d.free;
    assert d.chain[0] in d.chain;
    var i :| 0 <= i < |d.chain| && d.chain[i] == k + 1;
    assert LinkOk(d.mem, d.chain, i) && 0 < i;
    var b: u8 := if d.mem[Base(k + 1)] == 0 then 1 else 0;
    var data := seq(n, _ => b);
    assert hdr + data == Filled(hdr, n, b);
    SpillsOver(d.mem, k, hdr, n, b);
    var d' := Sent(d, hdr, data, posts);
    assert d'.chain[i - 1] == k + 1 && !LinkOk(d'.mem, d'.chain, i - 1);
    assert !ListOk(d');
  }

  /** A datagram too long for the first of two free buffers overwrites the link of the second. */
  lemma LongLosesLink(d: Ds, hdr: seq<u8>, n: nat)
    requires d.sq == 2 && |d.mem| == d.sq * RS_SNDLOWAT && d.free == 1 && d.chain == [1, 2]
    requires LinkAt(d.mem, 1) == 2 && LinkAt(d.mem, 2) == 0 && |hdr| <= RS_SNDLOWAT < |hdr| + n
    ensures var d' := Sent(d, hdr, seq(n, _ => 1), true);
            d'.chain == [2] && d'.free == 2 && LinkAt(d'.mem, 2) != 0
  {
    ZeroLink(d.mem, 2);
    SpillsOver(d.mem, 1, hdr, n, 1);
    assert hdr + seq(n, _ => 1) == Filled(hdr, n, 1);
  }

  /** A datagram of 3000 bytes on a new socket with two send buffers: the link of the second
      buffer, the only one left on the free list, is lost. */
  lemma LongDatagramLosesList(hdr: seq<u8>)
    requires |hdr| == DS_IPV4_HDR_LEN
    ensures var d := Init(2, 1);
            var d' := Sent(d, hdr, seq(3000, _ => 1), true);
            && Enabled(d, Send(hdr, seq(3000, _ => 1), true))
            && d'.chain == [2] && d'.free == 2 && LinkAt(d'.mem, 2) != 0
  {
    var d, sq := Init(2, 1), 2;
    ThreadedLinks(sq, sq, 1);
    ThreadedLinks(sq, sq, 2);
    assert Range(1, 3) == [1, 2];
    LongLosesLink(d, hdr, 3000);
  }

  lemma {:induction false} EmptyQueues(qps: seq<Qp>, k: nat)
    requires forall q :: 0 <= q < |qps| ==> qps[q].cq == []
    ensures SendInAll(qps, k) == 0
  {
    if qps != [] { EmptyQueues(qps[1..], k); }
  }

  predicate Quiet(d: Ds) { d.inflight == {} && forall q :: 0 <= q < |d.qps| ==> d.qps[q].cq == [] }

  lemma QuietSends(d: Ds)
    requires SendOk(d) && Quiet(d)
    ensures d.leaked <= Indexes(d.sq + 1) && Elements(d.chain) == Indexes(d.sq + 1) - d.leaked
  {
    forall k: int ensures k in d.leaked <==> k in d.sends {
      if 0 <= k {
        EmptyQueues(d.qps, k);
        assert SendPlaces(d, k) == One(k in d.sends);
      }
    }
    forall k: int ensures k in Elements(d.chain) <==> k in Indexes(d.sq + 1) - d.leaked {}
  }

  /** When the adapter is done and every completion was polled, the free list holds all send
      buffers except those whose post failed, each once. */
  lemma OnlyLeaksAreMissing(sq: nat, rq: nat, ss: seq<Step>)
    requires 0 < sq < U16 && Legal(Init(sq, rq), ss) && AllFit(ss) && Quiet(After(Init(sq, rq), ss))
    ensures var d := After(Init(sq, rq), ss);
            && d.leaked <= Indexes(sq + 1) && Elements(d.chain) == Indexes(sq + 1) - d.leaked
            && Distinct(d.chain) && d.sqeAvail == sq - |d.leaked|
  {
    InitOk(sq, rq);
    RunKeeps(Init(sq, rq), ss);
    var d := After(Init(sq, rq), ss);
    QuietSends(d);
    DistinctCount(d.chain);
    CountRest(Indexes(sq + 1), d.leaked);
  }
}

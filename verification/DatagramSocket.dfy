/** A datagram socket as the library keeps it: an object whose free list, buffers and rings the
    calls update in place.  Each method is proved against the steps defined on socket values. */
module DatagramSocket {
  import opened Memory
  import opened Wrappers
  import opened RsWire
  import opened Indexer
  import opened SendArea
  import opened Datagram

  /** The entries of a ring from `head` up to `tail`. */
  function Ring(a: seq<Rmsg>, head: nat, tail: nat): seq<Rmsg>
    requires head <= |a| && tail <= |a|
  {
    if head <= tail then a[head..tail] else a[head..] + a[..tail]
  }

  function Next1(i: nat, size: nat): nat { if i + 1 == size then 0 else i + 1 }

  /** A ring with room for one more entry takes it at its tail. */
  lemma RingPush(a: seq<Rmsg>, head: nat, tail: nat, m: Rmsg)
    requires head < |a| && tail < |a| && |Ring(a, head, tail)| < |a| - 1
    ensures Ring(a[tail := m], head, Next1(tail, |a|)) == Ring(a, head, tail) + [m]
  {
  }

  lemma RingPop(a: seq<Rmsg>, head: nat, tail: nat)
    requires head < |a| && tail < |a| && head != tail
    ensures Ring(a, head, tail) != [] && Ring(a, head, tail)[0] == a[head]
    ensures Ring(a, Next1(head, |a|), tail) == Ring(a, head, tail)[1..]
  {
  }

  lemma {:induction false} AfterSnoc(d: Ds, ss: seq<Step>, s: Step)
    requires Legal(d, ss) && Enabled(After(d, ss), s)
    ensures Legal(d, ss + [s]) && After(d, ss + [s]) == Do(After(d, ss), s)
    decreases |ss|
  {
    if ss == [] {
      assert [s][1..] == [];
      assert ss + [s] == [s];
      assert Legal(d, [s]) && After(d, [s]) == After(Do(d, s), []);
    } else {
      assert (ss + [s])[1..] == ss[1..] + [s];
      AfterSnoc(Do(d, ss[0]), ss[1..], s);
    }
  }

  function Pending(qps: seq<Qp>): nat { if qps == [] then 0 else |qps[0].cq| + Pending(qps[1..]) }

  lemma {:induction false} PendingMoved(qps: seq<Qp>, q: nat, qp: Qp)
    requires q < |qps|
    ensures Pending(qps[q := qp]) == Pending(qps) - |qps[q].cq| + |qp.cq|
  {
    var qps' := qps[q := qp];
    if q == 0 {
      assert qps'[1..] == qps[1..];
    } else {
      assert qps'[1..] == qps[1..][q - 1 := qp];
      PendingMoved(qps[1..], q - 1, qp);
    }
  }

  predicate OnlyPolls(ss: seq<Step>) { forall i :: 0 <= i < |ss| ==> ss[i].Poll? }

  /** A socket brought from `start` to `d` by polling alone. */
  ghost predicate PolledTo(start: Ds, trace: seq<Step>, d: Ds) {
    OnlyPolls(trace) && Legal(start, trace) && After(start, trace) == d
  }

  lemma PolledOn(start: Ds, trace: seq<Step>, d: Ds, q: nat, reposts: bool)
    requires PolledTo(start, trace, d) && CanPoll(d, q)
    ensures PolledTo(start, trace + [Poll(q, reposts)], Polled(d, q, reposts))
  {
    AfterSnoc(start, trace, Poll(q, reposts));
  }

  /** The queue pairs polled, in order. */
  function Visited(ss: seq<Step>): seq<nat>
    requires OnlyPolls(ss)
  {
    seq(|ss|, i requires 0 <= i < |ss| => ss[i].q)
  }

  lemma VisitedOn(ss: seq<Step>, q: nat, reposts: bool)
    requires OnlyPolls(ss)
    ensures OnlyPolls(ss + [Poll(q, reposts)]) && Visited(ss + [Poll(q, reposts)]) == Visited(ss) + [q]
  {
  }

  predicate AllEmpty(qps: seq<Qp>) { forall q :: 0 <= q < |qps| ==> qps[q].cq == [] }

  /** The queue pairs in the order of their list, the one to poll next first. */
  ghost predicate RingOk(ring: seq<nat>, n: nat) {
    && |ring| == n && Distinct(ring)
    && (forall i :: 0 <= i < |ring| ==> ring[i] < n) && (forall q: nat :: q < n ==> q in ring)
  }

  /** Those of some queue pairs that have a completion waiting, in the same order. */
  function Waiting(qps: seq<Qp>, order: seq<nat>): seq<nat> {
    if order == [] then []
    else
      var q := order[|order| - 1];
      Waiting(qps, order[..|order| - 1]) + if q < |qps| && qps[q].cq != [] then [q] else []
  }

  lemma WaitingOn(qps: seq<Qp>, ring: seq<nat>, i: nat)
    requires i < |ring| && ring[i] < |qps|
    ensures Waiting(qps, ring[..i + 1]) == Waiting(qps, ring[..i]) + if qps[ring[i]].cq != [] then [ring[i]] else []
  {
    assert ring[..i + 1][..i] == ring[..i];
  }

  predicate SameAt(a: seq<Qp>, b: seq<Qp>, ring: seq<nat>, j: nat) {
    j < |ring| && ring[j] < |a| && ring[j] < |b| ==> a[ring[j]] == b[ring[j]]
  }

  /** The queue pairs from the `i`-th on were not polled yet. */
  predicate SameFrom(a: seq<Qp>, b: seq<Qp>, ring: seq<nat>, i: nat) {
    |a| == |b| && forall j :: i <= j < |ring| ==> SameAt(a, b, ring, j)
  }

  /** Nothing but queue pair `q` differs. */
  predicate OnlyAt(a: seq<Qp>, b: seq<Qp>, q: nat) {
    |a| == |b| && forall p :: 0 <= p < |a| && p != q ==> a[p] == b[p]
  }

  lemma SameOn(a: seq<Qp>, b: seq<Qp>, c: seq<Qp>, ring: seq<nat>, i: nat)
    requires Distinct(ring) && i < |ring| && SameFrom(a, b, ring, i) && OnlyAt(b, c, ring[i])
    ensures SameFrom(a, c, ring, i + 1)
  {
    forall j | i + 1 <= j < |ring| ensures SameAt(a, c, ring, j) {
      assert SameAt(a, b, ring, j) && ring[j] != ring[i];
    }
  }

  /** A new queue pair goes behind the head of the list and becomes the head. */
  function Inserted(ring: seq<nat>, q: nat): seq<nat> {
    if ring == [] then [q] else [q] + ring[1..] + [ring[0]]
  }

  lemma InsertedOk(ring: seq<nat>, n: nat)
    requires RingOk(ring, n)
    ensures RingOk(Inserted(ring, n), n + 1)
  {
    var r := Inserted(ring, n);
    if ring != [] {
      forall q: nat | q < n + 1 ensures q in r {
        if q < n {
          assert q in ring;
          var i :| 0 <= i < |ring| && ring[i] == q;
          assert r[if i == 0 then |ring| else i] == q;
        } else {
          assert r[0] == q;
        }
      }
    }
  }

  function Rotated(ring: seq<nat>, i: nat): seq<nat>
    requires i <= |ring|
  {
    ring[i..] + ring[..i]
  }

  /** Around the list, the walk goes on where it was. */
  lemma RotatedGoesOn(ring: seq<nat>, n: nat, i: nat)
    requires n <= |ring| && i < |ring|
    ensures Rotated(ring, n)[i] == ring[if n + i < |ring| then n + i else n + i - |ring|]
  {
  }

  /** A new queue pair is next to be polled; seen from the old head it comes second, and the
      others follow in their order. */
  lemma InsertedIsSecond(ring: seq<nat>, q: nat)
    ensures Inserted(ring, q)[0] == q
    ensures ring != [] ==> Rotated(Inserted(ring, q), |ring|) == [ring[0], q] + ring[1..]
  {
  }

  lemma RotatedOk(ring: seq<nat>, n: nat, i: nat)
    requires RingOk(ring, n) && i <= n
    ensures RingOk(Rotated(ring, i), n)
  {
    var r := Rotated(ring, i);
    forall q: nat | q < n ensures q in r {
      assert q in ring;
      var j :| 0 <= j < |ring| && ring[j] == q;
      assert r[if i <= j then j - i else j + n - i] == q;
    }
  }

  predicate EmptyAt(qps: seq<Qp>, ring: seq<nat>, i: nat) {
    i < |ring| && ring[i] < |qps| && qps[ring[i]].cq == []
  }

  predicate EmptyUpTo(qps: seq<Qp>, ring: seq<nat>, n: nat) {
    forall i :: 0 <= i < n ==> EmptyAt(qps, ring, i)
  }

  lemma RoundEmpty(qps: seq<Qp>, ring: seq<nat>)
    requires RingOk(ring, |qps|) && EmptyUpTo(qps, ring, |ring|)
    ensures AllEmpty(qps)
  {
    forall q | 0 <= q < |qps| ensures qps[q].cq == [] {
      assert q in ring;
      var i :| 0 <= i < |ring| && ring[i] == q;
      assert EmptyAt(qps, ring, i);
    }
  }

  /** A round over `ring` that began at `was` has come to its `i`-th queue pair. */
  ghost predicate InRound(was: seq<Qp>, qps: seq<Qp>, ring: seq<nat>, i: nat, some: bool,
                          seen: seq<nat>, seen': seq<nat>)
  {
    && SameFrom(was, qps, ring, i) && i <= |ring| && seen' == seen + Waiting(was, ring[..i])
    && if some then Pending(qps) < Pending(was) else qps == was && EmptyUpTo(qps, ring, i)
  }

  /** One more queue pair of a round. */
  lemma RoundOn(was: seq<Qp>, b: seq<Qp>, c: seq<Qp>, ring: seq<nat>, i: nat, empty: bool, some: bool,
                seen: seq<nat>, seen': seq<nat>)
    requires Distinct(ring) && i < |ring| && ring[i] < |c| && InRound(was, b, ring, i, some, seen, seen')
    requires OnlyAt(b, c, ring[i]) && empty == (b[ring[i]].cq == [])
    requires if empty then c == b && EmptyAt(c, ring, i) else Pending(c) < Pending(b)
    ensures InRound(was, c, ring, i + 1, some || !empty, seen, seen' + if empty then [] else [ring[i]])
  {
    assert SameAt(was, b, ring, i);
    SameOn(was, b, c, ring, i);
    WaitingOn(was, ring, i);
  }

  /** While a send buffer is free, the head of the list names one and its link can be read. */
  lemma SendTakes(d: Ds, hdr: seq<u8>, data: seq<u8>, posts: bool)
    requires Inv(d) && d.sqeAvail != 0
    ensures Enabled(d, Send(hdr, data, posts)) && InArea(d.mem, d.free)
    ensures FitsBuffer(hdr, data) ==> Inv(Sent(d, hdr, data, posts))
  {
    assert d.chain[0] in d.chain;
    if FitsBuffer(hdr, data) { SendKeeps(d, hdr, data, posts); }
  }

  class DSocket {
    const sqSize: nat
    const rqSize: nat
    const sbuf: array<u8>
    var smsgFree: nat
    var sqeAvail: int
    const dmsg: array<Rmsg>
    var rmsgHead: nat
    var rmsgTail: nat
    var rqeAvail: int
    var qps: seq<Qp>
    var ring: seq<nat>
    ghost var d: Ds

    ghost predicate SendSide()
      reads this, sbuf
    {
      && sbuf.Length == sqSize * RS_SNDLOWAT && d.sq == sqSize
      && sbuf[..] == d.mem && smsgFree == d.free && sqeAvail == d.sqeAvail
    }

    ghost predicate RecvSide()
      reads this, dmsg
    {
      && dmsg.Length == rqSize + 1 && d.rq == rqSize && rqeAvail == d.rqeAvail
      && rmsgHead <= rqSize && rmsgTail <= rqSize && Ring(dmsg[..], rmsgHead, rmsgTail) == d.queue
      && qps == d.qps && RingOk(ring, |qps|)
    }

    /** The fields are those of the socket value. */
    ghost predicate Shape()
      reads this, sbuf, dmsg
    {
      SendSide() && RecvSide()
    }

    ghost predicate Valid()
      reads this, sbuf, dmsg
    {
      Shape() && Inv(d)
    }

    /** Link the send buffers one to the next. */
    static method ChainBuffers(sq: nat) returns (a: array<u8>)
      requires 0 < sq < U16
      ensures fresh(a) && a.Length == sq * RS_SNDLOWAT && a[..] == Threaded(sq, sq)
    {
      a := new u8[sq * RS_SNDLOWAT](_ => 0);
      assert a[..] == Threaded(sq, 0);
      for i := 1 to sq + 1
        invariant a[..] == Threaded(sq, i - 1)
      {
        MemCopy(a, Base(i), Encode(if i < sq then i + 1 else 0, LINK_SIZE));
      }
    }

    constructor (sq: nat, rq: nat)
      requires 0 < sq < U16
      ensures Valid() && d == Init(sq, rq) && fresh(sbuf) && fresh(dmsg)
    {
      sqSize, rqSize := sq, rq;
      var a := ChainBuffers(sq);
      sbuf := a;
      smsgFree, sqeAvail := 1, sq;
      dmsg := new Rmsg[rq + 1](_ => Rmsg(0, 0, 0));
      rmsgHead, rmsgTail, rqeAvail := 0, 0, rq;
      qps, ring := [], [];
      d := Init(sq, rq);
      new;
      InitOk(sq, rq);
    }

    /** A new queue pair posts all its receive buffers, one by one; the first `ok` posts succeed. */
    method CreateQp(ok: nat) returns (created: bool)
      requires Valid()
      modifies this`qps, this`ring, this`d
      ensures Valid() && created == (rqSize <= ok)
      ensures d == (if created then Do(old(d), AddQp) else old(d))
      ensures ring == if created then Inserted(old(ring), old(|qps|)) else old(ring)
    {
      var posted: set<nat> := {};
      for i := 0 to rqSize
        invariant posted == Slots(i) && i <= ok
      {
        if i == ok { return false; }
        posted := posted + {i};
      }
      AddQpKeeps(d);
      InsertedOk(ring, |qps|);
      ring := Inserted(ring, |qps|);
      qps := qps + [Qp(posted, [], {})];
      d := Do(d, AddQp);
      created := true;
    }

    /** Send: take the first free buffer, copy header and data over it and post it. */
    method PostSend(hdr: seq<u8>, data: seq<u8>, posts: bool)
      requires Valid() && sqeAvail != 0
      modifies this`smsgFree, this`sqeAvail, this`d, sbuf
      ensures Shape() && Enabled(old(d), Send(hdr, data, posts)) && d == Do(old(d), Send(hdr, data, posts))
      ensures FitsBuffer(hdr, data) ==> Valid()
    {
      SendTakes(d, hdr, data, posts);
      var msg := smsgFree;
      smsgFree := Decode(sbuf[Base(msg)..Base(msg) + LINK_SIZE]);
      sqeAvail := sqeAvail - 1;
      assert d.mem[Base(msg)..Base(msg) + LINK_SIZE] == sbuf[Base(msg)..Base(msg) + LINK_SIZE];
      MemCopy(sbuf, Base(msg), Landing(sbuf.Length, Base(msg), hdr + data));
      d := Sent(d, hdr, data, posts);
    }

    /** A completed send returns its buffer to the free list. */
    method OnSendDone(q: nat, slot: nat)
      requires Valid() && q < |qps| && qps[q].cq != [] && qps[q].cq[0] == SendDone(slot)
      modifies this`smsgFree, this`sqeAvail, this`qps, this`d, sbuf
      ensures Valid() && CanPoll(old(d), q) && d == Polled(old(d), q, true)
    {
      SendIsHeld(d, q);
      PollSendKeeps(d, q, true);
      qps := qps[q := qps[q].(cq := qps[q].cq[1..])];
      MemCopy(sbuf, Base(slot), Encode(smsgFree, LINK_SIZE));
      smsgFree := slot;
      sqeAvail := sqeAvail + 1;
      d := Polled(d, q, true);
    }

    method PushDatagram(m: Rmsg)
      requires dmsg.Length == rqSize + 1 && rmsgHead <= rqSize && rmsgTail <= rqSize
      requires |Ring(dmsg[..], rmsgHead, rmsgTail)| < rqSize
      modifies this`rmsgTail, dmsg
      ensures rmsgTail <= rqSize && Ring(dmsg[..], rmsgHead, rmsgTail) == old(Ring(dmsg[..], rmsgHead, rmsgTail)) + [m]
    {
      RingPush(dmsg[..], rmsgHead, rmsgTail, m);
      dmsg[rmsgTail] := m;
      rmsgTail := rmsgTail + 1;
      if rmsgTail == rqSize + 1 { rmsgTail := 0; }
    }

    /** The next completion of a queue pair, a receive, is queued. */
    method QueueRecv(q: nat, wc: Wc)
      requires Valid() && q < |qps| && qps[q].cq != [] && qps[q].cq[0] == wc && rqeAvail != 0 && wc.Valid()
      modifies this`rqeAvail, this`rmsgTail, this`qps, dmsg
      ensures SendSide() && qps == old(qps[q := qps[q].(cq := qps[q].cq[1..])]) && rqeAvail == old(rqeAvail) - 1
      ensures rmsgTail <= rqSize
      ensures Ring(dmsg[..], rmsgHead, rmsgTail) == old(d).queue + [Rmsg(q, wc.slot, wc.byteLen - GRH_SIZE)]
    {
      qps := qps[q := qps[q].(cq := qps[q].cq[1..])];
      rqeAvail := rqeAvail - 1;
      PushDatagram(Rmsg(q, wc.slot, wc.byteLen - GRH_SIZE));
    }

    /** A completed receive is queued if there is room and it is valid, or handed back. */
    method OnRecvDone(q: nat, wc: Wc, reposts: bool)
      requires Valid() && q < |qps| && qps[q].cq != [] && qps[q].cq[0] == wc && wc.RecvDone?
      modifies this`rqeAvail, this`rmsgTail, this`qps, this`d, dmsg
      ensures Valid() && CanPoll(old(d), q) && d == Polled(old(d), q, reposts)
    {
      PollRecvKeeps(d, q, reposts);
      if rqeAvail != 0 && wc.Valid() {
        QueueRecv(q, wc);
      } else {
        qps := Repost(qps[q := qps[q].(cq := qps[q].cq[1..])], q, wc.slot, reposts);
      }
      d := Polled(d, q, reposts);
    }

    method PollOne(q: nat, reposts: bool)
      requires Valid() && q < |qps| && qps[q].cq != []
      modifies this`smsgFree, this`sqeAvail, this`rqeAvail, this`rmsgTail, this`qps, this`d, sbuf, dmsg
      ensures Valid() && CanPoll(old(d), q) && d == Polled(old(d), q, reposts)
      ensures OnlyAt(old(qps), qps, q) && Pending(qps) < old(Pending(qps))
    {
      ghost var was := d;
      match qps[q].cq[0] {
        case RecvDone(slot, byteLen, ok) => OnRecvDone(q, qps[q].cq[0], reposts);
        case SendDone(slot) => OnSendDone(q, slot);
      }
      assert d.qps == was.qps[q := d.qps[q]];
      PendingMoved(was.qps, q, d.qps[q]);
    }

    /** The next datagram; unless it is only peeked at, its buffer is handed back. */
    method TakeDatagram(peek: bool, reposts: bool) returns (m: Rmsg)
      requires Valid() && rmsgHead != rmsgTail
      modifies this`rmsgHead, this`rqeAvail, this`qps, this`d
      ensures Valid() && Enabled(old(d), Read(reposts)) && m == old(d).queue[0]
      ensures d == if peek then old(d) else Do(old(d), Read(reposts))
    {
      RingPop(dmsg[..], rmsgHead, rmsgTail);
      assert d.queue[0].qp < |d.qps|;
      m := dmsg[rmsgHead];
      if !peek {
        ReadKeeps(d, reposts);
        qps := Repost(qps, m.qp, m.slot, reposts);
        rmsgHead := rmsgHead + 1;
        if rmsgHead == rqSize + 1 { rmsgHead := 0; }
        rqeAvail := rqeAvail + 1;
        d := ReadOne(d, reposts);
      }
    }

    /** Handle a completion of a queue pair, if it has one; whether a repost succeeds is up to
        the adapter. */
    method PollAt(i: nat, ghost start: Ds, ghost before: seq<Step>) returns (empty: bool, ghost trace: seq<Step>)
      requires Valid() && i < |ring| && PolledTo(start, before, d)
      modifies this`smsgFree, this`sqeAvail, this`rqeAvail, this`rmsgTail, this`qps, this`d, sbuf, dmsg
      ensures Valid() && PolledTo(start, trace, d) && ring[i] < |qps| && OnlyAt(old(qps), qps, ring[i])
      ensures empty == (old(qps[ring[i]].cq) == [])
      ensures Visited(trace) == Visited(before) + if empty then [] else [ring[i]]
      ensures if empty then qps == old(qps) && EmptyAt(qps, ring, i) else Pending(qps) < old(Pending(qps))
    {
      var q := ring[i];
      empty, trace := qps[q].cq == [], before;
      if !empty {
        ghost var was := d;
        var reposts: bool := *;
        PollOne(q, reposts);
        PolledOn(start, trace, was, q, reposts);
        VisitedOn(trace, q, reposts);
        trace := trace + [Poll(q, reposts)];
      }
    }

    /** The next round starts at the `i`-th queue pair of this one. */
    method StartAt(i: nat)
      requires Valid() && i <= |ring|
      modifies this`ring
      ensures Valid() && ring == Rotated(old(ring), i)
    {
      RotatedOk(ring, |qps|, i);
      ring := Rotated(ring, i);
    }

    /** Handle a completion and stop if nothing more can be queued while a send buffer is free. */
    method PollNext(i: nat, cnt: nat, ghost start: Ds, ghost before: seq<Step>, ghost was: seq<Qp>,
                    ghost seen: seq<nat>)
      returns (cnt': nat, stop: bool, ghost trace: seq<Step>)
      requires Valid() && i < |ring| && PolledTo(start, before, d)
      requires InRound(was, qps, ring, i, 0 < cnt, seen, Visited(before))
      modifies this`smsgFree, this`sqeAvail, this`rqeAvail, this`rmsgTail, this`qps, this`ring, this`d, sbuf, dmsg
      ensures Valid() && PolledTo(start, trace, d)
      ensures InRound(was, qps, old(ring), i + 1, 0 < cnt' || stop, seen, Visited(trace))
      ensures stop ==> rqeAvail == 0 && sqeAvail != 0
      ensures ring == if stop then Rotated(old(ring), i + 1) else old(ring)
    {
      var empty;
      ghost var qps0 := qps;
      empty, trace := PollAt(i, start, before);
      RoundOn(was, qps0, qps, ring, i, empty, 0 < cnt, seen, Visited(before));
      cnt' := if empty then cnt else cnt + 1;
      stop := !empty && rqeAvail == 0 && sqeAvail != 0;
      if stop { StartAt(i + 1); }
    }

    /** One round over the first `n` queue pairs of the list, all of them unless it stops: a
        completion of each is handled, if it has one. */
    method PollRound(ghost start: Ds, ghost before: seq<Step>)
      returns (cnt: nat, stop: bool, ghost trace: seq<Step>, ghost n: nat)
      requires Valid() && PolledTo(start, before, d)
      modifies this`smsgFree, this`sqeAvail, this`rqeAvail, this`rmsgTail, this`qps, this`ring, this`d, sbuf, dmsg
      ensures Valid() && PolledTo(start, trace, d) && |qps| == old(|qps|) && n <= |old(ring)|
      ensures Visited(trace) == Visited(before) + Waiting(old(qps), old(ring)[..n])
      ensures if stop then ring == Rotated(old(ring), n) else n == |ring| && ring == old(ring)
      ensures if cnt == 0 && !stop then AllEmpty(qps) && qps == old(qps) else Pending(qps) < old(Pending(qps))
      ensures stop ==> rqeAvail == 0 && sqeAvail != 0
    {
      trace := before;
      cnt, stop, n := 0, false, |ring|;
      ghost var seen := Visited(before);
      assert ring[..0] == [] && seen + [] == seen;
      for i := 0 to |ring|
        invariant Valid() && PolledTo(start, trace, d) && ring == old(ring) && !stop && n == |ring|
        invariant InRound(old(qps), qps, ring, i, 0 < cnt, seen, Visited(trace))
      {
        cnt, stop, trace := PollNext(i, cnt, start, trace, old(qps), seen);
        if stop {
          n := i + 1;
          return;
        }
      }
      assert ring[..|ring|] == ring;
      if cnt == 0 { RoundEmpty(qps, ring); }
    }

    /** Poll all completion queues until they are empty, or until nothing more can be queued
        while a send buffer is free. */
    method PollCqs() returns (ghost trace: seq<Step>)
      requires Valid()
      modifies this`smsgFree, this`sqeAvail, this`rqeAvail, this`rmsgTail, this`qps, this`ring, this`d, sbuf, dmsg
      ensures Valid() && PolledTo(old(d), trace, d)
      ensures AllEmpty(qps) || (rqeAvail == 0 && sqeAvail != 0)
    {
      trace := [];
      if qps == [] { return; }
      var cnt := 1;
      while cnt != 0
        invariant Valid() && qps != [] && PolledTo(old(d), trace, d)
        invariant cnt == 0 ==> AllEmpty(qps)
        decreases Pending(qps), cnt
      {
        var stop;
        ghost var n;
        cnt, stop, trace, n := PollRound(old(d), trace);
        if stop { return; }
      }
    }

    /** A non-blocking send: it fails only when every send buffer is taken.  A datagram longer
        than its buffer is sent like any other. */
    method TrySend(hdr: seq<u8>, data: seq<u8>, posts: bool) returns (sent: bool, ghost trace: seq<Step>)
      requires Valid()
      modifies this, sbuf, dmsg
      ensures Shape() && OnlyPolls(trace) && Legal(old(d), trace)
      ensures FitsBuffer(hdr, data) || !sent ==> Valid()
      ensures var polled := After(old(d), trace);
              if sent then Enabled(polled, Send(hdr, data, posts)) && d == Do(polled, Send(hdr, data, posts))
              else d == polled && sqeAvail == 0 && AllEmpty(qps)
    {
      trace := [];
      if sqeAvail == 0 {
        trace := PollCqs();
        if sqeAvail == 0 { return false, trace; }
      }
      PostSend(hdr, data, posts);
      sent := true;
    }

    /** A non-blocking receive: it fails only when nothing is queued and nothing completed. */
    method TryRecv(peek: bool, reposts: bool) returns (m: Option<Rmsg>, ghost trace: seq<Step>)
      requires Valid()
      modifies this, sbuf, dmsg
      ensures Valid() && OnlyPolls(trace) && Legal(old(d), trace)
      ensures var polled := After(old(d), trace);
              if m.Some?
              then && Enabled(polled, Read(reposts)) && m.value == polled.queue[0]
                   && d == if peek then polled else Do(polled, Read(reposts))
              else d == polled && d.queue == [] && (AllEmpty(qps) || rqSize == 0)
    {
      trace := [];
      if rmsgHead == rmsgTail {
        trace := PollCqs();
        if rmsgHead == rmsgTail { return None, trace; }
      }
      var taken := TakeDatagram(peek, reposts);
      m := Some(taken);
    }
  }
}

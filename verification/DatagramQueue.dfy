/** Which datagrams a datagram socket hands to its reader, told by the steps of a run alone: what
    the adapter brought, in which order it was polled, and how often it was read. */
module DatagramQueue {
  import opened Datagram

  // ---- What a run brought -----------------------------------------------------------------

  /** The completions that the adapter reported on queue pair `q`, in order. */
  function Brought(ss: seq<Step>, q: nat): seq<Wc> {
    if ss == [] then []
    else
      Brought(ss[..|ss| - 1], q) +
      match ss[|ss| - 1]
      case AdapterSent(p, k) => if p == q then [SendDone(k)] else []
      case AdapterReceived(p, k, byteLen, ok) => if p == q then [RecvDone(k, byteLen, ok)] else []
      case _ => []
  }

  /** How many of them were polled. */
  function Polls(ss: seq<Step>, q: nat): nat {
    if ss == [] then 0
    else Polls(ss[..|ss| - 1], q) + if ss[|ss| - 1].Poll? && ss[|ss| - 1].q == q then 1 else 0
  }

  function Reads(ss: seq<Step>): nat {
    if ss == [] then 0 else Reads(ss[..|ss| - 1]) + if ss[|ss| - 1].Read? then 1 else 0
  }

  /** The datagram that a poll of `q` finds next, if it finds one. */
  function Found(ss: seq<Step>, q: nat): seq<Rmsg> {
    var cq, k := Brought(ss, q), Polls(ss, q);
    if k < |cq| && cq[k].RecvDone? && cq[k].ok && GRH_SIZE + DS_IPV4_HDR_LEN <= cq[k].byteLen
    then [Rmsg(q, cq[k].slot, cq[k].byteLen - GRH_SIZE)] else []
  }

  /** All datagrams that were ever queued, in the order they were polled: those found while fewer
      than `rq` were waiting to be read. */
  function Queued(ss: seq<Step>, rq: nat): seq<Rmsg> {
    if ss == [] then []
    else
      var pre, s := ss[..|ss| - 1], ss[|ss| - 1];
      Queued(pre, rq) + if s.Poll? && |Queued(pre, rq)| - Reads(pre) < rq then Found(pre, s.q) else []
  }

  // ---- What the socket holds --------------------------------------------------------------

  lemma {:induction false} LastStep(d: Ds, ss: seq<Step>)
    requires Legal(d, ss) && ss != []
    ensures var pre, s := ss[..|ss| - 1], ss[|ss| - 1];
            Legal(d, pre) && Enabled(After(d, pre), s) && After(d, ss) == Do(After(d, pre), s)
    decreases |ss|
  {
    var n := |ss| - 1;
    if n == 0 {
      assert ss[1..] == [] && ss[..0] == [];
    } else {
      LastStep(Do(d, ss[0]), ss[1..]);
      assert ss[1..][..n - 1] == ss[..n][1..] && ss[1..][n - 1] == ss[n];
    }
  }

  /** The completion queues hold what was brought and not polled, the ring of datagrams what was
      queued and not read. */
  ghost predicate Holds(d: Ds, ss: seq<Step>, rq: nat) {
    && (forall q: nat :: Polls(ss, q) <= |Brought(ss, q)|)
    && (forall q: nat :: q < |d.qps| ==> d.qps[q].cq == Brought(ss, q)[Polls(ss, q)..])
    && (forall q: nat :: |d.qps| <= q ==> Brought(ss, q) == [])
    && Reads(ss) <= |Queued(ss, rq)| && d.queue == Queued(ss, rq)[Reads(ss)..]
    && 0 <= d.rqeAvail == rq - |d.queue|
  }

  lemma HoldsAtStart(sq: nat, rq: nat)
    requires 0 < sq
    ensures Holds(Init(sq, rq), [], rq)
  {
  }

  /** What one more step adds to what a run brought. */
  lemma BroughtOn(pre: seq<Step>, s: Step, q: nat)
    ensures Polls(pre + [s], q) == Polls(pre, q) + if s.Poll? && s.q == q then 1 else 0
    ensures Brought(pre + [s], q) == Brought(pre, q) +
            if s.AdapterSent? && s.q == q then [SendDone(s.slot)]
            else if s.AdapterReceived? && s.q == q then [RecvDone(s.slot, s.byteLen, s.ok)] else []
  {
    assert (pre + [s])[..|pre|] == pre;
  }

  lemma QueuedOn(pre: seq<Step>, s: Step, rq: nat)
    ensures Reads(pre + [s]) == Reads(pre) + if s.Read? then 1 else 0
    ensures Queued(pre + [s], rq) == Queued(pre, rq) +
            if s.Poll? && |Queued(pre, rq)| - Reads(pre) < rq then Found(pre, s.q) else []
  {
    assert (pre + [s])[..|pre|] == pre;
  }

  /** What a step does to the completion queue of `q`. */
  function Waiting(cq: seq<Wc>, s: Step, q: nat): seq<Wc> {
    match s
    case AdapterSent(p, k) => if p == q then cq + [SendDone(k)] else cq
    case AdapterReceived(p, k, byteLen, ok) => if p == q then cq + [RecvDone(k, byteLen, ok)] else cq
    case Poll(p, _) => if p == q && cq != [] then cq[1..] else cq
    case _ => cq
  }

  lemma StepWaits(d: Ds, s: Step, q: nat)
    requires Enabled(d, s)
    ensures |Do(d, s).qps| == |d.qps| + (if s.AddQp? then 1 else 0)
    ensures q < |Do(d, s).qps| ==> Do(d, s).qps[q].cq == if q < |d.qps| then Waiting(d.qps[q].cq, s, q) else []
  {
  }

  lemma RestGrows(b: seq<Wc>, k: nat, c: Wc)
    requires k <= |b|
    ensures (b + [c])[k..] == b[k..] + [c]
    ensures k < |b| ==> b[k..] != [] && b[k..][1..] == b[k + 1..]
  {
  }

  lemma BroughtHolds(d: Ds, pre: seq<Step>, s: Step, rq: nat, q: nat)
    requires Holds(d, pre, rq) && Enabled(d, s)
    ensures var d', ss := Do(d, s), pre + [s];
            && Polls(ss, q) <= |Brought(ss, q)| && (|d'.qps| <= q ==> Brought(ss, q) == [])
            && (q < |d'.qps| ==> d'.qps[q].cq == Brought(ss, q)[Polls(ss, q)..])
  {
    var b, k := Brought(pre, q), Polls(pre, q);
    BroughtOn(pre, s, q);
    StepWaits(d, s, q);
    assert b + [] == b;
    match s
    case AdapterSent(_, j) => RestGrows(b, k, SendDone(j));
    case AdapterReceived(_, j, byteLen, ok) => RestGrows(b, k, RecvDone(j, byteLen, ok));
    case Poll(p, _) => if p == q { RestGrows(b, k, d.qps[q].cq[0]); }
    case _ =>
  }

  /** A poll finds what the head of its completion queue says. */
  lemma FoundIsHead(d: Ds, pre: seq<Step>, rq: nat, q: nat)
    requires Holds(d, pre, rq) && CanPoll(d, q)
    ensures var wc := d.qps[q].cq[0];
            Found(pre, q) == if wc.Valid() then [Rmsg(q, wc.slot, wc.byteLen - GRH_SIZE)] else []
  {
    assert Brought(pre, q)[Polls(pre, q)] == Brought(pre, q)[Polls(pre, q)..][0];
  }

  lemma QueueHolds(d: Ds, pre: seq<Step>, s: Step, rq: nat)
    requires Holds(d, pre, rq) && Enabled(d, s)
    ensures var d', ss := Do(d, s), pre + [s];
            && Reads(ss) <= |Queued(ss, rq)| && d'.queue == Queued(ss, rq)[Reads(ss)..]
            && 0 <= d'.rqeAvail == rq - |d'.queue|
  {
    var d', a, k := Do(d, s), Queued(pre, rq), Reads(pre);
    QueuedOn(pre, s, rq);
    if s.Poll? {
      FoundIsHead(d, pre, rq, s.q);
      var f := if |a| - k < rq then Found(pre, s.q) else [];
      assert (a + f)[k..] == a[k..] + f && |a[k..]| == |a| - k;
      assert d'.queue == d.queue + f;
    } else if s.Read? {
      assert a + [] == a && a[k..][1..] == a[k + 1..];
    } else {
      assert a + [] == a;
    }
  }

  lemma HoldsOn(d: Ds, pre: seq<Step>, s: Step, rq: nat)
    requires Holds(d, pre, rq) && Enabled(d, s)
    ensures Holds(Do(d, s), pre + [s], rq)
  {
    forall q: nat
      ensures Polls(pre + [s], q) <= |Brought(pre + [s], q)|
      ensures |Do(d, s).qps| <= q ==> Brought(pre + [s], q) == []
      ensures q < |Do(d, s).qps| ==> Do(d, s).qps[q].cq == Brought(pre + [s], q)[Polls(pre + [s], q)..]
    {
      BroughtHolds(d, pre, s, rq, q);
    }
    QueueHolds(d, pre, s, rq);
  }

  /** After every run the socket holds exactly the datagrams that the run queued and did not
      read, each with the queue pair, buffer and length it was received with, in the order they
      were polled. */
  lemma {:induction false} QueueIsHistory(sq: nat, rq: nat, ss: seq<Step>)
    requires 0 < sq && Legal(Init(sq, rq), ss)
    ensures Holds(After(Init(sq, rq), ss), ss, rq)
    decreases |ss|
  {
    if ss == [] {
      HoldsAtStart(sq, rq);
    } else {
      var pre, s := ss[..|ss| - 1], ss[|ss| - 1];
      LastStep(Init(sq, rq), ss);
      QueueIsHistory(sq, rq, pre);
      assert pre + [s] == ss;
      HoldsOn(After(Init(sq, rq), pre), pre, s, rq);
    }
  }

  /** Each read returns the oldest datagram queued and not read: the n-th read of a run the n-th
      that was queued. */
  lemma ReadReturnsOldest(sq: nat, rq: nat, ss: seq<Step>, reposts: bool)
    requires 0 < sq && Legal(Init(sq, rq), ss) && Enabled(After(Init(sq, rq), ss), Read(reposts))
    ensures Reads(ss) < |Queued(ss, rq)| && After(Init(sq, rq), ss).queue[0] == Queued(ss, rq)[Reads(ss)]
  {
    QueueIsHistory(sq, rq, ss);
    assert Queued(ss, rq)[Reads(ss)..] != [];
  }
}

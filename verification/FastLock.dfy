/** The fast lock: an atomic counter in front of a semaphore, under any number of
    threads and any interleaving of their atomic operations. */
module FastLock {

  /** Where a thread is: outside, blocked on the semaphore, inside the critical
      section, or between its decrement and the post it still owes. */
  datatype Pc = Idle | Waiting | Holding | Posting

  datatype Lock = Lock(cnt: int, sem: nat, threads: seq<Pc>)

  /** The atomic operations of acquire and of release. */
  datatype Op = Add | Wake | Sub | Post

  datatype Event = Event(thread: nat, op: Op)

  function Init(n: nat): Lock { Lock(0, 0, seq(n, _ => Idle)) }

  predicate Enabled(l: Lock, e: Event) {
    e.thread < |l.threads| &&
    match e.op
    case Add => l.threads[e.thread].Idle?
    case Wake => l.threads[e.thread].Waiting? && 0 < l.sem
    case Sub => l.threads[e.thread].Holding?
    case Post => l.threads[e.thread].Posting?
  }

  function Step(l: Lock, e: Event): Lock
    requires Enabled(l, e)
  {
    var at := (pc: Pc) => l.threads[e.thread := pc];
    match e.op
    case Add => Lock(l.cnt + 1, l.sem, at(if l.cnt + 1 > 1 then Waiting else Holding))
    case Wake => Lock(l.cnt, l.sem - 1, at(Holding))
    case Sub => Lock(l.cnt - 1, l.sem, at(if l.cnt - 1 > 0 then Posting else Idle))
    case Post => Lock(l.cnt, l.sem + 1, at(Idle))
  }

  predicate Legal(l: Lock, es: seq<Event>)
    decreases |es|
  {
    es == [] || (Enabled(l, es[0]) && Legal(Step(l, es[0]), es[1..]))
  }

  function After(l: Lock, es: seq<Event>): Lock
    requires Legal(l, es)
    decreases |es|
  {
    if es == [] then l else After(Step(l, es[0]), es[1..])
  }

  function Count(threads: seq<Pc>, pc: Pc): nat {
    if threads == [] then 0 else (if threads[0] == pc then 1 else 0) + Count(threads[1..], pc)
  }

  /** The counter is the number of threads inside or waiting; while it is positive
      there is exactly one token: a holder, a semaphore unit or an owed post. */
  predicate Inv(l: Lock) {
    && l.cnt == Count(l.threads, Waiting) + Count(l.threads, Holding)
    && Count(l.threads, Holding) + l.sem + Count(l.threads, Posting) == if l.cnt > 0 then 1 else 0
  }

  lemma {:induction false} CountMoved(threads: seq<Pc>, i: nat, to: Pc, pc: Pc)
    requires i < |threads|
    ensures Count(threads[i := to], pc)
            == Count(threads, pc) - (if threads[i] == pc then 1 else 0) + (if to == pc then 1 else 0)
  {
    var t' := threads[i := to];
    if i == 0 {
      assert t'[1..] == threads[1..];
    } else {
      assert t'[1..] == threads[1..][i - 1 := to];
      CountMoved(threads[1..], i - 1, to, pc);
    }
  }

  lemma {:induction false} CountAtLeast(threads: seq<Pc>, i: nat, pc: Pc)
    requires i < |threads| && threads[i] == pc
    ensures 1 <= Count(threads, pc)
  {
    if 0 < i { CountAtLeast(threads[1..], i - 1, pc); }
  }

  lemma {:induction false} CountTwo(threads: seq<Pc>, i: nat, j: nat, pc: Pc)
    requires i < j < |threads| && threads[i] == pc && threads[j] == pc
    ensures 2 <= Count(threads, pc)
  {
    if i == 0 { CountAtLeast(threads[1..], j - 1, pc); } else { CountTwo(threads[1..], i - 1, j - 1, pc); }
  }

  lemma {:induction false} Find(threads: seq<Pc>, pc: Pc) returns (i: nat)
    requires 1 <= Count(threads, pc)
    ensures i < |threads| && threads[i] == pc
  {
    if threads[0] == pc { i := 0; } else { i := Find(threads[1..], pc); i := i + 1; }
  }

  lemma {:induction false} CountBound(threads: seq<Pc>)
    ensures Count(threads, Waiting) + Count(threads, Holding) <= |threads|
  {
    if threads != [] { CountBound(threads[1..]); }
  }

  lemma {:induction false} CountIdle(n: nat, pc: Pc)
    requires !pc.Idle?
    ensures Count(seq(n, _ => Idle), pc) == 0
  {
    if 0 < n {
      var all: seq<Pc> := seq(n, _ => Idle);
      assert all[1..] == seq(n - 1, _ => Idle);
      CountIdle(n - 1, pc);
    }
  }

  lemma StepKeeps(l: Lock, e: Event)
    requires Inv(l) && Enabled(l, e)
    ensures Inv(Step(l, e))
  {
    var to := Step(l, e).threads[e.thread];
    CountMoved(l.threads, e.thread, to, Waiting);
    CountMoved(l.threads, e.thread, to, Holding);
    CountMoved(l.threads, e.thread, to, Posting);
    CountAtLeast(l.threads, e.thread, l.threads[e.thread]);
  }

  lemma {:induction false} RunKeeps(l: Lock, es: seq<Event>)
    requires Inv(l) && Legal(l, es)
    ensures Inv(After(l, es)) && |After(l, es).threads| == |l.threads|
    decreases |es|
  {
    if es != [] {
      StepKeeps(l, es[0]);
      RunKeeps(Step(l, es[0]), es[1..]);
    }
  }

  /** Every state of every run of `n` threads: one token, exact counter, no overflow. */
  lemma OneToken(n: nat, es: seq<Event>)
    requires Legal(Init(n), es)
    ensures var l := After(Init(n), es);
            && |l.threads| == n && Inv(l) && 0 <= l.cnt <= n
  {
    CountIdle(n, Waiting);
    CountIdle(n, Holding);
    CountIdle(n, Posting);
    RunKeeps(Init(n), es);
    CountBound(After(Init(n), es).threads);
  }

  /** Two threads are never in the critical section together. */
  lemma MutualExclusion(n: nat, es: seq<Event>, i: nat, j: nat)
    requires Legal(Init(n), es) && i < j < n
    ensures var t := After(Init(n), es).threads; |t| == n && !(t[i].Holding? && t[j].Holding?)
  {
    OneToken(n, es);
    var t := After(Init(n), es).threads;
    if t[i].Holding? && t[j].Holding? { CountTwo(t, i, j, Holding); }
  }

  /** A free lock is taken without blocking, and a held one makes the caller wait. */
  lemma BlocksOnlyWhenTaken(n: nat, es: seq<Event>, i: nat)
    requires Legal(Init(n), es) && Enabled(After(Init(n), es), Event(i, Add))
    ensures var l := After(Init(n), es);
            Step(l, Event(i, Add)).threads[i].Holding?
            <==> (forall k :: 0 <= k < |l.threads| ==> !l.threads[k].Holding? && !l.threads[k].Waiting?)
  {
    OneToken(n, es);
    var l := After(Init(n), es);
    if l.cnt == 0 {
      forall k | 0 <= k < n ensures !l.threads[k].Holding? && !l.threads[k].Waiting? {
        CountAtLeast(l.threads, k, l.threads[k]);
      }
    } else if Count(l.threads, Waiting) > 0 {
      var k := Find(l.threads, Waiting);
    } else {
      var k := Find(l.threads, Holding);
    }
  }

  /** How many steps the token is away from a waiter. */
  function Distance(l: Lock): nat {
    if 0 < l.sem then 0 else if 0 < Count(l.threads, Posting) then 1 else 2
  }

  /** The step that brings the token nearer. */
  lemma TokenMoves(l: Lock, w: nat) returns (e: Event)
    requires Inv(l) && w < |l.threads| && l.threads[w].Waiting? && l.sem == 0
    ensures Enabled(l, e) && !e.op.Add? && e.thread != w && Distance(Step(l, e)) < Distance(l)
  {
    CountAtLeast(l.threads, w, Waiting);
    if 0 < Count(l.threads, Posting) {
      var p := Find(l.threads, Posting);
      e := Event(p, Post);
    } else {
      var h := Find(l.threads, Holding);
      e := Event(h, Sub);
      CountAtLeast(Step(l, e).threads, h, Posting);
    }
  }

  /** No wakeup is lost: releases alone let any waiter in. */
  lemma LetIn(l: Lock, w: nat) returns (more: seq<Event>)
    requires Inv(l) && w < |l.threads| && l.threads[w].Waiting?
    ensures |more| <= Distance(l) + 1 && Legal(l, more)
    ensures forall k :: 0 <= k < |more| ==> !more[k].op.Add?
    ensures |After(l, more).threads| == |l.threads| && After(l, more).threads[w].Holding?
    decreases Distance(l)
  {
    if 0 < l.sem {
      more := [Event(w, Wake)];
      assert After(l, more) == After(Step(l, more[0]), []);
    } else {
      var e := TokenMoves(l, w);
      StepKeeps(l, e);
      var rest := LetIn(Step(l, e), w);
      more := [e] + rest;
      assert more[1..] == rest;
    }
  }

  /** Steps, none of them an acquire, after which thread `w` is inside. */
  predicate LetsIn(l: Lock, more: seq<Event>, w: nat) {
    && Legal(l, more) && (forall k :: 0 <= k < |more| ==> !more[k].op.Add?)
    && w < |After(l, more).threads| && After(l, more).threads[w].Holding?
  }

  /** In every run, a thread that waits gets the lock after at most three more steps of
      the threads that have or had it, whoever else is waiting. */
  lemma NoLostWakeup(n: nat, es: seq<Event>, w: nat)
    requires Legal(Init(n), es) && w < |After(Init(n), es).threads| && After(Init(n), es).threads[w].Waiting?
    ensures exists more :: |more| <= 3 && LetsIn(After(Init(n), es), more, w)
  {
    OneToken(n, es);
    var more := LetIn(After(Init(n), es), w);
    assert LetsIn(After(Init(n), es), more, w);
  }
}

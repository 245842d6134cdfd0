/** The lock-free token bucket of the router: callers race on one 64-bit time stamp
    with compare-and-swap.  Times and costs are in the bucket's own unit. */
module TokenBucket {
  import opened Wrappers

  const U64: nat := 0x1_0000_0000_0000_0000
  const RATE_UNIT: nat := 5000000000

  function Add64(a: nat, b: nat): nat { (a + b) % U64 }
  function Sub64(a: nat, b: nat): nat { (a - b) % U64 }
  function Mul64(a: nat, b: nat): nat { (a * b) % U64 }

  /** One call of consume between its atomic operations. */
  datatype Call = Call(now: nat, need: nat, seen: nat, base: nat)

  /** A call that read the clock and loaded the time stamp. */
  function Begin(now: nat, need: nat, burst: nat, time: nat): Call {
    var min := Sub64(now, burst);
    Call(now, need, time, if min > time then min else time)
  }

  datatype Result = Refused | Granted(time: nat) | Retry(call: Call)

  /** One pass of the loop against the time stamp as it is now; a weak exchange may
      also fail although the stamp is the expected one. */
  function Try(c: Call, time: nat, spurious: bool): Result {
    var next := Add64(c.base, c.need);
    if next > c.now then Refused
    else if time == c.seen && !spurious then Granted(next)
    else Retry(c.(seen := time, base := time))
  }

  // ---- The method -------------------------------------------------------------

  /** What happens before an exchange: another caller may store a value, and the
      exchange may fail for no reason. */
  datatype Meddling = Meddling(store: Option<nat>, spurious: bool)

  /** The loop against a list of disturbances, after which nothing disturbs. */
  function Loop(c: Call, time: nat, others: seq<Meddling>): (r: (bool, nat))
    ensures r.0 ==> r.1 <= c.now
    decreases |others|, time != c.seen
  {
    if others == [] then
      match Try(c, time, false)
      case Refused => (false, time)
      case Granted(t) => (true, t)
      case Retry(c') => Loop(c', time, others)
    else
      var stamp := if others[0].store.Some? then others[0].store.value else time;
      match Try(c, stamp, others[0].spurious)
      case Refused => (false, stamp)
      case Granted(t) => (true, t)
      case Retry(c') => Loop(c', stamp, others[1..])
  }

  /** An undisturbed call is granted exactly when the bucket has room for it: its cost is within
      the burst and, added to the stamp, reaches no further than the clock. */
  lemma AloneMeans(now: nat, need: nat, burst: nat, time: nat)
    requires burst <= now && now + need < U64 && time <= now
    ensures var r := Loop(Begin(now, need, burst, time), time, []);
            && r.0 == (need <= burst && time + need <= now)
            && r.1 == (if !r.0 then time else if time <= now - burst then now - burst + need else time + need)
  {
  }

  class TokenBucket {
    var time: nat
    const timePerToken: nat
    const timePerBurst: nat

    constructor (rate: nat, burstSize: nat)
      requires 0 < rate < U64 && burstSize < U64
      ensures time == 0 && timePerToken == RATE_UNIT / rate && timePerBurst == Mul64(burstSize, timePerToken)
    {
      time := 0;
      timePerToken := RATE_UNIT / rate;
      timePerBurst := Mul64(burstSize, RATE_UNIT / rate);
    }

    method Consume(tokens: nat, now: nat, disturb: seq<Meddling>) returns (granted: bool)
      modifies this`time
      ensures var need := Mul64(tokens, timePerToken);
              (granted, time) == Loop(Begin(now, need, timePerBurst, old(time)), old(time), disturb)
      ensures granted ==> time <= now
      ensures var need := Mul64(tokens, timePerToken);
              disturb == [] && timePerBurst <= now && now + need < U64 && old(time) <= now ==>
                (granted <==> need <= timePerBurst && old(time) + need <= now) && (!granted ==> time == old(time))
    {
      var timeNeeded := Mul64(tokens, timePerToken);
      if timePerBurst <= now && now + timeNeeded < U64 && time <= now {
        AloneMeans(now, timeNeeded, timePerBurst, time);
      }
      var minTime := Sub64(now, timePerBurst);
      var oldTime: nat := time;
      var newTime: nat := oldTime;
      if minTime > oldTime { newTime := minTime; }
      var others := disturb;
      ghost var all := Loop(Call(now, timeNeeded, oldTime, newTime), time, others);
      while true
        invariant all == Loop(Call(now, timeNeeded, oldTime, newTime), time, others)
        decreases |others|, time != oldTime
      {
        newTime := Add64(newTime, timeNeeded);
        var spurious := false;
        if others != [] {
          // the other callers move before the exchange
          if others[0].store.Some? { time := others[0].store.value; }
          spurious := others[0].spurious;
          others := others[1..];
        }
        if newTime > now { return false; }
        if time == oldTime && !spurious {
          time := newTime;
          return true;
        }
        oldTime := time;
        newTime := oldTime;
      }
    }
  }

  // ---- All callers together -----------------------------------------------------

  datatype Grant = Grant(now: nat, cost: nat, base: nat)

  datatype Bucket = Bucket(burst: nat, time: nat, calls: map<nat, Call>, grants: seq<Grant>)

  datatype Event =
    | Start(id: nat, now: nat, need: nat)
    | Attempt(id: nat, spurious: bool)

  /** Clock readings and costs that do not wrap: the clock has run for a burst, and a
      cost added to any reading up to `horizon` stays in 64 bits. */
  predicate Sane(e: Event, burst: nat, horizon: nat) {
    e.Start? ==> burst <= e.now <= horizon && horizon + e.need < U64
  }

  predicate Enabled(b: Bucket, e: Event) {
    if e.Start? then e.id !in b.calls else e.id in b.calls
  }

  function Step(b: Bucket, e: Event): Bucket
    requires Enabled(b, e)
  {
    match e
    case Start(id, now, need) => b.(calls := b.calls[id := Begin(now, need, b.burst, b.time)])
    case Attempt(id, spurious) =>
      var c := b.calls[id];
      match Try(c, b.time, spurious)
      case Refused => b.(calls := b.calls - {id})
      case Retry(c') => b.(calls := b.calls[id := c'])
      case Granted(t) =>
        Bucket(b.burst, t, b.calls - {id}, b.grants + [Grant(c.now, c.need, c.base)])
  }

  predicate Legal(b: Bucket, es: seq<Event>, horizon: nat)
    decreases |es|
  {
    es == [] || (Enabled(b, es[0]) && Sane(es[0], b.burst, horizon) && Legal(Step(b, es[0]), es[1..], horizon))
  }

  function After(b: Bucket, es: seq<Event>, horizon: nat): Bucket
    requires Legal(b, es, horizon)
    decreases |es|
  {
    if es == [] then b else After(Step(b, es[0]), es[1..], horizon)
  }

  function New(burst: nat): Bucket { Bucket(burst, 0, map[], []) }

  function Total(gs: seq<Grant>): nat {
    if gs == [] then 0 else Total(gs[..|gs| - 1]) + gs[|gs| - 1].cost
  }

  /** A call never starts from before the stamp it expects, nor beyond the horizon. */
  predicate CallOk(c: Call, horizon: nat) {
    c.seen <= c.base <= horizon && c.now <= horizon && horizon + c.need < U64
  }

  /** Grants are stacked: each starts at or above the end of the one before and ends
      by its own clock reading; the stamp is the end of the last. */
  predicate Stacked(gs: seq<Grant>, time: nat) {
    && (forall i :: 0 <= i < |gs| ==> gs[i].base + gs[i].cost <= gs[i].now)
    && (forall i :: 0 < i < |gs| ==> gs[i - 1].base + gs[i - 1].cost <= gs[i].base)
    && time == if gs == [] then 0 else gs[|gs| - 1].base + gs[|gs| - 1].cost
  }

  predicate Inv(b: Bucket, horizon: nat) {
    && b.time <= horizon
    && (forall id :: id in b.calls ==> CallOk(b.calls[id], horizon))
    && Stacked(b.grants, b.time)
  }

  lemma NoWrap(c: Call, horizon: nat)
    requires CallOk(c, horizon)
    ensures Add64(c.base, c.need) == c.base + c.need
  {
  }

  lemma StepKeeps(b: Bucket, e: Event, horizon: nat)
    requires Inv(b, horizon) && Enabled(b, e) && Sane(e, b.burst, horizon)
    ensures Inv(Step(b, e), horizon) && Step(b, e).burst == b.burst
    ensures b.time <= Step(b, e).time && b.grants <= Step(b, e).grants
  {
    if e.Attempt? {
      var c := b.calls[e.id];
      NoWrap(c, horizon);
      var gs, gs' := b.grants, Step(b, e).grants;
      assert forall i :: 0 <= i < |gs| ==> gs'[i] == gs[i];
    }
  }

  lemma {:induction false} RunKeeps(b: Bucket, es: seq<Event>, horizon: nat)
    requires Inv(b, horizon) && Legal(b, es, horizon)
    ensures var b' := After(b, es, horizon);
            Inv(b', horizon) && b'.burst == b.burst && b.time <= b'.time && b.grants <= b'.grants
    decreases |es|
  {
    if es != [] {
      StepKeeps(b, es[0], horizon);
      RunKeeps(Step(b, es[0]), es[1..], horizon);
    }
  }

  lemma {:induction false} TotalBelow(gs: seq<Grant>, time: nat)
    requires Stacked(gs, time)
    ensures Total(gs) <= time
    decreases |gs|
  {
    if gs != [] {
      var n := |gs| - 1;
      TotalBelow(gs[..n], if n == 0 then 0 else gs[n - 1].base + gs[n - 1].cost);
    }
  }

  /** Whatever the interleaving and however exchanges fail, the stamp never goes back,
      and all that was ever granted fits under the clock reading of the last grant. */
  lemma StampNeverGoesBack(burst: nat, es: seq<Event>, more: seq<Event>, horizon: nat)
    requires Legal(New(burst), es, horizon) && Legal(After(New(burst), es, horizon), more, horizon)
    ensures var b := After(New(burst), es, horizon);
            var b' := After(b, more, horizon);
            && b.time <= b'.time && b.grants <= b'.grants
            && Total(b.grants) <= b.time
            && (b.grants != [] ==> b.time <= b.grants[|b.grants| - 1].now)
  {
    RunKeeps(New(burst), es, horizon);
    var b := After(New(burst), es, horizon);
    RunKeeps(b, more, horizon);
    TotalBelow(b.grants, b.time);
  }

  // ---- The rate bound -------------------------------------------------------------

  /** A retried call is held to the burst too: the stamp it saw is not older than that. */
  predicate FreshRetry(b: Bucket, e: Event)
    requires Enabled(b, e)
  {
    e.Attempt? ==>
      var c := b.calls[e.id];
      Try(c, b.time, e.spurious).Retry? ==> c.now - b.burst <= b.time
  }

  predicate Clean(b: Bucket, es: seq<Event>, horizon: nat)
    requires Legal(b, es, horizon)
    decreases |es|
  {
    es == [] || (FreshRetry(b, es[0]) && Clean(Step(b, es[0]), es[1..], horizon))
  }

  predicate Clamped(b: Bucket) {
    && (forall id :: id in b.calls ==> b.calls[id].now - b.burst <= b.calls[id].base)
    && (forall i :: 0 <= i < |b.grants| ==> b.grants[i].now - b.burst <= b.grants[i].base)
  }

  lemma {:induction false} CleanRunsAreClamped(b: Bucket, es: seq<Event>, horizon: nat)
    requires Inv(b, horizon) && Legal(b, es, horizon) && Clean(b, es, horizon) && Clamped(b)
    ensures Clamped(After(b, es, horizon))
    decreases |es|
  {
    if es != [] {
      StepKeeps(b, es[0], horizon);
      CleanRunsAreClamped(Step(b, es[0]), es[1..], horizon);
    }
  }

  /** The grants of a window are stacked between its first base and its last end. */
  lemma {:induction false} WindowFits(gs: seq<Grant>, time: nat, i: nat, j: nat)
    requires Stacked(gs, time) && i <= j < |gs|
    ensures gs[i].base + Total(gs[i..j + 1]) <= gs[j].base + gs[j].cost
    decreases j
  {
    var w := gs[i..j + 1];
    assert w[..|w| - 1] == gs[i..j] && w[|w| - 1] == gs[j];
    if i < j { WindowFits(gs, time, i, j - 1); } else { assert gs[i..j] == []; }
  }

  /** Any window of grants costs at most a burst plus the time that passed in it. */
  lemma RateBound(burst: nat, es: seq<Event>, horizon: nat, i: nat, j: nat)
    requires Legal(New(burst), es, horizon) && Clean(New(burst), es, horizon)
    requires i <= j < |After(New(burst), es, horizon).grants|
    ensures var gs := After(New(burst), es, horizon).grants;
            Total(gs[i..j + 1]) <= burst + gs[j].now - gs[i].now
  {
    RunKeeps(New(burst), es, horizon);
    CleanRunsAreClamped(New(burst), es, horizon);
    var b := After(New(burst), es, horizon);
    WindowFits(b.grants, b.time, i, j);
  }

  /** Whether a call that starts at `now` with the stamp `time` is granted at once. */
  predicate Again(now: nat, burst: nat, cost: nat, time: nat) {
    now + cost < U64 && Try(Begin(now, cost, burst, time), time, false).Granted?
  }

  lemma AgainMeans(now: nat, burst: nat, cost: nat, time: nat)
    requires burst <= now && now + cost < U64 && time <= now
    ensures Again(now, burst, cost, time) <==> time + cost <= now && cost <= burst
  {
  }

  /** The stamp after a retry of cost `need` that saw `stamp`. */
  lemma RetryGranted(now: nat, need: nat, stamp: nat)
    requires stamp + need <= now < U64
    ensures Try(Call(now, need, stamp, stamp), stamp, false) == Granted(stamp + need)
  {
  }

  /** After a call of cost `need` was granted on a retry from the stamp it saw, one more call
      at the same clock reading keeps both within a burst, whatever it costs, exactly when
      that stamp is not older than a burst: the test that the retry leaves out. */
  lemma RetryKeepsRateIff(now: nat, burst: nat, need: nat, stamp: nat, time: nat)
    requires burst <= now && now + burst < U64 && need <= burst && time == stamp + need <= now
    ensures Try(Call(now, need, stamp, stamp), stamp, false) == Granted(time)
    ensures (forall cost: nat :: Again(now, burst, cost, time) ==> need + cost <= burst)
            <==> now - burst <= stamp || need == 0
  {
    RetryGranted(now, need, stamp);
    forall cost: nat | Again(now, burst, cost, time) ensures time + cost <= now && cost <= burst {
      AgainMeans(now, burst, cost, time);
    }
    if stamp < now - burst && 0 < need {
      var cost := if time <= now - burst then burst else now - time;
      AgainMeans(now, burst, cost, time);
      assert Again(now, burst, cost, time) && need + cost > burst;
    }
  }

  /** A bucket idle since time 0 with a burst of 10: after one spurious failure a cost of
      20 is granted at one clock reading. */
  lemma SpuriousFailureBreaksRate()
    ensures var es := [Start(0, 1000, 10), Attempt(0, true), Attempt(0, false), Start(1, 1000, 10), Attempt(1, false)];
            && Legal(New(10), es, 1000)
            && After(New(10), es, 1000).grants == [Grant(1000, 10, 0), Grant(1000, 10, 990)]
  {
    var e0, e1, e2 := Start(0, 1000, 10), Attempt(0, true), Attempt(0, false);
    var e3, e4 := Start(1, 1000, 10), Attempt(1, false);
    var b0, es := New(10), [e0, e1, e2, e3, e4];
    assert es[1..] == [e1, e2, e3, e4] && es[1..][1..] == [e2, e3, e4];
    assert es[1..][1..][1..] == [e3, e4] && es[1..][1..][1..][1..] == [e4];
    var b1 := Step(b0, e0);
    var b2 := Step(b1, e1);
    assert b2.calls[0] == Call(1000, 10, 0, 0);
    var b3 := Step(b2, e2);
    assert b3.time == 10 && b3.grants == [Grant(1000, 10, 0)] && 1 !in b3.calls;
    var b4 := Step(b3, e3);
    assert b4.calls[1] == Call(1000, 10, 10, 990);
    assert Legal(b4, [e4], 1000) && Legal(b3, [e3, e4], 1000) && Legal(b2, [e2, e3, e4], 1000);
  }

  /** With the clock below a burst the subtraction wraps; a granted first attempt then
      never lowers the stamp exactly when the stamp is still 0. */
  lemma EarlyClockIff(now: nat, burst: nat, time: nat)
    requires now < U64 && burst < U64 && time <= now
    ensures (forall need: nat ::
               need < U64 && now + need < U64 && Try(Begin(now, need, burst, time), time, false).Granted?
               ==> time <= Try(Begin(now, need, burst, time), time, false).time)
            <==> burst <= now || time == 0
  {
    if now < burst && 0 < time {
      var need := burst - now;
      assert Sub64(now, burst) == now - burst + U64;
      assert Try(Begin(now, need, burst, time), time, false) == Granted(0);
    } else if burst <= now {
      forall need: nat | now + need < U64
        ensures var c := Begin(now, need, burst, time); time <= c.base && Add64(c.base, need) == c.base + need {}
    }
  }
}

/** Whole calls on the token bucket: what a call returns is what its exchanges do in a run of all
    callers together, and so the rate bound of runs is a bound on calls. */
module TokenCalls {
  import opened Wrappers
  import opened TokenBucket

  // ---- Runs, put together -----------------------------------------------------------

  lemma {:induction false} RunOn(b: Bucket, es: seq<Event>, fs: seq<Event>, horizon: nat)
    requires Legal(b, es, horizon) && Legal(After(b, es, horizon), fs, horizon)
    ensures Legal(b, es + fs, horizon)
    ensures After(b, es + fs, horizon) == After(After(b, es, horizon), fs, horizon)
    decreases |es|
  {
    if es == [] {
      assert es + fs == fs;
    } else {
      assert (es + fs)[1..] == es[1..] + fs;
      RunOn(Step(b, es[0]), es[1..], fs, horizon);
    }
  }

  lemma {:induction false} RunSplits(b: Bucket, es: seq<Event>, fs: seq<Event>, horizon: nat)
    requires Legal(b, es + fs, horizon)
    ensures Legal(b, es, horizon) && Legal(After(b, es, horizon), fs, horizon)
    decreases |es|
  {
    if es == [] {
      assert es + fs == fs;
    } else {
      assert (es + fs)[1..] == es[1..] + fs;
      RunSplits(Step(b, es[0]), es[1..], fs, horizon);
    }
  }

  lemma OneStep(b: Bucket, e: Event, horizon: nat)
    requires Enabled(b, e) && Sane(e, b.burst, horizon)
    ensures Legal(b, [e], horizon) && After(b, [e], horizon) == Step(b, e)
  {
    assert [e][1..] == [];
    assert After(Step(b, e), [], horizon) == Step(b, e);
  }

  // ---- A call among other callers -----------------------------------------------------

  predicate Others(es: seq<Event>, id: nat) { forall i :: 0 <= i < |es| ==> es[i].id != id }

  /** What the other callers do before an exchange, and whether it fails for no reason. */
  datatype Turn = Turn(events: seq<Event>, spurious: bool)

  lemma {:induction false} OthersLeave(b: Bucket, es: seq<Event>, id: nat, horizon: nat)
    requires Legal(b, es, horizon) && Others(es, id) && id in b.calls
    ensures id in After(b, es, horizon).calls && After(b, es, horizon).calls[id] == b.calls[id]
    decreases |es|
  {
    if es != [] { OthersLeave(Step(b, es[0]), es[1..], id, horizon); }
  }

  /** The bucket when the call makes its next exchange. */
  function AtExchange(b: Bucket, id: nat, t: Turn, horizon: nat): (b1: Bucket)
    requires id in b.calls && Others(t.events, id) && Legal(b, t.events, horizon)
    ensures id in b1.calls && b1.calls[id] == b.calls[id]
  {
    OthersLeave(b, t.events, id, horizon);
    After(b, t.events, horizon)
  }

  predicate Retries(b: Bucket, id: nat, spurious: bool)
    requires id in b.calls
  {
    Try(b.calls[id], b.time, spurious).Retry?
  }

  /** The other callers' turns are possible, one after the other, as long as the call goes on. */
  predicate TurnsOk(b: Bucket, id: nat, turns: seq<Turn>, horizon: nat)
    requires id in b.calls
    decreases |turns|
  {
    turns == [] ||
    (&& Others(turns[0].events, id) && Legal(b, turns[0].events, horizon)
     && var b1 := AtExchange(b, id, turns[0], horizon);
     Retries(b1, id, turns[0].spurious) ==>
       TurnsOk(Step(b1, Attempt(id, turns[0].spurious)), id, turns[1..], horizon))
  }

  /** What the call meets: before each exchange the stamp the other callers left. */
  function Disturbs(b: Bucket, id: nat, turns: seq<Turn>, horizon: nat): seq<Meddling>
    requires id in b.calls && TurnsOk(b, id, turns, horizon)
    decreases |turns|
  {
    if turns == [] then []
    else
      var b1, t := AtExchange(b, id, turns[0], horizon), turns[0];
      [Meddling(Some(b1.time), t.spurious)] +
      if Retries(b1, id, t.spurious) then Disturbs(Step(b1, Attempt(id, t.spurious)), id, turns[1..], horizon) else []
  }

  /** The run of the call: each turn of the others and then an exchange, until one ends the call;
      when the turns are used up nobody disturbs any more. */
  function Play(b: Bucket, id: nat, turns: seq<Turn>, horizon: nat): seq<Event>
    requires id in b.calls && TurnsOk(b, id, turns, horizon)
    decreases |turns|
  {
    if turns == [] then
      if Retries(b, id, false) then [Attempt(id, false), Attempt(id, false)] else [Attempt(id, false)]
    else
      var b1, t := AtExchange(b, id, turns[0], horizon), turns[0];
      t.events + [Attempt(id, t.spurious)] +
      if Retries(b1, id, t.spurious) then Play(Step(b1, Attempt(id, t.spurious)), id, turns[1..], horizon) else []
  }

  /** A run that ends a call with the given answer: the grants at its end are those before the
      last exchange and, if the answer is yes, the call's own. */
  ghost predicate Ends(b: Bucket, id: nat, es: seq<Event>, horizon: nat, granted: bool, time: nat) {
    && id in b.calls && Legal(b, es, horizon) && es != [] && es[|es| - 1].Attempt? && es[|es| - 1].id == id
    && Legal(b, es[..|es| - 1], horizon)
    && var c, pre, b' := b.calls[id], After(b, es[..|es| - 1], horizon), After(b, es, horizon);
    && id !in b'.calls && b'.time == time
    && if granted then exists base :: b'.grants == pre.grants + [Grant(c.now, c.need, base)]
       else b'.grants == pre.grants && b'.time == pre.time
  }

  lemma LastExchange(b: Bucket, id: nat, spurious: bool, horizon: nat)
    requires id in b.calls && !Retries(b, id, spurious)
    ensures Ends(b, id, [Attempt(id, spurious)], horizon,
                 Try(b.calls[id], b.time, spurious).Granted?, Step(b, Attempt(id, spurious)).time)
  {
    OneStep(b, Attempt(id, spurious), horizon);
    var c, es := b.calls[id], [Attempt(id, spurious)];
    assert es[..|es| - 1] == [];
    assert After(b, es[..|es| - 1], horizon) == b;
    if Try(c, b.time, spurious).Granted? {
      assert Step(b, es[0]).grants == b.grants + [Grant(c.now, c.need, c.base)];
    }
  }

  /** A call that ends later in the run ends with the same answer. */
  lemma EndsLater(b: Bucket, id: nat, es: seq<Event>, fs: seq<Event>, horizon: nat, granted: bool, time: nat)
    requires Legal(b, es, horizon) && id in b.calls
    requires var b1 := After(b, es, horizon);
             id in b1.calls && b1.calls[id].now == b.calls[id].now && b1.calls[id].need == b.calls[id].need
    requires Ends(After(b, es, horizon), id, fs, horizon, granted, time)
    ensures Ends(b, id, es + fs, horizon, granted, time)
  {
    var all := es + fs;
    RunOn(b, es, fs, horizon);
    assert all[..|all| - 1] == es + fs[..|fs| - 1];
    RunOn(b, es, fs[..|fs| - 1], horizon);
  }

  lemma RetriedCall(b: Bucket, id: nat, t: Turn, horizon: nat)
    requires id in b.calls && Others(t.events, id) && Legal(b, t.events, horizon)
    requires Retries(AtExchange(b, id, t, horizon), id, t.spurious)
    ensures var es, b2 := t.events + [Attempt(id, t.spurious)],
                          Step(AtExchange(b, id, t, horizon), Attempt(id, t.spurious));
            && Legal(b, es, horizon) && After(b, es, horizon) == b2
            && id in b2.calls && b2.calls[id].now == b.calls[id].now && b2.calls[id].need == b.calls[id].need
  {
    var b1 := AtExchange(b, id, t, horizon);
    OneStep(b1, Attempt(id, t.spurious), horizon);
    RunOn(b, t.events, [Attempt(id, t.spurious)], horizon);
  }

  /** Undisturbed, the second exchange at the latest ends the call. */
  lemma UndisturbedEnds(b: Bucket, id: nat, horizon: nat)
    requires id in b.calls
    ensures var r := Loop(b.calls[id], b.time, []);
            Ends(b, id, Play(b, id, [], horizon), horizon, r.0, r.1)
  {
    if Retries(b, id, false) {
      var a := Attempt(id, false);
      var b1 := Step(b, a);
      OneStep(b, a, horizon);
      LastExchange(b1, id, false, horizon);
      EndsLater(b, id, [a], [a], horizon, Try(b1.calls[id], b1.time, false).Granted?, Step(b1, a).time);
      assert [a] + [a] == [a, a];
    } else {
      LastExchange(b, id, false, horizon);
    }
  }

  /** Whatever the other callers do between its exchanges, what a call returns and the stamp it
      leaves are those of the loop against the stamps the others left. */
  lemma {:induction false} CallIsRun(b: Bucket, id: nat, turns: seq<Turn>, horizon: nat)
    requires id in b.calls && TurnsOk(b, id, turns, horizon)
    ensures var r := Loop(b.calls[id], b.time, Disturbs(b, id, turns, horizon));
            Ends(b, id, Play(b, id, turns, horizon), horizon, r.0, r.1)
    decreases |turns|
  {
    if turns == [] {
      UndisturbedEnds(b, id, horizon);
    } else {
      var t, b1 := turns[0], AtExchange(b, id, turns[0], horizon);
      var a := Attempt(id, t.spurious);
      if Retries(b1, id, t.spurious) {
        var b2 := Step(b1, a);
        var ds := Disturbs(b2, id, turns[1..], horizon);
        CallIsRun(b2, id, turns[1..], horizon);
        RetriedCall(b, id, t, horizon);
        var r := Loop(b2.calls[id], b2.time, ds);
        EndsLater(b, id, t.events + [a], Play(b2, id, turns[1..], horizon), horizon, r.0, r.1);
        assert ([Meddling(Some(b1.time), t.spurious)] + ds)[1..] == ds;
      } else {
        LastExchange(b1, id, t.spurious, horizon);
        EndsLater(b, id, t.events, [a], horizon, Try(b1.calls[id], b1.time, t.spurious).Granted?, Step(b1, a).time);
        assert t.events + [a] + [] == t.events + [a];
      }
    }
  }

  // ---- Every call of every run ----------------------------------------------------------

  predicate NoStart(es: seq<Event>, id: nat) { forall i :: 0 <= i < |es| ==> es[i].Start? ==> es[i].id != id }

  /** The first exchange of a caller. */
  function FirstOf(es: seq<Event>, id: nat): (k: nat)
    requires exists i :: 0 <= i < |es| && es[i].id == id
    ensures k < |es| && es[k].id == id && Others(es[..k], id)
  {
    if es[0].id == id then 0
    else
      assert exists i :: 0 <= i < |es[1..]| && es[1..][i].id == id by {
        var i :| 0 <= i < |es| && es[i].id == id;
        assert es[1..][i - 1].id == id;
      }
      1 + FirstOf(es[1..], id)
  }

  /** A caller that is gone makes no more exchanges. */
  lemma {:induction false} GoneIsGone(b: Bucket, es: seq<Event>, id: nat, horizon: nat)
    requires Legal(b, es, horizon) && NoStart(es, id) && id !in b.calls
    ensures Others(es, id)
    decreases |es|
  {
    if es != [] {
      assert es[0].id != id;
      GoneIsGone(Step(b, es[0]), es[1..], id, horizon);
      forall i | 0 <= i < |es| ensures es[i].id != id {
        if 0 < i { assert es[i] == es[1..][i - 1]; }
      }
    }
  }

  /** A stretch of a run that begins with a call under way and ends when it returns. */
  predicate Spans(b: Bucket, es: seq<Event>, id: nat, horizon: nat) {
    && id in b.calls && Legal(b, es, horizon) && NoStart(es, id)
    && es != [] && es[|es| - 1].id == id && id !in After(b, es, horizon).calls
  }

  lemma CutAt(b: Bucket, es: seq<Event>, e: Event, rest: seq<Event>, horizon: nat)
    requires Legal(b, es + [e] + rest, horizon)
    ensures Legal(b, es, horizon)
    ensures var b1 := After(b, es, horizon);
            && Enabled(b1, e) && Legal(Step(b1, e), rest, horizon)
            && After(b, es + [e] + rest, horizon) == After(Step(b1, e), rest, horizon)
  {
    var tail := [e] + rest;
    assert es + [e] + rest == es + tail && tail[1..] == rest;
    RunSplits(b, es, tail, horizon);
    RunOn(b, es, tail, horizon);
  }

  /** Cut off the first turn of the others and the exchange after it. */
  lemma FirstTurn(b: Bucket, es: seq<Event>, id: nat, horizon: nat) returns (t: Turn, rest: seq<Event>)
    requires Spans(b, es, id, horizon)
    ensures Others(t.events, id) && Legal(b, t.events, horizon)
    ensures es == t.events + [Attempt(id, t.spurious)] + rest
    ensures var b1 := AtExchange(b, id, t, horizon);
            if Retries(b1, id, t.spurious) then Spans(Step(b1, Attempt(id, t.spurious)), rest, id, horizon)
            else rest == []
  {
    var k := FirstOf(es, id);
    assert es[k].Attempt?;
    t, rest := Turn(es[..k], es[k].spurious), es[k + 1..];
    var a := Attempt(id, t.spurious);
    assert es == t.events + [a] + rest;
    CutAt(b, t.events, a, rest, horizon);
    var b1 := AtExchange(b, id, t, horizon);
    var b2 := Step(b1, a);
    assert rest != [] ==> rest[|rest| - 1] == es[|es| - 1];
    assert rest == [] ==> After(b2, rest, horizon) == b2;
    if !Retries(b1, id, t.spurious) { GoneIsGone(b2, rest, id, horizon); }
  }

  lemma {:induction false} EveryCallPlays(b: Bucket, es: seq<Event>, id: nat, horizon: nat) returns (turns: seq<Turn>)
    requires Spans(b, es, id, horizon)
    ensures TurnsOk(b, id, turns, horizon) && Play(b, id, turns, horizon) == es
    decreases |es|
  {
    var t, rest := FirstTurn(b, es, id, horizon);
    var b1 := AtExchange(b, id, t, horizon);
    if Retries(b1, id, t.spurious) {
      var more := EveryCallPlays(Step(b1, Attempt(id, t.spurious)), rest, id, horizon);
      turns := [t] + more;
      assert turns[1..] == more;
    } else {
      turns := [t];
      assert es == t.events + [Attempt(id, t.spurious)] + [];
    }
  }

  /** In every run every call returns what the loop returns against the stamps that the other
      callers left before its exchanges. */
  lemma EveryCallIsLoop(b: Bucket, es: seq<Event>, id: nat, horizon: nat)
    requires Spans(b, es, id, horizon)
    ensures exists turns :: TurnsOk(b, id, turns, horizon) &&
              var r := Loop(b.calls[id], b.time, Disturbs(b, id, turns, horizon));
              Ends(b, id, es, horizon, r.0, r.1)
  {
    var turns := EveryCallPlays(b, es, id, horizon);
    CallIsRun(b, id, turns, horizon);
  }

  // ---- One caller -----------------------------------------------------------------------

  datatype Request = Request(now: nat, need: nat)

  predicate SaneRequests(rs: seq<Request>, burst: nat, horizon: nat) {
    forall i :: 0 <= i < |rs| ==> burst <= rs[i].now <= horizon && horizon + rs[i].need < U64
  }

  /** The answers to calls made one after the other, undisturbed, and the stamp they leave. */
  function Serve(burst: nat, rs: seq<Request>): (seq<bool>, nat) {
    if rs == [] then ([], 0)
    else
      var (answers, time) := Serve(burst, rs[..|rs| - 1]);
      var r := rs[|rs| - 1];
      var (granted, time') := Loop(Begin(r.now, r.need, burst, time), time, []);
      (answers + [granted], time')
  }

  lemma {:induction false} OneAnswerEach(burst: nat, rs: seq<Request>)
    ensures |Serve(burst, rs).0| == |rs|
    decreases |rs|
  {
    if rs != [] { OneAnswerEach(burst, rs[..|rs| - 1]); }
  }

  /** What was granted from request `i` on. */
  function Spent(burst: nat, rs: seq<Request>, i: nat): nat
    requires i <= |rs|
  {
    if i == |rs| then 0
    else
      OneAnswerEach(burst, rs);
      Spent(burst, rs[..|rs| - 1], i) +
      (if Serve(burst, rs).0[|rs| - 1] then rs[|rs| - 1].need else 0)
  }

  lemma {:induction false} StampBehind(burst: nat, rs: seq<Request>, horizon: nat)
    requires SaneRequests(rs, burst, horizon) && rs != []
    requires forall i, j :: 0 <= i <= j < |rs| ==> rs[i].now <= rs[j].now
    ensures Serve(burst, rs).1 <= rs[|rs| - 1].now
    decreases |rs|
  {
    var n := |rs| - 1;
    if 0 < n { StampBehind(burst, rs[..n], horizon); }
    AloneMeans(rs[n].now, rs[n].need, burst, Serve(burst, rs[..n]).1);
  }

  /** What is granted from request `i` on is stacked above the earliest time it may start from. */
  lemma {:induction false} SpentBelow(burst: nat, rs: seq<Request>, i: nat, horizon: nat)
    requires SaneRequests(rs, burst, horizon) && i < |rs|
    requires forall i, j :: 0 <= i <= j < |rs| ==> rs[i].now <= rs[j].now
    ensures 0 < Spent(burst, rs, i) ==> rs[i].now - burst + Spent(burst, rs, i) <= Serve(burst, rs).1
    decreases |rs|
  {
    var n := |rs| - 1;
    OneAnswerEach(burst, rs);
    OneAnswerEach(burst, rs[..n]);
    if 0 < n { StampBehind(burst, rs[..n], horizon); }
    AloneMeans(rs[n].now, rs[n].need, burst, Serve(burst, rs[..n]).1);
    if i < n { SpentBelow(burst, rs[..n], i, horizon); }
  }

  /** Calls of one caller, clocks in order: whatever it asks for, any window of calls is granted
      at most a burst and the time that passed in it. */
  lemma CallsKeepRate(burst: nat, rs: seq<Request>, i: nat, horizon: nat)
    requires SaneRequests(rs, burst, horizon) && i < |rs|
    requires forall i, j :: 0 <= i <= j < |rs| ==> rs[i].now <= rs[j].now
    ensures Spent(burst, rs, i) <= burst + rs[|rs| - 1].now - rs[i].now
  {
    StampBehind(burst, rs, horizon);
    SpentBelow(burst, rs, i, horizon);
  }
}

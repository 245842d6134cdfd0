/** What fetching and destroying answer: which reports become events and of which kind, which
    report a fetch hands out, and when destroying an id frees it. */
module CmAnswers {
  import opened Wrappers
  import opened CmEvents
  import Indexer

  // ---- Which reports are handed out -------------------------------------------------------

  /** A report with a user id becomes an event unless it is a connection request that could not
      be processed, or the end of a connection whose set-up had failed here; one without becomes
      an event only if it says that a connection of a known id is established. */
  predicate HandsOut(cm: Cm, r: Report) {
    if r.uid == 0 then r.handle in cm.known && r.kind == Established
    else
      && (r.kind == ConnectRequest ==> r.done)
      && (r.kind in {Rejected, Disconnected} ==> r.uid in cm.ids && !cm.ids[r.uid].connectError)
  }

  lemma HandedOutIff(cm: Cm, r: Report)
    requires Genuine(cm, r)
    ensures Process(cm, r).1.Some? <==> HandsOut(cm, r)
  {
  }

  /** The kind of event that the user sees for a report. */
  predicate Shows(r: Report, k: Kind) {
    && (r.kind == ConnectResponse ==> k == if r.done then Established else ConnectError)
    && (r.kind == AddrResolved && !r.done ==> k == AddrError)
    && (r.kind == RouteResolved && !r.done ==> k == RouteError)
    && (r.kind == MulticastJoin && !r.done ==> k == MulticastError)
    && (k != r.kind ==> r.kind == ConnectResponse ||
                        (!r.done && r.kind in {AddrResolved, RouteResolved, MulticastJoin}))
  }

  lemma EventShows(cm: Cm, r: Report)
    requires Genuine(cm, r) && HandsOut(cm, r)
    ensures var e := Process(cm, r).1;
            && e.Some? && Shows(r, e.value.kind)
            && e.value.names == (if r.kind == ConnectRequest then r.newId else r.owner)
            && e.value.acct == r.owner && e.value.mc == (if Group(r.kind) then Some(r.group) else None)
  {
  }

  // ---- Which report a fetch hands out --------------------------------------------------------

  /** Absorbing a report changes neither which ids are known nor whose set-up failed. */
  predicate SameAnswers(cm: Cm, c: Cm) {
    && c.known == cm.known && c.ids.Keys == cm.ids.Keys && c.mcs == cm.mcs
    && forall i :: i in cm.ids ==> c.ids[i].connectError == cm.ids[i].connectError
  }

  lemma AbsorbedIsSame(cm: Cm, r: Report)
    requires Genuine(cm, r) && !HandsOut(cm, r)
    ensures SameAnswers(cm, Process(cm, r).0)
  {
    NothingOut(cm, r, 0);
  }

  lemma SameHandsOut(cm: Cm, c: Cm, r: Report)
    requires SameAnswers(cm, c)
    ensures HandsOut(c, r) <==> HandsOut(cm, r)
  {
  }

  /** The first report that becomes an event, by what the library knew before the fetch. */
  predicate FirstOut(cm: Cm, rs: seq<Report>, k: nat) {
    k < |rs| && HandsOut(cm, rs[k]) && forall j :: 0 <= j < k ==> !HandsOut(cm, rs[j])
  }

  lemma FirstOutLater(cm: Cm, c: Cm, rs: seq<Report>, k: nat)
    requires rs != [] && !HandsOut(cm, rs[0]) && SameAnswers(cm, c) && FirstOut(c, rs[1..], k)
    ensures FirstOut(cm, rs, k + 1)
  {
    forall j | 0 <= j <= k + 1 ensures HandsOut(cm, rs[j]) <==> j == k + 1 {
      if 0 < j {
        assert rs[j] == rs[1..][j - 1];
        SameHandsOut(cm, c, rs[j]);
      }
    }
  }

  lemma FirstOutSooner(cm: Cm, c: Cm, rs: seq<Report>, k: nat)
    requires rs != [] && !HandsOut(cm, rs[0]) && SameAnswers(cm, c) && FirstOut(cm, rs, k)
    ensures 0 < k && FirstOut(c, rs[1..], k - 1)
  {
    forall j | 0 <= j < k ensures HandsOut(c, rs[1..][j]) <==> j == k - 1 {
      assert rs[1..][j] == rs[j + 1];
      SameHandsOut(cm, c, rs[j + 1]);
    }
  }

  /** Event `h` is out and is that of report `r`. */
  predicate IsOut(cm: Cm, h: nat, r: Report) {
    && h in cm.out && Shows(r, cm.out[h].kind) && cm.out[h].acct == r.owner
    && cm.out[h].names == if r.kind == ConnectRequest then r.newId else r.owner
  }

  lemma HandedIsOut(cm: Cm, r: Report, h: nat)
    requires Genuine(cm, r) && HandsOut(cm, r)
    ensures Process(cm, r).1.Some? && IsOut(Fetched(cm, r, h), h, r)
  {
    EventShows(cm, r);
  }

  /** A fetch hands out an event exactly when some waiting report becomes one, and then it is
      that of the first such report. */
  lemma {:induction false} FetchHandsFirst(cm: Cm, rs: seq<Report>, h: nat)
    requires AllGenuine(cm, rs)
    ensures var (c, handed) := FetchUntil(cm, rs, h);
            && (handed <==> exists k: nat :: FirstOut(cm, rs, k))
            && (forall k: nat :: FirstOut(cm, rs, k) ==> IsOut(c, h, rs[k]))
    decreases |rs|
  {
    if rs != [] {
      HandedOutIff(cm, rs[0]);
      if HandsOut(cm, rs[0]) {
        HandedIsOut(cm, rs[0], h);
        assert FirstOut(cm, rs, 0);
        assert forall k: nat :: FirstOut(cm, rs, k) ==> k == 0;
      } else {
        var c1 := Process(cm, rs[0]).0;
        AbsorbedIsSame(cm, rs[0]);
        FetchHandsFirst(c1, rs[1..], h);
        forall k: nat | FirstOut(c1, rs[1..], k) ensures FirstOut(cm, rs, k + 1) { FirstOutLater(cm, c1, rs, k); }
        forall k: nat | FirstOut(cm, rs, k)
          ensures 0 < k && FirstOut(c1, rs[1..], k - 1) && rs[k] == rs[1..][k - 1]
        {
          FirstOutSooner(cm, c1, rs, k);
        }
      }
    }
  }

  // ---- Whose set-up failed ------------------------------------------------------------------

  /** The step enters id `i`. */
  predicate Enters(s: Step, i: nat) {
    || (s.Create? && s.i == i)
    || (s.Fetch? && s.r.uid != 0 && s.r.kind == ConnectRequest && s.r.done && s.r.newId == i)
  }

  /** The step fetches a connection response of id `i` that could not be processed. */
  predicate Fails(s: Step, i: nat) {
    s.Fetch? && s.r.uid == i != 0 && s.r.kind == ConnectResponse && !s.r.done
  }

  /** Id `i` is not entered by step `k` or a later one. */
  predicate NotEntered(ss: seq<Step>, k: nat, i: nat) { forall j :: k <= j < |ss| ==> !Enters(ss[j], i) }

  predicate FailedSince(ss: seq<Step>, i: nat) {
    exists k :: 0 <= k < |ss| && Fails(ss[k], i) && NotEntered(ss, k + 1, i)
  }

  lemma CompleteLeaves(cm: Cm, k: nat, i: nat)
    requires k in cm.ids
    ensures var c := Complete(cm, k);
            && c == cm.(ids := c.ids) && (i in c.ids <==> i in cm.ids)
            && (i in cm.ids ==> c.ids[i].connectError == cm.ids[i].connectError)
  {
  }

  lemma AckLeaves(cm: Cm, h: nat, i: nat)
    requires Held(cm, h)
    ensures var c := Ack(cm, h);
            && (i in c.ids <==> i in cm.ids) && (i in cm.ids ==> c.ids[i].connectError == cm.ids[i].connectError)
            && c.lost == cm.lost && c.reported == cm.reported && c.out == cm.out - {h}
  {
    var e := cm.out[h];
    if e.mc.Some? {
      var m := e.mc.value;
      CompleteLeaves(cm.(mcs := cm.mcs[m := cm.mcs[m].(completed := cm.mcs[m].completed + 1)]), e.acct, i);
    } else {
      CompleteLeaves(cm, e.acct, i);
    }
  }

  /** What a fetched report does to the ids: it enters one, marks one as failed, or at most
      completes an event of one. */
  predicate ChangesIds(cm: Cm, r: Report, c: Cm)
    requires r.owner in cm.ids
  {
    if r.uid != 0 && r.kind == ConnectRequest && r.done
    then && c.ids == cm.ids[r.newId := Priv(r.handle, 0, false)]
         && c.known == if r.handle <= Indexer.IDX_MAX_INDEX then cm.known[r.handle := r.newId] else cm.known
    else && c.known == cm.known
         && (c.ids == cm.ids || c.ids == Complete(cm, r.owner).ids || c.ids == Fail(cm, r.owner).ids)
         && r.owner in c.ids
         && (c.ids[r.owner].connectError <==> cm.ids[r.owner].connectError || Fails(Fetch(r, 0), r.owner))
  }

  lemma HandedIds(cm: Cm, r: Report)
    requires Genuine(cm, r) && HandsOut(cm, r)
    ensures ChangesIds(cm, r, Process(cm, r).0)
  {
  }

  lemma AbsorbedIds(cm: Cm, r: Report)
    requires Genuine(cm, r) && !HandsOut(cm, r)
    ensures ChangesIds(cm, r, Process(cm, r).0)
  {
    HandedOutIff(cm, r);
    NothingOut(cm, r, 0);
  }

  lemma ProcessIds(cm: Cm, r: Report)
    requires Genuine(cm, r)
    ensures ChangesIds(cm, r, Process(cm, r).0)
  {
    if HandsOut(cm, r) { HandedIds(cm, r); } else { AbsorbedIds(cm, r); }
  }

  lemma FetchFails(cm: Cm, r: Report, i: nat)
    requires Genuine(cm, r) && i in Process(cm, r).0.ids
    ensures var c, s := Process(cm, r).0, Fetch(r, 0);
            if Enters(s, i) then !c.ids[i].connectError
            else i in cm.ids && (c.ids[i].connectError <==> cm.ids[i].connectError || Fails(s, i))
  {
    ProcessIds(cm, r);
  }

  lemma FailsStep(cm: Cm, s: Step, i: nat)
    requires Enabled(cm, s) && i in Do(cm, s).ids
    ensures if Enters(s, i) then !Do(cm, s).ids[i].connectError
            else i in cm.ids && (Do(cm, s).ids[i].connectError <==> cm.ids[i].connectError || Fails(s, i))
  {
    if s.Fetch? { FetchFails(cm, s.r, i); }
    if s.Acknowledge? { AckLeaves(cm, s.h, i); }
  }

  lemma FailedFirst(ss: seq<Step>, i: nat)
    requires ss != []
    ensures FailedSince(ss, i) <==> FailedSince(ss[1..], i) || (Fails(ss[0], i) && NotEntered(ss[1..], 0, i))
    ensures NotEntered(ss, 0, i) <==> !Enters(ss[0], i) && NotEntered(ss[1..], 0, i)
  {
    var t := ss[1..];
    forall k: nat | k <= |t| ensures NotEntered(t, k, i) <==> NotEntered(ss, k + 1, i) { LaterSteps(ss, k, i); }
    if FailedSince(ss, i) {
      var k :| 0 <= k < |ss| && Fails(ss[k], i) && NotEntered(ss, k + 1, i);
      if 0 < k { assert Fails(t[k - 1], i) && NotEntered(t, k, i); }
    }
    if FailedSince(t, i) {
      var k :| 0 <= k < |t| && Fails(t[k], i) && NotEntered(t, k + 1, i);
      assert Fails(ss[k + 1], i) && NotEntered(ss, k + 2, i);
    }
    if Fails(ss[0], i) && NotEntered(t, 0, i) { assert NotEntered(ss, 1, i); }
  }

  lemma LaterSteps(ss: seq<Step>, k: nat, i: nat)
    requires ss != []
    ensures NotEntered(ss[1..], k, i) <==> NotEntered(ss, k + 1, i)
  {
    var t := ss[1..];
    assert forall j :: 0 <= j < |t| ==> t[j] == ss[j + 1];
    if NotEntered(t, k, i) {
      forall j | k + 1 <= j < |ss| ensures !Enters(ss[j], i) { assert ss[j] == t[j - 1]; }
    }
  }

  lemma {:induction false} FailedFrom(cm: Cm, ss: seq<Step>, i: nat)
    requires Legal(cm, ss) && i in After(cm, ss).ids
    ensures NotEntered(ss, 0, i) ==> i in cm.ids
    ensures After(cm, ss).ids[i].connectError <==>
            FailedSince(ss, i) || (NotEntered(ss, 0, i) && cm.ids[i].connectError)
    decreases |ss|
  {
    if ss != [] {
      FailedFrom(Do(cm, ss[0]), ss[1..], i);
      FailedFirst(ss, i);
      if NotEntered(ss[1..], 0, i) { FailsStep(cm, ss[0], i); }
    }
  }

  /** In every run the set-up of an id counts as failed exactly when a connection response of it
      could not be processed since the id was entered. */
  lemma FailedIff(ss: seq<Step>, i: nat)
    requires Legal(Start(), ss) && i in After(Start(), ss).ids
    ensures After(Start(), ss).ids[i].connectError <==> FailedSince(ss, i)
  {
    FailedFrom(Start(), ss, i);
  }

  // ---- When destroying frees -----------------------------------------------------------------

  function Listed(hs: seq<nat>): set<nat> { set h | h in hs }

  lemma AckedLeaves(cm: Cm, h: nat, i: nat)
    requires Inv(cm) && Held(cm, h) && i in cm.ids
    ensures var c := Ack(cm, h);
            && Inv(c) && i in c.ids && i in c.lost && c.lost[i] == cm.lost[i] && i in c.reported
            && c.reported[i] == cm.reported[i] && Accounted(c.out, i) == Accounted(cm.out, i) - {h}
  {
    AckKeeps(cm, h);
    AckLeaves(cm, h, i);
    assert Balanced(cm, i);
    assert Accounted(cm.out - {h}, i) == Accounted(cm.out, i) - {h};
  }

  /** The wait frees the id exactly when none of its events was lost and every one that is out is
      acknowledged. */
  lemma {:induction false} WaitFreesIff(cm: Cm, i: nat, acks: seq<nat>)
    requires Inv(cm) && i in cm.ids && i in cm.reported && i in cm.lost && AllHeld(cm, acks)
    ensures WaitAndFree(cm, i, cm.reported[i], acks).1 <==> cm.lost[i] == 0 && Accounted(cm.out, i) <= Listed(acks)
    decreases |acks|
  {
    DestroyableIff(cm, i);
    if !Destroyable(cm, i) && acks != [] {
      AckedLeaves(cm, acks[0], i);
      WaitFreesIff(Ack(cm, acks[0]), i, acks[1..]);
      assert Listed(acks) == {acks[0]} + Listed(acks[1..]);
    }
  }

  /** Destroying an id, which acknowledges the event pending on it first, frees it exactly when
      none of its events was lost and every other one that is out is acknowledged. */
  lemma DestroyFreesIff(cm: Cm, i: nat, pending: Option<nat>, acks: seq<nat>)
    requires Inv(cm) && i in cm.ids && i in cm.reported && i in cm.lost
    requires (pending.Some? ==> Held(cm, pending.value)) && AllHeld(AckPending(cm, pending), acks)
    ensures WaitAndFree(AckPending(cm, pending), i, cm.reported[i], acks).1 <==>
            && cm.lost[i] == 0
            && Accounted(cm.out, i) - (if pending.Some? then {pending.value} else {}) <= Listed(acks)
  {
    if pending.Some? { AckedLeaves(cm, pending.value, i); }
    WaitFreesIff(AckPending(cm, pending), i, acks);
  }

  // ---- Which ids can be looked up -----------------------------------------------------------

  /** Every live id with a small handle is found by it. */
  predicate Findable(cm: Cm) {
    forall i :: i in cm.ids && cm.ids[i].handle <= Indexer.IDX_MAX_INDEX ==>
      cm.ids[i].handle in cm.known && cm.known[cm.ids[i].handle] == i
  }

  lemma ProcessFinds(cm: Cm, r: Report)
    requires Genuine(cm, r) && Findable(cm)
    ensures Findable(Process(cm, r).0)
  {
    ProcessIds(cm, r);
  }

  lemma AckFinds(cm: Cm, h: nat)
    requires Held(cm, h) && Findable(cm)
    ensures Findable(Ack(cm, h))
  {
  }

  lemma StepFinds(cm: Cm, s: Step)
    requires Enabled(cm, s) && Findable(cm)
    ensures Findable(Do(cm, s))
  {
    if s.Fetch? { ProcessFinds(cm, s.r); }
    if s.Acknowledge? { AckFinds(cm, s.h); }
  }

  lemma {:induction false} RunFinds(cm: Cm, ss: seq<Step>)
    requires Legal(cm, ss) && Findable(cm)
    ensures Findable(After(cm, ss))
    decreases |ss|
  {
    if ss != [] {
      StepFinds(cm, ss[0]);
      RunFinds(Do(cm, ss[0]), ss[1..]);
    }
  }

  /** In every run a handle finds an id exactly when it is small and that id is live and has it. */
  lemma LookupExact(ss: seq<Step>, h: nat, i: nat)
    requires Legal(Start(), ss)
    ensures var cm := After(Start(), ss);
            h in cm.known && cm.known[h] == i <==>
            i in cm.ids && cm.ids[i].handle == h && h <= Indexer.IDX_MAX_INDEX
  {
    RunKeeps(Start(), ss);
    RunFinds(Start(), ss);
  }
}

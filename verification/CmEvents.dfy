/** Connection-manager events: each one the kernel reports is absorbed or handed out and
    acknowledged, and destroying an id waits for those that are still out. */
module CmEvents {
  import opened Wrappers
  import Indexer

  datatype Kind =
    | AddrResolved | AddrError | RouteResolved | RouteError | ConnectRequest | ConnectResponse | ConnectError
    | Unreachable | Rejected | Established | Disconnected | DeviceRemoval | MulticastJoin | MulticastError
    | AddrChange | TimewaitExit

  /** What the kernel returns for one fetch.  `uid` names the id, or for multicast events
      the group; 0 is a fault of older kernels.  `handle` is the kernel's own name and
      `owner` the id whose context counts the event, as `group` does if it is a multicast
      event.  `done` is whether processing it succeeded, and `newId` the id that a connection
      request creates. */
  datatype Report = Report(kind: Kind, uid: nat, handle: nat, owner: nat, group: nat, done: bool, newId: nat)

  datatype Priv = Priv(handle: nat, completed: nat, connectError: bool)

  datatype Mc = Mc(owner: nat, completed: nat)

  /** An event that is out: its kind, the id it names, the id and the group it is counted for. */
  datatype Evt = Evt(kind: Kind, names: nat, acct: nat, mc: Option<nat>)

  /** The library's tables, the kernel's counts of the events it reported, how many of them
      matched no id, and how many were never completed for their group. */
  datatype Cm = Cm(ids: map<nat, Priv>, known: map<nat, nat>, mcs: map<nat, Mc>, out: map<nat, Evt>,
                   reported: map<nat, nat>, mcReported: map<nat, nat>, lost: map<nat, nat>,
                   mcLost: map<nat, nat>)

  function Bump(m: map<nat, nat>, i: nat): map<nat, nat>
    requires i in m
  {
    m[i := m[i] + 1]
  }

  // ---- Completing -------------------------------------------------------------------

  function Complete(cm: Cm, i: nat): Cm
    requires i in cm.ids
  {
    cm.(ids := cm.ids[i := cm.ids[i].(completed := cm.ids[i].completed + 1)])
  }

  function CompleteMc(cm: Cm, m: nat): Cm
    requires m in cm.mcs && cm.mcs[m].owner in cm.ids
  {
    Complete(cm.(mcs := cm.mcs[m := cm.mcs[m].(completed := cm.mcs[m].completed + 1)]), cm.mcs[m].owner)
  }

  /** An event whose id, and group if it has one, still exist. */
  predicate Held(cm: Cm, h: nat) {
    && h in cm.out && cm.out[h].acct in cm.ids
    && (cm.out[h].mc.Some? ==> var m := cm.out[h].mc.value; m in cm.mcs && cm.mcs[m].owner == cm.out[h].acct)
  }

  function Ack(cm: Cm, h: nat): Cm
    requires Held(cm, h)
  {
    var e := cm.out[h];
    var cm1 := if e.mc.Some? then CompleteMc(cm, e.mc.value) else Complete(cm, e.acct);
    cm1.(out := cm1.out - {h})
  }

  // ---- Fetching ---------------------------------------------------------------------

  predicate Group(k: Kind) { k.MulticastJoin? || k.MulticastError? }

  /** What the kernel promises of a report. */
  predicate Genuine(cm: Cm, r: Report) {
    && r.owner in cm.ids && r.owner in cm.reported && r.owner in cm.lost
    && (if r.uid == 0 then r.handle in cm.known ==> cm.known[r.handle] == r.owner
        else r.uid == if Group(r.kind) then r.group else r.owner)
    && (Group(r.kind) ==> && r.group in cm.mcs && cm.mcs[r.group].owner == r.owner
                          && r.group in cm.mcReported && r.group in cm.mcLost)
    && (r.kind.ConnectRequest? && r.done ==> r.newId != 0 && r.newId !in cm.ids && r.handle !in cm.known)
  }

  /** The kind that the user sees: failed processing turns it into an error. */
  function EventKind(r: Report): Kind {
    match r.kind
    case AddrResolved => if r.done then AddrResolved else AddrError
    case RouteResolved => if r.done then RouteResolved else RouteError
    case ConnectResponse => if r.done then Established else ConnectError
    case MulticastJoin => if r.done then MulticastJoin else MulticastError
    case k => k
  }

  /** The kernel counts what it reports. */
  function Counted(cm: Cm, r: Report): Cm
    requires Genuine(cm, r)
  {
    cm.(reported := Bump(cm.reported, r.owner),
        mcReported := if Group(r.kind) then Bump(cm.mcReported, r.group) else cm.mcReported)
  }

  /** A multicast event dropped before its group was looked at. */
  function McDropped(cm: Cm, r: Report): Cm
    requires Group(r.kind) ==> r.group in cm.mcLost
  {
    if Group(r.kind) then cm.(mcLost := Bump(cm.mcLost, r.group)) else cm
  }

  /** An id for a new kernel context; only small handles can be looked up. */
  function Enter(cm: Cm, i: nat, handle: nat): Cm {
    cm.(ids := cm.ids[i := Priv(handle, 0, false)], reported := cm.reported[i := 0], lost := cm.lost[i := 0],
        known := if handle <= Indexer.IDX_MAX_INDEX then cm.known[handle := i] else cm.known)
  }

  /** A report is absorbed, or becomes an event. */
  function Process(cm: Cm, r: Report): (Cm, Option<Evt>)
    requires Genuine(cm, r)
  {
    var c := Counted(cm, r);
    if r.uid == 0 then
      if r.handle !in c.known then (McDropped(c.(lost := Bump(c.lost, r.owner)), r), None)
      else if !r.kind.Established? then (McDropped(Complete(c, c.known[r.handle]), r), None)
      else (c, Some(Evt(EventKind(r), c.known[r.handle], c.known[r.handle], None)))
    else if Group(r.kind) then
      (c, Some(Evt(EventKind(r), c.mcs[r.uid].owner, c.mcs[r.uid].owner, Some(r.uid))))
    else
      var e := Some(Evt(EventKind(r), r.uid, r.uid, None));
      match r.kind
      case ConnectRequest =>
        if r.done then (Enter(c, r.newId, r.handle), Some(Evt(EventKind(r), r.newId, r.uid, None)))
        else (Complete(c, r.uid), None)
      case ConnectResponse =>
        (if r.done then c else c.(ids := c.ids[r.uid := c.ids[r.uid].(connectError := true)]), e)
      case Rejected => if c.ids[r.uid].connectError then (Complete(c, r.uid), None) else (c, e)
      case Disconnected => if c.ids[r.uid].connectError then (Complete(c, r.uid), None) else (c, e)
      case _ => (c, e)
  }

  function Fetched(cm: Cm, r: Report, h: nat): Cm
    requires Genuine(cm, r)
  {
    var (c, e) := Process(cm, r);
    if e.Some? then c.(out := c.out[h := e.value]) else c
  }

  // ---- Counting ---------------------------------------------------------------------

  function Accounted(out: map<nat, Evt>, i: nat): set<nat> { set h | h in out && out[h].acct == i }

  function InGroup(out: map<nat, Evt>, m: nat): set<nat> { set h | h in out && out[h].mc == Some(m) }

  /** Every event reported for an id was completed, is out, or matched no id. */
  predicate Balanced(cm: Cm, i: nat) {
    i in cm.ids && i in cm.reported && i in cm.lost &&
    cm.reported[i] == cm.ids[i].completed + |Accounted(cm.out, i)| + cm.lost[i]
  }

  predicate McBalanced(cm: Cm, m: nat) {
    m in cm.mcs && m in cm.mcReported && m in cm.mcLost &&
    cm.mcReported[m] == cm.mcs[m].completed + |InGroup(cm.out, m)| + cm.mcLost[m]
  }

  predicate Named(cm: Cm) {
    forall k :: k in cm.known ==> k <= Indexer.IDX_MAX_INDEX && cm.known[k] in cm.ids && cm.ids[cm.known[k]].handle == k
  }

  /** Only a connection request names another id than the one it is counted for. */
  predicate NamesOwn(e: Evt) { e.names != e.acct <==> e.kind.ConnectRequest? }

  predicate Inv(cm: Cm) {
    && 0 !in cm.ids && Named(cm)
    && (forall h :: h in cm.out ==> NamesOwn(cm.out[h]))
    && (forall i :: i in cm.ids ==> Balanced(cm, i))
    && (forall m :: m in cm.mcs ==> McBalanced(cm, m))
    && (forall h :: h in cm.out ==> Held(cm, h))
  }

  lemma AddAccounted(out: map<nat, Evt>, h: nat, e: Evt, i: nat)
    requires h !in out
    ensures |Accounted(out[h := e], i)| == |Accounted(out, i)| + if e.acct == i then 1 else 0
  {
    assert Accounted(out[h := e], i) == Accounted(out, i) + if e.acct == i then {h} else {};
  }

  lemma AddInGroup(out: map<nat, Evt>, h: nat, e: Evt, m: nat)
    requires h !in out
    ensures |InGroup(out[h := e], m)| == |InGroup(out, m)| + if e.mc == Some(m) then 1 else 0
  {
    assert InGroup(out[h := e], m) == InGroup(out, m) + if e.mc == Some(m) then {h} else {};
  }

  // ---- Each primitive change keeps the balance ------------------------------------------

  function Absorb(cm: Cm, i: nat): Cm
    requires i in cm.ids && i in cm.reported
  {
    Complete(cm.(reported := Bump(cm.reported, i)), i)
  }

  function Lose(cm: Cm, i: nat): Cm
    requires i in cm.reported && i in cm.lost
  {
    cm.(reported := Bump(cm.reported, i), lost := Bump(cm.lost, i))
  }

  function McLose(cm: Cm, m: nat): Cm
    requires m in cm.mcReported && m in cm.mcLost
  {
    cm.(mcReported := Bump(cm.mcReported, m), mcLost := Bump(cm.mcLost, m))
  }

  predicate Deliverable(cm: Cm, e: Evt) {
    && e.acct in cm.ids && e.acct in cm.reported && NamesOwn(e)
    && (e.mc.Some? ==> var m := e.mc.value; m in cm.mcs && m in cm.mcReported && cm.mcs[m].owner == e.acct)
  }

  function Deliver(cm: Cm, e: Evt, h: nat): Cm
    requires Deliverable(cm, e)
  {
    cm.(reported := Bump(cm.reported, e.acct), out := cm.out[h := e],
        mcReported := if e.mc.Some? then Bump(cm.mcReported, e.mc.value) else cm.mcReported)
  }

  function Fail(cm: Cm, i: nat): Cm
    requires i in cm.ids
  {
    cm.(ids := cm.ids[i := cm.ids[i].(connectError := true)])
  }

  lemma AbsorbKeeps(cm: Cm, i: nat)
    requires Inv(cm) && i in cm.ids && i in cm.reported
    ensures Inv(Absorb(cm, i))
  {
    var cm' := Absorb(cm, i);
    forall k | k in cm'.ids ensures Balanced(cm', k) { assert Balanced(cm, k); }
    forall m | m in cm'.mcs ensures McBalanced(cm', m) { assert McBalanced(cm, m); }
    forall h | h in cm'.out ensures Held(cm', h) { assert Held(cm, h); }
  }

  lemma LoseKeeps(cm: Cm, i: nat)
    requires Inv(cm) && i in cm.ids && i in cm.reported && i in cm.lost
    ensures Inv(Lose(cm, i))
  {
    var cm' := Lose(cm, i);
    forall k | k in cm'.ids ensures Balanced(cm', k) { assert Balanced(cm, k); }
    forall m | m in cm'.mcs ensures McBalanced(cm', m) { assert McBalanced(cm, m); }
    forall h | h in cm'.out ensures Held(cm', h) { assert Held(cm, h); }
  }

  lemma McLoseKeeps(cm: Cm, m: nat)
    requires Inv(cm) && m in cm.mcs && m in cm.mcReported && m in cm.mcLost
    ensures Inv(McLose(cm, m))
  {
    var cm' := McLose(cm, m);
    forall k | k in cm'.ids ensures Balanced(cm', k) { assert Balanced(cm, k); }
    forall g | g in cm'.mcs ensures McBalanced(cm', g) { assert McBalanced(cm, g); }
    forall h | h in cm'.out ensures Held(cm', h) { assert Held(cm, h); }
  }

  lemma DeliverKeeps(cm: Cm, e: Evt, h: nat)
    requires Inv(cm) && Deliverable(cm, e) && h !in cm.out
    ensures Inv(Deliver(cm, e, h))
  {
    var cm' := Deliver(cm, e, h);
    forall k | k in cm'.ids ensures Balanced(cm', k) { assert Balanced(cm, k); AddAccounted(cm.out, h, e, k); }
    forall m | m in cm'.mcs ensures McBalanced(cm', m) { assert McBalanced(cm, m); AddInGroup(cm.out, h, e, m); }
    forall g | g in cm'.out ensures Held(cm', g) { assert g != h ==> Held(cm, g); }
  }

  lemma FailKeeps(cm: Cm, i: nat)
    requires Inv(cm) && i in cm.ids
    ensures Inv(Fail(cm, i))
  {
    var cm' := Fail(cm, i);
    forall k | k in cm'.ids ensures Balanced(cm', k) { assert Balanced(cm, k); }
    forall m | m in cm'.mcs ensures McBalanced(cm', m) { assert McBalanced(cm, m); }
    forall h | h in cm'.out ensures Held(cm', h) { assert Held(cm, h); }
  }

  lemma EnterKeeps(cm: Cm, i: nat, handle: nat)
    requires Inv(cm) && i != 0 && i !in cm.ids && handle !in cm.known
    ensures Inv(Enter(cm, i, handle))
  {
    var cm' := Enter(cm, i, handle);
    forall h | h in cm'.out ensures Held(cm', h) { assert Held(cm, h); }
    assert Accounted(cm.out, i) == {} by { assert forall h :: h in cm.out ==> Held(cm, h); }
    forall k | k in cm'.ids ensures Balanced(cm', k) { assert k != i ==> Balanced(cm, k); }
    forall m | m in cm'.mcs ensures McBalanced(cm', m) { assert McBalanced(cm, m); }
  }

  lemma AckKeeps(cm: Cm, h: nat)
    requires Inv(cm) && h in cm.out
    ensures Held(cm, h) && Inv(Ack(cm, h))
  {
    assert Held(cm, h);
    var e, rest := cm.out[h], cm.out - {h};
    assert rest[h := e] == cm.out;
    var cm' := Ack(cm, h);
    forall k | k in cm'.ids ensures Balanced(cm', k) { assert Balanced(cm, k); AddAccounted(rest, h, e, k); }
    forall m | m in cm'.mcs ensures McBalanced(cm', m) { assert McBalanced(cm, m); AddInGroup(rest, h, e, m); }
    forall g | g in cm'.out ensures Held(cm', g) { assert Held(cm, g); }
  }

  /** The id's share of a report that hands nothing out: absorbed, or lost if it matches no id. */
  function Swallowed(cm: Cm, r: Report): Cm
    requires Genuine(cm, r)
  {
    if r.uid == 0 && r.handle !in cm.known then Lose(cm, r.owner) else Absorb(cm, r.owner)
  }

  /** A report that hands nothing out is absorbed or lost for its id, and lost for its group. */
  lemma NothingOut(cm: Cm, r: Report, h: nat)
    requires Genuine(cm, r) && Process(cm, r).1.None?
    ensures Fetched(cm, r, h) ==
            if Group(r.kind) then McLose(Swallowed(cm, r), r.group) else Swallowed(cm, r)
  {
  }

  /** The state an event is handed out from. */
  function Prepared(cm: Cm, r: Report): Cm
    requires Genuine(cm, r)
  {
    if r.kind.ConnectRequest? then Enter(cm, r.newId, r.handle)
    else if r.kind.ConnectResponse? && !r.done then Fail(cm, r.owner)
    else cm
  }

  lemma RequestOut(cm: Cm, r: Report, h: nat)
    requires Genuine(cm, r) && Process(cm, r).1.Some? && r.kind.ConnectRequest?
    ensures var e := Evt(ConnectRequest, r.newId, r.owner, None);
            && r.done && r.uid == r.owner && Process(cm, r) == (Enter(Counted(cm, r), r.newId, r.handle), Some(e))
            && Deliverable(Prepared(cm, r), e) && Fetched(cm, r, h) == Deliver(Prepared(cm, r), e, h)
  {
    var c := Enter(cm, r.newId, r.handle);
    assert Bump(cm.reported, r.owner)[r.newId := 0] == Bump(c.reported, r.owner);
  }

  lemma GroupOut(cm: Cm, r: Report, h: nat)
    requires Genuine(cm, r) && Process(cm, r).1.Some? && Group(r.kind)
    ensures var e := Evt(EventKind(r), r.owner, r.owner, Some(r.group));
            && Process(cm, r) == (Counted(cm, r), Some(e)) && Prepared(cm, r) == cm
            && Deliverable(cm, e) && Fetched(cm, r, h) == Deliver(cm, e, h)
  {
  }

  lemma ResponseOut(cm: Cm, r: Report, h: nat)
    requires Genuine(cm, r) && Process(cm, r).1.Some? && r.kind.ConnectResponse?
    ensures var e := Evt(EventKind(r), r.owner, r.owner, None);
            && Process(cm, r).1 == Some(e) && Deliverable(Prepared(cm, r), e)
            && Fetched(cm, r, h) == Deliver(Prepared(cm, r), e, h)
  {
  }

  lemma IdOut(cm: Cm, r: Report, h: nat)
    requires Genuine(cm, r) && Process(cm, r).1.Some?
    requires !Group(r.kind) && !r.kind.ConnectRequest? && !r.kind.ConnectResponse?
    ensures var e := Evt(EventKind(r), r.owner, r.owner, None);
            && Process(cm, r).1 == Some(e) && Deliverable(Prepared(cm, r), e)
            && Fetched(cm, r, h) == Deliver(Prepared(cm, r), e, h)
  {
  }

  /** Any other report is counted once, for the id and the group its event is counted for. */
  lemma SomethingOut(cm: Cm, r: Report, h: nat)
    requires Genuine(cm, r) && Process(cm, r).1.Some?
    ensures var e := Process(cm, r).1.value;
            && e.acct == r.owner && e.kind == EventKind(r) && (r.kind.ConnectRequest? ==> r.done && e.names == r.newId)
            && Deliverable(Prepared(cm, r), e) && Fetched(cm, r, h) == Deliver(Prepared(cm, r), e, h)
  {
    if r.kind.ConnectRequest? { RequestOut(cm, r, h); }
    else if Group(r.kind) { GroupOut(cm, r, h); }
    else if r.kind.ConnectResponse? { ResponseOut(cm, r, h); }
    else { IdOut(cm, r, h); }
  }

  lemma PreparedKeeps(cm: Cm, r: Report)
    requires Inv(cm) && Genuine(cm, r) && Process(cm, r).1.Some?
    ensures Inv(Prepared(cm, r)) && Prepared(cm, r).out == cm.out
  {
    if r.kind.ConnectRequest? { EnterKeeps(cm, r.newId, r.handle); }
    else if r.kind.ConnectResponse? && !r.done { FailKeeps(cm, r.owner); }
  }

  lemma FetchKeeps(cm: Cm, r: Report, h: nat)
    requires Inv(cm) && Genuine(cm, r) && h !in cm.out
    ensures Inv(Fetched(cm, r, h))
  {
    if Process(cm, r).1.None? {
      NothingOut(cm, r, h);
      LoseKeeps(cm, r.owner);
      AbsorbKeeps(cm, r.owner);
      if Group(r.kind) { McLoseKeeps(Swallowed(cm, r), r.group); }
    } else {
      SomethingOut(cm, r, h);
      PreparedKeeps(cm, r);
      DeliverKeeps(Prepared(cm, r), Process(cm, r).1.value, h);
    }
  }

  // ---- Runs ---------------------------------------------------------------------------

  datatype Step =
    | Create(i: nat, handle: nat)
    | Join(m: nat, i: nat)
    | Fetch(r: Report, h: nat)
    | Acknowledge(h: nat)
    | Destroy(i: nat)
    | Leave(m: nat)

  /** Whether the wait in destroy is over: as many events completed as were reported. */
  predicate Destroyable(cm: Cm, i: nat) {
    i in cm.ids && i in cm.reported && cm.reported[i] <= cm.ids[i].completed
  }

  predicate Leavable(cm: Cm, m: nat) {
    m in cm.mcs && m in cm.mcReported && cm.mcReported[m] <= cm.mcs[m].completed
  }

  predicate Enabled(cm: Cm, s: Step) {
    match s
    case Create(i, handle) => i != 0 && i !in cm.ids && handle !in cm.known
    case Join(m, i) => m != 0 && m !in cm.mcs && i in cm.ids
    case Fetch(r, h) => Genuine(cm, r) && h !in cm.out
    case Acknowledge(h) => Held(cm, h)
    case Destroy(i) => Destroyable(cm, i)
    case Leave(m) => Leavable(cm, m)
  }

  function Destroyed(cm: Cm, i: nat): Cm
    requires i in cm.ids
  {
    cm.(ids := cm.ids - {i}, reported := cm.reported - {i}, lost := cm.lost - {i},
        known := if cm.ids[i].handle <= Indexer.IDX_MAX_INDEX then cm.known - {cm.ids[i].handle} else cm.known)
  }

  function Do(cm: Cm, s: Step): Cm
    requires Enabled(cm, s)
  {
    match s
    case Create(i, handle) => Enter(cm, i, handle)
    case Join(m, i) =>
      cm.(mcs := cm.mcs[m := Mc(i, 0)], mcReported := cm.mcReported[m := 0], mcLost := cm.mcLost[m := 0])
    case Fetch(r, h) => Fetched(cm, r, h)
    case Acknowledge(h) => Ack(cm, h)
    case Destroy(i) => Destroyed(cm, i)
    case Leave(m) => cm.(mcs := cm.mcs - {m}, mcReported := cm.mcReported - {m}, mcLost := cm.mcLost - {m})
  }

  predicate Legal(cm: Cm, ss: seq<Step>)
    decreases |ss|
  {
    ss == [] || (Enabled(cm, ss[0]) && Legal(Do(cm, ss[0]), ss[1..]))
  }

  function After(cm: Cm, ss: seq<Step>): Cm
    requires Legal(cm, ss)
    decreases |ss|
  {
    if ss == [] then cm else After(Do(cm, ss[0]), ss[1..])
  }

  function Start(): Cm { Cm(map[], map[], map[], map[], map[], map[], map[], map[]) }

  lemma EmptySet(s: set<nat>)
    ensures |s| == 0 <==> s == {}
  {
  }

  /** The wait is over exactly when no event counted for the id is out and none was lost. */
  lemma DestroyableIff(cm: Cm, i: nat)
    requires Inv(cm) && i in cm.ids
    ensures Balanced(cm, i)
    ensures Destroyable(cm, i) <==> Accounted(cm.out, i) == {} && cm.lost[i] == 0
  {
    assert Balanced(cm, i);
    EmptySet(Accounted(cm.out, i));
  }

  /** Leaving a group waits in the same way. */
  lemma LeavableIff(cm: Cm, m: nat)
    requires Inv(cm) && m in cm.mcs
    ensures McBalanced(cm, m)
    ensures Leavable(cm, m) <==> InGroup(cm.out, m) == {} && cm.mcLost[m] == 0
  {
    assert McBalanced(cm, m);
    EmptySet(InGroup(cm.out, m));
  }

  lemma DestroyKeeps(cm: Cm, i: nat)
    requires Inv(cm) && Destroyable(cm, i)
    ensures Inv(Destroyed(cm, i))
  {
    DestroyableIff(cm, i);
    var cm' := Destroyed(cm, i);
    forall k | k in cm'.ids ensures Balanced(cm', k) { assert Balanced(cm, k); }
    forall m | m in cm'.mcs ensures McBalanced(cm', m) { assert McBalanced(cm, m); }
    forall h | h in cm'.out ensures Held(cm', h) { assert Held(cm, h) && h !in Accounted(cm.out, i); }
  }

  lemma LeaveKeeps(cm: Cm, m: nat)
    requires Inv(cm) && Leavable(cm, m)
    ensures Inv(Do(cm, Leave(m)))
  {
    LeavableIff(cm, m);
    var cm' := Do(cm, Leave(m));
    forall k | k in cm'.ids ensures Balanced(cm', k) { assert Balanced(cm, k); }
    forall g | g in cm'.mcs ensures McBalanced(cm', g) { assert McBalanced(cm, g); }
    forall h | h in cm'.out ensures Held(cm', h) { assert Held(cm, h) && h !in InGroup(cm.out, m); }
  }

  lemma JoinKeeps(cm: Cm, m: nat, i: nat)
    requires Inv(cm) && Enabled(cm, Join(m, i))
    ensures Inv(Do(cm, Join(m, i)))
  {
    var cm' := Do(cm, Join(m, i));
    forall h | h in cm'.out ensures Held(cm', h) { assert Held(cm, h); }
    assert InGroup(cm.out, m) == {} by { assert forall h :: h in cm.out ==> Held(cm, h); }
    forall k | k in cm'.ids ensures Balanced(cm', k) { assert Balanced(cm, k); }
    forall g | g in cm'.mcs ensures McBalanced(cm', g) { assert g != m ==> McBalanced(cm, g); }
  }

  lemma StepKeeps(cm: Cm, s: Step)
    requires Inv(cm) && Enabled(cm, s)
    ensures Inv(Do(cm, s))
  {
    match s
    case Create(i, handle) => EnterKeeps(cm, i, handle);
    case Join(m, i) => JoinKeeps(cm, m, i);
    case Fetch(r, h) => FetchKeeps(cm, r, h);
    case Acknowledge(h) => AckKeeps(cm, h);
    case Destroy(i) => DestroyKeeps(cm, i);
    case Leave(m) => LeaveKeeps(cm, m);
  }

  lemma {:induction false} RunKeeps(cm: Cm, ss: seq<Step>)
    requires Inv(cm) && Legal(cm, ss)
    ensures Inv(After(cm, ss))
    decreases |ss|
  {
    if ss != [] {
      StepKeeps(cm, ss[0]);
      RunKeeps(Do(cm, ss[0]), ss[1..]);
    }
  }

  /** In every run each reported event was completed once, is out, or was lost; and an event
      that is out can be acknowledged: what it counts for was not freed. */
  lemma EveryEventCompletedOnce(ss: seq<Step>)
    requires Legal(Start(), ss)
    ensures var cm := After(Start(), ss);
            && (forall i :: i in cm.ids ==> Balanced(cm, i))
            && (forall m :: m in cm.mcs ==> McBalanced(cm, m))
            && (forall h :: h in cm.out ==> Held(cm, h))
  {
    RunKeeps(Start(), ss);
  }

  /** In every run, destroy frees an id exactly when no event counted for it is out and none
      was lost.  An event that still names the id is then a connection request that brought
      the id and was not acknowledged. */
  lemma FreedOnlyWhenQuiet(ss: seq<Step>, i: nat)
    requires Legal(Start(), ss) && i in After(Start(), ss).ids
    ensures var cm := After(Start(), ss);
            && i in cm.lost && (Destroyable(cm, i) <==> Accounted(cm.out, i) == {} && cm.lost[i] == 0)
            && (Destroyable(cm, i) ==>
                  ((exists h :: h in cm.out && cm.out[h].names == i)
                   <==> exists h :: h in cm.out && cm.out[h].names == i && cm.out[h].kind.ConnectRequest?))
  {
    var cm := After(Start(), ss);
    RunKeeps(Start(), ss);
    DestroyableIff(cm, i);
    if Destroyable(cm, i) {
      forall h | h in cm.out && cm.out[h].names == i ensures cm.out[h].kind.ConnectRequest? {
        assert h !in Accounted(cm.out, i) && NamesOwn(cm.out[h]);
      }
    }
  }

  /** `c` lost no fewer events than `cm`. */
  ghost predicate LostIn(cm: Cm, c: Cm, i: nat, m: nat) {
    && (i in cm.ids && i in cm.lost ==> i in c.ids && i in c.lost && cm.lost[i] <= c.lost[i])
    && (m in cm.mcs && m in cm.mcLost ==> m in c.mcs && m in c.mcLost && cm.mcLost[m] <= c.mcLost[m])
  }

  lemma SwallowKeepsLost(cm: Cm, r: Report, i: nat, m: nat)
    requires Genuine(cm, r)
    ensures LostIn(cm, Swallowed(cm, r), i, m)
  {
  }

  lemma McLoseKeepsLost(cm: Cm, c: Cm, i: nat, m: nat, g: nat)
    requires LostIn(cm, c, i, m) && g in c.mcReported && g in c.mcLost
    ensures LostIn(cm, McLose(c, g), i, m)
  {
  }

  lemma DeliverKeepsLost(cm: Cm, r: Report, e: Evt, h: nat, i: nat, m: nat)
    requires Genuine(cm, r) && (r.kind.ConnectRequest? ==> r.done) && Deliverable(Prepared(cm, r), e)
    ensures LostIn(cm, Deliver(Prepared(cm, r), e, h), i, m)
  {
  }

  /** A fetch forgets no loss. */
  lemma FetchKeepsLost(cm: Cm, r: Report, h: nat, i: nat, m: nat)
    requires Genuine(cm, r)
    ensures LostIn(cm, Fetched(cm, r, h), i, m)
  {
    if Process(cm, r).1.None? {
      NothingOut(cm, r, h);
      SwallowKeepsLost(cm, r, i, m);
      if Group(r.kind) { McLoseKeepsLost(cm, Swallowed(cm, r), i, m, r.group); }
    } else {
      SomethingOut(cm, r, h);
      DeliverKeepsLost(cm, r, Process(cm, r).1.value, h, i, m);
    }
  }

  /** An id that lost an event is never freed: destroy waits for ever. */
  lemma {:induction false} LostEventHangs(cm: Cm, ss: seq<Step>, i: nat)
    requires Inv(cm) && Legal(cm, ss) && i in cm.ids && i in cm.lost && 0 < cm.lost[i]
    ensures i in After(cm, ss).ids && !Destroyable(After(cm, ss), i)
    decreases |ss|
  {
    DestroyableIff(cm, i);
    if ss != [] {
      StepKeeps(cm, ss[0]);
      StillLost(cm, ss[0], i);
      LostEventHangs(Do(cm, ss[0]), ss[1..], i);
    }
  }

  lemma StillLost(cm: Cm, s: Step, i: nat)
    requires Inv(cm) && Enabled(cm, s) && i in cm.ids && i in cm.lost && 0 < cm.lost[i]
    ensures i in Do(cm, s).ids && i in Do(cm, s).lost && 0 < Do(cm, s).lost[i]
  {
    DestroyableIff(cm, i);
    if s.Fetch? { FetchKeepsLost(cm, s.r, s.h, i, 0); }
  }

  /** A group that lost an event is never left: leaving waits for ever. */
  lemma {:induction false} LostGroupEventHangs(cm: Cm, ss: seq<Step>, m: nat)
    requires Inv(cm) && Legal(cm, ss) && m in cm.mcs && m in cm.mcLost && 0 < cm.mcLost[m]
    ensures m in After(cm, ss).mcs && !Leavable(After(cm, ss), m)
    decreases |ss|
  {
    LeavableIff(cm, m);
    if ss != [] {
      StepKeeps(cm, ss[0]);
      StillMcLost(cm, ss[0], m);
      LostGroupEventHangs(Do(cm, ss[0]), ss[1..], m);
    }
  }

  lemma StillMcLost(cm: Cm, s: Step, m: nat)
    requires Inv(cm) && Enabled(cm, s) && m in cm.mcs && m in cm.mcLost && 0 < cm.mcLost[m]
    ensures m in Do(cm, s).mcs && m in Do(cm, s).mcLost && 0 < Do(cm, s).mcLost[m]
  {
    LeavableIff(cm, m);
    if s.Fetch? { FetchKeepsLost(cm, s.r, s.h, 0, m); }
  }

  /** A multicast event without a user id is dropped for its group, exactly then. */
  lemma DroppedForGroupIff(cm: Cm, r: Report, h: nat)
    requires Inv(cm) && Genuine(cm, r) && Group(r.kind) && h !in cm.out
    ensures var c := Fetched(cm, r, h);
            r.group in c.mcLost && (cm.mcLost[r.group] < c.mcLost[r.group] <==> r.uid == 0)
  {
    if Process(cm, r).1.None? { NothingOut(cm, r, h); } else { SomethingOut(cm, r, h); }
  }

  /** The id of a connection request is freed while the request still names it. */
  lemma RequestOutlivesItsId()
    ensures var ss := [Create(1, 7), Fetch(Report(ConnectRequest, 1, 8, 1, 0, true, 2), 0)];
            && Legal(Start(), ss) && Destroyable(After(Start(), ss), 2)
            && 0 in After(Start(), ss).out && After(Start(), ss).out[0].names == 2
  {
    var s0, s1 := Create(1, 7), Fetch(Report(ConnectRequest, 1, 8, 1, 0, true, 2), 0);
    var ss := [s0, s1];
    assert ss[1..] == [s1] && ss[1..][1..] == [];
    var c1 := Do(Start(), s0);
    assert Enabled(c1, s1);
    assert Legal(c1, [s1]);
    assert After(c1, [s1]) == After(Do(c1, s1), []);
    assert After(Start(), ss) == After(c1, ss[1..]);
  }

  // ---- The methods ----------------------------------------------------------------------

  /** Reports that are genuine one after the other, as long as nothing is handed out. */
  predicate AllGenuine(cm: Cm, rs: seq<Report>)
    decreases |rs|
  {
    rs == [] || (Genuine(cm, rs[0]) && (Process(cm, rs[0]).1.None? ==> AllGenuine(Process(cm, rs[0]).0, rs[1..])))
  }

  /** Fetch until an event is handed out or the channel has nothing more. */
  function FetchUntil(cm: Cm, rs: seq<Report>, h: nat): (Cm, bool)
    requires AllGenuine(cm, rs)
    decreases |rs|
  {
    if rs == [] then (cm, false)
    else if Process(cm, rs[0]).1.Some? then (Fetched(cm, rs[0], h), true)
    else FetchUntil(Process(cm, rs[0]).0, rs[1..], h)
  }

  /** What a fetch does to the events that are out. */
  lemma FetchOut(cm: Cm, r: Report, h: nat)
    requires Genuine(cm, r)
    ensures var (c, e) := Process(cm, r);
            && c.out == cm.out && (e.None? ==> Fetched(cm, r, h) == c)
            && (e.Some? ==> Fetched(cm, r, h).out == cm.out[h := e.value])
  {
  }

  lemma {:induction false} FetchUntilKeeps(cm: Cm, rs: seq<Report>, h: nat)
    requires Inv(cm) && AllGenuine(cm, rs) && h !in cm.out
    ensures var (c, handed) := FetchUntil(cm, rs, h);
            Inv(c) && (handed <==> h in c.out) && (forall g :: g in cm.out ==> g in c.out && c.out[g] == cm.out[g])
    decreases |rs|
  {
    if rs != [] {
      FetchKeeps(cm, rs[0], h);
      FetchOut(cm, rs[0], h);
      if Process(cm, rs[0]).1.None? { FetchUntilKeeps(Process(cm, rs[0]).0, rs[1..], h); }
    }
  }

  function AckPending(cm: Cm, pending: Option<nat>): (r: Cm)
    requires pending.Some? ==> Held(cm, pending.value)
    ensures r.ids.Keys == cm.ids.Keys && r.reported == cm.reported
  {
    if pending.Some? then Ack(cm, pending.value) else cm
  }

  predicate AllHeld(cm: Cm, hs: seq<nat>)
    decreases |hs|
  {
    hs == [] || (Held(cm, hs[0]) && AllHeld(Ack(cm, hs[0]), hs[1..]))
  }

  /** Wait for acknowledgements until as many events completed as were reported, then free. */
  function WaitAndFree(cm: Cm, i: nat, target: nat, acks: seq<nat>): (Cm, bool)
    requires i in cm.ids && AllHeld(cm, acks)
    decreases |acks|
  {
    if target <= cm.ids[i].completed then (Destroyed(cm, i), true)
    else if acks == [] then (cm, false)
    else WaitAndFree(Ack(cm, acks[0]), i, target, acks[1..])
  }

  /** The wait ends with the id freed only when none of its events is left. */
  lemma {:induction false} WaitFreesQuietIds(cm: Cm, i: nat, acks: seq<nat>)
    requires Inv(cm) && i in cm.ids && i in cm.reported && AllHeld(cm, acks)
    ensures var (c, freed) := WaitAndFree(cm, i, cm.reported[i], acks);
            Inv(c) && (freed ==> i !in c.ids && Accounted(c.out, i) == {}) && (!freed ==> !Destroyable(c, i))
    decreases |acks|
  {
    if Destroyable(cm, i) {
      DestroyableIff(cm, i);
      DestroyKeeps(cm, i);
    } else if acks != [] {
      AckKeeps(cm, acks[0]);
      WaitFreesQuietIds(Ack(cm, acks[0]), i, acks[1..]);
    }
  }

  class Manager {
    var ids: map<nat, Priv>
    var known: map<nat, nat>
    var mcs: map<nat, Mc>
    var out: map<nat, Evt>
    var reported: map<nat, nat>
    var mcReported: map<nat, nat>
    var lost: map<nat, nat>
    var mcLost: map<nat, nat>

    function View(): Cm
      reads this
    {
      Cm(ids, known, mcs, out, reported, mcReported, lost, mcLost)
    }

    constructor ()
      ensures View() == Start()
    {
      ids, known, mcs, out := map[], map[], map[], map[];
      reported, mcReported, lost, mcLost := map[], map[], map[], map[];
    }

    method CompleteEvent(i: nat)
      requires i in ids
      modifies this`ids
      ensures View() == Complete(old(View()), i)
    {
      ids := ids[i := ids[i].(completed := ids[i].completed + 1)];
    }

    method CompleteMcEvent(m: nat)
      requires m in mcs && mcs[m].owner in ids
      modifies this`ids, this`mcs
      ensures View() == CompleteMc(old(View()), m)
    {
      mcs := mcs[m := mcs[m].(completed := mcs[m].completed + 1)];
      CompleteEvent(mcs[m].owner);
    }

    method AckEvent(h: nat)
      requires Held(View(), h)
      modifies this`ids, this`mcs, this`out
      ensures View() == Ack(old(View()), h)
    {
      var e := out[h];
      if e.mc.Some? { CompleteMcEvent(e.mc.value); } else { CompleteEvent(e.acct); }
      out := out - {h};
    }

    /** One fetch: the kernel counts the event, and the library absorbs it or keeps it. */
    method Receive(r: Report) returns (e: Option<Evt>)
      requires Genuine(View(), r)
      modifies this
      ensures (View(), e) == Process(old(View()), r)
    {
      reported := reported[r.owner := reported[r.owner] + 1];
      if Group(r.kind) { mcReported := mcReported[r.group := mcReported[r.group] + 1]; }
      var idPriv := r.uid;
      if r.uid == 0 {
        if Group(r.kind) { mcLost := mcLost[r.group := mcLost[r.group] + 1]; }
        if r.handle !in known {
          lost := lost[r.owner := lost[r.owner] + 1];
          return None;
        }
        idPriv := known[r.handle];
        if !r.kind.Established? {
          CompleteEvent(idPriv);
          return None;
        }
      }
      match r.kind {
        case ConnectRequest =>
          if !r.done {
            CompleteEvent(idPriv);
            return None;
          }
          EnterId(r.newId, r.handle);
          e := Some(Evt(ConnectRequest, r.newId, idPriv, None));
        case ConnectResponse =>
          if !r.done { ids := ids[idPriv := ids[idPriv].(connectError := true)]; }
          e := Some(Evt(EventKind(r), idPriv, idPriv, None));
        case Rejected =>
          if ids[idPriv].connectError {
            CompleteEvent(idPriv);
            return None;
          }
          e := Some(Evt(Rejected, idPriv, idPriv, None));
        case Disconnected =>
          if ids[idPriv].connectError {
            CompleteEvent(idPriv);
            return None;
          }
          e := Some(Evt(Disconnected, idPriv, idPriv, None));
        case MulticastJoin =>
          e := Some(Evt(EventKind(r), mcs[r.uid].owner, mcs[r.uid].owner, Some(r.uid)));
        case MulticastError =>
          e := Some(Evt(MulticastError, mcs[r.uid].owner, mcs[r.uid].owner, Some(r.uid)));
        case _ =>
          e := Some(Evt(EventKind(r), idPriv, idPriv, None));
      }
    }

    method EnterId(i: nat, handle: nat)
      modifies this`ids, this`known, this`reported, this`lost
      ensures View() == Enter(old(View()), i, handle)
    {
      ids, reported, lost := ids[i := Priv(handle, 0, false)], reported[i := 0], lost[i := 0];
      if handle <= Indexer.IDX_MAX_INDEX { known := known[handle := i]; }
    }

    /** The next event for the user; absorbed ones are skipped. */
    method GetEvent(rs: seq<Report>, h: nat) returns (handed: bool)
      requires AllGenuine(View(), rs)
      modifies this
      ensures (View(), handed) == FetchUntil(old(View()), rs, h)
    {
      var left := rs;
      while left != []
        invariant AllGenuine(View(), left) && FetchUntil(old(View()), rs, h) == FetchUntil(View(), left, h)
        decreases |left|
      {
        var e := Receive(left[0]);
        if e.Some? {
          out := out[h := e.value];
          return true;
        }
        left := left[1..];
      }
      return false;
    }

    /** Destroy an id: acknowledge its pending event, wait for the others, free it. */
    method DestroyId(i: nat, pending: Option<nat>, acks: seq<nat>) returns (freed: bool)
      requires i in ids && i in reported && (pending.Some? ==> Held(View(), pending.value))
      requires AllHeld(AckPending(View(), pending), acks)
      modifies this
      ensures (View(), freed) == WaitAndFree(AckPending(old(View()), pending), i, old(reported[i]), acks)
    {
      var target := reported[i];
      if pending.Some? { AckEvent(pending.value); }
      ghost var first := View();
      var left := acks;
      while ids[i].completed < target && left != []
        invariant i in ids && AllHeld(View(), left)
        invariant WaitAndFree(first, i, target, acks) == WaitAndFree(View(), i, target, left)
        decreases |left|
      {
        AckEvent(left[0]);
        left := left[1..];
      }
      freed := ids[i].completed >= target;
      if freed {
        var handle := ids[i].handle;
        ids, reported, lost := ids - {i}, reported - {i}, lost - {i};
        if handle <= Indexer.IDX_MAX_INDEX { known := known - {handle}; }
      }
    }
  }
}

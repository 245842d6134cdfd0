/** Two connected stream sockets and the adapters between them, as a
    transition system. Each end keeps the list of all requests it ever posted.
    Its adapter carries them out in that order (`landed`), the peer's software
    handles the messages they bring in that order (`polled`), and its own
    software is told of their completion in that order (`completed`).
    A landing changes the peer's memory at once, before anybody is told. */
module RsProtocol {
  import opened Memory
  import opened Wrappers
  import opened RsWire
  import opened RsSocket

  /** History of one end. `creds` lists, for every credit message posted, the
      unbounded number of messages read by then; `shutAt` is the number of
      bytes accepted when the write side was first shut down. */
  datatype Hist = Hist(
    log: seq<Wr>, landed: nat, polled: nat, completed: nat,
    sent: seq<u8>, read: seq<u8>, nread: nat, creds: seq<nat>,
    shutAt: Option<nat>, readShut: bool)

  datatype End = End(s: Sock, h: Hist)

  /** The acting end and its peer. */
  datatype Pair = Pair(x: End, y: End)

  datatype Step =
    | Send(data: seq<u8>, path: Path)
    | Recv(want: nat)
    | Credit
    | PollSend
    | PollRecv
    | Land
    | Mark(how: How)
    | Post
    | Alive

  datatype Side = SideA | SideB

  datatype Event = Event(side: Side, step: Step)

  datatype Sys = Sys(a: End, b: End)

  // ---- One step of one end ---------------------------------------------------

  /** When the software, or the adapter, may take the step. */
  predicate Enabled(st: Step, p: Pair)
    requires Shaped(p.x.s)
  {
    match st
    case Send(data, path) => ChunkOk(p.x.s, data, path)
    case Recv(want) => HaveRdata(p.x.s) && 0 < want
    case Credit => GiveCredits(p.x.s)
    case PollSend => p.x.h.completed < p.x.h.landed
    case PollRecv => p.y.h.polled < p.y.h.landed
    case Land => p.x.h.landed < |p.x.h.log|
    case Mark(how) => p.x.s.life.connected && p.x.s.life.pending.None?
    case Post => p.x.s.life.pending.Some? && (CtrlAvail(p.x.s.ctl) || !p.x.s.life.connected)
    case Alive => CtrlAvail(p.x.s.ctl) && p.x.s.life.connected
  }

  /** That the step touches memory only inside the buffers it addresses. */
  predicate InBounds(st: Step, p: Pair)
    requires Shaped(p.x.s) && Enabled(st, p)
  {
    match st
    case Send(data, path) => !path.Direct? ==> |data| <= p.x.s.cfg.sbufSize
    case Recv(want) => ChunkSize(p.x.s, want) <= p.x.s.cfg.rbufSize
    case Land => p.x.h.landed < |p.x.h.log| && LandInBounds(p.x.h.log[p.x.h.landed], p)
    case PollSend => p.x.h.completed < |p.x.h.log|
    case PollRecv => p.y.h.polled < |p.y.h.log|
    case Post => p.x.s.life.pending.value < MSG_UNIT
    case _ => true
  }

  predicate LandInBounds(w: Wr, p: Pair)
  {
    match w.payload
    case NoPayload => true
    case ToRing(addr, src) =>
      SourceFits(src, |p.x.s.tx.sbuf|) && addr + src.Len() <= |p.y.s.rx.rbuf|
    case ToSgl(slot, grant) =>
      slot < |p.y.s.tx.targetSgl| && (grant.GrantCtrlBuf? ==> grant.slot < |p.x.s.ctl.buf|)
  }

  /** The scatter entry a landing grant carries. */
  function GrantValue(ctl: Ctl, g: GrantSource): Sge
    requires g.GrantCtrlBuf? ==> g.slot < |ctl.buf|
  {
    if g.GrantCtrlBuf? then ctl.buf[g.slot] else g.sge
  }

  /** The adapter carries out a request: bytes into the peer's receive ring, or
      a grant into the peer's target list. */
  function LandOn(w: Wr, p: Pair): Sock
    requires LandInBounds(w, p)
  {
    match w.payload
    case NoPayload => p.y.s
    case ToRing(addr, src) =>
      p.y.s.(rx := p.y.s.rx.(rbuf := Splice(p.y.s.rx.rbuf, addr, Gather(p.x.s.tx.sbuf, src))))
    case ToSgl(slot, grant) =>
      p.y.s.(tx := p.y.s.tx.(targetSgl := p.y.s.tx.targetSgl[slot := GrantValue(p.x.s.ctl, grant)]))
  }

  function Posted(e: End, d: Done): End {
    End(d.sock, e.h.(log := e.h.log + d.posted))
  }

  predicate CanDo(st: Step, p: Pair) {
    Shaped(p.x.s) && Enabled(st, p) && InBounds(st, p)
  }

  function Do(st: Step, p: Pair): Pair
    requires CanDo(st, p)
  {
    var x, y := p.x, p.y;
    match st
    case Send(data, path) =>
      var x1 := Posted(x, SendChunk(x.s, data, path));
      Pair(x1.(h := x1.h.(sent := x.h.sent + data)), y)
    case Recv(want) =>
      var d := RecvChunk(x.s, want);
      Pair(End(d.sock, x.h.(read := x.h.read + d.bytes,
                            nread := if want < x.s.rx.rmsg[x.s.rx.rmsgHead] then x.h.nread else x.h.nread + 1)), y)
    case Credit =>
      var x1 := Posted(x, SendCredits(x.s));
      Pair(x1.(h := x1.h.(creds := x.h.creds + [x.h.nread])), y)
    case PollSend =>
      Pair(End(OnSendDone(x.s, x.h.log[x.h.completed].wrData), x.h.(completed := x.h.completed + 1)), y)
    case PollRecv =>
      var m := y.h.log[y.h.polled].msg;
      Pair(if m.Some? then x.(s := OnArrival(x.s, m.value)) else x,
           y.(h := y.h.(polled := y.h.polled + 1)))
    case Land =>
      Pair(x.(h := x.h.(landed := x.h.landed + 1)),
           y.(s := LandOn(x.h.log[x.h.landed], p)))
    case Mark(how) =>
      Pair(End(ShutMark(x.s, how),
               x.h.(readShut := x.h.readShut || !how.ShutWr?,
                    shutAt := if how.ShutRd? || x.h.shutAt.Some? then x.h.shutAt else Some(|x.h.sent|))), y)
    case Post => Pair(Posted(x, ShutPost(x.s)), y)
    case Alive => Pair(Posted(x, Keepalive(x.s)), y)
  }

  // ---- Runs -------------------------------------------------------------------

  function View(s: Sys, side: Side): Pair {
    if side.SideA? then Pair(s.a, s.b) else Pair(s.b, s.a)
  }

  function Back(p: Pair, side: Side): Sys {
    if side.SideA? then Sys(p.x, p.y) else Sys(p.y, p.x)
  }

  function Start(ca: Config, cb: Config): Sys {
    Sys(End(Init(ca, cb), Hist([], 0, 0, 0, [], [], 0, [], None, false)),
        End(Init(cb, ca), Hist([], 0, 0, 0, [], [], 0, [], None, false)))
  }

  /** A run: every event is possible in the state the earlier ones lead to. */
  predicate Legal(s: Sys, es: seq<Event>)
    decreases |es|, 0
  {
    es == [] ||
    (var pre := es[..|es| - 1];
     Legal(s, pre) && CanDo(es[|es| - 1].step, View(After(s, pre), es[|es| - 1].side)))
  }

  function After(s: Sys, es: seq<Event>): Sys
    requires Legal(s, es)
    decreases |es|, 1
  {
    if es == [] then s
    else
      var e := es[|es| - 1];
      Back(Do(e.step, View(After(s, es[..|es| - 1]), e.side)), e.side)
  }

  /** The bytes the application handed over on one side, in order. */
  function Accepted(es: seq<Event>, side: Side): seq<u8> {
    if es == [] then []
    else
      var e := es[|es| - 1];
      Accepted(es[..|es| - 1], side) +
      (if e.side == side && e.step.Send? then e.step.data else [])
  }

  /** The bytes the application was given on one side, in order. */
  function Returned(s: Sys, es: seq<Event>, side: Side): seq<u8>
    requires Legal(s, es)
    decreases |es|
  {
    if es == [] then []
    else
      var pre := es[..|es| - 1];
      var e := es[|es| - 1];
      Returned(s, pre, side) +
      (if e.side == side && e.step.Recv?
       then RecvChunk(View(After(s, pre), side).x.s, e.step.want).bytes else [])
  }
}

/** What the state bits of a socket mean: in every reachable state each is decided by what the
    two ends were told to close and by the closing messages that were posted and handled. */
module RsLife {
  import opened Wrappers
  import opened Memory
  import opened RsWire
  import opened RsSocket
  import opened RsProtocol
  import opened RsInvariant
  import opened RsClosure

  // ---- Closing messages -------------------------------------------------------------

  /** A message that ends the connection. */
  predicate IsDisconnect(w: Wr) {
    w.msg.Some? && MsgOp(w.msg.value) == OP_CTRL && MsgData(w.msg.value) == CTRL_DISCONNECT
  }

  predicate Closes(w: Wr, both: bool) { if both then IsDisconnect(w) else IsFin(w) }

  /** One of the first `n` requests closes the peer's read side, or with `both` ends the
      connection. */
  predicate ClosedBy(log: seq<Wr>, n: nat, both: bool) {
    exists i :: 0 <= i < n && i < |log| && Closes(log[i], both)
  }

  /** The message that ends the connection is also the one whose completion does. */
  predicate OwnIsTheirs(w: Wr) { IsOwnDisconnect(w) <==> IsDisconnect(w) }

  lemma ClosedByMore(log: seq<Wr>, ws: seq<Wr>, n: nat, both: bool)
    requires n <= |log|
    ensures ClosedBy(log + ws, n, both) <==> ClosedBy(log, n, both)
    ensures ClosedBy(log + ws, |log + ws|, both) <==> ClosedBy(log, |log|, both) || ClosedBy(ws, |ws|, both)
  {
    assert forall i :: 0 <= i < |log| ==> (log + ws)[i] == log[i];
    assert forall i :: 0 <= i < |ws| ==> (log + ws)[|log| + i] == ws[i];
  }

  lemma ClosedByNext(log: seq<Wr>, n: nat, both: bool)
    requires n < |log|
    ensures ClosedBy(log, n + 1, both) <==> ClosedBy(log, n, both) || Closes(log[n], both)
  {
  }

  // ---- The bits -----------------------------------------------------------------------

  /** The bits of `x` against what it was told to close and what `y` told it. */
  predicate BitsOk(x: End, y: End) {
    var l := x.s.life;
    && (l.readable <==> !x.h.readShut && !ClosedBy(y.h.log, y.h.polled, false))
    && (l.writable <==> x.h.shutAt.None? && !ClosedBy(y.h.log, y.h.polled, true))
    && (ClosedBy(y.h.log, y.h.polled, true) || ClosedBy(x.h.log, x.h.completed, true) ==> !l.connected)
    && (!l.connected ==> !l.readable && !l.writable)
  }

  /** While connected, `x` tells the peer exactly what it has closed. */
  predicate TellsOk(x: End) {
    var l := x.s.life;
    && (forall i :: 0 <= i < |x.h.log| ==> OwnIsTheirs(x.h.log[i]))
    && (l.connected ==>
          && (!l.writable <==> l.pending.Some? || ClosedBy(x.h.log, |x.h.log|, false))
          && (!l.readable && !l.writable <==>
                l.pending == Some(CTRL_DISCONNECT) || ClosedBy(x.h.log, |x.h.log|, true)))
  }

  predicate LifeOk(p: Pair) { BitsOk(p.x, p.y) && BitsOk(p.y, p.x) && TellsOk(p.x) && TellsOk(p.y) }

  /** Nothing that matters here changed, but `x` may have posted `ws`. */
  predicate SameLife(p: Pair, q: Pair, ws: seq<Wr>) {
    && q.x.s.life == p.x.s.life && q.y.s.life == p.y.s.life
    && q.x.h.log == p.x.h.log + ws && q.y.h.log == p.y.h.log
    && q.x.h.polled == p.x.h.polled && q.x.h.completed == p.x.h.completed
    && q.y.h.polled == p.y.h.polled && q.y.h.completed == p.y.h.completed
    && q.x.h.readShut == p.x.h.readShut && q.x.h.shutAt == p.x.h.shutAt
    && q.y.h.readShut == p.y.h.readShut && q.y.h.shutAt == p.y.h.shutAt
  }

  /** Requests that close nothing. */
  predicate Open(ws: seq<Wr>) {
    forall i :: 0 <= i < |ws| ==> !IsFin(ws[i]) && !IsDisconnect(ws[i]) && !IsOwnDisconnect(ws[i])
  }

  lemma OpenKeeps(p: Pair, q: Pair, ws: seq<Wr>)
    requires LifeOk(p) && SameLife(p, q, ws) && Open(ws) && Positions(p.x.h) && Positions(p.y.h)
    ensures LifeOk(q)
  {
    forall both, n: nat | n <= |p.x.h.log|
      ensures ClosedBy(q.x.h.log, n, both) <==> ClosedBy(p.x.h.log, n, both)
    {
      ClosedByMore(p.x.h.log, ws, n, both);
    }
    ClosedByMore(p.x.h.log, ws, 0, false);
    ClosedByMore(p.x.h.log, ws, 0, true);
    forall i | 0 <= i < |q.x.h.log| ensures OwnIsTheirs(q.x.h.log[i]) {
      if i < |p.x.h.log| { assert q.x.h.log[i] == p.x.h.log[i]; } else { assert q.x.h.log[i] == ws[i - |p.x.h.log|]; }
    }
  }

  lemma DataIsOpen(msgSend: bool, payload: Payload, length: nat)
    requires length < MSG_UNIT
    ensures Open(PostWriteMsg(msgSend, payload, DataMsg(length)))
  {
    MsgRoundTrip(OP_DATA, 0);
  }

  lemma CreditIsOpen(msgSend: bool, payload: Payload, count: nat)
    requires count < MSG_UNIT
    ensures Open(PostWriteMsg(msgSend, payload, CreditMsg(count)))
    ensures Open([Wr(payload, Some(CreditMsg(count)), CreditMsg(count))])
  {
    MsgRoundTrip(OP_SGL, 0);
  }

  lemma SendIsOpen(p: Pair, data: seq<u8>, path: Path)
    requires CanDo(Send(data, path), p)
    ensures var ws := SendChunk(p.x.s, data, path).posted; Open(ws) && SameLife(p, Do(Send(data, path), p), ws)
  {
    DataIsOpen(p.x.s.cfg.msgSend, SendChunk(p.x.s, data, path).posted[0].payload, |data|);
  }

  lemma GiveIsOpen(p: Pair)
    requires CanDo(Credit, p)
    ensures var ws := SendCredits(p.x.s).posted; Open(ws) && SameLife(p, Do(Credit, p), ws)
  {
    CreditIsOpen(p.x.s.cfg.msgSend, SendCredits(p.x.s).posted[0].payload, p.x.s.rx.rseqNo + p.x.s.cfg.rqSize);
  }

  lemma AliveIsOpen(p: Pair)
    requires CanDo(Alive, p)
    ensures var ws := Keepalive(p.x.s).posted; Open(ws) && SameLife(p, Do(Alive, p), ws)
  {
    MsgRoundTrip(OP_CTRL, CTRL_KEEPALIVE);
  }

  /** Sends, reads, credits, keepalives and landings close nothing. */
  lemma QuietStepKeeps(st: Step, p: Pair)
    requires LifeOk(p) && CanDo(st, p) && Positions(p.x.h) && Positions(p.y.h)
    requires st.Send? || st.Recv? || st.Credit? || st.Alive? || st.Land?
    ensures LifeOk(Do(st, p))
  {
    if st.Send? {
      SendIsOpen(p, st.data, st.path);
      OpenKeeps(p, Do(st, p), SendChunk(p.x.s, st.data, st.path).posted);
    } else if st.Credit? {
      GiveIsOpen(p);
      OpenKeeps(p, Do(st, p), SendCredits(p.x.s).posted);
    } else if st.Alive? {
      AliveIsOpen(p);
      OpenKeeps(p, Do(st, p), Keepalive(p.x.s).posted);
    } else {
      assert p.x.h.log + [] == p.x.h.log;
      OpenKeeps(p, Do(st, p), []);
    }
  }

  lemma MarkKeepsLife(p: Pair, how: How)
    requires LifeOk(p) && CanDo(Mark(how), p)
    ensures LifeOk(Do(Mark(how), p))
  {
  }

  lemma PostKeepsLife(p: Pair)
    requires LifeOk(p) && CanDo(Post, p) && FinsOk(p.x) && Positions(p.y.h)
    ensures LifeOk(Do(Post, p))
  {
    var q, ws := Do(Post, p), ShutPost(p.x.s).posted;
    forall both, n: nat | n <= |p.x.h.log|
      ensures ClosedBy(q.x.h.log, n, both) <==> ClosedBy(p.x.h.log, n, both)
    {
      ClosedByMore(p.x.h.log, ws, n, both);
    }
    ClosedByMore(p.x.h.log, ws, 0, false);
    ClosedByMore(p.x.h.log, ws, 0, true);
    MsgRoundTrip(OP_CTRL, p.x.s.life.pending.value);
    if ws != [] {
      assert Closes(ws[0], false) && (Closes(ws[0], true) <==> p.x.s.life.pending == Some(CTRL_DISCONNECT));
    }
    forall i | 0 <= i < |q.x.h.log| ensures OwnIsTheirs(q.x.h.log[i]) {
      if i < |p.x.h.log| { assert q.x.h.log[i] == p.x.h.log[i]; } else { assert q.x.h.log[i] == ws[0]; }
    }
  }

  lemma PollSendKeepsLife(p: Pair)
    requires LifeOk(p) && CanDo(PollSend, p) && FinsOk(p.x) && FlowFin(p.y, p.x)
    ensures LifeOk(Do(PollSend, p))
  {
    var q, h := Do(PollSend, p), p.x.h;
    ClosedByNext(h.log, h.completed, true);
    assert OwnIsTheirs(h.log[h.completed]);
    assert FinWrOk(h, h.completed);
    assert FinSeen(p.y.h) <==> ClosedBy(p.y.h.log, p.y.h.polled, false) by {
      assert forall i :: 0 <= i < |p.y.h.log| ==> (Closes(p.y.h.log[i], false) <==> IsFin(p.y.h.log[i]));
    }
  }

  lemma PollRecvKeepsLife(p: Pair)
    requires LifeOk(p) && CanDo(PollRecv, p)
    ensures LifeOk(Do(PollRecv, p))
  {
    var h := p.y.h;
    ClosedByNext(h.log, h.polled, true);
    ClosedByNext(h.log, h.polled, false);
  }

  lemma FinParts(p: Pair)
    requires Inv(p)
    ensures FinsOk(p.x) && FlowFin(p.y, p.x) && Positions(p.x.h) && Positions(p.y.h)
  {
  }

  lemma StepKeepsLife(st: Step, p: Pair)
    requires Inv(p) && LifeOk(p) && CanDo(st, p)
    ensures LifeOk(Do(st, p))
  {
    FinParts(p);
    match st
    case Mark(how) => MarkKeepsLife(p, how);
    case Post => PostKeepsLife(p);
    case PollSend => PollSendKeepsLife(p);
    case PollRecv => PollRecvKeepsLife(p);
    case _ => QuietStepKeeps(st, p);
  }

  // ---- Every reachable state ------------------------------------------------------------

  ghost function Lives(): iset<Pair> { iset p | Inv(p) && LifeOk(p) }

  lemma LivesStep()
    ensures forall p, st :: p in Lives() && CanDo(st, p) ==> Do(st, p) in Lives()
  {
    forall p, st | p in Lives() && CanDo(st, p) ensures Do(st, p) in Lives() {
      StepKeeps(st, p);
      StepKeepsLife(st, p);
    }
  }

  lemma LivesStart(ca: Config, cb: Config)
    requires ca.Good() && cb.Good()
    ensures Pair(Start(ca, cb).a, Start(ca, cb).b) in Lives()
  {
    StartKept(ca, cb);
  }

  lemma ReachableLife(p: Pair)
    requires Reachable(p)
    ensures LifeOk(p)
  {
    LivesStep();
    InvsSwap();
    forall ca: Config, cb: Config | ca.Good() && cb.Good()
      ensures Pair(Start(ca, cb).a, Start(ca, cb).b) in Lives()
    {
      LivesStart(ca, cb);
    }
    assert forall q :: q in Lives() ==> q in Invs();
    assert Closed(Lives());
  }

  /** A disconnect message of the peer that was handled. */
  predicate DisconnectSeen(h: Hist) {
    exists i :: 0 <= i < h.polled && i < |h.log| && IsDisconnect(h.log[i])
  }

  /** An own disconnect message that was completed. */
  predicate DisconnectDone(h: Hist) {
    exists i :: 0 <= i < h.completed && i < |h.log| && IsOwnDisconnect(h.log[i])
  }

  lemma SeenIsClosed(p: Pair)
    requires TellsOk(p.x)
    ensures FinSeen(p.y.h) <==> ClosedBy(p.y.h.log, p.y.h.polled, false)
    ensures DisconnectSeen(p.y.h) <==> ClosedBy(p.y.h.log, p.y.h.polled, true)
    ensures DisconnectDone(p.x.h) <==> ClosedBy(p.x.h.log, p.x.h.completed, true)
  {
    forall i | 0 <= i < |p.y.h.log| ensures Closes(p.y.h.log[i], false) <==> IsFin(p.y.h.log[i]) {}
    forall i | 0 <= i < |p.x.h.log| ensures Closes(p.x.h.log[i], true) <==> IsOwnDisconnect(p.x.h.log[i]) {
      assert OwnIsTheirs(p.x.h.log[i]);
    }
  }

  /** The read side is closed exactly by an own shutdown of it or a closing message of the peer
      that was handled, the write side by an own shutdown of it or a disconnect message; and a
      disconnect message, handled or completed, ends the connection. */
  lemma BitsExact(p: Pair)
    requires Reachable(p)
    ensures p.x.s.life.readable <==> !p.x.h.readShut && !FinSeen(p.y.h)
    ensures p.x.s.life.writable <==> p.x.h.shutAt.None? && !DisconnectSeen(p.y.h)
    ensures DisconnectSeen(p.y.h) || DisconnectDone(p.x.h) ==> !p.x.s.life.connected
    ensures !p.x.s.life.connected ==> !p.x.s.life.readable && !p.x.s.life.writable
  {
    ReachableLife(p);
    SeenIsClosed(p);
  }

  /** The bit that says connected goes out exactly when a disconnect message is handled or
      completed, or when the peer shuts down and the own write side was shut down before. */
  lemma ConnectionEndsIff(p: Pair, st: Step)
    requires Reachable(p) && p.x.s.life.connected && CanDo(st, p)
    ensures !Do(st, p).x.s.life.connected <==>
            || (st.PollRecv? && IsDisconnect(p.y.h.log[p.y.h.polled]))
            || (st.PollRecv? && IsFin(p.y.h.log[p.y.h.polled]) && p.x.h.shutAt.Some?)
            || (st.PollSend? && IsOwnDisconnect(p.x.h.log[p.x.h.completed]))
    ensures Do(st, p).y.s.life == p.y.s.life
  {
    BitsExact(p);
  }

  /** While an end is connected, its peer was told, or is about to be, that it closed its write
      side exactly when it did, and that the connection ends exactly when it closed both. */
  lemma PeerIsTold(p: Pair)
    requires Reachable(p) && p.x.s.life.connected
    ensures !p.x.s.life.writable <==>
            p.x.s.life.pending.Some? || exists i :: 0 <= i < |p.x.h.log| && IsFin(p.x.h.log[i])
    ensures !p.x.s.life.readable && !p.x.s.life.writable <==>
            || p.x.s.life.pending == Some(CTRL_DISCONNECT)
            || exists i :: 0 <= i < |p.x.h.log| && IsDisconnect(p.x.h.log[i])
  {
    ReachableLife(p);
    var log := p.x.h.log;
    assert ClosedBy(log, |log|, false) <==> exists i :: 0 <= i < |log| && IsFin(log[i]) by {
      assert forall i :: 0 <= i < |log| ==> (Closes(log[i], false) <==> IsFin(log[i]));
    }
    assert ClosedBy(log, |log|, true) <==> exists i :: 0 <= i < |log| && IsDisconnect(log[i]) by {
      assert forall i :: 0 <= i < |log| ==> (Closes(log[i], true) <==> IsDisconnect(log[i]));
    }
  }
}

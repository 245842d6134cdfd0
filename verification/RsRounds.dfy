/** What a completion round does, in terms of the completions that were waiting. */
module RsRounds {
  import opened RsWire
  import opened RsSocket
  import opened RsCalls
  import opened RsProofPoll

  // ---- Completions ------------------------------------------------------------------

  predicate IsData(c: Wc) { c.Arrived? && IsDataOp(MsgOp(c.msg)) }

  predicate Brings(c: Wc, ctrl: nat) { c.Arrived? && MsgOp(c.msg) == OP_CTRL && MsgData(c.msg) == ctrl }

  /** The completion of an own disconnect message. */
  predicate OwnEnd(c: Wc) { c.SendDone? && MsgOp(c.wrData) == OP_CTRL && MsgData(c.wrData) == CTRL_DISCONNECT }

  /** Completions after which nothing more is read, or written. */
  predicate ClosesRead(c: Wc) { Brings(c, CTRL_DISCONNECT) || Brings(c, CTRL_SHUTDOWN) || OwnEnd(c) }

  predicate ClosesWrite(c: Wc) { Brings(c, CTRL_DISCONNECT) || OwnEnd(c) }

  /** The lengths that data messages announce, in order. */
  function DataOf(cq: seq<Wc>): seq<nat> {
    if cq == [] then [] else (if IsData(cq[0]) then [MsgData(cq[0].msg)] else []) + DataOf(cq[1..])
  }

  lemma DataSum(cq: seq<Wc>)
    requires cq != []
    ensures |DataOf(cq)| == (if IsData(cq[0]) then 1 else 0) + |DataOf(cq[1..])|
    ensures SumOf(DataOf(cq)) == (if IsData(cq[0]) then MsgData(cq[0].msg) else 0) + SumOf(DataOf(cq[1..]))
  {
    var d, e := if IsData(cq[0]) then [MsgData(cq[0].msg)] else [], DataOf(cq[1..]);
    assert DataOf(cq) == d + e;
    assert if d == [] then d + e == e else (d + e)[1..] == e;
  }

  /** Send-queue entries given back. */
  function EntriesIn(cq: seq<Wc>): nat {
    if cq == [] then 0
    else (if cq[0].SendDone? && MsgOp(cq[0].wrData) != OP_SGL && MsgOp(cq[0].wrData) != OP_CTRL then 1 else 0)
         + EntriesIn(cq[1..])
  }

  /** The credit limit after the completions, if it was `limit` before. */
  function LimitIn(cq: seq<Wc>, limit: nat): nat {
    if cq == [] then limit
    else LimitIn(cq[1..], if cq[0].Arrived? && MsgOp(cq[0].msg) == OP_SGL then MsgData(cq[0].msg) % U16 else limit)
  }

  // ---- How far a round goes -----------------------------------------------------------

  /** Completion `i` ends the connection at once: a disconnect, or a shutdown when the write
      side was closed before the round or is by then. */
  predicate EndsAt(s: Sock, cq: seq<Wc>, i: nat)
    requires i < |cq|
  {
    || Brings(cq[i], CTRL_DISCONNECT)
    || (Brings(cq[i], CTRL_SHUTDOWN) && (!s.life.writable || exists j :: 0 <= j < i && OwnEnd(cq[j])))
  }

  /** The first `n` completions are those up to the first that ends the connection, or all. */
  predicate Handles(s: Sock, cq: seq<Wc>, n: nat) {
    && n <= |cq| && (forall i :: 0 <= i < n - 1 ==> !EndsAt(s, cq, i))
    && (n == |cq| || (0 < n && EndsAt(s, cq, n - 1)))
  }

  /** What handling `cq` makes of a socket: counters, credit limit, unread messages. */
  predicate Took(s: Sock, cq: seq<Wc>, s': Sock)
    requires Shaped(s)
  {
    && Shaped(s') && s'.cfg == s.cfg
    && s'.tx == s.tx.(sqeAvail := s.tx.sqeAvail + EntriesIn(cq),
                      sbufBytesAvail := s.tx.sbufBytesAvail + HeldIn(cq),
                      sseqComp := LimitIn(cq, s.tx.sseqComp))
    && Msgs(s'.rx) == Msgs(s.rx) + DataOf(cq)
  }

  /** And of its state bits. */
  predicate Closed(s: Sock, cq: seq<Wc>, s': Sock) {
    && s'.life.pending == s.life.pending
    && (s'.life.readable <==> s.life.readable && forall i :: 0 <= i < |cq| ==> !ClosesRead(cq[i]))
    && (s'.life.writable <==> s.life.writable && forall i :: 0 <= i < |cq| ==> !ClosesWrite(cq[i]))
    && (s'.life.connected <==>
          s.life.connected && forall i :: 0 <= i < |cq| ==> !OwnEnd(cq[i]) && !EndsAt(s, cq, i))
  }

  /** Room in the ring of unread messages for all that are waiting. */
  predicate Room(io: Io)
    requires IoOk(io)
  {
    |Msgs(io.s.rx)| + |DataOf(io.cq)| <= io.s.cfg.rqSize
  }

  // ---- One completion -------------------------------------------------------------------

  lemma EndsNow(s: Sock, cq: seq<Wc>)
    requires cq != []
    ensures EndsAt(s, cq, 0) <==> cq[0].Arrived? && Ends(s, cq[0].msg)
  {
  }

  /** After a completion that does not end the connection, the later ones do as they did before. */
  lemma EndsLater(s: Sock, cq: seq<Wc>, s': Sock, i: nat)
    requires i + 1 < |cq| && (s'.life.writable <==> s.life.writable && !OwnEnd(cq[0]))
    ensures EndsAt(s', cq[1..], i) <==> EndsAt(s, cq, i + 1)
  {
    var t := cq[1..];
    assert forall j :: 0 <= j < |t| ==> t[j] == cq[j + 1];
    if Brings(cq[i + 1], CTRL_SHUTDOWN) {
      if exists j :: 0 <= j < i && OwnEnd(t[j]) {
        var j :| 0 <= j < i && OwnEnd(t[j]);
        assert OwnEnd(cq[j + 1]);
      }
      if exists j :: 0 <= j < i + 1 && OwnEnd(cq[j]) {
        var j :| 0 <= j < i + 1 && OwnEnd(cq[j]);
        assert j == 0 || OwnEnd(t[j - 1]);
      }
    }
  }

  lemma OneCloses(s: Sock, c: Wc)
    requires Shaped(s)
    ensures var s' := OnCompletion(s, c);
            && s'.life.pending == s.life.pending
            && (s'.life.readable <==> s.life.readable && !ClosesRead(c))
            && (s'.life.writable <==> s.life.writable && !ClosesWrite(c))
            && (s'.life.connected <==> s.life.connected && !OwnEnd(c) && !(c.Arrived? && Ends(s, c.msg)))
  {
  }

  lemma OneTakes(s: Sock, c: Wc)
    requires Shaped(s) && |Msgs(s.rx)| + |DataOf([c])| <= s.cfg.rqSize
    ensures Took(s, [c], OnCompletion(s, c))
  {
    assert [c][1..] == [];
    if IsData(c) { PushAppends(s.rx, MsgData(c.msg), s.cfg.rqSize); }
    assert Msgs(s.rx) + [] == Msgs(s.rx);
  }

  // ---- The round --------------------------------------------------------------------------

  lemma MoreHandled(s: Sock, cq: seq<Wc>, s': Sock, n: nat)
    requires cq != [] && !EndsAt(s, cq, 0) && (s'.life.writable <==> s.life.writable && !OwnEnd(cq[0]))
    requires Handles(s', cq[1..], n)
    ensures Handles(s, cq, n + 1)
  {
    forall i | 0 <= i < n ensures 0 < i ==> (EndsAt(s, cq, i) <==> EndsAt(s', cq[1..], i - 1)) {
      if 0 < i { EndsLater(s, cq, s', i - 1); }
    }
    if 0 < n { EndsLater(s, cq, s', n - 1); }
  }

  lemma MoreClosed(s: Sock, cq: seq<Wc>, s': Sock, s'': Sock)
    requires cq != [] && !EndsAt(s, cq, 0) && Closed(s', cq[1..], s'')
    requires s'.life.pending == s.life.pending
    requires s'.life.readable <==> s.life.readable && !ClosesRead(cq[0])
    requires s'.life.writable <==> s.life.writable && !ClosesWrite(cq[0])
    requires s'.life.connected <==> s.life.connected && !OwnEnd(cq[0])
    ensures Closed(s, cq, s'')
  {
    var t := cq[1..];
    forall i | 0 <= i < |t| ensures t[i] == cq[i + 1] && (EndsAt(s', t, i) <==> EndsAt(s, cq, i + 1)) {
      EndsLater(s, cq, s', i);
    }
    forall i | 0 <= i < |cq| ensures i == 0 || cq[i] == t[i - 1] {}
    assert (forall i :: 0 <= i < |cq| ==> !ClosesRead(cq[i])) <==>
           !ClosesRead(cq[0]) && forall i :: 0 <= i < |t| ==> !ClosesRead(t[i]);
    assert (forall i :: 0 <= i < |cq| ==> !ClosesWrite(cq[i])) <==>
           !ClosesWrite(cq[0]) && forall i :: 0 <= i < |t| ==> !ClosesWrite(t[i]);
    assert (forall i :: 0 <= i < |cq| ==> !OwnEnd(cq[i]) && !EndsAt(s, cq, i)) <==>
           !OwnEnd(cq[0]) && forall i :: 0 <= i < |t| ==> !OwnEnd(t[i]) && !EndsAt(s', t, i);
  }

  lemma OneClosed(s: Sock, c: Wc)
    requires Shaped(s)
    ensures Closed(s, [c], OnCompletion(s, c))
  {
    OneCloses(s, c);
    EndsNow(s, [c]);
  }

  lemma RoundGoesOn(s: Sock, cq: seq<Wc>, s': Sock, k: nat, s'': Sock)
    requires Shaped(s) && cq != [] && !EndsAt(s, cq, 0) && s' == OnCompletion(s, cq[0])
    requires Handles(s', cq[1..], k) && Closed(s', cq[1..][..k], s'')
    ensures Handles(s, cq, k + 1) && Closed(s, cq[..k + 1], s'')
  {
    var t := cq[..k + 1];
    EndsNow(s, cq);
    EndsNow(s, t);
    OneCloses(s, cq[0]);
    MoreHandled(s, cq, s', k);
    assert t[1..] == cq[1..][..k];
    MoreClosed(s, t, s', s'');
  }

  /** A round handles every completion up to the first that ends the connection, and the state
      bits are then what those completions leave. */
  lemma {:induction false} RoundEnds(io: Io) returns (n: nat)
    requires IoOk(io)
    ensures Handles(io.s, io.cq, n) && PollAll(io).cq == io.cq[n..] && PollAll(io).posted == io.posted
    ensures Closed(io.s, io.cq[..n], PollAll(io).s)
    decreases |io.cq|
  {
    if io.cq == [] {
      n := 0;
    } else {
      EndsNow(io.s, io.cq);
      if EndsAt(io.s, io.cq, 0) {
        n := 1;
        assert io.cq[..1] == [io.cq[0]];
        OneClosed(io.s, io.cq[0]);
      } else {
        var io1 := PollOne(io);
        var k := RoundEnds(io1);
        n := k + 1;
        RoundGoesOn(io.s, io.cq, io1.s, k, PollAll(io).s);
        assert io1.cq[k..] == io.cq[n..];
      }
    }
  }

  lemma {:induction false} DataPrefix(cq: seq<Wc>, n: nat)
    requires n <= |cq|
    ensures DataOf(cq[..n]) <= DataOf(cq)
    decreases n
  {
    if 0 < n {
      assert cq[..n][1..] == cq[1..][..n - 1];
      DataPrefix(cq[1..], n - 1);
    }
  }

  lemma TotalsSplit(cq: seq<Wc>, limit: nat)
    requires cq != []
    ensures EntriesIn(cq) == EntriesIn([cq[0]]) + EntriesIn(cq[1..])
    ensures HeldIn(cq) == HeldIn([cq[0]]) + HeldIn(cq[1..])
    ensures LimitIn(cq, limit) == LimitIn(cq[1..], LimitIn([cq[0]], limit))
    ensures DataOf(cq) == DataOf([cq[0]]) + DataOf(cq[1..])
  {
    assert [cq[0]][1..] == [];
    assert DataOf([cq[0]]) == (if IsData(cq[0]) then [MsgData(cq[0].msg)] else []) + [];
  }

  lemma MoreTook(s: Sock, cq: seq<Wc>, s': Sock, s'': Sock)
    requires cq != [] && Shaped(s) && Took(s, [cq[0]], s') && Took(s', cq[1..], s'')
    ensures Took(s, cq, s'')
  {
    TotalsSplit(cq, s.tx.sseqComp);
    var m, d, e := Msgs(s.rx), DataOf([cq[0]]), DataOf(cq[1..]);
    assert m + d + e == m + (d + e);
  }

  lemma RoomAfterOne(io: Io)
    requires IoOk(io) && Room(io) && io.cq != []
    ensures Took(io.s, [io.cq[0]], PollOne(io).s) && Room(PollOne(io))
  {
    TotalsSplit(io.cq, 0);
    OneTakes(io.s, io.cq[0]);
  }

  /** What a round leaves is what the handled completions say: entries and bytes given back, the
      last credit limit, and every data message in order behind those already queued. */
  lemma {:induction false} RoundTakes(io: Io) returns (n: nat)
    requires IoOk(io) && Room(io)
    ensures n <= |io.cq| && PollAll(io).cq == io.cq[n..] && Took(io.s, io.cq[..n], PollAll(io).s)
    decreases |io.cq|
  {
    if io.cq == [] {
      n := 0;
      assert Msgs(io.s.rx) + [] == Msgs(io.s.rx);
    } else {
      RoomAfterOne(io);
      if io.cq[0].Arrived? && Ends(io.s, io.cq[0].msg) {
        n := 1;
        assert io.cq[..1] == [io.cq[0]];
      } else {
        var io1 := PollOne(io);
        var k := RoundTakes(io1);
        n := k + 1;
        var cq := io.cq[..n];
        assert cq[1..] == io1.cq[..k] && io1.cq[k..] == io.cq[n..];
        MoreTook(io.s, cq, io1.s, PollAll(io).s);
      }
    }
  }
}

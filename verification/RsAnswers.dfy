/** What whole calls answer: when a send accepts bytes and why it refuses, when a read returns
    bytes, blocks or reports the end, and when a round gives credits. */
module RsAnswers {
  import opened Memory
  import opened RsWire
  import opened RsSocket
  import opened RsInvariant
  import opened RsCalls
  import opened RsRounds

  // ---- Completion rounds ----------------------------------------------------------------

  lemma GivingKeeps(io: Io)
    requires IoOk(io)
    ensures var r := UpdateCredits(io);
            && r.cq == io.cq && r.s.cfg == io.s.cfg && r.s.tx == io.s.tx && r.s.life == io.s.life
            && Msgs(r.s.rx) == Msgs(io.s.rx) && (HaveRdata(r.s) <==> HaveRdata(io.s))
            && r.s.rx.rbuf == io.s.rx.rbuf && r.s.rx.rbufOffset == io.s.rx.rbufOffset
  {
  }

  lemma ReadableIsSame(s: Sock, t: Sock, cq: seq<Wc>, i: nat)
    requires i < |cq| && t.life == s.life
    ensures EndsAt(t, cq, i) <==> EndsAt(s, cq, i)
  {
  }

  /** Rounds are decided by the state bits and the counters alone. */
  lemma RoundCarries(s: Sock, t: Sock, cq: seq<Wc>, n: nat, t': Sock, s': Sock)
    requires t.life == s.life && s'.life == t'.life && n <= |cq|
    requires Handles(t, cq, n) && Closed(t, cq[..n], t')
    ensures Handles(s, cq, n) && Closed(s, cq[..n], s')
  {
    forall i | 0 <= i < |cq| ensures EndsAt(t, cq, i) <==> EndsAt(s, cq, i) { ReadableIsSame(s, t, cq, i); }
    forall i | 0 <= i < n ensures EndsAt(t, cq[..n], i) <==> EndsAt(s, cq[..n], i) { ReadableIsSame(s, t, cq[..n], i); }
  }

  /** A non-blocking round handles every completion up to the first that ends the connection:
      the queue is empty afterwards or the connection has ended.  The state bits, the counters
      and the unread messages are then what the handled completions say. */
  lemma RoundAnswers(io: Io) returns (n: nat)
    requires IoOk(io)
    ensures var r := ProcessCq(io);
            && Handles(io.s, io.cq, n) && r.cq == io.cq[n..] && Closed(io.s, io.cq[..n], r.s)
            && (r.cq != [] ==> !r.s.life.connected && !r.s.life.readable && !r.s.life.writable)
            && (Room(io) ==> Took(io.s, io.cq[..n], r.s))
  {
    var io1 := UpdateCredits(io);
    GivingKeeps(io);
    n := PolledAnswers(io1);
    GivingKeeps(PollAll(io1));
    RoundGives(io, n, io1.s, PollAll(io1).s, ProcessCq(io).s);
  }

  lemma RoundGives(io: Io, n: nat, t: Sock, t': Sock, s': Sock)
    requires IoOk(io) && Shaped(t) && Shaped(t') && Shaped(s')
    requires n <= |io.cq| && Handles(t, io.cq, n) && Closed(t, io.cq[..n], t')
    requires t.life == io.s.life && t.cfg == io.s.cfg && t.tx == io.s.tx && Msgs(t.rx) == Msgs(io.s.rx)
    requires s'.life == t'.life && s'.cfg == t'.cfg && s'.tx == t'.tx && Msgs(s'.rx) == Msgs(t'.rx)
    ensures Handles(io.s, io.cq, n) && Closed(io.s, io.cq[..n], s')
    ensures n < |io.cq| ==> !s'.life.connected && !s'.life.readable && !s'.life.writable
    ensures Took(t, io.cq[..n], t') ==> Took(io.s, io.cq[..n], s')
  {
    RoundCarries(io.s, t, io.cq, n, t', s');
    if n < |io.cq| { LastEnds(io.s, io.cq, n, s'); }
  }

  lemma PolledAnswers(io: Io) returns (n: nat)
    requires IoOk(io)
    ensures var r := PollAll(io);
            && Handles(io.s, io.cq, n) && r.cq == io.cq[n..] && Closed(io.s, io.cq[..n], r.s)
            && (Room(io) ==> Took(io.s, io.cq[..n], r.s))
  {
    n := RoundEnds(io);
    if Room(io) {
      var m := RoundTakes(io);
      assert |io.cq| - n == |io.cq| - m;
    }
  }

  /** A round that stops early has ended the connection. */
  lemma LastEnds(s: Sock, cq: seq<Wc>, n: nat, s': Sock)
    requires 0 < n < |cq| && Handles(s, cq, n) && Closed(s, cq[..n], s')
    ensures !s'.life.connected && !s'.life.readable && !s'.life.writable
  {
    var t := cq[..n];
    assert EndsAt(s, cq, n - 1) && t[n - 1] == cq[n - 1];
    assert EndsAt(s, t, n - 1) by {
      if exists j :: 0 <= j < n - 1 && OwnEnd(cq[j]) {
        var j :| 0 <= j < n - 1 && OwnEnd(cq[j]);
        assert OwnEnd(t[j]);
      }
    }
    assert ClosesRead(t[n - 1]);
    if !Brings(t[n - 1], CTRL_DISCONNECT) && s.life.writable {
      var j :| 0 <= j < n - 1 && OwnEnd(cq[j]);
      assert ClosesWrite(t[j]);
    } else if Brings(t[n - 1], CTRL_DISCONNECT) {
      assert ClosesWrite(t[n - 1]);
    }
  }

  /** Some request posted since `before` returns credits. */
  predicate GaveCredits(before: Io, after: Io) {
    exists i :: |before.posted| <= i < |after.posted| && IsCredit(after.posted[i])
  }

  lemma GivingPosts(io: Io)
    requires IoOk(io)
    ensures io.posted <= UpdateCredits(io).posted
    ensures GaveCredits(io, UpdateCredits(io)) <==> GiveCredits(io.s)
  {
    if GiveCredits(io.s) {
      var ws, r := SendCredits(io.s).posted, UpdateCredits(io).posted;
      assert r[|r| - 1] == ws[|ws| - 1] && IsCredit(ws[|ws| - 1]);
    }
  }

  /** A round returns credits exactly when they are due before or after its completions. */
  lemma CreditsGivenIff(io: Io)
    requires IoOk(io)
    ensures io.posted <= ProcessCq(io).posted
    ensures GaveCredits(io, ProcessCq(io)) <==> GiveCredits(io.s) || GiveCredits(PollAll(io).s)
  {
    var io1 := UpdateCredits(io);
    var n := RoundEnds(io1);
    var io2 := PollAll(io1);
    var io3 := UpdateCredits(io2);
    GivingPosts(io);
    GivingPosts(io2);
    if GiveCredits(io.s) {
      var i :| |io.posted| <= i < |io1.posted| && IsCredit(io1.posted[i]);
      assert io3.posted[i] == io1.posted[i];
    } else {
      assert io1 == io;
    }
  }

  // ---- Sending --------------------------------------------------------------------------

  /** The socket could send once the completions are handled. */
  predicate EnoughAfter(s: Sock, cq: seq<Wc>)
    requires Shaped(s)
  {
    && (if s.cfg.msgSend then s.tx.sqeAvail + EntriesIn(cq) >= 2 else s.tx.sqeAvail + EntriesIn(cq) != 0)
    && s.tx.sbufBytesAvail + HeldIn(cq) >= RS_SNDLOWAT
    && s.tx.sseqNo != LimitIn(cq, s.tx.sseqComp)
    && s.tx.targetSgl[s.tx.targetSge].length != 0
  }

  /** None of the completions closes the write side. */
  predicate WriteOpen(s: Sock, cq: seq<Wc>) {
    s.life.writable && forall i :: 0 <= i < |cq| ==> !ClosesWrite(cq[i])
  }

  /** Why there is nothing to send with. */
  predicate Refused(io: Io, o: Outcome)
    requires Shaped(io.s)
  {
    && (o.WouldBlock? ==> io.cq == [] && !CanSend(io.s) && io.s.life.writable)
    && (o.Reset? ==> !io.s.life.writable)
  }

  lemma ReadyMeans(io: Io) returns (n: nat)
    requires IoOk(io)
    ensures IoOk(Ready(io).0) && Refused(Ready(io).0, Ready(io).1) && Handles(io.s, io.cq, n)
    ensures Ready(io).1.AllSent? ==> CanSend(Ready(io).0.s)
    ensures Room(io) ==> (Ready(io).1.AllSent? <==>
              CanSend(io.s) || (EnoughAfter(io.s, io.cq[..n]) && WriteOpen(io.s, io.cq[..n])))
  {
    n := RoundAnswers(io);
  }

  lemma PassSends(io: Io, data: seq<u8>, olen: nat, vectored: bool) returns (k: nat, io2: Io)
    requires IoOk(io) && OlenOk(olen) && data != [] && Ready(io).1.AllSent?
    ensures 0 < k <= |data| && IoOk(io2) && OlenOk(NextOlen(|data|, olen))
    ensures SendLoop(io, data, olen, vectored) == After(k, SendLoop(io2, data[k..], NextOlen(|data|, olen), vectored))
  {
    var n := ReadyMeans(io);
    var io1 := Ready(io).0;
    k, io2 := XferSize(io1.s, |data|, olen), PostChunk(io1, data, olen, vectored);
    SendUnfolds(io, data, olen, vectored);
  }

  /** Why a send stops.  It would block only with every completion handled, the write side open
      and something that it needs still missing; it is reset only with the write side closed. */
  lemma {:induction false} RefusalMeans(io: Io, data: seq<u8>, olen: nat, vectored: bool)
    requires IoOk(io) && OlenOk(olen)
    ensures var r := SendLoop(io, data, olen, vectored);
            && (r.outcome.AllSent? <==> r.count == |data|)
            && (r.outcome.WouldBlock? ==> r.io.cq == [] && !CanSend(r.io.s) && r.io.s.life.writable)
            && (r.outcome.Reset? ==> !r.io.s.life.writable)
    decreases |data|
  {
    if data != [] {
      if Ready(io).1.AllSent? {
        var k, io2 := PassSends(io, data, olen, vectored);
        RefusalMeans(io2, data[k..], NextOlen(|data|, olen), vectored);
      } else {
        var n := ReadyMeans(io);
      }
    }
  }

  /** A send accepts bytes exactly when the socket can send, whatever its state bits, or when it
      could after the completions that are waiting and none of them closes the write side. */
  lemma SendAcceptsIff(io: Io, data: seq<u8>, olen: nat, vectored: bool) returns (n: nat)
    requires IoOk(io) && Room(io) && OlenOk(olen) && data != []
    ensures Handles(io.s, io.cq, n)
    ensures 0 < SendLoop(io, data, olen, vectored).count <==>
            CanSend(io.s) || (EnoughAfter(io.s, io.cq[..n]) && WriteOpen(io.s, io.cq[..n]))
  {
    n := ReadyMeans(io);
    if Ready(io).1.AllSent? { var k, io2 := PassSends(io, data, olen, vectored); }
  }

  /** Each pass sends as much as the growing size, the data, the send ring and the space that the
      peer granted allow, and not less. */
  lemma ChunkIsLargest(s: Sock, left: nat, olen: nat)
    requires Shaped(s) && 0 <= s.tx.sbufBytesAvail
    ensures var n, room := XferSize(s, left, olen), s.tx.targetSgl[s.tx.targetSge].length;
            && n <= olen && n <= left && n <= s.tx.sbufBytesAvail && n <= room
            && n in {olen, left, s.tx.sbufBytesAvail, room}
  {
  }

  /** Passes of the send loop over `left` bytes when nothing but the growing size limits them. */
  function Passes(left: nat, olen: nat): nat
    requires 0 < olen
    decreases left
  {
    if left == 0 then 0 else 1 + Passes(left - Min(olen, left), NextOlen(left, olen))
  }

  lemma {:induction false} PassesFull(left: nat)
    ensures Passes(left, RS_MAX_TRANSFER) == (left + RS_MAX_TRANSFER - 1) / RS_MAX_TRANSFER
    decreases left
  {
    if left > RS_MAX_TRANSFER { PassesFull(left - RS_MAX_TRANSFER); }
  }

  /** The sizes double up to the largest transfer: a send takes at most six requests and one for
      each full transfer. */
  lemma FewPasses(left: nat)
    ensures Passes(left, RS_OLAP_START_SIZE) <= 6 + left / RS_MAX_TRANSFER
  {
    if 2048 * 31 < left {
      PassesFull(left - 2048 * 31);
      assert Passes(left, 2048) == 5 + Passes(left - 2048 * 31, 65536) by {
        assert Passes(left, 2048) == 1 + Passes(left - 2048, 4096);
        assert Passes(left - 2048, 4096) == 1 + Passes(left - 2048 * 3, 8192);
        assert Passes(left - 2048 * 3, 8192) == 1 + Passes(left - 2048 * 7, 16384);
        assert Passes(left - 2048 * 7, 16384) == 1 + Passes(left - 2048 * 15, 32768);
      }
    } else {
      SmallPasses(left, 0, 2048);
    }
  }

  lemma {:induction false} SmallPasses(left: nat, k: nat, olen: nat)
    requires k <= 4 && olen == [2048, 4096, 8192, 16384, 32768][k] && left <= [63488, 61440, 57344, 49152, 32768][k]
    ensures Passes(left, olen) <= 5 - k
    decreases 4 - k
  {
    if olen < left {
      SmallPasses(left - olen, k + 1, 2 * olen);
    } else if 0 < left {
      assert Passes(0, NextOlen(left, olen)) == 0;
    }
  }

  // ---- Reading ----------------------------------------------------------------------------

  /** None of the completions brings data or closes the read side. */
  predicate Silent(cq: seq<Wc>) { forall i :: 0 <= i < |cq| ==> !IsData(cq[i]) && !ClosesRead(cq[i]) }

  /** With data queued a read does not block or look at the completion queue: it returns the next
      bytes of the ring, as many as were asked for and announced. */
  lemma QueuedIsReturned(io: Io, len: nat)
    requires IoOk(io) && SumOf(Msgs(io.s.rx)) <= io.s.cfg.rbufSize && HaveRdata(io.s)
    ensures var g, k := RecvCall(io, len), Min(len, SumOf(Msgs(io.s.rx)));
            && !g.blocked && g.bytes == RingBytes(io.s.rx.rbuf, io.s.rx.rbufOffset, k) && |g.bytes| == k
            && g.io.cq == io.cq && g.io.posted == io.posted
  {
    RecvReturnsNext(io.s, len);
  }

  lemma {:induction false} NoData(cq: seq<Wc>)
    ensures DataOf(cq) == [] <==> forall i :: 0 <= i < |cq| ==> !IsData(cq[i])
  {
    if cq != [] {
      NoData(cq[1..]);
      if DataOf(cq) == [] {
        forall i | 0 <= i < |cq| ensures !IsData(cq[i]) { assert i == 0 || cq[i] == cq[1..][i - 1]; }
      } else if !IsData(cq[0]) {
        var i :| 0 <= i < |cq[1..]| && IsData(cq[1..][i]);
        assert IsData(cq[i + 1]);
      }
    }
  }

  /** A read blocks exactly when nothing is queued, the read side is open, and no completion that
      is waiting brings data or closes it.  It then returns nothing, has handled them all, and
      the read side is still open. */
  lemma BlocksIff(io: Io, len: nat)
    requires IoOk(io) && Room(io)
    ensures var g := RecvCall(io, len);
            && (g.blocked <==> !HaveRdata(io.s) && io.s.life.readable && Silent(io.cq))
            && (g.blocked ==> g.bytes == [] && g.io.cq == [] && !HaveRdata(g.io.s) && g.io.s.life.readable)
  {
    if !HaveRdata(io.s) {
      var n := RoundAnswers(io);
      var r, t := ProcessCq(io), io.cq[..n];
      NoData(t);
      EmptyIff(io.s);
      EmptyIff(r.s);
      assert Msgs(r.s.rx) == DataOf(t);
      if n == |io.cq| {
        assert t == io.cq;
      } else {
        LastCloses(io.s, io.cq, n);
      }
    }
  }

  lemma EmptyIff(s: Sock)
    requires Shaped(s)
    ensures HaveRdata(s) <==> Msgs(s.rx) != []
  {
  }

  lemma LastCloses(s: Sock, cq: seq<Wc>, n: nat)
    requires n < |cq| && Handles(s, cq, n)
    ensures 0 < n && ClosesRead(cq[n - 1]) && ClosesRead(cq[..n][n - 1])
  {
  }

  /** With nothing queued a read returns the bytes that the handled completions announce. */
  lemma ArrivedIsReturned(io: Io, len: nat) returns (n: nat)
    requires IoOk(io) && Room(io) && SumOf(DataOf(io.cq)) <= io.s.cfg.rbufSize && !HaveRdata(io.s)
    ensures Handles(io.s, io.cq, n) && |RecvCall(io, len).bytes| == Min(len, SumOf(DataOf(io.cq[..n])))
    ensures RecvCall(io, len).io.cq == io.cq[n..]
  {
    n := RoundAnswers(io);
    var r, t := ProcessCq(io), io.cq[..n];
    EmptyIff(io.s);
    EmptyIff(r.s);
    assert Msgs(r.s.rx) == DataOf(t);
    DataPrefix(io.cq, n);
    SumPrefix(DataOf(t), DataOf(io.cq));
    RecvReturnsNext(r.s, len);
  }

  lemma {:induction false} SumPrefix(a: seq<nat>, b: seq<nat>)
    requires a <= b
    ensures SumOf(a) <= SumOf(b)
  {
    if a != [] { SumPrefix(a[1..], b[1..]); }
  }

  /** A data message that is waiting, with nothing before it that ends the connection, makes a
      read return bytes. */
  lemma WaitingIsReturned(io: Io, len: nat, i: nat)
    requires IoOk(io) && Room(io) && SumOf(DataOf(io.cq)) <= io.s.cfg.rbufSize && !HaveRdata(io.s)
    requires 0 < len && i < |io.cq| && IsData(io.cq[i]) && 0 < MsgData(io.cq[i].msg)
    requires forall j :: 0 <= j < i ==> !EndsAt(io.s, io.cq, j)
    ensures !RecvCall(io, len).blocked && 0 < |RecvCall(io, len).bytes|
  {
    var n := ArrivedIsReturned(io, len);
    assert i < n;
    assert io.cq[..n][i] == io.cq[i];
    SumAtLeast(io.cq[..n], i);
    BlocksIff(io, len);
  }

  lemma {:induction false} SumAtLeast(cq: seq<Wc>, i: nat)
    requires i < |cq| && IsData(cq[i])
    ensures MsgData(cq[i].msg) <= SumOf(DataOf(cq))
  {
    DataSum(cq);
    if 0 < i { SumAtLeast(cq[1..], i - 1); }
  }

  /** A read returns credits exactly when it finds nothing queued and they are due before or
      after the completions that it then handles. */
  lemma ReadGivesCreditsIff(io: Io, len: nat)
    requires IoOk(io)
    ensures GaveCredits(io, RecvCall(io, len).io) <==>
            !HaveRdata(io.s) && (GiveCredits(io.s) || GiveCredits(PollAll(io).s))
  {
    CreditsGivenIff(io);
  }
}

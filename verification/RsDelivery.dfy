/** Delivery and end of stream, in every reachable state. */
module RsDelivery {
  import opened RsWire
  import opened RsSocket
  import opened RsProtocol
  import opened RsInvariant
  import opened RsClosure

  // ---- Delivery ---------------------------------------------------------------

  lemma StepHistory(st: Step, p: Pair)
    requires CanDo(st, p)
    ensures Do(st, p).x.h.sent == p.x.h.sent + (if st.Send? then st.data else [])
    ensures Do(st, p).x.h.read == p.x.h.read + (if st.Recv? then RecvChunk(p.x.s, st.want).bytes else [])
    ensures Do(st, p).y.h.sent == p.y.h.sent && Do(st, p).y.h.read == p.y.h.read
  {
    assert p.x.h.sent + [] == p.x.h.sent && p.x.h.read + [] == p.x.h.read;
  }

  lemma ReadIsPrefix(p: Pair)
    requires Reachable(p)
    ensures p.x.h.read <= p.y.h.sent
  {
    ReachableInv(p);
  }

  /** No step that the software or the adapter may take leaves its buffers. */
  lemma NeverOutOfBounds(p: Pair, st: Step)
    requires Reachable(p)
    ensures Shaped(p.x.s)
    ensures Enabled(st, p) ==> CanDo(st, p) && Reachable(Do(st, p))
  {
    ReachableInv(p);
    if Enabled(st, p) {
      StepSafe(st, p);
      ReachableStep(p, st);
    }
  }

  // ---- End of stream --------------------------------------------------------------

  /** A reader that did not close its own read side sees end of stream only after
      it was given every byte the peer accepted before shutting down. */
  lemma EofIsSound(p: Pair)
    requires Reachable(p) && AtEof(p.x.s) && !p.x.h.readShut
    ensures p.y.h.shutAt.Some? && p.y.h.shutAt.value <= |p.y.h.sent|
    ensures p.y.h.sent[..p.y.h.shutAt.value] <= p.x.h.read <= p.y.h.sent
  {
    ReachableInv(p);
    EofSound(p.y, p.x);
  }

  lemma EofSound(x: End, y: End)
    requires Flow(x, y) && AtEof(y.s) && !y.h.readShut
    ensures x.h.shutAt.Some? && x.h.shutAt.value <= |y.h.read|
  {
    assert FinSeen(x.h);
    var i :| 0 <= i < x.h.polled && i < |x.h.log| && IsFin(x.h.log[i]);
    assert FinWrOk(x.h, i);
    UptoGrows(x.h.log, i, x.h.polled);
    assert Msgs(y.s.rx) == [];
  }
}

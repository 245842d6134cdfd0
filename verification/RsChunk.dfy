/** What one pass of the read loop does to the unread messages. */
module RsChunk {
  import opened RsSocket

  lemma MsgsAfterChunk(s: Sock, want: nat)
    requires Shaped(s) && HaveRdata(s) && ChunkSize(s, want) <= s.cfg.rbufSize
    ensures var q, q' := Msgs(s.rx), Msgs(RecvChunk(s, want).sock.rx);
            && q != [] && q[0] == s.rx.rmsg[s.rx.rmsgHead]
            && q' == (if want < q[0] then [q[0] - want] + q[1..] else q[1..])
  {
  }

  lemma SumAfterChunk(s: Sock, want: nat)
    requires Shaped(s) && HaveRdata(s) && ChunkSize(s, want) <= s.cfg.rbufSize
    ensures SumOf(Msgs(RecvChunk(s, want).sock.rx)) + ChunkSize(s, want) == SumOf(Msgs(s.rx))
  {
    var q := Msgs(s.rx);
    MsgsAfterChunk(s, want);
    if want < q[0] {
      var q' := [q[0] - want] + q[1..];
      assert q'[1..] == q[1..];
    }
  }
}

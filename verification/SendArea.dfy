/** The send buffers of a datagram socket: one area of bytes, cut into buffers of equal size.
    A free buffer begins with a link to the next free one; a used one begins with a datagram. */
module SendArea {
  import opened Memory
  import opened RsWire

  const LINK_SIZE := 8

  /** Where buffer `k` begins; buffers are numbered from 1, and 0 stands for no buffer. */
  function Base(k: nat): nat
    requires 0 < k
  {
    (k - 1) * RS_SNDLOWAT
  }

  predicate InArea(mem: seq<u8>, k: nat) { 0 < k && Base(k) + RS_SNDLOWAT <= |mem| }

  // ---- Links ------------------------------------------------------------------------

  /** A number in `w` bytes, the lowest first. */
  function Encode(n: nat, w: nat): (r: seq<u8>)
    ensures |r| == w
  {
    if w == 0 then [] else [(n % 256) as u8] + Encode(n / 256, w - 1)
  }

  function Decode(bytes: seq<u8>): nat {
    if bytes == [] then 0 else bytes[0] as nat + 256 * Decode(bytes[1..])
  }

  predicate Fits(n: nat, w: nat) { if w == 0 then n == 0 else Fits(n / 256, w - 1) }

  lemma {:induction false} DecodeEncode(n: nat, w: nat)
    requires Fits(n, w)
    ensures Decode(Encode(n, w)) == n
  {
    if w != 0 {
      DecodeEncode(n / 256, w - 1);
      assert Encode(n, w)[1..] == Encode(n / 256, w - 1);
    }
  }

  /** Different bytes are different numbers. */
  lemma {:induction false} DecodeInjective(a: seq<u8>, b: seq<u8>)
    requires |a| == |b| && Decode(a) == Decode(b)
    ensures a == b
  {
    if a != [] {
      assert a[0] as nat == Decode(a) % 256 && b[0] as nat == Decode(b) % 256;
      DecodeInjective(a[1..], b[1..]);
      assert a == [a[0]] + a[1..] && b == [b[0]] + b[1..];
    }
  }

  /** The link at the start of a free buffer. */
  function LinkAt(mem: seq<u8>, k: nat): nat
    requires InArea(mem, k)
  {
    Decode(mem[Base(k)..Base(k) + LINK_SIZE])
  }

  // ---- Writing ----------------------------------------------------------------------

  /** The bytes of `data` that land in the area when written from `at` on. */
  function Landing(size: nat, at: nat, data: seq<u8>): (r: seq<u8>)
    requires at <= size
    ensures at + |r| <= size
  {
    if at + |data| <= size then data else data[..size - at]
  }

  /** Copy to the start of buffer `k`, without looking at its size. */
  function Put(mem: seq<u8>, k: nat, data: seq<u8>): (r: seq<u8>)
    requires InArea(mem, k)
    ensures |r| == |mem|
  {
    Splice(mem, Base(k), Landing(|mem|, Base(k), data))
  }

  function Buffer(mem: seq<u8>, k: nat): seq<u8>
    requires InArea(mem, k)
  {
    mem[Base(k)..Base(k) + RS_SNDLOWAT]
  }

  /** A datagram lies at the start of a buffer and does not leave it. */
  predicate HoldsAt(mem: seq<u8>, k: nat, frame: seq<u8>) {
    InArea(mem, k) && |frame| <= RS_SNDLOWAT && mem[Base(k)..Base(k) + |frame|] == frame
  }

  lemma BasesApart(j: nat, k: nat)
    requires 0 < j && 0 < k && j != k
    ensures Base(j) + RS_SNDLOWAT <= Base(k) || Base(k) + RS_SNDLOWAT <= Base(j)
  {
  }

  /** What fits a buffer is written there and changes no other buffer. */
  lemma PutStays(mem: seq<u8>, k: nat, data: seq<u8>, j: nat)
    requires InArea(mem, k) && |data| <= RS_SNDLOWAT
    ensures HoldsAt(Put(mem, k, data), k, data)
    ensures InArea(mem, j) && j != k ==> Buffer(Put(mem, k, data), j) == Buffer(mem, j)
  {
    if InArea(mem, j) && j != k { BasesApart(j, k); }
  }

  lemma SameBuffer(mem: seq<u8>, mem': seq<u8>, k: nat)
    requires InArea(mem, k) && |mem'| == |mem| && Buffer(mem', k) == Buffer(mem, k)
    ensures LinkAt(mem', k) == LinkAt(mem, k)
    ensures forall frame :: HoldsAt(mem, k, frame) ==> HoldsAt(mem', k, frame)
  {
    var b := Base(k);
    assert mem[b..b + LINK_SIZE] == Buffer(mem, k)[..LINK_SIZE];
    assert mem'[b..b + LINK_SIZE] == Buffer(mem', k)[..LINK_SIZE];
    forall frame | HoldsAt(mem, k, frame) ensures HoldsAt(mem', k, frame) {
      assert mem[b..b + |frame|] == Buffer(mem, k)[..|frame|];
      assert mem'[b..b + |frame|] == Buffer(mem', k)[..|frame|];
    }
  }

  lemma PutLink(mem: seq<u8>, k: nat, n: nat)
    requires InArea(mem, k) && Fits(n, LINK_SIZE)
    ensures LinkAt(Put(mem, k, Encode(n, LINK_SIZE)), k) == n
  {
    DecodeEncode(n, LINK_SIZE);
    var mem' := Put(mem, k, Encode(n, LINK_SIZE));
    assert mem'[Base(k)..Base(k) + LINK_SIZE] == Encode(n, LINK_SIZE);
  }

  lemma SmallFits(n: nat)
    requires n < 0x1_0000
    ensures Fits(n, LINK_SIZE)
  {
    assert n / 256 / 256 == 0;
    ZeroFits(6);
    assert Fits(n / 256, 7) && Fits(n / 256 / 256, 6);
  }

  lemma {:induction false} ZeroFits(w: nat)
    ensures Fits(0, w)
  {
    if w != 0 { ZeroFits(w - 1); }
  }

  lemma OtherLink(mem: seq<u8>, k: nat, data: seq<u8>, j: nat)
    requires InArea(mem, k) && InArea(mem, j) && j != k && |data| <= RS_SNDLOWAT
    ensures LinkAt(Put(mem, k, data), j) == LinkAt(mem, j)
  {
    PutStays(mem, k, data, j);
    SameBuffer(mem, Put(mem, k, data), j);
  }

  /** Writing one link sets that one and no other. */
  lemma LinksAfter(mem: seq<u8>, k: nat, n: nat, link: seq<u8>, j: nat)
    requires InArea(mem, k) && InArea(mem, j) && n < 0x1_0000 && link == Encode(n, LINK_SIZE)
    ensures LinkAt(Put(mem, k, link), j) == if j == k then n else LinkAt(mem, j)
  {
    SmallFits(n);
    if j == k { PutLink(mem, k, n); } else { OtherLink(mem, k, link, j); }
  }

  // ---- Datagrams that are too long ------------------------------------------------------

  /** A frame of `n` bytes that starts with the header, filled up with one byte. */
  function Filled(hdr: seq<u8>, n: nat, b: u8): (r: seq<u8>)
    ensures |r| == |hdr| + n
  {
    hdr + seq(n, _ => b)
  }

  /** One byte too many changes the first byte of the next buffer, and its link with it. */
  lemma SpillsOver(mem: seq<u8>, k: nat, hdr: seq<u8>, n: nat, b: u8)
    requires InArea(mem, k) && InArea(mem, k + 1) && |hdr| <= RS_SNDLOWAT < |hdr| + n
    requires b != mem[Base(k + 1)]
    ensures Put(mem, k, Filled(hdr, n, b))[Base(k + 1)] == b
    ensures LinkAt(Put(mem, k, Filled(hdr, n, b)), k + 1) != LinkAt(mem, k + 1)
  {
    var mem', c := Put(mem, k, Filled(hdr, n, b)), Base(k + 1);
    assert mem'[c] == Filled(hdr, n, b)[RS_SNDLOWAT] == b;
    var link, link' := mem[c..c + LINK_SIZE], mem'[c..c + LINK_SIZE];
    assert link'[0] != link[0];
    if Decode(link') == Decode(link) { DecodeInjective(link', link); }
  }

  lemma ZeroLink(mem: seq<u8>, k: nat)
    requires InArea(mem, k) && LinkAt(mem, k) == 0
    ensures mem[Base(k)] == 0
  {
    var link := mem[Base(k)..Base(k) + LINK_SIZE];
    assert link[0] as nat == Decode(link) % 256;
  }

  /** After a write to buffer `k`: the data is all there, and every other buffer is as before. */
  ghost predicate Contained(mem: seq<u8>, mem': seq<u8>, k: nat, data: seq<u8>) {
    && InArea(mem, k) && |mem'| == |mem| && Base(k) + |data| <= |mem|
    && mem'[Base(k)..Base(k) + |data|] == data
    && forall j: nat :: InArea(mem, j) && j != k ==> Buffer(mem', j) == Buffer(mem, j)
  }

  /** Whatever their contents, datagrams of `n` bytes stay in their buffer exactly when header
      and data together are no longer than the buffer. */
  lemma StaysInBufferIff(mem: seq<u8>, sq: nat, k: nat, hdr: seq<u8>, n: nat)
    requires |mem| == sq * RS_SNDLOWAT && 0 < k <= sq && |hdr| <= RS_SNDLOWAT
    ensures InArea(mem, k)
    ensures (forall data :: |data| == n ==> Contained(mem, Put(mem, k, hdr + data), k, hdr + data))
            <==> |hdr| + n <= RS_SNDLOWAT
  {
    if |hdr| + n <= RS_SNDLOWAT {
      forall data | |data| == n ensures Contained(mem, Put(mem, k, hdr + data), k, hdr + data) {
        forall j: nat { PutStays(mem, k, hdr + data, j); }
      }
    } else {
      OneSpills(mem, sq, k, hdr, n);
    }
  }

  lemma OneSpills(mem: seq<u8>, sq: nat, k: nat, hdr: seq<u8>, n: nat)
    requires |mem| == sq * RS_SNDLOWAT && 0 < k <= sq && |hdr| <= RS_SNDLOWAT < |hdr| + n
    ensures exists data :: |data| == n && !Contained(mem, Put(mem, k, hdr + data), k, hdr + data)
  {
    var b: u8 := if k < sq && mem[Base(k + 1)] == 0 then 1 else 0;
    var data := seq(n, _ => b);
    assert hdr + data == Filled(hdr, n, b);
    if k < sq {
      SpillsOver(mem, k, hdr, n, b);
      var mem' := Put(mem, k, hdr + data);
      assert Buffer(mem', k + 1)[0] == mem'[Base(k + 1)] && Buffer(mem, k + 1)[0] == mem[Base(k + 1)];
    }
    assert !Contained(mem, Put(mem, k, hdr + data), k, hdr + data);
  }
}

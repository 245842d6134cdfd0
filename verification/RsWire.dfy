/** What two rsockets exchange: the 32-bit message words, the work requests
    posted on a send queue, and where their bytes come from. */
module RsWire {
  import opened Memory
  import opened Wrappers

  const RS_OLAP_START_SIZE := 2048
  const RS_MAX_TRANSFER := 65536
  const RS_SNDLOWAT := 2048
  const RS_QP_MIN_SIZE := 16
  const RS_QP_MAX_SIZE := 0xFFFE
  const RS_QP_CTRL_SIZE := 4
  const RS_MAX_CTRL_MSG := 16
  const RS_MSG_SIZE := 4

  const U16 := 0x1_0000
  const U32 := 0x1_0000_0000
  const MSG_UNIT := 0x2000_0000

  // Message operations; values 1, 3 and 5 are reserved and treated as data.
  const OP_DATA := 0
  const OP_WRITE := 2
  const OP_SGL := 4
  const OP_IOMAP_SGL := 6
  const OP_CTRL := 7

  const CTRL_DISCONNECT := 0
  const CTRL_KEEPALIVE := 1
  const CTRL_SHUTDOWN := 2

  /** A message word: the operation in the top three bits, data below. */
  function MsgSet(op: nat, data: nat): nat
    requires op < 8 && data < MSG_UNIT
  {
    op * MSG_UNIT + data
  }

  function MsgOp(msg: nat): nat { msg / MSG_UNIT }

  function MsgData(msg: nat): nat { msg % MSG_UNIT }

  predicate IsDataOp(op: nat) {
    op != OP_WRITE && op != OP_SGL && op != OP_IOMAP_SGL && op != OP_CTRL
  }

  /** A message word fits 32 bits and decodes to what was encoded. */
  lemma MsgRoundTrip(op: nat, data: nat)
    requires op < 8 && data < MSG_UNIT
    ensures MsgSet(op, data) < U32
    ensures MsgOp(MsgSet(op, data)) == op
    ensures MsgData(MsgSet(op, data)) == data
  {
    assert MSG_UNIT == 0x2000_0000;
    assert (op * MSG_UNIT + data) / MSG_UNIT == op;
    assert (op * MSG_UNIT + data) % MSG_UNIT == data;
  }

  /** The word that announces `length` bytes of data. */
  function DataMsg(length: nat): (m: nat)
    requires length < MSG_UNIT
    ensures m < U32 && MsgOp(m) == OP_DATA && MsgData(m) == length
  {
    MsgRoundTrip(OP_DATA, length);
    MsgSet(OP_DATA, length)
  }

  /** The word that carries a credit count. */
  function CreditMsg(count: nat): (m: nat)
    requires count < MSG_UNIT
    ensures m < U32 && MsgOp(m) == OP_SGL && MsgData(m) == count
  {
    MsgRoundTrip(OP_SGL, count);
    MsgSet(OP_SGL, count)
  }

  /** The C cast to a signed 16-bit value. */
  function ToShort(v: int): int {
    var m := v % U16;
    if m < 0x8000 then m else m - U16
  }

  /** The C cast to a signed 32-bit value. */
  function ToInt32(v: int): int {
    var m := v % U32;
    if m < 0x8000_0000 then m else m - U32
  }

  /** A scatter entry: an offset into the owner's receive ring and a length. */
  datatype Sge = Sge(addr: nat, length: nat)

  /** Where the bytes of a data write come from. `first` bytes from `at` and
      `rest` bytes from the start of the send ring belong to the write; when
      the request is inline the bytes were captured at the post, otherwise the
      adapter gathers them from the send ring when the write is carried out. */
  datatype Source = Source(at: nat, first: nat, rest: nat, captured: Option<seq<u8>>) {
    function Len(): nat {
      if captured.Some? then |captured.value| else first + rest
    }
  }

  /** Where a granted scatter entry comes from. */
  datatype GrantSource = GrantInline(sge: Sge) | GrantCtrlBuf(slot: nat)

  datatype Payload =
    | NoPayload
    | ToRing(addr: nat, src: Source)
    | ToSgl(slot: nat, grant: GrantSource)

  /** A posted work request: what it writes to the peer's memory, the message
      (if any) that its arrival hands to the peer's completion queue, and the
      low word of its own work-request id. */
  datatype Wr = Wr(payload: Payload, msg: Option<nat>, wrData: nat)

  /** The send-ring position of byte `j` of a write placed at `src`. */
  function RingIndex(src: Source, j: nat): nat {
    if j < src.first then src.at + j else j - src.first
  }

  predicate SourceFits(src: Source, size: nat) {
    src.captured.None? ==> src.at + src.first <= size && src.rest <= size
  }

  /** The bytes the adapter reads for a data write. */
  function Gather(sbuf: seq<u8>, src: Source): (r: seq<u8>)
    requires SourceFits(src, |sbuf|)
    ensures |r| == src.Len()
  {
    if src.captured.Some? then src.captured.value
    else sbuf[src.at..src.at + src.first] + sbuf[..src.rest]
  }
}

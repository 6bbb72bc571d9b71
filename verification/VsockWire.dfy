/** The 44-byte virtio-vsock packet header (VIRTIO 1.1, section 5.10.6) as bytes. */
module VsockWire {
  import opened Words
  import opened VsockSpec

  const HDR_LEN: nat := 44
  const CID_HOST: u64 := 2
  const TYPE_STREAM: u16 := 1

  datatype Header = Header(
    srcCid: u64,
    dstCid: u64,
    srcPort: u32,
    dstPort: u32,
    len: u32,
    kind: u16,
    op: u16,
    flags: u32,
    bufAlloc: u32,
    fwdCnt: u32)

  function EncodeHeader(h: Header): (b: seq<byte>)
    ensures |b| == HDR_LEN
  {
    Le(h.srcCid, 8) + (Le(h.dstCid, 8) + (Le(h.srcPort, 4) + (Le(h.dstPort, 4) + (Le(h.len, 4) + Tail(h)))))
  }

  function Field(b: seq<byte>, c: nat, n: nat): (v: nat)
    requires c + n <= |b|
    ensures v < Pow256(n)
  {
    FromLeBound(b[c..c + n]);
    FromLe(b[c..c + n])
  }

  function DecodeHeader(b: seq<byte>): Header
    requires HDR_LEN <= |b|
  {
    Pow256Values();
    Header(Field(b, 0, 8), Field(b, 8, 8), Field(b, 16, 4), Field(b, 20, 4), Field(b, 24, 4), Field(b, 28, 2),
           Field(b, 30, 2), Field(b, 32, 4), Field(b, 36, 4), Field(b, 40, 4))
  }

  /** The last five fields. */
  function Tail(h: Header): (b: seq<byte>)
    ensures |b| == 16
  {
    Le(h.kind, 2) + (Le(h.op, 2) + (Le(h.flags, 4) + (Le(h.bufAlloc, 4) + Le(h.fwdCnt, 4))))
  }

  lemma FirstFields(b: seq<byte>, h: Header, tail: seq<byte>)
    requires Holds(b, 0, Le(h.srcCid, 8) + (Le(h.dstCid, 8) + (Le(h.srcPort, 4) + (Le(h.dstPort, 4)
                                                                                    + (Le(h.len, 4) + tail)))))
    ensures 28 <= |b| && Field(b, 0, 8) == h.srcCid && Field(b, 8, 8) == h.dstCid && Field(b, 16, 4) == h.srcPort
    ensures Field(b, 20, 4) == h.dstPort && Field(b, 24, 4) == h.len && Holds(b, 28, tail)
  {
    Pow256Values();
    var r4 := Le(h.len, 4) + tail;
    var r3 := Le(h.dstPort, 4) + r4;
    var r2 := Le(h.srcPort, 4) + r3;
    var r1 := Le(h.dstCid, 8) + r2;
    FieldBack(b, 0, h.srcCid, 8, r1);
    FieldBack(b, 8, h.dstCid, 8, r2);
    FieldBack(b, 16, h.srcPort, 4, r3);
    FieldBack(b, 20, h.dstPort, 4, r4);
    FieldBack(b, 24, h.len, 4, tail);
  }

  lemma LastFields(b: seq<byte>, h: Header)
    requires Holds(b, 28, Tail(h))
    ensures HDR_LEN <= |b| && Field(b, 28, 2) == h.kind && Field(b, 30, 2) == h.op && Field(b, 32, 4) == h.flags
    ensures Field(b, 36, 4) == h.bufAlloc && Field(b, 40, 4) == h.fwdCnt
  {
    Pow256Values();
    var r9 := Le(h.fwdCnt, 4);
    var r8 := Le(h.bufAlloc, 4) + r9;
    var r7 := Le(h.flags, 4) + r8;
    var r6 := Le(h.op, 2) + r7;
    FieldBack(b, 28, h.kind, 2, r6);
    FieldBack(b, 30, h.op, 2, r7);
    FieldBack(b, 32, h.flags, 4, r8);
    FieldBack(b, 36, h.bufAlloc, 4, r9);
    assert r9 + [] == r9;
    FieldBack(b, 40, h.fwdCnt, 4, []);
  }

  lemma HeaderRoundTrip(h: Header, payload: seq<byte>)
    ensures DecodeHeader(EncodeHeader(h) + payload) == h
  {
    var b := EncodeHeader(h) + payload;
    assert b[0..HDR_LEN] == EncodeHeader(h);
    FirstFields(b, h, Tail(h));
    LastFields(b, h);
  }

  /** The layout of section 5.10.6 of VIRTIO 1.1, field by field. */
  lemma HeaderLayout(h: Header)
    ensures var b := EncodeHeader(h);
            && |b| == 44 && b[0..8] == Le(h.srcCid, 8) && b[8..16] == Le(h.dstCid, 8)
            && b[16..20] == Le(h.srcPort, 4) && b[20..24] == Le(h.dstPort, 4) && b[24..28] == Le(h.len, 4)
            && b[28..30] == Le(h.kind, 2) && b[30..32] == Le(h.op, 2) && b[32..36] == Le(h.flags, 4)
            && b[36..40] == Le(h.bufAlloc, 4) && b[40..44] == Le(h.fwdCnt, 4)
  {
    var b, t := EncodeHeader(h), Tail(h);
    assert b[28..44] == t;
    assert t[0..2] == b[28..30] && t[2..4] == b[30..32] && t[4..8] == b[32..36] && t[8..12] == b[36..40]
        && t[12..16] == b[40..44];
  }

  /** The bytes of a packet for the guest: from CID 2, the host's port first, stream type 1, and no flags. */
  lemma GuestFrameBytes(p: Packet, cid: u64)
    requires |p.payload| < U32_SPAN
    ensures var b := ToGuest(p, cid);
            && |b| == 44 + |p.payload| && b[44..] == p.payload
            && b[0..8] == Le(2, 8) && b[8..16] == Le(cid, 8)
            && b[16..20] == Le(p.pair.hostPort, 4) && b[20..24] == Le(p.pair.guestPort, 4)
            && b[24..28] == Le(|p.payload|, 4) && b[28..30] == Le(1, 2) && b[30..32] == Le(p.op, 2)
            && b[32..36] == Le(0, 4) && b[36..40] == Le(p.bufAlloc, 4) && b[40..44] == Le(p.fwdCnt, 4)
  {
    var h := Header(CID_HOST, cid, p.pair.hostPort, p.pair.guestPort, |p.payload|, TYPE_STREAM, p.op, 0, p.bufAlloc,
                    p.fwdCnt);
    HeaderLayout(h);
    InPrefix(EncodeHeader(h), p.payload);
  }

  lemma InPrefix(a: seq<byte>, c: seq<byte>)
    requires |a| == 44
    ensures (a + c)[44..] == c
    ensures forall i, j | 0 <= i <= j <= 44 :: (a + c)[i..j] == a[i..j]
  {
  }

  /** The device takes any bytes that hold a header for CID 2, and reads each field from its place. */
  lemma ParsedBytes(b: seq<byte>)
    ensures Parse(b).Some? <==> 44 <= |b| && FromLe(b[8..16]) == 2
    ensures Parse(b).Some? ==>
              var p := Parse(b).value;
              && p.pair == Pair(FromLe(b[16..20]), FromLe(b[20..24])) && p.op == FromLe(b[30..32])
              && p.bufAlloc == FromLe(b[36..40]) && p.fwdCnt == FromLe(b[40..44])
              && p.payload == b[44..44 + Min(FromLe(b[24..28]), |b| - 44)]
  {
  }

  /** What the device makes of a guest packet: None if it is short or not addressed to the host; a length
      field larger than the packet is cut to what is there. */
  function Parse(b: seq<byte>): Option<Packet> {
    if |b| < HDR_LEN then None
    else
      var h := DecodeHeader(b);
      if h.dstCid != CID_HOST then None
      else Some(Packet(Pair(h.srcPort, h.dstPort), h.op, h.bufAlloc, h.fwdCnt,
                       b[HDR_LEN..HDR_LEN + Min(h.len, |b| - HDR_LEN)]))
  }

  /** A packet as the guest sends it to the host. */
  function FromGuest(p: Packet, cid: u64): seq<byte>
    requires |p.payload| < U32_SPAN
  {
    EncodeHeader(Header(cid, CID_HOST, p.pair.guestPort, p.pair.hostPort, |p.payload|, TYPE_STREAM, p.op, 0,
                        p.bufAlloc, p.fwdCnt)) + p.payload
  }

  /** A packet as the device queues it for the guest. */
  function ToGuest(p: Packet, cid: u64): seq<byte>
    requires |p.payload| < U32_SPAN
  {
    EncodeHeader(Header(CID_HOST, cid, p.pair.hostPort, p.pair.guestPort, |p.payload|, TYPE_STREAM, p.op, 0,
                        p.bufAlloc, p.fwdCnt)) + p.payload
  }

  /** The guest's reader, written from the header layout. */
  function ReadByGuest(b: seq<byte>): Option<Packet> {
    if |b| < HDR_LEN then None
    else
      var h := DecodeHeader(b);
      if h.srcCid != CID_HOST || HDR_LEN + h.len != |b| then None
      else Some(Packet(Pair(h.dstPort, h.srcPort), h.op, h.bufAlloc, h.fwdCnt, b[HDR_LEN..]))
  }

  /** Packets survive the trip in both directions. */
  lemma PacketRoundTrip(p: Packet, cid: u64)
    requires |p.payload| < U32_SPAN
    ensures Parse(FromGuest(p, cid)) == Some(p)
    ensures ReadByGuest(ToGuest(p, cid)) == Some(p)
  {
    var up := Header(cid, CID_HOST, p.pair.guestPort, p.pair.hostPort, |p.payload|, TYPE_STREAM, p.op, 0,
                     p.bufAlloc, p.fwdCnt);
    var down := Header(CID_HOST, cid, p.pair.hostPort, p.pair.guestPort, |p.payload|, TYPE_STREAM, p.op, 0,
                       p.bufAlloc, p.fwdCnt);
    HeaderRoundTrip(up, p.payload);
    HeaderRoundTrip(down, p.payload);
    PayloadBack(EncodeHeader(up), p.payload);
    PayloadBack(EncodeHeader(down), p.payload);
  }

  lemma PayloadBack(header: seq<byte>, payload: seq<byte>)
    ensures (header + payload)[|header|..|header| + |payload|] == payload == (header + payload)[|header|..]
  {
  }
}

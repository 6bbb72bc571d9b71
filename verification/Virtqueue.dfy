/** Split virtqueues (VIRTIO 1.1, section 2.6): descriptor chains, the used ring, and serving a notify. */
module Virtqueue {
  import opened Words
  import opened GuestMemory
  import opened RingIndex

  const QUEUE_MAX: nat := 256
  const MAX_DESC_LEN: nat := 0x100_0000

  datatype Buf = Buf(addr: u64, len: u32, writable: bool)

  datatype Queue = Queue(num: u32, ready: u32, desc: u64, avail: u64, used: u64, lastAvail: u16) {
    predicate Usable() { ready != 0 && 0 < num <= QUEUE_MAX }
  }

  function ReadU16(r: Ram, a: nat): u16 { Pow256Values(); ReadLe(r, a, 2) }

  function ReadU32(r: Ram, a: nat): u32 { Pow256Values(); ReadLe(r, a, 4) }

  function ReadU64(r: Ram, a: nat): u64 { Pow256Values(); ReadLe(r, a, 8) }

  // ---- descriptor chains ----

  function DescAt(desc: u64, i: u16): u64 { Plus(desc, 16 * i) }

  /** What every device may rely on in a buffer. */
  predicate Sound(r: Ram, b: Buf) { b.len <= MAX_DESC_LEN && (b.len == 0 || InRam(r, b.addr, b.len)) }

  /** Descriptor `i` as a buffer, its length trusted only up to 16 MiB and only inside RAM. */
  function BufAt(r: Ram, desc: u64, i: u16): (b: Buf)
    ensures Sound(r, b)
  {
    var d := DescAt(desc, i);
    var addr, len := ReadU64(r, d), Min(ReadU32(r, Plus(d, 8)), MAX_DESC_LEN);
    Buf(addr, if InRam(r, addr, len) then len else 0, ReadU16(r, Plus(d, 12)) / 2 % 2 == 1)
  }

  predicate HasNext(r: Ram, desc: u64, i: u16) { ReadU16(r, Plus(DescAt(desc, i), 12)) % 2 == 1 }

  function NextIndex(r: Ram, desc: u64, i: u16): u16 { ReadU16(r, Plus(DescAt(desc, i), 14)) }

  /** A descriptor as the device reads it, and the table of them. */
  datatype Node = Node(buf: Buf, more: bool, next: u16)

  function NodeAt(r: Ram, desc: u64, i: u16): Node {
    Node(BufAt(r, desc, i), HasNext(r, desc, i), NextIndex(r, desc, i))
  }

  function TableAt(r: Ram, desc: u64, qsz: u16): (t: seq<Node>)
    ensures |t| == qsz
  {
    seq(qsz, i requires 0 <= i < qsz => NodeAt(r, desc, i))
  }

  /** The buffers met from node `i` on, at most `limit`. */
  function Walk(t: seq<Node>, i: nat, limit: nat): (c: seq<Buf>)
    ensures |c| <= limit
    decreases limit
  {
    if limit == 0 || i >= |t| then []
    else [t[i].buf] + if t[i].more then Walk(t, t[i].next, limit - 1) else []
  }

  lemma {:induction false} WalkMeets(t: seq<Node>, i: nat, limit: nat, b: Buf)
    requires b in Walk(t, i, limit)
    ensures exists k :: 0 <= k < |t| && t[k].buf == b
    decreases limit
  {
    if b != t[i].buf { WalkMeets(t, t[i].next, limit - 1, b); }
  }

  /** The chain from descriptor `i`, at most `limit` buffers long, whatever the table holds. */
  function Chain(r: Ram, desc: u64, i: u16, qsz: u16, limit: nat): (c: seq<Buf>)
    ensures |c| <= limit && forall b | b in c :: Sound(r, b)
  {
    ChainSound(r, desc, i, qsz, limit);
    Walk(TableAt(r, desc, qsz), i, limit)
  }

  lemma ChainSound(r: Ram, desc: u64, i: u16, qsz: u16, limit: nat)
    ensures forall b | b in Walk(TableAt(r, desc, qsz), i, limit) :: Sound(r, b)
  {
    var t := TableAt(r, desc, qsz);
    forall b | b in Walk(t, i, limit) ensures Sound(r, b) {
      WalkMeets(t, i, limit, b);
      var k :| 0 <= k < |t| && t[k].buf == b;
      assert t[k] == NodeAt(r, desc, k);
    }
  }

  lemma ChainUnfolds(r: Ram, desc: u64, i: u16, qsz: u16, limit: nat)
    requires limit > 0 && i < qsz
    ensures Chain(r, desc, i, qsz, limit)
            == [BufAt(r, desc, i)]
               + if HasNext(r, desc, i) then Chain(r, desc, NextIndex(r, desc, i), qsz, limit - 1) else []
  {
    assert TableAt(r, desc, qsz)[i] == NodeAt(r, desc, i);
  }

  // ---- the rings ----

  function AvailIdx(r: Ram, q: Queue): u16 { ReadU16(r, Plus(q.avail, 2)) }

  function SlotAddr(q: Queue, slot: u16): u64 { Plus(q.avail, 4 + 2 * slot) }

  /** The head the device takes next. */
  function Head(r: Ram, q: Queue): u16
    requires q.Usable()
  {
    ReadU16(r, SlotAddr(q, Slot(q.lastAvail, q.num)))
  }

  function HeadChain(r: Ram, q: Queue): seq<Buf>
    requires q.Usable()
  {
    Chain(r, q.desc, Head(r, q), q.num, q.num)
  }

  function UsedIdx(r: Ram, q: Queue): u16 { ReadU16(r, Plus(q.used, 2)) }

  function ElemAddr(q: Queue, slot: u16): u64 { Plus(q.used, 4 + 8 * slot) }

  /** Publish one used element and bump the used index. */
  function PushUsed(r: Ram, q: Queue, id: u32, len: u32): Ram
    requires q.Usable()
  {
    var idx := UsedIdx(r, q);
    var elem := ElemAddr(q, Slot(idx, q.num));
    var r1 := WriteAt(r, elem, Le(id, 4));
    var r2 := WriteAt(r1, Plus(elem, 4), Le(len, 4));
    WriteAt(r2, Plus(q.used, 2), Le(Inc16(idx), 2))
  }

  function Advanced(q: Queue): Queue { q.(lastAvail := Inc16(q.lastAvail)) }

  /** Buffers the driver has made available and the device has not taken, as the 16-bit indices tell it. */
  function Pending(r: Ram, q: Queue): nat {
    if q.lastAvail <= AvailIdx(r, q) then AvailIdx(r, q) - q.lastAvail else AvailIdx(r, q) + U16_SPAN - q.lastAvail
  }

  // ---- regions a chain does not write ----

  /** No writable buffer touches `[a, a + n)`. */
  predicate ClearOf(bufs: seq<Buf>, a: int, n: nat) {
    forall k | 0 <= k < |bufs| && bufs[k].writable :: Apart(bufs[k].addr, bufs[k].len, a, n)
  }

  /** The places a device may write when it handles a chain: the writable buffers, and for the block device the
      status byte, which it stores at the last descriptor of a chain of two or more without looking at its flags. */
  function Touched(bufs: seq<Buf>, status: bool): seq<Buf> {
    if status && |bufs| >= 2 then bufs + [Buf(bufs[|bufs| - 1].addr, 1, true)] else bufs
  }

  // ---- serving a notify ----

  /** One chain handled by a device: RAM afterwards, and the byte count it reports. */
  datatype Handled = Handled(after: Ram, written: u32)

  /** Nothing was written outside the writable buffers. */
  ghost predicate Confined(r: Ram, w: Ram, bufs: seq<Buf>) {
    forall a: int, n: nat | ClearOf(bufs, a, n) :: Agree(r, w, a, n)
  }

  datatype Served = Served(ram: Ram, queue: Queue, ids: seq<int>)

  /** RAM, queue and published ids after the device has handled the chains of `trace`, in order. */
  function Serve(r: Ram, q: Queue, trace: seq<Handled>): Served
    requires q.Usable()
    decreases |trace|
  {
    if trace == [] then Served(r, q, [])
    else
      var id := Head(r, q);
      var rest := Serve(PushUsed(trace[0].after, q, id, trace[0].written), Advanced(q), trace[1..]);
      rest.(ids := [id] + rest.ids)
  }

  /** Every chain of the trace was handled within what its device may touch. */
  ghost predicate Behaved(r: Ram, q: Queue, trace: seq<Handled>, status: bool)
    requires q.Usable()
    decreases |trace|
  {
    trace != [] ==>
      && Confined(r, trace[0].after, Touched(HeadChain(r, q), status))
      && Behaved(PushUsed(trace[0].after, q, Head(r, q), trace[0].written), Advanced(q), trace[1..], status)
  }

  /** Some writable buffer covers address `a`. */
  predicate Covered(bufs: seq<Buf>, a: int) {
    exists k :: 0 <= k < |bufs| && bufs[k].writable && bufs[k].addr <= a < bufs[k].addr + bufs[k].len
  }

  /** A single byte stored at `a`, whatever it is, stays within the writable buffers of a chain if and only if one of
      them covers `a` or `a` is not in RAM at all. */
  lemma StoreConfinedIff(r: Ram, bufs: seq<Buf>, a: int)
    ensures (forall x: byte :: Confined(r, WriteAt(r, a, [x]), bufs)) <==> !InRam(r, a, 1) || Covered(bufs, a)
  {
    if InRam(r, a, 1) && !Covered(bufs, a) {
      var x: byte := if Slice(r, a, 1)[0] == 0 then 1 else 0;
      SliceWritten(r, a, [x]);
      assert ClearOf(bufs, a, 1) && !Agree(r, WriteAt(r, a, [x]), a, 1);
      assert !Confined(r, WriteAt(r, a, [x]), bufs);
    } else {
      forall x: byte, b: int, n: nat | ClearOf(bufs, b, n) ensures Agree(r, WriteAt(r, a, [x]), b, n) {
        if Apart(a, 1, b, n) { AgreeApart(r, a, [x], b, n); }
      }
    }
  }

  /** So the block device's status byte stays within the writable buffers of every chain of sound buffers whose last
      descriptor is writable and nonempty; read-only or empty, it may land anywhere in RAM. */
  lemma StatusConfined(r: Ram, bufs: seq<Buf>, x: byte)
    requires |bufs| >= 2 && bufs[|bufs| - 1].writable && bufs[|bufs| - 1].len > 0
    ensures Confined(r, WriteAt(r, bufs[|bufs| - 1].addr, [x]), bufs)
  {
    assert Covered(bufs, bufs[|bufs| - 1].addr);
    StoreConfinedIff(r, bufs, bufs[|bufs| - 1].addr);
  }

  /** The block device's own write is allowed to it and to no other, and only for a chain of two or more. */
  lemma StatusPlace(r: Ram, bufs: seq<Buf>, x: byte, status: bool)
    requires |bufs| >= 1
    ensures status && |bufs| >= 2 ==> Confined(r, WriteAt(r, bufs[|bufs| - 1].addr, [x]), Touched(bufs, status))
    ensures !status || |bufs| < 2 ==> Touched(bufs, status) == bufs
  {
    if status && |bufs| >= 2 {
      var t := Touched(bufs, status);
      assert t[|bufs|] == Buf(bufs[|bufs| - 1].addr, 1, true);
      assert Covered(t, bufs[|bufs| - 1].addr);
      StoreConfinedIff(r, t, bufs[|bufs| - 1].addr);
    }
  }

  // ---- the receive path ----

  function Capacity(bufs: seq<Buf>): nat {
    if bufs == [] then 0 else (if bufs[0].writable then bufs[0].len else 0) + Capacity(bufs[1..])
  }

  /** Spill a frame across the writable buffers of a chain. */
  function Scatter(r: Ram, bufs: seq<Buf>, data: seq<byte>): (Ram, nat)
    decreases |bufs|
  {
    if bufs == [] || data == [] then (r, 0)
    else if !bufs[0].writable then Scatter(r, bufs[1..], data)
    else
      var n := Min(bufs[0].len, |data|);
      var (w, m) := Scatter(WriteAt(r, bufs[0].addr, data[..n]), bufs[1..], data[n..]);
      (w, n + m)
  }

  /** The guest's reading: its writable buffers concatenated, up to the used length. */
  function Gather(r: Ram, bufs: seq<Buf>, n: nat): seq<byte>
    requires forall b | b in bufs :: Sound(r, b)
    decreases |bufs|
  {
    if bufs == [] then []
    else if !bufs[0].writable || bufs[0].len == 0 then Gather(r, bufs[1..], n)
    else
      assert Sound(r, bufs[0]);
      var k := Min(bufs[0].len, n);
      Slice(r, bufs[0].addr, k) + Gather(r, bufs[1..], n - k)
  }

  predicate Receivable(r: Ram, q: Queue) { q.Usable() && q.lastAvail != AvailIdx(r, q) }

  /** One frame delivered into the next posted chain, or None if there is none. */
  function Inject(r: Ram, q: Queue, data: seq<byte>): Option<(Ram, Queue)> {
    if !Receivable(r, q) then None
    else
      var (w, n) := Scatter(r, HeadChain(r, q), data);
      Some((PushUsed(w, q, Head(r, q), n % U32_SPAN), Advanced(q)))
  }

  /** Writable buffers do not overlap. */
  predicate WritablesApart(bufs: seq<Buf>) {
    forall i, j | 0 <= i < j < |bufs| && bufs[i].writable && bufs[j].writable ::
      Apart(bufs[i].addr, bufs[i].len, bufs[j].addr, bufs[j].len)
  }

  lemma {:induction false} ScatterKeeps(r: Ram, bufs: seq<Buf>, data: seq<byte>, a: int, n: nat)
    requires ClearOf(bufs, a, n)
    ensures Agree(r, Scatter(r, bufs, data).0, a, n)
    decreases |bufs|
  {
    if bufs != [] && data != [] {
      assert ClearOf(bufs[1..], a, n);
      if !bufs[0].writable {
        ScatterKeeps(r, bufs[1..], data, a, n);
      } else {
        var k := Min(bufs[0].len, |data|);
        var r1 := WriteAt(r, bufs[0].addr, data[..k]);
        AgreeApart(r, bufs[0].addr, data[..k], a, n);
        ScatterKeeps(r1, bufs[1..], data[k..], a, n);
        AgreeTrans(r, r1, Scatter(r1, bufs[1..], data[k..]).0, a, n);
      }
    }
  }

  lemma {:induction false} ScatterSize(r: Ram, bufs: seq<Buf>, data: seq<byte>)
    ensures Scatter(r, bufs, data).1 == Min(|data|, Capacity(bufs))
    ensures Scatter(r, bufs, data).0.base == r.base && |Scatter(r, bufs, data).0.bytes| == |r.bytes|
    decreases |bufs|
  {
    if bufs != [] && data != [] {
      if !bufs[0].writable {
        ScatterSize(r, bufs[1..], data);
      } else {
        var k := Min(bufs[0].len, |data|);
        ScatterSize(WriteAt(r, bufs[0].addr, data[..k]), bufs[1..], data[k..]);
      }
    }
  }

  /** A frame is recovered from its disjoint writable buffers: wholly if it fits, else its beginning. */
  lemma {:induction false} ScatterGather(r: Ram, bufs: seq<Buf>, data: seq<byte>)
    requires (forall b | b in bufs :: Sound(r, b)) && WritablesApart(bufs)
    ensures forall b | b in bufs :: Sound(Scatter(r, bufs, data).0, b)
    ensures var (w, n) := Scatter(r, bufs, data); n == Min(|data|, Capacity(bufs)) && Gather(w, bufs, n) == data[..n]
    decreases |bufs|
  {
    ScatterSize(r, bufs, data);
    var (w, n) := Scatter(r, bufs, data);
    if bufs != [] && data != [] {
      var rest, b := bufs[1..], bufs[0];
      assert forall c | c in rest :: c in bufs;
      assert WritablesApart(rest);
      if !b.writable {
        ScatterGather(r, rest, data);
      } else {
        var k := Min(b.len, |data|);
        var r1 := WriteAt(r, b.addr, data[..k]);
        ScatterGather(r1, rest, data[k..]);
        if b.len > 0 {
          assert Sound(r, b);
          SliceWritten(r, b.addr, data[..k]);
          assert ClearOf(rest, b.addr, k);
          ScatterKeeps(r1, rest, data[k..], b.addr, k);
          assert Slice(w, b.addr, k) == data[..k];
        }
        assert data[..n] == data[..k] + data[k..][..n - k];
      }
    } else if data == [] {
      GatherNothing(r, bufs);
    }
  }

  lemma {:induction false} GatherNothing(r: Ram, bufs: seq<Buf>)
    requires forall b | b in bufs :: Sound(r, b)
    ensures Gather(r, bufs, 0) == []
    decreases |bufs|
  {
    if bufs != [] { GatherNothing(r, bufs[1..]); }
  }
}

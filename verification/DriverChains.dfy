/** Descriptor chains as a driver lays them out (VIRTIO 1.1, section 2.6.5), and the device reading them back. */
module DriverChains {
  import opened Words
  import opened GuestMemory
  import opened RingIndex
  import opened Virtqueue
  import opened VirtqueueRuns

  /** One descriptor: a buffer, the flag bits that mean nothing here, and the next index, which only counts if another
      descriptor follows. */
  datatype Entry = Entry(addr: u64, len: u32, writable: bool, spare: nat, next: u16) {
    predicate Valid() { spare < 0x4000 }
  }

  /** Bit 0 of the flags says that another descriptor follows, bit 1 that the device may write. */
  function Flags(e: Entry, more: bool): (f: u16)
    requires e.Valid()
  {
    (if more then 1 else 0) + 2 * (if e.writable then 1 else 0) + 4 * e.spare
  }

  /** The sixteen bytes: address at 0, length at 8, flags at 12, next at 14. */
  function EntryBytes(e: Entry, more: bool): (b: seq<byte>)
    requires e.Valid()
    ensures |b| == 16
  {
    Le(e.addr, 8) + (Le(e.len, 4) + (Le(Flags(e, more), 2) + Le(e.next, 2)))
  }

  function EntryAddr(desc: nat, i: nat): nat { desc + 16 * i }

  /** The table at `desc` holds the chain `es`, its descriptors at the indices `at`. */
  predicate LaidOut(r: Ram, desc: nat, at: seq<u16>, es: seq<Entry>) {
    && |at| == |es|
    && (forall k | 0 <= k < |es| :: es[k].Valid() && InRam(r, EntryAddr(desc, at[k]), 16))
    && (forall k | 0 <= k < |es| :: Slice(r, EntryAddr(desc, at[k]), 16) == EntryBytes(es[k], k + 1 < |es|))
    && forall k | 0 <= k < |es| - 1 :: es[k].next == at[k + 1]
  }

  /** What a device may take a descriptor for: at most 16 MiB, and nothing if that is not all in RAM. */
  function Trusted(r: Ram, e: Entry): Buf {
    var len := if e.len <= 0x100_0000 then e.len else 0x100_0000;
    Buf(e.addr, if r.base <= e.addr && e.addr + len <= r.base + |r.bytes| then len else 0, e.writable)
  }

  function TrustedAll(r: Ram, es: seq<Entry>): (bs: seq<Buf>)
    ensures |bs| == |es|
  {
    seq(|es|, k requires 0 <= k < |es| => Trusted(r, es[k]))
  }

  // ---- one descriptor ----

  lemma PartOf(r: Ram, d: int, c: nat, n: nat)
    requires InRam(r, d, 16) && c + n <= 16
    ensures ReadLe(r, d + c, n) == FromLe(Slice(r, d, 16)[c..c + n])
  {
    assert Slice(r, d + c, n) == Slice(r, d, 16)[c..c + n];
  }

  lemma FieldsBack(e: Entry, more: bool)
    requires e.Valid()
    ensures var b := EntryBytes(e, more);
            && FromLe(b[0..8]) == e.addr && FromLe(b[8..12]) == e.len && FromLe(b[12..14]) == Flags(e, more)
            && FromLe(b[14..16]) == e.next
  {
    var b, f := EntryBytes(e, more), Flags(e, more);
    Pow256Values();
    assert Holds(b, 0, b) by { assert b[0..16] == b; }
    FieldBack(b, 0, e.addr, 8, Le(e.len, 4) + (Le(f, 2) + Le(e.next, 2)));
    FieldBack(b, 8, e.len, 4, Le(f, 2) + Le(e.next, 2));
    FieldBack(b, 12, f, 2, Le(e.next, 2));
    assert Le(e.next, 2) + [] == Le(e.next, 2);
    FieldBack(b, 14, e.next, 2, []);
  }

  lemma FlagBits(e: Entry, more: bool)
    requires e.Valid()
    ensures Flags(e, more) % 2 == (if more then 1 else 0) && Flags(e, more) / 2 % 2 == if e.writable then 1 else 0
  {
    LowTwo(if more then 1 else 0, if e.writable then 1 else 0, e.spare);
  }

  lemma LowTwo(a: nat, b: nat, s: nat)
    requires a < 2 && b < 2
    ensures (a + 2 * b + 4 * s) % 2 == a && (a + 2 * b + 4 * s) / 2 % 2 == b
  {
    assert (a + 2 * b + 4 * s) / 2 == b + 2 * s;
  }

  predicate EntryAt(r: Ram, desc: u64, i: u16, e: Entry, more: bool) {
    e.Valid() && InRam(r, EntryAddr(desc, i), 16) && Slice(r, EntryAddr(desc, i), 16) == EntryBytes(e, more)
  }

  lemma EntryRead(r: Ram, desc: u64, i: u16, e: Entry, more: bool)
    requires r.Valid() && EntryAt(r, desc, i, e, more)
    ensures BufAt(r, desc, i) == Trusted(r, e) && HasNext(r, desc, i) == more && NextIndex(r, desc, i) == e.next
  {
    var d := EntryAddr(desc, i);
    assert DescAt(desc, i) == d && Plus(d, 8) == d + 8 && Plus(d, 12) == d + 12 && Plus(d, 14) == d + 14;
    FieldsRead(r, d, e, more);
    FlagBits(e, more);
  }

  lemma FieldsRead(r: Ram, d: nat, e: Entry, more: bool)
    requires e.Valid() && InRam(r, d, 16) && Slice(r, d, 16) == EntryBytes(e, more)
    ensures ReadLe(r, d, 8) == e.addr && ReadLe(r, d + 8, 4) == e.len && ReadLe(r, d + 12, 2) == Flags(e, more)
    ensures ReadLe(r, d + 14, 2) == e.next
  {
    FieldsBack(e, more);
    PartOf(r, d, 0, 8);
    PartOf(r, d, 8, 4);
    PartOf(r, d, 12, 2);
    PartOf(r, d, 14, 2);
  }

  // ---- the chain ----

  /** Node `k` of a chain as it is linked. */
  predicate LinkedAt(t: seq<Node>, at: seq<u16>, bs: seq<Buf>, k: nat)
    requires k < |bs| == |at|
  {
    && at[k] < |t| && t[at[k]].buf == bs[k] && t[at[k]].more == (k + 1 < |bs|)
    && (k + 1 < |bs| ==> t[at[k]].next == at[k + 1])
  }

  /** The nodes at the indices `at` are `bs`, linked in that order. */
  predicate Linked(t: seq<Node>, at: seq<u16>, bs: seq<Buf>) {
    |at| == |bs| && forall k | 0 <= k < |bs| :: LinkedAt(t, at, bs, k)
  }

  lemma NodeRead(r: Ram, desc: u64, at: seq<u16>, es: seq<Entry>, qsz: u16, k: nat)
    requires r.Valid() && LaidOut(r, desc, at, es) && k < |es| && at[k] < qsz
    ensures LinkedAt(TableAt(r, desc, qsz), at, TrustedAll(r, es), k)
  {
    EntryRead(r, desc, at[k], es[k], k + 1 < |es|);
    assert TableAt(r, desc, qsz)[at[k]] == NodeAt(r, desc, at[k]);
  }

  lemma LaidOutLinked(r: Ram, desc: u64, at: seq<u16>, es: seq<Entry>, qsz: u16)
    requires r.Valid() && LaidOut(r, desc, at, es) && forall j | 0 <= j < |at| :: at[j] < qsz
    ensures Linked(TableAt(r, desc, qsz), at, TrustedAll(r, es))
  {
    forall k | 0 <= k < |es| ensures LinkedAt(TableAt(r, desc, qsz), at, TrustedAll(r, es), k) {
      NodeRead(r, desc, at, es, qsz, k);
    }
  }

  lemma {:induction false} WalkFrom(t: seq<Node>, at: seq<u16>, bs: seq<Buf>, k: nat, limit: nat)
    requires Linked(t, at, bs) && k < |bs|
    ensures Walk(t, at[k], limit) == bs[k..Min(|bs|, k + limit)]
    decreases limit
  {
    if limit > 0 {
      assert LinkedAt(t, at, bs, k);
      FirstAndRest(bs, k, Min(|bs|, k + limit));
      if k + 1 < |bs| { WalkFrom(t, at, bs, k + 1, limit - 1); }
    }
  }

  lemma FirstAndRest(s: seq<Buf>, k: nat, m: nat)
    requires k < m <= |s|
    ensures s[k..m] == [s[k]] + s[k + 1..m]
  {
  }

  /** The device walks exactly the chain the driver laid out, for every table, order of indices and flag bits: buffer by
      buffer the same address, direction and trusted length, in order, cut only at the queue size. */
  lemma ChainReadsBack(r: Ram, desc: u64, at: seq<u16>, es: seq<Entry>, qsz: u16)
    requires r.Valid() && LaidOut(r, desc, at, es) && es != [] && forall j | 0 <= j < |at| :: at[j] < qsz
    ensures Chain(r, desc, at[0], qsz, qsz) == TrustedAll(r, es)[..Min(|es|, qsz)]
  {
    LaidOutLinked(r, desc, at, es, qsz);
    WalkFrom(TableAt(r, desc, qsz), at, TrustedAll(r, es), 0, qsz);
  }

  /** So buffers in RAM and of no more than 16 MiB, no more of them than the queue holds, arrive as they are. */
  lemma ChainIsList(r: Ram, desc: u64, at: seq<u16>, es: seq<Entry>, qsz: u16)
    requires r.Valid() && LaidOut(r, desc, at, es) && 0 < |es| <= qsz && forall j | 0 <= j < |at| :: at[j] < qsz
    requires forall k | 0 <= k < |es| :: es[k].len <= 0x100_0000 && InRam(r, es[k].addr, es[k].len)
    ensures var c := Chain(r, desc, at[0], qsz, qsz);
            && |c| == |es|
            && forall k | 0 <= k < |es| :: c[k] == Buf(es[k].addr, es[k].len, es[k].writable)
  {
    ChainReadsBack(r, desc, at, es, qsz);
  }

  // ---- laying a chain out ----

  function Put(r: Ram, desc: nat, i: u16, e: Entry, more: bool): (w: Ram)
    requires e.Valid()
    ensures w.base == r.base && |w.bytes| == |r.bytes|
  {
    WriteAt(r, EntryAddr(desc, i), EntryBytes(e, more))
  }

  /** RAM after the driver has written the first `n` descriptors of a chain. */
  function Laid(r: Ram, desc: nat, at: seq<u16>, es: seq<Entry>, n: nat): (w: Ram)
    requires n <= |es| == |at| && forall k | 0 <= k < |es| :: es[k].Valid()
    ensures w.base == r.base && |w.bytes| == |r.bytes|
  {
    if n == 0 then r else Put(Laid(r, desc, at, es, n - 1), desc, at[n - 1], es[n - 1], n < |es|)
  }

  lemma {:induction false} LaidHolds(r: Ram, desc: nat, at: seq<u16>, es: seq<Entry>, n: nat, k: nat)
    requires k < n <= |es| == |at| && forall j | 0 <= j < |es| :: es[j].Valid() && InRam(r, EntryAddr(desc, at[j]), 16)
    requires forall i, j | 0 <= i < j < |at| :: at[i] != at[j]
    ensures InRam(Laid(r, desc, at, es, n), EntryAddr(desc, at[k]), 16)
    ensures Slice(Laid(r, desc, at, es, n), EntryAddr(desc, at[k]), 16) == EntryBytes(es[k], k + 1 < |es|)
    decreases n
  {
    var before, b := Laid(r, desc, at, es, n - 1), EntryBytes(es[n - 1], n < |es|);
    if k == n - 1 {
      SliceWritten(before, EntryAddr(desc, at[k]), b);
    } else {
      LaidHolds(r, desc, at, es, n - 1, k);
      AgreeApart(before, EntryAddr(desc, at[n - 1]), b, EntryAddr(desc, at[k]), 16);
    }
  }

  /** A driver that writes a chain at distinct indices has laid it out. */
  lemma LaysOut(r: Ram, desc: nat, at: seq<u16>, es: seq<Entry>)
    requires |at| == |es| && forall j | 0 <= j < |es| :: es[j].Valid() && InRam(r, EntryAddr(desc, at[j]), 16)
    requires forall i, j | 0 <= i < j < |at| :: at[i] != at[j]
    requires forall k | 0 <= k < |es| - 1 :: es[k].next == at[k + 1]
    ensures LaidOut(Laid(r, desc, at, es, |es|), desc, at, es)
  {
    forall k | 0 <= k < |es|
      ensures InRam(Laid(r, desc, at, es, |es|), EntryAddr(desc, at[k]), 16)
      ensures Slice(Laid(r, desc, at, es, |es|), EntryAddr(desc, at[k]), 16) == EntryBytes(es[k], k + 1 < |es|)
    {
      LaidHolds(r, desc, at, es, |es|, k);
    }
  }

  // ---- from the driver to the device ----

  lemma StaysLaidOut(r: Ram, w: Ram, desc: nat, at: seq<u16>, es: seq<Entry>)
    requires LaidOut(r, desc, at, es) && r.base == w.base && |r.bytes| == |w.bytes|
    requires forall k | 0 <= k < |at| :: Agree(r, w, EntryAddr(desc, at[k]), 16)
    ensures LaidOut(w, desc, at, es)
  {
    forall k | 0 <= k < |es| ensures Slice(w, EntryAddr(desc, at[k]), 16) == EntryBytes(es[k], k + 1 < |es|) {
      assert Agree(r, w, EntryAddr(desc, at[k]), 16);
    }
  }

  lemma PostLeavesTable(r: Ram, q: Queue, n: nat, h: u16, at: seq<u16>, es: seq<Entry>)
    requires Placed(r, q) && LaidOut(r, q.desc, at, es)
    requires forall k | 0 <= k < |at| :: Apart(EntryAddr(q.desc, at[k]), 16, q.avail, 4 + 2 * q.num)
    ensures LaidOut(PostTo(r, q, n, h), q.desc, at, es)
  {
    var w := PostTo(r, q, n, h);
    forall k | 0 <= k < |at| ensures Agree(r, w, EntryAddr(q.desc, at[k]), 16) {
      PostSpares(r, q, n, h, EntryAddr(q.desc, at[k]), 16);
    }
    StaysLaidOut(r, w, q.desc, at, es);
  }

  lemma SameTrust(r: Ram, w: Ram, es: seq<Entry>)
    requires r.base == w.base && |r.bytes| == |w.bytes|
    ensures TrustedAll(w, es) == TrustedAll(r, es)
  {
  }

  lemma PostedHead(v: Ring, h: u16)
    requires InStep(v) && |v.posted| == |v.published|
    ensures var w := PostTo(v.ram, v.queue, |v.posted|, h); w.Valid() && Head(w, v.queue) == h
  {
    PostKeeps(v, h);
    HeadIsNext(v.(ram := PostTo(v.ram, v.queue, |v.posted|, h), posted := v.posted + [h]));
  }

  /** A chain laid out off the available ring and posted on an idle queue, at any point of any run, is the one the
      device takes next. */
  lemma PostedIsTaken(v: Ring, at: seq<u16>, es: seq<Entry>)
    requires InStep(v) && |v.posted| == |v.published|
    requires LaidOut(v.ram, v.queue.desc, at, es) && es != [] && forall j | 0 <= j < |at| :: at[j] < v.queue.num
    requires forall k | 0 <= k < |at| :: Apart(EntryAddr(v.queue.desc, at[k]), 16, v.queue.avail, 4 + 2 * v.queue.num)
    ensures CanStep(v, Post(at[0]))
    ensures var w := Next(v, Post(at[0]));
            && w.queue == v.queue && Head(w.ram, w.queue) == at[0]
            && HeadChain(w.ram, w.queue) == TrustedAll(v.ram, es)[..Min(|es|, w.queue.num)]
  {
    var q, w := v.queue, PostTo(v.ram, v.queue, |v.posted|, at[0]);
    PostedHead(v, at[0]);
    PostLeavesTable(v.ram, q, |v.posted|, at[0], at, es);
    ChainReadsBack(w, q.desc, at, es, q.num);
    SameTrust(v.ram, w, es);
  }
}

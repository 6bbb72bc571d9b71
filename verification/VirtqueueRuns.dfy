/** Whole runs of a driver and a device over one split virtqueue. */
module VirtqueueRuns {
  import opened Words
  import opened GuestMemory
  import opened RingIndex
  import opened Virtqueue

  // ---- the rings in RAM ----

  function AvailLen(q: Queue): nat { 4 + 2 * q.num }

  function UsedLen(q: Queue): nat { 4 + 8 * q.num }

  /** The used ring lies in RAM. */
  predicate UsedPlaced(r: Ram, q: Queue) { r.Valid() && q.Usable() && InRam(r, q.used, UsedLen(q)) }

  /** Both rings lie in RAM and apart, and the queue size is a power of two. */
  predicate Placed(r: Ram, q: Queue) {
    && UsedPlaced(r, q) && Low16Divides(q.num)
    && InRam(r, q.avail, AvailLen(q))
    && Apart(q.avail, AvailLen(q), q.used, UsedLen(q))
  }

  predicate SameRings(r: Ram, w: Ram, q: Queue) {
    Agree(r, w, q.avail, AvailLen(q)) && Agree(r, w, q.used, UsedLen(q))
  }

  lemma AvailAddrs(r: Ram, q: Queue, slot: u16)
    requires Placed(r, q) && slot < q.num
    ensures SlotAddr(q, slot) == q.avail + 4 + 2 * slot && Plus(q.avail, 2) == q.avail + 2
  {
  }

  lemma AvailPart(r: Ram, w: Ram, q: Queue, slot: u16)
    requires Placed(r, q) && Agree(r, w, q.avail, AvailLen(q)) && slot < q.num
    ensures ReadU16(w, SlotAddr(q, slot)) == ReadU16(r, SlotAddr(q, slot)) && AvailIdx(w, q) == AvailIdx(r, q)
  {
    AvailAddrs(r, q, slot);
    AgreePart(r, w, q.avail, AvailLen(q), q.avail + 4 + 2 * slot, 2);
    AgreePart(r, w, q.avail, AvailLen(q), q.avail + 2, 2);
  }

  lemma UsedPart(r: Ram, w: Ram, q: Queue, slot: u16)
    requires UsedPlaced(r, q) && Agree(r, w, q.used, UsedLen(q)) && slot < q.num
    ensures ReadU32(w, ElemAddr(q, slot)) == ReadU32(r, ElemAddr(q, slot)) && UsedIdx(w, q) == UsedIdx(r, q)
  {
    UsedAddrs(r, q, slot);
    AgreePart(r, w, q.used, UsedLen(q), q.used + 4 + 8 * slot, 4);
    AgreePart(r, w, q.used, UsedLen(q), q.used + 2, 2);
  }

  lemma UsedAddrs(r: Ram, q: Queue, slot: u16)
    requires UsedPlaced(r, q) && slot < q.num
    ensures ElemAddr(q, slot) == q.used + 4 + 8 * slot
    ensures Plus(ElemAddr(q, slot), 4) == q.used + 8 + 8 * slot && Plus(q.used, 2) == q.used + 2
  {
  }

  lemma ReadPastThree(r: Ram, a: int, x: seq<byte>, b: int, y: seq<byte>, c: int, z: seq<byte>, at: int, n: nat)
    requires Apart(a, |x|, at, n) && Apart(b, |y|, at, n) && Apart(c, |z|, at, n)
    ensures ReadLe(WriteAt(WriteAt(WriteAt(r, a, x), b, y), c, z), at, n) == ReadLe(r, at, n)
  {
    ReadOther(r, a, x, at, n);
    ReadOther(WriteAt(r, a, x), b, y, at, n);
    ReadOther(WriteAt(WriteAt(r, a, x), b, y), c, z, at, n);
  }

  /** Publishing writes one element ... */
  lemma PushUsedOwn(r: Ram, q: Queue, id: u32, len: u32)
    requires UsedPlaced(r, q)
    ensures ReadU32(PushUsed(r, q, id, len), ElemAddr(q, Slot(UsedIdx(r, q), q.num))) == id
  {
    var slot, top := Slot(UsedIdx(r, q), q.num), Inc16(UsedIdx(r, q));
    UsedAddrs(r, q, slot);
    var e := q.used + 4 + 8 * slot;
    var r1 := WriteAt(r, e, Le(id, 4));
    var r2 := WriteAt(r1, e + 4, Le(len, 4));
    ReadOther(r2, q.used + 2, Le(top, 2), e, 4);
    ReadOther(r1, e + 4, Le(len, 4), e, 4);
    Pow256Values();
    ReadWritten(r, e, id, 4);
  }

  lemma PushUsedLength(r: Ram, q: Queue, id: u32, len: u32)
    requires UsedPlaced(r, q)
    ensures ReadU32(PushUsed(r, q, id, len), Plus(ElemAddr(q, Slot(UsedIdx(r, q), q.num)), 4)) == len
  {
    var slot, top := Slot(UsedIdx(r, q), q.num), Inc16(UsedIdx(r, q));
    UsedAddrs(r, q, slot);
    var e := q.used + 4 + 8 * slot;
    var r1 := WriteAt(r, e, Le(id, 4));
    ReadOther(WriteAt(r1, e + 4, Le(len, 4)), q.used + 2, Le(top, 2), e + 4, 4);
    Pow256Values();
    ReadWritten(r1, e + 4, len, 4);
  }

  lemma PushUsedOther(r: Ram, q: Queue, id: u32, len: u32, t: u16)
    requires UsedPlaced(r, q) && t < q.num && t != Slot(UsedIdx(r, q), q.num)
    ensures ReadU32(PushUsed(r, q, id, len), ElemAddr(q, t)) == ReadU32(r, ElemAddr(q, t))
  {
    var slot, top := Slot(UsedIdx(r, q), q.num), Inc16(UsedIdx(r, q));
    UsedAddrs(r, q, slot);
    UsedAddrs(r, q, t);
    var e := q.used + 4 + 8 * slot;
    ReadPastThree(r, e, Le(id, 4), e + 4, Le(len, 4), q.used + 2, Le(top, 2), q.used + 4 + 8 * t, 4);
  }

  /** ... bumps the used index ... */
  lemma PushUsedIndex(r: Ram, q: Queue, id: u32, len: u32)
    requires UsedPlaced(r, q)
    ensures UsedIdx(PushUsed(r, q, id, len), q) == Inc16(UsedIdx(r, q))
    ensures PushUsed(r, q, id, len).base == r.base && |PushUsed(r, q, id, len).bytes| == |r.bytes|
  {
    var slot := Slot(UsedIdx(r, q), q.num);
    UsedAddrs(r, q, slot);
    var r1 := WriteAt(r, q.used + 4 + 8 * slot, Le(id, 4));
    var r2 := WriteAt(r1, q.used + 8 + 8 * slot, Le(len, 4));
    Pow256Values();
    ReadWritten(r2, q.used + 2, Inc16(UsedIdx(r, q)), 2);
  }

  /** As the driver reads it: the id and byte count in the element of the old index, and the index one up. */
  lemma UsedElementWritten(r: Ram, q: Queue, id: u32, len: u32)
    requires UsedPlaced(r, q)
    ensures var idx, w := UsedIdx(r, q), PushUsed(r, q, id, len);
            && idx == ReadLe(r, q.used + 2, 2)
            && ReadLe(w, q.used + 4 + 8 * Slot(idx, q.num), 4) == id
            && ReadLe(w, q.used + 8 + 8 * Slot(idx, q.num), 4) == len
            && ReadLe(w, q.used + 2, 2) == (idx + 1) % 0x1_0000
  {
    UsedIdxAt(r, q);
    UsedIndexUp(r, q, id, len);
    var slot, w := Slot(UsedIdx(r, q), q.num), PushUsed(r, q, id, len);
    assert ReadLe(w, q.used + 4 + 8 * slot, 4) == id by {
      UsedAddrs(r, q, slot);
      PushUsedOwn(r, q, id, len);
    }
    assert ReadLe(w, q.used + 8 + 8 * slot, 4) == len by {
      UsedAddrs(r, q, slot);
      PushUsedLength(r, q, id, len);
    }
  }

  lemma UsedIndexUp(r: Ram, q: Queue, id: u32, len: u32)
    requires UsedPlaced(r, q)
    ensures ReadLe(PushUsed(r, q, id, len), q.used + 2, 2) == (UsedIdx(r, q) + 1) % 0x1_0000
  {
    PushUsedIndex(r, q, id, len);
    UsedIdxAt(PushUsed(r, q, id, len), q);
  }

  lemma UsedIdxAt(r: Ram, q: Queue)
    requires UsedPlaced(r, q)
    ensures ReadLe(r, q.used + 2, 2) == UsedIdx(r, q)
  {
    UsedAddrs(r, q, 0);
  }

  /** ... and touches nothing outside the used ring. */
  lemma PushUsedApart(r: Ram, q: Queue, id: u32, len: u32, at: int, n: nat)
    requires UsedPlaced(r, q) && Apart(at, n, q.used, UsedLen(q))
    ensures Agree(r, PushUsed(r, q, id, len), at, n)
  {
    var slot := Slot(UsedIdx(r, q), q.num);
    UsedAddrs(r, q, slot);
    var e, top := q.used + 4 + 8 * slot, Inc16(UsedIdx(r, q));
    Thrice(r, e, Le(id, 4), e + 4, Le(len, 4), q.used + 2, Le(top, 2), at, n);
  }

  lemma Twice(r: Ram, a: int, x: seq<byte>, b: int, y: seq<byte>, at: int, n: nat)
    requires Apart(a, |x|, at, n) && Apart(b, |y|, at, n)
    ensures Agree(r, WriteAt(WriteAt(r, a, x), b, y), at, n)
  {
    var r1 := WriteAt(r, a, x);
    AgreeApart(r, a, x, at, n);
    AgreeApart(r1, b, y, at, n);
    AgreeTrans(r, r1, WriteAt(r1, b, y), at, n);
  }

  /** A region apart from three writes keeps its bytes. */
  lemma Thrice(r: Ram, a: int, x: seq<byte>, b: int, y: seq<byte>, c: int, z: seq<byte>, at: int, n: nat)
    requires Apart(a, |x|, at, n) && Apart(b, |y|, at, n) && Apart(c, |z|, at, n)
    ensures Agree(r, WriteAt(WriteAt(WriteAt(r, a, x), b, y), c, z), at, n)
  {
    var r2 := WriteAt(WriteAt(r, a, x), b, y);
    Twice(r, a, x, b, y, at, n);
    AgreeApart(r2, c, z, at, n);
    AgreeTrans(r, r2, WriteAt(r2, c, z), at, n);
  }

  // ---- the rings as the driver and the device read them ----

  datatype View = View(availIdx: u16, slots: seq<int>, usedIdx: u16, elems: seq<int>)

  function ViewOf(r: Ram, q: Queue): (v: View)
    requires q.Usable()
    ensures |v.slots| == |v.elems| == q.num
  {
    View(AvailIdx(r, q), seq(q.num, t requires 0 <= t < q.num => ReadU16(r, SlotAddr(q, t))),
         UsedIdx(r, q), seq(q.num, t requires 0 <= t < q.num => ReadU32(r, ElemAddr(q, t))))
  }

  lemma SameView(r: Ram, w: Ram, q: Queue)
    requires Placed(r, q) && SameRings(r, w, q)
    ensures Placed(w, q) && ViewOf(w, q) == ViewOf(r, q)
  {
    AvailPart(r, w, q, 0);
    UsedPart(r, w, q, 0);
    var x, y := ViewOf(r, q), ViewOf(w, q);
    forall t | 0 <= t < q.num ensures y.slots[t] == x.slots[t] && y.elems[t] == x.elems[t] {
      AvailPart(r, w, q, t);
      UsedPart(r, w, q, t);
    }
    assert y.slots == x.slots && y.elems == x.elems;
  }

  function Published(x: View, num: nat, id: int): View
    requires |x.elems| == num > 0
  {
    x.(elems := x.elems[Slot(x.usedIdx, num) := id], usedIdx := Inc16(x.usedIdx))
  }

  lemma PushUsedView(r: Ram, q: Queue, id: u32, len: u32)
    requires Placed(r, q)
    ensures Placed(PushUsed(r, q, id, len), q)
    ensures ViewOf(PushUsed(r, q, id, len), q) == Published(ViewOf(r, q), q.num, id)
  {
    var w := PushUsed(r, q, id, len);
    PushUsedIndex(r, q, id, len);
    PushUsedApart(r, q, id, len, q.avail, AvailLen(q));
    AvailPart(r, w, q, 0);
    var x, y := Published(ViewOf(r, q), q.num, id), ViewOf(w, q);
    forall t | 0 <= t < q.num ensures y.slots[t] == x.slots[t] && y.elems[t] == x.elems[t] {
      AvailPart(r, w, q, t);
      if t == Slot(UsedIdx(r, q), q.num) { PushUsedOwn(r, q, id, len); } else { PushUsedOther(r, q, id, len, t); }
    }
    assert y.slots == x.slots && y.elems == x.elems;
  }

  /** RAM after the driver posts head `h` as its `n`-th: the slot, then the index at offset 2. */
  function PostTo(r: Ram, q: Queue, n: nat, h: u16): Ram
    requires q.Usable()
  {
    WriteAt(WriteAt(r, q.avail + 4 + 2 * Slot(n, q.num), Le(h, 2)), q.avail + 2, Le(Low16(n + 1), 2))
  }

  lemma PostSlot(r: Ram, q: Queue, n: nat, h: u16, t: u16)
    requires r.Valid() && q.Usable() && InRam(r, q.avail, AvailLen(q)) && t < q.num
    ensures ReadU16(PostTo(r, q, n, h), SlotAddr(q, t))
            == if t == Slot(n, q.num) then h else ReadU16(r, SlotAddr(q, t))
  {
    assert SlotAddr(q, t) == q.avail + 4 + 2 * t;
    PostSlotAt(r, q.avail, q.num, Slot(n, q.num), h, Low16(n + 1), t);
  }

  lemma PostSlotAt(r: Ram, avail: nat, num: nat, slot: nat, h: u16, idx: u16, t: nat)
    requires r.Valid() && InRam(r, avail, 4 + 2 * num) && t < num && slot < num
    ensures ReadLe(WriteAt(WriteAt(r, avail + 4 + 2 * slot, Le(h, 2)), avail + 2, Le(idx, 2)), avail + 4 + 2 * t, 2)
            == if t == slot then h else ReadLe(r, avail + 4 + 2 * t, 2)
  {
    SlotPastIndex(r, avail, avail + 4 + 2 * slot, avail + 4 + 2 * t, h, idx);
  }

  /** A slot, and then the index before the slots, written; another slot read. */
  lemma SlotPastIndex(r: Ram, avail: nat, a: nat, b: nat, h: u16, idx: u16)
    requires r.Valid() && InRam(r, a, 2) && InRam(r, b, 2) && (a == b || a + 2 <= b || b + 2 <= a) && avail + 4 <= b
    ensures ReadLe(WriteAt(WriteAt(r, a, Le(h, 2)), avail + 2, Le(idx, 2)), b, 2)
            == if a == b then h else ReadLe(r, b, 2)
  {
    var r1 := WriteAt(r, a, Le(h, 2));
    assert ReadLe(WriteAt(r1, avail + 2, Le(idx, 2)), b, 2) == ReadLe(r1, b, 2) by {
      ReadOther(r1, avail + 2, Le(idx, 2), b, 2);
    }
    OneSlot(r, a, b, h);
  }

  lemma OneSlot(r: Ram, a: nat, b: nat, h: u16)
    requires r.Valid() && InRam(r, a, 2) && InRam(r, b, 2) && (a == b || a + 2 <= b || b + 2 <= a)
    ensures ReadLe(WriteAt(r, a, Le(h, 2)), b, 2) == if a == b then h else ReadLe(r, b, 2)
  {
    if a == b {
      Pow256Values();
      ReadWritten(r, a, h, 2);
    } else {
      ReadOther(r, a, Le(h, 2), b, 2);
    }
  }

  lemma PostIndex(r: Ram, q: Queue, n: nat, h: u16)
    requires Placed(r, q)
    ensures AvailIdx(PostTo(r, q, n, h), q) == Low16(n + 1)
  {
    AvailAddrs(r, q, Slot(n, q.num));
    var r1 := WriteAt(r, q.avail + 4 + 2 * Slot(n, q.num), Le(h, 2));
    Pow256Values();
    ReadWritten(r1, q.avail + 2, Low16(n + 1), 2);
  }

  lemma PostElsewhere(r: Ram, q: Queue, n: nat, h: u16)
    requires Placed(r, q)
    ensures PostTo(r, q, n, h).base == r.base && |PostTo(r, q, n, h).bytes| == |r.bytes|
    ensures Agree(r, PostTo(r, q, n, h), q.used, UsedLen(q))
  {
    AvailAddrs(r, q, Slot(n, q.num));
    Twice(r, q.avail + 4 + 2 * Slot(n, q.num), Le(h, 2), q.avail + 2, Le(Low16(n + 1), 2), q.used, UsedLen(q));
  }

  function PostedView(x: View, num: nat, n: nat, h: int): View
    requires |x.slots| == num > 0
  {
    x.(slots := x.slots[Slot(n, num) := h], availIdx := Low16(n + 1))
  }

  lemma PostView(r: Ram, q: Queue, n: nat, h: u16)
    requires Placed(r, q)
    ensures Placed(PostTo(r, q, n, h), q)
    ensures ViewOf(PostTo(r, q, n, h), q) == PostedView(ViewOf(r, q), q.num, n, h)
  {
    var w := PostTo(r, q, n, h);
    PostIndex(r, q, n, h);
    PostElsewhere(r, q, n, h);
    UsedPart(r, w, q, 0);
    var x, y := PostedView(ViewOf(r, q), q.num, n, h), ViewOf(w, q);
    assert y.slots == x.slots by {
      forall t | 0 <= t < q.num ensures y.slots[t] == x.slots[t] { PostSlot(r, q, n, h, t); }
    }
    assert y.elems == x.elems by {
      forall t | 0 <= t < q.num ensures y.elems[t] == x.elems[t] { UsedPart(r, w, q, t); }
    }
  }

  // ---- what the rings say ----

  /** `posted` heads have been made available and `done` of them taken and published; the rings and the
      16-bit indices say so. */
  predicate Tracks(x: View, num: nat, last: u16, posted: seq<int>, done: nat) {
    && 0 < num <= QUEUE_MAX && |x.slots| == |x.elems| == num
    && done <= |posted| <= done + num
    && last == x.usedIdx == Low16(done) && x.availIdx == Low16(|posted|)
    && (forall u | done <= u < |posted| :: x.slots[Slot(u, num)] == posted[u])
    && (forall u | Max(0, done - num) <= u < done :: x.elems[Slot(u, num)] == posted[u])
  }

  lemma TracksPost(x: View, num: nat, last: u16, posted: seq<int>, done: nat, h: int)
    requires Tracks(x, num, last, posted, done) && |posted| - done < num
    ensures Tracks(PostedView(x, num, |posted|, h), num, last, posted + [h], done)
  {
    var y := PostedView(x, num, |posted|, h);
    forall u | done <= u < |posted| + 1 ensures y.slots[Slot(u, num)] == (posted + [h])[u] {
      if u < |posted| { SlotsDiffer(u, |posted|, num); }
    }
  }

  lemma TracksPublish(x: View, num: nat, last: u16, posted: seq<int>, done: nat)
    requires Tracks(x, num, last, posted, done) && done < |posted| && Low16Divides(num)
    ensures x.slots[Slot(last, num)] == posted[done]
    ensures Tracks(Published(x, num, posted[done]), num, Inc16(last), posted, done + 1)
  {
    SlotStable(done, num);
    SlotInc(done, U16_SPAN);
    var y := Published(x, num, posted[done]);
    forall u | Max(0, done + 1 - num) <= u < done + 1 ensures y.elems[Slot(u, num)] == posted[u] {
      if u < done { SlotsDiffer(u, done, num); }
    }
  }

  // ---- driver and device ----

  /** A received frame: the head and chain it was spilled into. */
  datatype Delivery = Delivery(head: int, bufs: seq<Buf>, data: seq<byte>)

  /** A queue in use: every head the driver ever posted, every id the device ever published and every frame it
      injected; `status` if its device is the block device. */
  datatype Ring = Ring(ram: Ram, queue: Queue, status: bool, posted: seq<int>, published: seq<int>, log: seq<Delivery>)

  datatype Step =
    | Post(head: u16)                   // the driver makes a chain available
    | GuestWrites(ram: Ram)             // the guest writes anywhere but the rings
    | Notify(trace: seq<Handled>)       // the device serves the queue
    | Deliver(data: seq<byte>)          // the device injects a received frame

  /** What may be written for a chain lies off both rings. */
  predicate OffRings(q: Queue, bufs: seq<Buf>) {
    ClearOf(bufs, q.avail, AvailLen(q)) && ClearOf(bufs, q.used, UsedLen(q))
  }

  predicate Avoids(r: Ram, q: Queue, trace: seq<Handled>, status: bool)
    requires q.Usable()
    decreases |trace|
  {
    trace != [] ==>
      && OffRings(q, Touched(HeadChain(r, q), status))
      && Avoids(PushUsed(trace[0].after, q, Head(r, q), trace[0].written), Advanced(q), trace[1..], status)
  }

  predicate InStep(v: Ring) {
    && Placed(v.ram, v.queue)
    && Tracks(ViewOf(v.ram, v.queue), v.queue.num, v.queue.lastAvail, v.posted, |v.published|)
    && v.published == v.posted[..|v.published|]
  }

  ghost predicate CanStep(v: Ring, e: Step)
    requires InStep(v)
  {
    match e
    case Post(_) => |v.posted| - |v.published| < v.queue.num
    case GuestWrites(w) => SameRings(v.ram, w, v.queue)
    case Notify(trace) =>
      && |trace| == Min(Pending(v.ram, v.queue), v.queue.num)
      && Behaved(v.ram, v.queue, trace, v.status) && Avoids(v.ram, v.queue, trace, v.status)
    case Deliver(_) => Receivable(v.ram, v.queue) && OffRings(v.queue, HeadChain(v.ram, v.queue))
  }

  function Next(v: Ring, e: Step): Ring
    requires v.queue.Usable()
  {
    match e
    case Post(h) => v.(ram := PostTo(v.ram, v.queue, |v.posted|, h), posted := v.posted + [h])
    case GuestWrites(w) => v.(ram := w)
    case Notify(trace) =>
      var s := Serve(v.ram, v.queue, trace);
      v.(ram := s.ram, queue := s.queue, published := v.published + s.ids)
    case Deliver(data) =>
      var bufs := HeadChain(v.ram, v.queue);
      var (w, n) := Scatter(v.ram, bufs, data);
      ServedOne(v, Handled(w, n % U32_SPAN)).(log := v.log + [Delivery(Head(v.ram, v.queue), bufs, data)])
  }

  lemma TakeOneMore(s: seq<int>, k: nat)
    requires k < |s|
    ensures s[..k + 1] == s[..k] + [s[k]]
  {
  }

  lemma TakeAll(s: seq<int>)
    ensures s[..|s|] == s
  {
  }

  lemma TakeOfLonger(s: seq<int>, x: int, k: nat)
    requires k <= |s|
    ensures (s + [x])[..k] == s[..k]
  {
  }

  /** How a ring in step is recognised from its view. */
  lemma Assemble(v: Ring, x: View)
    requires Placed(v.ram, v.queue) && ViewOf(v.ram, v.queue) == x
    requires Tracks(x, v.queue.num, v.queue.lastAvail, v.posted, |v.published|)
    requires v.published == v.posted[..|v.published|]
    ensures InStep(v)
  {
  }

  lemma PostKeeps(v: Ring, h: u16)
    requires InStep(v) && |v.posted| - |v.published| < v.queue.num
    ensures InStep(v.(ram := PostTo(v.ram, v.queue, |v.posted|, h), posted := v.posted + [h]))
  {
    var q, n, x := v.queue, |v.posted|, ViewOf(v.ram, v.queue);
    var w := PostTo(v.ram, q, n, h);
    PostView(v.ram, q, n, h);
    TracksPost(x, q.num, q.lastAvail, v.posted, |v.published|, h);
    TakeOfLonger(v.posted, h, |v.published|);
    Assemble(v.(ram := w, posted := v.posted + [h]), PostedView(x, q.num, n, h));
  }

  lemma HeadIsNext(v: Ring)
    requires InStep(v) && |v.published| < |v.posted|
    ensures Head(v.ram, v.queue) == v.posted[|v.published|]
  {
    var q, x := v.queue, ViewOf(v.ram, v.queue);
    TracksPublish(x, q.num, q.lastAvail, v.posted, |v.published|);
    assert x.slots[Slot(q.lastAvail, q.num)] == ReadU16(v.ram, SlotAddr(q, Slot(q.lastAvail, q.num)));
  }

  /** Publishing the next head in turn. */
  lemma PublishKeeps(v: Ring, id: u16, len: u32)
    requires InStep(v) && |v.published| < |v.posted| && id == v.posted[|v.published|]
    ensures InStep(v.(ram := PushUsed(v.ram, v.queue, id, len), queue := Advanced(v.queue),
                      published := v.published + [id]))
  {
    var q, done, x := v.queue, |v.published|, ViewOf(v.ram, v.queue);
    var w := PushUsed(v.ram, q, id, len);
    PushUsedView(v.ram, q, id, len);
    SameQueueView(w, q);
    TracksPublish(x, q.num, q.lastAvail, v.posted, done);
    TakeOneMore(v.posted, done);
    Assemble(v.(ram := w, queue := Advanced(q), published := v.published + [id]), Published(x, q.num, id));
  }

  lemma HandledKeeps(v: Ring, w: Ram)
    requires InStep(v) && SameRings(v.ram, w, v.queue)
    ensures InStep(v.(ram := w))
  {
    SameView(v.ram, w, v.queue);
  }

  lemma SameQueueView(r: Ram, q: Queue)
    requires Placed(r, q)
    ensures Placed(r, Advanced(q)) && ViewOf(r, Advanced(q)) == ViewOf(r, q)
  {
    var x, y := ViewOf(r, q), ViewOf(r, Advanced(q));
    assert x.slots == y.slots && x.elems == y.elems;
  }

  /** The ring once the first chain of a trace is served. */
  function ServedOne(v: Ring, h: Handled): Ring
    requires v.queue.Usable()
  {
    var id := Head(v.ram, v.queue);
    v.(ram := PushUsed(h.after, v.queue, id, h.written), queue := Advanced(v.queue), published := v.published + [id])
  }

  lemma ServeUnfolds(v: Ring, trace: seq<Handled>)
    requires v.queue.Usable() && trace != []
    ensures Next(v, Notify(trace)) == Next(ServedOne(v, trace[0]), Notify(trace[1..]))
  {
    var id, v1 := Head(v.ram, v.queue), ServedOne(v, trace[0]);
    var s := Serve(v1.ram, v1.queue, trace[1..]);
    assert v.published + ([id] + s.ids) == v.published + [id] + s.ids;
  }

  lemma ServeOneKeeps(v: Ring, h: Handled)
    requires InStep(v) && |v.published| < |v.posted| && SameRings(v.ram, h.after, v.queue)
    ensures InStep(ServedOne(v, h)) && |ServedOne(v, h).published| == |v.published| + 1
    ensures ServedOne(v, h).posted == v.posted
  {
    HeadIsNext(v);
    HandledKeeps(v, h.after);
    PublishKeeps(v.(ram := h.after), Head(v.ram, v.queue), h.written);
  }

  lemma {:induction false} ServeKeeps(v: Ring, trace: seq<Handled>)
    requires InStep(v) && |trace| <= |v.posted| - |v.published|
    requires Behaved(v.ram, v.queue, trace, v.status) && Avoids(v.ram, v.queue, trace, v.status)
    ensures InStep(Next(v, Notify(trace))) && Next(v, Notify(trace)).posted == v.posted
    ensures |Next(v, Notify(trace)).published| == |v.published| + |trace|
    decreases |trace|
  {
    if trace == [] {
      assert v.published + [] == v.published;
    } else {
      assert SameRings(v.ram, trace[0].after, v.queue);
      ServeOneKeeps(v, trace[0]);
      ServeKeeps(ServedOne(v, trace[0]), trace[1..]);
      ServeUnfolds(v, trace);
    }
  }

  lemma PendingIsPosted(v: Ring)
    requires InStep(v)
    ensures Pending(v.ram, v.queue) == |v.posted| - |v.published|
  {
    Low16Distance(|v.published|, |v.posted|);
  }

  lemma StepKeeps(v: Ring, e: Step)
    requires InStep(v) && CanStep(v, e)
    ensures InStep(Next(v, e))
    ensures e.Notify? ==> Next(v, e).published == Next(v, e).posted
  {
    match e {
      case Post(h) => PostKeeps(v, h);
      case GuestWrites(w) => HandledKeeps(v, w);
      case Notify(trace) =>
        PendingIsPosted(v);
        ServeKeeps(v, trace);
        TakeAll(v.posted);
      case Deliver(data) => DeliverKeeps(v, data);
    }
  }

  /** Injecting serves the next chain in turn, its frame the only thing written for it. */
  lemma DeliverKeeps(v: Ring, data: seq<byte>)
    requires InStep(v) && CanStep(v, Deliver(data))
    ensures InStep(Next(v, Deliver(data))) && |Next(v, Deliver(data)).published| == |v.published| + 1
    ensures |v.published| < |v.posted| && Head(v.ram, v.queue) == v.posted[|v.published|]
    ensures Inject(v.ram, v.queue, data) == Some((Next(v, Deliver(data)).ram, Next(v, Deliver(data)).queue))
  {
    PendingIsPosted(v);
    var bufs := HeadChain(v.ram, v.queue);
    ScatterKeeps(v.ram, bufs, data, v.queue.avail, AvailLen(v.queue));
    ScatterKeeps(v.ram, bufs, data, v.queue.used, UsedLen(v.queue));
    var (w, n) := Scatter(v.ram, bufs, data);
    HeadIsNext(v);
    ServeOneKeeps(v, Handled(w, n % U32_SPAN));
    LogIsNoRing(ServedOne(v, Handled(w, n % U32_SPAN)), v.log + [Delivery(Head(v.ram, v.queue), bufs, data)]);
  }

  lemma LogIsNoRing(v: Ring, log: seq<Delivery>)
    requires InStep(v)
    ensures InStep(v.(log := log))
  {
  }

  /** The queue after a run, or None if a step is not allowed. */
  ghost function After(v: Ring, es: seq<Step>): (r: Option<Ring>)
    requires InStep(v)
    ensures r.Some? ==> InStep(r.value)
    decreases |es|
  {
    if es == [] then Some(v)
    else
      var p := After(v, es[..|es| - 1]);
      if p.Some? && CanStep(p.value, es[|es| - 1]) then
        StepKeeps(p.value, es[|es| - 1]);
        Some(Next(p.value, es[|es| - 1]))
      else None
  }

  /** Heads posted over a run. */
  function Heads(es: seq<Step>): seq<int> {
    if es == [] then []
    else Heads(es[..|es| - 1]) + if es[|es| - 1].Post? then [es[|es| - 1].head] else []
  }

  lemma StepPosts(v: Ring, e: Step)
    requires v.queue.Usable()
    ensures Next(v, e).posted == v.posted + if e.Post? then [e.head] else []
  {
  }

  lemma {:induction false} RunPosts(v: Ring, es: seq<Step>)
    requires InStep(v) && After(v, es).Some?
    ensures After(v, es).value.posted == v.posted + Heads(es)
    decreases |es|
  {
    if es != [] {
      var p, e := After(v, es[..|es| - 1]).value, es[|es| - 1];
      RunPosts(v, es[..|es| - 1]);
      StepPosts(p, e);
      Regroup(v.posted, Heads(es[..|es| - 1]), if e.Post? then [e.head] else []);
    }
  }

  /** What a reader of the used ring finds: the index at offset 2, and from offset 4 the last `num` published ids. */
  predicate UsedRingHolds(v: Ring) {
    && v.queue.num > 0
    && ReadLe(v.ram, v.queue.used + 2, 2) == Low16(|v.published|)
    && forall u {:trigger v.published[u]} | Max(0, |v.published| - v.queue.num) <= u < |v.published| ::
         ReadLe(v.ram, v.queue.used + 4 + 8 * Slot(u, v.queue.num), 4) == v.published[u]
  }

  lemma RunEnds(v: Ring, es: seq<Step>)
    requires InStep(v) && After(v, es).Some? && es != [] && es[|es| - 1].Notify?
    ensures After(v, es).value.published == After(v, es).value.posted
  {
    StepKeeps(After(v, es[..|es| - 1]).value, es[|es| - 1]);
  }

  lemma UsedRingSays(v: Ring)
    requires InStep(v)
    ensures UsedRingHolds(v)
  {
    UsedIdxSays(v);
    UsedIdsSay(v);
  }

  lemma UsedIdsSay(v: Ring)
    requires InStep(v)
    ensures forall u {:trigger v.published[u]} | Max(0, |v.published| - v.queue.num) <= u < |v.published| ::
              ReadLe(v.ram, v.queue.used + 4 + 8 * Slot(u, v.queue.num), 4) == v.published[u]
  {
    forall u | Max(0, |v.published| - v.queue.num) <= u < |v.published|
      ensures ReadLe(v.ram, v.queue.used + 4 + 8 * Slot(u, v.queue.num), 4) == v.published[u]
    {
      UsedIdIs(v, u);
    }
  }

  lemma UsedIdxSays(v: Ring)
    requires InStep(v)
    ensures ReadLe(v.ram, v.queue.used + 2, 2) == Low16(|v.published|)
  {
    UsedIdxAt(v.ram, v.queue);
    assert ViewOf(v.ram, v.queue).usedIdx == UsedIdx(v.ram, v.queue);
  }

  lemma UsedIdIs(v: Ring, u: nat)
    requires InStep(v) && |v.published| - v.queue.num <= u < |v.published|
    ensures ReadLe(v.ram, v.queue.used + 4 + 8 * Slot(u, v.queue.num), 4) == v.published[u]
  {
    var x, q := ViewOf(v.ram, v.queue), v.queue;
    UsedAddrs(v.ram, q, Slot(u, q.num));
    assert x.elems[Slot(u, q.num)] == v.posted[u] == v.published[u];
    assert x.elems[Slot(u, q.num)] == ReadU32(v.ram, ElemAddr(q, Slot(u, q.num)));
  }

  /** Over any run, across any number of index wraps: the ids published are the posted heads, each once and in
      order; after a notify, all of them. The last `num` are what a reader of the used ring finds. */
  lemma {:induction false} PublishedInOrder(v: Ring, es: seq<Step>)
    requires InStep(v) && After(v, es).Some?
    ensures var w := After(v, es).value;
            && w.posted == v.posted + Heads(es)
            && w.published == w.posted[..|w.published|]
            && (es != [] && es[|es| - 1].Notify? ==> w.published == w.posted)
            && UsedRingHolds(w)
  {
    RunPosts(v, es);
    UsedRingSays(After(v, es).value);
    if es != [] && es[|es| - 1].Notify? { RunEnds(v, es); }
  }

  /** A queue just made ready: both ring indices and the device's own are zero and nothing has happened yet. */
  predicate JustReady(v: Ring) {
    && Placed(v.ram, v.queue) && v.queue.lastAvail == 0
    && AvailIdx(v.ram, v.queue) == 0 && UsedIdx(v.ram, v.queue) == 0
    && v.posted == [] && v.published == [] && v.log == []
  }

  lemma JustReadyInStep(v: Ring)
    requires JustReady(v)
    ensures InStep(v)
  {
    assert Tracks(ViewOf(v.ram, v.queue), v.queue.num, 0, [], 0);
  }

  /** So, from a queue just made ready: the heads posted are the driver's, and what has been published is a prefix of
      them, all of them after a notify. */
  lemma {:induction false} PublishedFromReady(v: Ring, es: seq<Step>)
    requires JustReady(v)
    ensures InStep(v)
    ensures After(v, es).Some? ==>
              var w := After(v, es).value;
              && w.posted == Heads(es)
              && w.published == Heads(es)[..|w.published|]
              && (es != [] && es[|es| - 1].Notify? ==> w.published == Heads(es))
              && UsedRingHolds(w)
  {
    JustReadyInStep(v);
    if After(v, es).Some? {
      PublishedInOrder(v, es);
      assert v.posted + Heads(es) == Heads(es);
    }
  }

  /** At any point of any run, across index wraps, the device sees a buffer to take exactly if one was posted and not
      yet published. */
  lemma ReceivableIff(v: Ring)
    requires InStep(v)
    ensures Receivable(v.ram, v.queue) <==> |v.published| < |v.posted|
  {
    assert ViewOf(v.ram, v.queue).availIdx == AvailIdx(v.ram, v.queue);
    Low16Distance(|v.published|, |v.posted|);
  }

  // ---- the receive path ----

  /** A frame that fits is read back whole by the guest once published; a larger one is cut to the chain. */
  lemma InjectDelivers(r: Ram, q: Queue, data: seq<byte>)
    requires UsedPlaced(r, q) && Receivable(r, q)
    requires WritablesApart(HeadChain(r, q)) && ClearOf(HeadChain(r, q), q.used, UsedLen(q))
    ensures var (w, q1) := Inject(r, q, data).value;
            var n := Min(|data|, Capacity(HeadChain(r, q)));
            && (forall b | b in HeadChain(r, q) :: Sound(w, b))
            && Gather(w, HeadChain(r, q), n) == data[..n]
            && q1.lastAvail == Inc16(q.lastAvail)
            && UsedIdx(w, q) == Inc16(UsedIdx(r, q))
            && ReadU32(w, ElemAddr(q, Slot(UsedIdx(r, q), q.num))) == Head(r, q)
            && ReadU32(w, Plus(ElemAddr(q, Slot(UsedIdx(r, q), q.num)), 4)) == n % U32_SPAN
  {
    var bufs := HeadChain(r, q);
    var (w, n) := Scatter(r, bufs, data);
    ScatterGather(r, bufs, data);
    ScatterKeeps(r, bufs, data, q.used, UsedLen(q));
    UsedPart(r, w, q, 0);
    PushUsedIndex(w, q, Head(r, q), n % U32_SPAN);
    PushUsedOwn(w, q, Head(r, q), n % U32_SPAN);
    PushUsedLength(w, q, Head(r, q), n % U32_SPAN);
    var w1 := PushUsed(w, q, Head(r, q), n % U32_SPAN);
    forall k | 0 <= k < |bufs| && bufs[k].writable ensures Agree(w, w1, bufs[k].addr, bufs[k].len) {
      PushUsedApart(w, q, Head(r, q), n % U32_SPAN, bufs[k].addr, bufs[k].len);
    }
    GatherAgrees(w, w1, bufs, n);
  }

  lemma SameSound(r: Ram, w: Ram, bufs: seq<Buf>)
    requires (forall b | b in bufs :: Sound(r, b)) && r.base == w.base && |r.bytes| == |w.bytes|
    ensures forall b | b in bufs :: Sound(w, b)
  {
    forall b | b in bufs ensures Sound(w, b) { assert Sound(r, b); }
  }

  lemma RestAgrees(r: Ram, w: Ram, bufs: seq<Buf>)
    requires bufs != [] && forall b | b in bufs :: Sound(r, b)
    requires forall k | 0 <= k < |bufs| && bufs[k].writable :: Agree(r, w, bufs[k].addr, bufs[k].len)
    ensures forall b | b in bufs[1..] :: Sound(r, b)
    ensures forall k | 0 <= k < |bufs[1..]| && bufs[1..][k].writable :: Agree(r, w, bufs[1..][k].addr, bufs[1..][k].len)
  {
    var rest := bufs[1..];
    assert forall b | b in rest :: b in bufs;
    assert forall k | 0 <= k < |rest| :: rest[k] == bufs[k + 1];
  }

  lemma {:induction false} GatherAgrees(r: Ram, w: Ram, bufs: seq<Buf>, n: nat)
    requires (forall b | b in bufs :: Sound(r, b)) && r.base == w.base && |r.bytes| == |w.bytes|
    requires forall k | 0 <= k < |bufs| && bufs[k].writable :: Agree(r, w, bufs[k].addr, bufs[k].len)
    ensures (forall b | b in bufs :: Sound(w, b)) && Gather(w, bufs, n) == Gather(r, bufs, n)
    decreases |bufs|
  {
    SameSound(r, w, bufs);
    if bufs != [] {
      var b := bufs[0];
      RestAgrees(r, w, bufs);
      if b.writable && b.len > 0 {
        var k := Min(b.len, n);
        GatherAgrees(r, w, bufs[1..], n - k);
        assert Sound(r, b);
        AgreePart(r, w, b.addr, b.len, b.addr, k);
      } else {
        GatherAgrees(r, w, bufs[1..], n);
      }
    }
  }

  // ---- received frames over whole runs ----

  /** The frames injected over a run. */
  function Frames(es: seq<Step>): seq<seq<byte>> {
    if es == [] then []
    else Frames(es[..|es| - 1]) + if es[|es| - 1].Deliver? then [es[|es| - 1].data] else []
  }

  /** A receive queue is never served by a notify. */
  predicate ReceiveOnly(es: seq<Step>) { forall k | 0 <= k < |es| :: !es[k].Notify? }

  /** The log is the published ids, each with its frame. */
  predicate LogFollows(v: Ring, frames: seq<seq<byte>>) {
    && |v.log| == |v.published| == |frames|
    && forall k | 0 <= k < |v.log| :: v.log[k].head == v.published[k] && v.log[k].data == frames[k]
  }

  lemma LogGrows(v: Ring, frames: seq<seq<byte>>, data: seq<byte>)
    requires LogFollows(v, frames) && v.queue.Usable()
    ensures LogFollows(Next(v, Deliver(data)), frames + [data])
  {
  }

  lemma LogWaits(v: Ring, frames: seq<seq<byte>>, e: Step)
    requires LogFollows(v, frames) && v.queue.Usable() && (e.Post? || e.GuestWrites?)
    ensures LogFollows(Next(v, e), frames)
  {
  }

  lemma {:induction false} RunLogs(v: Ring, es: seq<Step>)
    requires InStep(v) && v.published == [] && v.log == [] && ReceiveOnly(es) && After(v, es).Some?
    ensures LogFollows(After(v, es).value, Frames(es))
    decreases |es|
  {
    if es != [] {
      var front, e := es[..|es| - 1], es[|es| - 1];
      assert forall k | 0 <= k < |front| :: front[k] == es[k];
      RunLogs(v, front);
      var p := After(v, front).value;
      if e.Deliver? {
        LogGrows(p, Frames(front), e.data);
      } else {
        LogWaits(p, Frames(front), e);
        assert Frames(front) + [] == Frames(front);
      }
    }
  }

  /** Over any run of posts, guest writes and injections on a fresh queue, across index wraps: the k-th frame went into
      the chain at the k-th posted head, and the used ring lists those heads in order. */
  lemma {:induction false} DeliveredInOrder(v: Ring, es: seq<Step>)
    requires InStep(v) && v.published == [] && v.log == [] && ReceiveOnly(es) && After(v, es).Some?
    ensures var w := After(v, es).value;
            && LogFollows(w, Frames(es)) && UsedRingHolds(w)
            && (forall k | 0 <= k < |w.log| :: k < |w.posted| && w.log[k].head == w.posted[k])
  {
    RunLogs(v, es);
    UsedRingSays(After(v, es).value);
  }

  /** A receive queue just made ready is where that starts. */
  lemma {:induction false} DeliveredFromReady(v: Ring, es: seq<Step>)
    requires JustReady(v) && ReceiveOnly(es)
    ensures InStep(v)
    ensures After(v, es).Some? ==>
              var w := After(v, es).value;
              && LogFollows(w, Frames(es)) && UsedRingHolds(w)
              && (forall k | 0 <= k < |w.log| :: k < |Heads(es)| && w.log[k].head == Heads(es)[k])
  {
    JustReadyInStep(v);
    if After(v, es).Some? {
      DeliveredInOrder(v, es);
      PublishedFromReady(v, es);
    }
  }

  /** The guest can read the frame back from its chain: whole, or its beginning if the chain was too small. */
  predicate Readable(r: Ram, d: Delivery) {
    && (forall b | b in d.bufs :: Sound(r, b))
    && var n := Min(|d.data|, Capacity(d.bufs)); Gather(r, d.bufs, n) == d.data[..n]
  }

  /** A step that leaves the writable buffers of a chain to their owner. */
  ghost predicate Spares(v: Ring, e: Step, bufs: seq<Buf>)
    requires InStep(v)
  {
    forall k | 0 <= k < |bufs| && bufs[k].writable ::
      && Apart(bufs[k].addr, bufs[k].len, v.queue.avail, AvailLen(v.queue))
      && Apart(bufs[k].addr, bufs[k].len, v.queue.used, UsedLen(v.queue))
      && match e
         case Post(_) => true
         case GuestWrites(w) => Agree(v.ram, w, bufs[k].addr, bufs[k].len)
         case Notify(_) => false
         case Deliver(_) => ClearOf(HeadChain(v.ram, v.queue), bufs[k].addr, bufs[k].len)
  }

  lemma PostSpares(r: Ram, q: Queue, n: nat, h: u16, at: int, len: nat)
    requires Placed(r, q) && Apart(at, len, q.avail, AvailLen(q))
    ensures Agree(r, PostTo(r, q, n, h), at, len)
  {
    var slot := Slot(n, q.num);
    assert slot < q.num;
    Twice(r, q.avail + 4 + 2 * slot, Le(h, 2), q.avail + 2, Le(Low16(n + 1), 2), at, len);
  }

  lemma InjectSpares(r: Ram, q: Queue, data: seq<byte>, at: int, len: nat)
    requires UsedPlaced(r, q) && Receivable(r, q)
    requires ClearOf(HeadChain(r, q), at, len) && Apart(at, len, q.used, UsedLen(q))
    ensures Agree(r, Inject(r, q, data).value.0, at, len)
  {
    var (w, n) := Scatter(r, HeadChain(r, q), data);
    ScatterKeeps(r, HeadChain(r, q), data, at, len);
    ScatterSize(r, HeadChain(r, q), data);
    PushUsedApart(w, q, Head(r, q), n % U32_SPAN, at, len);
    AgreeTrans(r, w, Inject(r, q, data).value.0, at, len);
  }

  /** A step keeps the bytes of a region it spares. */
  lemma SparedRegion(v: Ring, e: Step, at: int, len: nat)
    requires InStep(v) && CanStep(v, e) && !e.Notify?
    requires Apart(at, len, v.queue.avail, AvailLen(v.queue)) && Apart(at, len, v.queue.used, UsedLen(v.queue))
    requires e.GuestWrites? ==> Agree(v.ram, e.ram, at, len)
    requires e.Deliver? ==> ClearOf(HeadChain(v.ram, v.queue), at, len)
    ensures Agree(v.ram, Next(v, e).ram, at, len)
  {
    match e
    case Post(h) => PostSpares(v.ram, v.queue, |v.posted|, h, at, len);
    case GuestWrites(_) =>
    case Deliver(data) =>
      DeliverKeeps(v, data);
      InjectSpares(v.ram, v.queue, data, at, len);
  }

  lemma SparedFrame(v: Ring, e: Step, d: Delivery)
    requires InStep(v) && CanStep(v, e) && Spares(v, e, d.bufs) && !e.Notify? && Readable(v.ram, d)
    ensures Readable(Next(v, e).ram, d)
  {
    var r, w := v.ram, Next(v, e).ram;
    SameExtent(v, e);
    forall k | 0 <= k < |d.bufs| && d.bufs[k].writable ensures Agree(r, w, d.bufs[k].addr, d.bufs[k].len) {
      SparedRegion(v, e, d.bufs[k].addr, d.bufs[k].len);
    }
    GatherAgrees(r, w, d.bufs, Min(|d.data|, Capacity(d.bufs)));
  }

  lemma SameExtent(v: Ring, e: Step)
    requires InStep(v) && CanStep(v, e) && !e.Notify?
    ensures v.ram.base == Next(v, e).ram.base && |v.ram.bytes| == |Next(v, e).ram.bytes|
  {
    match e
    case Post(h) => PostElsewhere(v.ram, v.queue, |v.posted|, h);
    case GuestWrites(w) => assert Agree(v.ram, w, v.queue.used, UsedLen(v.queue));
    case Deliver(data) =>
      DeliverKeeps(v, data);
      InjectExtent(v.ram, v.queue, data);
  }

  lemma InjectExtent(r: Ram, q: Queue, data: seq<byte>)
    requires UsedPlaced(r, q) && Receivable(r, q)
    ensures Inject(r, q, data).value.0.base == r.base && |Inject(r, q, data).value.0.bytes| == |r.bytes|
  {
    var (w, n) := Scatter(r, HeadChain(r, q), data);
    ScatterSize(r, HeadChain(r, q), data);
    PushUsedIndex(w, q, Head(r, q), n % U32_SPAN);
  }

  /** Every step of the run spares the chain. */
  ghost predicate Sparing(v: Ring, es: seq<Step>, bufs: seq<Buf>)
    requires InStep(v) && After(v, es).Some?
    decreases |es|
  {
    es != [] ==>
      && Sparing(v, es[..|es| - 1], bufs)
      && !es[|es| - 1].Notify? && Spares(After(v, es[..|es| - 1]).value, es[|es| - 1], bufs)
  }

  /** An injected frame is readable at once, and stays readable over any run whose steps spare its chain. */
  lemma {:induction false} FrameStays(v: Ring, data: seq<byte>, es: seq<Step>)
    requires InStep(v) && CanStep(v, Deliver(data)) && WritablesApart(HeadChain(v.ram, v.queue))
    ensures var d := Delivery(Head(v.ram, v.queue), HeadChain(v.ram, v.queue), data);
            var w := Next(v, Deliver(data));
            && InStep(w) && w.log == v.log + [d] && Readable(w.ram, d)
            && (After(w, es).Some? && Sparing(w, es, d.bufs) ==> Readable(After(w, es).value.ram, d))
    decreases |es|
  {
    DeliverKeeps(v, data);
    InjectDelivers(v.ram, v.queue, data);
    var d := Delivery(Head(v.ram, v.queue), HeadChain(v.ram, v.queue), data);
    var w := Next(v, Deliver(data));
    if es != [] && After(w, es).Some? && Sparing(w, es, d.bufs) {
      var front, e := es[..|es| - 1], es[|es| - 1];
      FrameStays(v, data, front);
      var p := After(w, front).value;
      SparedFrame(p, e, d);
    }
  }
}

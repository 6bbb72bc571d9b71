/** The virtio-mmio transport object around one device: serving notifies and delivering received frames. */
module VirtioTransport {
  import opened Words
  import opened RingIndex
  import opened GuestMemory
  import opened Virtqueue

  type Frame = seq<byte>

  function Held(f: Option<Frame>): seq<Frame> { if f.Some? then [f.value] else [] }

  /** The receive path's history: every frame injected into the ring, and the frame held back. */
  datatype Rx = Rx(delivered: seq<Frame>, held: Option<Frame>)

  /** A pump that polled `polled` loses, duplicates and reorders nothing. */
  predicate Conserves(a: Rx, polled: seq<Frame>, b: Rx) {
    a.delivered <= b.delivered && a.delivered + Held(a.held) + polled == b.delivered + Held(b.held)
  }

  class VirtioMmio {
    const ram: GuestRam
    const rxQueue: Option<nat>
    const eventQueue: Option<nat>
    const writesStatus: bool
    var queues: seq<Queue>
    var usedBufferIrq: bool
    var pendingRx: Option<Frame>
    ghost var delivered: seq<Frame>

    ghost function RxState(): Rx
      reads this
    {
      Rx(delivered, pendingRx)
    }

    /** Queue sizes are clamped when set; a frame is only ever held for a queue that exists. */
    ghost predicate Valid()
      reads this
    {
      && (forall k | 0 <= k < |queues| :: queues[k].num <= QUEUE_MAX)
      && (pendingRx.Some? ==> rxQueue.Some? && rxQueue.value < |queues|)
    }

    constructor (ram: GuestRam, numQueues: nat, rxQueue: Option<nat>, eventQueue: Option<nat>, writesStatus: bool)
      ensures Valid() && this.ram == ram && RxState() == Rx([], None) && |queues| == Max(1, numQueues)
    {
      this.ram, this.rxQueue, this.eventQueue, this.writesStatus := ram, rxQueue, eventQueue, writesStatus;
      queues := seq(Max(1, numQueues), _ => Queue(0, 0, 0, 0, 0, 0));
      usedBufferIrq, pendingRx, delivered := false, None, [];
    }

    method LoadU16(a: u64) returns (v: u16)
      ensures v == ReadU16(ram.View(), a)
    {
      Pow256Values();
      v := ram.ReadTyped(a, 2);
    }

    method LoadDesc(desc: u64, i: u16) returns (buf: Buf, more: bool, next: u16)
      ensures buf == BufAt(ram.View(), desc, i)
      ensures more == HasNext(ram.View(), desc, i) && next == NextIndex(ram.View(), desc, i)
    {
      Pow256Values();
      var d := Plus(desc, 16 * i);
      var addr := ram.ReadTyped(d, 8);
      var len := ram.ReadTyped(Plus(d, 8), 4);
      var flags := LoadU16(Plus(d, 12));
      next := LoadU16(Plus(d, 14));
      len := Min(len, MAX_DESC_LEN);
      buf := Buf(addr, if ram.InRange(addr, len) then len else 0, flags / 2 % 2 == 1);
      more := flags % 2 == 1;
    }

    /** Walk a descriptor chain, trusting nothing in it. */
    method CollectChain(desc: u64, head: u16, qsz: u16) returns (bufs: seq<Buf>)
      ensures bufs == Chain(ram.View(), desc, head, qsz, qsz)
    {
      bufs := [];
      ghost var r := ram.View();
      var i: u16, left: nat := head, qsz;
      while left > 0
        invariant bufs + Chain(r, desc, i, qsz, left) == Chain(r, desc, head, qsz, qsz)
      {
        if i >= qsz {
          return;
        }
        var buf, more, next := LoadDesc(desc, i);
        left := left - 1;
        ghost var rest := if more then Chain(r, desc, next, qsz, left) else [];
        ChainUnfolds(r, desc, i, qsz, left + 1);
        assert bufs + ([buf] + rest) == (bufs + [buf]) + rest;
        bufs := bufs + [buf];
        if !more {
          return;
        }
        i := next;
      }
    }

    method SlotOf(idx: u16, num: nat) returns (slot: u16)
      requires 0 < num
      ensures slot == Slot(idx, num)
    {
      SlotIsMod(idx, num);
      slot := idx % num;
    }

    /** The head at the next available slot. */
    method NextHead(q: Queue) returns (head: u16)
      requires q.Usable()
      ensures head == Head(ram.View(), q)
    {
      var slot := SlotOf(q.lastAvail, q.num);
      head := LoadU16(Plus(q.avail, 4 + 2 * slot));
    }

    method PublishUsed(q: Queue, id: u32, len: u32)
      requires q.Usable()
      modifies ram.host
      ensures ram.View() == PushUsed(old(ram.View()), q, id, len)
    {
      var idx := LoadU16(Plus(q.used, 2));
      var slot := SlotOf(idx, q.num);
      var elem := Plus(q.used, 4 + 8 * slot);
      assert idx == UsedIdx(ram.View(), q) && elem == ElemAddr(q, Slot(idx, q.num));
      ram.WriteTyped(elem, id, 4);
      ram.WriteTyped(Plus(elem, 4), len, 4);
      ram.WriteTyped(Plus(q.used, 2), Inc16(idx), 2);
    }

    /** Some device servicing a chain: it may write anything to the writable buffers and, if it is the block device,
        one status byte at the last descriptor. */
    method Handle(bufs: seq<Buf>) returns (written: u32)
      modifies ram.host
      ensures Confined(old(ram.View()), ram.View(), Touched(bufs, writesStatus))
    {
      ghost var touched := Touched(bufs, writesStatus);
      for k := 0 to |bufs|
        invariant Confined(old(ram.View()), ram.View(), touched)
      {
        if bufs[k].writable {
          var data: seq<byte> := *;
          if |data| <= bufs[k].len {
            assert touched[k] == bufs[k];
            WriteWithin(old(ram.View()), ram.View(), touched, k, data);
            var _ := ram.Write(bufs[k].addr, data);
          }
        }
      }
      if writesStatus && |bufs| >= 2 {
        var status: byte := *;
        WriteWithin(old(ram.View()), ram.View(), touched, |bufs|, [status]);
        var _ := ram.Write(bufs[|bufs| - 1].addr, [status]);
      }
      var n: int :| 0 <= n < U32_SPAN;
      written := n;
    }

    /** A notify does nothing on a device-driven, missing or unready queue. */
    predicate Ignores(qidx: nat)
      reads this
    {
      rxQueue == Some(qidx) || eventQueue == Some(qidx) || |queues| <= qidx
      || queues[qidx].ready == 0 || queues[qidx].num == 0
    }

    /** Serve a notify: exactly the pending chains, but never more than a ring's worth. */
    method Process(qidx: nat) returns (ghost trace: seq<Handled>)
      requires Valid()
      modifies this`queues, this`usedBufferIrq, ram.host
      ensures Valid() && pendingRx == old(pendingRx)
      ensures old(Ignores(qidx)) ==> trace == [] && queues == old(queues) && ram.View() == old(ram.View())
      ensures old(Ignores(qidx)) == (rxQueue == Some(qidx) || eventQueue == Some(qidx) || qidx >= |old(queues)|
                                     || old(queues)[qidx].ready == 0 || old(queues)[qidx].num == 0)
      ensures !old(Ignores(qidx)) ==>
                && qidx < |old(queues)| && old(queues)[qidx].Usable()
                && |trace| == Min(Pending(old(ram.View()), old(queues)[qidx]), old(queues)[qidx].num)
                && Behaved(old(ram.View()), old(queues)[qidx], trace, writesStatus)
                && ram.View() == Serve(old(ram.View()), old(queues)[qidx], trace).ram
                && queues == old(queues)[qidx := Serve(old(ram.View()), old(queues)[qidx], trace).queue]
      ensures usedBufferIrq == (old(usedBufferIrq) || trace != [])
    {
      trace := [];
      if Ignores(qidx) {
        return;
      }
      var q := queues[qidx];
      var last, progressed;
      last, progressed, trace := ServeAll(q);
      if progressed {
        usedBufferIrq := true;
      }
      queues := queues[qidx := queues[qidx].(lastAvail := last)];
    }

    /** Serve the chains pending on `q`, at most a ring's worth. */
    method ServeAll(q0: Queue) returns (last: u16, progressed: bool, ghost trace: seq<Handled>)
      requires q0.Usable()
      modifies ram.host
      ensures |trace| == Min(Pending(old(ram.View()), q0), q0.num) && Behaved(old(ram.View()), q0, trace, writesStatus)
      ensures ram.View() == Serve(old(ram.View()), q0, trace).ram
      ensures progressed == (trace != [])
      ensures q0.(lastAvail := last) == Serve(old(ram.View()), q0, trace).queue
    {
      trace, progressed := [], false;
      var q := q0;
      var availIdx := LoadU16(Plus(q.avail, 2));
      var budget := q.num;
      ghost var r0 := ram.View();
      while q.lastAvail != availIdx && budget > 0
        invariant 0 <= budget <= q0.num && q == q0.(lastAvail := q.lastAvail)
        invariant |trace| == q0.num - budget && progressed == (trace != [])
        invariant Distance(q.lastAvail, availIdx) + |trace| == Distance(q0.lastAvail, availIdx)
        invariant Behaved(r0, q0, trace, writesStatus)
        invariant Serve(r0, q0, trace).ram == ram.View() && Serve(r0, q0, trace).queue == q
        decreases budget
      {
        ghost var h := ServeHead(q);
        ServeMore(r0, q0, trace, h, writesStatus);
        trace := trace + [h];
        q := q.(lastAvail := Inc16(q.lastAvail));
        budget := budget - 1;
        progressed := true;
      }
      last := q.lastAvail;
    }

    /** Take one chain, have the device handle it, and publish its head. */
    method ServeHead(q: Queue) returns (ghost h: Handled)
      requires q.Usable()
      modifies ram.host
      ensures Confined(old(ram.View()), h.after, Touched(HeadChain(old(ram.View()), q), writesStatus))
      ensures ram.View() == PushUsed(h.after, q, Head(old(ram.View()), q), h.written)
    {
      var head := NextHead(q);
      var bufs := CollectChain(q.desc, head, q.num);
      var written := Handle(bufs);
      h := Handled(ram.View(), written);
      PublishUsed(q, head, written);
    }

    /** Spill one frame into the next posted chain and publish it; false if there is none. */
    method InjectOne(qidx: nat, data: Frame) returns (ok: bool)
      requires Valid() && qidx < |queues|
      modifies this`queues, this`delivered, ram.host
      ensures Valid() && delivered == old(delivered) + if ok then [data] else []
      ensures ok == Inject(old(ram.View()), old(queues)[qidx], data).Some?
      ensures !ok ==> queues == old(queues) && ram.View() == old(ram.View())
      ensures ok ==> var (w, q) := Inject(old(ram.View()), old(queues)[qidx], data).value;
                     ram.View() == w && queues == old(queues)[qidx := q]
    {
      var q := queues[qidx];
      if q.ready == 0 || q.num == 0 {
        return false;
      }
      var availIdx := LoadU16(Plus(q.avail, 2));
      if q.lastAvail == availIdx {
        return false;
      }
      var head := NextHead(q);
      var bufs := CollectChain(q.desc, head, q.num);
      var off := SpillFrame(bufs, data);
      PublishUsed(q, head, off % U32_SPAN);
      queues := queues[qidx := q.(lastAvail := Inc16(q.lastAvail))];
      delivered := delivered + [data];
      ok := true;
    }

    method SpillFrame(bufs: seq<Buf>, data: Frame) returns (off: nat)
      modifies ram.host
      ensures (ram.View(), off) == Scatter(old(ram.View()), bufs, data)
    {
      off := 0;
      ghost var goal := Scatter(ram.View(), bufs, data);
      assert bufs[0..] == bufs && data[0..] == data;
      for k := 0 to |bufs|
        invariant off <= |data|
        invariant var (w, m) := Scatter(ram.View(), bufs[k..], data[off..]); (w, off + m) == goal
      {
        if off >= |data| {
          break;
        }
        assert bufs[k..][1..] == bufs[k + 1..];
        if bufs[k].writable {
          var n := Min(bufs[k].len, |data| - off);
          assert data[off..][..n] == data[off..off + n] && data[off..][n..] == data[off + n..];
          var _ := ram.Write(bufs[k].addr, data[off..off + n]);
          off := off + n;
        }
      }
    }

    /** The guest's CPUs run between two looks at the ring and may change any of RAM. */
    method GuestRuns()
      modifies ram.host
    {
      var i: nat, b: byte := *, *;
      if i < ram.host.Length {
        ram.host[i] := b;
      }
    }

    /** Whether the guest has a chain posted, and how much it can take. */
    method NextRxCapacity(qidx: nat) returns (cap: Option<nat>)
      requires Valid() && qidx < |queues|
      ensures cap.Some? == Receivable(ram.View(), queues[qidx])
      ensures cap.Some? ==> cap.value == Capacity(HeadChain(ram.View(), queues[qidx]))
    {
      var q := queues[qidx];
      if q.ready == 0 || q.num == 0 {
        return None;
      }
      var availIdx := LoadU16(Plus(q.avail, 2));
      if q.lastAvail == availIdx {
        return None;
      }
      var head := NextHead(q);
      var bufs := CollectChain(q.desc, head, q.num);
      var total := 0;
      for k := 0 to |bufs|
        invariant total + Capacity(bufs[k..]) == Capacity(bufs)
      {
        assert bufs[k..][1..] == bufs[k + 1..];
        if bufs[k].writable {
          total := total + bufs[k].len;
        }
      }
      cap := Some(total);
    }

    /** No chain is posted on the receive queue, so the pump cannot go on. */
    ghost predicate Starved()
      reads this, ram, ram.host
    {
      rxQueue.Some? && rxQueue.value < |queues| && !Receivable(ram.View(), queues[rxQueue.value])
    }

    /** Inject into the receive queue; a refusal means that no chain is posted. */
    method Offer(rxq: nat, data: Frame) returns (ok: bool)
      requires Valid() && rxQueue == Some(rxq) && rxq < |queues|
      modifies this`queues, this`delivered, ram.host
      ensures Valid() && |queues| == |old(queues)| && delivered == old(delivered) + if ok then [data] else []
      ensures ok == !old(Starved()) && (!ok ==> Starved())
    {
      ok := InjectOne(rxq, data);
    }

    /** Deliver received frames: first the one held back, then what the device yields (the frames of
        `source`, in order). Nothing polled is lost, duplicated or reordered, even though the guest may change
        the ring between the capacity check and the injection. It stops before the device has no more only
        for want of a posted chain, and only then holds a frame. */
    method PumpRx(source: seq<Frame>) returns (any: bool, ghost polled: seq<Frame>)
      requires Valid()
      modifies this`queues, this`usedBufferIrq, this`pendingRx, this`delivered, ram.host
      ensures Valid() && |queues| == |old(queues)|
      ensures polled <= source && Conserves(old(RxState()), polled, RxState())
      ensures rxQueue.Some? && rxQueue.value < |queues| && (polled != source || pendingRx.Some?) ==> Starved()
      ensures any == (delivered != old(delivered)) && usedBufferIrq == (old(usedBufferIrq) || any)
    {
      any, polled := false, [];
      if rxQueue == None {
        return;
      }
      var rxq := rxQueue.value;
      var taken := pendingRx;
      pendingRx := None;
      if taken.Some? {
        var ok := Offer(rxq, taken.value);
        if !ok {
          pendingRx := taken;
          return;
        }
        any := true;
      }
      if rxq < |queues| {
        var more;
        ghost var mid := RxState();
        more, polled := PumpFresh(rxq, source);
        HeldGoesFirst(old(RxState()), mid, polled, RxState());
        any := any || more;
      }
      if any {
        usedBufferIrq := true;
      }
    }

    /** Any number of pumps on a new device, the guest running in between: every polled frame is injected, once and in
        poll order, except the last if it is still held. */
    method PumpRounds(sources: seq<seq<Frame>>) returns (ghost polls: seq<seq<Frame>>)
      requires Valid() && RxState() == Rx([], None)
      modifies this`queues, this`usedBufferIrq, this`pendingRx, this`delivered, ram.host
      ensures |polls| == |sources| && forall k | 0 <= k < |polls| :: polls[k] <= sources[k]
      ensures Concat(polls) == delivered + Held(pendingRx)
    {
      polls := [];
      ghost var states := [RxState()];
      for k := 0 to |sources|
        invariant Valid() && |polls| == k && |states| == k + 1 && states[0] == Rx([], None) && states[k] == RxState()
        invariant forall j | 0 <= j < k :: polls[j] <= sources[j] && Conserves(states[j], polls[j], states[j + 1])
      {
        GuestRuns();
        var any, polled := PumpRx(sources[k]);
        polls, states := polls + [polled], states + [RxState()];
      }
      FramesConserved(states, polls);
    }

    /** Poll and inject until the device or the ring has no more; an undeliverable frame is held. */
    method PumpFresh(rxq: nat, source: seq<Frame>) returns (any: bool, ghost polled: seq<Frame>)
      requires Valid() && rxQueue == Some(rxq) && rxq < |queues| && pendingRx == None
      modifies this`queues, this`pendingRx, this`delivered, ram.host
      ensures Valid() && |queues| == |old(queues)|
      ensures polled <= source && Conserves(old(RxState()), polled, RxState())
      ensures polled != source || pendingRx.Some? ==> Starved()
      ensures any == (delivered != old(delivered))
    {
      any, polled := false, [];
      for next := 0 to |source|
        invariant Valid() && |queues| == |old(queues)| && pendingRx == None
        invariant polled == source[..next] && any == (polled != [])
        invariant delivered == old(delivered) + polled
      {
        var cap := NextRxCapacity(rxq);
        if cap == None {
          return;
        }
        TakeNext(source, next);
        AllButOne(old(delivered), polled, source[next]);
        polled := polled + [source[next]];
        GuestRuns();
        var ok := Offer(rxq, source[next]);
        if !ok {
          pendingRx := Some(source[next]);
          return;
        }
        any := true;
      }
    }
  }

  lemma AllButOne(d: seq<Frame>, polled: seq<Frame>, f: Frame)
    ensures (d + polled) + [f] == d + (polled + [f])
    ensures Conserves(Rx(d, None), polled + [f], Rx(d + polled, Some(f)))
    ensures Conserves(Rx(d, None), polled, Rx(d + polled, None))
    ensures d + (polled + [f]) != d
  {
  }

  lemma HeldGoesFirst(a: Rx, mid: Rx, polled: seq<Frame>, b: Rx)
    requires mid == Rx(a.delivered + Held(a.held), None) && Conserves(mid, polled, b)
    ensures Conserves(a, polled, b)
    ensures b.delivered != a.delivered <==> a.held.Some? || b.delivered != mid.delivered
  {
  }

  lemma TakeNext(s: seq<Frame>, k: nat)
    requires k < |s|
    ensures s[..k + 1] == s[..k] + [s[k]]
  {
  }

  /** How far the available index is ahead of the last one taken, modulo 2^16. */
  function Distance(last: u16, avail: u16): nat { if last <= avail then avail - last else avail + U16_SPAN - last }

  /** A write inside one writable buffer. */
  lemma WriteWithin(r0: Ram, r: Ram, bufs: seq<Buf>, k: nat, data: seq<byte>)
    requires Confined(r0, r, bufs) && k < |bufs| && bufs[k].writable && |data| <= bufs[k].len
    ensures Confined(r0, WriteAt(r, bufs[k].addr, data), bufs)
  {
    forall a: int, n: nat | ClearOf(bufs, a, n) ensures Agree(r0, WriteAt(r, bufs[k].addr, data), a, n) {
      AgreeApart(r, bufs[k].addr, data, a, n);
      AgreeTrans(r0, r, WriteAt(r, bufs[k].addr, data), a, n);
    }
  }

  /** A trace grows at its end. */
  lemma {:induction false} ServeMore(r: Ram, q: Queue, trace: seq<Handled>, h: Handled, status: bool)
    requires q.Usable() && Behaved(r, q, trace, status)
    requires var s := Serve(r, q, trace);
             s.queue.Usable() && Confined(s.ram, h.after, Touched(HeadChain(s.ram, s.queue), status))
    ensures Behaved(r, q, trace + [h], status)
    ensures var s := Serve(r, q, trace);
            && Serve(r, q, trace + [h]).ram == PushUsed(h.after, s.queue, Head(s.ram, s.queue), h.written)
            && Serve(r, q, trace + [h]).queue == Advanced(s.queue)
    decreases |trace|
  {
    if trace == [] {
      assert [] + [h] == [h] && [h][1..] == [];
    } else {
      var r1 := PushUsed(trace[0].after, q, Head(r, q), trace[0].written);
      ServeMore(r1, Advanced(q), trace[1..], h, status);
      assert (trace + [h])[1..] == trace[1..] + [h] && (trace + [h])[0] == trace[0];
    }
  }

  // ---- receiving over many pumps ----

  function Concat(polls: seq<seq<Frame>>): seq<Frame> {
    if polls == [] then [] else Concat(polls[..|polls| - 1]) + polls[|polls| - 1]
  }

  /** Over any number of pumps from an empty device: every polled frame is injected, once and in poll order, except
      the last if it is still held. */
  lemma {:induction false} FramesConserved(states: seq<Rx>, polls: seq<seq<Frame>>)
    requires |states| == |polls| + 1 && states[0] == Rx([], None)
    requires forall k | 0 <= k < |polls| :: Conserves(states[k], polls[k], states[k + 1])
    ensures var last := states[|polls|]; Concat(polls) == last.delivered + Held(last.held)
    decreases |polls|
  {
    if polls != [] {
      var n := |polls| - 1;
      FramesConserved(states[..n + 1], polls[..n]);
      assert Conserves(states[n], polls[n], states[n + 1]);
    }
  }
}

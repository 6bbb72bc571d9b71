/** Runs of polls and guest packets: when a polled frame fits the buffer it was polled for. */
module VsockPolls {
  import opened Words
  import opened VsockPump
  import opened VsockSpec
  import opened VsockWire

  datatype Call =
    | OnPacket(p: Packet, dialed: bool)
    | PollRx(maxFrame: nat, waiting: seq<u32>, all: seq<Answers>)

  /** The device, and for each queued packet the buffer size of the poll whose pump made it; replies to guest
      packets count as made for a bare header. */
  datatype Queued = Queued(dev: Dev, made: seq<nat>)

  const BOOT := Queued(Dev([], [], EPHEMERAL_BASE), [])

  /** A poll pumps first if nothing is queued. */
  function Ready(d: Dev, maxFrame: nat, waiting: seq<u32>, all: seq<Answers>): Dev {
    if d.rx == [] then Pumped(d, Max(0, maxFrame - HDR_LEN), waiting, all) else d
  }

  function ReadyMade(t: Queued, c: Call): Queued
    requires c.PollRx?
  {
    var d := Ready(t.dev, c.maxFrame, c.waiting, c.all);
    Queued(d, if t.dev.rx == [] then seq(|d.rx|, _ => c.maxFrame) else t.made)
  }

  function Next(t: Queued, c: Call): Queued {
    match c
    case OnPacket(p, dialed) =>
      var d := OnGuest(t.dev, p, dialed);
      Queued(d, t.made + seq(Max(0, |d.rx| - |t.dev.rx|), _ => HDR_LEN))
    case PollRx(_, _, _) =>
      var r := ReadyMade(t, c);
      if r.dev.rx == [] || r.made == [] then r else Queued(r.dev.(rx := r.dev.rx[1..]), r.made[1..])
  }

  function After(calls: seq<Call>): Queued {
    if calls == [] then BOOT else Next(After(calls[..|calls| - 1]), calls[|calls| - 1])
  }

  function FrameSize(p: Packet): nat { HDR_LEN + |p.payload| }

  /** The frame a poll returns after these calls, and the buffer size it was made for. */
  function Polled(calls: seq<Call>, c: Call): Option<Packet>
    requires c.PollRx?
  {
    var d := ReadyMade(After(calls), c).dev;
    if d.rx == [] then None else Some(d.rx[0])
  }

  function MadeFor(calls: seq<Call>, c: Call): nat
    requires c.PollRx?
  {
    var m := ReadyMade(After(calls), c).made;
    if m == [] then 0 else m[0]
  }

  // ---- what the tags bound ----

  /** The largest frame a pump makes for a buffer of `n` bytes. */
  function Limit(n: nat): nat { HDR_LEN + Cap(Max(0, n - HDR_LEN)) }

  predicate Fitting(t: Queued) {
    |t.made| == |t.dev.rx| && forall k | 0 <= k < |t.made| :: FrameSize(t.dev.rx[k]) <= Limit(t.made[k])
  }

  lemma RepliesEmpty(d: Dev, p: Packet, dialed: bool)
    ensures d.rx <= OnGuest(d, p, dialed).rx
    ensures forall k | |d.rx| <= k < |OnGuest(d, p, dialed).rx| :: OnGuest(d, p, dialed).rx[k].payload == []
  {
  }

  lemma ReadyFitting(t: Queued, c: Call)
    requires Fitting(t) && c.PollRx?
    ensures Fitting(ReadyMade(t, c))
  {
    if t.dev.rx == [] {
      PumpedWithin(t.dev, Max(0, c.maxFrame - HDR_LEN), c.waiting, c.all);
      MadeFitting(ReadyMade(t, c).dev, c.maxFrame);
    }
  }

  lemma MadeFitting(d: Dev, maxFrame: nat)
    requires Within(d.rx, Cap(Max(0, maxFrame - HDR_LEN)))
    ensures Fitting(Queued(d, seq(|d.rx|, _ => maxFrame)))
  {
  }

  lemma StepFitting(t: Queued, c: Call)
    requires Fitting(t)
    ensures Fitting(Next(t, c))
  {
    match c
    case OnPacket(p, dialed) => RepliesEmpty(t.dev, p, dialed);
    case PollRx(_, _, _) => ReadyFitting(t, c);
  }

  lemma {:induction false} RunFitting(calls: seq<Call>)
    ensures Fitting(After(calls))
  {
    if calls != [] {
      RunFitting(calls[..|calls| - 1]);
      StepFitting(After(calls[..|calls| - 1]), calls[|calls| - 1]);
    }
  }

  /** Over every run from boot: a polled frame is no larger than the buffer of the poll whose pump made it, or a
      header if that was smaller. */
  lemma FrameWithinMade(calls: seq<Call>, c: Call)
    requires c.PollRx? && Polled(calls, c).Some?
    ensures FrameSize(Polled(calls, c).value) <= Limit(MadeFor(calls, c))
  {
    RunFitting(calls);
    ReadyFitting(After(calls), c);
  }

  // ---- buffers that never shrink ----

  /** The largest buffer polled for so far, at least a header. */
  function Largest(calls: seq<Call>): (n: nat)
    ensures HDR_LEN <= n
  {
    if calls == [] then HDR_LEN
    else
      var c := calls[|calls| - 1];
      Max(Largest(calls[..|calls| - 1]), if c.PollRx? then c.maxFrame else 0)
  }

  lemma {:induction false} MadeAtMostLargest(calls: seq<Call>)
    ensures forall k | 0 <= k < |After(calls).made| :: After(calls).made[k] <= Largest(calls)
  {
    if calls != [] { MadeAtMostLargest(calls[..|calls| - 1]); }
  }

  /** Over every run from boot: a poll with a buffer no smaller than any before it, and room for a header, gets a
      frame that fits. So polls whose buffers never shrink always do. */
  lemma GrowingBuffersFit(calls: seq<Call>, c: Call)
    requires c.PollRx? && Polled(calls, c).Some? && Largest(calls) <= c.maxFrame
    ensures FrameSize(Polled(calls, c).value) <= c.maxFrame
  {
    FrameWithinMade(calls, c);
    MadeAtMostLargest(calls);
  }

  // ---- buffers that do ----

  /** Any frame made for a buffer of `big` fits when polled for one of `small`. */
  ghost predicate AlwaysFits(big: nat, small: nat) {
    forall calls: seq<Call>, c: Call ::
      c.PollRx? && c.maxFrame == small && Polled(calls, c).Some? && MadeFor(calls, c) == big ==>
        FrameSize(Polled(calls, c).value) <= small
  }

  const PORTS_USED := Pair(40000, 1024)
  const DIAL := Packet(PORTS_USED, OP_REQUEST, U32_SPAN - 1, 0, [])

  /** A guest dials out; while the buffer holds `big`, another host peer is accepted and the host sends `n` bytes. */
  function Burst(big: nat, n: nat): seq<Call> {
    var chunk := Data(seq<byte>(n, _ => 0));
    [OnPacket(DIAL, true), PollRx(big, [], []), PollRx(big, [7], [Answers([], [chunk])])]
  }

  function Dialed(): Conn { Fresh(PORTS_USED, U32_SPAN - 1, 0, true) }

  lemma DialQueued()
    ensures Next(BOOT, OnPacket(DIAL, true))
            == Queued(Dev([Dialed()], [Out(PORTS_USED, OP_RESPONSE, 0, [])], EPHEMERAL_BASE), [HDR_LEN])
  {
    var t := Next(BOOT, OnPacket(DIAL, true));
    assert t.dev == Dev([Dialed()], [Out(PORTS_USED, OP_RESPONSE, 0, [])], EPHEMERAL_BASE);
    assert t.made == [HDR_LEN];
  }

  lemma DialAnswered(big: nat, n: nat)
    ensures After(Burst(big, n)[..2]) == Queued(Dev([Dialed()], [], EPHEMERAL_BASE), [])
  {
    var b := Burst(big, n);
    assert b[..2][..1] == b[..1] && b[..1][..0] == [];
    assert After(b[..1]) == Next(BOOT, OnPacket(DIAL, true));
    DialQueued();
  }

  lemma OneChunk(c: Conn, mp: nat, data: seq<byte>)
    requires 0 < |data| == Min(mp, GuestWindow(c))
    ensures Filled(c, mp, [Data(data)]) == (Forwarded(c, data), [Out(c.pair, OP_RW, c.fwdCnt, data)])
  {
    assert data[..|data|] == data;
    assert NextRead([Data(data)], |data|) == Data(data) && [Data(data)][1..] == [];
    assert Filled(Forwarded(c, data), mp, []) == (Forwarded(c, data), []);
    var o := Out(c.pair, OP_RW, c.fwdCnt, data);
    assert [o] + [] == [o];
  }

  lemma TurnIsFill(c: Conn, mp: nat, a: Answers)
    requires c.toHost == []
    ensures Turn(c, mp, a) == if c.up then Filled(c, mp, a.toReads) else (c, [])
  {
    var none: seq<Packet> := [];
    assert none + none == none && none + Filled(c, mp, a.toReads).1 == Filled(c, mp, a.toReads).1;
  }

  lemma BurstTurns(mp: nat, data: seq<byte>, other: Conn)
    requires 0 < |data| == Cap(mp) && other.toHost == [] && !other.up
    ensures Turns([Dialed(), other], mp, [Answers([], [Data(data)])], 2)
            == ([Forwarded(Dialed(), data), other], [Out(PORTS_USED, OP_RW, 0, data)])
  {
    var c, a := Dialed(), Answers([], [Data(data)]);
    TurnIsFill(c, mp, a);
    OneChunk(c, mp, data);
    TurnIsFill(other, mp, Answers([], []));
    var o := Out(PORTS_USED, OP_RW, 0, data);
    assert TurnPackets([c, other], mp, [a], 1) == [] + [o] == [o];
    assert TurnPackets([c, other], mp, [a], 2) == [o] + [] == [o];
    assert TurnedConns([c, other], mp, [a], 1) == [Forwarded(c, data), other];
    assert TurnedConns([c, other], mp, [a], 2) == [Forwarded(c, data), other];
  }

  lemma NoneReaped(a: Conn, b: Conn)
    requires !a.hostDone && !b.hostDone
    ensures Shutdowns([a, b]) == []
  {
    assert [a, b][..1] == [a] && [a][..0] == [];
    var none: seq<Packet> := [];
    assert Shutdowns([a]) == none + none == none;
  }

  lemma BurstPumped(mp: nat, data: seq<byte>)
    requires 0 < |data| == Cap(mp)
    ensures var d := Pumped(Dev([Dialed()], [], EPHEMERAL_BASE), mp, [7], [Answers([], [Data(data)])]);
            |d.rx| == 2 && d.rx[1] == Out(PORTS_USED, OP_RW, 0, data)
  {
    var d := Dev([Dialed()], [], EPHEMERAL_BASE);
    assert [7 as u32][..0] == [];
    var d1 := AcceptAll(d, [7]);
    assert d1 == Perform(d, Accept(7));
    assert d1.conns == [Dialed(), d1.conns[1]];
    BurstTurns(mp, data, d1.conns[1]);
    NoneReaped(Forwarded(Dialed(), data), d1.conns[1]);
  }

  /** Two polls: the first, with a buffer of `big`, leaves a frame of that size queued; the second gets it, whatever
      its own buffer. */
  lemma LargeFrameWaits(big: nat, small: nat) returns (calls: seq<Call>, c: Call)
    requires HDR_LEN < big
    ensures c.PollRx? && c.maxFrame == small && MadeFor(calls, c) == big
    ensures Polled(calls, c).Some? && FrameSize(Polled(calls, c).value) == Limit(big)
  {
    var n := Cap(big - HDR_LEN);
    calls, c := Burst(big, n), PollRx(small, [], []);
    var data := seq<byte>(n, _ => 0);
    DialAnswered(big, n);
    BurstPumped(big - HDR_LEN, data);
    assert calls[..|calls| - 1] == calls[..2];
    var r := ReadyMade(After(calls[..2]), calls[2]);
    assert r.made == [big, big];
    assert After(calls).dev.rx == [Out(PORTS_USED, OP_RW, 0, data)] && After(calls).made == [big];
  }

  /** The promise, exactly, for any two buffer sizes: frames made for one of `big` bytes always fit one of `small` if
      and only if `big`, or the largest frame there is, is no larger. */
  lemma FitsIff(big: nat, small: nat)
    requires HDR_LEN <= small
    ensures AlwaysFits(big, small) <==> Min(big, HDR_LEN + U32_SPAN - 1) <= small
  {
    if Min(big, HDR_LEN + U32_SPAN - 1) <= small {
      forall calls: seq<Call>, c: Call
        | c.PollRx? && c.maxFrame == small && Polled(calls, c).Some? && MadeFor(calls, c) == big
        ensures FrameSize(Polled(calls, c).value) <= small
      {
        FrameWithinMade(calls, c);
      }
    } else {
      var calls, c := LargeFrameWaits(big, small);
    }
  }

  /** The promise fails: a poll with a 1000-byte buffer gets 4096 bytes. */
  lemma StaleFrameTooLarge() returns (calls: seq<Call>, c: Call)
    ensures c.PollRx? && c.maxFrame == 1000
    ensures Polled(calls, c).Some? && FrameSize(Polled(calls, c).value) == 4096
  {
    calls, c := LargeFrameWaits(4096, 1000);
  }
}

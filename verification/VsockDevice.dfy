/** The virtio-vsock device object; what the host sockets answer is a parameter. */
module VsockDevice {
  import opened Words
  import opened VsockPolls
  import opened VsockPump
  import opened VsockSpec
  import opened VsockWire

  /** The queue as bytes and as packets. */
  predicate Encodes(frames: seq<seq<byte>>, rx: seq<Packet>, cid: u64) {
    && |frames| == |rx|
    && forall k | 0 <= k < |rx| :: |rx[k].payload| < U32_SPAN && frames[k] == ToGuest(rx[k], cid)
  }

  lemma OldestEncoded(frames: seq<seq<byte>>, rx: seq<Packet>, cid: u64)
    requires Encodes(frames, rx, cid) && rx != []
    ensures Encodes(frames[1..], rx[1..], cid)
    ensures |frames[0]| == FrameSize(rx[0]) && ReadByGuest(frames[0]) == Some(rx[0])
  {
    PacketRoundTrip(rx[0], cid);
  }

  class Device {
    const guestCid: u64
    var conns: seq<Conn>
    var frames: seq<seq<byte>>
    ghost var rx: seq<Packet>
    var nextHostPort: u32

    ghost predicate Valid()
      reads this
    {
      Encodes(frames, rx, guestCid)
    }

    ghost function State(): Dev
      reads this
    {
      Dev(conns, rx, nextHostPort)
    }

    constructor (guestCid: u64)
      ensures Valid() && this.guestCid == guestCid && State() == Dev([], [], EPHEMERAL_BASE)
    {
      this.guestCid := guestCid;
      conns, frames, rx, nextHostPort := [], [], [], EPHEMERAL_BASE;
    }

    method FindConn(pair: Pair) returns (at: Option<nat>)
      ensures at == Find(conns, pair)
    {
      for i := 0 to |conns|
        invariant FindFrom(conns, pair, i) == FindFrom(conns, pair, 0)
      {
        if conns[i].pair == pair {
          return Some(i);
        }
      }
      return None;
    }

    method AllocHostPort(guestPort: u32) returns (hp: u32)
      modifies this`nextHostPort
      ensures (hp, nextHostPort) == Allocate(conns, guestPort, old(nextHostPort))
    {
      for k := 0 to PORTS
        invariant Scan(conns, guestPort, old(nextHostPort), PORTS) == Scan(conns, guestPort, nextHostPort, PORTS - k)
      {
        hp := nextHostPort;
        nextHostPort := NextPort(hp);
        var at := FindConn(Pair(guestPort, hp));
        if at == None {
          return;
        }
      }
      hp := EPHEMERAL_BASE;
    }

    /** Queue one packet for the guest, as bytes. */
    method Send(pair: Pair, op: u16, fwdCnt: u32, payload: seq<byte>)
      requires Valid() && |payload| < U32_SPAN
      modifies this`rx, this`frames
      ensures Valid() && rx == old(rx) + [Out(pair, op, fwdCnt, payload)]
      ensures frames == old(frames) + [ToGuest(Out(pair, op, fwdCnt, payload), guestCid)]
    {
      var header := EncodeHeader(Header(CID_HOST, guestCid, pair.hostPort, pair.guestPort, |payload|, TYPE_STREAM, op,
                                        0, BUF_ALLOC, fwdCnt));
      frames := frames + [header + payload];
      rx := rx + [Out(pair, op, fwdCnt, payload)];
    }

    /** Bytes from the guest's transmit queue; `dialed` is the host's answer should they be a REQUEST. */
    method OnGuestPacket(bytes: seq<byte>, dialed: bool)
      requires Valid()
      modifies this`conns, this`rx, this`frames
      ensures Valid()
      ensures State() == match Parse(bytes) case None => old(State()) case Some(p) => OnGuest(old(State()), p, dialed)
    {
      if |bytes| < HDR_LEN {
        return;
      }
      var h := DecodeHeader(bytes);
      var payload := bytes[HDR_LEN..HDR_LEN + Min(h.len, |bytes| - HDR_LEN)];
      if h.dstCid != CID_HOST {
        return;
      }
      Dispatch(Packet(Pair(h.srcPort, h.dstPort), h.op, h.bufAlloc, h.fwdCnt, payload), dialed);
    }

    method Dispatch(p: Packet, dialed: bool)
      requires Valid()
      modifies this`conns, this`rx, this`frames
      ensures Valid() && State() == OnGuest(old(State()), p, dialed)
    {
      var at := FindConn(p.pair);
      if at.Some? {
        conns := conns[at.value := conns[at.value].(peerBufAlloc := p.bufAlloc, peerFwdCnt := p.fwdCnt)];
      }
      if p.op == OP_REQUEST {
        if dialed {
          conns := conns + [Fresh(p.pair, p.bufAlloc, p.fwdCnt, true)];
          Send(p.pair, OP_RESPONSE, 0, []);
        } else {
          Send(p.pair, OP_RST, 0, []);
        }
      } else if p.op == OP_CREDIT_REQUEST {
        Send(p.pair, OP_CREDIT_UPDATE, if at.Some? then conns[at.value].fwdCnt else 0, []);
      } else if at.Some? {
        OnConnection(p, at.value);
      }
    }

    /** A packet, its credit already noted, that only concerns its own connection. */
    method OnConnection(p: Packet, i: nat)
      requires Valid() && i < |conns| && conns[i].pair == p.pair && p.op != OP_CREDIT_REQUEST
      requires conns[i].peerBufAlloc == p.bufAlloc && conns[i].peerFwdCnt == p.fwdCnt
      modifies this`conns, this`rx, this`frames
      ensures Valid() && conns == old(conns)[i := Receive(old(conns)[i], p).0]
      ensures rx == old(rx) + Receive(old(conns)[i], p).1
    {
      var c := conns[i];
      if p.op == OP_RESPONSE {
        conns := conns[i := c.(up := true)];
      } else if p.op == OP_RW {
        if |c.toHost| + |p.payload| > BUF_ALLOC {
          conns := conns[i := c.(up := false, hostDone := true)];
          Send(p.pair, OP_RST, 0, []);
        } else {
          conns := conns[i := c.(toHost := c.toHost + p.payload)];
        }
      } else if p.op == OP_SHUTDOWN || p.op == OP_RST {
        conns := conns[i := c.(hostDone := true, up := false)];
      }
    }

    /** Move waiting bytes of connection `idx` to the host until it blocks. */
    method DrainToHost(idx: nat, ws: seq<WriteOutcome>) returns (moved: bool)
      requires idx < |conns|
      modifies this`conns
      ensures conns == old(conns)[idx := Flushed(old(conns)[idx], ws).0] && moved == Flushed(old(conns)[idx], ws).1
    {
      moved := false;
      ghost var goal := Flushed(conns[idx], ws);
      var k := 0;
      while conns[idx].toHost != []
        invariant k <= |ws| && idx < |conns| && conns == old(conns)[idx := conns[idx]]
        invariant goal.0 == Flushed(conns[idx], ws[k..]).0
        invariant goal.1 == (moved || Flushed(conns[idx], ws[k..]).1)
        decreases |conns[idx].toHost|
      {
        var c := conns[idx];
        var r := NextWrite(ws[k..], |c.toHost|);
        if r.WriteFailed? {
          conns := conns[idx := c.(hostDone := true)];
          return;
        } else if r.WriteWouldBlock? || r.n == 0 {
          return;
        }
        assert ws[k..][1..] == ws[k + 1..];
        conns := conns[idx := c.(toHost := c.toHost[r.n..], fwdCnt := WrapAdd(c.fwdCnt, r.n),
                                 stream := c.stream.(written := c.stream.written + c.toHost[..r.n]))];
        moved, k := true, k + 1;
      }
    }

    /** Read from the host socket of connection `idx` while the guest's credit and the buffer size allow.
        The credit window shrinks by what is read, so this ends. */
    method FillFromHost(idx: nat, maxPayload: nat, rs: seq<ReadOutcome>)
      requires Valid() && idx < |conns|
      modifies this`conns, this`rx, this`frames
      ensures Valid() && conns == old(conns)[idx := Filled(old(conns)[idx], maxPayload, rs).0]
      ensures rx == old(rx) + Filled(old(conns)[idx], maxPayload, rs).1
    {
      ghost var goal := Filled(conns[idx], maxPayload, rs);
      var k := 0;
      while Min(GuestWindow(conns[idx]), maxPayload) > 0
        invariant Valid() && k <= |rs| && idx < |conns| && conns == old(conns)[idx := conns[idx]]
        invariant goal.0 == Filled(conns[idx], maxPayload, rs[k..]).0
        invariant old(rx) + goal.1 == rx + Filled(conns[idx], maxPayload, rs[k..]).1
        decreases GuestWindow(conns[idx])
      {
        var c := conns[idx];
        var r := NextRead(rs[k..], Min(GuestWindow(c), maxPayload));
        if r.ReadWouldBlock? {
          return;
        } else if !r.Data? {
          conns := conns[idx := c.(hostDone := true)];
          return;
        }
        FilledUnfolds(c, maxPayload, rs, k, rx);
        Send(c.pair, OP_RW, c.fwdCnt, r.bytes);
        conns := conns[idx := c.(txCnt := WrapAdd(c.txCnt, |r.bytes|),
                                 stream := c.stream.(read := c.stream.read + r.bytes))];
        WindowShrinks(c, r.bytes);
        k := k + 1;
      }
    }

    /** Drain, and tell the guest if anything moved. */
    method Settle(idx: nat, ws: seq<WriteOutcome>)
      requires Valid() && idx < |conns|
      modifies this`conns, this`rx, this`frames
      ensures Valid() && conns == old(conns)[idx := Flushed(old(conns)[idx], ws).0]
      ensures rx == old(rx) + CreditNews(Flushed(old(conns)[idx], ws).0, Flushed(old(conns)[idx], ws).1)
    {
      var moved := DrainToHost(idx, ws);
      if moved && conns[idx].up {
        Send(conns[idx].pair, OP_CREDIT_UPDATE, conns[idx].fwdCnt, []);
      }
    }

    /** One connection's turn in the pump. */
    method Service(idx: nat, maxPayload: nat, a: Answers)
      requires Valid() && idx < |conns|
      modifies this`conns, this`rx, this`frames
      ensures Valid() && conns == old(conns)[idx := Turn(old(conns)[idx], maxPayload, a).0]
      ensures rx == old(rx) + Turn(old(conns)[idx], maxPayload, a).1
    {
      Settle(idx, a.toWrites);
      if conns[idx].up {
        FillFromHost(idx, maxPayload, a.toReads);
      }
    }

    /** Accept waiting host peers. */
    method AcceptWaiting(waiting: seq<u32>)
      requires Valid()
      modifies this
      ensures Valid() && State() == AcceptAll(old(State()), waiting)
    {
      for k := 0 to |waiting|
        invariant Valid() && State() == AcceptAll(old(State()), waiting[..k])
      {
        assert waiting[..k + 1][..k] == waiting[..k];
        var hp := AllocHostPort(waiting[k]);
        conns := conns + [Fresh(Pair(waiting[k], hp), 0, 0, false)];
        Send(Pair(waiting[k], hp), OP_REQUEST, 0, []);
      }
      assert waiting[..|waiting|] == waiting;
    }

    /** Every connection has its turn. */
    method ServiceAll(maxPayload: nat, all: seq<Answers>)
      requires Valid()
      modifies this`conns, this`rx, this`frames
      ensures Valid() && conns == Turns(old(conns), maxPayload, all, |old(conns)|).0
      ensures rx == old(rx) + Turns(old(conns), maxPayload, all, |old(conns)|).1
    {
      var n := |conns|;
      for idx := 0 to n
        invariant Valid() && Serviced(old(conns), old(rx), maxPayload, all, idx, conns, rx)
      {
        TurnsMore(old(conns), old(rx), maxPayload, all, idx, conns, rx);
        Service(idx, maxPayload, AnswersOf(all, idx));
      }
    }

    /** Accept waiting host peers, move bytes both ways, drop finished connections. Whatever the host answers,
        the effect is a sequence of device steps ending in a reap, none forwarding more than `maxPayload`. */
    method Pump(maxPayload: nat, waiting: seq<u32>, all: seq<Answers>) returns (ghost steps: seq<HostStep>)
      requires Valid()
      modifies this
      ensures Valid() && State() == Pumped(old(State()), maxPayload, waiting, all)
      ensures Reached(old(State()), steps, State(), maxPayload) && steps != [] && steps[|steps| - 1] == Reap
      ensures forall c | c in conns :: !Dead(c)
    {
      AcceptWaiting(waiting);
      ServiceAll(maxPayload, all);
      ReapFinished();
      steps := PumpedReached(old(State()), maxPayload, waiting, all);
    }

    /** Drop the connections that are finished, then tell the guest. */
    method ReapFinished()
      requires Valid()
      modifies this`conns, this`rx, this`frames
      ensures Valid() && State() == Perform(old(State()), Reap)
      ensures forall c | c in conns :: !Dead(c)
    {
      ReapLeavesLiving(conns);
      var dead := Shutdowns(conns);
      ShutdownsWithin(conns);
      conns := Survivors(conns);
      SendAll(dead);
    }

    /** Tell the guest of the connections dropped. */
    method SendAll(ps: seq<Packet>)
      requires Valid() && Within(ps, 0) && forall p | p in ps :: p == Out(p.pair, p.op, p.fwdCnt, [])
      modifies this`rx, this`frames
      ensures Valid() && rx == old(rx) + ps
    {
      for k := 0 to |ps|
        invariant Valid() && rx == old(rx) + ps[..k]
      {
        assert ps[k] in ps;
        Send(ps[k].pair, ps[k].op, ps[k].fwdCnt, []);
        assert ps[..k + 1] == ps[..k] + [ps[k]];
      }
      assert ps[..|ps|] == ps;
    }

    /** Next frame for the guest, whose posted buffer holds `maxFrame` bytes: the encoding of the oldest packet, after
        a pump if none was queued. */
    method PollRx(maxFrame: nat, waiting: seq<u32>, all: seq<Answers>)
      returns (frame: Option<seq<byte>>, ghost steps: seq<HostStep>)
      requires Valid()
      modifies this
      ensures Valid() && AllPossible(old(State()), steps)
      ensures PerformAll(old(State()), steps) == Ready(old(State()), maxFrame, waiting, all)
      ensures var d := Ready(old(State()), maxFrame, waiting, all);
              if d.rx == [] then frame == None && State() == d
              else
                && State() == d.(rx := d.rx[1..])
                && frame.Some? && |d.rx[0].payload| < U32_SPAN && frame.value == ToGuest(d.rx[0], guestCid)
                && |frame.value| == FrameSize(d.rx[0]) && ReadByGuest(frame.value) == Some(d.rx[0])
      ensures old(rx) != [] ==> Ready(old(State()), maxFrame, waiting, all) == old(State())
      ensures frame.Some? && HDR_LEN <= maxFrame ==>
                (|frame.value| <= maxFrame <==> old(rx) == [] || FrameSize(old(rx)[0]) <= maxFrame)
    {
      steps := [];
      if frames == [] {
        ghost var d := State();
        steps := Pump(Max(0, maxFrame - HDR_LEN), waiting, all);
        PumpedWithin(d, Max(0, maxFrame - HDR_LEN), waiting, all);
      }
      if frames == [] {
        return None, steps;
      }
      OldestEncoded(frames, rx, guestCid);
      frame := Some(frames[0]);
      frames, rx := frames[1..], rx[1..];
    }
  }

  /** `conns` and `rx` are what the first `n` turns make of `conns0` and `rx0`. */
  predicate Serviced(conns0: seq<Conn>, rx0: seq<Packet>, maxPayload: nat, all: seq<Answers>, n: nat,
                     conns: seq<Conn>, rx: seq<Packet>)
  {
    && n <= |conns0| == |conns|
    && conns == Turns(conns0, maxPayload, all, n).0
    && rx == rx0 + Turns(conns0, maxPayload, all, n).1
  }

  lemma TurnsMore(conns0: seq<Conn>, rx0: seq<Packet>, maxPayload: nat, all: seq<Answers>, n: nat,
                  conns: seq<Conn>, rx: seq<Packet>)
    requires n < |conns0| && Serviced(conns0, rx0, maxPayload, all, n, conns, rx)
    ensures var (c, more) := Turn(conns[n], maxPayload, AnswersOf(all, n));
            Serviced(conns0, rx0, maxPayload, all, n + 1, conns[n := c], rx + more)
  {
    NotYetTurned(conns0, maxPayload, all, n);
    Regroup(rx0, TurnPackets(conns0, maxPayload, all, n), Turn(conns0[n], maxPayload, AnswersOf(all, n)).1);
  }

  lemma FilledUnfolds(c: Conn, maxPayload: nat, rs: seq<ReadOutcome>, k: nat, rx: seq<Packet>)
    requires k <= |rs| && Min(GuestWindow(c), maxPayload) > 0
    requires NextRead(rs[k..], Min(GuestWindow(c), maxPayload)).Data?
    ensures k < |rs|
    ensures var bytes := NextRead(rs[k..], Min(GuestWindow(c), maxPayload)).bytes;
            var rest := Filled(Forwarded(c, bytes), maxPayload, rs[k + 1..]);
            && Filled(c, maxPayload, rs[k..]).0 == rest.0
            && rx + Filled(c, maxPayload, rs[k..]).1 == rx + [Out(c.pair, OP_RW, c.fwdCnt, bytes)] + rest.1
  {
    assert rs[k..][1..] == rs[k + 1..];
  }

  /** Sending within the window takes exactly that much off it, even as the counter wraps. */
  lemma WindowShrinks(c: Conn, data: seq<byte>)
    requires |data| <= GuestWindow(c)
    ensures GuestWindow(Forwarded(c, data)) == GuestWindow(c) - |data|
  {
    if 0 < |data| {
      WrapSubAdvance(c.txCnt, c.peerFwdCnt, |data|);
    }
  }

  lemma {:induction false} ReapLeavesLiving(conns: seq<Conn>)
    ensures forall c | c in Survivors(conns) :: !Dead(c)
  {
    if conns != [] { ReapLeavesLiving(conns[..|conns| - 1]); }
  }
}

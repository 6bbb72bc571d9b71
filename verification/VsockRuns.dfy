/** The whole vsock device with any number of connections, interleaved with a guest and a host. Each
    connection, seen alone, is a VsockCredit link, so its guarantees hold over every run. */
module VsockRuns {
  import opened Words
  import opened VsockSpec
  import opened VsockCredit

  /** The device, packets polled but not yet seen by the guest, packets the guest has queued, and the guest's
      side of the connection under study. */
  datatype System = System(dev: Dev, wire: seq<Packet>, queue: seq<Packet>, guest: Guest, accepted: seq<byte>)

  datatype SystemStep =
    | GuestSends(p: Packet)
    | DeviceTakes(dialed: bool)
    | Host(step: HostStep)
    | Poll
    | GuestGets
    | GuestConsumes(n: nat)
    | GuestEnlarges(bufAlloc: u32)

  // ---- projection to one connection ----

  function For(q: seq<Packet>, me: Pair): seq<Packet> {
    if q == [] then []
    else For(q[..|q| - 1], me) + if q[|q| - 1].pair == me then [q[|q| - 1]] else []
  }

  lemma {:induction false} ForConcat(a: seq<Packet>, b: seq<Packet>, me: Pair)
    ensures For(a + b, me) == For(a, me) + For(b, me)
    decreases |b|
  {
    if b == [] {
      assert a + b == a;
    } else {
      ForConcat(a, b[..|b| - 1], me);
      assert (a + b)[..|a + b| - 1] == a + b[..|b| - 1];
    }
  }

  lemma ForOne(p: Packet, me: Pair)
    ensures For([p], me) == if p.pair == me then [p] else []
  {
    assert [p][..0] == [];
  }

  lemma ForAppend(q: seq<Packet>, p: Packet, me: Pair)
    ensures For(q + [p], me) == For(q, me) + if p.pair == me then [p] else []
  {
    ForConcat(q, [p], me);
    ForOne(p, me);
  }

  lemma ForHead(q: seq<Packet>, me: Pair)
    requires q != []
    ensures For(q, me) == (if q[0].pair == me then [q[0]] else []) + For(q[1..], me)
  {
    assert q == [q[0]] + q[1..];
    ForConcat([q[0]], q[1..], me);
    ForOne(q[0], me);
  }

  function Mine(conns: seq<Conn>, me: Pair): seq<Conn> {
    if conns == [] then []
    else Mine(conns[..|conns| - 1], me) + if conns[|conns| - 1].pair == me then [conns[|conns| - 1]] else []
  }

  lemma {:induction false} MineConcat(a: seq<Conn>, b: seq<Conn>, me: Pair)
    ensures Mine(a + b, me) == Mine(a, me) + Mine(b, me)
    decreases |b|
  {
    if b == [] {
      assert a + b == a;
    } else {
      MineConcat(a, b[..|b| - 1], me);
      assert (a + b)[..|a + b| - 1] == a + b[..|b| - 1];
    }
  }

  lemma MineSplit(conns: seq<Conn>, i: nat, me: Pair)
    requires i < |conns|
    ensures Mine(conns, me)
            == Mine(conns[..i], me) + (if conns[i].pair == me then [conns[i]] else []) + Mine(conns[i + 1..], me)
  {
    assert conns == (conns[..i] + [conns[i]]) + conns[i + 1..];
    MineConcat(conns[..i] + [conns[i]], conns[i + 1..], me);
    MineConcat(conns[..i], [conns[i]], me);
    assert [conns[i]][..0] == [];
  }

  /** Exactly one connection has these ports. */
  predicate Live(d: Dev, me: Pair) { |Mine(d.conns, me)| == 1 && EPHEMERAL_BASE <= d.nextHostPort }

  lemma MineUpdate(conns: seq<Conn>, i: nat, c: Conn, me: Pair)
    requires i < |conns| && c.pair == conns[i].pair && |Mine(conns, me)| == 1
    ensures c.pair == me ==> Mine(conns, me) == [conns[i]] && Mine(conns[i := c], me) == [c]
    ensures c.pair != me ==> Mine(conns[i := c], me) == Mine(conns, me)
  {
    MineSplit(conns, i, me);
    MineSplit(conns[i := c], i, me);
    assert conns[i := c][..i] == conns[..i] && conns[i := c][i + 1..] == conns[i + 1..];
  }

  lemma MineFound(conns: seq<Conn>, me: Pair)
    requires |Mine(conns, me)| == 1
    ensures Find(conns, me).Some? && conns[Find(conns, me).value] == Mine(conns, me)[0]
  {
    if Find(conns, me) == None {
      MineNone(conns, me);
    } else {
      MineSplit(conns, Find(conns, me).value, me);
    }
  }

  lemma {:induction false} MineNone(conns: seq<Conn>, me: Pair)
    requires forall j | 0 <= j < |conns| :: conns[j].pair != me
    ensures Mine(conns, me) == []
  {
    if conns != [] { MineNone(conns[..|conns| - 1], me); }
  }

  lemma {:induction false} ReapShrinks(conns: seq<Conn>, me: Pair)
    ensures |Mine(Survivors(conns), me)| <= |Mine(conns, me)|
  {
    if conns != [] {
      var front, c := conns[..|conns| - 1], conns[|conns| - 1];
      ReapShrinks(front, me);
      if Dead(c) {
        assert Survivors(conns) == Survivors(front);
      } else {
        MineConcat(Survivors(front), [c], me);
        assert [c][..0] == [];
      }
    }
  }

  lemma {:induction false} ReapMine(conns: seq<Conn>, me: Pair)
    requires |Mine(Survivors(conns), me)| == |Mine(conns, me)|
    ensures Mine(Survivors(conns), me) == Mine(conns, me) && For(Shutdowns(conns), me) == []
  {
    if conns != [] {
      var front, c := conns[..|conns| - 1], conns[|conns| - 1];
      ReapShrinks(front, me);
      if Dead(c) {
        assert Survivors(conns) == Survivors(front);
        ForAppend(Shutdowns(front), Out(c.pair, OP_SHUTDOWN, c.fwdCnt, []), me);
      } else {
        MineConcat(Survivors(front), [c], me);
        assert [c][..0] == [];
        assert Shutdowns(conns) == Shutdowns(front);
      }
      ReapMine(front, me);
    }
  }

  function Project(s: System, me: Pair): Link
    requires Live(s.dev, me)
  {
    Link(Mine(s.dev.conns, me)[0], For(s.wire + s.dev.rx, me), For(s.queue, me), s.guest, s.accepted)
  }

  // ---- system steps ----

  /** What a step is to the connection `me`, if it concerns it. */
  function Part(s: System, e: SystemStep, me: Pair): Option<LinkStep>
    requires Able(s, e, me)
  {
    match e
    case GuestSends(p) => if p.pair == me then Some(Send(p)) else None
    case DeviceTakes(_) => if s.queue[0].pair == me then Some(Take) else None
    case Host(Accept(_)) => None
    case Host(Reap) => None
    case Host(Drain(i, n)) => if s.dev.conns[i].pair == me then Some(HostTakes(n)) else None
    case Host(Credit(i)) => if s.dev.conns[i].pair == me then Some(Update) else None
    case Host(Forward(i, data)) => if s.dev.conns[i].pair == me then Some(HostGives(data)) else None
    case Host(Finish(i)) => if s.dev.conns[i].pair == me then Some(Ended) else None
    case Poll => None
    case GuestGets => if s.wire[0].pair == me then Some(Arrive) else None
    case GuestConsumes(n) => Some(Consume(n))
    case GuestEnlarges(b) => Some(Enlarge(b))
  }

  predicate Doable(s: System, e: SystemStep) {
    match e
    case GuestSends(_) => true
    case DeviceTakes(_) => s.queue != []
    case Host(h) => Possible(s.dev, h)
    case Poll => s.dev.rx != []
    case GuestGets => s.wire != []
    case GuestConsumes(n) => s.guest.consumed + n <= |s.guest.got|
    case GuestEnlarges(b) => s.guest.bufAlloc <= b
  }

  /** While `me` is live the device meets no second REQUEST for it, and the host port range is not exhausted. */
  predicate Able(s: System, e: SystemStep, me: Pair) {
    && Doable(s, e)
    && (e.DeviceTakes? && s.queue[0].pair == me ==> s.queue[0].op != OP_REQUEST)
    && (e.Host? && e.step.Accept? ==>
          Free(s.dev.conns, e.step.guestPort, Allocate(s.dev.conns, e.step.guestPort, s.dev.nextHostPort).0))
  }

  function SystemNext(s: System, e: SystemStep, me: Pair): System
    requires Doable(s, e)
  {
    var g := s.guest;
    match e
    case GuestSends(p) =>
      s.(queue := s.queue + [p], guest := if p.pair == me then g.(sent := g.sent + Rw(p)) else g)
    case DeviceTakes(dialed) =>
      var p, at := s.queue[0], Find(s.dev.conns, me);
      s.(dev := OnGuest(s.dev, p, dialed), queue := s.queue[1..],
         accepted := if p.pair == me && p.op == OP_RW && at.Some? && !Overflows(s.dev.conns[at.value], p)
                     then s.accepted + p.payload else s.accepted)
    case Host(h) => s.(dev := Perform(s.dev, h))
    case Poll => s.(dev := s.dev.(rx := s.dev.rx[1..]), wire := s.wire + [s.dev.rx[0]])
    case GuestGets =>
      var p := s.wire[0];
      s.(wire := s.wire[1..], guest := if p.pair == me then g.(seenFwd := p.fwdCnt, got := g.got + Rw(p)) else g)
    case GuestConsumes(n) => s.(guest := g.(consumed := g.consumed + n))
    case GuestEnlarges(b) => s.(guest := g.(bufAlloc := b))
  }

  // ---- a system step is a link step or nothing ----

  predicate Simulates(s: System, e: SystemStep, me: Pair)
    requires Live(s.dev, me) && Able(s, e, me) && Live(SystemNext(s, e, me).dev, me)
  {
    var l, l1 := Project(s, me), Project(SystemNext(s, e, me), me);
    match Part(s, e, me)
    case None => l1 == l
    case Some(le) => CanStep(l, le) && l1 == Next(l, le)
  }

  lemma RxGrows(s: System, more: seq<Packet>, me: Pair)
    ensures For(s.wire + (s.dev.rx + more), me) == For(s.wire + s.dev.rx, me) + For(more, me)
  {
    assert s.wire + (s.dev.rx + more) == (s.wire + s.dev.rx) + more;
    ForConcat(s.wire + s.dev.rx, more, me);
  }

  /** The packets one guest packet makes the device queue. */
  function Replies(d: Dev, p: Packet, dialed: bool): seq<Packet>
    requires |d.rx| <= |OnGuest(d, p, dialed).rx|
  {
    OnGuest(d, p, dialed).rx[|d.rx|..]
  }

  lemma RequestKeepsMine(d: Dev, p: Packet, dialed: bool, me: Pair)
    requires Live(d, me) && p.op == OP_REQUEST && p.pair != me
    ensures Mine(OnGuest(d, p, dialed).conns, me) == Mine(d.conns, me)
    ensures OnGuest(d, p, dialed).rx == d.rx + [Out(p.pair, if dialed then OP_RESPONSE else OP_RST, 0, [])]
  {
    var at := Find(d.conns, p.pair);
    var conns := if at == None then d.conns
                 else d.conns[at.value := d.conns[at.value].(peerBufAlloc := p.bufAlloc, peerFwdCnt := p.fwdCnt)];
    if at.Some? { MineUpdate(d.conns, at.value, conns[at.value], me); }
    var c := Fresh(p.pair, p.bufAlloc, p.fwdCnt, true);
    MineConcat(conns, [c], me);
    assert [c][..0] == [];
  }

  lemma {:induction false} ForOthers(q: seq<Packet>, me: Pair)
    requires forall k | 0 <= k < |q| :: q[k].pair != me
    ensures For(q, me) == []
  {
    if q != [] { ForOthers(q[..|q| - 1], me); }
  }

  /** A packet for another pair does not touch ours. */
  lemma OtherTakes(d: Dev, p: Packet, dialed: bool, me: Pair)
    requires Live(d, me) && p.pair != me
    ensures Live(OnGuest(d, p, dialed), me) && Mine(OnGuest(d, p, dialed).conns, me) == Mine(d.conns, me)
    ensures |d.rx| <= |OnGuest(d, p, dialed).rx|
    ensures OnGuest(d, p, dialed).rx == d.rx + Replies(d, p, dialed) && For(Replies(d, p, dialed), me) == []
  {
    var at := Find(d.conns, p.pair);
    if p.op == OP_REQUEST {
      RequestKeepsMine(d, p, dialed, me);
    } else if at.Some? {
      MineUpdate(d.conns, at.value, Receive(d.conns[at.value], p).0, me);
    }
    ForOthers(Replies(d, p, dialed), me);
  }

  /** A packet for our pair meets our connection. */
  lemma MineTakes(d: Dev, p: Packet, dialed: bool, me: Pair)
    requires Live(d, me) && p.pair == me && p.op != OP_REQUEST
    ensures var (c, replies) := Receive(Mine(d.conns, me)[0], p);
            && Live(OnGuest(d, p, dialed), me) && Mine(OnGuest(d, p, dialed).conns, me) == [c]
            && OnGuest(d, p, dialed).rx == d.rx + replies && For(replies, me) == replies
  {
    MineFound(d.conns, me);
    var at := Find(d.conns, me).value;
    var (c, replies) := Receive(d.conns[at], p);
    MineUpdate(d.conns, at, c, me);
    if replies != [] {
      assert replies == [replies[0]];
      ForOne(replies[0], me);
    }
  }

  lemma MineTakeSimulates(s: System, dialed: bool, me: Pair)
    requires Live(s.dev, me) && Able(s, DeviceTakes(dialed), me) && s.queue[0].pair == me
    ensures Live(SystemNext(s, DeviceTakes(dialed), me).dev, me) && Simulates(s, DeviceTakes(dialed), me)
  {
    var p, c := s.queue[0], Mine(s.dev.conns, me)[0];
    ForHead(s.queue, me);
    var s1, l1 := SystemNext(s, DeviceTakes(dialed), me), Next(Project(s, me), Take);
    MineTakes(s.dev, p, dialed, me);
    MineFound(s.dev.conns, me);
    RxGrows(s, Receive(c, p).1, me);
    assert Project(s1, me).conn == l1.conn;
    assert Project(s1, me).toGuest == l1.toGuest;
    assert Project(s1, me).toDev == l1.toDev;
  }

  lemma OtherTakeSimulates(s: System, dialed: bool, me: Pair)
    requires Live(s.dev, me) && Able(s, DeviceTakes(dialed), me) && s.queue[0].pair != me
    ensures Live(SystemNext(s, DeviceTakes(dialed), me).dev, me) && Simulates(s, DeviceTakes(dialed), me)
  {
    var l, s1 := Project(s, me), SystemNext(s, DeviceTakes(dialed), me);
    assert Mine(s1.dev.conns, me) == Mine(s.dev.conns, me) && For(s1.wire + s1.dev.rx, me) == l.toGuest
        && Live(s1.dev, me) by {
      OtherTakes(s.dev, s.queue[0], dialed, me);
      RxGrows(s, Replies(s.dev, s.queue[0], dialed), me);
    }
    assert For(s1.queue, me) == l.toDev by { ForHead(s.queue, me); }
    assert Part(s, DeviceTakes(dialed), me) == None;
  }

  lemma AcceptSimulates(s: System, gp: u32, me: Pair)
    requires Live(s.dev, me) && Able(s, Host(Accept(gp)), me)
    ensures Live(SystemNext(s, Host(Accept(gp)), me).dev, me) && Simulates(s, Host(Accept(gp)), me)
  {
    var (hp, next) := Allocate(s.dev.conns, gp, s.dev.nextHostPort);
    AllocateFindsFree(s.dev.conns, gp, s.dev.nextHostPort);
    MineFound(s.dev.conns, me);
    assert Pair(gp, hp) != me;
    OtherOpens(s, SystemNext(s, Host(Accept(gp)), me), Fresh(Pair(gp, hp), 0, 0, false),
               Out(Pair(gp, hp), OP_REQUEST, 0, []), me);
  }

  /** A connection with other ports, and a packet for them. */
  lemma OtherOpens(s: System, t: System, c: Conn, p: Packet, me: Pair)
    requires Live(s.dev, me) && c.pair != me && p.pair != me && EPHEMERAL_BASE <= t.dev.nextHostPort
    requires t.dev.conns == s.dev.conns + [c] && t.dev.rx == s.dev.rx + [p] && t == s.(dev := t.dev)
    ensures Live(t.dev, me) && Project(t, me) == Project(s, me)
  {
    MineConcat(s.dev.conns, [c], me);
    assert [c][..0] == [];
    RxGrows(s, [p], me);
    ForOne(p, me);
  }

  lemma DrainSimulates(s: System, i: nat, n: nat, me: Pair)
    requires Live(s.dev, me) && Able(s, Host(Drain(i, n)), me)
    ensures Live(SystemNext(s, Host(Drain(i, n)), me).dev, me) && Simulates(s, Host(Drain(i, n)), me)
  {
    MineUpdate(s.dev.conns, i, Drained(s.dev.conns[i], n), me);
  }

  lemma FinishSimulates(s: System, i: nat, me: Pair)
    requires Live(s.dev, me) && Able(s, Host(Finish(i)), me)
    ensures Live(SystemNext(s, Host(Finish(i)), me).dev, me) && Simulates(s, Host(Finish(i)), me)
  {
    MineUpdate(s.dev.conns, i, s.dev.conns[i].(hostDone := true), me);
  }

  /** A step that replaces connection `i` and queues packets for its pair. */
  lemma UpdateProjects(s: System, t: System, i: nat, c: Conn, p: Packet, me: Pair)
    requires Live(s.dev, me) && i < |s.dev.conns| && c.pair == s.dev.conns[i].pair == p.pair
    requires t == s.(dev := s.dev.(conns := s.dev.conns[i := c], rx := s.dev.rx + [p]))
    ensures Live(t.dev, me)
    ensures Project(t, me) == if c.pair == me then Project(s, me).(conn := c, toGuest := Project(s, me).toGuest + [p])
                              else Project(s, me)
    ensures c.pair == me ==> Project(s, me).conn == s.dev.conns[i]
  {
    MineUpdate(s.dev.conns, i, c, me);
    RxGrows(s, [p], me);
    ForOne(p, me);
  }

  lemma CreditSimulates(s: System, i: nat, me: Pair)
    requires Live(s.dev, me) && Able(s, Host(Credit(i)), me)
    ensures Live(SystemNext(s, Host(Credit(i)), me).dev, me) && Simulates(s, Host(Credit(i)), me)
  {
    var c := s.dev.conns[i];
    assert s.dev.conns[i := c] == s.dev.conns;
    UpdateProjects(s, SystemNext(s, Host(Credit(i)), me), i, c, Out(c.pair, OP_CREDIT_UPDATE, c.fwdCnt, []), me);
  }

  lemma ForwardSimulates(s: System, i: nat, data: seq<byte>, me: Pair)
    requires Live(s.dev, me) && Able(s, Host(Forward(i, data)), me)
    ensures Live(SystemNext(s, Host(Forward(i, data)), me).dev, me) && Simulates(s, Host(Forward(i, data)), me)
  {
    var c := s.dev.conns[i];
    UpdateProjects(s, SystemNext(s, Host(Forward(i, data)), me), i, Forwarded(c, data),
                   Out(c.pair, OP_RW, c.fwdCnt, data), me);
  }

  lemma SendSimulates(s: System, p: Packet, me: Pair)
    requires Live(s.dev, me)
    ensures Simulates(s, GuestSends(p), me)
  {
    ForAppend(s.queue, p, me);
  }

  lemma PollSimulates(s: System, me: Pair)
    requires Live(s.dev, me) && s.dev.rx != []
    ensures Simulates(s, Poll, me)
  {
    assert s.wire + [s.dev.rx[0]] + s.dev.rx[1..] == s.wire + s.dev.rx;
  }

  lemma GetsSimulates(s: System, me: Pair)
    requires Live(s.dev, me) && s.wire != []
    ensures Simulates(s, GuestGets, me)
  {
    ForHead(s.wire + s.dev.rx, me);
    assert (s.wire + s.dev.rx)[1..] == s.wire[1..] + s.dev.rx;
  }

  lemma ReapSimulates(s: System, me: Pair)
    requires Live(s.dev, me) && Live(SystemNext(s, Host(Reap), me).dev, me)
    ensures Simulates(s, Host(Reap), me)
  {
    ReapShrinks(s.dev.conns, me);
    ReapMine(s.dev.conns, me);
    RxGrows(s, Shutdowns(s.dev.conns), me);
  }

  /** Every system step, seen from one live connection, is a step of its link or no step. */
  lemma StepSimulates(s: System, e: SystemStep, me: Pair)
    requires Live(s.dev, me) && Able(s, e, me) && Live(SystemNext(s, e, me).dev, me)
    ensures Simulates(s, e, me)
  {
    match e {
      case DeviceTakes(dialed) =>
        if s.queue[0].pair == me { MineTakeSimulates(s, dialed, me); } else { OtherTakeSimulates(s, dialed, me); }
      case Host(Accept(gp)) => AcceptSimulates(s, gp, me);
      case Host(Reap) => ReapSimulates(s, me);
      case Host(Drain(i, n)) => DrainSimulates(s, i, n, me);
      case Host(Credit(i)) => CreditSimulates(s, i, me);
      case Host(Forward(i, data)) => ForwardSimulates(s, i, data, me);
      case Host(Finish(i)) => FinishSimulates(s, i, me);
      case GuestSends(p) => SendSimulates(s, p, me);
      case Poll => PollSimulates(s, me);
      case GuestGets => GetsSimulates(s, me);
      case _ =>
    }
  }

  // ---- runs ----

  /** How the guest on connection `me` behaves; on other connections it does as it likes. */
  datatype Manner = Arbitrary | KeepsCredit | TellsTruth

  predicate Behaves(m: Manner, s: System, e: SystemStep, me: Pair)
    requires Live(s.dev, me) && Able(s, e, me)
  {
    var part := Part(s, e, me);
    part.Some? ==>
      && (m == KeepsCredit ==> Respects(Project(s, me), part.value))
      && (m == TellsTruth ==> Honest(Project(s, me), part.value))
  }

  /** The system after a run in which `me` stays live, or None if some step is not allowed. */
  function After(m: Manner, s: System, es: seq<SystemStep>, me: Pair): (r: Option<System>)
    requires Live(s.dev, me)
    ensures r.Some? ==> Live(r.value.dev, me)
    decreases |es|
  {
    if es == [] then Some(s)
    else
      var r := After(m, s, es[..|es| - 1], me);
      var e := es[|es| - 1];
      if r.Some? && Able(r.value, e, me) && Behaves(m, r.value, e, me) && Live(SystemNext(r.value, e, me).dev, me)
      then Some(SystemNext(r.value, e, me))
      else None
  }

  /** Where the guarantees of each manner begin. */
  predicate Starts(m: Manner, l: Link) { if m == Arbitrary then Begun(l) else Opened(l) }

  /** RW payload the guest has got or is about to get on the ports of `me`. */
  function Given(s: System, me: Pair): seq<byte> { s.guest.got + RwBytes(For(s.wire + s.dev.rx, me)) }

  ghost predicate Guaranteed(m: Manner, l: Link, before: seq<byte>) {
    match m
    case Arbitrary => ConservedSince(l, before)
    case KeepsCredit => Credited(l)
    case TellsTruth => Windowed(l)
  }

  lemma {:induction false} RunGuarantees(m: Manner, s: System, es: seq<SystemStep>, me: Pair)
    requires Live(s.dev, me) && Starts(m, Project(s, me)) && After(m, s, es, me).Some?
    ensures Guaranteed(m, Project(After(m, s, es, me).value, me), Given(s, me))
    decreases |es|
  {
    if es == [] {
      match m
      case Arbitrary => BegunConserved(Project(s, me));
      case KeepsCredit => OpenedCredited(Project(s, me));
      case TellsTruth => OpenedWindowed(Project(s, me));
    } else {
      RunGuarantees(m, s, es[..|es| - 1], me);
      var t, e := After(m, s, es[..|es| - 1], me).value, es[|es| - 1];
      StepSimulates(t, e, me);
      var part := Part(t, e, me);
      if part.Some? {
        match m
        case Arbitrary => StepConserves(Project(t, me), part.value, Given(s, me));
        case KeepsCredit => StepCredited(Project(t, me), part.value);
        case TellsTruth => StepWindowed(Project(t, me), part.value);
      }
    }
  }

  /** Both byte streams of connection `me` in `t`, since it was opened in `s`. */
  predicate StreamsIntact(s: System, t: System, me: Pair)
    requires Live(t.dev, me)
  {
    var c := Mine(t.dev.conns, me)[0];
    && |c.toHost| <= BUF_ALLOC
    && c.stream.written + c.toHost == t.accepted
    && c.fwdCnt == |c.stream.written| % U32_SPAN
    && Given(t, me) == Given(s, me) + c.stream.read
    && c.txCnt == |c.stream.read| % U32_SPAN
  }

  /** Whatever the guest does, has queued, or is still owed when the device creates the connection: the buffer
      towards the host is bounded; what the host received followed by what waits is what was accepted, in order;
      the RW payload the guest got followed by what is queued for it grows by exactly what the host gave; and both
      counters are those totals modulo 2^32. */
  lemma {:induction false} BytesConserved(s: System, es: seq<SystemStep>, me: Pair)
    requires Live(s.dev, me) && Begun(Project(s, me)) && After(Arbitrary, s, es, me).Some?
    ensures StreamsIntact(s, After(Arbitrary, s, es, me).value, me)
  {
    RunGuarantees(Arbitrary, s, es, me);
  }

  /** A guest that keeps to the credit it has been told of is never reset: no RST is ever queued for it, and
      everything it sent is accepted or still queued. */
  lemma {:induction false} CreditKeeperNeverReset(s: System, es: seq<SystemStep>, me: Pair)
    requires Live(s.dev, me) && Opened(Project(s, me)) && After(KeepsCredit, s, es, me).Some?
    ensures var t := After(KeepsCredit, s, es, me).value;
            && (forall k | 0 <= k < |For(t.wire + t.dev.rx, me)| :: For(t.wire + t.dev.rx, me)[k].op != OP_RST)
            && t.guest.sent == t.accepted + RwBytes(For(t.queue, me))
            && (t.queue != [] && t.queue[0].pair == me && t.queue[0].op == OP_RW ==>
                  !Overflows(Mine(t.dev.conns, me)[0], t.queue[0]))
  {
    RunGuarantees(KeepsCredit, s, es, me);
    var t := After(KeepsCredit, s, es, me).value;
    var l := Project(t, me);
    if t.queue != [] && t.queue[0].pair == me && t.queue[0].op == OP_RW {
      ForHead(t.queue, me);
      NoOverflow(l);
    }
  }

  /** A guest that reports truthfully is never sent more than it can hold, however often counters wrap. */
  lemma {:induction false} GuestNeverOverrun(s: System, es: seq<SystemStep>, me: Pair)
    requires Live(s.dev, me) && Opened(Project(s, me)) && After(TellsTruth, s, es, me).Some?
    ensures var t := After(TellsTruth, s, es, me).value;
            t.guest.consumed <= |Mine(t.dev.conns, me)[0].stream.read| <= t.guest.consumed + t.guest.bufAlloc
  {
    RunGuarantees(TellsTruth, s, es, me);
    UnconsumedBounded(Project(After(TellsTruth, s, es, me).value, me));
  }
}

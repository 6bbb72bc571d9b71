/** Every connection of the vsock device at once, over every run from boot and against any guest: no manner, no
    uniqueness of ports and no order of packets is assumed. */
module VsockTable {
  import opened Words
  import opened VsockSpec
  import opened VsockCredit

  /** A connection dropped from the table, with the payload the device had accepted for it. */
  datatype Dropped = Dropped(conn: Conn, accepted: seq<byte>)

  /** The device, for each connection the payload accepted for it so far, and the connections reaped. */
  datatype Table = Table(dev: Dev, accepted: seq<seq<byte>>, reaped: seq<Dropped>)

  datatype Event = FromGuest(p: Packet, dialed: bool) | FromHost(step: HostStep) | Polled

  const BOOT := Table(Dev([], [], EPHEMERAL_BASE), [], [])

  predicate Able(t: Table, e: Event) {
    && |t.accepted| == |t.dev.conns|
    && match e
       case FromGuest(_, _) => true
       case FromHost(h) => Possible(t.dev, h)
       case Polled => t.dev.rx != []
  }

  /** What a guest packet adds to the logs: REQUESTs open a connection, RW payload that fits is accepted. */
  function LogPacket(d: Dev, accepted: seq<seq<byte>>, p: Packet, dialed: bool): seq<seq<byte>>
    requires |accepted| == |d.conns|
  {
    var at := Find(d.conns, p.pair);
    if p.op == OP_REQUEST then (if dialed then accepted + [[]] else accepted)
    else if at.Some? && p.op == OP_RW && !Overflows(d.conns[at.value], p) then
      accepted[at.value := accepted[at.value] + p.payload]
    else accepted
  }

  /** The logs of the connections that survive a reap, and those of the others. */
  function KeptLogs(conns: seq<Conn>, accepted: seq<seq<byte>>): seq<seq<byte>>
    requires |accepted| == |conns|
  {
    if conns == [] then []
    else
      var n := |conns| - 1;
      KeptLogs(conns[..n], accepted[..n]) + if Dead(conns[n]) then [] else [accepted[n]]
  }

  function Buried(conns: seq<Conn>, accepted: seq<seq<byte>>): seq<Dropped>
    requires |accepted| == |conns|
  {
    if conns == [] then []
    else
      var n := |conns| - 1;
      Buried(conns[..n], accepted[..n]) + if Dead(conns[n]) then [Dropped(conns[n], accepted[n])] else []
  }

  function Next(t: Table, e: Event): Table
    requires Able(t, e)
  {
    match e
    case FromGuest(p, dialed) =>
      t.(dev := OnGuest(t.dev, p, dialed), accepted := LogPacket(t.dev, t.accepted, p, dialed))
    case FromHost(h) =>
      Table(Perform(t.dev, h),
            (match h
             case Accept(_) => t.accepted + [[]]
             case Reap => KeptLogs(t.dev.conns, t.accepted)
             case _ => t.accepted),
            if h.Reap? then t.reaped + Buried(t.dev.conns, t.accepted) else t.reaped)
    case Polled => t.(dev := t.dev.(rx := t.dev.rx[1..]))
  }

  /** One connection's account: what the host has and what waits is what was accepted, within the buffer, and the
      counters are the totals modulo 2^32. */
  predicate Accounted(c: Conn, accepted: seq<byte>) {
    Upstream(c, accepted) && c.txCnt == |c.stream.read| % U32_SPAN
  }

  predicate AllAccounted(conns: seq<Conn>, accepted: seq<seq<byte>>) {
    |conns| == |accepted| && forall i | 0 <= i < |conns| :: Accounted(conns[i], accepted[i])
  }

  /** Nothing accepted was lost: the host has all of it, and the guest was told so. */
  predicate Complete(x: Dropped) {
    x.conn.stream.written == x.accepted && x.conn.fwdCnt == |x.accepted| % U32_SPAN
  }

  predicate Sound(t: Table) {
    && AllAccounted(t.dev.conns, t.accepted)
    && EPHEMERAL_BASE <= t.dev.nextHostPort
    && forall x | x in t.reaped :: Complete(x)
  }

  lemma PacketAccounted(d: Dev, accepted: seq<seq<byte>>, p: Packet, dialed: bool)
    requires AllAccounted(d.conns, accepted)
    ensures AllAccounted(OnGuest(d, p, dialed).conns, LogPacket(d, accepted, p, dialed))
  {
    var at := Find(d.conns, p.pair);
    if at.Some? { ReceiveUpstream(d.conns[at.value], p, accepted[at.value]); }
  }

  lemma OneAccounted(conns: seq<Conn>, accepted: seq<seq<byte>>, i: nat, c: Conn)
    requires AllAccounted(conns, accepted) && i < |conns| && Accounted(c, accepted[i])
    ensures AllAccounted(conns[i := c], accepted)
  {
  }

  lemma {:induction false} ReapAccounted(conns: seq<Conn>, accepted: seq<seq<byte>>)
    requires AllAccounted(conns, accepted)
    ensures AllAccounted(Survivors(conns), KeptLogs(conns, accepted))
    ensures forall x | x in Buried(conns, accepted) :: Complete(x)
  {
    if conns != [] {
      var n := |conns| - 1;
      ReapAccounted(conns[..n], accepted[..n]);
      assert Accounted(conns[n], accepted[n]);
      if Dead(conns[n]) { assert conns[n].stream.written + [] == accepted[n]; }
    }
  }

  lemma HostAccounted(d: Dev, accepted: seq<seq<byte>>, h: HostStep)
    requires AllAccounted(d.conns, accepted) && Possible(d, h) && !h.Reap? && !h.Accept?
    ensures AllAccounted(Perform(d, h).conns, accepted)
  {
    match h
    case Drain(i, n) =>
      DrainUpstream(d.conns[i], n, accepted[i]);
      OneAccounted(d.conns, accepted, i, Drained(d.conns[i], n));
    case Forward(i, data) =>
      WrapAddExact(|d.conns[i].stream.read|, |data|);
      OneAccounted(d.conns, accepted, i, Forwarded(d.conns[i], data));
    case Finish(i) => OneAccounted(d.conns, accepted, i, d.conns[i].(hostDone := true));
    case Credit(_) =>
  }

  lemma StepSound(t: Table, e: Event)
    requires Sound(t) && Able(t, e)
    ensures Sound(Next(t, e))
  {
    match e
    case FromGuest(p, dialed) => PacketAccounted(t.dev, t.accepted, p, dialed);
    case FromHost(Accept(gp)) => AllocateFindsFree(t.dev.conns, gp, t.dev.nextHostPort);
    case FromHost(Reap) => ReapAccounted(t.dev.conns, t.accepted);
    case FromHost(h) => HostAccounted(t.dev, t.accepted, h);
    case Polled =>
  }

  function After(es: seq<Event>): Option<Table>
    decreases |es|
  {
    if es == [] then Some(BOOT)
    else
      var r := After(es[..|es| - 1]);
      if r.Some? && Able(r.value, es[|es| - 1]) then Some(Next(r.value, es[|es| - 1])) else None
  }

  lemma {:induction false} RunSound(es: seq<Event>)
    requires After(es).Some?
    ensures Sound(After(es).value)
    decreases |es|
  {
    if es != [] {
      RunSound(es[..|es| - 1]);
      StepSound(After(es[..|es| - 1]).value, es[|es| - 1]);
    }
  }

  /** Over every run from boot, whatever packets arrive in whatever order, second REQUESTs for live ports included:
      no connection buffers more than it advertises, each host socket has exactly the beginning of what was
      accepted for it, both counters are exact modulo 2^32, and no connection was ever dropped with accepted bytes
      undelivered. */
  lemma {:induction false} EveryConnectionAccounted(es: seq<Event>)
    requires After(es).Some?
    ensures var t := After(es).value;
            && |t.accepted| == |t.dev.conns|
            && (forall i | 0 <= i < |t.dev.conns| ::
                  var c := t.dev.conns[i];
                  && |c.toHost| <= BUF_ALLOC
                  && c.stream.written + c.toHost == t.accepted[i]
                  && c.fwdCnt == |c.stream.written| % U32_SPAN && c.txCnt == |c.stream.read| % U32_SPAN)
            && (forall x | x in t.reaped ::
                  x.conn.stream.written == x.accepted && x.conn.fwdCnt == |x.accepted| % U32_SPAN)
  {
    RunSound(es);
    var t := After(es).value;
    forall i | 0 <= i < |t.dev.conns| ensures Accounted(t.dev.conns[i], t.accepted[i]) {
    }
  }
}

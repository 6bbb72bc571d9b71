/** Destination NAT at the level of address and port tuples: the flow table, both rewrites, ephemeral ports. */
module Nat {
  import opened Words

  type Ip = u32

  const GATEWAY: Ip := 0x0a00_0001
  const GUEST: Ip := 0x0a00_0002
  const MAX_FLOWS: nat := 256
  const EPH_LOW: u16 := 40000
  const EPH_COUNT: nat := 25536

  /** A frame: its TCP tuple, or anything else. */
  datatype Frame = Tcp(src: Ip, dst: Ip, sport: u16, dport: u16, syn: bool, ack: bool) | Other

  datatype Flow = Flow(guestPort: u16, extIp: Ip, extPort: u16, eph: u16)

  /** A connection the gateway dials to the guest for a forwarded host port. */
  datatype Inbound = Inbound(eph: u16, guestPort: u16)

  datatype Net = Net(flows: seq<Flow>, inbound: seq<Inbound>, nextEph: u16)

  function NextEph(e: u16): u16 { Max((e + 1) % U16_SPAN, EPH_LOW) }

  /** The positions that stay when those marked are dropped. */
  function Kept(closed: seq<bool>): (r: seq<nat>)
    ensures forall i | 0 <= i < |r| :: r[i] < |closed| && !closed[r[i]]
    ensures forall i, j | 0 <= i < j < |r| :: r[i] < r[j]
    ensures forall k: nat | k < |closed| && !closed[k] :: k in r
  {
    if closed == [] then []
    else
      var n := |closed| - 1;
      Kept(closed[..n]) + if closed[n] then [] else [n]
  }

  function Select<T>(s: seq<T>, at: seq<nat>): seq<T>
    requires forall i | 0 <= i < |at| :: at[i] < |s|
  {
    seq(|at|, k requires 0 <= k < |at| => s[at[k]])
  }

  lemma SelectMore<T>(s: seq<T>, closed: seq<bool>, i: nat)
    requires i < |closed| <= |s|
    ensures Select(s, Kept(closed[..i + 1])) == Select(s, Kept(closed[..i])) + if closed[i] then [] else [s[i]]
  {
    assert closed[..i + 1][..i] == closed[..i];
  }

  predicate Matches(f: Flow, sport: u16, dst: Ip, dport: u16) {
    f.guestPort == sport && f.extIp == dst && f.extPort == dport
  }

  function FindKey(flows: seq<Flow>, sport: u16, dst: Ip, dport: u16, i: nat): (r: Option<nat>)
    requires i <= |flows|
    ensures r.Some? ==> i <= r.value < |flows| && Matches(flows[r.value], sport, dst, dport)
    ensures r == None ==> forall k | i <= k < |flows| :: !Matches(flows[k], sport, dst, dport)
    decreases |flows| - i
  {
    if i == |flows| then None
    else if Matches(flows[i], sport, dst, dport) then Some(i) else FindKey(flows, sport, dst, dport, i + 1)
  }

  function FindReply(flows: seq<Flow>, eph: u16, guestPort: u16, i: nat): (r: Option<nat>)
    requires i <= |flows|
    ensures r.Some? ==> i <= r.value < |flows| && flows[r.value].eph == eph && flows[r.value].guestPort == guestPort
    ensures r.Some? ==> forall k | i <= k < r.value :: flows[k].eph != eph || flows[k].guestPort != guestPort
    ensures r == None ==> forall k | i <= k < |flows| :: flows[k].eph != eph || flows[k].guestPort != guestPort
    decreases |flows| - i
  {
    if i == |flows| then None
    else if flows[i].eph == eph && flows[i].guestPort == guestPort then Some(i)
    else FindReply(flows, eph, guestPort, i + 1)
  }

  /** A guest frame of a known flow is sent to the gateway at the flow's port. */
  function GuestOut(flows: seq<Flow>, f: Frame): Frame {
    if f.Tcp? && f.src == GUEST then
      var at := FindKey(flows, f.sport, f.dst, f.dport, 0);
      if at.Some? then f.(dst := GATEWAY, dport := flows[at.value].eph) else f
    else f
  }

  /** A gateway reply to the guest of a known flow is made to come from the external host. */
  function GuestIn(flows: seq<Flow>, f: Frame): Frame {
    if f.Tcp? && f.src == GATEWAY && f.dst == GUEST then
      var at := FindReply(flows, f.sport, f.dport, 0);
      if at.Some? then f.(src := flows[at.value].extIp, sport := flows[at.value].extPort) else f
    else f
  }

  /** Would this frame open a new flow? `blocked` is the egress policy's verdict on its destination. */
  predicate Opens(n: Net, f: Frame, blocked: bool) {
    && f.Tcp? && f.syn && !f.ack && f.src == GUEST
    && FindKey(n.flows, f.sport, f.dst, f.dport, 0) == None
    && |n.flows| < MAX_FLOWS && !blocked
  }

  /** The netstack's connection tables. */
  class Netstack {
    var flows: seq<Flow>
    var inbound: seq<Inbound>
    var nextEph: u16

    ghost function State(): Net
      reads this
    {
      Net(flows, inbound, nextEph)
    }

    constructor ()
      ensures State() == Net([], [], EPH_LOW)
    {
      flows, inbound, nextEph := [], [], EPH_LOW;
    }

    method MaybeOpenFlow(f: Frame, blocked: bool, listenOk: bool)
      modifies this
      ensures State() == if Opens(old(State()), f, blocked) then Opened(old(State()), f, listenOk) else old(State())
    {
      if !f.Tcp? || !f.syn || f.ack || f.src != GUEST {
        return;
      }
      for i := 0 to |flows|
        invariant FindKey(flows, f.sport, f.dst, f.dport, 0) == FindKey(flows, f.sport, f.dst, f.dport, i)
      {
        if flows[i].guestPort == f.sport && flows[i].extIp == f.dst && flows[i].extPort == f.dport {
          return;
        }
      }
      if |flows| >= MAX_FLOWS || blocked {
        return;
      }
      nextEph := NextEph(nextEph);
      if !listenOk {
        return;
      }
      flows := flows + [Flow(f.sport, f.dst, f.dport, nextEph)];
    }

    method AcceptInbound(guestPort: u16, dialOk: bool)
      modifies this
      ensures State() == Dialed(old(State()), guestPort, dialOk)
    {
      nextEph := NextEph(nextEph);
      if dialOk {
        inbound := inbound + [Inbound(nextEph, guestPort)];
      }
    }

    /** Drop the flows whose gateway socket is closed. */
    method ReapFlows(closed: seq<bool>)
      requires |closed| == |flows|
      modifies this
      ensures State() == old(State()).(flows := Select(old(flows), Kept(closed)))
    {
      var live: seq<Flow> := [];
      for i := 0 to |flows|
        invariant flows == old(flows) && State() == old(State())
        invariant live == Select(flows, Kept(closed[..i]))
      {
        SelectMore(flows, closed, i);
        if !closed[i] {
          live := live + [flows[i]];
        }
      }
      assert closed[..|flows|] == closed;
      flows := live;
    }

    method ReapInbound(closed: seq<bool>)
      requires |closed| == |inbound|
      modifies this
      ensures State() == old(State()).(inbound := Select(old(inbound), Kept(closed)))
    {
      var live: seq<Inbound> := [];
      for i := 0 to |inbound|
        invariant inbound == old(inbound) && State() == old(State())
        invariant live == Select(inbound, Kept(closed[..i]))
      {
        SelectMore(inbound, closed, i);
        if !closed[i] {
          live := live + [inbound[i]];
        }
      }
      assert closed[..|inbound|] == closed;
      inbound := live;
    }

    method DnatIn(f: Frame) returns (r: Frame)
      ensures r == GuestOut(flows, f)
    {
      if !f.Tcp? || f.src != GUEST {
        return f;
      }
      for i := 0 to |flows|
        invariant FindKey(flows, f.sport, f.dst, f.dport, 0) == FindKey(flows, f.sport, f.dst, f.dport, i)
      {
        if Matches(flows[i], f.sport, f.dst, f.dport) {
          return f.(dst := GATEWAY, dport := flows[i].eph);
        }
      }
      return f;
    }

    method DnatOut(f: Frame) returns (r: Frame)
      ensures r == GuestIn(flows, f)
    {
      if !f.Tcp? || f.src != GATEWAY || f.dst != GUEST {
        return f;
      }
      for i := 0 to |flows|
        invariant FindReply(flows, f.sport, f.dport, 0) == FindReply(flows, f.sport, f.dport, i)
      {
        if flows[i].eph == f.sport && flows[i].guestPort == f.dport {
          return f.(src := flows[i].extIp, sport := flows[i].extPort);
        }
      }
      return f;
    }
  }

  function Opened(n: Net, f: Frame, listenOk: bool): Net
    requires f.Tcp?
  {
    var e := NextEph(n.nextEph);
    n.(nextEph := e, flows := if listenOk then n.flows + [Flow(f.sport, f.dst, f.dport, e)] else n.flows)
  }

  function Dialed(n: Net, guestPort: u16, dialOk: bool): Net {
    var e := NextEph(n.nextEph);
    n.(nextEph := e, inbound := if dialOk then n.inbound + [Inbound(e, guestPort)] else n.inbound)
  }

  // ---- the rewrites are inverse exactly when no two flows share a rewritten tuple ----

  /** A guest frame of flow `fl`, and the frame going the other way. */
  function Sent(fl: Flow, syn: bool, ack: bool): Frame { Tcp(GUEST, fl.extIp, fl.guestPort, fl.extPort, syn, ack) }

  function Reply(f: Frame): Frame
    requires f.Tcp?
  {
    f.(src := f.dst, dst := f.src, sport := f.dport, dport := f.sport)
  }

  predicate KeysDistinct(flows: seq<Flow>) {
    forall i, j | 0 <= i < j < |flows| :: !Matches(flows[i], flows[j].guestPort, flows[j].extIp, flows[j].extPort)
  }

  predicate TuplesDistinct(flows: seq<Flow>) {
    forall i, j | 0 <= i < j < |flows| :: flows[i].eph != flows[j].eph || flows[i].guestPort != flows[j].guestPort
  }

  /** The reply to flow `i`'s rewritten frame comes back as the reply to the original. */
  predicate Inverts(flows: seq<Flow>, i: nat)
    requires i < |flows|
  {
    forall syn, ack ::
      var f := Sent(flows[i], syn, ack);
      GuestOut(flows, f).Tcp? && GuestIn(flows, Reply(GuestOut(flows, f))) == Reply(f)
  }

  lemma RewrittenTuple(flows: seq<Flow>, i: nat, syn: bool, ack: bool)
    requires i < |flows| && KeysDistinct(flows)
    ensures GuestOut(flows, Sent(flows[i], syn, ack)) == Tcp(GUEST, GATEWAY, flows[i].guestPort, flows[i].eph, syn, ack)
  {
    var f := Sent(flows[i], syn, ack);
    var at := FindKey(flows, f.sport, f.dst, f.dport, 0);
    assert Matches(flows[i], f.sport, f.dst, f.dport);
    assert at.value == i;
  }

  lemma InverseIff(flows: seq<Flow>)
    requires KeysDistinct(flows)
    ensures (forall i | 0 <= i < |flows| :: Inverts(flows, i)) <==> TuplesDistinct(flows)
  {
    if TuplesDistinct(flows) {
      forall i | 0 <= i < |flows| ensures Inverts(flows, i) {
        forall syn, ack
          ensures var f := Sent(flows[i], syn, ack);
                  GuestOut(flows, f).Tcp? && GuestIn(flows, Reply(GuestOut(flows, f))) == Reply(f)
        {
          RewrittenTuple(flows, i, syn, ack);
        }
      }
    } else {
      var i, j :| 0 <= i < j < |flows| && flows[i].eph == flows[j].eph && flows[i].guestPort == flows[j].guestPort;
      RewrittenTuple(flows, j, true, false);
      var f := Sent(flows[j], true, false);
      var at := FindReply(flows, flows[j].eph, flows[j].guestPort, 0);
      assert at.Some? && at.value <= i;
      assert !Matches(flows[at.value], flows[j].guestPort, flows[j].extIp, flows[j].extPort);
      assert GuestIn(flows, Reply(GuestOut(flows, f))) != Reply(f);
      assert !Inverts(flows, j);
    }
  }

  // ---- ephemeral ports ----

  /** The port of the `k`-th allocation; the counter starts at 40000 before the first. */
  function EphAt(k: nat): u16 { EPH_LOW + k % EPH_COUNT }

  lemma NextEphAt(k: nat)
    ensures NextEph(EphAt(k)) == EphAt(k + 1)
  {
    var m := k % EPH_COUNT;
    if m == EPH_COUNT - 1 {
      assert (k + 1) % EPH_COUNT == 0;
    } else {
      assert (k + 1) % EPH_COUNT == m + 1;
    }
  }

  /** `b` is a multiple of 25536 allocations after `a`. */
  predicate WholeTurns(a: nat, b: nat) { (b - a) % EPH_COUNT == 0 }

  /** Two allocations give the same port exactly when they are a multiple of 25536 apart. */
  lemma EphEqualIff(a: nat, b: nat)
    requires a <= b
    ensures EphAt(a) == EphAt(b) <==> WholeTurns(a, b)
  {
  }

  /** So any 25536 consecutive allocations are distinct. */
  lemma EphDistinct(a: nat, b: nat)
    requires a < b < a + EPH_COUNT
    ensures EphAt(a) != EphAt(b)
  {
    EphEqualIff(a, b);
  }

  // ---- runs ----

  /** The tables with, for every live connection, the number of its port allocation; and how many there were. */
  datatype Run = Run(net: Net, flowBirths: seq<nat>, inboundBirths: seq<nat>, allocations: nat)

  datatype Event =
    | Syn(frame: Frame, blocked: bool, listenOk: bool)
    | Dial(guestPort: u16, ok: bool)
    | ReapFlows(closed: seq<bool>)
    | ReapInbound(closed: seq<bool>)

  predicate Able(r: Run, e: Event) {
    match e
    case ReapFlows(closed) => |closed| == |r.net.flows| == |r.flowBirths|
    case ReapInbound(closed) => |closed| == |r.net.inbound| == |r.inboundBirths|
    case _ => true
  }

  function Next(r: Run, e: Event): Run
    requires Able(r, e)
  {
    match e
    case Syn(f, blocked, ok) =>
      if Opens(r.net, f, blocked) then
        Run(Opened(r.net, f, ok), if ok then r.flowBirths + [r.allocations + 1] else r.flowBirths, r.inboundBirths,
            r.allocations + 1)
      else r
    case Dial(gp, ok) =>
      Run(Dialed(r.net, gp, ok), r.flowBirths, if ok then r.inboundBirths + [r.allocations + 1] else r.inboundBirths,
          r.allocations + 1)
    case ReapFlows(closed) =>
      r.(net := r.net.(flows := Select(r.net.flows, Kept(closed))), flowBirths := Select(r.flowBirths, Kept(closed)))
    case ReapInbound(closed) =>
      r.(net := r.net.(inbound := Select(r.net.inbound, Kept(closed))),
         inboundBirths := Select(r.inboundBirths, Kept(closed)))
  }

  /** Births are in order, and each connection's port is that of its birth. */
  predicate Dated(r: Run) {
    && |r.flowBirths| == |r.net.flows| && |r.inboundBirths| == |r.net.inbound|
    && r.net.nextEph == EphAt(r.allocations)
    && KeysDistinct(r.net.flows)
    && (forall i | 0 <= i < |r.flowBirths| ::
          r.net.flows[i].eph == EphAt(r.flowBirths[i]) && 0 < r.flowBirths[i] <= r.allocations)
    && (forall i | 0 <= i < |r.inboundBirths| ::
          r.net.inbound[i].eph == EphAt(r.inboundBirths[i]) && 0 < r.inboundBirths[i] <= r.allocations)
    && (forall i, j | 0 <= i < j < |r.flowBirths| :: r.flowBirths[i] < r.flowBirths[j])
    && (forall i, j | 0 <= i < |r.flowBirths| && 0 <= j < |r.inboundBirths| :: r.flowBirths[i] != r.inboundBirths[j])
  }

  lemma SynDated(r: Run, f: Frame, blocked: bool, ok: bool)
    requires Dated(r) && Opens(r.net, f, blocked)
    ensures Dated(Next(r, Syn(f, blocked, ok)))
  {
    NextEphAt(r.allocations);
    if ok { KeyAdded(r.net.flows, Flow(f.sport, f.dst, f.dport, EphAt(r.allocations + 1))); }
  }

  lemma KeyAdded(flows: seq<Flow>, fl: Flow)
    requires KeysDistinct(flows)
    requires forall k | 0 <= k < |flows| :: !Matches(flows[k], fl.guestPort, fl.extIp, fl.extPort)
    ensures KeysDistinct(flows + [fl])
  {
  }

  lemma DialDated(r: Run, gp: u16, ok: bool)
    requires Dated(r)
    ensures Dated(Next(r, Dial(gp, ok)))
  {
    NextEphAt(r.allocations);
  }

  lemma KeysKept(flows: seq<Flow>, closed: seq<bool>)
    requires KeysDistinct(flows) && |closed| == |flows|
    ensures KeysDistinct(Select(flows, Kept(closed)))
  {
  }

  lemma ReapDated(r: Run, closed: seq<bool>)
    requires Dated(r) && |closed| == |r.net.flows|
    ensures Dated(Next(r, ReapFlows(closed)))
  {
    KeysKept(r.net.flows, closed);
  }

  lemma StepDated(r: Run, e: Event)
    requires Dated(r) && Able(r, e)
    ensures Dated(Next(r, e))
  {
    match e {
      case Syn(f, blocked, ok) => if Opens(r.net, f, blocked) { SynDated(r, f, blocked, ok); }
      case Dial(gp, ok) => DialDated(r, gp, ok);
      case ReapFlows(closed) => ReapDated(r, closed);
      case ReapInbound(closed) =>
    }
  }

  function After(es: seq<Event>): Option<Run>
    decreases |es|
  {
    if es == [] then Some(Run(Net([], [], EPH_LOW), [], [], 0))
    else
      var p := After(es[..|es| - 1]);
      if p.Some? && Able(p.value, es[|es| - 1]) then Some(Next(p.value, es[|es| - 1])) else None
  }

  lemma {:induction false} RunDated(es: seq<Event>)
    requires After(es).Some?
    ensures Dated(After(es).value)
    decreases |es|
  {
    if es != [] {
      RunDated(es[..|es| - 1]);
      StepDated(After(es[..|es| - 1]).value, es[|es| - 1]);
    }
  }

  /** No live connection is older than a full cycle of ports. */
  predicate Young(r: Run) {
    && (forall i | 0 <= i < |r.flowBirths| :: r.allocations < r.flowBirths[i] + EPH_COUNT)
    && (forall i | 0 <= i < |r.inboundBirths| :: r.allocations < r.inboundBirths[i] + EPH_COUNT)
  }

  /** The frames of forwarded connection `b`, both ways. */
  function ToGuestOn(b: Inbound, syn: bool, ack: bool): Frame { Tcp(GATEWAY, GUEST, b.eph, b.guestPort, syn, ack) }

  function ToGatewayOn(b: Inbound, syn: bool, ack: bool): Frame { Tcp(GUEST, GATEWAY, b.guestPort, b.eph, syn, ack) }

  /** The guest itself opened a flow from that port to the gateway at that port. */
  predicate Shadowed(flows: seq<Flow>, b: Inbound) {
    exists i :: 0 <= i < |flows| && Matches(flows[i], b.guestPort, GATEWAY, b.eph)
  }

  lemma {:induction false} PortsApart(es: seq<Event>)
    requires After(es).Some? && Young(After(es).value)
    ensures var n := After(es).value.net;
            && (forall i, j | 0 <= i < j < |n.flows| :: n.flows[i].eph != n.flows[j].eph)
            && (forall i, k | 0 <= i < |n.flows| && 0 <= k < |n.inbound| :: n.flows[i].eph != n.inbound[k].eph)
  {
    RunDated(es);
    var r := After(es).value;
    var n := r.net;
    forall i, j | 0 <= i < j < |n.flows| ensures n.flows[i].eph != n.flows[j].eph {
      EphDistinct(r.flowBirths[i], r.flowBirths[j]);
    }
    forall i, k | 0 <= i < |n.flows| && 0 <= k < |n.inbound| ensures n.flows[i].eph != n.inbound[k].eph {
      var a, b := r.flowBirths[i], r.inboundBirths[k];
      if a < b { EphDistinct(a, b); } else { EphDistinct(b, a); }
    }
  }

  /** Over any run, while every connection is young: each flow's rewrites invert, no two flows share a rewritten
      tuple, and no reply of a forwarded connection is taken for one of a flow. */
  lemma {:induction false} NatInverse(es: seq<Event>)
    requires After(es).Some? && Young(After(es).value)
    ensures var n := After(es).value.net;
            && (forall i | 0 <= i < |n.flows| :: Inverts(n.flows, i)) && TuplesDistinct(n.flows)
            && forall k, syn, ack | 0 <= k < |n.inbound| ::
                 GuestIn(n.flows, ToGuestOn(n.inbound[k], syn, ack)) == ToGuestOn(n.inbound[k], syn, ack)
  {
    RunDated(es);
    PortsApart(es);
    InverseIff(After(es).value.net.flows);
  }

  /** Over any run, while every connection is young: frames of a forwarded connection pass unchanged towards the
      guest, and towards the gateway if and only if the guest has not opened a flow from the same port to the
      gateway at that very port. */
  lemma {:induction false} ForwardedUnchangedIff(es: seq<Event>, k: nat, syn: bool, ack: bool)
    requires After(es).Some? && Young(After(es).value) && k < |After(es).value.net.inbound|
    ensures var n := After(es).value.net;
            var b := n.inbound[k];
            && GuestIn(n.flows, ToGuestOn(b, syn, ack)) == ToGuestOn(b, syn, ack)
            && (GuestOut(n.flows, ToGatewayOn(b, syn, ack)) == ToGatewayOn(b, syn, ack) <==> !Shadowed(n.flows, b))
  {
    PortsApart(es);
    var n := After(es).value.net;
    var b := n.inbound[k];
    var at := FindKey(n.flows, b.guestPort, GATEWAY, b.eph, 0);
    assert at.Some? <==> Shadowed(n.flows, b);
  }

  /** The egress policy refuses the gateway's own address, as it does unless private ranges are allowed. */
  predicate GatewayBlocked(es: seq<Event>) {
    forall k | 0 <= k < |es| && es[k].Syn? && es[k].frame.Tcp? && es[k].frame.dst == GATEWAY :: es[k].blocked
  }

  lemma {:induction false} NoFlowToGateway(es: seq<Event>)
    requires After(es).Some? && GatewayBlocked(es)
    ensures forall i | 0 <= i < |After(es).value.net.flows| :: After(es).value.net.flows[i].extIp != GATEWAY
    decreases |es|
  {
    if es != [] {
      var front, e := es[..|es| - 1], es[|es| - 1];
      assert forall k | 0 <= k < |front| :: front[k] == es[k];
      NoFlowToGateway(front);
    }
  }

  /** Under that policy every forwarded connection passes unchanged both ways. */
  lemma {:induction false} ForwardedUnchanged(es: seq<Event>, k: nat, syn: bool, ack: bool)
    requires After(es).Some? && Young(After(es).value) && k < |After(es).value.net.inbound| && GatewayBlocked(es)
    ensures var n := After(es).value.net;
            var b := n.inbound[k];
            && GuestIn(n.flows, ToGuestOn(b, syn, ack)) == ToGuestOn(b, syn, ack)
            && GuestOut(n.flows, ToGatewayOn(b, syn, ack)) == ToGatewayOn(b, syn, ack)
  {
    ForwardedUnchangedIff(es, k, syn, ack);
    NoFlowToGateway(es);
  }

  /** Without it a forwarded connection can be diverted: the guest dials the gateway at the port its forwarded
      connection uses, and its frames on that connection then go to the new flow. */
  lemma ForwardedDiverted(es: seq<Event>)
    requires es == [Dial(8080, true), Syn(Tcp(GUEST, GATEWAY, 8080, 40001, true, false), false, true)]
    ensures After(es).Some? && Young(After(es).value) && After(es).value.net.inbound == [Inbound(40001, 8080)]
    ensures GuestOut(After(es).value.net.flows, ToGatewayOn(Inbound(40001, 8080), false, true))
            == Tcp(GUEST, GATEWAY, 8080, 40002, false, true)
  {
    var boot := Run(Net([], [], EPH_LOW), [], [], 0);
    assert es[..1] == [Dial(8080, true)] && es[..1][..0] == [];
    assert After(es[..1][..0]) == Some(boot);
    var r := Next(boot, Dial(8080, true));
    assert r.net.inbound == [Inbound(40001, 8080)] && r.inboundBirths == [1];
    assert After(es[..1]) == Some(r);
    assert After(es).value.net.flows == [Flow(8080, GATEWAY, 40001, 40002)];
  }

  /** In any run the rewrites of all flows invert exactly when no two flows with the same guest port were given
      ports a multiple of 25536 allocations apart. */
  lemma {:induction false} RunInverseIff(es: seq<Event>)
    requires After(es).Some?
    ensures |After(es).value.flowBirths| == |After(es).value.net.flows|
    ensures var r := After(es).value;
            (forall i | 0 <= i < |r.net.flows| :: Inverts(r.net.flows, i)) <==>
            forall i, j | 0 <= i < j < |r.net.flows| && r.net.flows[i].guestPort == r.net.flows[j].guestPort ::
              !WholeTurns(r.flowBirths[i], r.flowBirths[j])
  {
    RunDated(es);
    var r := After(es).value;
    InverseIff(r.net.flows);
    forall i, j | 0 <= i < j < |r.net.flows|
      ensures r.net.flows[i].eph == r.net.flows[j].eph <==> WholeTurns(r.flowBirths[i], r.flowBirths[j])
    {
      EphEqualIff(r.flowBirths[i], r.flowBirths[j]);
    }
  }

  function Dials(n: nat): seq<Event> { seq(n, i => Dial(0, false)) }

  lemma OneMoreDial(es: seq<Event>, n: nat)
    requires n > 0 && After(es + Dials(n - 1)).Some?
    ensures After(es + Dials(n)) == Some(Next(After(es + Dials(n - 1)).value, Dial(0, false)))
  {
    var all := es + Dials(n);
    assert all[..|all| - 1] == es + Dials(n - 1);
    assert all[|all| - 1] == Dial(0, false);
  }

  function Turned(r: Run, n: nat): Run {
    r.(net := r.net.(nextEph := EphAt(r.allocations + n)), allocations := r.allocations + n)
  }

  lemma TurnedMore(r: Run, n: nat)
    requires n > 0
    ensures Next(Turned(r, n - 1), Dial(0, false)) == Turned(r, n)
  {
    NextEphAt(r.allocations + n - 1);
  }

  lemma {:induction false} DialsCount(es: seq<Event>, n: nat)
    requires After(es).Some? && After(es).value.net.nextEph == EphAt(After(es).value.allocations)
    ensures After(es + Dials(n)) == Some(Turned(After(es).value, n))
    decreases n
  {
    if n == 0 {
      assert es + Dials(0) == es;
    } else {
      DialsCount(es, n - 1);
      OneMoreDial(es, n);
      TurnedMore(After(es).value, n);
    }
  }

  /** A flow that outlives a full cycle can lose its replies: the run whose 25537th allocation is a second flow of
      the same guest port. */
  lemma {:induction false} OldFlowCollides(a: Frame, b: Frame)
    requires a == Tcp(GUEST, 0x0101_0101, 5000, 443, true, false) && b == a.(dst := 0x0808_0808)
    ensures var r := After([Syn(a, false, true)] + Dials(EPH_COUNT - 1) + [Syn(b, false, true)]);
            r.Some? && |r.value.net.flows| == 2 && !Inverts(r.value.net.flows, 1)
  {
    var first := [Syn(a, false, true)];
    assert first[..0] == [];
    RunDated(first);
    DialsCount(first, EPH_COUNT - 1);
    var mid := first + Dials(EPH_COUNT - 1);
    var es := mid + [Syn(b, false, true)];
    assert es[..|es| - 1] == mid;
    NextEphAt(EPH_COUNT);
    var flows := After(es).value.net.flows;
    assert flows == [Flow(5000, 0x0101_0101, 443, EphAt(1)), Flow(5000, 0x0808_0808, 443, EphAt(EPH_COUNT + 1))];
    RewrittenTuple(flows, 1, true, false);
    assert GuestIn(flows, Reply(GuestOut(flows, b))) != Reply(b);
  }

  /** Frames of no flow pass both ways unchanged. */
  lemma StrangersUnchanged(flows: seq<Flow>, f: Frame)
    requires f.Tcp? ==> forall k | 0 <= k < |flows| ::
               && !Matches(flows[k], f.sport, f.dst, f.dport)
               && !(flows[k].eph == f.sport && flows[k].guestPort == f.dport)
    ensures GuestOut(flows, f) == f && GuestIn(flows, f) == f
  {
  }

  // ---- which connections are opened ----

  /** Over every run the table holds at most 256 flows. A first SYN of the guest, 10.0.0.2, opens one if and only if
      its key is new, fewer than 256 are open, it is not blocked and the listen succeeds; from then on its frames go to
      the gateway, 10.0.0.1, at the port just taken. */
  lemma {:induction false} SynOpensIff(es: seq<Event>, f: Frame, blocked: bool, listenOk: bool)
    requires After(es).Some? && f.Tcp?
    ensures var n, m := After(es).value.net, Next(After(es).value, Syn(f, blocked, listenOk)).net;
            && |n.flows| <= 256
            && (|m.flows| == |n.flows| + 1 <==>
                  && f.syn && !f.ack && f.src == 0x0a00_0002 && !blocked && listenOk && |n.flows| < 256
                  && forall k | 0 <= k < |n.flows| :: !Matches(n.flows[k], f.sport, f.dst, f.dport))
            && (|m.flows| == |n.flows| + 1 ==>
                  && m.flows[..|n.flows|] == n.flows && m.nextEph == m.flows[|n.flows|].eph
                  && GuestOut(m.flows, f) == f.(dst := 0x0a00_0001, dport := m.nextEph))
            && (|m.flows| != |n.flows| + 1 ==> m.flows == n.flows)
    decreases |es|
  {
    FlowsBounded(es);
    RunDated(es);
    var r := After(es).value;
    if Opens(r.net, f, blocked) && listenOk {
      SynDated(r, f, blocked, true);
      var m := Next(r, Syn(f, blocked, true)).net;
      RewrittenTuple(m.flows, |r.net.flows|, f.syn, f.ack);
      assert f == Sent(m.flows[|r.net.flows|], f.syn, f.ack);
    }
  }

  lemma {:induction false} FlowsBounded(es: seq<Event>)
    requires After(es).Some?
    ensures |After(es).value.net.flows| <= 256
    decreases |es|
  {
    if es != [] {
      FlowsBounded(es[..|es| - 1]);
      var p, e := After(es[..|es| - 1]).value, es[|es| - 1];
      if e.ReapFlows? { KeptShorter(e.closed); }
    }
  }

  lemma {:induction false} KeptShorter(closed: seq<bool>)
    ensures |Kept(closed)| <= |closed|
  {
    if closed != [] { KeptShorter(closed[..|closed| - 1]); }
  }
}

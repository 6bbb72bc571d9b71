/** Runs of the whole vsock system from boot, and how its connections open. */
module VsockBoot {
  import opened Words
  import opened VsockSpec
  import opened VsockCredit
  import opened VsockRuns

  const BOOT := System(Dev([], [], EPHEMERAL_BASE), [], [], Guest([], 0, [], 0, 0), [])

  /** The system after any run from boot, or None if some step is impossible. */
  function FromBoot(es: seq<SystemStep>, me: Pair): Option<System>
    decreases |es|
  {
    if es == [] then Some(BOOT)
    else
      var r := FromBoot(es[..|es| - 1], me);
      if r.Some? && Doable(r.value, es[|es| - 1]) then Some(SystemNext(r.value, es[|es| - 1], me)) else None
  }

  lemma {:induction false} CursorInRange(es: seq<SystemStep>, me: Pair)
    requires FromBoot(es, me).Some?
    ensures EPHEMERAL_BASE <= FromBoot(es, me).value.dev.nextHostPort
    decreases |es|
  {
    if es != [] {
      CursorInRange(es[..|es| - 1], me);
      var s, e := FromBoot(es[..|es| - 1], me).value, es[|es| - 1];
      if e.Host? && e.step.Accept? { AllocateFindsFree(s.dev.conns, e.step.guestPort, s.dev.nextHostPort); }
    }
  }

  /** The step gives the device a connection `me` where it had none: a host peer is accepted, or a REQUEST of the
      guest is dialed. */
  predicate Opens(s: System, e: SystemStep, me: Pair) {
    && Doable(s, e) && Find(s.dev.conns, me) == None
    && match e
       case Host(Accept(gp)) => me == Pair(gp, Allocate(s.dev.conns, gp, s.dev.nextHostPort).0)
       case DeviceTakes(dialed) => dialed && s.queue[0].pair == me && s.queue[0].op == OP_REQUEST
       case _ => false
  }

  /** The system as the connection opens, its guest end counted from here. */
  function OpenedBy(s: System, e: SystemStep, me: Pair, bufAlloc: u32): System
    requires Doable(s, e)
  {
    SystemNext(s, e, me).(guest := Guest([], 0, [], 0, bufAlloc), accepted := [])
  }

  /** The guest has used these ports for nothing yet but, if it dials, the REQUEST itself. */
  predicate Unused(s: System, e: SystemStep, me: Pair, bufAlloc: u32)
    requires Doable(s, e)
  {
    && For(s.wire + s.dev.rx, me) == []
    && (if e.DeviceTakes? then
          For(s.queue[1..], me) == [] && s.queue[0].fwdCnt == 0 && s.queue[0].bufAlloc <= bufAlloc
        else For(s.queue, me) == [])
  }

  /** The link of a connection `c` just created, its first packet `out` queued. */
  lemma NewLink(s: System, t: System, c: Conn, out: Packet)
    requires Find(s.dev.conns, c.pair) == None && out.pair == c.pair && EPHEMERAL_BASE <= t.dev.nextHostPort
    requires t.dev.conns == s.dev.conns + [c] && t.dev.rx == s.dev.rx + [out] && t.wire == s.wire
    ensures Live(t.dev, c.pair)
    ensures Project(t, c.pair)
            == Link(c, For(s.wire + s.dev.rx, c.pair) + [out], For(t.queue, c.pair), t.guest, t.accepted)
  {
    MineNone(s.dev.conns, c.pair);
    MineConcat(s.dev.conns, [c], c.pair);
    assert [c][..0] == [];
    RxGrows(s, [out], c.pair);
    ForOne(out, c.pair);
  }

  lemma AcceptBegins(s: System, gp: u32, me: Pair, bufAlloc: u32)
    requires EPHEMERAL_BASE <= s.dev.nextHostPort && Opens(s, Host(Accept(gp)), me)
    ensures var t := OpenedBy(s, Host(Accept(gp)), me, bufAlloc);
            && Live(t.dev, me) && Begun(Project(t, me))
            && (Unused(s, Host(Accept(gp)), me, bufAlloc) ==> Opened(Project(t, me)))
  {
    AllocateFindsFree(s.dev.conns, gp, s.dev.nextHostPort);
    var t := OpenedBy(s, Host(Accept(gp)), me, bufAlloc);
    NewLink(s, t, Fresh(me, 0, 0, false), Out(me, OP_REQUEST, 0, []));
  }

  lemma RequestBegins(s: System, me: Pair, bufAlloc: u32)
    requires EPHEMERAL_BASE <= s.dev.nextHostPort && Opens(s, DeviceTakes(true), me)
    ensures var t := OpenedBy(s, DeviceTakes(true), me, bufAlloc);
            && Live(t.dev, me) && Begun(Project(t, me))
            && (Unused(s, DeviceTakes(true), me, bufAlloc) ==> Opened(Project(t, me)))
  {
    var p, t := s.queue[0], OpenedBy(s, DeviceTakes(true), me, bufAlloc);
    NewLink(s, t, Fresh(me, p.bufAlloc, p.fwdCnt, true), Out(me, OP_RESPONSE, 0, []));
  }

  /** Every connection opened in any run from boot begins where the run theorems start: with no condition on the
      guest for conservation, and on ports not used before for the credit guarantees. */
  lemma OpensBegins(pre: seq<SystemStep>, e: SystemStep, me: Pair, bufAlloc: u32)
    requires FromBoot(pre, me).Some? && Opens(FromBoot(pre, me).value, e, me)
    ensures Live(OpenedBy(FromBoot(pre, me).value, e, me, bufAlloc).dev, me)
    ensures var s := FromBoot(pre, me).value;
            var l := Project(OpenedBy(s, e, me, bufAlloc), me);
            Begun(l) && (Unused(s, e, me, bufAlloc) ==> Opened(l))
  {
    CursorInRange(pre, me);
    var s := FromBoot(pre, me).value;
    if e.Host? { AcceptBegins(s, e.step.guestPort, me, bufAlloc); } else { RequestBegins(s, me, bufAlloc); }
  }

  /** So, from boot: whatever happened before a connection opened and whatever the guest does, its streams stay
      intact for as long as it lives. */
  lemma {:induction false} BytesConservedFromBoot(pre: seq<SystemStep>, e: SystemStep, es: seq<SystemStep>, me: Pair)
    requires FromBoot(pre, me).Some? && Opens(FromBoot(pre, me).value, e, me)
    ensures var s := OpenedBy(FromBoot(pre, me).value, e, me, 0);
            && Live(s.dev, me)
            && (After(Arbitrary, s, es, me).Some? ==> StreamsIntact(s, After(Arbitrary, s, es, me).value, me))
  {
    OpensBegins(pre, e, me, 0);
    var s := OpenedBy(FromBoot(pre, me).value, e, me, 0);
    if After(Arbitrary, s, es, me).Some? { BytesConserved(s, es, me); }
  }

  /** From boot, on ports not used before: a guest that keeps to its credit is not reset, whatever its other connections
      and the host do. */
  lemma {:induction false} CreditKeptFromBoot(pre: seq<SystemStep>, e: SystemStep, es: seq<SystemStep>, me: Pair,
                                              bufAlloc: u32)
    requires FromBoot(pre, me).Some? && Opens(FromBoot(pre, me).value, e, me)
    requires Unused(FromBoot(pre, me).value, e, me, bufAlloc)
    ensures var s := OpenedBy(FromBoot(pre, me).value, e, me, bufAlloc);
            && Live(s.dev, me)
            && (After(KeepsCredit, s, es, me).Some? ==>
                  var t := After(KeepsCredit, s, es, me).value;
                  && (forall k | 0 <= k < |For(t.wire + t.dev.rx, me)| :: For(t.wire + t.dev.rx, me)[k].op != OP_RST)
                  && t.guest.sent == t.accepted + RwBytes(For(t.queue, me)))
  {
    OpensBegins(pre, e, me, bufAlloc);
    var s := OpenedBy(FromBoot(pre, me).value, e, me, bufAlloc);
    if After(KeepsCredit, s, es, me).Some? { CreditKeeperNeverReset(s, es, me); }
  }

  /** From boot, on ports not used before: a guest that reports truthfully is never sent more than it can hold. */
  lemma {:induction false} WindowKeptFromBoot(pre: seq<SystemStep>, e: SystemStep, es: seq<SystemStep>, me: Pair,
                                              bufAlloc: u32)
    requires FromBoot(pre, me).Some? && Opens(FromBoot(pre, me).value, e, me)
    requires Unused(FromBoot(pre, me).value, e, me, bufAlloc)
    ensures var s := OpenedBy(FromBoot(pre, me).value, e, me, bufAlloc);
            && Live(s.dev, me)
            && (After(TellsTruth, s, es, me).Some? ==>
                  var t := After(TellsTruth, s, es, me).value;
                  |Mine(t.dev.conns, me)| > 0
                  && t.guest.consumed <= |Mine(t.dev.conns, me)[0].stream.read|
                     <= t.guest.consumed + t.guest.bufAlloc)
  {
    OpensBegins(pre, e, me, bufAlloc);
    var s := OpenedBy(FromBoot(pre, me).value, e, me, bufAlloc);
    if After(TellsTruth, s, es, me).Some? { GuestNeverOverrun(s, es, me); }
  }
}

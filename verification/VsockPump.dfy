/** The host side of one pump, given what the host sockets answer. */
module VsockPump {
  import opened Words
  import opened VsockSpec

  /** What a non-blocking write or read of a host socket came back with. */
  datatype WriteOutcome = Wrote(n: nat) | WriteWouldBlock | WriteFailed

  datatype ReadOutcome = Data(bytes: seq<byte>) | EndOfStream | ReadWouldBlock | ReadFailed

  /** The answers one socket will give, in order; after the last it would block. */
  datatype Answers = Answers(toWrites: seq<WriteOutcome>, toReads: seq<ReadOutcome>)

  function AnswersOf(all: seq<Answers>, i: nat): Answers { if i < |all| then all[i] else Answers([], []) }

  function NextWrite(ws: seq<WriteOutcome>, offered: nat): (r: WriteOutcome)
    ensures r.Wrote? ==> r.n <= offered
  {
    if ws == [] then WriteWouldBlock
    else if ws[0].Wrote? then Wrote(Min(ws[0].n, offered)) else ws[0]
  }

  /** A read of no bytes is the end of the stream. */
  function NextRead(rs: seq<ReadOutcome>, limit: nat): (r: ReadOutcome)
    ensures r.Data? ==> 0 < |r.bytes| <= limit
  {
    if rs == [] then ReadWouldBlock
    else if rs[0].Data? then
      var bytes := rs[0].bytes[..Min(|rs[0].bytes|, limit)];
      if bytes == [] then EndOfStream else Data(bytes)
    else rs[0]
  }

  /** A connection after its waiting bytes went to the host until it blocked, and whether any did. */
  function Flushed(c: Conn, ws: seq<WriteOutcome>): (Conn, bool)
    decreases |ws|
  {
    if c.toHost == [] then (c, false)
    else
      match NextWrite(ws, |c.toHost|)
      case WriteFailed => (c.(hostDone := true), false)
      case WriteWouldBlock => (c, false)
      case Wrote(n) => if n == 0 then (c, false) else (Flushed(Drained(c, n), ws[1..]).0, true)
  }

  /** A connection after the host was read while credit and buffer allowed, and the packets made. */
  function Filled(c: Conn, maxPayload: nat, rs: seq<ReadOutcome>): (Conn, seq<Packet>)
    decreases |rs|
  {
    var take := Min(GuestWindow(c), maxPayload);
    if take == 0 then (c, [])
    else
      match NextRead(rs, take)
      case ReadWouldBlock => (c, [])
      case Data(bytes) =>
        var (c1, more) := Filled(Forwarded(c, bytes), maxPayload, rs[1..]);
        (c1, [Out(c.pair, OP_RW, c.fwdCnt, bytes)] + more)
      case _ => (c.(hostDone := true), [])
  }

  function CreditNews(c: Conn, moved: bool): seq<Packet> {
    if moved && c.up then [Out(c.pair, OP_CREDIT_UPDATE, c.fwdCnt, [])] else []
  }

  /** One connection's turn. */
  function Turn(c: Conn, maxPayload: nat, a: Answers): (Conn, seq<Packet>) {
    var (c1, moved) := Flushed(c, a.toWrites);
    var (c2, data) := if c1.up then Filled(c1, maxPayload, a.toReads) else (c1, []);
    (c2, CreditNews(c1, moved) + data)
  }

  /** The packets made in the turns of the first `n` connections. */
  function TurnPackets(conns: seq<Conn>, maxPayload: nat, all: seq<Answers>, n: nat): seq<Packet>
    requires n <= |conns|
  {
    if n == 0 then []
    else TurnPackets(conns, maxPayload, all, n - 1) + Turn(conns[n - 1], maxPayload, AnswersOf(all, n - 1)).1
  }

  /** The table after the first `n` connections had their turn. */
  function TurnedConns(conns: seq<Conn>, maxPayload: nat, all: seq<Answers>, n: nat): (r: seq<Conn>)
    requires n <= |conns|
    ensures |r| == |conns| && r[n..] == conns[n..]
  {
    if n == 0 then conns
    else
      var r := TurnedConns(conns, maxPayload, all, n - 1);
      assert r[n..] == r[n - 1..][1..];
      r[n - 1 := Turn(conns[n - 1], maxPayload, AnswersOf(all, n - 1)).0]
  }

  function Turns(conns: seq<Conn>, maxPayload: nat, all: seq<Answers>, n: nat): (r: (seq<Conn>, seq<Packet>))
    requires n <= |conns|
    ensures |r.0| == |conns|
  {
    (TurnedConns(conns, maxPayload, all, n), TurnPackets(conns, maxPayload, all, n))
  }

  lemma NotYetTurned(conns: seq<Conn>, maxPayload: nat, all: seq<Answers>, n: nat)
    requires n < |conns|
    ensures TurnedConns(conns, maxPayload, all, n)[n] == conns[n]
  {
    var r := TurnedConns(conns, maxPayload, all, n);
    assert r[n..][0] == conns[n..][0];
  }

  function AcceptAll(d: Dev, waiting: seq<u32>): Dev {
    if waiting == [] then d else Perform(AcceptAll(d, waiting[..|waiting| - 1]), Accept(waiting[|waiting| - 1]))
  }

  function Pumped(d: Dev, maxPayload: nat, waiting: seq<u32>, all: seq<Answers>): Dev {
    var d1 := AcceptAll(d, waiting);
    var (cs, ps) := Turns(d1.conns, maxPayload, all, |d1.conns|);
    Perform(d1.(conns := cs, rx := d1.rx + ps), Reap)
  }

  /** Nothing is left waiting while the host takes everything it is offered. */
  lemma {:induction false} WillingHostFlushes(c: Conn, ws: seq<WriteOutcome>)
    requires forall k | 0 <= k < |ws| :: ws[k].Wrote? && 0 < ws[k].n
    requires |c.toHost| <= |ws|
    ensures Flushed(c, ws).0.toHost == []
    ensures Flushed(c, ws).0.stream.written == c.stream.written + c.toHost
    ensures Flushed(c, ws).1 <==> c.toHost != []
    decreases |ws|
  {
    if c.toHost != [] {
      var n := NextWrite(ws, |c.toHost|).n;
      var c1 := Drained(c, n);
      WillingHostFlushes(c1, ws[1..]);
      assert c.stream.written + c.toHost[..n] + c.toHost[n..] == c.stream.written + c.toHost;
    }
  }

  /** A host that always has data is read until its answers or the guest's credit are used up. */
  lemma {:induction false} FillStops(c: Conn, maxPayload: nat, rs: seq<ReadOutcome>)
    requires c.up && !c.hostDone && maxPayload > 0
    requires forall k | 0 <= k < |rs| :: rs[k].Data? && rs[k].bytes != []
    ensures var c1 := Filled(c, maxPayload, rs).0;
            !c1.hostDone && (GuestWindow(c1) == 0 || |Filled(c, maxPayload, rs).1| == |rs|)
    decreases |rs|
  {
    if GuestWindow(c) > 0 && rs != [] {
      FillStops(Forwarded(c, NextRead(rs, Min(GuestWindow(c), maxPayload)).bytes), maxPayload, rs[1..]);
    }
  }

  // ---- a pump is a sequence of device steps ----

  predicate Fits(e: HostStep, maxPayload: nat) { e.Forward? ==> |e.data| <= maxPayload }

  /** `steps` are possible from `start`, forward no more than `maxPayload` at a time, and lead to `d`. */
  ghost predicate Reached(start: Dev, steps: seq<HostStep>, d: Dev, maxPayload: nat) {
    && AllPossible(start, steps) && PerformAll(start, steps) == d
    && forall k | 0 <= k < |steps| :: Fits(steps[k], maxPayload)
  }

  ghost function Extended(start: Dev, steps: seq<HostStep>, d: Dev, maxPayload: nat, e: HostStep): (r: seq<HostStep>)
    requires Reached(start, steps, d, maxPayload) && Possible(d, e) && Fits(e, maxPayload)
    ensures Reached(start, r, Perform(d, e), maxPayload) && r == steps + [e]
  {
    PerformMore(start, steps, e);
    steps + [e]
  }

  lemma PerformMore(d: Dev, es: seq<HostStep>, e: HostStep)
    requires AllPossible(d, es) && Possible(PerformAll(d, es), e)
    ensures AllPossible(d, es + [e]) && PerformAll(d, es + [e]) == Perform(PerformAll(d, es), e)
  {
    assert (es + [e])[..|es|] == es;
  }

  lemma {:induction false} ReachedThen(a: Dev, s: seq<HostStep>, b: Dev, t: seq<HostStep>, c: Dev, mp: nat)
    requires Reached(a, s, b, mp) && Reached(b, t, c, mp)
    ensures Reached(a, s + t, c, mp)
    decreases |t|
  {
    if t == [] {
      assert s + t == s;
    } else {
      var front, e := t[..|t| - 1], t[|t| - 1];
      ReachedThen(a, s, b, front, PerformAll(b, front), mp);
      PerformMore(a, s + front, e);
      AppendLast(s, t);
      FitsMore(s + front, e, mp);
    }
  }

  lemma AppendLast(s: seq<HostStep>, t: seq<HostStep>)
    requires t != []
    ensures s + t == (s + t[..|t| - 1]) + [t[|t| - 1]]
  {
  }

  lemma FitsMore(s: seq<HostStep>, e: HostStep, mp: nat)
    requires (forall k | 0 <= k < |s| :: Fits(s[k], mp)) && Fits(e, mp)
    ensures forall k | 0 <= k < |s + [e]| :: Fits((s + [e])[k], mp)
  {
  }

  /** Some permitted steps lead from `d` to `t`. */
  ghost predicate Reaches(d: Dev, t: Dev, mp: nat) { exists steps :: Reached(d, steps, t, mp) }

  lemma ReachesSelf(d: Dev, mp: nat)
    ensures Reaches(d, d, mp)
  {
    assert Reached(d, [], d, mp);
  }

  lemma ReachesThen(a: Dev, b: Dev, c: Dev, mp: nat)
    requires Reaches(a, b, mp) && Reaches(b, c, mp)
    ensures Reaches(a, c, mp)
  {
    var s :| Reached(a, s, b, mp);
    var t :| Reached(b, t, c, mp);
    ReachedThen(a, s, b, t, c, mp);
  }

  lemma ReachesBy(d: Dev, e: HostStep, mp: nat)
    requires Possible(d, e) && Fits(e, mp)
    ensures Reaches(d, Perform(d, e), mp)
  {
    assert Reached(d, [], d, mp);
    var steps := Extended(d, [], d, mp, e);
  }

  /** The device after connection `i` was flushed. */
  function FlushedDev(d: Dev, i: nat, ws: seq<WriteOutcome>): Dev
    requires i < |d.conns|
  {
    d.(conns := d.conns[i := Flushed(d.conns[i], ws).0])
  }

  lemma {:induction false} FlushReached(d: Dev, i: nat, ws: seq<WriteOutcome>, mp: nat)
    requires i < |d.conns|
    ensures Reaches(d, FlushedDev(d, i, ws), mp)
    decreases |ws|
  {
    var c := d.conns[i];
    var r := NextWrite(ws, |c.toHost|);
    if c.toHost == [] || r.WriteWouldBlock? || r == Wrote(0) {
      ReachesSelf(d, mp);
      assert d.conns[i := c] == d.conns;
    } else if r.WriteFailed? {
      ReachesBy(d, Finish(i), mp);
    } else {
      var d1 := Perform(d, Drain(i, r.n));
      ReachesBy(d, Drain(i, r.n), mp);
      FlushReached(d1, i, ws[1..], mp);
      assert FlushedDev(d1, i, ws[1..]) == FlushedDev(d, i, ws);
      ReachesThen(d, d1, FlushedDev(d, i, ws), mp);
    }
  }

  /** The device after the host was read for connection `i`. */
  function FilledDev(d: Dev, i: nat, rs: seq<ReadOutcome>, mp: nat): Dev
    requires i < |d.conns|
  {
    var (c, ps) := Filled(d.conns[i], mp, rs);
    d.(conns := d.conns[i := c], rx := d.rx + ps)
  }

  lemma FilledDevMore(d: Dev, i: nat, rs: seq<ReadOutcome>, mp: nat)
    requires i < |d.conns| && d.conns[i].up && Min(GuestWindow(d.conns[i]), mp) > 0
    requires NextRead(rs, Min(GuestWindow(d.conns[i]), mp)).Data?
    ensures var bytes := NextRead(rs, Min(GuestWindow(d.conns[i]), mp)).bytes;
            FilledDev(Perform(d, Forward(i, bytes)), i, rs[1..], mp) == FilledDev(d, i, rs, mp)
  {
    var c, bytes := d.conns[i], NextRead(rs, Min(GuestWindow(d.conns[i]), mp)).bytes;
    var (c1, ps) := Filled(Forwarded(c, bytes), mp, rs[1..]);
    var o := Out(c.pair, OP_RW, c.fwdCnt, bytes);
    assert d.conns[i := Forwarded(c, bytes)][i := c1] == d.conns[i := c1] && d.rx + [o] + ps == d.rx + ([o] + ps);
  }

  lemma {:induction false} FillReached(d: Dev, i: nat, rs: seq<ReadOutcome>, mp: nat)
    requires i < |d.conns| && d.conns[i].up
    ensures Reaches(d, FilledDev(d, i, rs, mp), mp)
    decreases |rs|
  {
    var c := d.conns[i];
    var take := Min(GuestWindow(c), mp);
    var r := NextRead(rs, take);
    if take == 0 || r.ReadWouldBlock? {
      ReachesSelf(d, mp);
      assert d.conns[i := c] == d.conns && d.rx + [] == d.rx;
    } else if !r.Data? {
      ReachesBy(d, Finish(i), mp);
      assert d.rx + [] == d.rx;
    } else {
      var d1 := Perform(d, Forward(i, r.bytes));
      ReachesBy(d, Forward(i, r.bytes), mp);
      FillReached(d1, i, rs[1..], mp);
      FilledDevMore(d, i, rs, mp);
      ReachesThen(d, d1, FilledDev(d, i, rs, mp), mp);
    }
  }

  /** The device once the guest was told of the drained bytes, if any. */
  function ToldDev(d: Dev, i: nat, moved: bool): Dev
    requires i < |d.conns|
  {
    d.(rx := d.rx + CreditNews(d.conns[i], moved))
  }

  lemma NewsReached(d: Dev, i: nat, moved: bool, mp: nat)
    requires i < |d.conns|
    ensures Reaches(d, ToldDev(d, i, moved), mp)
  {
    if moved && d.conns[i].up {
      ReachesBy(d, Credit(i), mp);
    } else {
      ReachesSelf(d, mp);
      assert d.rx + [] == d.rx;
    }
  }

  /** The device after connection `i` had its turn, and after the first `n` had theirs. */
  function TurnedDev(d: Dev, i: nat, a: Answers, mp: nat): Dev
    requires i < |d.conns|
  {
    var (c, ps) := Turn(d.conns[i], mp, a);
    d.(conns := d.conns[i := c], rx := d.rx + ps)
  }

  function ServedDev(d: Dev, all: seq<Answers>, n: nat, mp: nat): (r: Dev)
    requires n <= |d.conns|
    ensures |r.conns| == |d.conns|
  {
    var (cs, ps) := Turns(d.conns, mp, all, n);
    d.(conns := cs, rx := d.rx + ps)
  }

  lemma TurnedParts(d: Dev, i: nat, a: Answers, mp: nat)
    requires i < |d.conns|
    ensures var (c1, moved) := Flushed(d.conns[i], a.toWrites);
            var d2 := ToldDev(FlushedDev(d, i, a.toWrites), i, moved);
            TurnedDev(d, i, a, mp) == if c1.up then FilledDev(d2, i, a.toReads, mp) else d2
  {
    var (c1, moved) := Flushed(d.conns[i], a.toWrites);
    var news := CreditNews(c1, moved);
    var (c2, ps) := Filled(c1, mp, a.toReads);
    assert d.conns[i := c1][i := c2] == d.conns[i := c2] && d.rx + news + ps == d.rx + (news + ps);
    assert news + [] == news;
  }

  lemma TurnReached(d: Dev, i: nat, a: Answers, mp: nat)
    requires i < |d.conns|
    ensures Reaches(d, TurnedDev(d, i, a, mp), mp)
  {
    var (c1, moved) := Flushed(d.conns[i], a.toWrites);
    var d1 := FlushedDev(d, i, a.toWrites);
    var d2 := ToldDev(d1, i, moved);
    FlushReached(d, i, a.toWrites, mp);
    NewsReached(d1, i, moved, mp);
    ReachesThen(d, d1, d2, mp);
    TurnedParts(d, i, a, mp);
    if c1.up {
      FillReached(d2, i, a.toReads, mp);
      ReachesThen(d, d2, TurnedDev(d, i, a, mp), mp);
    }
  }

  lemma ServedMore(d: Dev, all: seq<Answers>, n: nat, mp: nat)
    requires n < |d.conns|
    ensures TurnedDev(ServedDev(d, all, n, mp), n, AnswersOf(all, n), mp) == ServedDev(d, all, n + 1, mp)
  {
    NotYetTurned(d.conns, mp, all, n);
    Regroup(d.rx, TurnPackets(d.conns, mp, all, n), Turn(d.conns[n], mp, AnswersOf(all, n)).1);
  }

  lemma ServedNone(d: Dev, all: seq<Answers>, mp: nat)
    ensures ServedDev(d, all, 0, mp) == d
  {
    assert Turns(d.conns, mp, all, 0).0 == d.conns && d.rx + [] == d.rx;
  }

  lemma {:induction false} TurnsReached(d: Dev, all: seq<Answers>, n: nat, mp: nat)
    requires n <= |d.conns|
    ensures Reaches(d, ServedDev(d, all, n, mp), mp)
    decreases n
  {
    if n == 0 {
      ReachesSelf(d, mp);
      ServedNone(d, all, mp);
    } else {
      var d1 := ServedDev(d, all, n - 1, mp);
      TurnsReached(d, all, n - 1, mp);
      TurnReached(d1, n - 1, AnswersOf(all, n - 1), mp);
      ServedMore(d, all, n - 1, mp);
      ReachesThen(d, d1, ServedDev(d, all, n, mp), mp);
    }
  }

  lemma {:induction false} AcceptsReached(d: Dev, waiting: seq<u32>, mp: nat)
    ensures Reaches(d, AcceptAll(d, waiting), mp)
    decreases |waiting|
  {
    if waiting == [] {
      ReachesSelf(d, mp);
    } else {
      var d1 := AcceptAll(d, waiting[..|waiting| - 1]);
      AcceptsReached(d, waiting[..|waiting| - 1], mp);
      ReachesBy(d1, Accept(waiting[|waiting| - 1]), mp);
      ReachesThen(d, d1, AcceptAll(d, waiting), mp);
    }
  }

  /** Whatever the host answers, a pump is a sequence of permitted device steps ending in a reap, none of which
      forwards more than it was given. */
  lemma PumpedReached(d: Dev, mp: nat, waiting: seq<u32>, all: seq<Answers>) returns (steps: seq<HostStep>)
    ensures Reached(d, steps, Pumped(d, mp, waiting, all), mp) && steps != [] && steps[|steps| - 1] == Reap
  {
    var d1 := AcceptAll(d, waiting);
    var d2 := ServedDev(d1, all, |d1.conns|, mp);
    AcceptsReached(d, waiting, mp);
    TurnsReached(d1, all, |d1.conns|, mp);
    ReachesThen(d, d1, d2, mp);
    steps :| Reached(d, steps, d2, mp);
    steps := Extended(d, steps, d2, mp, Reap);
  }

  // ---- what a pump makes fits ----

  predicate Within(ps: seq<Packet>, maxPayload: nat) { forall k | 0 <= k < |ps| :: |ps[k].payload| <= maxPayload }

  /** No packet carries more than the pump was given, nor more than a 32-bit credit window. */
  function Cap(maxPayload: nat): nat { Min(maxPayload, U32_SPAN - 1) }

  lemma {:induction false} FilledWithin(c: Conn, maxPayload: nat, rs: seq<ReadOutcome>)
    ensures Within(Filled(c, maxPayload, rs).1, Cap(maxPayload))
    decreases |rs|
  {
    var take := Min(GuestWindow(c), maxPayload);
    if take > 0 && NextRead(rs, take).Data? {
      FilledWithin(Forwarded(c, NextRead(rs, take).bytes), maxPayload, rs[1..]);
    }
  }

  lemma {:induction false} TurnsWithin(conns: seq<Conn>, maxPayload: nat, all: seq<Answers>, n: nat)
    requires n <= |conns|
    ensures Within(TurnPackets(conns, maxPayload, all, n), Cap(maxPayload))
  {
    if n > 0 {
      var before := TurnPackets(conns, maxPayload, all, n - 1);
      var made := Turn(conns[n - 1], maxPayload, AnswersOf(all, n - 1)).1;
      assert Within(before, Cap(maxPayload)) by { TurnsWithin(conns, maxPayload, all, n - 1); }
      assert Within(made, Cap(maxPayload)) by { TurnWithin(conns[n - 1], maxPayload, AnswersOf(all, n - 1)); }
      WithinConcat(before, made, Cap(maxPayload));
    }
  }

  lemma WithinConcat(a: seq<Packet>, b: seq<Packet>, cap: nat)
    requires Within(a, cap) && Within(b, cap)
    ensures Within(a + b, cap)
  {
  }

  lemma TurnWithin(c: Conn, maxPayload: nat, a: Answers)
    ensures Within(Turn(c, maxPayload, a).1, Cap(maxPayload))
  {
    FilledWithin(Flushed(c, a.toWrites).0, maxPayload, a.toReads);
  }

  lemma {:induction false} ShutdownsWithin(conns: seq<Conn>)
    ensures Within(Shutdowns(conns), 0)
    ensures forall p | p in Shutdowns(conns) :: p == Out(p.pair, p.op, p.fwdCnt, [])
  {
    if conns != [] { ShutdownsWithin(conns[..|conns| - 1]); }
  }

  lemma {:induction false} AcceptsWithin(d: Dev, waiting: seq<u32>)
    requires d.rx == []
    ensures Within(AcceptAll(d, waiting).rx, 0)
  {
    if waiting != [] { AcceptsWithin(d, waiting[..|waiting| - 1]); }
  }

  lemma PumpedWithin(d: Dev, maxPayload: nat, waiting: seq<u32>, all: seq<Answers>)
    requires d.rx == []
    ensures Within(Pumped(d, maxPayload, waiting, all).rx, Cap(maxPayload))
  {
    var d1 := AcceptAll(d, waiting);
    AcceptsWithin(d, waiting);
    TurnsWithin(d1.conns, maxPayload, all, |d1.conns|);
    ShutdownsWithin(Turns(d1.conns, maxPayload, all, |d1.conns|).0);
  }
}

/** The life of a connection: it opens, carries bytes and closes, whatever else the device is doing. */
module VsockLife {
  import opened Words
  import opened VsockPump
  import opened VsockRuns
  import opened VsockSpec

  /** Packets for `me` with operation `op`. */
  function Count(ps: seq<Packet>, me: Pair, op: u16): nat {
    if ps == [] then 0
    else Count(ps[..|ps| - 1], me, op) + if ps[|ps| - 1].pair == me && ps[|ps| - 1].op == op then 1 else 0
  }

  lemma {:induction false} CountConcat(a: seq<Packet>, b: seq<Packet>, me: Pair, op: u16)
    ensures Count(a + b, me, op) == Count(a, me, op) + Count(b, me, op)
    decreases |b|
  {
    if b == [] {
      assert a + b == a;
    } else {
      CountConcat(a, b[..|b| - 1], me, op);
      assert (a + b)[..|a + b| - 1] == a + b[..|b| - 1];
    }
  }

  lemma {:induction false} CountNone(ps: seq<Packet>, me: Pair, op: u16)
    requires forall k | 0 <= k < |ps| :: ps[k].op != op
    ensures Count(ps, me, op) == 0
  {
    if ps != [] { CountNone(ps[..|ps| - 1], me, op); }
  }

  // ---- what a turn leaves alone ----

  lemma {:induction false} FlushKeeps(c: Conn, ws: seq<WriteOutcome>)
    ensures var f := Flushed(c, ws).0;
            && f.pair == c.pair && f.up == c.up && f.txCnt == c.txCnt && f.stream.read == c.stream.read
            && f.peerBufAlloc == c.peerBufAlloc && f.peerFwdCnt == c.peerFwdCnt && (c.hostDone ==> f.hostDone)
    decreases |ws|
  {
    if c.toHost != [] && NextWrite(ws, |c.toHost|).Wrote? && NextWrite(ws, |c.toHost|).n > 0 {
      FlushKeeps(Drained(c, NextWrite(ws, |c.toHost|).n), ws[1..]);
    }
  }

  lemma {:induction false} FillKeeps(c: Conn, maxPayload: nat, rs: seq<ReadOutcome>)
    ensures var (f, ps) := Filled(c, maxPayload, rs);
            && f.pair == c.pair && f.toHost == c.toHost && f.up == c.up && (c.hostDone ==> f.hostDone)
            && forall k | 0 <= k < |ps| :: ps[k].op == 5
    decreases |rs|
  {
    var take := Min(GuestWindow(c), maxPayload);
    if take > 0 && NextRead(rs, take).Data? {
      FillKeeps(Forwarded(c, NextRead(rs, take).bytes), maxPayload, rs[1..]);
    }
  }

  /** Only data and credit updates. */
  predicate Moves(ps: seq<Packet>) { forall k | 0 <= k < |ps| :: ps[k].op == 5 || ps[k].op == 6 }

  lemma MovesConcat(a: seq<Packet>, b: seq<Packet>)
    requires Moves(a) && Moves(b)
    ensures Moves(a + b)
  {
  }

  lemma TurnKeeps(c: Conn, maxPayload: nat, a: Answers)
    ensures Turn(c, maxPayload, a).0.pair == c.pair
    ensures Moves(Turn(c, maxPayload, a).1)
  {
    FlushKeeps(c, a.toWrites);
    FillKeeps(Flushed(c, a.toWrites).0, maxPayload, a.toReads);
  }

  lemma {:induction false} TurnsMake(conns: seq<Conn>, maxPayload: nat, all: seq<Answers>, n: nat)
    requires n <= |conns|
    ensures Moves(TurnPackets(conns, maxPayload, all, n))
  {
    if n > 0 {
      var before := TurnPackets(conns, maxPayload, all, n - 1);
      var made := Turn(conns[n - 1], maxPayload, AnswersOf(all, n - 1)).1;
      assert Moves(before) by { TurnsMake(conns, maxPayload, all, n - 1); }
      assert Moves(made) by { TurnKeeps(conns[n - 1], maxPayload, AnswersOf(all, n - 1)); }
      MovesConcat(before, made);
    }
  }

  lemma {:induction false} TurnedAt(conns: seq<Conn>, maxPayload: nat, all: seq<Answers>, n: nat, i: nat)
    requires i < n <= |conns|
    ensures TurnedConns(conns, maxPayload, all, n)[i] == Turn(conns[i], maxPayload, AnswersOf(all, i)).0
    decreases n
  {
    if i < n - 1 { TurnedAt(conns, maxPayload, all, n - 1, i); }
  }

  lemma {:induction false} EarlierPackets(conns: seq<Conn>, maxPayload: nat, all: seq<Answers>, m: nat, n: nat)
    requires m <= n <= |conns|
    ensures TurnPackets(conns, maxPayload, all, m) <= TurnPackets(conns, maxPayload, all, n)
    decreases n
  {
    if m < n { EarlierPackets(conns, maxPayload, all, m, n - 1); }
  }

  lemma LaterIn(a: seq<Packet>, b: seq<Packet>, c: seq<Packet>, p: Packet)
    requires p in b && a + b <= c
    ensures p in c
  {
    var k :| 0 <= k < |b| && b[k] == p;
    assert c[|a| + k] == (a + b)[|a| + k] == p;
  }

  lemma TurnMade(conns: seq<Conn>, maxPayload: nat, all: seq<Answers>, i: nat, p: Packet)
    requires i < |conns| && p in Turn(conns[i], maxPayload, AnswersOf(all, i)).1
    ensures p in TurnPackets(conns, maxPayload, all, |conns|)
  {
    EarlierPackets(conns, maxPayload, all, i + 1, |conns|);
    LaterIn(TurnPackets(conns, maxPayload, all, i), Turn(conns[i], maxPayload, AnswersOf(all, i)).1,
            TurnPackets(conns, maxPayload, all, |conns|), p);
  }

  /** Only REQUESTs were added. */
  predicate Offers(a: seq<Packet>, b: seq<Packet>) { a <= b && forall k | |a| <= k < |b| :: b[k].op == 1 }

  lemma {:induction false} AcceptsAppend(d: Dev, waiting: seq<u32>)
    ensures d.conns <= AcceptAll(d, waiting).conns && Offers(d.rx, AcceptAll(d, waiting).rx)
  {
    if waiting != [] { AcceptsAppend(d, waiting[..|waiting| - 1]); }
  }

  // ---- opening ----

  /** A waiting host peer is offered to the guest: a connection that is down, and a REQUEST for it. */
  lemma PeerOffered(gp: u32)
    ensures var d := Perform(Dev([], [], 1024), Accept(gp));
            && d.conns == [Fresh(Pair(gp, 1024), 0, 0, false)] && d.nextHostPort == 1025
            && |d.rx| == 1 && d.rx[0].pair == Pair(gp, 1024) && d.rx[0].op == 1
  {
    assert Scan([], gp, 1024, PORTS) == (Some(1024), 1025);
  }

  /** The guest's RESPONSE brings its connection up with the credit it offers, and the device answers nothing. */
  lemma ResponseOpens(d: Dev, i: nat, p: Packet, dialed: bool)
    requires i < |d.conns| && Find(d.conns, p.pair) == Some(i) && p.op == 2
    ensures var t := OnGuest(d, p, dialed);
            && t.rx == d.rx && |t.conns| == |d.conns|
            && t.conns[i] == d.conns[i].(up := true, peerBufAlloc := p.bufAlloc, peerFwdCnt := p.fwdCnt)
            && forall j | 0 <= j < |d.conns| && j != i :: t.conns[j] == d.conns[j]
  {
    var none: seq<Packet> := [];
    assert d.rx + none == d.rx;
  }

  /** What the host has for an open connection with credit left goes into a pump's first packet for it. */
  lemma FirstChunk(c: Conn, maxPayload: nat, a: Answers, data: seq<byte>)
    requires c.up && a.toReads != [] && a.toReads[0] == Data(data)
    requires 0 < |data| <= GuestWindow(c) && |data| <= maxPayload
    ensures Out(c.pair, 5, Flushed(c, a.toWrites).0.fwdCnt, data) in Turn(c, maxPayload, a).1
  {
    var f := Flushed(c, a.toWrites).0;
    FlushKeeps(c, a.toWrites);
    assert data[..|data|] == data;
    assert NextRead(a.toReads, Min(GuestWindow(f), maxPayload)) == Data(data);
    var ps := Filled(f, maxPayload, a.toReads).1;
    assert ps[0] == Out(f.pair, 5, f.fwdCnt, data);
    assert Turn(c, maxPayload, a).1 == CreditNews(f, Flushed(c, a.toWrites).1) + ps;
  }

  predicate Carries(ps: seq<Packet>, pair: Pair, data: seq<byte>) {
    exists k :: 0 <= k < |ps| && ps[k].pair == pair && ps[k].op == 5 && ps[k].payload == data
  }

  /** On any device, with any other connections, peers and answers: a pump queues for the guest what the host has for an
      open connection with credit. */
  lemma PumpCarries(d: Dev, i: nat, maxPayload: nat, waiting: seq<u32>, all: seq<Answers>, data: seq<byte>)
    requires i < |d.conns| && d.conns[i].up
    requires AnswersOf(all, i).toReads != [] && AnswersOf(all, i).toReads[0] == Data(data)
    requires 0 < |data| <= GuestWindow(d.conns[i]) && |data| <= maxPayload
    ensures Carries(Pumped(d, maxPayload, waiting, all).rx, d.conns[i].pair, data)
  {
    var d1, c, a := AcceptAll(d, waiting), d.conns[i], AnswersOf(all, i);
    assert d1.conns[i] == c by { AcceptsAppend(d, waiting); }
    var p := Out(c.pair, 5, Flushed(c, a.toWrites).0.fwdCnt, data);
    assert p in Turn(c, maxPayload, a).1 by { FirstChunk(c, maxPayload, a, data); }
    var ps := TurnPackets(d1.conns, maxPayload, all, |d1.conns|);
    assert p in ps by { TurnMade(d1.conns, maxPayload, all, i, p); }
    CarriedWithin(d1.rx, ps, Shutdowns(TurnedConns(d1.conns, maxPayload, all, |d1.conns|)), p);
  }

  lemma CarriedWithin(a: seq<Packet>, b: seq<Packet>, c: seq<Packet>, p: Packet)
    requires p in b && p.op == 5
    ensures Carries(a + b + c, p.pair, p.payload)
  {
    var k :| 0 <= k < |b| && b[k] == p;
    assert (a + b + c)[|a| + k] == p;
  }

  /** From boot: a host peer is accepted, the guest responds with some credit, and the next pump, whoever else is
      waiting, queues for it what the host has to say. */
  lemma OpensFromBoot(gp: u32, credit: u32, data: seq<byte>, maxPayload: nat, waiting: seq<u32>, a: Answers)
    requires 0 < |data| <= credit && |data| <= maxPayload && a.toReads != [] && a.toReads[0] == Data(data)
    ensures var me := Pair(gp, 1024);
            var d := OnGuest(Perform(Dev([], [], 1024), Accept(gp)), Packet(me, 2, credit, 0, []), false);
            Carries(Pumped(d, maxPayload, waiting, [a]).rx, me, data)
  {
    var me, p := Pair(gp, 1024), Packet(Pair(gp, 1024), 2, credit, 0, []);
    var d0 := Perform(Dev([], [], 1024), Accept(gp));
    PeerOffered(gp);
    ResponseOpens(d0, 0, p, false);
    PumpCarries(OnGuest(d0, p, false), 0, maxPayload, waiting, [a], data);
  }

  /** Nothing is read for a connection the guest has not opened. */
  lemma DownIsSilent(c: Conn, maxPayload: nat, a: Answers)
    requires !c.up
    ensures Turn(c, maxPayload, a).1 == []
  {
    FlushKeeps(c, a.toWrites);
  }

  // ---- closing ----

  lemma MineOne(c: Conn, me: Pair)
    ensures Mine([c], me) == if c.pair == me then [c] else []
  {
    assert [c][..0] == [];
  }

  lemma SurvivorsLast(s: seq<Conn>, c: Conn)
    ensures Survivors(s + [c]) == if Dead(c) then Survivors(s) else Survivors(s) + [c]
    ensures Shutdowns(s + [c]) == if Dead(c) then Shutdowns(s) + [Out(c.pair, 4, c.fwdCnt, [])] else Shutdowns(s)
  {
    assert (s + [c])[..|s|] == s;
  }

  lemma MineLast(s: seq<Conn>, c: Conn, me: Pair)
    ensures Mine(s + [c], me) == if c.pair == me then Mine(s, me) + [c] else Mine(s, me)
  {
    assert (s + [c])[..|s|] == s;
  }

  /** Reaping, seen by one pair of ports, is reaping of its own connections. */
  lemma {:induction false} SurvivorsProject(conns: seq<Conn>, me: Pair)
    ensures Mine(Survivors(conns), me) == Survivors(Mine(conns, me))
  {
    if conns != [] {
      var front, c := conns[..|conns| - 1], conns[|conns| - 1];
      SurvivorsProject(front, me);
      SurvivorsStep(front, c, me);
      assert front + [c] == conns;
    }
  }

  lemma SurvivorsStep(s: seq<Conn>, c: Conn, me: Pair)
    requires Mine(Survivors(s), me) == Survivors(Mine(s, me))
    ensures Mine(Survivors(s + [c]), me) == Survivors(Mine(s + [c], me))
  {
    MineLast(s, c, me);
    SurvivorsLast(s, c);
    if c.pair == me { SurvivorsLast(Mine(s, me), c); }
    if !Dead(c) { MineLast(Survivors(s), c, me); }
  }

  lemma {:induction false} ShutdownsProject(conns: seq<Conn>, me: Pair)
    ensures For(Shutdowns(conns), me) == Shutdowns(Mine(conns, me))
  {
    if conns != [] {
      ShutdownsProject(conns[..|conns| - 1], me);
      ShutdownsStep(conns[..|conns| - 1], conns[|conns| - 1], me);
      assert conns[..|conns| - 1] + [conns[|conns| - 1]] == conns;
    }
  }

  lemma ShutdownsStep(s: seq<Conn>, c: Conn, me: Pair)
    requires For(Shutdowns(s), me) == Shutdowns(Mine(s, me))
    ensures For(Shutdowns(s + [c]), me) == Shutdowns(Mine(s + [c], me))
  {
    MineLast(s, c, me);
    SurvivorsLast(s, c);
    if c.pair == me { SurvivorsLast(Mine(s, me), c); }
    if Dead(c) {
      ForAppend(Shutdowns(s), Out(c.pair, 4, c.fwdCnt, []), me);
      assert For(Shutdowns(s), me) + [] == For(Shutdowns(s), me);
    }
  }

  lemma ReapOne(c: Conn)
    ensures Survivors([c]) == if Dead(c) then [] else [c]
    ensures Shutdowns([c]) == if Dead(c) then [Out(c.pair, 4, c.fwdCnt, [])] else []
  {
    assert [c][..0] == [];
  }

  lemma {:induction false} CountFor(ps: seq<Packet>, me: Pair, op: u16)
    ensures Count(For(ps, me), me, op) == Count(ps, me, op)
  {
    if ps != [] {
      var front, p := ps[..|ps| - 1], ps[|ps| - 1];
      CountFor(front, me, op);
      if p.pair == me {
        assert For(ps, me)[..|For(front, me)|] == For(front, me);
      } else {
        assert For(ps, me) == For(front, me);
      }
    }
  }

  lemma MineSole(conns: seq<Conn>, i: nat, me: Pair)
    requires i < |conns| && conns[i].pair == me && forall j | 0 <= j < |conns| && j != i :: conns[j].pair != me
    ensures Mine(conns, me) == [conns[i]]
  {
    MineSplit(conns, i, me);
    MineNone(conns[..i], me);
    MineNone(conns[i + 1..], me);
  }

  /** The table after all turns, seen by one pair of ports. */
  lemma TurnedMine(conns: seq<Conn>, maxPayload: nat, all: seq<Answers>, i: nat, me: Pair)
    requires i < |conns| && conns[i].pair == me && forall j | 0 <= j < |conns| && j != i :: conns[j].pair != me
    ensures Mine(TurnedConns(conns, maxPayload, all, |conns|), me) == [Turn(conns[i], maxPayload, AnswersOf(all, i)).0]
  {
    var r := TurnedConns(conns, maxPayload, all, |conns|);
    forall j | 0 <= j < |conns| ensures r[j].pair == conns[j].pair {
      TurnedAt(conns, maxPayload, all, |conns|, j);
      TurnKeeps(conns[j], maxPayload, AnswersOf(all, j));
    }
    MineSole(r, i, me);
    TurnedAt(conns, maxPayload, all, |conns|, i);
  }

  lemma OnlyOne(conns: seq<Conn>, i: nat, j: nat, me: Pair)
    requires i < |conns| && j < |conns| && conns[i].pair == conns[j].pair == me && |Mine(conns, me)| == 1
    ensures i == j
  {
    if i < j { TwoMine(conns, i, j, me); } else if j < i { TwoMine(conns, j, i, me); }
  }

  lemma TwoMine(conns: seq<Conn>, i: nat, j: nat, me: Pair)
    requires i < j < |conns| && conns[i].pair == conns[j].pair == me
    ensures |Mine(conns, me)| >= 2
  {
    MineSplit(conns, j, me);
    MineSplit(conns[..j], i, me);
  }

  /** Whatever else happens in the pump: the one connection of these ports that its turn leaves finished is dropped, and
      exactly one SHUTDOWN is queued for it; one left unfinished is kept, and none is. */
  lemma PumpReaps(d: Dev, i: nat, maxPayload: nat, waiting: seq<u32>, all: seq<Answers>)
    requires i < |d.conns| && |Mine(AcceptAll(d, waiting).conns, d.conns[i].pair)| == 1
    ensures var me, t := d.conns[i].pair, Pumped(d, maxPayload, waiting, all);
            var c := Turn(d.conns[i], maxPayload, AnswersOf(all, i)).0;
            && Mine(t.conns, me) == (if Dead(c) then [] else [c])
            && Count(t.rx, me, 4) == Count(d.rx, me, 4) + if Dead(c) then 1 else 0
  {
    PumpTable(d, i, maxPayload, waiting, all);
    PumpCount(d, i, maxPayload, waiting, all);
  }

  /** A pump by its parts. */
  lemma PumpParts(d: Dev, maxPayload: nat, waiting: seq<u32>, all: seq<Answers>)
    ensures var d1, t := AcceptAll(d, waiting), Pumped(d, maxPayload, waiting, all);
            var cs := TurnedConns(d1.conns, maxPayload, all, |d1.conns|);
            && t.conns == Survivors(cs)
            && t.rx == d1.rx + TurnPackets(d1.conns, maxPayload, all, |d1.conns|) + Shutdowns(cs)
  {
  }

  /** The connection under study after the turns: alone with its ports, its finish told by one SHUTDOWN. */
  lemma PumpTurns(d: Dev, i: nat, maxPayload: nat, waiting: seq<u32>, all: seq<Answers>)
    requires i < |d.conns| && |Mine(AcceptAll(d, waiting).conns, d.conns[i].pair)| == 1
    ensures var d1, c := AcceptAll(d, waiting), Turn(d.conns[i], maxPayload, AnswersOf(all, i)).0;
            var cs := TurnedConns(d1.conns, maxPayload, all, |d1.conns|);
            && c.pair == d.conns[i].pair && For(Shutdowns(cs), c.pair) == OneShutdown(c)
            && Mine(Survivors(cs), c.pair) == if Dead(c) then [] else [c]
  {
    var d1, c := AcceptAll(d, waiting), Turn(d.conns[i], maxPayload, AnswersOf(all, i)).0;
    assert d1.conns[i] == d.conns[i] && i < |d1.conns| by { AcceptsAppend(d, waiting); }
    TurnsLeave(d1, i, maxPayload, all);
    ReapedOne(TurnedConns(d1.conns, maxPayload, all, |d1.conns|), c, c.pair);
  }

  lemma PumpTable(d: Dev, i: nat, maxPayload: nat, waiting: seq<u32>, all: seq<Answers>)
    requires i < |d.conns| && |Mine(AcceptAll(d, waiting).conns, d.conns[i].pair)| == 1
    ensures var c := Turn(d.conns[i], maxPayload, AnswersOf(all, i)).0;
            Mine(Pumped(d, maxPayload, waiting, all).conns, d.conns[i].pair) == if Dead(c) then [] else [c]
  {
    PumpTurns(d, i, maxPayload, waiting, all);
    PumpParts(d, maxPayload, waiting, all);
  }

  lemma PumpCount(d: Dev, i: nat, maxPayload: nat, waiting: seq<u32>, all: seq<Answers>)
    requires i < |d.conns| && |Mine(AcceptAll(d, waiting).conns, d.conns[i].pair)| == 1
    ensures var c := Turn(d.conns[i], maxPayload, AnswersOf(all, i)).0;
            Count(Pumped(d, maxPayload, waiting, all).rx, d.conns[i].pair, 4)
            == Count(d.rx, d.conns[i].pair, 4) + if Dead(c) then 1 else 0
  {
    var d1, c := AcceptAll(d, waiting), Turn(d.conns[i], maxPayload, AnswersOf(all, i)).0;
    var cs := TurnedConns(d1.conns, maxPayload, all, |d1.conns|);
    var ps := TurnPackets(d1.conns, maxPayload, all, |d1.conns|);
    PumpTurns(d, i, maxPayload, waiting, all);
    PumpParts(d, maxPayload, waiting, all);
    assert Offers(d.rx, d1.rx) by { AcceptsAppend(d, waiting); }
    assert Moves(ps) by { TurnsMake(d1.conns, maxPayload, all, |d1.conns|); }
    ShutdownCount(d.rx, d1.rx, ps, Shutdowns(cs), c, c.pair);
  }

  function OneShutdown(c: Conn): seq<Packet> { if Dead(c) then [Out(c.pair, 4, c.fwdCnt, [])] else [] }

  lemma TurnsLeave(d: Dev, i: nat, maxPayload: nat, all: seq<Answers>)
    requires i < |d.conns| && |Mine(d.conns, d.conns[i].pair)| == 1
    ensures var c := Turn(d.conns[i], maxPayload, AnswersOf(all, i)).0;
            c.pair == d.conns[i].pair && Mine(TurnedConns(d.conns, maxPayload, all, |d.conns|), c.pair) == [c]
  {
    TurnKeeps(d.conns[i], maxPayload, AnswersOf(all, i));
    var me := d.conns[i].pair;
    forall j | 0 <= j < |d.conns| && j != i ensures d.conns[j].pair != me {
      if d.conns[j].pair == me { OnlyOne(d.conns, i, j, me); }
    }
    TurnedMine(d.conns, maxPayload, all, i, me);
  }

  lemma ReapedOne(cs: seq<Conn>, c: Conn, me: Pair)
    requires Mine(cs, me) == [c]
    ensures Mine(Survivors(cs), me) == if Dead(c) then [] else [c]
    ensures For(Shutdowns(cs), me) == OneShutdown(c)
  {
    SurvivorsProject(cs, me);
    ShutdownsProject(cs, me);
    ReapOne(c);
  }

  lemma ShutdownCount(a: seq<Packet>, b: seq<Packet>, ps: seq<Packet>, ss: seq<Packet>, c: Conn, me: Pair)
    requires Offers(a, b) && Moves(ps) && For(ss, me) == OneShutdown(c) && c.pair == me
    ensures Count(b + ps + ss, me, 4) == Count(a, me, 4) + if Dead(c) then 1 else 0
  {
    assert Count(b, me, 4) == Count(a, me, 4) by {
      assert b == a + b[|a|..];
      CountConcat(a, b[|a|..], me, 4);
      CountNone(b[|a|..], me, 4);
    }
    CountConcat(b, ps, me, 4);
    CountNone(ps, me, 4);
    CountConcat(b + ps, ss, me, 4);
    CountFor(ss, me, 4);
    CountShutdown(c);
  }

  lemma CountShutdown(c: Conn)
    ensures Count(OneShutdown(c), c.pair, 4) == if Dead(c) then 1 else 0
  {
    var o := Out(c.pair, 4, c.fwdCnt, []);
    assert [o][..0] == [];
  }

  /** The guest's SHUTDOWN or RST: the connection is down, and done once its host has what waits. */
  lemma GuestCloses(d: Dev, i: nat, p: Packet, dialed: bool)
    requires i < |d.conns| && Find(d.conns, p.pair) == Some(i) && p.op in {3, 4}
    ensures var t := OnGuest(d, p, dialed);
            && t.rx == d.rx && |t.conns| == |d.conns| && t.nextHostPort == d.nextHostPort
            && t.conns == d.conns[i := d.conns[i].(up := false, hostDone := true, peerBufAlloc := p.bufAlloc,
                                                   peerFwdCnt := p.fwdCnt)]
  {
    var none: seq<Packet> := [];
    assert d.rx + none == d.rx;
  }

  predicate Willing(ws: seq<WriteOutcome>, n: nat) {
    n <= |ws| && forall k | 0 <= k < |ws| :: ws[k].Wrote? && 0 < ws[k].n
  }

  /** After the guest closes, and while the host takes what waits, the next pump drops the connection and tells the
      guest so exactly once. */
  lemma CloseReaped(d: Dev, i: nat, p: Packet, dialed: bool, maxPayload: nat, all: seq<Answers>)
    requires i < |d.conns| && d.conns[i].pair == p.pair && |Mine(d.conns, p.pair)| == 1 && p.op in {3, 4}
    requires Willing(AnswersOf(all, i).toWrites, |d.conns[i].toHost|)
    ensures var t := Pumped(OnGuest(d, p, dialed), maxPayload, [], all);
            && Mine(t.conns, p.pair) == [] && Count(t.rx, p.pair, 4) == Count(d.rx, p.pair, 4) + 1
  {
    MineFound(d.conns, p.pair);
    OnlyOne(d.conns, Find(d.conns, p.pair).value, i, p.pair);
    GuestCloses(d, i, p, dialed);
    var d1 := OnGuest(d, p, dialed);
    MineUpdate(d.conns, i, d1.conns[i], p.pair);
    var ws := AnswersOf(all, i).toWrites;
    WillingHostFlushes(d1.conns[i], ws);
    FlushKeeps(d1.conns[i], ws);
    PumpReaps(d1, i, maxPayload, [], all);
  }

  /** The same when the host closes: end of stream on an open connection with credit and nothing waiting. */
  lemma EndOfStreamReaped(d: Dev, i: nat, maxPayload: nat, all: seq<Answers>)
    requires i < |d.conns| && |Mine(d.conns, d.conns[i].pair)| == 1 && d.conns[i].up && d.conns[i].toHost == []
    requires AnswersOf(all, i).toReads != [] && AnswersOf(all, i).toReads[0] == EndOfStream
    requires GuestWindow(d.conns[i]) > 0 && maxPayload > 0
    ensures var t, me := Pumped(d, maxPayload, [], all), d.conns[i].pair;
            Mine(t.conns, me) == [] && Count(t.rx, me, 4) == Count(d.rx, me, 4) + 1
  {
    PumpReaps(d, i, maxPayload, [], all);
  }

  /** An open connection whose host stays silent is kept. */
  lemma SilentHostKeeps(d: Dev, i: nat, maxPayload: nat, all: seq<Answers>)
    requires i < |d.conns| && |Mine(d.conns, d.conns[i].pair)| == 1 && !d.conns[i].hostDone
    requires AnswersOf(all, i) == Answers([], [])
    ensures var t, me := Pumped(d, maxPayload, [], all), d.conns[i].pair;
            Mine(t.conns, me) == [d.conns[i]] && Count(t.rx, me, 4) == Count(d.rx, me, 4)
  {
    PumpReaps(d, i, maxPayload, [], all);
  }

  // ---- what the device answers at once ----

  /** A REQUEST is answered by RESPONSE if the host could be dialed, with a connection that is up, and by RST if not. */
  lemma RequestAnswered(d: Dev, p: Packet, dialed: bool)
    requires p.op == 1 && Find(d.conns, p.pair) == None
    ensures var t := OnGuest(d, p, dialed);
            && |t.rx| == |d.rx| + 1 && t.rx[..|d.rx|] == d.rx && t.rx[|d.rx|].pair == p.pair
            && t.rx[|d.rx|].op == (if dialed then 2 else 3) && t.rx[|d.rx|].bufAlloc == 0x4_0000
            && (!dialed ==> t.conns == d.conns)
            && (dialed ==> |t.conns| == |d.conns| + 1 && t.conns[..|d.conns|] == d.conns
                           && t.conns[|d.conns|].up && t.conns[|d.conns|].pair == p.pair
                           && GuestWindow(t.conns[|d.conns|]) == Max(0, p.bufAlloc - WrapSub(0, p.fwdCnt)))
  {
  }

  /** Data within the 256 KiB of buffer waits for the host; data beyond it ends the connection with a RST. */
  lemma DataTaken(d: Dev, i: nat, p: Packet, dialed: bool)
    requires i < |d.conns| && Find(d.conns, p.pair) == Some(i) && p.op == 5
    ensures var t, c := OnGuest(d, p, dialed), d.conns[i];
            if |c.toHost| + |p.payload| <= 0x4_0000 then
              t.rx == d.rx && t.conns[i].toHost == c.toHost + p.payload && t.conns[i].up == c.up
            else
              && |t.rx| == |d.rx| + 1 && t.rx[|d.rx|].pair == c.pair && t.rx[|d.rx|].op == 3
              && !t.conns[i].up && t.conns[i].hostDone && t.conns[i].toHost == c.toHost
  {
    var none: seq<Packet> := [];
    assert d.rx + none == d.rx;
  }

  /** A credit request is answered by the count of bytes the host has taken, zero for ports without a connection. */
  lemma CreditAnswered(d: Dev, p: Packet, dialed: bool)
    requires p.op == 7
    ensures var t, at := OnGuest(d, p, dialed), Find(d.conns, p.pair);
            && |t.rx| == |d.rx| + 1 && t.rx[|d.rx|].pair == p.pair && t.rx[|d.rx|].op == 6
            && t.rx[|d.rx|].bufAlloc == 0x4_0000
            && t.rx[|d.rx|].fwdCnt == if at == None then 0 else d.conns[at.value].fwdCnt
  {
  }

  // ---- credit and failures ----

  /** The host takes bytes of an open connection: the pump tells the guest how many it has taken in all. */
  lemma PumpTellsCredit(d: Dev, i: nat, maxPayload: nat, waiting: seq<u32>, all: seq<Answers>)
    requires i < |d.conns| && d.conns[i].up && d.conns[i].toHost != []
    requires Willing(AnswersOf(all, i).toWrites, |d.conns[i].toHost|)
    ensures var c := d.conns[i];
            Packet(c.pair, 6, 0x4_0000, WrapAdd(c.fwdCnt, |c.toHost|), []) in Pumped(d, maxPayload, waiting, all).rx
  {
    var d1, c, a := AcceptAll(d, waiting), d.conns[i], AnswersOf(all, i);
    var p := Packet(c.pair, 6, 0x4_0000, WrapAdd(c.fwdCnt, |c.toHost|), []);
    assert d1.conns[i] == c && i < |d1.conns| by { AcceptsAppend(d, waiting); }
    TurnTellsCredit(c, maxPayload, a);
    TurnMade(d1.conns, maxPayload, all, i, p);
    PumpParts(d, maxPayload, waiting, all);
    InMiddle(d1.rx, TurnPackets(d1.conns, maxPayload, all, |d1.conns|),
             Shutdowns(TurnedConns(d1.conns, maxPayload, all, |d1.conns|)), p);
  }

  lemma InMiddle(a: seq<Packet>, b: seq<Packet>, c: seq<Packet>, p: Packet)
    requires p in b
    ensures p in a + b + c
  {
    LaterIn(a, b, a + b + c, p);
  }

  /** And before any data of that turn. */
  lemma TurnTellsCredit(c: Conn, maxPayload: nat, a: Answers)
    requires c.up && c.toHost != [] && Willing(a.toWrites, |c.toHost|)
    ensures Turn(c, maxPayload, a).1 != []
    ensures Turn(c, maxPayload, a).1[0] == Packet(c.pair, 6, 0x4_0000, WrapAdd(c.fwdCnt, |c.toHost|), [])
  {
    FlushKeeps(c, a.toWrites);
    WillingHostFlushes(c, a.toWrites);
    WillingCounts(c, a.toWrites);
    var f := Flushed(c, a.toWrites).0;
    assert CreditNews(f, true) == [Packet(c.pair, 6, 0x4_0000, f.fwdCnt, [])];
    assert Turn(c, maxPayload, a).1[0] == CreditNews(f, true)[0];
  }

  lemma {:induction false} WillingCounts(c: Conn, ws: seq<WriteOutcome>)
    requires Willing(ws, |c.toHost|)
    ensures Flushed(c, ws).0.fwdCnt == WrapAdd(c.fwdCnt, |c.toHost|)
    decreases |ws|
  {
    if c.toHost != [] {
      var n := NextWrite(ws, |c.toHost|).n;
      WillingCounts(Drained(c, n), ws[1..]);
      WrapAddTwice(c.fwdCnt, n, |c.toHost| - n);
    }
  }

  lemma WrapAddTwice(a: u32, n: nat, m: nat)
    ensures WrapAdd(WrapAdd(a, n), m) == WrapAdd(a, n + m)
  {
    WrapAddExact(a + n, m);
  }

  /** A host socket that fails, on a write or on a read, ends its connection. */
  lemma FailureEnds(c: Conn, maxPayload: nat, a: Answers)
    ensures c.toHost != [] && a.toWrites != [] && a.toWrites[0] == WriteFailed ==> Turn(c, maxPayload, a).0.hostDone
    ensures c.toHost == [] && c.up && GuestWindow(c) > 0 && maxPayload > 0
            && a.toReads != [] && a.toReads[0] in {EndOfStream, ReadFailed} ==>
              Turn(c, maxPayload, a) == (c.(hostDone := true), [])
  {
    FillKeeps(Flushed(c, a.toWrites).0, maxPayload, a.toReads);
    var none: seq<Packet> := [];
    assert none + none == none;
  }

  /** A packet for ports without a connection is ignored unless it asks to connect or for credit; one on a connection
      with an operation that is none of the seven only brings its credit up to date. */
  lemma OthersIgnored(d: Dev, p: Packet, dialed: bool)
    ensures Find(d.conns, p.pair) == None && p.op != 1 && p.op != 7 ==> OnGuest(d, p, dialed) == d
    ensures Find(d.conns, p.pair).Some? && (p.op == 0 || p.op == 6 || p.op > 7) ==>
              var i := Find(d.conns, p.pair).value;
              OnGuest(d, p, dialed)
              == d.(conns := d.conns[i := d.conns[i].(peerBufAlloc := p.bufAlloc, peerFwdCnt := p.fwdCnt)])
  {
    var none: seq<Packet> := [];
    assert d.rx + none == d.rx;
  }
}

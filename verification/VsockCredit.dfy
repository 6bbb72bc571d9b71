/** One vsock connection end to end: the device's side, a guest, and the packets between them. */
module VsockCredit {
  import opened Words
  import opened VsockSpec

  /** What the guest end knows. Totals are unbounded; only their low 32 bits travel in headers. */
  datatype Guest = Guest(
    sent: seq<byte>,       // payload it has put in RW packets
    seenFwd: u32,          // fwd_cnt of the last packet it received
    got: seq<byte>,        // payload it has received
    consumed: nat,         // of which its application has consumed this much
    bufAlloc: u32)         // receive buffer it offers

  /** The connection and its two packet streams; `accepted` logs the payload the device took in. */
  datatype Link = Link(conn: Conn, toGuest: seq<Packet>, toDev: seq<Packet>, guest: Guest, accepted: seq<byte>)

  datatype LinkStep =
    | Send(p: Packet)            // the guest queues a packet
    | Take                       // the device processes the oldest one
    | HostTakes(n: nat)
    | Update
    | HostGives(data: seq<byte>)
    | Ended
    | Arrive                     // the guest processes the oldest packet for it
    | Consume(n: nat)
    | Enlarge(bufAlloc: u32)

  function Rw(p: Packet): seq<byte> { if p.op == OP_RW then p.payload else [] }

  /** RW payload carried by a packet stream, in order. */
  function RwBytes(q: seq<Packet>): seq<byte> {
    if q == [] then [] else RwBytes(q[..|q| - 1]) + Rw(q[|q| - 1])
  }

  lemma {:induction false} RwBytesConcat(a: seq<Packet>, b: seq<Packet>)
    ensures RwBytes(a + b) == RwBytes(a) + RwBytes(b)
    decreases |b|
  {
    if b == [] {
      assert a + b == a;
    } else {
      RwBytesConcat(a, b[..|b| - 1]);
      FrontOfConcat(a, b);
      Regroup(RwBytes(a), RwBytes(b[..|b| - 1]), Rw(b[|b| - 1]));
    }
  }

  lemma FrontOfConcat(a: seq<Packet>, b: seq<Packet>)
    requires b != []
    ensures (a + b)[..|a + b| - 1] == a + b[..|b| - 1]
  {
  }

  lemma RwBytesAppend(q: seq<Packet>, p: Packet)
    ensures RwBytes(q + [p]) == RwBytes(q) + Rw(p)
  {
    assert (q + [p])[..|q|] == q;
  }

  lemma RwBytesHead(q: seq<Packet>)
    requires q != []
    ensures RwBytes(q) == Rw(q[0]) + RwBytes(q[1..])
  {
    assert q == [q[0]] + q[1..];
    RwBytesConcat([q[0]], q[1..]);
    RwBytesAppend([], q[0]);
    assert [] + [q[0]] == [q[0]];
  }

  predicate CanStep(l: Link, e: LinkStep) {
    match e
    case Send(_) => true
    case Take => l.toDev != [] && l.toDev[0].op != OP_REQUEST
    case HostTakes(n) => 0 < n <= |l.conn.toHost|
    case Update => l.conn.up
    case HostGives(data) => l.conn.up && 0 < |data| <= GuestWindow(l.conn)
    case Ended => true
    case Arrive => l.toGuest != []
    case Consume(n) => l.guest.consumed + n <= |l.guest.got|
    case Enlarge(b) => l.guest.bufAlloc <= b
  }

  function Next(l: Link, e: LinkStep): Link
    requires CanStep(l, e)
  {
    var c, g := l.conn, l.guest;
    match e
    case Send(p) => l.(toDev := l.toDev + [p], guest := g.(sent := g.sent + Rw(p)))
    case Take =>
      var p := l.toDev[0];
      var (c1, replies) := Receive(c, p);
      l.(conn := c1, toGuest := l.toGuest + replies, toDev := l.toDev[1..],
         accepted := if p.op == OP_RW && !Overflows(c, p) then l.accepted + p.payload else l.accepted)
    case HostTakes(n) => l.(conn := Drained(c, n))
    case Update => l.(toGuest := l.toGuest + [Out(c.pair, OP_CREDIT_UPDATE, c.fwdCnt, [])])
    case HostGives(data) =>
      l.(conn := Forwarded(c, data), toGuest := l.toGuest + [Out(c.pair, OP_RW, c.fwdCnt, data)])
    case Ended => l.(conn := c.(hostDone := true))
    case Arrive =>
      var p := l.toGuest[0];
      l.(toGuest := l.toGuest[1..], guest := g.(seenFwd := p.fwdCnt, got := g.got + Rw(p)))
    case Consume(n) => l.(guest := g.(consumed := g.consumed + n))
    case Enlarge(b) => l.(guest := g.(bufAlloc := b))
  }

  /** A connection at the moment the device creates it for a guest that has not used these ports before. */
  predicate Opened(l: Link) {
    && l.conn == Fresh(l.conn.pair, l.conn.peerBufAlloc, 0, l.conn.up)
    && l.conn.peerBufAlloc <= l.guest.bufAlloc
    && l.toDev == [] && l.accepted == []
    && l.guest == Guest([], 0, [], 0, l.guest.bufAlloc)
    && forall k | 0 <= k < |l.toGuest| ::
         l.toGuest[k].fwdCnt == 0 && l.toGuest[k].op != OP_RST && Rw(l.toGuest[k]) == []
  }

  // ---- any guest at all ----

  /** Guest to host: what the host took, then what waits, is what was accepted; the wait is bounded. */
  predicate Upstream(c: Conn, accepted: seq<byte>) {
    && |c.toHost| <= BUF_ALLOC
    && c.stream.written + c.toHost == accepted
    && c.fwdCnt == |c.stream.written| % U32_SPAN
  }

  /** Host to guest: what the guest got, then what is under way, is what was already there and what the host gave. */
  predicate Downstream(c: Conn, before: seq<byte>, got: seq<byte>, q: seq<Packet>) {
    && got + RwBytes(q) == before + c.stream.read
    && c.txCnt == |c.stream.read| % U32_SPAN
  }

  /** Both streams, for a connection opened when the guest had got or was about to get `before` on these ports. */
  predicate ConservedSince(l: Link, before: seq<byte>) {
    Upstream(l.conn, l.accepted) && Downstream(l.conn, before, l.guest.got, l.toGuest)
  }

  predicate Conserved(l: Link) { ConservedSince(l, []) }

  /** A connection the device has just created. Nothing is asked of the guest, of what it has queued or of what is
      on its way to it. */
  predicate Begun(l: Link) {
    l.conn == Fresh(l.conn.pair, l.conn.peerBufAlloc, l.conn.peerFwdCnt, l.conn.up) && l.accepted == []
  }

  lemma BegunConserved(l: Link)
    requires Begun(l)
    ensures ConservedSince(l, l.guest.got + RwBytes(l.toGuest))
  {
  }

  lemma {:induction false} NoRwBytes(q: seq<Packet>)
    requires forall k | 0 <= k < |q| :: Rw(q[k]) == []
    ensures RwBytes(q) == []
  {
    if q != [] { NoRwBytes(q[..|q| - 1]); }
  }

  lemma OpenedConserved(l: Link)
    requires Opened(l)
    ensures Conserved(l)
  {
    NoRwBytes(l.toGuest);
  }

  lemma ReceiveUpstream(c: Conn, p: Packet, accepted: seq<byte>)
    requires Upstream(c, accepted)
    ensures Upstream(Receive(c, p).0, if p.op == OP_RW && !Overflows(c, p) then accepted + p.payload else accepted)
  {
    assert c.stream.written + (c.toHost + p.payload) == (c.stream.written + c.toHost) + p.payload;
  }

  lemma ReceiveDownstream(c: Conn, p: Packet, before: seq<byte>, got: seq<byte>, q: seq<Packet>)
    requires Downstream(c, before, got, q)
    ensures Downstream(Receive(c, p).0, before, got, q + Receive(c, p).1)
  {
    var replies := Receive(c, p).1;
    if replies == [] {
      assert q + replies == q;
    } else {
      assert replies == [replies[0]];
      RwBytesAppend(q, replies[0]);
      assert got + (RwBytes(q) + []) == got + RwBytes(q);
    }
  }

  lemma DrainUpstream(c: Conn, n: nat, accepted: seq<byte>)
    requires Upstream(c, accepted) && n <= |c.toHost|
    ensures Upstream(Drained(c, n), accepted)
  {
    assert c.stream.written + c.toHost[..n] + c.toHost[n..] == c.stream.written + c.toHost;
    WrapAddExact(|c.stream.written|, n);
  }

  lemma ForwardDownstream(c: Conn, data: seq<byte>, before: seq<byte>, got: seq<byte>, q: seq<Packet>, fwd: u32)
    requires Downstream(c, before, got, q)
    ensures Downstream(Forwarded(c, data), before, got, q + [Out(c.pair, OP_RW, fwd, data)])
  {
    RwBytesAppend(q, Out(c.pair, OP_RW, fwd, data));
    assert got + (RwBytes(q) + data) == (before + c.stream.read) + data == before + (c.stream.read + data);
    WrapAddExact(|c.stream.read|, |data|);
  }

  lemma ControlDownstream(c: Conn, before: seq<byte>, got: seq<byte>, q: seq<Packet>, p: Packet)
    requires Downstream(c, before, got, q) && Rw(p) == []
    ensures Downstream(c, before, got, q + [p])
  {
    RwBytesAppend(q, p);
    assert got + (RwBytes(q) + []) == got + RwBytes(q);
  }

  lemma ArriveDownstream(c: Conn, before: seq<byte>, got: seq<byte>, q: seq<Packet>)
    requires Downstream(c, before, got, q) && q != []
    ensures Downstream(c, before, got + Rw(q[0]), q[1..])
  {
    RwBytesHead(q);
    assert got + Rw(q[0]) + RwBytes(q[1..]) == got + RwBytes(q);
  }

  lemma StepConserves(l: Link, e: LinkStep, before: seq<byte>)
    requires ConservedSince(l, before) && CanStep(l, e)
    ensures ConservedSince(Next(l, e), before)
  {
    var c, got := l.conn, l.guest.got;
    match e {
      case Take =>
        ReceiveUpstream(c, l.toDev[0], l.accepted);
        ReceiveDownstream(c, l.toDev[0], before, got, l.toGuest);
      case HostTakes(n) => DrainUpstream(c, n, l.accepted);
      case Update => ControlDownstream(c, before, got, l.toGuest, Out(c.pair, OP_CREDIT_UPDATE, c.fwdCnt, []));
      case HostGives(data) => ForwardDownstream(c, data, before, got, l.toGuest, c.fwdCnt);
      case Arrive => ArriveDownstream(c, before, got, l.toGuest);
      case _ =>
    }
  }

  // ---- counters that travel modulo 2^32 ----

  /** `ws` are the true values behind the `fwd_cnt` fields of `q`: ascending, from `lo` to `hi`. */
  predicate Unwrapped(q: seq<Packet>, ws: seq<nat>, lo: nat, hi: nat) {
    && |ws| == |q| && lo <= hi
    && (forall k | 0 <= k < |q| :: q[k].fwdCnt == ws[k] % U32_SPAN && lo <= ws[k] <= hi)
    && forall j, k | 0 <= j < k < |q| :: ws[j] <= ws[k]
  }

  lemma UnwrappedAppend(q: seq<Packet>, ws: seq<nat>, lo: nat, hi: nat, p: Packet, top: nat)
    requires Unwrapped(q, ws, lo, hi) && hi <= top && p.fwdCnt == top % U32_SPAN
    ensures Unwrapped(q + [p], ws + [top], lo, top)
  {
  }

  lemma UnwrappedTail(q: seq<Packet>, ws: seq<nat>, lo: nat, hi: nat)
    requires Unwrapped(q, ws, lo, hi) && q != []
    ensures q[0].fwdCnt == ws[0] % U32_SPAN && lo <= ws[0]
    ensures Unwrapped(q[1..], ws[1..], ws[0], hi)
  {
  }

  // ---- guest to host ----

  /** The guest's own rule, in the 32-bit arithmetic it has: payload fits what is left of our window. */
  predicate Respects(l: Link, e: LinkStep) {
    e.Send? && e.p.op == OP_RW ==>
      |e.p.payload| <= BUF_ALLOC - WrapSub(|l.guest.sent| % U32_SPAN, l.guest.seenFwd)
  }

  /** With true values `s` for the last `fwd_cnt` seen and `ws` for those under way. */
  predicate InCredit(l: Link, s: nat, ws: seq<nat>) {
    && l.guest.sent == l.accepted + RwBytes(l.toDev)
    && l.guest.seenFwd == s % U32_SPAN
    && Unwrapped(l.toGuest, ws, s, |l.conn.stream.written|)
    && |l.guest.sent| <= s + BUF_ALLOC
    && forall k | 0 <= k < |l.toGuest| :: l.toGuest[k].op != OP_RST
  }

  ghost predicate Credited(l: Link) { Conserved(l) && exists s: nat, ws: seq<nat> :: InCredit(l, s, ws) }

  lemma OpenedCredited(l: Link)
    requires Opened(l)
    ensures Credited(l)
  {
    OpenedConserved(l);
    var ws: seq<nat> := seq(|l.toGuest|, _ => 0);
    assert l.accepted + RwBytes(l.toDev) == [];
    assert InCredit(l, 0, ws);
  }

  /** The packet the device is about to take cannot overflow the buffer. */
  lemma NoOverflow(l: Link)
    requires Credited(l) && CanStep(l, Take) && l.toDev[0].op == OP_RW
    ensures !Overflows(l.conn, l.toDev[0])
  {
    var s: nat, ws: seq<nat> :| InCredit(l, s, ws);
    RwBytesHead(l.toDev);
    assert |l.guest.sent| == |l.accepted| + |l.toDev[0].payload| + |RwBytes(l.toDev[1..])|;
    assert |l.accepted| == |l.conn.stream.written| + |l.conn.toHost|;
  }

  lemma SendCredited(l: Link, p: Packet)
    requires Credited(l) && CanStep(l, Send(p)) && Respects(l, Send(p))
    ensures Credited(Next(l, Send(p)))
  {
    var s: nat, ws: seq<nat> :| InCredit(l, s, ws);
    var l1 := Next(l, Send(p));
    RwBytesAppend(l.toDev, p);
    assert l1.guest.sent == l1.accepted + RwBytes(l1.toDev);
    assert s <= |l.conn.stream.written| <= |l.accepted| <= |l.guest.sent|;
    WrapSubExact(|l.guest.sent|, s);
    assert InCredit(l1, s, ws);
  }

  lemma TakeAccounts(l: Link, s: nat, ws: seq<nat>)
    requires Credited(l) && InCredit(l, s, ws) && CanStep(l, Take)
    ensures Next(l, Take).guest.sent == Next(l, Take).accepted + RwBytes(l.toDev[1..])
  {
    RwBytesHead(l.toDev);
    if l.toDev[0].op == OP_RW {
      NoOverflow(l);
      assert l.accepted + (l.toDev[0].payload + RwBytes(l.toDev[1..]))
          == l.accepted + l.toDev[0].payload + RwBytes(l.toDev[1..]);
    }
  }

  lemma TakeCredited(l: Link)
    requires Credited(l) && CanStep(l, Take)
    ensures Credited(Next(l, Take))
  {
    var s: nat, ws: seq<nat> :| InCredit(l, s, ws);
    var l1, p, w := Next(l, Take), l.toDev[0], |l.conn.stream.written|;
    StepConserves(l, Take, []);
    TakeAccounts(l, s, ws);
    if p.op == OP_CREDIT_REQUEST {
      var reply := Out(l.conn.pair, OP_CREDIT_UPDATE, l.conn.fwdCnt, []);
      UnwrappedAppend(l.toGuest, ws, s, w, reply, w);
      assert InCredit(l1, s, ws + [w]);
    } else {
      if p.op == OP_RW { NoOverflow(l); }
      assert l1.toGuest == l.toGuest;
      assert InCredit(l1, s, ws);
    }
  }

  /** Packets the device sends on its own account carry the current drained count. */
  lemma HostCredited(l: Link, e: LinkStep)
    requires Credited(l) && CanStep(l, e) && (e.Update? || e.HostGives?)
    ensures Credited(Next(l, e))
  {
    var s: nat, ws: seq<nat> :| InCredit(l, s, ws);
    var l1, w := Next(l, e), |l.conn.stream.written|;
    StepConserves(l, e, []);
    UnwrappedAppend(l.toGuest, ws, s, w, l1.toGuest[|l.toGuest|], w);
    assert InCredit(l1, s, ws + [w]);
  }

  lemma ArriveCredited(l: Link)
    requires Credited(l) && CanStep(l, Arrive)
    ensures Credited(Next(l, Arrive))
  {
    var s: nat, ws: seq<nat> :| InCredit(l, s, ws);
    StepConserves(l, Arrive, []);
    UnwrappedTail(l.toGuest, ws, s, |l.conn.stream.written|);
    assert InCredit(Next(l, Arrive), ws[0], ws[1..]);
  }

  lemma StepCredited(l: Link, e: LinkStep)
    requires Credited(l) && CanStep(l, e) && Respects(l, e)
    ensures Credited(Next(l, e))
  {
    match e {
      case Send(p) => SendCredited(l, p);
      case Take => TakeCredited(l);
      case Update => HostCredited(l, e);
      case HostGives(_) => HostCredited(l, e);
      case Arrive => ArriveCredited(l);
      case _ =>
        StepConserves(l, e, []);
        var s: nat, ws: seq<nat> :| InCredit(l, s, ws);
        assert InCredit(Next(l, e), s, ws);
    }
  }

  // ---- host to guest ----

  /** A guest whose headers tell the truth about what it has consumed and the buffer it offers. */
  predicate Honest(l: Link, e: LinkStep) {
    e.Send? ==> e.p.fwdCnt == l.guest.consumed % U32_SPAN && e.p.bufAlloc == l.guest.bufAlloc
  }

  /** With true values `f` for the last count the device heard and `fs` for those under way. */
  predicate InWindow(l: Link, f: nat, fs: seq<nat>) {
    var c, g := l.conn, l.guest;
    && c.peerFwdCnt == f % U32_SPAN
    && Unwrapped(l.toDev, fs, f, g.consumed)
    && g.consumed <= |g.got|
    && c.peerBufAlloc <= g.bufAlloc
    && (forall k | 0 <= k < |l.toDev| :: c.peerBufAlloc <= l.toDev[k].bufAlloc <= g.bufAlloc)
    && (forall j, k | 0 <= j < k < |l.toDev| :: l.toDev[j].bufAlloc <= l.toDev[k].bufAlloc)
    && f <= |c.stream.read| <= f + c.peerBufAlloc
  }

  ghost predicate Windowed(l: Link) { Conserved(l) && exists f: nat, fs: seq<nat> :: InWindow(l, f, fs) }

  lemma OpenedWindowed(l: Link)
    requires Opened(l)
    ensures Windowed(l)
  {
    OpenedConserved(l);
    assert InWindow(l, 0, []);
  }

  lemma TakeWindowed(l: Link)
    requires Windowed(l) && CanStep(l, Take)
    ensures Windowed(Next(l, Take))
  {
    var f: nat, fs: seq<nat> :| InWindow(l, f, fs);
    StepConserves(l, Take, []);
    UnwrappedTail(l.toDev, fs, f, l.guest.consumed);
    assert InWindow(Next(l, Take), fs[0], fs[1..]);
  }

  lemma SendWindowed(l: Link, p: Packet)
    requires Windowed(l) && CanStep(l, Send(p)) && Honest(l, Send(p))
    ensures Windowed(Next(l, Send(p)))
  {
    var f: nat, fs: seq<nat> :| InWindow(l, f, fs);
    UnwrappedAppend(l.toDev, fs, f, l.guest.consumed, p, l.guest.consumed);
    assert InWindow(Next(l, Send(p)), f, fs + [l.guest.consumed]);
  }

  /** The credit window is exact however often the 32-bit counters have wrapped. */
  lemma WindowExact(l: Link, f: nat, fs: seq<nat>)
    requires Conserved(l) && InWindow(l, f, fs)
    ensures GuestWindow(l.conn) == l.conn.peerBufAlloc - (|l.conn.stream.read| - f)
  {
    WrapSubExact(|l.conn.stream.read|, f);
  }

  lemma GivesWindowed(l: Link, data: seq<byte>)
    requires Windowed(l) && CanStep(l, HostGives(data))
    ensures Windowed(Next(l, HostGives(data)))
  {
    var f: nat, fs: seq<nat> :| InWindow(l, f, fs);
    StepConserves(l, HostGives(data), []);
    WindowExact(l, f, fs);
    assert InWindow(Next(l, HostGives(data)), f, fs);
  }

  /** Steps that neither send to the device nor read from the host leave the window as it was. */
  lemma WindowKept(l: Link, l1: Link, f: nat, fs: seq<nat>)
    requires InWindow(l, f, fs) && l1.toDev == l.toDev
    requires l1.conn.peerFwdCnt == l.conn.peerFwdCnt && l1.conn.peerBufAlloc == l.conn.peerBufAlloc
    requires l1.conn.stream.read == l.conn.stream.read && l.guest.bufAlloc <= l1.guest.bufAlloc
    requires l.guest.consumed <= l1.guest.consumed <= |l1.guest.got|
    ensures InWindow(l1, f, fs)
  {
  }

  lemma StepWindowed(l: Link, e: LinkStep)
    requires Windowed(l) && CanStep(l, e) && Honest(l, e)
    ensures Windowed(Next(l, e))
  {
    match e {
      case Send(p) => SendWindowed(l, p);
      case Take => TakeWindowed(l);
      case HostGives(data) => GivesWindowed(l, data);
      case _ =>
        StepConserves(l, e, []);
        var f: nat, fs: seq<nat> :| InWindow(l, f, fs);
        WindowKept(l, Next(l, e), f, fs);
    }
  }

  /** What the guest is still owed buffer for never exceeds the buffer it offers. */
  lemma UnconsumedBounded(l: Link)
    requires Windowed(l)
    ensures l.guest.consumed <= |l.guest.got| <= |l.conn.stream.read|
    ensures |l.conn.stream.read| - l.guest.consumed <= l.guest.bufAlloc
  {
    var f: nat, fs: seq<nat> :| InWindow(l, f, fs);
    assert |l.conn.stream.read| == |l.guest.got| + |RwBytes(l.toGuest)|;
  }
}

/** The virtio-vsock device as a value: connections, queued packets, and the meaning of each device step. */
module VsockSpec {
  import opened Words

  const EPHEMERAL_BASE: u32 := 1024
  const BUF_ALLOC: u32 := 256 * 1024

  const OP_REQUEST: u16 := 1
  const OP_RESPONSE: u16 := 2
  const OP_RST: u16 := 3
  const OP_SHUTDOWN: u16 := 4
  const OP_RW: u16 := 5
  const OP_CREDIT_UPDATE: u16 := 6
  const OP_CREDIT_REQUEST: u16 := 7

  /** A connection's ports, from the guest's point of view. */
  datatype Pair = Pair(guestPort: u32, hostPort: u32)

  /** The header fields the two sides act on, and the payload. Either direction. */
  datatype Packet = Packet(pair: Pair, op: u16, bufAlloc: u32, fwdCnt: u32, payload: seq<byte>)

  /** A host stream socket: the bytes it has taken from us and the bytes we have read from it. */
  datatype Socket = Socket(written: seq<byte>, read: seq<byte>)

  datatype Conn = Conn(
    pair: Pair,
    stream: Socket,
    peerBufAlloc: u32,
    peerFwdCnt: u32,
    txCnt: u32,
    fwdCnt: u32,
    toHost: seq<byte>,
    up: bool,
    hostDone: bool)

  datatype Dev = Dev(conns: seq<Conn>, rx: seq<Packet>, nextHostPort: u32)

  function Fresh(pair: Pair, bufAlloc: u32, fwdCnt: u32, up: bool): Conn {
    Conn(pair, Socket([], []), bufAlloc, fwdCnt, 0, 0, [], up, false)
  }

  /** A packet from the device: our window and the connection's drained count ride along. */
  function Out(pair: Pair, op: u16, fwdCnt: u32, payload: seq<byte>): Packet {
    Packet(pair, op, BUF_ALLOC, fwdCnt, payload)
  }

  /** Bytes the device may still send under the guest's credit. */
  function GuestWindow(c: Conn): u32 {
    Max(0, c.peerBufAlloc - WrapSub(c.txCnt, c.peerFwdCnt))
  }

  // ---- one connection ----

  /** A guest packet other than REQUEST arriving on its connection: the new connection and the replies. */
  function Receive(c: Conn, p: Packet): (Conn, seq<Packet>) {
    var w := c.(peerBufAlloc := p.bufAlloc, peerFwdCnt := p.fwdCnt);
    if p.op == OP_RESPONSE then (w.(up := true), [])
    else if p.op == OP_RW then
      if Overflows(c, p) then (w.(up := false, hostDone := true), [Out(c.pair, OP_RST, 0, [])])
      else (w.(toHost := w.toHost + p.payload), [])
    else if p.op == OP_CREDIT_REQUEST then (w, [Out(c.pair, OP_CREDIT_UPDATE, w.fwdCnt, [])])
    else if p.op == OP_SHUTDOWN || p.op == OP_RST then (w.(hostDone := true, up := false), [])
    else (w, [])
  }

  predicate Overflows(c: Conn, p: Packet) { |c.toHost| + |p.payload| > BUF_ALLOC }

  /** The host socket takes the first `n` waiting bytes. */
  function Drained(c: Conn, n: nat): Conn
    requires n <= |c.toHost|
  {
    c.(toHost := c.toHost[n..], fwdCnt := WrapAdd(c.fwdCnt, n),
       stream := c.stream.(written := c.stream.written + c.toHost[..n]))
  }

  /** Bytes read from the host socket go to the guest. */
  function Forwarded(c: Conn, data: seq<byte>): Conn {
    c.(txCnt := WrapAdd(c.txCnt, |data|), stream := c.stream.(read := c.stream.read + data))
  }

  predicate Dead(c: Conn) { c.hostDone && c.toHost == [] }

  // ---- the connection table ----

  function FindFrom(conns: seq<Conn>, pair: Pair, i: nat): (r: Option<nat>)
    requires i <= |conns|
    ensures r.Some? ==> i <= r.value < |conns| && conns[r.value].pair == pair
    ensures r.Some? ==> forall j | i <= j < r.value :: conns[j].pair != pair
    ensures r == None ==> forall j | i <= j < |conns| :: conns[j].pair != pair
    decreases |conns| - i
  {
    if i == |conns| then None else if conns[i].pair == pair then Some(i) else FindFrom(conns, pair, i + 1)
  }

  /** Position of the first connection with these ports. */
  function Find(conns: seq<Conn>, pair: Pair): (r: Option<nat>)
    ensures r.Some? ==> r.value < |conns| && conns[r.value].pair == pair
    ensures r == None <==> forall j | 0 <= j < |conns| :: conns[j].pair != pair
  {
    FindFrom(conns, pair, 0)
  }

  function Survivors(conns: seq<Conn>): seq<Conn> {
    if conns == [] then []
    else
      var c := conns[|conns| - 1];
      Survivors(conns[..|conns| - 1]) + if Dead(c) then [] else [c]
  }

  function Shutdowns(conns: seq<Conn>): seq<Packet> {
    if conns == [] then []
    else
      var c := conns[|conns| - 1];
      Shutdowns(conns[..|conns| - 1]) + if Dead(c) then [Out(c.pair, OP_SHUTDOWN, c.fwdCnt, [])] else []
  }

  // ---- host port allocation ----

  const PORTS: nat := U32_SPAN - 1024

  function NextPort(p: u32): u32 { if p == U32_SPAN - 1 then EPHEMERAL_BASE else p + 1 }

  /** Scan at most `n` ports from the cursor for one unused with this guest port; the cursor moves past it. */
  function Scan(conns: seq<Conn>, guestPort: u32, cursor: u32, n: nat): (Option<u32>, u32)
    decreases n
  {
    if n == 0 then (None, cursor)
    else if Find(conns, Pair(guestPort, cursor)) == None then (Some(cursor), NextPort(cursor))
    else Scan(conns, guestPort, NextPort(cursor), n - 1)
  }

  /** The port handed out and the new cursor; the bottom of the range if every port is taken. */
  function Allocate(conns: seq<Conn>, guestPort: u32, cursor: u32): (u32, u32) {
    var (hp, next) := Scan(conns, guestPort, cursor, PORTS);
    (if hp.Some? then hp.value else EPHEMERAL_BASE, next)
  }

  // ---- device steps ----

  /** Process one guest packet; `dialed` says whether the host side accepted the dial of a REQUEST. */
  function OnGuest(d: Dev, p: Packet, dialed: bool): Dev {
    var at := Find(d.conns, p.pair);
    if p.op == OP_REQUEST then
      var conns := if at == None then d.conns
                   else d.conns[at.value := d.conns[at.value].(peerBufAlloc := p.bufAlloc, peerFwdCnt := p.fwdCnt)];
      if dialed then
        d.(conns := conns + [Fresh(p.pair, p.bufAlloc, p.fwdCnt, true)], rx := d.rx + [Out(p.pair, OP_RESPONSE, 0, [])])
      else d.(conns := conns, rx := d.rx + [Out(p.pair, OP_RST, 0, [])])
    else if at == None then
      if p.op == OP_CREDIT_REQUEST then d.(rx := d.rx + [Out(p.pair, OP_CREDIT_UPDATE, 0, [])]) else d
    else
      var (c, replies) := Receive(d.conns[at.value], p);
      d.(conns := d.conns[at.value := c], rx := d.rx + replies)
  }

  datatype HostStep =
    | Accept(guestPort: u32)               // a host peer asks for a guest port
    | Drain(idx: nat, n: nat)              // the host socket takes n bytes
    | Credit(idx: nat)                     // tell the guest what was drained
    | Forward(idx: nat, data: seq<byte>)   // bytes read from the host socket
    | Finish(idx: nat)                     // end of stream or a socket error
    | Reap                                 // drop finished connections

  predicate Possible(d: Dev, e: HostStep) {
    match e
    case Accept(_) => true
    case Drain(i, n) => i < |d.conns| && 0 < n <= |d.conns[i].toHost|
    case Credit(i) => i < |d.conns| && d.conns[i].up
    case Forward(i, data) => i < |d.conns| && d.conns[i].up && 0 < |data| <= GuestWindow(d.conns[i])
    case Finish(i) => i < |d.conns|
    case Reap => true
  }

  function Perform(d: Dev, e: HostStep): Dev
    requires Possible(d, e)
  {
    match e
    case Accept(gp) =>
      var (hp, next) := Allocate(d.conns, gp, d.nextHostPort);
      Dev(d.conns + [Fresh(Pair(gp, hp), 0, 0, false)], d.rx + [Out(Pair(gp, hp), OP_REQUEST, 0, [])], next)
    case Drain(i, n) => d.(conns := d.conns[i := Drained(d.conns[i], n)])
    case Credit(i) => d.(rx := d.rx + [Out(d.conns[i].pair, OP_CREDIT_UPDATE, d.conns[i].fwdCnt, [])])
    case Forward(i, data) =>
      d.(conns := d.conns[i := Forwarded(d.conns[i], data)],
         rx := d.rx + [Out(d.conns[i].pair, OP_RW, d.conns[i].fwdCnt, data)])
    case Finish(i) => d.(conns := d.conns[i := d.conns[i].(hostDone := true)])
    case Reap => d.(conns := Survivors(d.conns), rx := d.rx + Shutdowns(d.conns))
  }

  predicate AllPossible(d: Dev, es: seq<HostStep>)
    decreases |es|, 0
  {
    es != [] ==> AllPossible(d, es[..|es| - 1]) && Possible(PerformAll(d, es[..|es| - 1]), es[|es| - 1])
  }

  function PerformAll(d: Dev, es: seq<HostStep>): Dev
    requires AllPossible(d, es)
    decreases |es|, 1
  {
    if es == [] then d else Perform(PerformAll(d, es[..|es| - 1]), es[|es| - 1])
  }

  // ---- properties of the port scan ----

  /** The port `k` places after `cursor` in cyclic order. */
  function PortAfter(cursor: u32, k: nat): u32
    decreases k
  {
    if k == 0 then cursor else PortAfter(NextPort(cursor), k - 1)
  }

  lemma {:induction false} PortAfterCycles(cursor: u32, k: nat)
    requires EPHEMERAL_BASE <= cursor
    ensures PortAfter(cursor, k) == EPHEMERAL_BASE + (cursor - EPHEMERAL_BASE + k) % PORTS
    decreases k
  {
    if k > 0 {
      PortAfterCycles(NextPort(cursor), k - 1);
      if cursor == U32_SPAN - 1 { ModShift(PORTS, k - 1); }
    }
  }

  predicate Free(conns: seq<Conn>, guestPort: u32, port: u32) { Find(conns, Pair(guestPort, port)) == None }

  /** How far a scan went before it stopped. */
  function Skipped(conns: seq<Conn>, guestPort: u32, cursor: u32, n: nat): (k: nat)
    ensures k <= n
    decreases n
  {
    if n == 0 || Free(conns, guestPort, cursor) then 0 else 1 + Skipped(conns, guestPort, NextPort(cursor), n - 1)
  }

  lemma {:induction false} ScanFindsFirst(conns: seq<Conn>, guestPort: u32, cursor: u32, n: nat)
    ensures var k := Skipped(conns, guestPort, cursor, n);
            && (forall j | 0 <= j < k :: !Free(conns, guestPort, PortAfter(cursor, j)))
            && (k < n ==> Free(conns, guestPort, PortAfter(cursor, k)))
            && Scan(conns, guestPort, cursor, n)
               == if k < n then (Some(PortAfter(cursor, k)), PortAfter(cursor, k + 1)) else (None, PortAfter(cursor, n))
    decreases n
  {
    assert PortAfter(cursor, 1) == PortAfter(NextPort(cursor), 0);
    if n > 0 && !Free(conns, guestPort, cursor) {
      ScanFindsFirst(conns, guestPort, NextPort(cursor), n - 1);
      var k := Skipped(conns, guestPort, NextPort(cursor), n - 1);
      assert PortAfter(cursor, k + 2) == PortAfter(NextPort(cursor), k + 1);
      forall j | 0 <= j < k + 1 ensures !Free(conns, guestPort, PortAfter(cursor, j)) {
        if j > 0 { assert PortAfter(cursor, j) == PortAfter(NextPort(cursor), j - 1); }
      }
    }
  }

  /** A full scan meets every port of the range once. */
  lemma FullScanCovers(cursor: u32, port: u32)
    requires EPHEMERAL_BASE <= cursor && EPHEMERAL_BASE <= port
    ensures exists k: nat :: k < PORTS && PortAfter(cursor, k) == port
    ensures forall j: nat, k: nat | j < k < PORTS :: PortAfter(cursor, j) != PortAfter(cursor, k)
  {
    var k := if cursor <= port then port - cursor else port - cursor + PORTS;
    PortAfterCycles(cursor, k);
    assert PortAfter(cursor, k) == port;
    forall j: nat, k: nat | j < k < PORTS ensures PortAfter(cursor, j) != PortAfter(cursor, k) {
      PortAfterCycles(cursor, j);
      PortAfterCycles(cursor, k);
    }
  }

  /** The allocator returns a port unused with this guest port whenever one exists, and otherwise the base. */
  lemma AllocateFindsFree(conns: seq<Conn>, guestPort: u32, cursor: u32)
    requires EPHEMERAL_BASE <= cursor
    ensures var (hp, next) := Allocate(conns, guestPort, cursor);
            && EPHEMERAL_BASE <= hp && EPHEMERAL_BASE <= next
            && (Free(conns, guestPort, hp)
                <==> exists port: u32 :: EPHEMERAL_BASE <= port && Free(conns, guestPort, port))
  {
    var k := Skipped(conns, guestPort, cursor, PORTS);
    ScanFindsFirst(conns, guestPort, cursor, PORTS);
    PortAfterCycles(cursor, k);
    PortAfterCycles(cursor, k + 1);
    if port: u32 :| EPHEMERAL_BASE <= port && Free(conns, guestPort, port) && k == PORTS {
      FullScanCovers(cursor, port);
    }
  }

  // ---- no early reuse ----

  /** One call of the allocator: the table it saw and the guest port it was for. */
  datatype Call = Call(conns: seq<Conn>, guestPort: u32)

  /** Ports passed over before call `i` begins, counted without wrapping. */
  function Passed(calls: seq<Call>, cursor: u32, i: nat): nat
    requires i <= |calls| && EPHEMERAL_BASE <= cursor
    decreases i, 0
  {
    if i == 0 then cursor - EPHEMERAL_BASE else Stop(calls, cursor, i - 1) + 1
  }

  /** The unwrapped position at which call `i` stops. */
  function Stop(calls: seq<Call>, cursor: u32, i: nat): nat
    requires i < |calls| && EPHEMERAL_BASE <= cursor
    decreases i, 1
  {
    var at := Passed(calls, cursor, i);
    var start := EPHEMERAL_BASE + at % PORTS;
    at + Min(Skipped(calls[i].conns, calls[i].guestPort, start, PORTS), PORTS - 1)
  }

  /** The cursor after the first `i` calls. */
  function CursorAfter(calls: seq<Call>, cursor: u32, i: nat): u32
    requires i <= |calls|
  {
    if i == 0 then cursor
    else Allocate(calls[i - 1].conns, calls[i - 1].guestPort, CursorAfter(calls, cursor, i - 1)).1
  }

  /** The port call `i` finds, if any. */
  function Found(calls: seq<Call>, cursor: u32, i: nat): Option<u32>
    requires i < |calls|
  {
    Scan(calls[i].conns, calls[i].guestPort, CursorAfter(calls, cursor, i), PORTS).0
  }

  lemma {:induction false} CursorIsPassed(calls: seq<Call>, cursor: u32, i: nat)
    requires i <= |calls| && EPHEMERAL_BASE <= cursor
    ensures CursorAfter(calls, cursor, i) == EPHEMERAL_BASE + Passed(calls, cursor, i) % PORTS
  {
    if i > 0 {
      CursorIsPassed(calls, cursor, i - 1);
      ScanAdvances(calls, cursor, i - 1);
      assert Passed(calls, cursor, i) == Stop(calls, cursor, i - 1) + 1;
    }
  }

  lemma ScanAdvances(calls: seq<Call>, cursor: u32, i: nat)
    requires i < |calls| && EPHEMERAL_BASE <= cursor
    requires CursorAfter(calls, cursor, i) == EPHEMERAL_BASE + Passed(calls, cursor, i) % PORTS
    ensures CursorAfter(calls, cursor, i + 1) == EPHEMERAL_BASE + (Stop(calls, cursor, i) + 1) % PORTS
    ensures Found(calls, cursor, i).Some? ==>
              Found(calls, cursor, i).value == EPHEMERAL_BASE + Stop(calls, cursor, i) % PORTS
  {
    var at, start := Passed(calls, cursor, i), CursorAfter(calls, cursor, i);
    var k := Skipped(calls[i].conns, calls[i].guestPort, start, PORTS);
    ScanFindsFirst(calls[i].conns, calls[i].guestPort, start, PORTS);
    if k < PORTS {
      assert Stop(calls, cursor, i) == at + k;
      PortIsAt(start, at, k);
      PortIsAt(start, at, k + 1);
    } else {
      assert Stop(calls, cursor, i) == at + (PORTS - 1);
      PortIsAt(start, at, PORTS);
    }
  }

  lemma PortIsAt(start: u32, at: nat, k: nat)
    requires start == EPHEMERAL_BASE + at % PORTS
    ensures PortAfter(start, k) == EPHEMERAL_BASE + (at + k) % PORTS
  {
    PortAfterCycles(start, k);
    ModShift(at, k);
  }

  lemma ModShift(at: nat, k: nat)
    ensures (at % PORTS + k) % PORTS == (at + k) % PORTS
  {
  }

  lemma {:induction false} StopsAscend(calls: seq<Call>, cursor: u32, i: nat, j: nat)
    requires i < j < |calls| && EPHEMERAL_BASE <= cursor
    ensures Stop(calls, cursor, i) < Stop(calls, cursor, j)
    decreases j
  {
    if i < j - 1 { StopsAscend(calls, cursor, i, j - 1); }
  }

  lemma FullTurnMeetsAll(a: nat, b: nat, r: nat)
    requires a < b && a % PORTS == b % PORTS && r < PORTS && r != a % PORTS
    ensures exists at: nat :: a < at < b && at % PORTS == r
  {
    var m := a % PORTS;
    assert b >= a + PORTS;
    var at := if m < r then a + (r - m) else a + (r - m) + PORTS;
    assert at == (a / PORTS) * PORTS + r || at == (a / PORTS + 1) * PORTS + r;
    assert at % PORTS == r;
  }

  /** Over any run of allocations, whatever the tables: between two calls that find the same port, the
      cursor passes over every other port of the range. */
  lemma PortNotReusedEarly(calls: seq<Call>, cursor: u32, i: nat, j: nat, other: u32)
    requires i < j < |calls| && EPHEMERAL_BASE <= cursor && EPHEMERAL_BASE <= other
    requires Found(calls, cursor, i).Some? && Found(calls, cursor, i) == Found(calls, cursor, j)
    requires other != Found(calls, cursor, i).value
    ensures exists at: nat :: Stop(calls, cursor, i) < at < Stop(calls, cursor, j)
                              && EPHEMERAL_BASE + at % PORTS == other
  {
    CursorIsPassed(calls, cursor, i);
    CursorIsPassed(calls, cursor, j);
    ScanAdvances(calls, cursor, i);
    ScanAdvances(calls, cursor, j);
    StopsAscend(calls, cursor, i, j);
    FullTurnMeetsAll(Stop(calls, cursor, i), Stop(calls, cursor, j), other - EPHEMERAL_BASE);
  }
}

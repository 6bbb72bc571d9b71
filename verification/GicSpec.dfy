/** The software GICv2 as a value: its state, the meaning of each register access, and runs of accesses. */
module GicSpec {
  import opened Words

  const NUM_INTID: nat := 256
  const PRIVATE: nat := 32
  const SPURIOUS: nat := 1023
  const IDLE_PRIO: byte := 0xff
  const MAX_CPUS: nat := 8

  // GICD register blocks.
  const GICD_CTLR: nat := 0x000
  const GICD_ISENABLER: nat := 0x100
  const GICD_ICENABLER: nat := 0x180
  const GICD_ISPENDR: nat := 0x200
  const GICD_ICPENDR: nat := 0x280
  const GICD_ISACTIVER: nat := 0x300
  const GICD_ICACTIVER: nat := 0x380
  const GICD_IPRIORITYR: nat := 0x400
  const GICD_ITARGETSR: nat := 0x800
  const GICD_ICFGR: nat := 0xc00
  const GICD_SGIR: nat := 0xf00

  // GICC registers.
  const GICC_CTLR: nat := 0x00
  const GICC_PMR: nat := 0x04
  const GICC_IAR: nat := 0x0c
  const GICC_EOIR: nat := 0x10
  const GICC_RPR: nat := 0x14
  const GICC_HPPIR: nat := 0x18
  const GICC_IIDR: nat := 0xfc

  /** The six per-INTID arrays that the banks and the shared block both hold. */
  datatype Lines = Lines(
    enabled: seq<bool>,
    pending: seq<bool>,
    active: seq<bool>,
    level: seq<bool>,
    edge: seq<bool>,
    priority: seq<byte>)
  {
    predicate Sized(n: nat) {
      |enabled| == |pending| == |active| == |level| == |edge| == |priority| == n
    }
  }

  datatype CpuBank = CpuBank(
    cpuEnabled: bool,
    pmr: byte,
    running: seq<byte>,
    lines: Lines,
    sgiSrc: seq<byte>)
  {
    predicate Valid() { lines.Sized(PRIVATE) && |sgiSrc| == 16 }
  }

  datatype Gic = Gic(distEnabled: bool, cpus: seq<CpuBank>, lines: Lines, targets: seq<byte>) {
    predicate Valid() {
      && 1 <= |cpus| <= MAX_CPUS
      && (forall c | 0 <= c < |cpus| :: cpus[c].Valid())
      && lines.Sized(NUM_INTID)
      && |targets| == NUM_INTID
    }
  }

  function DefaultBank(): (b: CpuBank)
    ensures b.Valid() && b.running == []
  {
    var off := seq(PRIVATE, _ => false);
    CpuBank(false, 0, [],
            Lines(off, off, off, off, seq(PRIVATE, i => i < 16), seq(PRIVATE, _ => 0 as byte)),
            seq(16, _ => 0 as byte))
  }

  /** Power-on state serving `n` CPUs, clamped to 1..8. */
  function Reset(n: nat): (g: Gic)
    ensures g.Valid() && |g.cpus| == Max(1, Min(n, MAX_CPUS))
  {
    var off := seq(NUM_INTID, _ => false);
    Gic(false, seq(Max(1, Min(n, MAX_CPUS)), _ => DefaultBank()),
        Lines(off, off, off, off, off, seq(NUM_INTID, _ => 0 as byte)),
        seq(NUM_INTID, _ => 1 as byte))
  }

  // ---- arbitration ----

  predicate On(g: Gic, cpu: nat) { g.Valid() && cpu < |g.cpus| }

  /** The block that holds INTID `i` as `cpu` sees it: its bank or the shared one. */
  function Block(g: Gic, cpu: nat, i: nat): Lines
    requires On(g, cpu)
  {
    if i < PRIVATE then g.cpus[cpu].lines else g.lines
  }

  function WithBlock(g: Gic, cpu: nat, i: nat, l: Lines): Gic
    requires On(g, cpu)
  {
    if i < PRIVATE then g.(cpus := g.cpus[cpu := g.cpus[cpu].(lines := l)]) else g.(lines := l)
  }

  predicate ActiveAt(g: Gic, cpu: nat, i: nat)
    requires On(g, cpu) && i < NUM_INTID
  {
    Block(g, cpu, i).active[i]
  }

  function PriorityAt(g: Gic, cpu: nat, i: nat): byte
    requires On(g, cpu) && i < NUM_INTID
  {
    Block(g, cpu, i).priority[i]
  }

  predicate IsPending(g: Gic, cpu: nat, i: nat)
    requires On(g, cpu) && i < NUM_INTID
  {
    && (PRIVATE <= i ==> Bit(g.targets[i], cpu))
    && var l := Block(g, cpu, i);
       if l.edge[i] then l.pending[i] else l.level[i]
  }

  function RunningPrio(b: CpuBank): byte {
    if b.running == [] then IDLE_PRIO else b.running[|b.running| - 1]
  }

  /** INTID `i` may be signalled to `cpu` now. */
  predicate Deliverable(g: Gic, cpu: nat, i: nat)
    requires On(g, cpu)
  {
    && i < NUM_INTID
    && g.distEnabled
    && Block(g, cpu, i).enabled[i]
    && !ActiveAt(g, cpu, i)
    && IsPending(g, cpu, i)
    && PriorityAt(g, cpu, i) < g.cpus[cpu].pmr
    && PriorityAt(g, cpu, i) < RunningPrio(g.cpus[cpu])
  }

  /** Strict (priority, INTID) order of IHI 0048B section 3.3: lower value first. */
  predicate Before(g: Gic, cpu: nat, i: nat, j: nat)
    requires On(g, cpu) && i < NUM_INTID && j < NUM_INTID
  {
    || PriorityAt(g, cpu, i) < PriorityAt(g, cpu, j)
    || (PriorityAt(g, cpu, i) == PriorityAt(g, cpu, j) && i < j)
  }

  ghost predicate Least(g: Gic, cpu: nat, i: nat)
    requires On(g, cpu)
  {
    Deliverable(g, cpu, i) && forall j | Deliverable(g, cpu, j) && j != i :: Before(g, cpu, i, j)
  }

  /** The interrupt to deliver: the deliverable INTID least in (priority, INTID) order. */
  ghost function Best(g: Gic, cpu: nat): Option<nat>
    requires On(g, cpu)
  {
    if exists i: nat :: Least(g, cpu, i) then (var i: nat :| Least(g, cpu, i); Some(i)) else None
  }

  lemma {:induction false} LeastExists(g: Gic, cpu: nat, i: nat)
    requires On(g, cpu) && Deliverable(g, cpu, i)
    ensures exists k: nat :: Least(g, cpu, k)
    decreases PriorityAt(g, cpu, i), i
  {
    if j: nat :| Deliverable(g, cpu, j) && j != i && !Before(g, cpu, i, j) {
      LeastExists(g, cpu, j);
    } else {
      assert Least(g, cpu, i);
    }
  }

  /** Arbitration is total and unambiguous. */
  lemma BestIsLeast(g: Gic, cpu: nat)
    requires On(g, cpu)
    ensures Best(g, cpu) == None <==> forall i: nat :: !Deliverable(g, cpu, i)
    ensures forall i: nat :: Best(g, cpu) == Some(i) <==> Least(g, cpu, i)
  {
    forall i: nat | Deliverable(g, cpu, i) ensures Best(g, cpu) != None {
      LeastExists(g, cpu, i);
    }
    forall i: nat, j: nat | Least(g, cpu, i) && Least(g, cpu, j) ensures i == j {
    }
  }

  // ---- CPU interface ----

  /** What an IAR read returns for INTID `i`: SGIs carry their source CPU from bit 10 up. */
  function IarValue(g: Gic, cpu: nat, i: nat): nat
    requires On(g, cpu)
  {
    if i < 16 then i + 1024 * (g.cpus[cpu].sgiSrc[i] as int) else i
  }

  function Activated(l: Lines, i: nat): Lines
    requires i < |l.active| && i < |l.edge| && i < |l.pending|
  {
    l.(active := l.active[i := true], pending := if l.edge[i] then l.pending[i := false] else l.pending)
  }

  function Push(g: Gic, cpu: nat, p: byte): Gic
    requires On(g, cpu)
  {
    g.(cpus := g.cpus[cpu := g.cpus[cpu].(running := g.cpus[cpu].running + [p])])
  }

  function Taken(g: Gic, cpu: nat, i: nat): (g': Gic)
    requires On(g, cpu) && i < NUM_INTID
  {
    Push(WithBlock(g, cpu, i, Activated(Block(g, cpu, i), i)), cpu, PriorityAt(g, cpu, i))
  }

  /** State after a GICC_IAR read. */
  ghost function Ack(g: Gic, cpu: nat): Gic
    requires On(g, cpu)
  {
    BestIsLeast(g, cpu);
    match Best(g, cpu)
    case None => g
    case Some(i) => Taken(g, cpu, i)
  }

  /** Value of a GICC_IAR read. */
  ghost function Iar(g: Gic, cpu: nat): nat
    requires On(g, cpu)
  {
    match Best(g, cpu)
    case None => SPURIOUS
    case Some(i) => IarValue(g, cpu, i)
  }

  function Pop(g: Gic, cpu: nat): Gic
    requires On(g, cpu)
  {
    var r := g.cpus[cpu].running;
    g.(cpus := g.cpus[cpu := g.cpus[cpu].(running := if r == [] then [] else r[..|r| - 1])])
  }

  function Deactivated(g: Gic, cpu: nat, i: nat): Gic
    requires On(g, cpu)
  {
    if i < NUM_INTID then
      var l := Block(g, cpu, i);
      WithBlock(g, cpu, i, l.(active := l.active[i := false]))
    else g
  }

  /** State after a GICC_EOIR write naming INTID `i`. */
  function Eoi(g: Gic, cpu: nat, i: nat): Gic
    requires On(g, cpu)
  {
    Pop(Deactivated(g, cpu, i), cpu)
  }

  function Align4(off: nat): nat { off - off % 4 }

  ghost function AfterCpuRead(g: Gic, cpu: nat, off: nat): Gic
    requires On(g, cpu)
  {
    if Align4(off) == GICC_IAR then Ack(g, cpu) else g
  }

  function AfterCpuWrite(g: Gic, cpu: nat, off: nat, val: nat): Gic
    requires On(g, cpu)
  {
    var o := Align4(off);
    var v := val % U32_SPAN;
    if o == GICC_CTLR then g.(cpus := g.cpus[cpu := g.cpus[cpu].(cpuEnabled := v % 2 == 1)])
    else if o == GICC_PMR then g.(cpus := g.cpus[cpu := g.cpus[cpu].(pmr := v % 256)])
    else if o == GICC_EOIR then Eoi(g, cpu, v % 1024)
    else g
  }

  // ---- distributor ----

  predicate InBlock(off: nat, start: nat, count: nat) { start <= off < start + count * 4 }

  datatype Field = Enabled | Pending | Active

  function Get(l: Lines, f: Field): seq<bool> {
    match f case Enabled => l.enabled case Pending => l.pending case Active => l.active
  }

  function Put(l: Lines, f: Field, s: seq<bool>): Lines {
    match f
    case Enabled => l.(enabled := s)
    case Pending => l.(pending := s)
    case Active => l.(active := s)
  }

  /** Write `on` wherever one of the low `n` bits of `v` selects an index from `base`, indexes below `lo` excepted. */
  function Masked(s: seq<bool>, lo: nat, base: nat, n: nat, v: nat, on: bool): (r: seq<bool>)
    ensures |r| == |s|
  {
    seq(|s|, i requires 0 <= i < |s| => if lo <= i && base <= i < base + n && Bit(v, i - base) then on else s[i])
  }

  /** Copy the low `n` bytes of `v`, reduced modulo `m`, to the indexes from `base`, those below `lo` excepted. */
  function Bytewise(s: seq<byte>, lo: nat, base: nat, n: nat, v: nat, m: nat): (r: seq<byte>)
    requires 0 < m <= 256
    ensures |r| == |s|
  {
    seq(|s|, i requires 0 <= i < |s| => if lo <= i && base <= i < base + n then ByteOf(v, i - base) % m else s[i])
  }

  /** Copy the odd bits of the low `n` two-bit fields of `v` to the indexes from `base`, those below `lo` excepted. */
  function Configured(s: seq<bool>, lo: nat, base: nat, n: nat, v: nat): (r: seq<bool>)
    ensures |r| == |s|
  {
    seq(|s|, i requires 0 <= i < |s| => if lo <= i && base <= i < base + n then Bit(v, 2 * (i - base) + 1) else s[i])
  }

  function BothLines(g: Gic, cpu: nat, bank: Lines, shared: Lines): Gic
    requires On(g, cpu)
  {
    g.(cpus := g.cpus[cpu := g.cpus[cpu].(lines := bank)], lines := shared)
  }

  function BitsSet(g: Gic, cpu: nat, base: nat, n: nat, v: nat, f: Field, on: bool): Gic
    requires On(g, cpu)
  {
    var b, s := g.cpus[cpu].lines, g.lines;
    BothLines(g, cpu, Put(b, f, Masked(Get(b, f), 0, base, n, v, on)),
              Put(s, f, Masked(Get(s, f), PRIVATE, base, n, v, on)))
  }

  function PrioritySet(g: Gic, cpu: nat, idx: nat, n: nat, val: nat): Gic
    requires On(g, cpu)
  {
    var b, s := g.cpus[cpu].lines, g.lines;
    BothLines(g, cpu, b.(priority := Bytewise(b.priority, 0, idx, n, val, 256)),
              s.(priority := Bytewise(s.priority, PRIVATE, idx, n, val, 256)))
  }

  lemma Pow2AtMost256(n: nat)
    requires n <= 8
    ensures Pow2(n) <= 256
  {
    assert Pow2(8) == 256;
    if n < 8 {
      assert Pow2(n) <= Pow2(8) by { Pow2Monotone(n, 8); }
    }
  }

  lemma {:induction false} Pow2Monotone(a: nat, b: nat)
    requires a <= b
    ensures Pow2(a) <= Pow2(b)
  {
    if a < b { Pow2Monotone(a, b - 1); }
  }

  function TargetsSet(g: Gic, idx: nat, n: nat, val: nat): Gic
    requires g.Valid()
  {
    Pow2AtMost256(|g.cpus|);
    g.(targets := Bytewise(g.targets, PRIVATE, idx, n, val, Pow2(|g.cpus|)))
  }

  function CfgSet(g: Gic, cpu: nat, base: nat, n: nat, v: nat): Gic
    requires On(g, cpu)
  {
    var b, s := g.cpus[cpu].lines, g.lines;
    BothLines(g, cpu, b.(edge := Configured(b.edge, 16, base, n, v)),
              s.(edge := Configured(s.edge, PRIVATE, base, n, v)))
  }

  /** Does a GICD_SGIR write of `v` by `cpu` select target `t`? */
  predicate SgiHit(v: nat, cpu: nat, t: nat) {
    match v / Pow2(24) % 4
    case 0 => Bit(v / Pow2(16) % 256, t)
    case 1 => t != cpu
    case _ => t == cpu
  }

  function Posted(b: CpuBank, sgi: nat, src: byte): CpuBank
    requires b.Valid() && sgi < 16
  {
    b.(lines := b.lines.(pending := b.lines.pending[sgi := true]), sgiSrc := b.sgiSrc[sgi := src])
  }

  /** An SGI write by `cpu` seen by the first `n` banks. */
  function SgiSet(g: Gic, cpu: nat, n: nat, v: nat): Gic
    requires On(g, cpu)
  {
    g.(cpus := seq(|g.cpus|, t requires 0 <= t < |g.cpus| =>
      if t < n && SgiHit(v, cpu, t) then Posted(g.cpus[t], v % 16, cpu) else g.cpus[t]))
  }

  function AfterDistWrite(g: Gic, cpu: nat, off: nat, size: nat, val: nat): Gic
    requires On(g, cpu)
  {
    var o := Align4(off);
    var v := val % U32_SPAN;
    if InBlock(off, GICD_IPRIORITYR, 64) then PrioritySet(g, cpu, off - GICD_IPRIORITYR, size, val)
    else if InBlock(off, GICD_ITARGETSR, 64) then TargetsSet(g, off - GICD_ITARGETSR, size, val)
    else if o == GICD_CTLR then g.(distEnabled := v % 2 == 1)
    else if InBlock(o, GICD_ISENABLER, 32) then BitsSet(g, cpu, (o - GICD_ISENABLER) * 8, 32, v, Enabled, true)
    else if InBlock(o, GICD_ICENABLER, 32) then BitsSet(g, cpu, (o - GICD_ICENABLER) * 8, 32, v, Enabled, false)
    else if InBlock(o, GICD_ISPENDR, 32) then BitsSet(g, cpu, (o - GICD_ISPENDR) * 8, 32, v, Pending, true)
    else if InBlock(o, GICD_ICPENDR, 32) then BitsSet(g, cpu, (o - GICD_ICPENDR) * 8, 32, v, Pending, false)
    else if InBlock(o, GICD_ISACTIVER, 32) then BitsSet(g, cpu, (o - GICD_ISACTIVER) * 8, 32, v, Active, true)
    else if InBlock(o, GICD_ICACTIVER, 32) then BitsSet(g, cpu, (o - GICD_ICACTIVER) * 8, 32, v, Active, false)
    else if InBlock(o, GICD_ICFGR, 16) then CfgSet(g, cpu, (o - GICD_ICFGR) * 4, 16, v)
    else if o == GICD_SGIR then SgiSet(g, cpu, |g.cpus|, v)
    else g
  }

  /** A device or timer line change. */
  function LevelSet(g: Gic, cpu: nat, i: nat, high: bool): Gic
    requires On(g, cpu)
  {
    if i < NUM_INTID then
      var l := Block(g, cpu, i);
      WithBlock(g, cpu, i, l.(level := l.level[i := high], edge := l.edge[i := false]))
    else g
  }

  // ---- runs ----

  datatype Event =
    | DistWrite(cpu: nat, off: nat, size: nat, val: nat)
    | CpuRead(cpu: nat, off: nat)
    | CpuWrite(cpu: nat, off: nat, val: nat)
    | SetLevel(cpu: nat, intid: nat, high: bool)
  {
    predicate ReadsIar() { CpuRead? && Align4(off) == GICC_IAR }

    predicate WritesEoir() { CpuWrite? && Align4(off) == GICC_EOIR }

    predicate WritesActive() { DistWrite? && InBlock(Align4(off), GICD_ISACTIVER, 64) }

    /** The INTID an EOIR write names. */
    function Eoid(): nat
      requires CpuWrite?
    {
      val % U32_SPAN % 1024
    }
  }

  ghost function Apply(g: Gic, e: Event): Gic
    requires On(g, e.cpu)
  {
    match e
    case DistWrite(cpu, off, size, val) => AfterDistWrite(g, cpu, off, size, val)
    case CpuRead(cpu, off) => AfterCpuRead(g, cpu, off)
    case CpuWrite(cpu, off, val) => AfterCpuWrite(g, cpu, off, val)
    case SetLevel(cpu, i, high) => LevelSet(g, cpu, i, high)
  }

  // ---- what an access leaves alone ----

  predicate SameStacks(g: Gic, h: Gic) {
    && g.Valid() && h.Valid() && |g.cpus| == |h.cpus|
    && forall c | 0 <= c < |g.cpus| :: h.cpus[c].running == g.cpus[c].running
  }

  predicate SameActive(g: Gic, h: Gic) {
    && |g.cpus| == |h.cpus|
    && h.lines.active == g.lines.active
    && forall c | 0 <= c < |g.cpus| :: h.cpus[c].lines.active == g.cpus[c].lines.active
  }

  lemma BitsSetFrame(g: Gic, cpu: nat, base: nat, n: nat, v: nat, f: Field, on: bool)
    requires On(g, cpu)
    ensures SameStacks(g, BitsSet(g, cpu, base, n, v, f, on))
    ensures f != Active ==> SameActive(g, BitsSet(g, cpu, base, n, v, f, on))
  {
  }

  lemma BytewiseFrame(g: Gic, cpu: nat, idx: nat, n: nat, val: nat)
    requires On(g, cpu)
    ensures SameStacks(g, PrioritySet(g, cpu, idx, n, val)) && SameActive(g, PrioritySet(g, cpu, idx, n, val))
    ensures SameStacks(g, TargetsSet(g, idx, n, val)) && SameActive(g, TargetsSet(g, idx, n, val))
  {
  }

  lemma CfgFrame(g: Gic, cpu: nat, base: nat, n: nat, v: nat)
    requires On(g, cpu)
    ensures SameStacks(g, CfgSet(g, cpu, base, n, v)) && SameActive(g, CfgSet(g, cpu, base, n, v))
  {
  }

  lemma SgiFrame(g: Gic, cpu: nat, n: nat, v: nat)
    requires On(g, cpu)
    ensures SameStacks(g, SgiSet(g, cpu, n, v)) && SameActive(g, SgiSet(g, cpu, n, v))
  {
  }

  /** A distributor write never touches a running stack, and only the active registers touch active bits. */
  lemma DistWriteFrame(g: Gic, cpu: nat, off: nat, size: nat, val: nat)
    requires On(g, cpu)
    ensures SameStacks(g, AfterDistWrite(g, cpu, off, size, val))
    ensures !InBlock(Align4(off), GICD_ISACTIVER, 64) ==> SameActive(g, AfterDistWrite(g, cpu, off, size, val))
  {
    var o := Align4(off);
    var v := val % U32_SPAN;
    if InBlock(off, GICD_IPRIORITYR, 64) {
      BytewiseFrame(g, cpu, off - GICD_IPRIORITYR, size, val);
    } else if InBlock(off, GICD_ITARGETSR, 64) {
      BytewiseFrame(g, cpu, off - GICD_ITARGETSR, size, val);
    } else if InBlock(o, GICD_ISENABLER, 32) {
      BitsSetFrame(g, cpu, (o - GICD_ISENABLER) * 8, 32, v, Enabled, true);
    } else if InBlock(o, GICD_ICENABLER, 32) {
      BitsSetFrame(g, cpu, (o - GICD_ICENABLER) * 8, 32, v, Enabled, false);
    } else if InBlock(o, GICD_ISPENDR, 32) {
      BitsSetFrame(g, cpu, (o - GICD_ISPENDR) * 8, 32, v, Pending, true);
    } else if InBlock(o, GICD_ICPENDR, 32) {
      BitsSetFrame(g, cpu, (o - GICD_ICPENDR) * 8, 32, v, Pending, false);
    } else if InBlock(o, GICD_ISACTIVER, 32) {
      BitsSetFrame(g, cpu, (o - GICD_ISACTIVER) * 8, 32, v, Active, true);
    } else if InBlock(o, GICD_ICACTIVER, 32) {
      BitsSetFrame(g, cpu, (o - GICD_ICACTIVER) * 8, 32, v, Active, false);
    } else if InBlock(o, GICD_ICFGR, 16) {
      CfgFrame(g, cpu, (o - GICD_ICFGR) * 4, 16, v);
    } else if o == GICD_SGIR {
      SgiFrame(g, cpu, |g.cpus|, v);
    }
  }

  lemma AckFrame(g: Gic, cpu: nat)
    requires On(g, cpu)
    ensures Ack(g, cpu).Valid() && |Ack(g, cpu).cpus| == |g.cpus|
  {
    BestIsLeast(g, cpu);
  }

  lemma CpuWriteFrame(g: Gic, cpu: nat, off: nat, val: nat)
    requires On(g, cpu)
    ensures AfterCpuWrite(g, cpu, off, val).Valid() && |AfterCpuWrite(g, cpu, off, val).cpus| == |g.cpus|
    ensures Align4(off) != GICC_EOIR ==>
              SameStacks(g, AfterCpuWrite(g, cpu, off, val)) && SameActive(g, AfterCpuWrite(g, cpu, off, val))
  {
  }

  lemma LevelFrame(g: Gic, cpu: nat, i: nat, high: bool)
    requires On(g, cpu)
    ensures SameStacks(g, LevelSet(g, cpu, i, high)) && SameActive(g, LevelSet(g, cpu, i, high))
  {
  }

  /** Every access keeps the sizes; all but IAR reads and EOIR writes keep the stacks, and all but
      those and active-register writes keep the active bits. */
  lemma ApplyFrame(g: Gic, e: Event)
    requires On(g, e.cpu)
    ensures Apply(g, e).Valid() && |Apply(g, e).cpus| == |g.cpus|
    ensures !(e.ReadsIar() || e.WritesEoir()) ==> SameStacks(g, Apply(g, e))
    ensures !(e.ReadsIar() || e.WritesEoir() || e.WritesActive()) ==> SameActive(g, Apply(g, e))
  {
    match e
    case DistWrite(cpu, off, size, val) => DistWriteFrame(g, cpu, off, size, val);
    case CpuRead(cpu, off) => AckFrame(g, cpu);
    case CpuWrite(cpu, off, val) => CpuWriteFrame(g, cpu, off, val);
    case SetLevel(cpu, i, high) => LevelFrame(g, cpu, i, high);
  }
}

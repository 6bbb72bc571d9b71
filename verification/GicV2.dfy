/** The GICv2 device object: registers updated in place, each method proved to do what GicSpec says. */
module GicDevice {
  import opened Words
  import opened GicSpec
  import opened GicCodec

  /** The `size`-byte slice of a 32-bit register that an access at `off` sees. */
  function Extract(reg: nat, off: nat, size: nat): nat {
    reg / Pow2(8 * (off % 4)) % (if size == 1 then 0x100 else if size == 2 then 0x1_0000 else U32_SPAN)
  }

  lemma WholeWord(reg: nat, off: nat)
    requires reg < U32_SPAN
    ensures off % 4 == 0 ==> Extract(reg, off, 4) == reg
  {
    if off % 4 == 0 { assert Pow2(8 * (off % 4)) == 1; }
  }

  /** INTID `k` is the best of those below `n`. */
  ghost predicate LeastBelow(g: Gic, cpu: nat, k: nat, n: nat)
    requires On(g, cpu) && n <= NUM_INTID
  {
    && k < n && Deliverable(g, cpu, k)
    && forall j | 0 <= j < n && Deliverable(g, cpu, j) && j != k :: Before(g, cpu, k, j)
  }

  /** The CPU interface's register file as a reader finds it. */
  ghost function CpuRegister(g: Gic, cpu: nat, reg: nat): nat
    requires On(g, cpu)
  {
    if reg == GICC_CTLR then BoolByte(g.cpus[cpu].cpuEnabled)
    else if reg == GICC_PMR then g.cpus[cpu].pmr
    else if reg == GICC_IAR then Iar(g, cpu)
    else if reg == GICC_RPR then RunningPrio(g.cpus[cpu])
    else if reg == GICC_HPPIR then (match Best(g, cpu) case None => SPURIOUS case Some(i) => i)
    else if reg == GICC_IIDR then 0x0002_043b
    else 0
  }

  class GicV2 {
    var distEnabled: bool
    var cpus: seq<CpuBank>
    var lines: Lines
    var targets: seq<byte>

    ghost function State(): Gic
      reads this
    {
      Gic(distEnabled, cpus, lines, targets)
    }

    constructor (n: nat)
      ensures State() == Reset(n)
    {
      var g := Reset(n);
      distEnabled, cpus, lines, targets := g.distEnabled, g.cpus, g.lines, g.targets;
    }

    /** Scan all INTIDs, keeping the first of the best priority seen. */
    method HighestPending(cpu: nat) returns (best: Option<(nat, byte)>)
      requires On(State(), cpu)
      ensures best == None ==> Best(State(), cpu) == None
      ensures best.Some? ==> Least(State(), cpu, best.value.0) && Best(State(), cpu) == Some(best.value.0)
      ensures best.Some? ==> best.value.1 == PriorityAt(State(), cpu, best.value.0)
    {
      best := None;
      ghost var g := State();
      BestIsLeast(g, cpu);
      if !distEnabled {
        return;
      }
      var cap, pmr := RunningPrio(cpus[cpu]), cpus[cpu].pmr;
      for i := 0 to NUM_INTID
        invariant best == None ==> forall j | 0 <= j < i :: !Deliverable(g, cpu, j)
        invariant best.Some? ==> LeastBelow(g, cpu, best.value.0, i) && best.value.1 == PriorityAt(g, cpu, best.value.0)
      {
        var l := if i < PRIVATE then cpus[cpu].lines else lines;
        var here := PRIVATE <= i ==> Bit(targets[i], cpu);
        if !l.enabled[i] || l.active[i] || !here || !(if l.edge[i] then l.pending[i] else l.level[i]) {
          assert !Deliverable(g, cpu, i);
          continue;
        }
        var p := l.priority[i];
        if p >= pmr || p >= cap {
          assert !Deliverable(g, cpu, i);
          continue;
        }
        assert Deliverable(g, cpu, i) && p == PriorityAt(g, cpu, i);
        if best == None || p < best.value.1 {
          best := Some((i, p));
        }
      }
      assert best.Some? ==> Least(g, cpu, best.value.0);
    }

    /** The IRQ line of `cpu` is high exactly when its interface is on and an IAR read would not be spurious. */
    method IrqPending(cpu: nat) returns (high: bool)
      requires On(State(), cpu)
      ensures high == (cpus[cpu].cpuEnabled && Iar(State(), cpu) != SPURIOUS)
      ensures high == (cpus[cpu].cpuEnabled && exists i: nat :: Deliverable(State(), cpu, i))
    {
      BestIsLeast(State(), cpu);
      var best := HighestPending(cpu);
      high := cpus[cpu].cpuEnabled && best.Some?;
    }

    method SetLevel(cpu: nat, intid: nat, high: bool)
      requires On(State(), cpu)
      modifies this
      ensures State() == LevelSet(old(State()), cpu, intid, high)
    {
      if intid < PRIVATE {
        var l := cpus[cpu].lines;
        cpus := cpus[cpu := cpus[cpu].(lines := l.(level := l.level[intid := high], edge := l.edge[intid := false]))];
      } else if intid < NUM_INTID {
        lines := lines.(level := lines.level[intid := high], edge := lines.edge[intid := false]);
      }
    }

    // ---- CPU interface ----

    method Acknowledge(cpu: nat) returns (iar: nat)
      requires On(State(), cpu)
      modifies this
      ensures State() == Ack(old(State()), cpu) && iar == Iar(old(State()), cpu)
    {
      BestIsLeast(State(), cpu);
      var best := HighestPending(cpu);
      if best == None {
        return SPURIOUS;
      }
      var (i, prio) := best.value;
      if i < PRIVATE {
        var l := cpus[cpu].lines;
        cpus := cpus[cpu := cpus[cpu].(lines := l.(active := l.active[i := true]))];
        if l.edge[i] {
          var m := cpus[cpu].lines;
          cpus := cpus[cpu := cpus[cpu].(lines := m.(pending := m.pending[i := false]))];
        }
      } else {
        lines := lines.(active := lines.active[i := true]);
        if lines.edge[i] {
          lines := lines.(pending := lines.pending[i := false]);
        }
      }
      cpus := cpus[cpu := cpus[cpu].(running := cpus[cpu].running + [prio])];
      iar := if i < 16 then i + 1024 * (cpus[cpu].sgiSrc[i] as int) else i;
    }

    method EndOfInterrupt(cpu: nat, intid: nat)
      requires On(State(), cpu)
      modifies this
      ensures State() == Eoi(old(State()), cpu, intid)
    {
      if intid < PRIVATE {
        var l := cpus[cpu].lines;
        cpus := cpus[cpu := cpus[cpu].(lines := l.(active := l.active[intid := false]))];
      } else if intid < NUM_INTID {
        lines := lines.(active := lines.active[intid := false]);
      }
      var r := cpus[cpu].running;
      cpus := cpus[cpu := cpus[cpu].(running := if r == [] then [] else r[..|r| - 1])];
    }

    /** A GICC read of `size` bytes; only IAR has a side effect. */
    method CpuRead(cpu: nat, off: nat, size: nat) returns (v: nat)
      requires On(State(), cpu)
      modifies this
      ensures State() == AfterCpuRead(old(State()), cpu, off)
      ensures v == Extract(CpuRegister(old(State()), cpu, Align4(off)), off, size)
      ensures off == GICC_IAR && size == 4 ==> v == Iar(old(State()), cpu)
      ensures off == GICC_HPPIR && size == 4 ==>
                v == match Best(old(State()), cpu) case None => SPURIOUS case Some(i) => i
    {
      var reg := 0;
      var o := Align4(off);
      if o == GICC_CTLR {
        reg := BoolByte(cpus[cpu].cpuEnabled);
      } else if o == GICC_PMR {
        reg := cpus[cpu].pmr;
      } else if o == GICC_IAR {
        BestIsLeast(State(), cpu);
        reg := Acknowledge(cpu);
      } else if o == GICC_RPR {
        reg := RunningPrio(cpus[cpu]);
      } else if o == GICC_HPPIR {
        var best := HighestPending(cpu);
        reg := if best == None then SPURIOUS else best.value.0;
      } else if o == GICC_IIDR {
        reg := 0x0002_043b;
      }
      WholeWord(reg, off);
      v := Extract(reg, off, size);
    }

    method CpuWrite(cpu: nat, off: nat, val: nat)
      requires On(State(), cpu)
      modifies this
      ensures State() == AfterCpuWrite(old(State()), cpu, off, val)
    {
      var o, v := Align4(off), val % U32_SPAN;
      if o == GICC_CTLR {
        cpus := cpus[cpu := cpus[cpu].(cpuEnabled := v % 2 == 1)];
      } else if o == GICC_PMR {
        cpus := cpus[cpu := cpus[cpu].(pmr := v % 256)];
      } else if o == GICC_EOIR {
        EndOfInterrupt(cpu, v % 1024);
      }
    }

    // ---- distributor ----

    /** Set or clear one bit of one array, in the bank or the shared block. */
    method PutBit(cpu: nat, i: nat, f: Field, on: bool)
      requires On(State(), cpu) && i < NUM_INTID
      modifies this
      ensures State() == WithBlock(old(State()), cpu, i,
                Put(Block(old(State()), cpu, i), f, Get(Block(old(State()), cpu, i), f)[i := on]))
    {
      if i < PRIVATE {
        var l := cpus[cpu].lines;
        cpus := cpus[cpu := cpus[cpu].(lines := Put(l, f, Get(l, f)[i := on]))];
      } else {
        lines := Put(lines, f, Get(lines, f)[i := on]);
      }
    }

    method SetBits(cpu: nat, base: nat, val: nat, f: Field, on: bool)
      requires On(State(), cpu)
      modifies this
      ensures State() == BitsSet(old(State()), cpu, base, 32, val, f, on)
    {
      BitsSetNone(State(), cpu, base, val, f, on);
      for b := 0 to 32
        invariant State() == BitsSet(old(State()), cpu, base, b, val, f, on)
      {
        BitsSetFrame(old(State()), cpu, base, b, val, f, on);
        BitsSetMore(old(State()), cpu, base, b, val, f, on);
        if Bit(val, b) && base + b < NUM_INTID {
          PutBit(cpu, base + b, f, on);
        }
      }
    }

    method SetPriorities(cpu: nat, idx: nat, size: nat, val: nat)
      requires On(State(), cpu)
      modifies this
      ensures State() == PrioritySet(old(State()), cpu, idx, size, val)
    {
      assert State() == PrioritySet(old(State()), cpu, idx, 0, val) by {
        var b, s := cpus[cpu].lines, lines;
        assert Bytewise(b.priority, 0, idx, 0, val, 256) == b.priority;
        assert Bytewise(s.priority, PRIVATE, idx, 0, val, 256) == s.priority;
        assert cpus[cpu := cpus[cpu]] == cpus;
      }
      for k := 0 to size
        invariant State() == PrioritySet(old(State()), cpu, idx, k, val)
      {
        BytewiseFrame(old(State()), cpu, idx, k, val);
        PriorityMore(old(State()), cpu, idx, k, val);
        var i := idx + k;
        if i < PRIVATE {
          var l := cpus[cpu].lines;
          cpus := cpus[cpu := cpus[cpu].(lines := l.(priority := l.priority[i := ByteOf(val, k)]))];
        } else if i < NUM_INTID {
          lines := lines.(priority := lines.priority[i := ByteOf(val, k)]);
        }
      }
    }

    method SetTargets(idx: nat, size: nat, val: nat)
      requires State().Valid()
      modifies this
      ensures State() == TargetsSet(old(State()), idx, size, val)
    {
      Pow2AtMost256(|cpus|);
      var span := Pow2(|cpus|);
      for k := 0 to size
        invariant |targets| == NUM_INTID
        invariant targets == Bytewise(old(targets), PRIVATE, idx, k, val, span)
        invariant State() == old(State()).(targets := targets)
      {
        var i := idx + k;
        if PRIVATE <= i < NUM_INTID {
          targets := targets[i := ByteOf(val, k) % span];
        }
      }
    }

    method SetConfig(cpu: nat, base: nat, val: nat)
      requires On(State(), cpu)
      modifies this
      ensures State() == CfgSet(old(State()), cpu, base, 16, val)
    {
      assert State() == CfgSet(old(State()), cpu, base, 0, val) by {
        var b, s := cpus[cpu].lines, lines;
        assert Configured(b.edge, 16, base, 0, val) == b.edge;
        assert Configured(s.edge, PRIVATE, base, 0, val) == s.edge;
        assert cpus[cpu := cpus[cpu]] == cpus;
      }
      for b := 0 to 16
        invariant State() == CfgSet(old(State()), cpu, base, b, val)
      {
        CfgFrame(old(State()), cpu, base, b, val);
        CfgMore(old(State()), cpu, base, b, val);
        var i := base + b;
        if 16 <= i < PRIVATE {
          var l := cpus[cpu].lines;
          cpus := cpus[cpu := cpus[cpu].(lines := l.(edge := l.edge[i := Bit(val, b * 2 + 1)]))];
        } else if PRIVATE <= i < NUM_INTID {
          lines := lines.(edge := lines.edge[i := Bit(val, b * 2 + 1)]);
        }
      }
    }

    /** Post a software-generated interrupt to every CPU the filter selects. */
    method Sgir(cpu: nat, v: nat)
      requires On(State(), cpu)
      modifies this
      ensures State() == SgiSet(old(State()), cpu, |old(cpus)|, v)
    {
      var sgi := v % 16;
      assert State() == SgiSet(old(State()), cpu, 0, v) by {
        assert cpus == SgiSet(old(State()), cpu, 0, v).cpus;
      }
      for t := 0 to |cpus|
        invariant State() == SgiSet(old(State()), cpu, t, v)
      {
        SgiFrame(old(State()), cpu, t, v);
        ghost var next := SgiSet(old(State()), cpu, t + 1, v);
        var filter := v / Pow2(24) % 4;
        var hit := if filter == 0 then Bit(v / Pow2(16) % 256, t) else if filter == 1 then t != cpu else t == cpu;
        if hit {
          cpus := cpus[t := cpus[t].(lines := cpus[t].lines.(pending := cpus[t].lines.pending[sgi := true]),
                                     sgiSrc := cpus[t].sgiSrc[sgi := cpu])];
        }
        assert cpus == next.cpus;
      }
    }

    method DistWrite(cpu: nat, off: nat, size: nat, val: nat)
      requires On(State(), cpu) && size <= 8
      modifies this
      ensures State() == AfterDistWrite(old(State()), cpu, off, size, val)
    {
      var o, v := Align4(off), val % U32_SPAN;
      if InBlock(off, GICD_IPRIORITYR, 64) {
        SetPriorities(cpu, off - GICD_IPRIORITYR, size, val);
      } else if InBlock(off, GICD_ITARGETSR, 64) {
        SetTargets(off - GICD_ITARGETSR, size, val);
      } else if o == GICD_CTLR {
        distEnabled := v % 2 == 1;
      } else if InBlock(o, GICD_ISENABLER, 32) {
        SetBits(cpu, (o - GICD_ISENABLER) * 8, v, Enabled, true);
      } else if InBlock(o, GICD_ICENABLER, 32) {
        SetBits(cpu, (o - GICD_ICENABLER) * 8, v, Enabled, false);
      } else if InBlock(o, GICD_ISPENDR, 32) {
        SetBits(cpu, (o - GICD_ISPENDR) * 8, v, Pending, true);
      } else if InBlock(o, GICD_ICPENDR, 32) {
        SetBits(cpu, (o - GICD_ICPENDR) * 8, v, Pending, false);
      } else if InBlock(o, GICD_ISACTIVER, 32) {
        SetBits(cpu, (o - GICD_ISACTIVER) * 8, v, Active, true);
      } else if InBlock(o, GICD_ICACTIVER, 32) {
        SetBits(cpu, (o - GICD_ICACTIVER) * 8, v, Active, false);
      } else if InBlock(o, GICD_ICFGR, 16) {
        SetConfig(cpu, (o - GICD_ICFGR) * 4, v);
      } else if o == GICD_SGIR {
        Sgir(cpu, v);
      }
    }

    // ---- snapshot ----

    method Capture() returns (v: seq<byte>)
      requires State().Valid()
      ensures v == Encode(State())
    {
      v := [BLOB_MAGIC, BLOB_V2, |cpus|, BoolByte(distEnabled)];
      assert cpus[0..] == cpus;
      for k := 0 to |cpus|
        invariant v + EncodeBanks(cpus[k..]) == EncodeHeader(State()) + EncodeBanks(cpus)
      {
        var b := cpus[k];
        var n := Min(|b.running|, RUNNING_CAP);
        BanksMore(v, cpus, k);
        v := v + ([BoolByte(b.cpuEnabled), b.pmr] + (EncodeLines(b.lines) + (b.sgiSrc + ([n] + b.running[..n]))));
      }
      BlobJoins(State(), v);
      v := v + EncodeLines(lines) + targets;
    }

    /** Load a blob of any bytes. */
    method Restore(b: seq<byte>)
      requires State().Valid()
      modifies this
      ensures State() == Loaded(old(State()), b)
    {
      if b != [] && b[0] == BLOB_MAGIC {
        RestoreV2(b);
      } else {
        RestoreLegacy(b);
      }
    }

    /** Load a versioned blob, never shrinking below the banks this GIC already has. */
    method RestoreV2(b: seq<byte>)
      requires State().Valid()
      modifies this
      ensures State() == Restored(|old(cpus)|, b)
    {
      var ncpu := Max(1, Min(At(b, 2), MAX_CPUS));
      var total := Max(ncpu, |cpus|);
      distEnabled := At(b, 3) != 0;
      var banks, c := ReadBanks(b, 4, ncpu);
      cpus := banks + seq(total - ncpu, _ => DefaultBank());
      lines, c := ReadLines(b, c, NUM_INTID);
      targets, c := ReadBytes(b, c, NUM_INTID);
      assert cpus == Restored(|old(cpus)|, b).cpus;
    }

    /** Load the flat single-CPU layout: private INTIDs into the one bank, the others into the shared block. */
    method RestoreLegacy(b: seq<byte>)
      requires State().Valid()
      modifies this
      ensures State() == Migrated(old(State()), LegacyAt(b))
    {
      var flat, c := ReadLines(b, 3, NUM_INTID);
      var running;
      running, c := ReadBytes(b, c + 1, At(b, c));
      distEnabled := At(b, 0) != 0;
      cpus := [CpuBank(At(b, 1) != 0, At(b, 2), running, PrivatePart(flat), seq<byte>(16, _ => 0))];
      lines := SharedPart(lines, flat);
      targets := seq<byte>(NUM_INTID, _ => 1);
    }
  }

  lemma BlobJoins(g: Gic, v: seq<byte>)
    requires g.Valid() && v + EncodeBanks(g.cpus[|g.cpus|..]) == EncodeHeader(g) + EncodeBanks(g.cpus)
    ensures v + EncodeLines(g.lines) + g.targets == Encode(g)
  {
    assert v + [] == v;
    Regroup(EncodeHeader(g) + EncodeBanks(g.cpus), EncodeLines(g.lines), g.targets);
    Regroup(EncodeHeader(g), EncodeBanks(g.cpus), EncodeLines(g.lines) + g.targets);
  }

  lemma BanksMore(v: seq<byte>, banks: seq<CpuBank>, k: nat)
    requires k < |banks|
    ensures v + EncodeBanks(banks[k..]) == v + EncodeBank(banks[k]) + EncodeBanks(banks[k + 1..])
  {
    assert banks[k..][1..] == banks[k + 1..];
  }

  // ---- cursor reads ----

  method ReadBools(b: seq<byte>, c: nat, n: nat) returns (r: seq<bool>, next: nat)
    ensures r == BoolsAt(b, c, n) && next == c + n
  {
    r, next := [], c;
    for i := 0 to n
      invariant r == BoolsAt(b, c, i) && next == c + i
    {
      r := r + [At(b, next) != 0];
      next := next + 1;
    }
  }

  method ReadBytes(b: seq<byte>, c: nat, n: nat) returns (r: seq<byte>, next: nat)
    ensures r == BytesAt(b, c, n) && next == c + n
  {
    r, next := [], c;
    for i := 0 to n
      invariant r == BytesAt(b, c, i) && next == c + i
    {
      r := r + [At(b, next)];
      next := next + 1;
    }
  }

  method ReadLines(b: seq<byte>, c: nat, n: nat) returns (l: Lines, next: nat)
    ensures l == LinesAt(b, c, n) && next == c + 6 * n
  {
    var enabled, pending, active, level, edge, priority;
    enabled, next := ReadBools(b, c, n);
    pending, next := ReadBools(b, next, n);
    active, next := ReadBools(b, next, n);
    level, next := ReadBools(b, next, n);
    edge, next := ReadBools(b, next, n);
    priority, next := ReadBytes(b, next, n);
    l := Lines(enabled, pending, active, level, edge, priority);
  }

  method ReadBank(b: seq<byte>, c: nat) returns (k: CpuBank, next: nat)
    ensures k == BankAt(b, c) && next == NextBank(b, c)
  {
    var l, src, running;
    l, next := ReadLines(b, c + 2, PRIVATE);
    src, next := ReadBytes(b, next, 16);
    var n := At(b, next);
    running, next := ReadBytes(b, next + 1, n);
    k := CpuBank(At(b, c) != 0, At(b, c + 1), running, l, src);
  }

  method ReadBanks(b: seq<byte>, c: nat, n: nat) returns (r: seq<CpuBank>, next: nat)
    ensures r == BanksAt(b, c, n) && next == AfterBanks(b, c, n)
  {
    r, next := [], c;
    for k := 0 to n
      invariant r + BanksAt(b, next, n - k) == BanksAt(b, c, n)
      invariant AfterBanks(b, next, n - k) == AfterBanks(b, c, n)
    {
      var bank, after := ReadBank(b, next);
      ghost var rest := BanksAt(b, after, n - k - 1);
      assert r + ([bank] + rest) == (r + [bank]) + rest;
      r, next := r + [bank], after;
    }
  }

  // ---- one more iteration of each distributor loop ----

  lemma BitsSetNone(g: Gic, cpu: nat, base: nat, v: nat, f: Field, on: bool)
    requires On(g, cpu)
    ensures BitsSet(g, cpu, base, 0, v, f, on) == g
  {
    var b, s := g.cpus[cpu].lines, g.lines;
    assert Masked(Get(b, f), 0, base, 0, v, on) == Get(b, f);
    assert Masked(Get(s, f), PRIVATE, base, 0, v, on) == Get(s, f);
    assert g.cpus[cpu := g.cpus[cpu]] == g.cpus;
  }

  lemma MaskedMore(s: seq<bool>, lo: nat, base: nat, n: nat, v: nat, on: bool)
    ensures Masked(s, lo, base, n + 1, v, on)
            == if Bit(v, n) && lo <= base + n < |s| then Masked(s, lo, base, n, v, on)[base + n := on]
               else Masked(s, lo, base, n, v, on)
  {
  }

  lemma BitsSetMore(g: Gic, cpu: nat, base: nat, n: nat, v: nat, f: Field, on: bool)
    requires On(g, cpu)
    ensures On(BitsSet(g, cpu, base, n, v, f, on), cpu)
    ensures BitsSet(g, cpu, base, n + 1, v, f, on)
            == var h := BitsSet(g, cpu, base, n, v, f, on);
               var i := base + n;
               if Bit(v, n) && i < NUM_INTID then
                 WithBlock(h, cpu, i, Put(Block(h, cpu, i), f, Get(Block(h, cpu, i), f)[i := on]))
               else h
  {
    BitsSetFrame(g, cpu, base, n, v, f, on);
    MaskedMore(Get(g.cpus[cpu].lines, f), 0, base, n, v, on);
    MaskedMore(Get(g.lines, f), PRIVATE, base, n, v, on);
  }

  lemma BytewiseMore(s: seq<byte>, lo: nat, base: nat, n: nat, v: nat)
    ensures Bytewise(s, lo, base, n + 1, v, 256)
            == if lo <= base + n < |s| then Bytewise(s, lo, base, n, v, 256)[base + n := ByteOf(v, n)]
               else Bytewise(s, lo, base, n, v, 256)
  {
  }

  lemma PriorityMore(g: Gic, cpu: nat, idx: nat, n: nat, val: nat)
    requires On(g, cpu)
    ensures On(PrioritySet(g, cpu, idx, n, val), cpu)
    ensures PrioritySet(g, cpu, idx, n + 1, val)
            == var h := PrioritySet(g, cpu, idx, n, val);
               var i := idx + n;
               if i < NUM_INTID then
                 WithBlock(h, cpu, i, Block(h, cpu, i).(priority := Block(h, cpu, i).priority[i := ByteOf(val, n)]))
               else h
  {
    BytewiseFrame(g, cpu, idx, n, val);
    BytewiseMore(g.cpus[cpu].lines.priority, 0, idx, n, val);
    BytewiseMore(g.lines.priority, PRIVATE, idx, n, val);
  }

  lemma CfgMore(g: Gic, cpu: nat, base: nat, n: nat, v: nat)
    requires On(g, cpu)
    ensures On(CfgSet(g, cpu, base, n, v), cpu)
    ensures CfgSet(g, cpu, base, n + 1, v)
            == var h := CfgSet(g, cpu, base, n, v);
               var i := base + n;
               if 16 <= i < NUM_INTID then
                 WithBlock(h, cpu, i, Block(h, cpu, i).(edge := Block(h, cpu, i).edge[i := Bit(v, 2 * n + 1)]))
               else h
  {
    CfgFrame(g, cpu, base, n, v);
    var b, s := g.cpus[cpu].lines.edge, g.lines.edge;
    var i := base + n;
    assert Configured(b, 16, base, n + 1, v)
        == if 16 <= i < PRIVATE then Configured(b, 16, base, n, v)[i := Bit(v, 2 * n + 1)]
           else Configured(b, 16, base, n, v);
    assert Configured(s, PRIVATE, base, n + 1, v)
        == if PRIVATE <= i < NUM_INTID then Configured(s, PRIVATE, base, n, v)[i := Bit(v, 2 * n + 1)]
           else Configured(s, PRIVATE, base, n, v);
  }

  // ---- the CPU interface by address ----

  /** Written values read back; RPR is 0xff when nothing is handled and then the priority of what is; HPPIR names what
      IAR would take. */
  lemma CpuReadsBack(g: Gic, cpu: nat, v: u32)
    requires On(g, cpu)
    ensures CpuRegister(AfterCpuWrite(g, cpu, 0x00, v), cpu, 0x00) == v % 2
    ensures CpuRegister(AfterCpuWrite(g, cpu, 0x04, v), cpu, 0x04) == v % 256
    ensures g.cpus[cpu].running == [] ==> CpuRegister(g, cpu, 0x14) == 0xff
    ensures CpuRegister(g, cpu, 0x0c) == Iar(g, cpu)
    ensures CpuRegister(g, cpu, 0x18) == 1023 <==> Iar(g, cpu) == 1023
    ensures CpuRegister(g, cpu, 0x18) == Iar(g, cpu) % 1024
    ensures Iar(g, cpu) != 1023 ==>
              On(Ack(g, cpu), cpu) && Best(g, cpu).Some? && Best(g, cpu).value < NUM_INTID
              && CpuRegister(Ack(g, cpu), cpu, 0x14) == PriorityAt(g, cpu, Best(g, cpu).value)
  {
    BestIsLeast(g, cpu);
    if Best(g, cpu).Some? { SourceAbove(g, cpu, Best(g, cpu).value); }
  }

  lemma SourceAbove(g: Gic, cpu: nat, i: nat)
    requires On(g, cpu) && i < NUM_INTID
    ensures IarValue(g, cpu, i) % 1024 == i
  {
  }
}

/** What the registers of the GICv2 do, by their addresses in IHI 0048B sections 4.3 and 4.4: every write bit by bit,
    and the programming sequence of a driver end to end. */
module GicRegisters {
  import opened Words
  import opened GicSpec
  import opened GicRuns

  predicate EnabledAt(g: Gic, cpu: nat, i: nat)
    requires On(g, cpu) && i < 256
  {
    if i < 32 then g.cpus[cpu].lines.enabled[i] else g.lines.enabled[i]
  }

  predicate PendingAt(g: Gic, cpu: nat, i: nat)
    requires On(g, cpu) && i < 256
  {
    if i < 32 then g.cpus[cpu].lines.pending[i] else g.lines.pending[i]
  }

  predicate EdgeAt(g: Gic, cpu: nat, i: nat)
    requires On(g, cpu) && i < 256
  {
    if i < 32 then g.cpus[cpu].lines.edge[i] else g.lines.edge[i]
  }

  predicate LevelAt(g: Gic, cpu: nat, i: nat)
    requires On(g, cpu) && i < 256
  {
    if i < 32 then g.cpus[cpu].lines.level[i] else g.lines.level[i]
  }

  /** `h` is `g` but for the lines of `cpu`'s bank and the shared lines. */
  predicate OnlyLines(g: Gic, h: Gic, cpu: nat)
    requires On(g, cpu)
  {
    && |h.cpus| == |g.cpus|
    && h == g.(cpus := g.cpus[cpu := g.cpus[cpu].(lines := h.cpus[cpu].lines)], lines := h.lines)
  }

  predicate OnlyEnabled(g: Gic, h: Gic, cpu: nat)
    requires On(g, cpu)
  {
    && OnlyLines(g, h, cpu)
    && h.lines == g.lines.(enabled := h.lines.enabled)
    && h.cpus[cpu].lines == g.cpus[cpu].lines.(enabled := h.cpus[cpu].lines.enabled)
  }

  predicate OnlyPending(g: Gic, h: Gic, cpu: nat)
    requires On(g, cpu)
  {
    && OnlyLines(g, h, cpu)
    && h.lines == g.lines.(pending := h.lines.pending)
    && h.cpus[cpu].lines == g.cpus[cpu].lines.(pending := h.cpus[cpu].lines.pending)
  }

  predicate OnlyActive(g: Gic, h: Gic, cpu: nat)
    requires On(g, cpu)
  {
    && OnlyLines(g, h, cpu)
    && h.lines == g.lines.(active := h.lines.active)
    && h.cpus[cpu].lines == g.cpus[cpu].lines.(active := h.cpus[cpu].lines.active)
  }

  /** Is INTID `i` selected by writing `v` to word `k` of a register with one bit for each INTID? */
  predicate Selects(k: nat, v: nat, i: nat) { i / 32 == k && Bit(v, i % 32) }

  lemma WordOffset(start: nat, k: nat, r: nat)
    requires start % 4 == 0 && r < 4
    ensures Align4(start + 4 * k + r) == start + 4 * k
  {
  }

  lemma MaskedSelects(s: seq<bool>, lo: nat, k: nat, v: nat, on: bool, i: nat)
    requires lo <= i < |s|
    ensures Masked(s, lo, 32 * k, 32, v, on)[i] == if Selects(k, v, i) then on else s[i]
  {
    if i / 32 == k { assert i - 32 * k == i % 32; }
  }

  lemma BitsSetSelects(g: Gic, cpu: nat, k: nat, v: nat, f: Field, on: bool, i: nat)
    requires On(g, cpu) && i < 256
    ensures var h := BitsSet(g, cpu, 32 * k, 32, v, f, on);
            On(h, cpu) && Get(Block(h, cpu, i), f)[i] == if Selects(k, v, i) then on else Get(Block(g, cpu, i), f)[i]
  {
    var b, s := g.cpus[cpu].lines, g.lines;
    if i < 32 { MaskedSelects(Get(b, f), 0, k, v, on, i); } else { MaskedSelects(Get(s, f), 32, k, v, on, i); }
  }

  /** A write to 0x100: enable bits are set where the value has a one; nothing else changes. */
  lemma WriteSetEnable(g: Gic, cpu: nat, k: nat, r: nat, size: nat, v: u32)
    requires On(g, cpu) && k < 32 && r < 4
    ensures var h := AfterDistWrite(g, cpu, 0x100 + 4 * k + r, size, v);
            && On(h, cpu) && OnlyEnabled(g, h, cpu)
            && forall i | 0 <= i < 256 :: EnabledAt(h, cpu, i) == (EnabledAt(g, cpu, i) || Selects(k, v, i))
  {
    WordOffset(0x100, k, r);
    assert AfterDistWrite(g, cpu, 0x100 + 4 * k + r, size, v) == BitsSet(g, cpu, 32 * k, 32, v, Enabled, true);
    forall i | 0 <= i < 256 { BitsSetSelects(g, cpu, k, v, Enabled, true, i); }
  }

  /** A write to 0x180: enable bits are cleared where the value has a one. */
  lemma WriteClearEnable(g: Gic, cpu: nat, k: nat, r: nat, size: nat, v: u32)
    requires On(g, cpu) && k < 32 && r < 4
    ensures var h := AfterDistWrite(g, cpu, 0x180 + 4 * k + r, size, v);
            && On(h, cpu) && OnlyEnabled(g, h, cpu)
            && forall i | 0 <= i < 256 :: EnabledAt(h, cpu, i) == (EnabledAt(g, cpu, i) && !Selects(k, v, i))
  {
    WordOffset(0x180, k, r);
    assert AfterDistWrite(g, cpu, 0x180 + 4 * k + r, size, v) == BitsSet(g, cpu, 32 * k, 32, v, Enabled, false);
    forall i | 0 <= i < 256 { BitsSetSelects(g, cpu, k, v, Enabled, false, i); }
  }

  /** A write to 0x200: pending latches are set where the value has a one. */
  lemma WriteSetPending(g: Gic, cpu: nat, k: nat, r: nat, size: nat, v: u32)
    requires On(g, cpu) && k < 32 && r < 4
    ensures var h := AfterDistWrite(g, cpu, 0x200 + 4 * k + r, size, v);
            && On(h, cpu) && OnlyPending(g, h, cpu)
            && forall i | 0 <= i < 256 :: PendingAt(h, cpu, i) == (PendingAt(g, cpu, i) || Selects(k, v, i))
  {
    WordOffset(0x200, k, r);
    assert AfterDistWrite(g, cpu, 0x200 + 4 * k + r, size, v) == BitsSet(g, cpu, 32 * k, 32, v, Pending, true);
    forall i | 0 <= i < 256 { BitsSetSelects(g, cpu, k, v, Pending, true, i); }
  }

  /** A write to 0x280: pending latches are cleared where the value has a one. */
  lemma WriteClearPending(g: Gic, cpu: nat, k: nat, r: nat, size: nat, v: u32)
    requires On(g, cpu) && k < 32 && r < 4
    ensures var h := AfterDistWrite(g, cpu, 0x280 + 4 * k + r, size, v);
            && On(h, cpu) && OnlyPending(g, h, cpu)
            && forall i | 0 <= i < 256 :: PendingAt(h, cpu, i) == (PendingAt(g, cpu, i) && !Selects(k, v, i))
  {
    WordOffset(0x280, k, r);
    assert AfterDistWrite(g, cpu, 0x280 + 4 * k + r, size, v) == BitsSet(g, cpu, 32 * k, 32, v, Pending, false);
    forall i | 0 <= i < 256 { BitsSetSelects(g, cpu, k, v, Pending, false, i); }
  }

  /** A write to 0x300: active bits are set where the value has a one. */
  lemma WriteSetActive(g: Gic, cpu: nat, k: nat, r: nat, size: nat, v: u32)
    requires On(g, cpu) && k < 32 && r < 4
    ensures var h := AfterDistWrite(g, cpu, 0x300 + 4 * k + r, size, v);
            && On(h, cpu) && OnlyActive(g, h, cpu)
            && forall i | 0 <= i < 256 :: ActiveAt(h, cpu, i) == (ActiveAt(g, cpu, i) || Selects(k, v, i))
  {
    WordOffset(0x300, k, r);
    assert AfterDistWrite(g, cpu, 0x300 + 4 * k + r, size, v) == BitsSet(g, cpu, 32 * k, 32, v, Active, true);
    forall i | 0 <= i < 256 { BitsSetSelects(g, cpu, k, v, Active, true, i); }
  }

  /** A write to 0x380: active bits are cleared where the value has a one. */
  lemma WriteClearActive(g: Gic, cpu: nat, k: nat, r: nat, size: nat, v: u32)
    requires On(g, cpu) && k < 32 && r < 4
    ensures var h := AfterDistWrite(g, cpu, 0x380 + 4 * k + r, size, v);
            && On(h, cpu) && OnlyActive(g, h, cpu)
            && forall i | 0 <= i < 256 :: ActiveAt(h, cpu, i) == (ActiveAt(g, cpu, i) && !Selects(k, v, i))
  {
    WordOffset(0x380, k, r);
    assert AfterDistWrite(g, cpu, 0x380 + 4 * k + r, size, v) == BitsSet(g, cpu, 32 * k, 32, v, Active, false);
    forall i | 0 <= i < 256 { BitsSetSelects(g, cpu, k, v, Active, false, i); }
  }

  /** A write to 0x400: the bytes of the value become the priorities from that INTID on. */
  lemma WritePriority(g: Gic, cpu: nat, at: nat, size: nat, v: nat)
    requires On(g, cpu) && at < 256
    ensures var h := AfterDistWrite(g, cpu, 0x400 + at, size, v);
            && On(h, cpu) && OnlyLines(g, h, cpu)
            && h.lines == g.lines.(priority := h.lines.priority)
            && h.cpus[cpu].lines == g.cpus[cpu].lines.(priority := h.cpus[cpu].lines.priority)
            && forall i | 0 <= i < 256 ::
                 PriorityAt(h, cpu, i) == if at <= i < at + size then ByteOf(v, i - at) else PriorityAt(g, cpu, i)
  {
    var h := AfterDistWrite(g, cpu, 0x400 + at, size, v);
    assert h == PrioritySet(g, cpu, at, size, v);
    forall i | 0 <= i < 256
      ensures PriorityAt(h, cpu, i) == if at <= i < at + size then ByteOf(v, i - at) else PriorityAt(g, cpu, i)
    {
      PriorityByte(g, cpu, at, size, v, i);
    }
  }

  lemma PriorityByte(g: Gic, cpu: nat, at: nat, size: nat, v: nat, i: nat)
    requires On(g, cpu) && i < 256
    ensures var h := PrioritySet(g, cpu, at, size, v);
            On(h, cpu)
            && PriorityAt(h, cpu, i) == if at <= i < at + size then ByteOf(v, i - at) else PriorityAt(g, cpu, i)
  {
    BytewiseFrame(g, cpu, at, size, v);
  }

  /** A write to 0x800: each byte names CPUs for one shared INTID; CPUs that do not exist are dropped, and the banked
      INTIDs keep theirs. */
  lemma WriteTargets(g: Gic, cpu: nat, at: nat, size: nat, v: nat)
    requires On(g, cpu) && at < 256
    ensures var h := AfterDistWrite(g, cpu, 0x800 + at, size, v);
            && |h.targets| == 256 && h == g.(targets := h.targets)
            && forall i, c: nat | 0 <= i < 256 :: Bit(h.targets[i], c)
                 == if 32 <= i && at <= i < at + size then c < |g.cpus| && Bit(ByteOf(v, i - at), c)
                    else Bit(g.targets[i], c)
  {
    var h, m := AfterDistWrite(g, cpu, 0x800 + at, size, v), Pow2(|g.cpus|);
    forall i, c: nat | 0 <= i < 256 && 32 <= i && at <= i < at + size
      ensures Bit(h.targets[i], c) == (c < |g.cpus| && Bit(ByteOf(v, i - at), c))
    {
      assert h.targets[i] == ByteOf(v, i - at) % m;
      LowBits(ByteOf(v, i - at), |g.cpus|, c);
    }
  }

  /** A write to 0xc00: INTIDs from 16 on become edge-triggered or level-triggered by the upper bit of their two. */
  lemma WriteConfig(g: Gic, cpu: nat, k: nat, r: nat, size: nat, v: u32)
    requires On(g, cpu) && k < 16 && r < 4
    ensures var h := AfterDistWrite(g, cpu, 0xc00 + 4 * k + r, size, v);
            && On(h, cpu) && OnlyLines(g, h, cpu)
            && h.lines == g.lines.(edge := h.lines.edge)
            && h.cpus[cpu].lines == g.cpus[cpu].lines.(edge := h.cpus[cpu].lines.edge)
            && forall i | 0 <= i < 256 :: EdgeAt(h, cpu, i)
                 == if 16 <= i && i / 16 == k then Bit(v, 2 * (i % 16) + 1) else EdgeAt(g, cpu, i)
  {
    WordOffset(0xc00, k, r);
    var h := AfterDistWrite(g, cpu, 0xc00 + 4 * k + r, size, v);
    assert h == CfgSet(g, cpu, 16 * k, 16, v);
    forall i | 0 <= i < 256 ensures EdgeAt(h, cpu, i)
                 == if 16 <= i && i / 16 == k then Bit(v, 2 * (i % 16) + 1) else EdgeAt(g, cpu, i) {
      if i / 16 == k { assert i - 16 * k == i % 16; }
    }
  }

  /** A write to 0x000: bit 0 switches the distributor. */
  lemma WriteDistControl(g: Gic, cpu: nat, r: nat, size: nat, v: u32)
    requires On(g, cpu) && r < 4
    ensures AfterDistWrite(g, cpu, r, size, v) == g.(distEnabled := v % 2 == 1)
  {
  }

  // ---- software-generated interrupts ----

  /** The filter and target list of a GICD_SGIR write: 0 is the list, 1 all others, 2 and 3 the sender. */
  predicate SgiFor(list: byte, filter: nat, cpu: nat, t: nat) {
    if filter == 0 then Bit(list, t) else if filter == 1 then t != cpu else t == cpu
  }

  /** In `h` CPU `t` has SGI `sgi` pending from `cpu` if it is `hit` and is as in `g` otherwise; nothing that is shared
      differs. */
  predicate SgiReached(g: Gic, h: Gic, cpu: nat, sgi: nat, hit: bool, t: nat)
    requires g.Valid() && sgi < 16 && t < |g.cpus| && cpu < 8
  {
    && |h.cpus| == |g.cpus| && h.lines == g.lines && h.targets == g.targets && h.distEnabled == g.distEnabled
    && var b := g.cpus[t];
       h.cpus[t] == if hit then b.(lines := b.lines.(pending := b.lines.pending[sgi := true]),
                                   sgiSrc := b.sgiSrc[sgi := cpu])
                    else b
  }

  /** A write to 0xf00: the SGI number in bits 3..0, the target list in bits 23..16, the filter in bits 25..24. */
  lemma WriteSgi(g: Gic, cpu: nat, off: nat, size: nat, v: u32, t: nat)
    requires On(g, cpu) && 0xf00 <= off < 0xf04 && t < |g.cpus|
    ensures SgiReached(g, AfterDistWrite(g, cpu, off, size, v), cpu, v % 16,
                       SgiFor(v / 0x1_0000 % 256, v / 0x100_0000 % 4, cpu, t), t)
  {
    SgiDispatched(g, cpu, off, size, v);
    SgiPosted(g, cpu, v, SgiFor(v / 0x1_0000 % 256, v / 0x100_0000 % 4, cpu, t), t) by { SgiHits(v, cpu, t); }
  }

  lemma SgiPosted(g: Gic, cpu: nat, v: u32, hit: bool, t: nat)
    requires On(g, cpu) && t < |g.cpus| && SgiHit(v, cpu, t) == hit
    ensures SgiReached(g, SgiSet(g, cpu, |g.cpus|, v), cpu, v % 16, hit, t)
  {
  }

  lemma SgiDispatched(g: Gic, cpu: nat, off: nat, size: nat, v: u32)
    requires On(g, cpu) && Align4(off) == GICD_SGIR
    ensures AfterDistWrite(g, cpu, off, size, v) == SgiSet(g, cpu, |g.cpus|, v)
  {
    var w := v % U32_SPAN;
    assert AfterDistWrite(g, cpu, off, size, v) == SgiSet(g, cpu, |g.cpus|, w);
    assert w == v;
  }

  lemma SgiHits(v: nat, cpu: nat, t: nat)
    ensures SgiHit(v, cpu, t) == SgiFor(v / 0x1_0000 % 256, v / 0x100_0000 % 4, cpu, t)
  {
    Pow2Values();
  }

  lemma Pow2Values()
    ensures Pow2(8) == 0x100 && Pow2(16) == 0x1_0000 && Pow2(24) == 0x100_0000
  {
    assert Pow2(8) == 0x100;
    assert Pow2(12) == 0x1000;
    assert Pow2(16) == 0x1_0000;
    assert Pow2(20) == 0x10_0000;
    assert Pow2(24) == 0x100_0000;
  }

  // ---- bits ----

  lemma {:induction false} Pow2Split(a: nat, b: nat)
    ensures Pow2(a + b) == Pow2(a) * Pow2(b)
  {
    if a > 0 {
      Pow2Split(a - 1, b);
      assert Pow2(a + b) == 2 * Pow2(a - 1 + b);
    }
  }

  /** The low `n` bits of a value: its bits below `n`, and zeros above. */
  lemma {:induction false} LowBits(v: nat, n: nat, c: nat)
    ensures Bit(v % Pow2(n), c) == (c < n && Bit(v, c))
    decreases n
  {
    if n == 0 {
      ZeroHasNoBits(c);
    } else {
      HalfMod(v, Pow2(n - 1));
      if c > 0 {
        LowBits(v / 2, n - 1, c - 1);
        HalfBit(v, c);
        HalfBit(v % Pow2(n), c);
      }
    }
  }

  lemma ZeroHasNoBits(c: nat)
    ensures !Bit(0, c)
  {
  }

  lemma HalfMod(v: nat, m: nat)
    requires m > 0
    ensures v % (2 * m) % 2 == v % 2 && v % (2 * m) / 2 == v / 2 % m
  {
    var q, r := v / 2 / m, v / 2 % m;
    assert v / 2 == q * m + r;
    assert v == q * (2 * m) + (2 * r + v % 2);
    DivMod(v, 2 * m, q, 2 * r + v % 2);
  }

  lemma Scale(a: nat, b: nat)
    requires a >= 1
    ensures a * b >= b
  {
  }

  lemma Distribute(a: int, b: int, d: int)
    ensures a * d - b * d == (a - b) * d
  {
  }

  lemma Unique(k: nat, s: nat, q: nat, r: nat, d: nat)
    requires k * d + s == q * d + r && s < d && r < d
    ensures k == q && s == r
  {
    Distribute(k, q, d);
    Distribute(q, k, d);
    if k < q { Scale(q - k, d); } else if k > q { Scale(k - q, d); }
  }

  lemma DivMod(v: nat, d: nat, q: nat, r: nat)
    requires d > 0 && v == q * d + r && r < d
    ensures v / d == q && v % d == r
  {
    Unique(v / d, v % d, q, r, d);
  }

  lemma HalfBit(v: nat, c: nat)
    requires c > 0
    ensures Bit(v, c) == Bit(v / 2, c - 1)
  {
    DivTwice(v, Pow2(c - 1));
  }

  lemma DivTwice(v: nat, m: nat)
    requires m > 0
    ensures v / (2 * m) == v / 2 / m
  {
    var q, r := v / 2 / m, v / 2 % m;
    assert v == q * (2 * m) + (2 * r + v % 2);
    DivMod(v, 2 * m, q, 2 * r + v % 2);
  }

  lemma {:induction false} PowerHasBit(k: nat, c: nat)
    ensures Bit(Pow2(k), c) == (k == c)
    decreases k
  {
    if k == 0 {
      OneHasBit(c);
    } else if c > 0 {
      HalfBit(Pow2(k), c);
      PowerHasBit(k - 1, c - 1);
    }
  }

  lemma OneHasBit(c: nat)
    ensures Bit(1, c) == (c == 0)
  {
    if c > 0 { DivMod(1, Pow2(c), 0, 1); }
  }

  // ---- a driver's programming sequence ----

  /** Everything that decides whether INTID `i` reaches `cpu`. */
  datatype Setting = Setting(dist: bool, pmr: byte, prio: byte, target: bool, enabled: bool, edge: bool, pending: bool,
                             level: bool)
  {
    predicate Delivers() { dist && enabled && target && (if edge then pending else level) && prio < pmr }
  }

  /** INTID `i` is set so on `cpu`, no other is pending there, none is active and no interrupt is being handled. */
  predicate Alone(g: Gic, cpu: nat, i: nat, s: Setting) {
    && On(g, cpu) && i < 256
    && g.distEnabled == s.dist && g.cpus[cpu].pmr == s.pmr && g.cpus[cpu].running == []
    && PriorityAt(g, cpu, i) == s.prio && EnabledAt(g, cpu, i) == s.enabled && EdgeAt(g, cpu, i) == s.edge
    && PendingAt(g, cpu, i) == s.pending && LevelAt(g, cpu, i) == s.level
    && s.target == (i < 32 || Bit(g.targets[i], cpu))
    && (i < 16 ==> g.cpus[cpu].sgiSrc[i] == 0)
    && forall j | 0 <= j < 256 :: Silent(g, cpu, j, i)
  }

  predicate Silent(g: Gic, cpu: nat, j: nat, i: nat)
    requires On(g, cpu) && j < 256
  {
    !ActiveAt(g, cpu, j) && (j != i ==> !PendingAt(g, cpu, j) && !LevelAt(g, cpu, j))
  }

  lemma IarAlone(g: Gic, cpu: nat, i: nat, s: Setting)
    requires Alone(g, cpu, i, s)
    ensures Iar(g, cpu) == if s.Delivers() then i else 1023
  {
    forall j: nat | Deliverable(g, cpu, j) ensures j == i { assert Silent(g, cpu, j, i); }
    assert Silent(g, cpu, i, i);
    assert Deliverable(g, cpu, i) <==> s.Delivers();
    BestIsLeast(g, cpu);
    if s.Delivers() { assert Least(g, cpu, i); }
  }

  lemma ResetAlone(n: nat, cpu: nat, i: nat)
    requires cpu < Max(1, Min(n, 8)) && i < 256
    ensures Alone(Reset(n), cpu, i, Setting(false, 0, 0, i < 32 || cpu == 0, false, i < 16, false, false))
  {
    OneHasBit(cpu);
  }

  lemma SilentKept(g: Gic, h: Gic, cpu: nat, i: nat, s: Setting)
    requires Alone(g, cpu, i, s) && On(h, cpu)
    requires forall j | 0 <= j < 256 :: ActiveAt(h, cpu, j) == ActiveAt(g, cpu, j)
    requires forall j | 0 <= j < 256 && j != i ::
               PendingAt(h, cpu, j) == PendingAt(g, cpu, j) && LevelAt(h, cpu, j) == LevelAt(g, cpu, j)
    ensures forall j | 0 <= j < 256 :: Silent(h, cpu, j, i)
  {
    forall j | 0 <= j < 256 ensures Silent(h, cpu, j, i) { assert Silent(g, cpu, j, i); }
  }

  lemma StepControl(g: Gic, cpu: nat, i: nat, s: Setting, v: u32)
    requires Alone(g, cpu, i, s)
    ensures Alone(Apply(g, DistWrite(cpu, 0x000, 4, v)), cpu, i, s.(dist := v % 2 == 1))
  {
    WriteDistControl(g, cpu, 0, 4, v);
    SilentKept(g, Apply(g, DistWrite(cpu, 0x000, 4, v)), cpu, i, s);
  }

  lemma StepMask(g: Gic, cpu: nat, i: nat, s: Setting, m: byte)
    requires Alone(g, cpu, i, s)
    ensures Alone(Apply(g, CpuWrite(cpu, 0x04, m)), cpu, i, s.(pmr := m))
  {
    SilentKept(g, Apply(g, CpuWrite(cpu, 0x04, m)), cpu, i, s);
  }

  lemma StepPriority(g: Gic, cpu: nat, i: nat, s: Setting, p: byte)
    requires Alone(g, cpu, i, s)
    ensures Alone(Apply(g, DistWrite(cpu, 0x400 + i, 1, p)), cpu, i, s.(prio := p))
  {
    WritePriority(g, cpu, i, 1, p);
    assert ByteOf(p, 0) == p;
    AlonePriority(g, Apply(g, DistWrite(cpu, 0x400 + i, 1, p)), cpu, i, s);
  }

  lemma AlonePriority(g: Gic, h: Gic, cpu: nat, i: nat, s: Setting)
    requires Alone(g, cpu, i, s) && On(h, cpu) && OnlyLines(g, h, cpu)
    requires h.lines == g.lines.(priority := h.lines.priority)
    requires h.cpus[cpu].lines == g.cpus[cpu].lines.(priority := h.cpus[cpu].lines.priority)
    ensures Alone(h, cpu, i, s.(prio := PriorityAt(h, cpu, i)))
  {
    SilentKept(g, h, cpu, i, s);
  }

  lemma StepTarget(g: Gic, cpu: nat, i: nat, s: Setting, tv: byte)
    requires Alone(g, cpu, i, s)
    ensures Alone(Apply(g, DistWrite(cpu, 0x800 + i, 1, tv)), cpu, i, s.(target := i < 32 || Bit(tv, cpu)))
  {
    WriteTargets(g, cpu, i, 1, tv);
    assert ByteOf(tv, 0) == tv;
    SilentKept(g, Apply(g, DistWrite(cpu, 0x800 + i, 1, tv)), cpu, i, s);
  }

  lemma AloneEnabled(g: Gic, h: Gic, cpu: nat, i: nat, s: Setting)
    requires Alone(g, cpu, i, s) && On(h, cpu) && OnlyEnabled(g, h, cpu)
    ensures Alone(h, cpu, i, s.(enabled := EnabledAt(h, cpu, i)))
  {
    SilentKept(g, h, cpu, i, s);
  }

  lemma AlonePending(g: Gic, h: Gic, cpu: nat, i: nat, s: Setting)
    requires Alone(g, cpu, i, s) && On(h, cpu) && OnlyPending(g, h, cpu)
    requires forall j | 0 <= j < 256 && j != i :: PendingAt(h, cpu, j) ==> PendingAt(g, cpu, j)
    ensures Alone(h, cpu, i, s.(pending := PendingAt(h, cpu, i)))
  {
    forall j | 0 <= j < 256 ensures Silent(h, cpu, j, i) { assert Silent(g, cpu, j, i); }
  }

  lemma AloneEdge(g: Gic, h: Gic, cpu: nat, i: nat, s: Setting)
    requires Alone(g, cpu, i, s) && On(h, cpu) && OnlyLines(g, h, cpu)
    requires h.lines == g.lines.(edge := h.lines.edge)
    requires h.cpus[cpu].lines == g.cpus[cpu].lines.(edge := h.cpus[cpu].lines.edge)
    ensures Alone(h, cpu, i, s.(edge := EdgeAt(h, cpu, i)))
  {
    SilentKept(g, h, cpu, i, s);
  }

  lemma StepEnable(g: Gic, cpu: nat, i: nat, s: Setting, v: u32)
    requires Alone(g, cpu, i, s)
    ensures Alone(Apply(g, DistWrite(cpu, 0x100 + 4 * (i / 32), 4, v)), cpu, i,
                  s.(enabled := s.enabled || Bit(v, i % 32)))
  {
    WriteSetEnable(g, cpu, i / 32, 0, 4, v);
    AloneEnabled(g, Apply(g, DistWrite(cpu, 0x100 + 4 * (i / 32), 4, v)), cpu, i, s);
  }

  lemma StepDisable(g: Gic, cpu: nat, i: nat, s: Setting, v: u32)
    requires Alone(g, cpu, i, s)
    ensures Alone(Apply(g, DistWrite(cpu, 0x180 + 4 * (i / 32), 4, v)), cpu, i,
                  s.(enabled := s.enabled && !Bit(v, i % 32)))
  {
    WriteClearEnable(g, cpu, i / 32, 0, 4, v);
    AloneEnabled(g, Apply(g, DistWrite(cpu, 0x180 + 4 * (i / 32), 4, v)), cpu, i, s);
  }

  lemma StepConfig(g: Gic, cpu: nat, i: nat, s: Setting, v: u32)
    requires Alone(g, cpu, i, s)
    ensures Alone(Apply(g, DistWrite(cpu, 0xc00 + 4 * (i / 16), 4, v)), cpu, i,
                  s.(edge := if i < 16 then s.edge else Bit(v, 2 * (i % 16) + 1)))
  {
    WriteConfig(g, cpu, i / 16, 0, 4, v);
    AloneEdge(g, Apply(g, DistWrite(cpu, 0xc00 + 4 * (i / 16), 4, v)), cpu, i, s);
  }

  lemma StepUnpend(g: Gic, cpu: nat, i: nat, s: Setting, v: u32)
    requires Alone(g, cpu, i, s)
    ensures Alone(Apply(g, DistWrite(cpu, 0x280 + 4 * (i / 32), 4, v)), cpu, i,
                  s.(pending := s.pending && !Bit(v, i % 32)))
  {
    WriteClearPending(g, cpu, i / 32, 0, 4, v);
    AlonePending(g, Apply(g, DistWrite(cpu, 0x280 + 4 * (i / 32), 4, v)), cpu, i, s);
  }

  lemma OnlySelects(i: nat, j: nat)
    ensures Selects(i / 32, Pow2(i % 32), j) == (i == j)
  {
    PowerHasBit(i % 32, j % 32);
  }

  lemma StepPend(g: Gic, cpu: nat, i: nat, s: Setting, v: u32)
    requires Alone(g, cpu, i, s) && v == Pow2(i % 32)
    ensures Alone(Apply(g, DistWrite(cpu, 0x200 + 4 * (i / 32), 4, v)), cpu, i, s.(pending := true))
  {
    WriteSetPending(g, cpu, i / 32, 0, 4, v);
    forall j | 0 <= j < 256 ensures Selects(i / 32, v, j) == (i == j) { OnlySelects(i, j); }
    AlonePending(g, Apply(g, DistWrite(cpu, 0x200 + 4 * (i / 32), 4, v)), cpu, i, s);
  }

  /** A driven line: the level of INTID `i`, and it is level-triggered from now on; nothing else changes. */
  lemma DriveLine(g: Gic, cpu: nat, i: nat, high: bool)
    requires On(g, cpu) && i < 256
    ensures var h := LevelSet(g, cpu, i, high);
            && On(h, cpu) && OnlyLevels(g, h, cpu)
            && (forall j | 0 <= j < 256 :: LevelAt(h, cpu, j) == if j == i then high else LevelAt(g, cpu, j))
            && (forall j | 0 <= j < 256 :: EdgeAt(h, cpu, j) == (j != i && EdgeAt(g, cpu, j)))
  {
  }

  predicate OnlyLevels(g: Gic, h: Gic, cpu: nat)
    requires On(g, cpu)
  {
    && OnlyLines(g, h, cpu)
    && h.lines == g.lines.(level := h.lines.level, edge := h.lines.edge)
    && h.cpus[cpu].lines == g.cpus[cpu].lines.(level := h.cpus[cpu].lines.level, edge := h.cpus[cpu].lines.edge)
  }

  lemma AloneLevel(g: Gic, h: Gic, cpu: nat, i: nat, s: Setting)
    requires Alone(g, cpu, i, s) && On(h, cpu) && OnlyLevels(g, h, cpu)
    requires forall j | 0 <= j < 256 && j != i :: LevelAt(h, cpu, j) == LevelAt(g, cpu, j)
    ensures Alone(h, cpu, i, s.(level := LevelAt(h, cpu, i), edge := EdgeAt(h, cpu, i)))
  {
    SilentKept(g, h, cpu, i, s);
  }

  lemma StepLevel(g: Gic, cpu: nat, i: nat, s: Setting, high: bool)
    requires Alone(g, cpu, i, s)
    ensures Alone(Apply(g, SetLevel(cpu, i, high)), cpu, i, s.(level := high, edge := false))
  {
    DriveLine(g, cpu, i, high);
    AloneLevel(g, Apply(g, SetLevel(cpu, i, high)), cpu, i, s);
  }

  lemma Extends(g: Gic, es: seq<Event>, e: Event)
    requires Runs(g, es) && e.cpu < |g.cpus|
    ensures Runs(g, es + [e]) && Run(g, es + [e]) == Apply(Run(g, es), e)
  {
    assert (es + [e])[..|es|] == es;
  }

  /** Distributor and CPU interface on, and INTID `i` given a priority, targets and its enable bit, by any values. */
  function Program(cpu: nat, i: nat, ctl: u32, m: byte, p: byte, tv: byte, ev: u32): seq<Event> {
    [DistWrite(cpu, 0x000, 4, ctl)] + [CpuWrite(cpu, 0x04, m)] + [DistWrite(cpu, 0x400 + i, 1, p)]
    + [DistWrite(cpu, 0x800 + i, 1, tv)] + [DistWrite(cpu, 0x100 + 4 * (i / 32), 4, ev)]
  }

  lemma ProgramSets(n: nat, cpu: nat, i: nat, ctl: u32, m: byte, p: byte, tv: byte, ev: u32)
    requires cpu < Max(1, Min(n, 8)) && i < 256
    ensures var es := Program(cpu, i, ctl, m, p, tv, ev);
            && Runs(Reset(n), es)
            && Alone(Run(Reset(n), es), cpu, i,
                     Setting(ctl % 2 == 1, m, p, i < 32 || Bit(tv, cpu), Bit(ev, i % 32), i < 16, false, false))
  {
    var g, s := Reset(n), Setting(false, 0, 0, i < 32 || cpu == 0, false, i < 16, false, false);
    ResetAlone(n, cpu, i);
    var es: seq<Event> := [DistWrite(cpu, 0x000, 4, ctl)];
    assert es[..0] == [];
    StepControl(g, cpu, i, s, ctl);
    s := s.(dist := ctl % 2 == 1);
    Extends(g, es, CpuWrite(cpu, 0x04, m));
    StepMask(Run(g, es), cpu, i, s, m);
    es, s := es + [CpuWrite(cpu, 0x04, m)], s.(pmr := m);
    Extends(g, es, DistWrite(cpu, 0x400 + i, 1, p));
    StepPriority(Run(g, es), cpu, i, s, p);
    es, s := es + [DistWrite(cpu, 0x400 + i, 1, p)], s.(prio := p);
    Extends(g, es, DistWrite(cpu, 0x800 + i, 1, tv));
    StepTarget(Run(g, es), cpu, i, s, tv);
    es, s := es + [DistWrite(cpu, 0x800 + i, 1, tv)], s.(target := i < 32 || Bit(tv, cpu));
    Extends(g, es, DistWrite(cpu, 0x100 + 4 * (i / 32), 4, ev));
    StepEnable(Run(g, es), cpu, i, s, ev);
  }

  /** From power-on, whatever a driver writes for INTID `i` and however its line is driven: IAR returns `i` if and only
      if the distributor is on, `i` is enabled, routed to this CPU, of a priority strictly above the mask, and its line
      is high. A write to ICENABLER afterwards withdraws it if and only if it has the bit of `i`. */
  lemma LevelDeliveredIff(n: nat, cpu: nat, i: nat, ctl: u32, m: byte, p: byte, tv: byte, ev: u32, high: bool, dv: u32)
    requires cpu < Max(1, Min(n, 8)) && i < 256
    ensures var es := Program(cpu, i, ctl, m, p, tv, ev) + [SetLevel(cpu, i, high)];
            var off := DistWrite(cpu, 0x180 + 4 * (i / 32), 4, dv);
            var on := ctl % 2 == 1 && Bit(ev, i % 32) && (i < 32 || Bit(tv, cpu)) && p < m && high;
            && Runs(Reset(n), es + [off])
            && Iar(Run(Reset(n), es), cpu) == (if on then i else 1023)
            && Iar(Run(Reset(n), es + [off]), cpu) == (if on && !Bit(dv, i % 32) then i else 1023)
  {
    var g, es := Reset(n), Program(cpu, i, ctl, m, p, tv, ev);
    var s := Setting(ctl % 2 == 1, m, p, i < 32 || Bit(tv, cpu), Bit(ev, i % 32), i < 16, false, false);
    ProgramSets(n, cpu, i, ctl, m, p, tv, ev);
    Extends(g, es, SetLevel(cpu, i, high));
    StepLevel(Run(g, es), cpu, i, s, high);
    es, s := es + [SetLevel(cpu, i, high)], s.(level := high, edge := false);
    IarAlone(Run(g, es), cpu, i, s);
    Extends(g, es, DistWrite(cpu, 0x180 + 4 * (i / 32), 4, dv));
    StepDisable(Run(g, es), cpu, i, s, dv);
    IarAlone(Run(g, es + [DistWrite(cpu, 0x180 + 4 * (i / 32), 4, dv)]), cpu, i,
             s.(enabled := s.enabled && !Bit(dv, i % 32)));
  }

  /** The same for an interrupt configured by any value and latched through ISPENDR: it is delivered if and only if it
      is edge-triggered, as SGIs always are; ICPENDR withdraws it if and only if it has its bit. */
  lemma EdgeDeliveredIff(n: nat, cpu: nat, i: nat, ctl: u32, m: byte, p: byte, tv: byte, ev: u32, cv: u32, one: u32,
                         dv: u32)
    requires cpu < Max(1, Min(n, 8)) && i < 256 && one == Pow2(i % 32)
    ensures var es := Program(cpu, i, ctl, m, p, tv, ev) + [DistWrite(cpu, 0xc00 + 4 * (i / 16), 4, cv)]
                      + [DistWrite(cpu, 0x200 + 4 * (i / 32), 4, one)];
            var off := DistWrite(cpu, 0x280 + 4 * (i / 32), 4, dv);
            var on := ctl % 2 == 1 && Bit(ev, i % 32) && (i < 32 || Bit(tv, cpu)) && p < m
                      && (i < 16 || Bit(cv, 2 * (i % 16) + 1));
            && Runs(Reset(n), es + [off])
            && Iar(Run(Reset(n), es), cpu) == (if on then i else 1023)
            && Iar(Run(Reset(n), es + [off]), cpu) == (if on && !Bit(dv, i % 32) then i else 1023)
  {
    var g, es := Reset(n), Program(cpu, i, ctl, m, p, tv, ev);
    var s := Setting(ctl % 2 == 1, m, p, i < 32 || Bit(tv, cpu), Bit(ev, i % 32), i < 16, false, false);
    ProgramSets(n, cpu, i, ctl, m, p, tv, ev);
    Extends(g, es, DistWrite(cpu, 0xc00 + 4 * (i / 16), 4, cv));
    StepConfig(Run(g, es), cpu, i, s, cv);
    es, s := es + [DistWrite(cpu, 0xc00 + 4 * (i / 16), 4, cv)],
             s.(edge := if i < 16 then s.edge else Bit(cv, 2 * (i % 16) + 1));
    Extends(g, es, DistWrite(cpu, 0x200 + 4 * (i / 32), 4, one));
    StepPend(Run(g, es), cpu, i, s, one);
    es, s := es + [DistWrite(cpu, 0x200 + 4 * (i / 32), 4, one)], s.(pending := true);
    IarAlone(Run(g, es), cpu, i, s);
    Extends(g, es, DistWrite(cpu, 0x280 + 4 * (i / 32), 4, dv));
    StepUnpend(Run(g, es), cpu, i, s, dv);
    IarAlone(Run(g, es + [DistWrite(cpu, 0x280 + 4 * (i / 32), 4, dv)]), cpu, i,
             s.(pending := s.pending && !Bit(dv, i % 32)));
  }

  lemma TakenOthers(g: Gic, cpu: nat, i: nat, j: nat)
    requires On(g, cpu) && i < 256 && j < 256
    ensures var h := Taken(g, cpu, i);
            On(h, cpu) && LevelAt(h, cpu, j) == LevelAt(g, cpu, j)
            && (j != i ==> PendingAt(h, cpu, j) == PendingAt(g, cpu, j))
  {
  }

  lemma TakenSilent(g: Gic, cpu: nat, i: nat, s: Setting, j: nat)
    requires Alone(g, cpu, i, s) && On(Taken(g, cpu, i), cpu)
    ensures !Deliverable(Taken(g, cpu, i), cpu, j)
  {
    if j == i {
      TakenActive(g, cpu, i);
      assert ActiveAt(Taken(g, cpu, i), cpu, i);
    } else if j < 256 {
      assert Silent(g, cpu, j, i);
      TakenOthers(g, cpu, i, j);
    }
  }

  /** While it is being handled nothing is delivered. */
  lemma TakenQuiet(g: Gic, cpu: nat, i: nat, s: Setting)
    requires Alone(g, cpu, i, s) && On(Taken(g, cpu, i), cpu)
    ensures Iar(Taken(g, cpu, i), cpu) == 1023
  {
    forall j: nat ensures !Deliverable(Taken(g, cpu, i), cpu, j) { TakenSilent(g, cpu, i, s, j); }
    SpuriousIffIdle(Taken(g, cpu, i), cpu);
  }

  lemma UnlatchedAlone(g: Gic, cpu: nat, i: nat, s: Setting)
    requires Alone(g, cpu, i, s)
    ensures Alone(WithBlock(g, cpu, i, Unlatched(Block(g, cpu, i), i)), cpu, i, s.(pending := s.pending && !s.edge))
  {
    var h := WithBlock(g, cpu, i, Unlatched(Block(g, cpu, i), i));
    AlonePending(g, h, cpu, i, s);
  }

  lemma HandlingRuns(g: Gic, cpu: nat, v: nat)
    requires On(g, cpu)
    ensures var ack, eoi := CpuRead(cpu, 0x0c), CpuWrite(cpu, 0x10, v);
            && Runs(g, [ack]) && Run(g, [ack]) == Ack(g, cpu) && On(Ack(g, cpu), cpu)
            && Runs(g, [ack] + [eoi]) && Run(g, [ack] + [eoi]) == AfterCpuWrite(Ack(g, cpu), cpu, 0x10, v)
  {
    var ack, eoi := CpuRead(cpu, 0x0c), CpuWrite(cpu, 0x10, v);
    assert [ack][..0] == [];
    Extends(g, [ack], eoi);
  }

  lemma HandlingQuiet(g: Gic, cpu: nat, i: nat, s: Setting)
    requires Alone(g, cpu, i, s) && Iar(g, cpu) == i && On(Ack(g, cpu), cpu)
    ensures Iar(Ack(g, cpu), cpu) == 1023
  {
    IarSplits(g, cpu);
    TakenQuiet(g, cpu, i, s);
  }

  lemma EndedIs(g: Gic, cpu: nat, i: nat)
    requires On(g, cpu) && i < 256 && Iar(g, cpu) == i && On(Ack(g, cpu), cpu)
    ensures AfterCpuWrite(Ack(g, cpu), cpu, 0x10, i) == WithBlock(g, cpu, i, Unlatched(Block(g, cpu, i), i))
  {
    AckThenEoi(g, cpu);
  }

  lemma EndedIar(g: Gic, cpu: nat, i: nat, s: Setting)
    requires Alone(g, cpu, i, s)
    ensures var h := WithBlock(g, cpu, i, Unlatched(Block(g, cpu, i), i));
            On(h, cpu) && Iar(h, cpu) == if s.(pending := s.pending && !s.edge).Delivers() then i else 1023
  {
    UnlatchedAlone(g, cpu, i, s);
    IarAlone(WithBlock(g, cpu, i, Unlatched(Block(g, cpu, i), i)), cpu, i, s.(pending := s.pending && !s.edge));
  }

  /** What the driver sees that reads IAR, and writes back what it read: nothing while it handles the interrupt; then,
      again, a level-triggered one whose line is still high, but not an edge-triggered one. */
  lemma AfterHandling(g: Gic, cpu: nat, i: nat, s: Setting)
    requires Alone(g, cpu, i, s) && s.Delivers()
    ensures var ack, eoi := CpuRead(cpu, 0x0c), CpuWrite(cpu, 0x10, i);
            && Iar(g, cpu) == i && Runs(g, [ack]) && Runs(g, [ack] + [eoi])
            && Iar(Run(g, [ack]), cpu) == 1023 && Iar(Run(g, [ack] + [eoi]), cpu) == if s.edge then 1023 else i
  {
    assert Iar(g, cpu) == i by { IarAlone(g, cpu, i, s); }
    HandlingRuns(g, cpu, i);
    HandlingQuiet(g, cpu, i, s);
    EndedIs(g, cpu, i);
    EndedIar(g, cpu, i, s);
  }
}

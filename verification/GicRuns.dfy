/** What holds over whole runs of a GICv2: bounded stacks, lossless snapshots, one-CPU delivery, nesting. */
module GicRuns {
  import opened Words
  import opened GicSpec
  import opened GicCodec

  // ---- one access ----

  /** The block of INTID `i` once its edge latch has been consumed. */
  function Unlatched(l: Lines, i: nat): Lines
    requires i < |l.edge| && i < |l.pending|
  {
    l.(pending := if l.edge[i] then l.pending[i := false] else l.pending)
  }

  lemma TakenThenEoi(g: Gic, cpu: nat, i: nat)
    requires On(g, cpu) && i < NUM_INTID && !ActiveAt(g, cpu, i)
    ensures On(Taken(g, cpu, i), cpu)
    ensures Eoi(Taken(g, cpu, i), cpu, i) == WithBlock(g, cpu, i, Unlatched(Block(g, cpu, i), i))
  {
    var l, r, p := Block(g, cpu, i), g.cpus[cpu].running, PriorityAt(g, cpu, i);
    assert l.active[i := true][i := false] == l.active;
    assert (r + [p])[..|r|] == r;
    var g2, want := Eoi(Taken(g, cpu, i), cpu, i), WithBlock(g, cpu, i, Unlatched(l, i));
    assert g2.lines == want.lines;
    assert g2.cpus[cpu] == want.cpus[cpu];
    assert g2.cpus == want.cpus;
  }

  /** Writing back to EOIR exactly what IAR returned undoes the acknowledge, source bits or not:
      only the consumed edge latch stays different. */
  lemma AckThenEoi(g: Gic, cpu: nat)
    requires On(g, cpu) && Iar(g, cpu) != SPURIOUS
    ensures On(Ack(g, cpu), cpu)
    ensures var i := Iar(g, cpu) % 1024;
            && Best(g, cpu) == Some(i) && i < NUM_INTID
            && AfterCpuWrite(Ack(g, cpu), cpu, GICC_EOIR, Iar(g, cpu))
               == WithBlock(g, cpu, i, Unlatched(Block(g, cpu, i), i))
  {
    IarSplits(g, cpu);
    var i := Best(g, cpu).value;
    assert !ActiveAt(g, cpu, i) by { BestIsLeast(g, cpu); }
    assert On(Taken(g, cpu, i), cpu)
        && Eoi(Taken(g, cpu, i), cpu, i) == WithBlock(g, cpu, i, Unlatched(Block(g, cpu, i), i)) by {
      TakenThenEoi(g, cpu, i);
    }
    EoirMasks(Taken(g, cpu, i), cpu, Iar(g, cpu));
  }

  /** What an IAR value tells: the INTID in its low ten bits. */
  lemma IarSplits(g: Gic, cpu: nat)
    requires On(g, cpu) && Iar(g, cpu) != SPURIOUS
    ensures Best(g, cpu).Some? && Best(g, cpu).value < NUM_INTID
    ensures Iar(g, cpu) % 1024 == Best(g, cpu).value && Iar(g, cpu) < U32_SPAN
    ensures Ack(g, cpu) == Taken(g, cpu, Best(g, cpu).value)
  {
    BestIsLeast(g, cpu);
    IarNamesBest(g, cpu, Best(g, cpu).value);
  }

  lemma EoirMasks(g: Gic, cpu: nat, iar: nat)
    requires On(g, cpu) && iar < U32_SPAN
    ensures AfterCpuWrite(g, cpu, GICC_EOIR, iar) == Eoi(g, cpu, iar % 1024)
  {
  }

  /** IAR returns 1023 exactly when nothing is deliverable; it then changes nothing, but its EOIR
      write-back still pops a priority level. */
  lemma SpuriousIffIdle(g: Gic, cpu: nat)
    requires On(g, cpu)
    ensures Iar(g, cpu) == SPURIOUS <==> forall i: nat :: !Deliverable(g, cpu, i)
    ensures Iar(g, cpu) == SPURIOUS ==> Ack(g, cpu) == g
    ensures AfterCpuWrite(g, cpu, GICC_EOIR, SPURIOUS) == Pop(g, cpu)
  {
    BestIsLeast(g, cpu);
    if i: nat :| Best(g, cpu) == Some(i) {
      assert IarValue(g, cpu, i) % 1024 == i;
    }
  }

  /** Acknowledging a private INTID leaves the shared block and every other bank alone. */
  lemma PrivateAckIsLocal(g: Gic, cpu: nat)
    requires On(g, cpu) && Best(g, cpu).Some? && Best(g, cpu).value < PRIVATE
    ensures Ack(g, cpu).lines == g.lines && Ack(g, cpu).targets == g.targets
    ensures forall c | 0 <= c < |g.cpus| && c != cpu :: Ack(g, cpu).cpus[c] == g.cpus[c]
    ensures ActiveAt(Ack(g, cpu), cpu, Best(g, cpu).value)
  {
    AckFrame(g, cpu);
  }

  /** An SGI write reaches exactly the CPUs it selects: there the SGI is pending, and when it is delivered IAR
      names it together with the CPU that sent it. */
  lemma SgiNamesSender(g: Gic, cpu: nat, off: nat, size: nat, val: nat, t: nat)
    requires On(g, cpu) && t < |g.cpus| && Align4(off) == GICD_SGIR
    ensures var g1, v := AfterDistWrite(g, cpu, off, size, val), val % U32_SPAN;
            && On(g1, t)
            && (!SgiHit(v, cpu, t) ==> g1.cpus[t] == g.cpus[t])
            && (SgiHit(v, cpu, t) ==>
                  && g1.cpus[t].lines.pending[v % 16]
                  && (Best(g1, t) == Some(v % 16) ==> Iar(g1, t) == v % 16 + 1024 * cpu))
  {
    DistWriteFrame(g, cpu, off, size, val);
    var v := val % U32_SPAN;
    assert AfterDistWrite(g, cpu, off, size, val) == SgiSet(g, cpu, |g.cpus|, v);
  }

  // ---- bounded stacks and lossless snapshots ----

  /** Everything that can have happened to a GIC: power-on, accesses, and loading the snapshot of another one. */
  datatype History =
    | Boot(cpus: nat)
    | Then(before: History, event: Event)
    | RestoreFrom(before: History, source: History)

  ghost function StateOf(h: History): (g: Gic)
    ensures g.Valid()
    decreases h
  {
    match h
    case Boot(n) => Reset(n)
    case Then(p, e) =>
      var g := StateOf(p);
      if e.cpu < |g.cpus| then (ApplyFrame(g, e); Apply(g, e)) else g
    case RestoreFrom(p, s) => Loaded(StateOf(p), Encode(StateOf(s)))
  }

  predicate Descending(r: seq<byte>) {
    && (forall i | 0 <= i < |r| :: r[i] < IDLE_PRIO)
    && forall i, j | 0 <= i < j < |r| :: r[j] < r[i]
  }

  predicate StacksDescend(g: Gic) { forall c | 0 <= c < |g.cpus| :: Descending(g.cpus[c].running) }

  lemma {:induction false} DescendingBelow(r: seq<byte>, k: nat)
    requires Descending(r) && k < |r|
    ensures r[k] <= 254 - k
  {
    if k > 0 { DescendingBelow(r, k - 1); }
  }

  lemma DescendingIsShort(r: seq<byte>)
    requires Descending(r)
    ensures |r| <= RUNNING_CAP
  {
    if r != [] { DescendingBelow(r, |r| - 1); }
  }

  lemma AckDescends(g: Gic, cpu: nat)
    requires On(g, cpu) && StacksDescend(g)
    ensures StacksDescend(Ack(g, cpu))
  {
    AckFrame(g, cpu);
    BestIsLeast(g, cpu);
    var g1 := Ack(g, cpu);
    forall c | 0 <= c < |g1.cpus| ensures Descending(g1.cpus[c].running) {
      assert Descending(g.cpus[c].running);
    }
  }

  lemma EoiDescends(g: Gic, cpu: nat, i: nat)
    requires On(g, cpu) && StacksDescend(g)
    ensures StacksDescend(Eoi(g, cpu, i))
  {
    var g1 := Eoi(g, cpu, i);
    forall c | 0 <= c < |g1.cpus| ensures Descending(g1.cpus[c].running) {
      assert Descending(g.cpus[c].running);
    }
  }

  lemma StepDescends(g: Gic, e: Event)
    requires On(g, e.cpu) && StacksDescend(g)
    ensures StacksDescend(Apply(g, e))
  {
    ApplyFrame(g, e);
    if e.ReadsIar() {
      AckDescends(g, e.cpu);
    } else if e.WritesEoir() {
      EoiDescends(g, e.cpu, e.Eoid());
    } else {
      assert SameStacks(g, Apply(g, e));
    }
  }

  /** In every state a GIC can reach, each running stack is strictly decreasing, so it fits the blob. */
  lemma {:induction false} StacksAlwaysDescend(h: History)
    ensures StacksDescend(StateOf(h))
    ensures forall c | 0 <= c < |StateOf(h).cpus| :: |StateOf(h).cpus[c].running| <= RUNNING_CAP
    decreases h
  {
    var g := StateOf(h);
    match h {
      case Boot(n) =>
      case Then(p, e) =>
        StacksAlwaysDescend(p);
        if e.cpu < |StateOf(p).cpus| { StepDescends(StateOf(p), e); }
      case RestoreFrom(p, s) =>
        StacksAlwaysDescend(s);
        LoadOfCapture(StateOf(s), StateOf(p));
        forall c | 0 <= c < |g.cpus| ensures Descending(g.cpus[c].running) {
          if c < |StateOf(s).cpus| { assert Descending(StateOf(s).cpus[c].running); }
        }
    }
    forall c | 0 <= c < |g.cpus| ensures |g.cpus[c].running| <= RUNNING_CAP {
      DescendingIsShort(g.cpus[c].running);
    }
  }

  lemma NothingCapped(bs: seq<CpuBank>)
    requires forall c | 0 <= c < |bs| :: |bs[c].running| <= RUNNING_CAP
    ensures CappedBanks(bs) == bs
  {
    forall c | 0 <= c < |bs| ensures CappedBanks(bs)[c] == bs[c] {
      assert Capped(bs[c].running) == bs[c].running;
    }
  }

  /** A snapshot of any reachable GIC restores exactly, in any GIC; banks it did not have stay at reset. */
  lemma SnapshotLossless(h: History, target: History)
    ensures var g, have := StateOf(h), |StateOf(target).cpus|;
            && StateOf(RestoreFrom(target, h)).cpus
               == g.cpus + seq(Max(|g.cpus|, have) - |g.cpus|, _ => DefaultBank())
            && StateOf(RestoreFrom(target, h)).(cpus := g.cpus) == g
            && (have <= |g.cpus| ==> StateOf(RestoreFrom(target, h)) == g)
  {
    var g, have := StateOf(h), |StateOf(target).cpus|;
    StacksAlwaysDescend(h);
    LoadOfCapture(g, StateOf(target));
    NothingCapped(g.cpus);
    if have <= |g.cpus| {
      assert StateOf(RestoreFrom(target, h)).cpus == g.cpus;
    }
  }

  // ---- one-CPU delivery ----

  predicate Runs(g: Gic, es: seq<Event>) { g.Valid() && forall k | 0 <= k < |es| :: es[k].cpu < |g.cpus| }

  ghost function Run(g: Gic, es: seq<Event>): (r: Gic)
    requires Runs(g, es)
    ensures r.Valid() && |r.cpus| == |g.cpus|
    decreases |es|
  {
    if es == [] then g
    else
      var p := Run(g, es[..|es| - 1]);
      ApplyFrame(p, es[|es| - 1]);
      Apply(p, es[|es| - 1])
  }

  /** An access that can end the activity of shared INTID `i`. */
  predicate MayDeactivate(e: Event, i: nat) {
    || (e.WritesEoir() && e.Eoid() == i)
    || (e.DistWrite? && InBlock(Align4(e.off), GICD_ICACTIVER, 32) && Names(e, i))
  }

  /** The ICACTIVER write `e` has the bit of INTID `i` set. */
  predicate Names(e: Event, i: nat)
    requires e.DistWrite? && InBlock(Align4(e.off), GICD_ICACTIVER, 32)
  {
    var base := (Align4(e.off) - GICD_ICACTIVER) * 8;
    base <= i < base + 32 && Bit(e.val % U32_SPAN, i - base)
  }

  lemma StepKeepsActive(g: Gic, e: Event, i: nat)
    requires On(g, e.cpu) && PRIVATE <= i < NUM_INTID && g.lines.active[i] && !MayDeactivate(e, i)
    ensures Apply(g, e).lines.Sized(NUM_INTID) && Apply(g, e).lines.active[i]
  {
    ApplyFrame(g, e);
    if e.ReadsIar() {
      BestIsLeast(g, e.cpu);
    } else if e.WritesActive() {
      var o := Align4(e.off);
      var v := e.val % U32_SPAN;
      if InBlock(o, GICD_ISACTIVER, 32) {
        assert Apply(g, e) == BitsSet(g, e.cpu, (o - GICD_ISACTIVER) * 8, 32, v, Active, true);
      } else {
        assert Apply(g, e) == BitsSet(g, e.cpu, (o - GICD_ICACTIVER) * 8, 32, v, Active, false);
      }
    }
  }

  lemma {:induction false} RunKeepsActive(g: Gic, es: seq<Event>, i: nat)
    requires Runs(g, es) && PRIVATE <= i < NUM_INTID && g.lines.active[i]
    requires forall k | 0 <= k < |es| :: !MayDeactivate(es[k], i)
    ensures Run(g, es).lines.active[i]
    decreases |es|
  {
    if es != [] {
      RunKeepsActive(g, es[..|es| - 1], i);
      StepKeepsActive(Run(g, es[..|es| - 1]), es[|es| - 1], i);
    }
  }

  lemma SourceBitsAbove(i: nat, src: nat)
    requires i < 1024
    ensures (i + 1024 * src) % 1024 == i
  {
  }

  lemma IarNamesBest(g: Gic, cpu: nat, i: nat)
    requires On(g, cpu) && i < NUM_INTID
    ensures Iar(g, cpu) % 1024 == i <==> Best(g, cpu) == Some(i)
  {
    BestIsLeast(g, cpu);
    if Best(g, cpu).Some? && Best(g, cpu).value < 16 {
      SourceBitsAbove(Best(g, cpu).value, g.cpus[cpu].sgiSrc[Best(g, cpu).value]);
    }
  }

  /** From the IAR read that returns shared INTID `i` on `cpu` to its deactivation, no CPU's IAR returns it. */
  lemma {:induction false} SharedDeliveredOnce(g: Gic, cpu: nat, i: nat, es: seq<Event>, other: nat)
    requires On(g, cpu) && other < |g.cpus| && PRIVATE <= i < NUM_INTID && Iar(g, cpu) == i
    requires Runs(Ack(g, cpu), es)
    requires forall k | 0 <= k < |es| :: !MayDeactivate(es[k], i)
    ensures On(Run(Ack(g, cpu), es), other)
    ensures Iar(Run(Ack(g, cpu), es), other) % 1024 != i
  {
    AckFrame(g, cpu);
    IarNamesBest(g, cpu, i);
    RunKeepsActive(Ack(g, cpu), es, i);
    var g2 := Run(Ack(g, cpu), es);
    IarNamesBest(g2, other, i);
    BestIsLeast(g2, other);
  }

  // ---- nesting ----

  /** An interrupt some CPU acknowledged and has not yet ended. */
  datatype Held = Held(intid: nat, prio: byte)

  function Prios(s: seq<Held>): (r: seq<byte>)
    ensures |r| == |s|
  {
    seq(|s|, k requires 0 <= k < |s| => s[k].prio)
  }

  /** A driver that ends its own interrupts in reverse order and leaves the active registers alone. */
  predicate Disciplined(held: seq<seq<Held>>, e: Event)
    requires e.cpu < |held|
  {
    && !e.WritesActive()
    && (e.WritesEoir() ==> held[e.cpu] != [] && held[e.cpu][|held[e.cpu]| - 1].intid == e.Eoid())
  }

  ghost function Track(g: Gic, held: seq<seq<Held>>, e: Event): (r: seq<seq<Held>>)
    requires On(g, e.cpu) && |held| == |g.cpus| && Disciplined(held, e)
    ensures |r| == |held|
  {
    BestIsLeast(g, e.cpu);
    var mine := held[e.cpu];
    if e.ReadsIar() && Best(g, e.cpu).Some? then
      held[e.cpu := mine + [Held(Best(g, e.cpu).value, PriorityAt(g, e.cpu, Best(g, e.cpu).value))]]
    else if e.WritesEoir() then held[e.cpu := mine[..|mine| - 1]]
    else held
  }

  predicate HeldActive(g: Gic, held: seq<seq<Held>>)
    requires g.Valid() && |held| == |g.cpus|
  {
    forall c, k | 0 <= c < |held| && 0 <= k < |held[c]| ::
      held[c][k].intid < NUM_INTID && ActiveAt(g, c, held[c][k].intid)
  }

  /** An INTID is held at most once, except that each CPU may hold its own copy of a private one. */
  predicate HeldDistinct(held: seq<seq<Held>>) {
    forall c, k, d, m | 0 <= c < |held| && 0 <= k < |held[c]| && 0 <= d < |held| && 0 <= m < |held[d]|
      && (c != d || k != m) && held[c][k].intid == held[d][m].intid :: c != d && held[c][k].intid < PRIVATE
  }

  predicate StacksFollow(base: Gic, g: Gic, held: seq<seq<Held>>)
    requires |held| == |g.cpus| == |base.cpus|
  {
    forall c | 0 <= c < |held| :: g.cpus[c].running == base.cpus[c].running + Prios(held[c])
  }

  predicate Nested(base: Gic, g: Gic, held: seq<seq<Held>>) {
    && g.Valid() && |held| == |g.cpus| == |base.cpus|
    && HeldActive(g, held) && HeldDistinct(held) && StacksFollow(base, g, held)
  }

  lemma TakenActive(g: Gic, cpu: nat, i: nat)
    requires On(g, cpu) && i < NUM_INTID
    ensures On(Taken(g, cpu, i), cpu) && |Taken(g, cpu, i).cpus| == |g.cpus|
    ensures forall c, j | 0 <= c < |g.cpus| && 0 <= j < NUM_INTID ::
              ActiveAt(Taken(g, cpu, i), c, j) == (ActiveAt(g, c, j) || (j == i && (c == cpu || PRIVATE <= i)))
  {
  }

  lemma TakenDistinct(g: Gic, held: seq<seq<Held>>, cpu: nat, h: Held)
    requires On(g, cpu) && |held| == |g.cpus| && HeldActive(g, held) && HeldDistinct(held)
    requires h.intid < NUM_INTID && !ActiveAt(g, cpu, h.intid)
    ensures HeldDistinct(held[cpu := held[cpu] + [h]])
  {
    forall d, m | 0 <= d < |held| && 0 <= m < |held[d]| && held[d][m].intid == h.intid
      ensures d != cpu && h.intid < PRIVATE
    {
      assert ActiveAt(g, d, held[d][m].intid);
    }
  }

  lemma AckNests(base: Gic, g: Gic, held: seq<seq<Held>>, cpu: nat, i: nat)
    requires Nested(base, g, held) && cpu < |g.cpus| && i < NUM_INTID && !ActiveAt(g, cpu, i)
    ensures Nested(base, Taken(g, cpu, i), held[cpu := held[cpu] + [Held(i, PriorityAt(g, cpu, i))]])
  {
    var h := Held(i, PriorityAt(g, cpu, i));
    var g1, held1 := Taken(g, cpu, i), held[cpu := held[cpu] + [h]];
    TakenActive(g, cpu, i);
    TakenDistinct(g, held, cpu, h);
    assert HeldActive(g1, held1) by {
      forall c, k | 0 <= c < |held1| && 0 <= k < |held1[c]|
        ensures held1[c][k].intid < NUM_INTID && ActiveAt(g1, c, held1[c][k].intid)
      {
        if c != cpu || k < |held[c]| { assert held1[c][k] == held[c][k]; }
      }
    }
    assert Prios(held[cpu] + [h]) == Prios(held[cpu]) + [h.prio];
    assert base.cpus[cpu].running + Prios(held[cpu]) + [h.prio] == base.cpus[cpu].running + Prios(held1[cpu]);
  }

  lemma EoiActive(g: Gic, cpu: nat, i: nat)
    requires On(g, cpu) && i < NUM_INTID
    ensures On(Eoi(g, cpu, i), cpu) && |Eoi(g, cpu, i).cpus| == |g.cpus|
    ensures forall c, j | 0 <= c < |g.cpus| && 0 <= j < NUM_INTID ::
              ActiveAt(Eoi(g, cpu, i), c, j) == (ActiveAt(g, c, j) && !(j == i && (c == cpu || PRIVATE <= i)))
  {
  }

  lemma EoiNests(base: Gic, g: Gic, held: seq<seq<Held>>, cpu: nat, i: nat)
    requires Nested(base, g, held) && cpu < |g.cpus|
    requires held[cpu] != [] && held[cpu][|held[cpu]| - 1].intid == i
    ensures Nested(base, Eoi(g, cpu, i), held[cpu := held[cpu][..|held[cpu]| - 1]])
  {
    var mine, last := held[cpu], |held[cpu]| - 1;
    assert mine[last].intid < NUM_INTID;
    var held1, g1 := held[cpu := mine[..last]], Eoi(g, cpu, i);
    EoiActive(g, cpu, i);
    assert HeldDistinct(held1);
    assert HeldActive(g1, held1) by {
      forall c, k | 0 <= c < |held1| && 0 <= k < |held1[c]|
        ensures held1[c][k].intid < NUM_INTID && ActiveAt(g1, c, held1[c][k].intid)
      {
        assert held1[c][k] == held[c][k];
        assert held[c][k].intid == held[cpu][last].intid ==> c != cpu && i < PRIVATE;
      }
    }
    PriosPop(base.cpus[cpu].running, mine);
  }

  lemma PriosPop(r: seq<byte>, s: seq<Held>)
    requires s != []
    ensures r + Prios(s) != [] && (r + Prios(s))[..|r + Prios(s)| - 1] == r + Prios(s[..|s| - 1])
  {
    assert Prios(s) == Prios(s[..|s| - 1]) + [s[|s| - 1].prio];
  }

  lemma StepNests(base: Gic, g: Gic, held: seq<seq<Held>>, e: Event)
    requires Nested(base, g, held) && e.cpu < |g.cpus| && Disciplined(held, e)
    ensures Nested(base, Apply(g, e), Track(g, held, e))
  {
    ApplyFrame(g, e);
    if e.ReadsIar() {
      BestIsLeast(g, e.cpu);
      if Best(g, e.cpu).Some? { AckNests(base, g, held, e.cpu, Best(g, e.cpu).value); }
    } else if e.WritesEoir() {
      EoiNests(base, g, held, e.cpu, e.Eoid());
    } else {
      var g1 := Apply(g, e);
      assert SameStacks(g, g1) && SameActive(g, g1);
      forall c, k | 0 <= c < |held| && 0 <= k < |held[c]|
        ensures held[c][k].intid < NUM_INTID && ActiveAt(g1, c, held[c][k].intid)
      {
        assert ActiveAt(g, c, held[c][k].intid);
      }
    }
  }

  /** The interrupts held after a run, or None once the driver breaks the discipline. */
  ghost function HeldAfter(g: Gic, es: seq<Event>): (r: Option<seq<seq<Held>>>)
    requires Runs(g, es)
    ensures r.Some? ==> |r.value| == |g.cpus|
    decreases |es|
  {
    if es == [] then Some(seq(|g.cpus|, _ => []))
    else
      var before := HeldAfter(g, es[..|es| - 1]);
      var e := es[|es| - 1];
      if before.Some? && Disciplined(before.value, e)
      then Some(Track(Run(g, es[..|es| - 1]), before.value, e))
      else None
  }

  /** Over every disciplined run, from any state: the held INTIDs are distinct and active, and each CPU's
      running stack is what it was at the start plus the held priorities in acknowledge order. */
  lemma {:induction false} RunNests(g: Gic, es: seq<Event>)
    requires Runs(g, es) && HeldAfter(g, es).Some?
    ensures Nested(g, Run(g, es), HeldAfter(g, es).value)
    decreases |es|
  {
    if es == [] {
      var none: seq<seq<Held>> := seq(|g.cpus|, _ => []);
      forall c | 0 <= c < |g.cpus| ensures g.cpus[c].running == g.cpus[c].running + Prios(none[c]) {
        assert Prios(none[c]) == [];
      }
    } else {
      var front := es[..|es| - 1];
      RunNests(g, front);
      StepNests(g, Run(g, front), HeldAfter(g, front).value, es[|es| - 1]);
    }
  }

  /** A run that ends everything it acknowledged leaves every running stack as it found it. */
  lemma BalancedRunRestores(g: Gic, es: seq<Event>)
    requires Runs(g, es) && HeldAfter(g, es) == Some(seq(|g.cpus|, _ => []))
    ensures SameStacks(g, Run(g, es))
  {
    RunNests(g, es);
    var none := HeldAfter(g, es).value;
    forall c | 0 <= c < |g.cpus| ensures Run(g, es).cpus[c].running == g.cpus[c].running {
      assert none[c] == [];
      assert g.cpus[c].running + [] == g.cpus[c].running;
    }
  }
}

/** The vcpu threads of one VM: the live pause gate and the multi-vcpu snapshot barrier, over all interleavings. */
module Quiesce {
  import opened Words

  /** Where the primary vcpu thread is. Its snapshot branch runs from Captured to Ended. */
  datatype Primary =
    | AtTop                        // top of its loop, about to look at `running`
    | AtGate                       // top of a step, blocked while paused whatever `running` says
    | Running                      // past the gate: delivering frames or executing the guest
    | Captured                     // own registers taken
    | Raised                       // quiesce requested, waiting for the deposits
    | Collected                    // all deposits gathered
    | GicTaken                     // GIC state captured
    | Dumped                       // RAM and registers written
    | Ended                        // left the loop, or gave up

  /** Where a secondary vcpu thread is. */
  datatype Secondary =
    | Top                          // top of its loop
    | SawWant                      // loaded the quiesce request as true
    | Gated                        // loaded it as false; at the pause gate
    | InGuest                      // inside the hypervisor's run call
    | Exited                       // handling an exit against the shared devices
    | Parked                       // deposited, waiting on the condition variable
    | Stopped

  type Regs = int
  type Memory = int
  type Devices = int             // what a snapshot keeps of the UART and virtio devices
  type GicState = int

  datatype Image = Image(primary: Regs, secondaries: seq<Regs>, ram: Memory, devs: Devices, gic: GicState)

  /** Everything the guest's execution can change, the GIC aside. */
  datatype Guest = Guest(primary: Regs, secondaries: seq<Regs>, ram: Memory, devs: Devices)

  datatype State = State(
    primary: Primary,
    pc: seq<Secondary>,            // one per secondary
    primaryRegs: Regs,
    regs: seq<Regs>,
    ram: Memory,
    devs: Devices,
    gic: GicState,
    running: bool,
    reader: bool,                  // the control channel is still being read
    paused: bool,
    want: bool,
    seen: seq<bool>,               // a thread that has loaded `want` as true never loads false again
    saved: Regs,                   // the primary's capture
    slots: seq<Option<Regs>>,      // the deposits
    gathered: seq<Regs>,
    savedGic: GicState,            // the primary's capture
    raised: bool,                  // a host thread has set an interrupt line since
    image: Option<Image>)

  datatype Action =
    | SetPaused(on: bool)            // a command on the control channel
    | HostStops                      // end of file on it
    | ReaderLeaves
    | PrimaryLoops
    | PrimaryPasses
    | HostRaises(newGic: GicState)   // console input or the control channel sets an interrupt line
    | PrimaryExecutes(newRegs: Regs, newRam: Memory, newDevs: Devices, newGic: GicState)
    | PrimaryReturns
    | PrimaryCaptures
    | PrimaryRaises
    | PrimaryCollects
    | PrimaryTakesGic
    | PrimaryTimesOut
    | PrimaryDumps
    | PrimaryEnds
    | Stops(i: nat)
    | LoadsWant(i: nat, value: bool)
    | Deposits(i: nat)
    | CaptureFails(i: nat)
    | Wakes(i: nat)
    | PassesGate(i: nat)
    | Executes(i: nat, newRegs: Regs, newRam: Memory, newGic: GicState)
    | Exits(i: nat)
    | Services(i: nat, newRegs: Regs, newRam: Memory, newDevs: Devices, newGic: GicState, shutdown: bool)

  predicate WellSized(s: State) { |s.pc| == |s.regs| == |s.seen| == |s.slots| }

  predicate AllDeposited(s: State) { forall i | 0 <= i < |s.slots| :: s.slots[i].Some? }

  predicate At(s: State, i: nat, pc: Secondary)
    requires WellSized(s)
  {
    i < |s.pc| && s.pc[i] == pc
  }

  predicate Can(s: State, a: Action)
    requires WellSized(s)
  {
    match a
    case SetPaused(_) => s.reader
    case HostStops => s.reader
    case ReaderLeaves => true
    case PrimaryLoops => s.primary == AtTop
    case PrimaryPasses => s.primary == AtGate && !s.paused
    case HostRaises(_) => true
    case PrimaryExecutes(_, _, _, _) => s.primary == Running
    case PrimaryReturns => s.primary == Running
    case PrimaryCaptures => s.primary == Running
    case PrimaryRaises => s.primary == Captured
    case PrimaryCollects => s.primary == Raised && AllDeposited(s)
    case PrimaryTimesOut => s.primary == Raised && !AllDeposited(s)
    case PrimaryTakesGic => s.primary == Collected
    case PrimaryDumps => s.primary == GicTaken
    case PrimaryEnds => s.primary in {Running, Collected, GicTaken, Dumped} || (s.primary == AtTop && !s.running)
    case Stops(i) => At(s, i, Top) && !s.running
    case LoadsWant(i, v) => At(s, i, Top) && (v ==> s.want) && (s.seen[i] ==> v)
    case Deposits(i) => At(s, i, SawWant)
    case CaptureFails(i) => At(s, i, SawWant) && s.slots[i] == None
    case Wakes(i) => At(s, i, Parked)
    case PassesGate(i) => At(s, i, Gated) && (!s.paused || !s.running)
    case Executes(i, _, _, _) => At(s, i, InGuest)
    case Exits(i) => At(s, i, InGuest)
    case Services(i, _, _, _, _, _) => At(s, i, Exited)
  }

  function Do(s: State, a: Action): (t: State)
    requires WellSized(s) && Can(s, a)
    ensures WellSized(t) && |t.pc| == |s.pc|
  {
    match a
    case SetPaused(on) => s.(paused := on)
    case HostStops => s.(running := false, reader := false)
    case ReaderLeaves => s.(reader := false)
    case PrimaryLoops => s.(primary := AtGate)
    case PrimaryPasses => s.(primary := Running)
    case HostRaises(g) => s.(gic := g, raised := true)
    case PrimaryExecutes(r, m, d, g) => s.(primaryRegs := r, ram := m, devs := d, gic := g)
    case PrimaryReturns => s.(primary := AtTop)
    case PrimaryCaptures => s.(primary := Captured, saved := s.primaryRegs)
    case PrimaryRaises => s.(primary := Raised, want := true)
    case PrimaryCollects =>
      s.(primary := Collected,
         gathered := seq(|s.slots|, i requires 0 <= i < |s.slots| && AllDeposited(s) => s.slots[i].value))
    case PrimaryTimesOut => s.(primary := Ended, running := false)
    case PrimaryTakesGic => s.(primary := GicTaken, savedGic := s.gic, raised := false)
    case PrimaryDumps => s.(primary := Dumped, image := Some(Image(s.saved, s.gathered, s.ram, s.devs, s.savedGic)))
    case PrimaryEnds => s.(primary := Ended, running := false)
    case Stops(i) => s.(pc := s.pc[i := Stopped])
    case LoadsWant(i, v) => s.(pc := s.pc[i := if v then SawWant else Gated], seen := s.seen[i := v])
    case Deposits(i) =>
      s.(pc := s.pc[i := Parked], slots := if s.slots[i] == None then s.slots[i := Some(s.regs[i])] else s.slots)
    case CaptureFails(i) => s.(pc := s.pc[i := Top], running := false)
    case Wakes(i) => s.(pc := s.pc[i := Top])
    case PassesGate(i) => s.(pc := s.pc[i := InGuest])
    case Executes(i, r, m, g) => s.(regs := s.regs[i := r], ram := m, gic := g)
    case Exits(i) => s.(pc := s.pc[i := Exited])
    case Services(i, r, m, d, g, shutdown) =>
      s.(pc := s.pc[i := Top], regs := s.regs[i := r], ram := m, devs := d, gic := g, running := s.running && !shutdown)
  }

  /** A VM before any thread has moved. */
  function Boot(g: Guest, gic: GicState): (s: State)
    ensures WellSized(s) && |s.pc| == |g.secondaries| && Live(s) == g
  {
    var n := |g.secondaries|;
    State(AtTop, seq(n, _ => Top), g.primary, g.secondaries, g.ram, g.devs, gic, true, true, false, false,
          seq(n, _ => false), 0, seq(n, _ => None), [], 0, false, None)
  }

  function Live(s: State): Guest { Guest(s.primaryRegs, s.regs, s.ram, s.devs) }

  // ---- the invariant ----

  predicate InSnapshot(s: State) { s.primary in {Captured, Raised, Collected, GicTaken, Dumped} }

  /** A secondary that has deposited is out of the guest for good, and its deposit is its live registers. */
  predicate DepositsLive(s: State)
    requires WellSized(s)
  {
    forall i | 0 <= i < |s.slots| && s.slots[i].Some? ::
      s.seen[i] && s.pc[i] in {Top, SawWant, Parked, Stopped} && s.slots[i].value == s.regs[i]
  }

  predicate WantSeen(s: State)
    requires WellSized(s)
  {
    && (forall i | 0 <= i < |s.seen| && s.seen[i] :: s.want)
    && (forall i | 0 <= i < |s.pc| && s.pc[i] in {SawWant, Parked} :: s.seen[i])
    && (s.want ==> s.primary in {Raised, Collected, GicTaken, Dumped, Ended})
  }

  predicate Coherent(s: State) {
    && WellSized(s) && DepositsLive(s) && WantSeen(s)
    && (InSnapshot(s) ==> s.saved == s.primaryRegs)
    && (s.primary in {Collected, GicTaken, Dumped} ==> AllDeposited(s) && s.gathered == s.regs)
    && (s.primary == GicTaken && !s.raised ==> s.savedGic == s.gic)
    && (s.image.Some? ==> AllDeposited(s) && s.primary in {Dumped, Ended}
                          && s.image.value == Image(s.primaryRegs, s.regs, s.ram, s.devs, s.savedGic)
                          && (!s.raised ==> s.savedGic == s.gic))
  }

  lemma SecondaryKeeps(s: State, a: Action)
    requires Coherent(s) && Can(s, a) && OfSecondary(a)
    ensures Coherent(Do(s, a))
  {
    if InGuestOf(a) { GuestDeposits(s, a); }
    SecondaryDeposits(s, a);
    SecondaryWants(s, a);
  }

  predicate OfSecondary(a: Action) {
    a.Stops? || a.LoadsWant? || a.Deposits? || a.CaptureFails? || a.Wakes? || a.PassesGate? || a.Executes? || a.Exits?
    || a.Services?
  }

  lemma SecondaryDeposits(s: State, a: Action)
    requires Coherent(s) && Can(s, a) && OfSecondary(a)
    ensures DepositsLive(Do(s, a)) && (AllDeposited(s) ==> AllDeposited(Do(s, a)))
  {
    if InGuestOf(a) { GuestDeposits(s, a); }
  }

  predicate InGuestOf(a: Action) { a.PassesGate? || a.Executes? || a.Exits? || a.Services? }

  /** A secondary that enters, runs or leaves the guest has not deposited. */
  lemma NotDeposited(s: State, a: Action)
    requires WellSized(s) && DepositsLive(s) && Can(s, a) && InGuestOf(a)
    ensures a.i < |s.slots| && s.slots[a.i] == None && !AllDeposited(s)
  {
    assert s.pc[a.i] !in {Top, SawWant, Parked, Stopped};
  }

  lemma GuestDeposits(s: State, a: Action)
    requires WellSized(s) && DepositsLive(s) && Can(s, a) && InGuestOf(a)
    ensures !AllDeposited(s) && DepositsLive(Do(s, a))
  {
    NotDeposited(s, a);
  }

  lemma SecondaryWants(s: State, a: Action)
    requires Coherent(s) && Can(s, a) && OfSecondary(a)
    ensures WantSeen(Do(s, a))
  {
  }

  lemma SnapshotKeeps(s: State, a: Action)
    requires Coherent(s) && Can(s, a)
    requires a.PrimaryCaptures? || a.PrimaryRaises? || a.PrimaryCollects? || a.PrimaryTakesGic? || a.PrimaryTimesOut?
             || a.PrimaryDumps?
    ensures Coherent(Do(s, a))
  {
    if a.PrimaryCollects? { assert Do(s, a).gathered == s.regs; }
  }

  lemma OtherKeeps(s: State, a: Action)
    requires Coherent(s) && Can(s, a)
    requires a.SetPaused? || a.HostStops? || a.ReaderLeaves? || a.HostRaises? || a.PrimaryLoops? || a.PrimaryPasses?
             || a.PrimaryExecutes? || a.PrimaryReturns? || a.PrimaryEnds?
    ensures Coherent(Do(s, a))
  {
  }

  /** Every action of every thread keeps the invariant, a stop by the host at any moment included. */
  lemma StepKeeps(s: State, a: Action)
    requires Coherent(s) && Can(s, a)
    ensures Coherent(Do(s, a))
  {
    if OfSecondary(a) {
      SecondaryKeeps(s, a);
    } else if a.PrimaryCaptures? || a.PrimaryRaises? || a.PrimaryCollects? || a.PrimaryTakesGic? || a.PrimaryTimesOut?
              || a.PrimaryDumps? {
      SnapshotKeeps(s, a);
    } else {
      OtherKeeps(s, a);
    }
  }

  // ---- runs ----

  function After(s: State, acts: seq<Action>): (r: Option<State>)
    requires WellSized(s)
    ensures r.Some? ==> WellSized(r.value) && |r.value.pc| == |s.pc|
    decreases |acts|
  {
    if acts == [] then Some(s)
    else
      var p := After(s, acts[..|acts| - 1]);
      if p.Some? && Can(p.value, acts[|acts| - 1]) then Some(Do(p.value, acts[|acts| - 1])) else None
  }

  lemma {:induction false} RunKeeps(s: State, acts: seq<Action>)
    requires Coherent(s) && After(s, acts).Some?
    ensures Coherent(After(s, acts).value)
    decreases |acts|
  {
    if acts != [] {
      RunKeeps(s, acts[..|acts| - 1]);
      StepKeeps(After(s, acts[..|acts| - 1]).value, acts[|acts| - 1]);
    }
  }

  lemma BootCoherent(g: Guest, gic: GicState)
    ensures Coherent(Boot(g, gic))
  {
  }

  /** Whatever the interleaving: once the primary has the deposits, no secondary is in the guest or in a device, and the
      registers it holds are the live ones; the image written is the live registers, RAM and devices, and the GIC as it
      still is unless a host thread has set an interrupt line since it was captured. */
  lemma {:induction false} BarrierSafe(g: Guest, gic: GicState, acts: seq<Action>)
    requires After(Boot(g, gic), acts).Some?
    ensures var s := After(Boot(g, gic), acts).value;
            && (s.primary in {Collected, GicTaken, Dumped} ==>
                  && s.saved == s.primaryRegs && s.gathered == s.regs
                  && forall i | 0 <= i < |s.pc| :: s.pc[i] !in {Gated, InGuest, Exited})
            && (s.image.Some? ==>
                  && s.image.value == Image(s.primaryRegs, s.regs, s.ram, s.devs, s.savedGic)
                  && (!s.raised ==> s.image.value.gic == s.gic))
  {
    BootCoherent(g, gic);
    RunKeeps(Boot(g, gic), acts);
  }

  /** Every secondary has deposited and the primary is in its snapshot branch. */
  predicate Frozen(s: State) {
    Coherent(s) && AllDeposited(s) && s.primary in {Raised, Collected, GicTaken, Dumped, Ended} && s.want
  }

  lemma FrozenLive(s: State, a: Action)
    requires Frozen(s) && Can(s, a)
    ensures Live(Do(s, a)) == Live(s) && (!a.HostRaises? ==> Do(s, a).gic == s.gic) && !InGuestOf(a)
  {
    if InGuestOf(a) { NotDeposited(s, a); }
  }

  lemma FrozenDeposits(s: State, a: Action)
    requires Frozen(s) && Can(s, a)
    ensures AllDeposited(Do(s, a))
  {
    if OfSecondary(a) { SecondaryDeposits(s, a); }
  }

  lemma FrozenStep(s: State, a: Action)
    requires Frozen(s) && Can(s, a)
    ensures Frozen(Do(s, a))
    ensures Live(Do(s, a)) == Live(s) && (!a.HostRaises? ==> Do(s, a).gic == s.gic)
  {
    FrozenLive(s, a);
    FrozenDeposits(s, a);
    StepKeeps(s, a);
  }

  /** From the last deposit on, no guest instruction and no device access runs: registers, RAM and devices stay as they
      were, so that is what the image holds if it is written later. Only host threads still reach the GIC. */
  lemma {:induction false} FrozenUntilDump(s: State, acts: seq<Action>)
    requires Frozen(s) && After(s, acts).Some?
    ensures var t := After(s, acts).value;
            && Frozen(t) && Live(t) == Live(s)
            && (t.image.Some? ==> t.image.value == Image(s.primaryRegs, s.regs, s.ram, s.devs, t.image.value.gic))
            && ((forall k | 0 <= k < |acts| :: !acts[k].HostRaises?) ==> t.gic == s.gic)
    decreases |acts|
  {
    if acts != [] {
      assert forall k | 0 <= k < |acts| - 1 :: acts[..|acts| - 1][k] == acts[k];
      FrozenUntilDump(s, acts[..|acts| - 1]);
      FrozenStep(After(s, acts[..|acts| - 1]).value, acts[|acts| - 1]);
    }
  }

  /** The last deposit freezes the machine if the primary is still waiting for it. */
  lemma LastDepositFreezes(s: State, i: nat)
    requires Coherent(s) && s.primary == Raised && Can(s, Deposits(i))
    requires forall j | 0 <= j < |s.slots| && j != i :: s.slots[j].Some?
    ensures Frozen(Do(s, Deposits(i)))
  {
    StepKeeps(s, Deposits(i));
  }

  // ---- the pause gate ----

  /** Paused, and no vcpu is past its gate. */
  predicate Quiet(s: State) {
    && WellSized(s) && s.paused && s.running && s.primary != Running
    && forall i | 0 <= i < |s.pc| :: s.pc[i] !in {InGuest, Exited}
  }

  predicate Resumes(s: State, a: Action)
    requires WellSized(s) && Can(s, a)
  {
    (a.SetPaused? && !a.on) || !Do(s, a).running
  }

  lemma QuietStep(s: State, a: Action)
    requires Quiet(s) && Can(s, a) && !Resumes(s, a)
    ensures Quiet(Do(s, a))
    ensures Live(Do(s, a)) == Live(s) && (!a.HostRaises? ==> Do(s, a).gic == s.gic)
  {
  }

  predicate StaysPaused(s: State, acts: seq<Action>)
    requires WellSized(s)
    decreases |acts|
  {
    acts != [] ==>
      && StaysPaused(s, acts[..|acts| - 1])
      && var p := After(s, acts[..|acts| - 1]);
         p.Some? && Can(p.value, acts[|acts| - 1]) && !Resumes(p.value, acts[|acts| - 1])
  }

  /** Once every vcpu is at its gate, a pause holds registers, RAM and devices still until a resume or a stop. */
  lemma {:induction false} PauseHolds(s: State, acts: seq<Action>)
    requires Quiet(s) && StaysPaused(s, acts)
    ensures After(s, acts).Some? && Quiet(After(s, acts).value)
    ensures Live(After(s, acts).value) == Live(s)
    decreases |acts|
  {
    if acts != [] {
      PauseHolds(s, acts[..|acts| - 1]);
      QuietStep(After(s, acts[..|acts| - 1]).value, acts[|acts| - 1]);
    }
  }

  /** A stop opens the gate of the secondaries even while paused, so the pause guarantee ends there. */
  lemma StopOpensGate(s: State, i: nat, r: Regs, m: Memory, g: GicState)
    requires WellSized(s) && s.paused && !s.running && At(s, i, Gated)
    ensures Can(s, PassesGate(i)) && Can(Do(s, PassesGate(i)), Executes(i, r, m, g))
    ensures Do(Do(s, PassesGate(i)), Executes(i, r, m, g)).ram == m
  {
  }

  /** One more action of a run. */
  lemma TookMore(b: State, acts: seq<Action>, s: State, a: Action)
    requires WellSized(b) && After(b, acts) == Some(s) && Can(s, a)
    ensures After(b, acts + [a]) == Some(Do(s, a))
  {
    assert (acts + [a])[..|acts|] == acts;
  }

  /** From boot: a paused VM with both vcpus at their gates, where the pause guarantee starts. */
  lemma QuietReached(g: Guest, gic: GicState) returns (acts: seq<Action>, s: State)
    requires |g.secondaries| == 1
    ensures After(Boot(g, gic), acts) == Some(s) && Quiet(s) && s.reader && Live(s) == g
    ensures s.primary == AtGate && s.pc == [Gated]
  {
    var b := Boot(g, gic);
    TookMore(b, [], b, SetPaused(true));
    acts, s := [] + [SetPaused(true)], Do(b, SetPaused(true));
    TookMore(b, acts, s, PrimaryLoops);
    acts, s := acts + [PrimaryLoops], Do(s, PrimaryLoops);
    TookMore(b, acts, s, LoadsWant(0, false));
    acts, s := acts + [LoadsWant(0, false)], Do(s, LoadsWant(0, false));
  }

  /** From boot: if the host stops a paused VM, a secondary at its gate runs the guest once more, with any effect on
      RAM. */
  lemma PausedGuestRuns(g: Guest, gic: GicState, r: Regs, m: Memory) returns (acts: seq<Action>)
    requires |g.secondaries| == 1
    ensures After(Boot(g, gic), acts).Some?
    ensures After(Boot(g, gic), acts).value.paused && After(Boot(g, gic), acts).value.ram == m
  {
    var b, s := Boot(g, gic), Boot(g, gic);
    acts, s := QuietReached(g, gic);
    TookMore(b, acts, s, HostStops);
    acts, s := acts + [HostStops], Do(s, HostStops);
    StopOpensGate(s, 0, r, m, gic);
    TookMore(b, acts, s, PassesGate(0));
    acts, s := acts + [PassesGate(0)], Do(s, PassesGate(0));
    TookMore(b, acts, s, Executes(0, r, m, gic));
    acts := acts + [Executes(0, r, m, gic)];
  }

  // ---- a stop while paused ----

  /** The primary waits at its gate and nobody is left to resume it. */
  predicate Stranded(s: State) { s.primary == AtGate && s.paused && !s.reader }

  lemma StrandedStep(s: State, a: Action)
    requires WellSized(s) && Stranded(s) && Can(s, a)
    ensures Stranded(Do(s, a))
  {
  }

  /** Whatever the other threads do. */
  lemma {:induction false} StrandedForever(s: State, acts: seq<Action>)
    requires WellSized(s) && Stranded(s) && After(s, acts).Some?
    ensures Stranded(After(s, acts).value)
    decreases |acts|
  {
    if acts != [] {
      StrandedForever(s, acts[..|acts| - 1]);
      StrandedStep(After(s, acts[..|acts| - 1]).value, acts[|acts| - 1]);
    }
  }

  /** Some run from `s` ends the primary's loop. */
  ghost predicate CanEnd(s: State)
    requires WellSized(s)
  {
    exists acts :: After(s, acts).Some? && After(s, acts).value.primary == Ended
  }

  lemma EndsBy(s: State, a: Action)
    requires WellSized(s) && Can(s, a) && CanEnd(Do(s, a))
    ensures CanEnd(s)
  {
    var acts :| After(Do(s, a), acts).Some? && After(Do(s, a), acts).value.primary == Ended;
    TookFirst(s, a, acts);
    assert After(s, [a] + acts).value.primary == Ended;
  }

  lemma {:induction false} TookFirst(s: State, a: Action, acts: seq<Action>)
    requires WellSized(s) && Can(s, a)
    ensures After(s, [a] + acts) == After(Do(s, a), acts)
    decreases |acts|
  {
    var all := [a] + acts;
    if acts == [] {
      assert all[..0] == [];
    } else {
      TookFirst(s, a, acts[..|acts| - 1]);
      assert all[..|all| - 1] == [a] + acts[..|acts| - 1];
    }
  }

  lemma EndedEnds(s: State)
    requires WellSized(s) && s.primary == Ended
    ensures CanEnd(s)
  {
    assert After(s, []) == Some(s);
  }

  /** From inside the snapshot branch the primary can always end. */
  lemma SnapshotEnds(s: State)
    requires WellSized(s) && s.primary in {Captured, Raised, Collected, GicTaken, Dumped}
    ensures CanEnd(s)
    decreases if s.primary == Captured then 2 else if s.primary == Raised then 1 else 0
  {
    if s.primary == Captured {
      SnapshotEnds(Do(s, PrimaryRaises));
      EndsBy(s, PrimaryRaises);
    } else if s.primary == Raised && AllDeposited(s) {
      SnapshotEnds(Do(s, PrimaryCollects));
      EndsBy(s, PrimaryCollects);
    } else {
      var a := if s.primary == Raised then PrimaryTimesOut else PrimaryEnds;
      EndedEnds(Do(s, a));
      EndsBy(s, a);
    }
  }

  /** Once the VM is stopped and the control channel is closed, the primary's loop can end if and only if the primary is
      not waiting at its gate in a pause: there it waits for a resume that can no longer come. */
  lemma StopUnwindsIff(s: State)
    requires WellSized(s) && !s.running && !s.reader
    ensures CanEnd(s) <==> !Stranded(s)
  {
    if Stranded(s) {
      forall acts | After(s, acts).Some? ensures After(s, acts).value.primary != Ended { StrandedForever(s, acts); }
    } else if s.primary == Ended {
      EndedEnds(s);
    } else if s.primary == AtGate {
      EndedEnds(Do(Do(s, PrimaryPasses), PrimaryEnds));
      EndsBy(Do(s, PrimaryPasses), PrimaryEnds);
      EndsBy(s, PrimaryPasses);
    } else if s.primary in {AtTop, Running} {
      EndedEnds(Do(s, PrimaryEnds));
      EndsBy(s, PrimaryEnds);
    } else {
      SnapshotEnds(s);
    }
  }

  /** From boot: a paused VM whose control channel closes is stopped and never ends. */
  lemma StoppedNeverEnds(g: Guest, gic: GicState) returns (acts: seq<Action>, s: State)
    requires |g.secondaries| == 1
    ensures After(Boot(g, gic), acts) == Some(s) && WellSized(s) && !s.running && !CanEnd(s)
  {
    acts, s := QuietReached(g, gic);
    TookMore(Boot(g, gic), acts, s, HostStops);
    acts, s := acts + [HostStops], Do(s, HostStops);
    StopUnwindsIff(s);
  }

  // ---- a snapshot can be taken ----

  /** The quiesce request is out; the first `n` secondaries have deposited and the others are about to look. */
  predicate Depositing(s: State, g: Guest, gic: GicState, n: nat) {
    && WellSized(s) && |s.pc| == |g.secondaries| && n <= |s.pc|
    && s.primary == Raised && s.want && s.saved == g.primary && Live(s) == g && s.gic == gic && s.image == None
    && (forall i | 0 <= i < n :: s.slots[i] == Some(g.secondaries[i]))
    && (forall i | n <= i < |s.pc| :: s.slots[i] == None && s.pc[i] == Top)
  }

  lemma RequestReached(g: Guest, gic: GicState) returns (acts: seq<Action>, s: State)
    ensures After(Boot(g, gic), acts) == Some(s) && Depositing(s, g, gic, 0)
  {
    var b := Boot(g, gic);
    TookMore(b, [], b, PrimaryLoops);
    acts, s := [] + [PrimaryLoops], Do(b, PrimaryLoops);
    TookMore(b, acts, s, PrimaryPasses);
    acts, s := acts + [PrimaryPasses], Do(s, PrimaryPasses);
    TookMore(b, acts, s, PrimaryCaptures);
    acts, s := acts + [PrimaryCaptures], Do(s, PrimaryCaptures);
    TookMore(b, acts, s, PrimaryRaises);
    acts, s := acts + [PrimaryRaises], Do(s, PrimaryRaises);
  }

  /** The next secondary sees the request and deposits. */
  lemma DepositMore(s: State, g: Guest, gic: GicState, n: nat)
    requires Depositing(s, g, gic, n) && n < |s.pc|
    ensures Can(s, LoadsWant(n, true)) && Can(Do(s, LoadsWant(n, true)), Deposits(n))
    ensures Depositing(Do(Do(s, LoadsWant(n, true)), Deposits(n)), g, gic, n + 1)
  {
  }

  lemma {:induction false} AllDeposit(g: Guest, gic: GicState, n: nat) returns (acts: seq<Action>, s: State)
    requires n <= |g.secondaries|
    ensures After(Boot(g, gic), acts) == Some(s) && Depositing(s, g, gic, n)
    decreases n
  {
    if n == 0 {
      acts, s := RequestReached(g, gic);
    } else {
      acts, s := AllDeposit(g, gic, n - 1);
      DepositMore(s, g, gic, n - 1);
      TookMore(Boot(g, gic), acts, s, LoadsWant(n - 1, true));
      acts, s := acts + [LoadsWant(n - 1, true)], Do(s, LoadsWant(n - 1, true));
      TookMore(Boot(g, gic), acts, s, Deposits(n - 1));
      acts, s := acts + [Deposits(n - 1)], Do(s, Deposits(n - 1));
    }
  }

  /** From boot, with any number of vcpus, the primary reaches the point where it has all registers and the GIC. */
  lemma CaptureReached(g: Guest, gic: GicState) returns (acts: seq<Action>, s: State)
    ensures After(Boot(g, gic), acts) == Some(s) && WellSized(s) && s.primary == GicTaken && s.savedGic == gic == s.gic
    ensures s.saved == g.primary && s.gathered == g.secondaries && Live(s) == g
  {
    var b := Boot(g, gic);
    acts, s := AllDeposit(g, gic, |g.secondaries|);
    TookMore(b, acts, s, PrimaryCollects);
    acts, s := acts + [PrimaryCollects], Do(s, PrimaryCollects);
    TookMore(b, acts, s, PrimaryTakesGic);
    acts, s := acts + [PrimaryTakesGic], Do(s, PrimaryTakesGic);
  }

  /** So the barrier does let a snapshot through: for any number of vcpus some run from boot writes the whole
      machine. */
  lemma SnapshotTaken(g: Guest, gic: GicState) returns (acts: seq<Action>)
    ensures After(Boot(g, gic), acts).Some?
    ensures After(Boot(g, gic), acts).value.image == Some(Image(g.primary, g.secondaries, g.ram, g.devs, gic))
  {
    var s;
    acts, s := CaptureReached(g, gic);
    TookMore(Boot(g, gic), acts, s, PrimaryDumps);
    acts := acts + [PrimaryDumps];
  }

  /** From boot: an interrupt line that a host thread sets after the GIC was captured is in the live GIC and not in the
      image. */
  lemma LateInputMissed(g: Guest, gic: GicState, late: GicState) returns (acts: seq<Action>)
    requires late != gic
    ensures After(Boot(g, gic), acts).Some? && After(Boot(g, gic), acts).value.image.Some?
    ensures var s := After(Boot(g, gic), acts).value; s.gic == late && s.image.value.gic == gic
  {
    var s;
    acts, s := CaptureReached(g, gic);
    TookMore(Boot(g, gic), acts, s, HostRaises(late));
    TookMore(Boot(g, gic), acts + [HostRaises(late)], Do(s, HostRaises(late)), PrimaryDumps);
    acts := acts + [HostRaises(late)] + [PrimaryDumps];
  }

  // ---- a stop reaches every thread ----

  /** Once stopped, a VM stays stopped; a failed capture and a guest shutdown stop it. */
  lemma StopStays(s: State, a: Action)
    requires WellSized(s) && Can(s, a)
    ensures !s.running || a.CaptureFails? || (a.Services? && a.shutdown) ==> !Do(s, a).running
  {
  }

  /** Over every run: once the primary has left its loop the VM is stopped. */
  lemma {:induction false} EndStops(g: Guest, gic: GicState, acts: seq<Action>)
    requires After(Boot(g, gic), acts).Some?
    ensures After(Boot(g, gic), acts).value.primary == Ended ==> !After(Boot(g, gic), acts).value.running
    decreases |acts|
  {
    if acts != [] {
      EndStops(g, gic, acts[..|acts| - 1]);
      var s, a := After(Boot(g, gic), acts[..|acts| - 1]).value, acts[|acts| - 1];
      if s.primary == Ended { StopStays(s, a); }
    }
  }

  ghost predicate CanStop(s: State, i: nat)
    requires WellSized(s)
  {
    exists acts :: After(s, acts).Some? && At(After(s, acts).value, i, Stopped)
  }

  lemma StopsBy(s: State, i: nat, a: Action)
    requires WellSized(s) && Can(s, a) && CanStop(Do(s, a), i)
    ensures CanStop(s, i)
  {
    var acts :| After(Do(s, a), acts).Some? && At(After(Do(s, a), acts).value, i, Stopped);
    TookFirst(s, a, acts);
    assert At(After(s, [a] + acts).value, i, Stopped);
  }

  function Away(pc: Secondary): nat {
    match pc
    case Stopped => 0
    case Top => 1
    case Parked => 2
    case Exited => 2
    case SawWant => 3
    case InGuest => 3
    case Gated => 4
  }

  /** What a secondary does next on its way out of a stopped VM. */
  function WayOut(s: State, i: nat): Action
    requires WellSized(s) && i < |s.pc| && s.pc[i] != Stopped
  {
    match s.pc[i]
    case Top => Stops(i)
    case Parked => Wakes(i)
    case Exited => Services(i, s.regs[i], s.ram, s.devs, s.gic, false)
    case SawWant => Deposits(i)
    case InGuest => Exits(i)
    case Gated => PassesGate(i)
    case Stopped => Stops(i)
  }

  lemma WayOutLeads(s: State, i: nat)
    requires WellSized(s) && i < |s.pc| && s.pc[i] != Stopped && !s.running
    ensures Can(s, WayOut(s, i)) && !Do(s, WayOut(s, i)).running
    ensures Away(Do(s, WayOut(s, i)).pc[i]) < Away(s.pc[i])
  {
  }

  /** From every state of a stopped VM, wherever a secondary is and whether or not it is paused, its thread can
      leave. */
  lemma {:induction false} StopReaches(s: State, i: nat)
    requires WellSized(s) && i < |s.pc| && !s.running
    ensures CanStop(s, i)
    decreases Away(s.pc[i])
  {
    if s.pc[i] == Stopped {
      assert At(After(s, []).value, i, Stopped);
    } else {
      WayOutLeads(s, i);
      StopReaches(Do(s, WayOut(s, i)), i);
      StopsBy(s, i, WayOut(s, i));
    }
  }
}

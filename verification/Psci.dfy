/** PSCI CPU_ON (Arm DEN0022, section 5.6): bringing up secondary vcpus from a fresh boot, over all interleavings. */
module Psci {
  import opened Words

  const SUCCESS: int := 0
  const INVALID_PARAMETERS: int := -2
  const ALREADY_ON: int := -4

  datatype CpuOn = Off | Posted(entry: u64, ctx: u64) | On

  datatype Start = Start(entry: u64, ctx: u64)

  /** Shared slots; the start each vcpu took from its slot, once it has; and which vcpus are running. */
  datatype Machine = Machine(slots: seq<CpuOn>, taken: seq<Option<Start>>, started: seq<bool>)

  datatype Event =
    | CpuOnCall(caller: nat, target: u64, entry: u64, ctx: u64)   // HVC by a running vcpu
    | TakePosted(cpu: nat)                                        // a parked thread finds its slot posted
    | Begin(cpu: nat)                                             // it has set its registers and starts

  /** A boot with `n` vcpus: only vcpu 0 is on. */
  function FreshBoot(n: nat): Machine
    requires n >= 1
  {
    Machine(seq(n, i => if i == 0 then On else Off), seq(n, _ => None), seq(n, i => i == 0))
  }

  predicate Sized(m: Machine) { |m.slots| == |m.taken| == |m.started| }

  predicate Enabled(m: Machine, e: Event)
    requires Sized(m)
  {
    match e
    case CpuOnCall(c, _, _, _) => c < |m.slots| && m.started[c]
    case TakePosted(c) => c < |m.slots| && !m.started[c] && m.slots[c].Posted?
    case Begin(c) => c < |m.slots| && !m.started[c] && m.taken[c].Some?
  }

  /** The low byte of the MPIDR names the target. */
  function Target(affinity: u64): nat { affinity % 256 }

  function Next(m: Machine, e: Event): (r: Machine)
    requires Sized(m) && Enabled(m, e)
    ensures Sized(r) && |r.slots| == |m.slots|
  {
    match e
    case CpuOnCall(_, a, entry, ctx) =>
      if Target(a) < |m.slots| && m.slots[Target(a)] == Off
      then m.(slots := m.slots[Target(a) := Posted(entry, ctx)]) else m
    case TakePosted(c) =>
      m.(slots := m.slots[c := On], taken := m.taken[c := Some(Start(m.slots[c].entry, m.slots[c].ctx))])
    case Begin(c) => m.(started := m.started[c := true])
  }

  /** What CPU_ON returns to its caller. */
  function Return(m: Machine, e: Event): int
    requires Sized(m) && e.CpuOnCall?
  {
    var t := Target(e.target);
    if t >= |m.slots| then INVALID_PARAMETERS else if m.slots[t] == Off then SUCCESS else ALREADY_ON
  }

  /** What AFFINITY_INFO reports: 0 for on or coming up, 1 otherwise. */
  function AffinityInfo(m: Machine, affinity: u64): int {
    if Target(affinity) < |m.slots| && m.slots[Target(affinity)] != Off then 0 else 1
  }

  function After(n: nat, es: seq<Event>): (r: Option<Machine>)
    requires n >= 1
    ensures r.Some? ==> Sized(r.value) && |r.value.slots| == n
    decreases |es|
  {
    if es == [] then Some(FreshBoot(n))
    else
      var p := After(n, es[..|es| - 1]);
      if p.Some? && Enabled(p.value, es[|es| - 1]) then Some(Next(p.value, es[|es| - 1])) else None
  }

  /** The CPU_ON calls whose affinity has the low byte `t`, in order. */
  function Calls(es: seq<Event>, t: nat): seq<Start> {
    if es == [] then []
    else
      var e := es[|es| - 1];
      Calls(es[..|es| - 1], t) + if e.CpuOnCall? && e.target % 256 == t then [Start(e.entry, e.ctx)] else []
  }

  /** The history of calls to secondary `t` determines its slot, what it takes, and how it starts. */
  predicate Follows(m: Machine, t: nat, calls: seq<Start>)
    requires Sized(m) && t < |m.slots|
  {
    if calls == [] then m.slots[t] == Off && m.taken[t] == None && !m.started[t]
    else
      && m.slots[t] in {Posted(calls[0].entry, calls[0].ctx), On}
      && (m.slots[t] == On ==> m.taken[t] == Some(calls[0]))
      && (m.slots[t] != On ==> m.taken[t] == None && !m.started[t])
  }

  lemma {:induction false} SecondaryFollows(n: nat, es: seq<Event>, t: nat)
    requires 1 <= t < n && After(n, es).Some?
    ensures Follows(After(n, es).value, t, Calls(es, t))
    decreases |es|
  {
    if es != [] {
      SecondaryFollows(n, es[..|es| - 1], t);
      var m, e := After(n, es[..|es| - 1]).value, es[|es| - 1];
      var before, after := Calls(es[..|es| - 1], t), Calls(es, t);
      assert before != [] ==> after[0] == before[0];
    }
  }

  lemma {:induction false} PrimaryOn(n: nat, es: seq<Event>)
    requires n >= 1 && After(n, es).Some?
    ensures After(n, es).value.slots[0] == On && After(n, es).value.started[0]
    decreases |es|
  {
    if es != [] { PrimaryOn(n, es[..|es| - 1]); }
  }

  /** In every run, a call for a secondary succeeds exactly if it is the first one for it; later ones, and any for
      vcpu 0, find it already on; a target that does not exist is refused. AFFINITY_INFO tells the same story. */
  lemma {:induction false} FirstCallWins(n: nat, es: seq<Event>, e: Event, t: nat)
    requires n >= 1 && After(n, es).Some? && e.CpuOnCall? && Enabled(After(n, es).value, e) && e.target % 256 == t
    ensures Return(After(n, es).value, e) == if t >= n then -2 else if t != 0 && Calls(es, t) == [] then 0 else -4
    ensures AffinityInfo(After(n, es).value, e.target)
            == if t < n && (t == 0 || Calls(es, t) != []) then 0 else 1
  {
    PrimaryOn(n, es);
    if 1 <= t < n { SecondaryFollows(n, es, t); }
  }

  /** A secondary that runs was called, and started with the entry and context of the first call. */
  lemma {:induction false} StartsAsFirstCalled(n: nat, es: seq<Event>, t: nat)
    requires 1 <= t < n && After(n, es).Some? && After(n, es).value.started[t]
    ensures Calls(es, t) != [] && After(n, es).value.taken[t] == Some(Calls(es, t)[0])
  {
    SecondaryFollows(n, es, t);
  }

  /** On a fresh boot the low byte of the affinity alone names the vcpu: the first call for it, whatever the higher
      bits, returns 0 and posts its slot and no other; a second one, with any higher bits, returns -4 and changes
      nothing. */
  lemma LowByteNames(n: nat, t: nat, first: CpuOn, h: nat, h': nat, e': u64, x': u64)
    requires 1 <= t < n && t < 256 && 256 * h + t < U64_SPAN && 256 * h' + t < U64_SPAN && first.Posted?
    ensures var b, call := FreshBoot(n), CpuOnCall(0, 256 * h + t, first.entry, first.ctx);
            && Enabled(b, call) && Return(b, call) == 0 && AffinityInfo(b, 256 * h + t) == 1
            && Next(b, call) == b.(slots := b.slots[t := first])
    ensures var m, again := Next(FreshBoot(n), CpuOnCall(0, 256 * h + t, first.entry, first.ctx)),
                            CpuOnCall(0, 256 * h' + t, e', x');
            && Enabled(m, again) && Return(m, again) == -4 && AffinityInfo(m, 256 * h' + t) == 0 && Next(m, again) == m
  {
    assert (256 * h + t) % 256 == t && (256 * h' + t) % 256 == t;
  }

  /** The called vcpu comes up: its thread finds the slot, takes the entry and context of the call, and runs. */
  lemma CalledStarts(n: nat, t: nat, h: nat, entry: u64, ctx: u64)
    requires 1 <= t < n && t < 256 && 256 * h + t < U64_SPAN
    ensures var r := After(n, [CpuOnCall(0, 256 * h + t, entry, ctx), TakePosted(t), Begin(t)]);
            r.Some? && r.value.started[t] && r.value.slots[t] == On && r.value.taken[t] == Some(Start(entry, ctx))
  {
    LowByteNames(n, t, Posted(entry, ctx), h, h, entry, ctx);
    var es := [CpuOnCall(0, 256 * h + t, entry, ctx), TakePosted(t), Begin(t)];
    assert es[..2][..1] == es[..1] && es[..1][..0] == [];
    assert After(n, es[..1]) == Some(Next(FreshBoot(n), es[0]));
    assert After(n, es[..2]) == Some(Next(Next(FreshBoot(n), es[0]), es[1]));
  }

  function Stage(c: CpuOn): nat { match c case Off => 0 case Posted(_, _) => 1 case On => 2 }

  /** A slot only ever moves forward: Off, Posted, On. */
  lemma {:induction false} NeverBack(n: nat, es: seq<Event>, more: seq<Event>, t: nat)
    requires 1 <= n && t < n && After(n, es + more).Some?
    ensures After(n, es).Some?
    ensures Stage(After(n, es).value.slots[t]) <= Stage(After(n, es + more).value.slots[t])
    decreases |more|
  {
    if more == [] {
      assert es + more == es;
    } else {
      var front := more[..|more| - 1];
      assert (es + more)[..|es + more| - 1] == es + front;
      NeverBack(n, es, front, t);
    }
  }
}

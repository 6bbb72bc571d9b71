/** amberd's admission control and warm pool: what the budget check guarantees, and who may take a pooled worker. */
module Fleet {
  import opened Words

  type Id = nat
  type Template = string

  // ---- the budget ----

  /** RAM accounted to the ids up to `n`. */
  function Total(reg: map<Id, u64>, n: Id): nat {
    if n == 0 then 0 else Total(reg, n - 1) + if n in reg then reg[n] else 0
  }

  /** The check of the release build: 64-bit addition that wraps. */
  predicate Admits(used: nat, requested: u64, budget: Option<u64>) {
    budget == None || (used % U64_SPAN + requested) % U64_SPAN <= budget.value
  }

  predicate Within(used: nat, budget: Option<u64>) { budget == None || used <= budget.value }

  /** An admission that passes the check keeps the budget exactly when the sum fits 64 bits. */
  lemma AdmissionSafeIff(used: nat, requested: u64, budget: u64)
    requires used <= budget && Admits(used, requested, Some(budget))
    ensures Within(used + requested, Some(budget)) <==> used + requested < U64_SPAN
  {
    if used + requested < U64_SPAN {
      assert (used + requested) % U64_SPAN == used + requested;
    }
  }

  /** A request near 2^64 wraps past the check: with one byte in use and a one-byte budget it is admitted. */
  /** As long as the sum does not wrap, a request is admitted exactly if it fits, and always without a budget. */
  lemma AdmittedIffFits(used: nat, requested: u64, budget: Option<u64>)
    requires used + requested < U64_SPAN
    ensures Admits(used, requested, budget) <==> budget == None || used + requested <= budget.value
  {
  }

  lemma AdmissionCanWrap()
    ensures Admits(1, U64_SPAN - 1, Some(1)) && !Within(1 + (U64_SPAN - 1), Some(1))
  {
  }

  lemma {:induction false} TotalDrops(reg: map<Id, u64>, gone: set<Id>, n: Id)
    ensures Total(reg - gone, n) <= Total(reg, n)
    decreases n
  {
    if n > 0 { TotalDrops(reg, gone, n - 1); }
  }

  lemma {:induction false} TotalInsert(reg: map<Id, u64>, id: Id, ram: u64, n: Id)
    requires n < id
    ensures Total(reg[id := ram], n) == Total(reg, n)
    decreases n
  {
    if n > 0 { TotalInsert(reg, id, ram, n - 1); }
  }

  // ---- all interleavings ----

  /** The daemon between lock sections: the registry, the pool, ids minted for the pool but not yet in it, ids
      taken out for eviction but not yet unregistered, and logs of how ids left the pool. */
  datatype Daemon = Daemon(
    reg: map<Id, u64>,
    pool: map<Template, seq<Id>>,
    counter: nat,
    staging: set<Id>,
    evicting: set<Id>,
    forked: seq<Id>,
    evicted: seq<Id>,
    scrubbed: seq<Id>)

  datatype Step =
    | Reserve(ram: u64, forPool: bool)        // check and insert under the registry lock
    | Push(id: Id, t: Template)               // a warmed worker joins the pool
    | StagingFails(id: Id)
    | ForkPop(t: Template)                    // a fork takes a pooled worker
    | EvictPop(t: Template)                   // eviction takes one ...
    | EvictRemove(id: Id)                     // ... and unregisters it
    | Unregister(id: Id)                      // a VM exits
    | Scrub(id: Id, t: Template)              // its supervisor drops it from the pool

  predicate Nonempty(p: map<Template, seq<Id>>, t: Template) { t in p && p[t] != [] }

  predicate Can(d: Daemon, budget: Option<u64>, e: Step) {
    match e
    case Reserve(ram, _) => Admits(Total(d.reg, d.counter), ram, budget)
    case Push(id, _) => id in d.staging
    case StagingFails(id) => id in d.staging
    case ForkPop(t) => Nonempty(d.pool, t)
    case EvictPop(t) => Nonempty(d.pool, t)
    case EvictRemove(id) => id in d.evicting
    case Unregister(_) => true
    case Scrub(id, t) => t in d.pool
  }

  function Last(s: seq<Id>): Id
    requires s != []
  {
    s[|s| - 1]
  }

  function Without(s: seq<Id>, id: Id): seq<Id> {
    if s == [] then [] else Without(s[..|s| - 1], id) + if Last(s) == id then [] else [Last(s)]
  }

  function Next(d: Daemon, e: Step): Daemon
    requires match e case ForkPop(t) => Nonempty(d.pool, t) case EvictPop(t) => Nonempty(d.pool, t)
                     case Scrub(_, t) => t in d.pool case _ => true
  {
    match e
    case Reserve(ram, forPool) =>
      var id := d.counter + 1;
      d.(reg := d.reg[id := ram], counter := id, staging := if forPool then d.staging + {id} else d.staging)
    case Push(id, t) =>
      d.(pool := d.pool[t := (if t in d.pool then d.pool[t] else []) + [id]], staging := d.staging - {id})
    case StagingFails(id) => d.(reg := d.reg - {id}, staging := d.staging - {id})
    case ForkPop(t) =>
      d.(pool := d.pool[t := d.pool[t][..|d.pool[t]| - 1]], forked := d.forked + [Last(d.pool[t])])
    case EvictPop(t) =>
      d.(pool := d.pool[t := d.pool[t][..|d.pool[t]| - 1]], evicted := d.evicted + [Last(d.pool[t])],
         evicting := d.evicting + {Last(d.pool[t])})
    case EvictRemove(id) => d.(reg := d.reg - {id}, evicting := d.evicting - {id})
    case Unregister(id) => d.(reg := d.reg - {id})
    case Scrub(id, t) =>
      d.(pool := d.pool[t := Without(d.pool[t], id)],
         scrubbed := if id in d.pool[t] then d.scrubbed + [id] else d.scrubbed)
  }

  const START := Daemon(map[], map[], 0, {}, {}, [], [], [])

  /** The daemon after a run, or None if a step was not possible. */
  ghost function After(budget: Option<u64>, es: seq<Step>): Option<Daemon>
    decreases |es|
  {
    if es == [] then Some(START)
    else
      var p := After(budget, es[..|es| - 1]);
      if p.Some? && Can(p.value, budget, es[|es| - 1]) then Some(Next(p.value, es[|es| - 1])) else None
  }

  ghost function Used(budget: Option<u64>, es: seq<Step>): nat
    requires After(budget, es).Some?
  {
    Total(After(budget, es).value.reg, After(budget, es).value.counter)
  }

  /** No admission of the run made a sum of 64 bits or more. */
  ghost predicate NoWrap(budget: Option<u64>, es: seq<Step>)
    requires After(budget, es).Some?
    decreases |es|
  {
    es != [] ==>
      && NoWrap(budget, es[..|es| - 1])
      && (es[|es| - 1].Reserve? ==> Used(budget, es[..|es| - 1]) + es[|es| - 1].ram < U64_SPAN)
  }

  lemma UsedByReserve(budget: Option<u64>, es: seq<Step>)
    requires es != [] && es[|es| - 1].Reserve? && After(budget, es).Some?
    ensures Used(budget, es) == Used(budget, es[..|es| - 1]) + es[|es| - 1].ram
    ensures Admits(Used(budget, es[..|es| - 1]), es[|es| - 1].ram, budget)
  {
    var d := After(budget, es[..|es| - 1]).value;
    TotalInsert(d.reg, d.counter + 1, es[|es| - 1].ram, d.counter);
  }

  /** In every interleaving without a wrapped sum the reserved RAM stays within the budget. */
  lemma {:induction false} BudgetKept(budget: Option<u64>, es: seq<Step>)
    requires After(budget, es).Some? && NoWrap(budget, es)
    ensures Within(Used(budget, es), budget)
    decreases |es|
  {
    if es != [] {
      BudgetKept(budget, es[..|es| - 1]);
      var d, e := After(budget, es[..|es| - 1]).value, es[|es| - 1];
      match e {
        case Reserve(ram, _) =>
          UsedByReserve(budget, es);
          if budget.Some? { AdmissionSafeIff(Total(d.reg, d.counter), ram, budget.value); }
        case StagingFails(id) => TotalDrops(d.reg, {id}, d.counter);
        case EvictRemove(id) => TotalDrops(d.reg, {id}, d.counter);
        case Unregister(id) => TotalDrops(d.reg, {id}, d.counter);
        case _ =>
      }
    }
  }

  lemma {:induction false} RunPrefix(budget: Option<u64>, es: seq<Step>, k: nat)
    requires After(budget, es).Some? && k <= |es|
    ensures After(budget, es[..k]).Some? && (NoWrap(budget, es) ==> NoWrap(budget, es[..k]))
    decreases |es|
  {
    if k < |es| {
      RunPrefix(budget, es[..|es| - 1], k);
      assert es[..|es| - 1][..k] == es[..k];
    } else {
      assert es[..k] == es;
    }
  }

  /** Some moment of the run exceeds the budget. */
  ghost predicate Exceeded(budget: u64, es: seq<Step>, k: nat) {
    k <= |es| && After(Some(budget), es[..k]).Some? && !Within(Used(Some(budget), es[..k]), Some(budget))
  }

  /** A run with a wrapped sum exceeds the budget at some moment. */
  lemma {:induction false} WrapExceeds(budget: u64, es: seq<Step>) returns (k: nat)
    requires After(Some(budget), es).Some? && !NoWrap(Some(budget), es)
    ensures Exceeded(budget, es, k)
    decreases |es|
  {
    var front := es[..|es| - 1];
    if NoWrap(Some(budget), front) {
      BudgetKept(Some(budget), front);
      UsedByReserve(Some(budget), es);
      AdmissionSafeIff(Used(Some(budget), front), es[|es| - 1].ram, budget);
      k := |es|;
      assert es[..k] == es;
    } else {
      k := WrapExceeds(budget, front);
      assert front[..k] == es[..k];
    }
  }

  /** Two admissions from the start, with a budget of one byte, end above it: the second sum wraps to zero. */
  lemma WrapReached(es: seq<Step>)
    requires es == [Reserve(1, false), Reserve(U64_SPAN - 1, false)]
    ensures After(Some(1), es).Some? && Exceeded(1, es, 2)
  {
    assert es[..1][..0] == [] && es[..2] == es;
    var d := Next(START, Reserve(1, false));
    assert Total(START.reg, 0) == 0;
    assert After(Some(1), es[..1]) == Some(d);
    assert Total(d.reg, 1) == 1;
    UsedByReserve(Some(1), es);
  }

  /** In every interleaving the reserved RAM is within the budget at all times if and only if no admission made a
      sum of 64 bits or more. */
  lemma {:induction false} BudgetKeptIff(budget: u64, es: seq<Step>)
    requires After(Some(budget), es).Some?
    ensures NoWrap(Some(budget), es) <==> forall k: nat :: !Exceeded(budget, es, k)
  {
    if NoWrap(Some(budget), es) {
      forall k: nat | k <= |es| ensures !Exceeded(budget, es, k) {
        RunPrefix(Some(budget), es, k);
        BudgetKept(Some(budget), es[..k]);
      }
    } else {
      var k := WrapExceeds(budget, es);
    }
  }

  // ---- who takes a pooled worker ----

  // ---- what each step gives back ----

  lemma {:induction false} TotalWithout(reg: map<Id, u64>, id: Id, n: Id)
    ensures Total(reg - {id}, n) + (if 1 <= id <= n && id in reg then reg[id] else 0) == Total(reg, n)
    decreases n
  {
    if n > 0 { TotalWithout(reg, id, n - 1); }
  }

  /** A VM that ends, a worker that fails to start and one that is evicted give back exactly what they were charged. */
  lemma ReleaseFrees(d: Daemon, budget: Option<u64>, e: Step, id: Id)
    requires Can(d, budget, e) && e in {Unregister(id), StagingFails(id), EvictRemove(id)}
    requires id in d.reg && 1 <= id <= d.counter
    ensures Total(Next(d, e).reg, Next(d, e).counter) == Total(d.reg, d.counter) - d.reg[id]
    ensures id !in Next(d, e).reg
    ensures forall k | k in d.reg && k != id :: k in Next(d, e).reg && Next(d, e).reg[k] == d.reg[k]
  {
    TotalWithout(d.reg, id, d.counter);
  }

  /** The worker warmed last is the one the next fork takes, and the others stay. */
  lemma WarmestFirst(d: Daemon, id: Id, t: Template)
    ensures var p := Next(d, Push(id, t));
            && Nonempty(p.pool, t)
            && var f := Next(p, ForkPop(t));
               && f.forked == d.forked + [id] && f.pool[t] == (if t in d.pool then d.pool[t] else []) && f.reg == d.reg
               && forall u | u in d.pool && u != t :: u in f.pool && f.pool[u] == d.pool[u]
  {
    var was := if t in d.pool then d.pool[t] else [];
    assert (was + [id])[..|was|] == was;
  }

  lemma RanMore(budget: Option<u64>, es: seq<Step>, d: Daemon, e: Step)
    requires After(budget, es) == Some(d) && Can(d, budget, e)
    ensures After(budget, es + [e]) == Some(Next(d, e))
  {
    assert (es + [e])[..|es|] == es;
  }

  /** From an empty daemon: a worker is admitted for the pool and warmed. */
  lemma Warmed(budget: Option<u64>, ram: u64, t: Template) returns (es: seq<Step>, d: Daemon)
    requires budget == None || ram <= budget.value
    ensures es == [Reserve(ram, true)] + [Push(1, t)] && After(budget, es) == Some(d)
    ensures d == START.(reg := map[1 := ram], pool := map[t := [1]], counter := 1)
  {
    es, d := [] + [Reserve(ram, true)], Next(START, Reserve(ram, true));
    RanMore(budget, [], START, Reserve(ram, true));
    RanMore(budget, es, d, Push(1, t));
    es, d := es + [Push(1, t)], Next(d, Push(1, t));
    var none: seq<Id> := [];
    assert none + [1] == [1];
    assert d.staging == {};
  }

  /** Then a fork takes it. */
  lemma WarmedAndForked(budget: Option<u64>, ram: u64, t: Template) returns (es: seq<Step>)
    requires budget == None || ram <= budget.value
    ensures es == [Reserve(ram, true)] + [Push(1, t)] + [ForkPop(t)] && After(budget, es).Some?
    ensures After(budget, es).value
            == START.(reg := map[1 := ram], pool := map[t := []], counter := 1, forked := [1])
  {
    var d;
    es, d := Warmed(budget, ram, t);
    RanMore(budget, es, d, ForkPop(t));
    es, d := es + [ForkPop(t)], Next(d, ForkPop(t));
    var none: seq<Id> := [];
    assert none + [1] == [1] && [1 as Id][..0] == none;
  }

  /** Or it is evicted, and its memory given back. */
  lemma WarmedAndEvicted(budget: Option<u64>, ram: u64, t: Template) returns (es: seq<Step>)
    requires budget == None || ram <= budget.value
    ensures es == [Reserve(ram, true)] + [Push(1, t)] + [EvictPop(t)] + [EvictRemove(1)] && After(budget, es).Some?
    ensures After(budget, es).value == START.(pool := map[t := []], counter := 1, evicted := [1])
  {
    var d;
    es, d := Warmed(budget, ram, t);
    RanMore(budget, es, d, EvictPop(t));
    es, d := es + [EvictPop(t)], Next(d, EvictPop(t));
    var none: seq<Id> := [];
    assert none + [1] == [1] && [1 as Id][..0] == none;
    assert d == START.(reg := map[1 := ram], pool := map[t := []], counter := 1, evicted := [1], evicting := {1});
    RanMore(budget, es, d, EvictRemove(1));
    es := es + [EvictRemove(1)];
  }

  /** Scrubbing an id takes out every copy of it, and only that. */
  lemma {:induction false} ScrubTakesOne(s: seq<Id>, id: Id, x: Id)
    ensures x in Without(s, id) <==> x in s && x != id
  {
    if s != [] { ScrubTakesOne(s[..|s| - 1], id, x); }
  }


  /** Everything an id can be in: staged, pooled at one place, or gone from the pool by one route. */
  datatype Place = Staged | Pooled(t: Template, k: nat) | Forked(k: nat) | Evicted(k: nat) | Scrubbed(k: nat)

  predicate Holds(d: Daemon, p: Place, id: Id) {
    match p
    case Staged => id in d.staging
    case Pooled(t, k) => t in d.pool && k < |d.pool[t]| && d.pool[t][k] == id
    case Forked(k) => k < |d.forked| && d.forked[k] == id
    case Evicted(k) => k < |d.evicted| && d.evicted[k] == id
    case Scrubbed(k) => k < |d.scrubbed| && d.scrubbed[k] == id
  }

  /** No id is in two places, and every id has been minted. */
  ghost predicate OnePlace(d: Daemon) {
    && (forall id: Id, p, q | Holds(d, p, id) && Holds(d, q, id) :: p == q)
    && (forall id: Id, p | Holds(d, p, id) :: id <= d.counter)
  }

  lemma PushKeeps(d: Daemon, id: Id, t: Template)
    requires OnePlace(d) && id in d.staging
    ensures OnePlace(Next(d, Push(id, t)))
  {
    var d1 := Next(d, Push(id, t));
    var s := if t in d.pool then d.pool[t] else [];
    assert Holds(d, Staged, id);
    forall x: Id, p | Holds(d1, p, x)
      ensures (if p == Pooled(t, |s|) then x == id else x != id && Holds(d, p, x))
    {
      if p != Pooled(t, |s|) { assert Holds(d, p, x); }
    }
  }

  lemma PopKeeps(d: Daemon, t: Template, evict: bool)
    requires OnePlace(d) && Nonempty(d.pool, t)
    ensures OnePlace(Next(d, if evict then EvictPop(t) else ForkPop(t)))
  {
    var d1 := Next(d, if evict then EvictPop(t) else ForkPop(t));
    var id, n := Last(d.pool[t]), |d.pool[t]| - 1;
    var to := if evict then Evicted(|d.evicted|) else Forked(|d.forked|);
    assert Holds(d, Pooled(t, n), id);
    forall x: Id, p | Holds(d1, p, x)
      ensures (if p == to then x == id else x != id && Holds(d, p, x))
    {
      if p != to { assert Holds(d, p, x); }
    }
  }

  lemma {:induction false} WithoutDrops(s: seq<Id>, id: Id)
    ensures |Without(s, id)| <= |s|
    ensures forall k | 0 <= k < |Without(s, id)| :: Without(s, id)[k] in s && Without(s, id)[k] != id
    ensures id !in s ==> Without(s, id) == s
  {
    if s != [] {
      var front := s[..|s| - 1];
      WithoutDrops(front, id);
      assert s == front + [Last(s)];
    }
  }

  predicate NoRepeat(s: seq<Id>) { forall i, j | 0 <= i < j < |s| :: s[i] != s[j] }

  lemma {:induction false} WithoutDistinct(s: seq<Id>, id: Id)
    requires NoRepeat(s)
    ensures NoRepeat(Without(s, id))
  {
    if s != [] {
      WithoutDistinct(s[..|s| - 1], id);
      WithoutDrops(s[..|s| - 1], id);
    }
  }

  lemma ScrubKeeps(d: Daemon, id: Id, t: Template)
    requires OnePlace(d) && t in d.pool
    ensures OnePlace(Next(d, Scrub(id, t)))
  {
    var d1, s := Next(d, Scrub(id, t)), d.pool[t];
    WithoutDrops(s, id);
    assert NoRepeat(s) by {
      forall i, j | 0 <= i < j < |s| ensures s[i] != s[j] {
        assert Holds(d, Pooled(t, i), s[i]) && Holds(d, Pooled(t, j), s[j]);
      }
    }
    WithoutDistinct(s, id);
    ghost var was := id in s;
    if was {
      var k :| 0 <= k < |s| && s[k] == id;
      assert Holds(d, Pooled(t, k), id);
    }
    forall x: Id, p | Holds(d1, p, x)
      ensures p.Pooled? && p.t == t ==> x != id && exists m: nat :: Holds(d, Pooled(t, m), x)
      ensures !(p.Pooled? && p.t == t) && !(was && p == Scrubbed(|d.scrubbed|)) ==> Holds(d, p, x)
      ensures was && p == Scrubbed(|d.scrubbed|) ==> x == id
    {
      if p.Pooled? && p.t == t {
        assert x in s;
        var m :| 0 <= m < |s| && s[m] == x;
        assert Holds(d, Pooled(t, m), x);
      }
    }
  }

  lemma StepKeeps(d: Daemon, budget: Option<u64>, e: Step)
    requires OnePlace(d) && Can(d, budget, e)
    ensures OnePlace(Next(d, e))
  {
    match e {
      case Push(id, t) => PushKeeps(d, id, t);
      case ForkPop(t) => PopKeeps(d, t, false);
      case EvictPop(t) => PopKeeps(d, t, true);
      case Scrub(id, t) => ScrubKeeps(d, id, t);
      case _ =>
        var d1 := Next(d, e);
        forall x: Id, p | Holds(d1, p, x) ensures Holds(d, p, x) || (p == Staged && e.Reserve? && x == d.counter + 1) {
        }
    }
  }

  lemma {:induction false} RunKeeps(budget: Option<u64>, es: seq<Step>)
    requires After(budget, es).Some?
    ensures OnePlace(After(budget, es).value)
    decreases |es|
  {
    if es != [] {
      RunKeeps(budget, es[..|es| - 1]);
      StepKeeps(After(budget, es[..|es| - 1]).value, budget, es[|es| - 1]);
    }
  }

  /** In every interleaving a worker leaves the pool at most once: none is handed to two forks, evicted twice, or
      both handed to a fork and evicted, and none that left is still pooled. */
  lemma {:induction false} LeavesPoolOnce(budget: Option<u64>, es: seq<Step>)
    requires After(budget, es).Some?
    ensures var d := After(budget, es).value;
            && NoRepeat(d.forked) && NoRepeat(d.evicted)
            && (forall i, j | 0 <= i < |d.forked| && 0 <= j < |d.evicted| :: d.forked[i] != d.evicted[j])
            && (forall t, k, i | t in d.pool && 0 <= k < |d.pool[t]| && 0 <= i < |d.forked| ::
                  d.pool[t][k] != d.forked[i])
            && (forall t, k, i | t in d.pool && 0 <= k < |d.pool[t]| && 0 <= i < |d.evicted| ::
                  d.pool[t][k] != d.evicted[i])
  {
    RunKeeps(budget, es);
    var d := After(budget, es).value;
    assert forall i | 0 <= i < |d.forked| :: Holds(d, Forked(i), d.forked[i]);
    assert forall j | 0 <= j < |d.evicted| :: Holds(d, Evicted(j), d.evicted[j]);
    assert forall t, k | t in d.pool && 0 <= k < |d.pool[t]| :: Holds(d, Pooled(t, k), d.pool[t][k]);
  }

  // ---- one thread, no interference ----

  function PooledIds(p: map<Template, seq<Id>>): set<Id> { set t, k | t in p && 0 <= k < |p[t]| :: p[t][k] }

  predicate DistinctPool(p: map<Template, seq<Id>>) {
    forall t, k, u, m | t in p && u in p && 0 <= k < |p[t]| && 0 <= m < |p[u]| && p[t][k] == p[u][m] :: t == u && k == m
  }

  class Supervisor {
    var registry: map<Id, u64>
    var pool: map<Template, seq<Id>>
    var counter: nat

    ghost predicate Valid()
      reads this
    {
      DistinctPool(pool) && forall id | id in registry :: id <= counter
    }

    /** Admit and register a VM, or refuse. */
    method Reserve(ram: u64, budget: Option<u64>) returns (id: Option<Id>)
      requires Valid()
      modifies this`registry, this`counter
      ensures Valid()
      ensures id.Some? == Admits(Total(old(registry), old(counter)), ram, budget)
      ensures id == None ==> registry == old(registry) && counter == old(counter)
      ensures id.Some? ==> id.value == counter == old(counter) + 1 && registry == old(registry)[id.value := ram]
    {
      if budget.Some? {
        var used: u64 := 0;
        for k := 0 to counter
          invariant used == Total(registry, k) % U64_SPAN
        {
          if k + 1 in registry {
            used := (used + registry[k + 1]) % U64_SPAN;
          }
        }
        if (used + ram) % U64_SPAN > budget.value {
          return None;
        }
      }
      counter := counter + 1;
      registry := registry[counter := ram];
      id := Some(counter);
    }

    /** Take any pooled worker out and unregister it. */
    method EvictOnePooled() returns (gone: Option<Id>)
      requires Valid()
      modifies this`registry, this`pool
      ensures Valid()
      ensures gone == None <==> PooledIds(old(pool)) == {}
      ensures gone == None ==> pool == old(pool) && registry == old(registry)
      ensures gone.Some? ==>
                gone.value in PooledIds(old(pool)) && PooledIds(pool) == PooledIds(old(pool)) - {gone.value}
      ensures gone.Some? ==> registry == old(registry) - {gone.value}
    {
      if t: Template :| t in pool && pool[t] != [] {
        var id, n := Last(pool[t]), |pool[t]| - 1;
        ghost var before := pool;
        pool := pool[t := pool[t][..n]];
        registry := registry - {id};
        assert before[t][n] == id;
        assert id in PooledIds(before);
        assert PooledIds(pool) == PooledIds(before) - {id} by {
          forall x | x in PooledIds(before) && x != id ensures x in PooledIds(pool) {
            var u, k :| u in before && 0 <= k < |before[u]| && before[u][k] == x;
            assert u in pool && k < |pool[u]| && pool[u][k] == x;
          }
        }
        gone := Some(id);
      } else {
        gone := None;
      }
    }

    /** Admit a real VM, evicting warm workers only as long as it does not fit. Each round empties the pool by one,
        so this ends; a refusal means the pool is empty and it still does not fit. */
    method ReserveWithEvict(ram: u64, budget: Option<u64>) returns (id: Option<Id>, ghost evicted: seq<Id>)
      requires Valid()
      modifies this
      ensures Valid()
      ensures forall k | 0 <= k < |evicted| ::
                && evicted[k] in PooledIds(old(pool))
                && !Admits(Total(old(registry) - Taken(evicted[..k]), old(counter)), ram, budget)
      ensures PooledIds(pool) == PooledIds(old(pool)) - Taken(evicted)
      ensures id == None ==> PooledIds(pool) == {} && registry == old(registry) - Taken(evicted)
                             && !Admits(Total(registry, counter), ram, budget)
      ensures id.Some? ==> id.value == counter == old(counter) + 1
                           && registry == (old(registry) - Taken(evicted))[id.value := ram]
                           && Admits(Total(old(registry) - Taken(evicted), old(counter)), ram, budget)
    {
      evicted := [];
      assert Taken(evicted) == {};
      assert registry - {} == registry;
      while true
        invariant Valid() && counter == old(counter)
        invariant registry == old(registry) - Taken(evicted) && PooledIds(pool) == PooledIds(old(pool)) - Taken(evicted)
        invariant forall k | 0 <= k < |evicted| ::
                    && evicted[k] in PooledIds(old(pool))
                    && !Admits(Total(old(registry) - Taken(evicted[..k]), old(counter)), ram, budget)
        decreases PooledIds(pool)
      {
        id := Reserve(ram, budget);
        if id.Some? {
          return;
        }
        var gone := EvictOnePooled();
        if gone == None {
          return;
        }
        ghost var more := evicted + [gone.value];
        TakenMore(evicted, gone.value);
        assert more[..|evicted|] == evicted;
        assert forall k | 0 <= k < |evicted| :: more[..k] == evicted[..k];
        evicted := more;
      }
    }
  }

  ghost function Taken(s: seq<Id>): set<Id> { set x | x in s }

  lemma TakenMore(s: seq<Id>, x: Id)
    ensures Taken(s + [x]) == Taken(s) + {x}
  {
  }
}

/** The token bucket over real time and real tokens. */
module Limiter {
  import opened Words

  /** Up to one second of rate in hand; `last` is when tokens were last credited up to. */
  datatype Bucket = Bucket(rate: real, tokens: real, last: real) {
    predicate Valid() { rate > 0.0 && 0.0 <= tokens <= rate }
  }

  function MinR(a: real, b: real): real { if a < b then a else b }

  function MaxR(a: real, b: real): real { if a < b then b else a }

  function Create(bytesPerSec: nat, now: real): (b: Bucket)
    ensures b.Valid()
  {
    var rate := MaxR(bytesPerSec as real, 1.0);
    Bucket(rate, rate, now)
  }

  /** Credit the time since `last`; a clock behind `last` credits nothing but still moves `last`. */
  function Refilled(b: Bucket, now: real): Bucket {
    b.(tokens := MinR(b.tokens + MaxR(0.0, now - b.last) * b.rate, b.rate), last := now)
  }

  /** Take `bytes`, and the time to wait for a deficit, measured from `again`. */
  function Debited(b: Bucket, now: real, again: real, bytes: nat): (Bucket, real)
    requires b.rate > 0.0
  {
    var r := Refilled(b, now);
    var left := r.tokens - bytes as real;
    if left < 0.0 then (r.(tokens := 0.0, last := again + (0.0 - left) / b.rate), (0.0 - left) / b.rate)
    else (r.(tokens := left), 0.0)
  }

  /** A bucket object; `now` and `again` are the two readings of the clock a call makes. */
  class TokenBucket {
    const rate: real
    var tokens: real
    var last: real

    ghost function State(): Bucket
      reads this
    {
      Bucket(rate, tokens, last)
    }

    constructor (bytesPerSec: nat, now: real)
      ensures State() == Create(bytesPerSec, now)
    {
      rate := MaxR(bytesPerSec as real, 1.0);
      tokens := MaxR(bytesPerSec as real, 1.0);
      last := now;
    }

    method Refill(now: real)
      modifies this
      ensures State() == Refilled(old(State()), now)
    {
      var dt := MaxR(0.0, now - last);
      tokens := MinR(tokens + dt * rate, rate);
      last := now;
    }

    method TryTake(now: real, bytes: nat) returns (ok: bool)
      modifies this
      ensures ok == (Refilled(old(State()), now).tokens >= bytes as real)
      ensures State() == var r := Refilled(old(State()), now); if ok then r.(tokens := r.tokens - bytes as real) else r
    {
      Refill(now);
      ok := tokens >= bytes as real;
      if ok {
        tokens := tokens - bytes as real;
      }
    }

    method Debit(now: real, again: real, bytes: nat) returns (wait: real)
      requires rate > 0.0
      modifies this
      ensures (State(), wait) == Debited(old(State()), now, again, bytes)
    {
      Refill(now);
      tokens := tokens - bytes as real;
      if tokens < 0.0 {
        wait := (0.0 - tokens) / rate;
        tokens := 0.0;
        last := again + wait;
      } else {
        wait := 0.0;
      }
    }
  }

  // ---- runs ----

  /** One call with its clock readings: it begins, reads the clock, and returns. A throttle sleeps before it
      returns for at least the wait it was told. */
  datatype Call =
    | TryTake(begin: real, now: real, end: real, bytes: nat)
    | Throttle(begin: real, now: real, again: real, end: real, bytes: nat)

  function Effect(b: Bucket, c: Call): Bucket
    requires b.rate > 0.0
  {
    match c
    case TryTake(_, now, _, bytes) =>
      var r := Refilled(b, now);
      if r.tokens >= bytes as real then r.(tokens := r.tokens - bytes as real) else r
    case Throttle(_, now, again, _, bytes) => Debited(b, now, again, bytes).0
  }

  function Admitted(b: Bucket, c: Call): nat {
    match c
    case TryTake(_, now, _, bytes) => if Refilled(b, now).tokens >= bytes as real then bytes else 0
    case Throttle(_, _, _, _, bytes) => bytes
  }

  predicate Timely(b: Bucket, c: Call)
    requires b.rate > 0.0
  {
    match c
    case TryTake(begin, now, end, _) => begin <= now <= end
    case Throttle(begin, now, again, end, bytes) =>
      begin <= now <= again && again + Debited(b, now, again, bytes).1 <= end
  }

  /** The bucket after the calls, made one after another from time `t`; None if the clock readings are impossible. */
  function After(b: Bucket, t: real, cs: seq<Call>): (r: Option<Bucket>)
    requires b.rate > 0.0
    ensures r.Some? ==> r.value.rate == b.rate
    decreases |cs|
  {
    if cs == [] then Some(b)
    else
      var p, c := After(b, t, cs[..|cs| - 1]), cs[|cs| - 1];
      if p.Some? && Finish(t, cs[..|cs| - 1]) <= c.begin && Timely(p.value, c) then Some(Effect(p.value, c)) else None
  }

  function Finish(t: real, cs: seq<Call>): real { if cs == [] then t else cs[|cs| - 1].end }

  /** Bytes let through by the calls from the `i`-th on. */
  function Through(b: Bucket, t: real, cs: seq<Call>, i: nat): nat
    requires b.rate > 0.0 && After(b, t, cs).Some? && i <= |cs|
    decreases |cs|
  {
    if i == |cs| then 0
    else Through(b, t, cs[..|cs| - 1], i) + Admitted(After(b, t, cs[..|cs| - 1]).value, cs[|cs| - 1])
  }

  /** Between calls the tokens are within one second of rate, and `last` is not in the future. */
  lemma {:induction false} TokensBounded(b: Bucket, t: real, cs: seq<Call>)
    requires b.Valid() && b.last <= t && After(b, t, cs).Some?
    ensures After(b, t, cs).value.Valid() && After(b, t, cs).value.last <= Finish(t, cs)
    decreases |cs|
  {
    if cs != [] {
      TokensBounded(b, t, cs[..|cs| - 1]);
      EffectBounded(After(b, t, cs[..|cs| - 1]).value, cs[|cs| - 1]);
    }
  }

  lemma EffectBounded(b: Bucket, c: Call)
    requires b.Valid() && Timely(b, c)
    ensures Effect(b, c).Valid() && Effect(b, c).last <= c.end
  {
    assert Refilled(b, c.now).Valid() by { MulNonNegative(MaxR(0.0, c.now - b.last), b.rate); }
  }

  lemma MulNonNegative(x: real, y: real)
    requires x >= 0.0 && y >= 0.0
    ensures x * y >= 0.0
  {
  }

  /** Tokens that accrue at `rate` over a stretch of time. */
  function Flow(rate: real, from: real, to: real): real { rate * (to - from) }

  lemma FlowTelescopes(rate: real, from: real, mid: real, to: real)
    ensures Flow(rate, from, mid) + Flow(rate, mid, to) == Flow(rate, from, to)
  {
  }

  lemma FlowMonotone(rate: real, from: real, to: real, from': real, to': real)
    requires rate >= 0.0 && to - from <= to' - from'
    ensures Flow(rate, from, to) <= Flow(rate, from', to')
  {
    MulNonNegative(rate, (to' - from') - (to - from));
  }

  lemma RefillPaid(b: Bucket, now: real)
    requires b.Valid() && b.last <= now
    ensures Refilled(b, now).tokens <= b.tokens + Flow(b.rate, b.last, now)
  {
  }

  /** What a call lets through, counted from the moment it has refilled, is paid for by tokens and by the time it
      moves `last` forward. */
  lemma Spent(b: Bucket, c: Call)
    requires b.Valid() && Timely(b, c)
    ensures Admitted(b, c) as real
            <= Refilled(b, c.now).tokens - Effect(b, c).tokens + Flow(b.rate, c.now, Effect(b, c).last)
  {
    if c.Throttle? {
      var r := Refilled(b, c.now);
      var left := r.tokens - c.bytes as real;
      if left < 0.0 {
        var wait := (0.0 - left) / b.rate;
        assert Flow(b.rate, c.again, c.again + wait) == 0.0 - left;
        FlowTelescopes(b.rate, c.now, c.again, c.again + wait);
        FlowMonotone(b.rate, 0.0, 0.0, c.now, c.again);
      }
    }
  }

  /** The same, counted from the state the call found. */
  lemma Paid(b: Bucket, c: Call)
    requires b.Valid() && b.last <= c.begin && Timely(b, c)
    ensures Admitted(b, c) as real <= b.tokens - Effect(b, c).tokens + Flow(b.rate, b.last, Effect(b, c).last)
  {
    RefillPaid(b, c.now);
    Spent(b, c);
    FlowTelescopes(b.rate, b.last, c.now, Effect(b, c).last);
  }

  /** Tokens in hand when call `i` begins its accounting: at most a second's worth, from its own start. */
  lemma {:induction false} PaidSince(b: Bucket, t: real, cs: seq<Call>, i: nat)
    requires b.Valid() && b.last <= t && After(b, t, cs).Some? && i < |cs|
    ensures var e := After(b, t, cs).value;
            Through(b, t, cs, i) as real <= b.rate - e.tokens + Flow(b.rate, cs[i].now, e.last)
    decreases |cs|
  {
    var front := cs[..|cs| - 1];
    var p, c := After(b, t, front).value, cs[|cs| - 1];
    TokensBounded(b, t, front);
    if i == |cs| - 1 {
      Spent(p, c);
      assert Through(b, t, front, i) == 0;
    } else {
      PaidSince(b, t, front, i);
      Paid(p, c);
      assert front[i] == cs[i];
      FlowTelescopes(b.rate, cs[i].now, p.last, Effect(p, c).last);
    }
  }

  /** From the beginning of any call to the end of any later one: at most rate times the time elapsed, plus one
      second of burst. */
  lemma {:induction false} RateBound(b: Bucket, t: real, cs: seq<Call>, i: nat)
    requires b.Valid() && b.last <= t && After(b, t, cs).Some? && i < |cs|
    ensures Through(b, t, cs, i) as real <= Flow(b.rate, cs[i].begin, Finish(t, cs)) + b.rate
  {
    PaidSince(b, t, cs, i);
    TokensBounded(b, t, cs);
    CallsAreTimely(b, t, cs, i);
    FlowMonotone(b.rate, cs[i].now, After(b, t, cs).value.last, cs[i].begin, Finish(t, cs));
  }

  lemma {:induction false} CallsAreTimely(b: Bucket, t: real, cs: seq<Call>, i: nat)
    requires b.rate > 0.0 && After(b, t, cs).Some? && i < |cs|
    ensures cs[i].begin <= cs[i].now
    decreases |cs|
  {
    if i < |cs| - 1 {
      CallsAreTimely(b, t, cs[..|cs| - 1], i);
    }
  }

  /** A fresh bucket lets through at once exactly what it may in a second, one byte if it was given no rate. */
  lemma FreshBurst(bytesPerSec: nat, now: real, bytes: nat, begin: real, end: real)
    ensures Admitted(Create(bytesPerSec, now), TryTake(begin, now, end, bytes))
            == if bytes <= (if bytesPerSec == 0 then 1 else bytesPerSec) then bytes else 0
  {
  }

  // ---- nothing credited is lost below a full bucket ----

  lemma {:induction false} PrefixRuns(b: Bucket, t: real, cs: seq<Call>, i: nat)
    requires b.rate > 0.0 && After(b, t, cs).Some? && i <= |cs|
    ensures After(b, t, cs[..i]).Some? && Finish(t, cs[..i]) <= Finish(t, cs)
    decreases |cs|
  {
    if i < |cs| {
      var front, c := cs[..|cs| - 1], cs[|cs| - 1];
      PrefixRuns(b, t, front, i);
      assert front[..i] == cs[..i];
      EndsAfter(After(b, t, front).value, c);
    } else {
      assert cs[..i] == cs;
    }
  }

  lemma EndsAfter(b: Bucket, c: Call)
    requires b.rate > 0.0 && Timely(b, c)
    ensures c.begin <= c.end
  {
    if c.Throttle? { WaitNonNegative(b, c.now, c.again, c.bytes); }
  }

  lemma WaitNonNegative(b: Bucket, now: real, again: real, bytes: nat)
    requires b.rate > 0.0
    ensures Debited(b, now, again, bytes).1 >= 0.0
  {
  }

  /** A second of rate caps what may be saved up. */
  function Saved(b: Bucket, now: real): real { MinR(b.tokens + Flow(b.rate, b.last, now), b.rate) }

  /** A call that lets nothing through leaves what is saved up to any later moment as it was. */
  lemma VainCall(b: Bucket, c: Call, now: real)
    requires b.Valid() && b.last <= c.begin && Timely(b, c) && Admitted(b, c) == 0 && c.end <= now
    ensures Saved(Effect(b, c), now) == Saved(b, now)
  {
    var e := Effect(b, c);
    assert e == Refilled(b, c.now) by { RefilledExact(b, c.now); }
    RefilledExact(b, c.now);
    FlowTelescopes(b.rate, b.last, c.now, now);
    EndsAfter(b, c);
    assert c.now <= now by { if c.Throttle? { WaitNonNegative(b, c.now, c.again, c.bytes); } }
    FlowMonotone(b.rate, 0.0, 0.0, c.now, now);
  }

  lemma RefilledExact(b: Bucket, now: real)
    requires b.Valid() && b.last <= now
    ensures Refilled(b, now) == Bucket(b.rate, Saved(b, now), now) && Refilled(b, now).Valid()
  {
    FlowMonotone(b.rate, 0.0, 0.0, b.last, now);
  }

  /** Over every run: however often it was asked in vain since call `i`, a bucket holds what it held then and a rate's
      worth for all the time since, up to one second of rate. */
  lemma {:induction false} VainCallsKeep(b: Bucket, t: real, cs: seq<Call>, i: nat, now: real)
    requires b.Valid() && b.last <= t && After(b, t, cs).Some? && i <= |cs| && Finish(t, cs) <= now
    requires Through(b, t, cs, i) == 0
    ensures After(b, t, cs[..i]).Some?
    ensures Saved(After(b, t, cs).value, now) == Saved(After(b, t, cs[..i]).value, now)
    decreases |cs|
  {
    PrefixRuns(b, t, cs, i);
    if i == |cs| {
      assert cs[..i] == cs;
    } else {
      var front, c := cs[..|cs| - 1], cs[|cs| - 1];
      TokensBounded(b, t, front);
      EndsAfter(After(b, t, front).value, c);
      VainCallsKeep(b, t, front, i, now);
      assert front[..i] == cs[..i];
      VainCall(After(b, t, front).value, c, now);
    }
  }

  /** The tokens a call finds: all that time has earned since call `i`, if none was let through since, up to a second's
      worth. */
  lemma {:induction false} TokensEarned(b: Bucket, t: real, cs: seq<Call>, i: nat, now: real)
    requires b.Valid() && b.last <= t && After(b, t, cs).Some? && i <= |cs| && Finish(t, cs) <= now
    requires Through(b, t, cs, i) == 0
    ensures After(b, t, cs[..i]).Some?
    ensures Refilled(After(b, t, cs).value, now).tokens == Saved(After(b, t, cs[..i]).value, now)
  {
    VainCallsKeep(b, t, cs, i, now);
    TokensBounded(b, t, cs);
    RefilledExact(After(b, t, cs).value, now);
  }

  /** What is saved up covers what the time since `from` earned, up to a second's worth. */
  lemma SavedCovers(m: Bucket, from: real, now: real)
    requires m.Valid() && m.last <= from <= now
    ensures Saved(m, now) >= MinR(Flow(m.rate, from, now), m.rate)
  {
    FlowMonotone(m.rate, from, now, m.last, now);
  }

  lemma {:induction false} EarnedSince(b: Bucket, t: real, cs: seq<Call>, i: nat, now: real)
    requires b.Valid() && b.last <= t && After(b, t, cs).Some? && i <= |cs| && Through(b, t, cs, i) == 0
    requires Finish(t, cs) <= now
    ensures Refilled(After(b, t, cs).value, now).tokens >= MinR(Flow(b.rate, Finish(t, cs[..i]), now), b.rate)
  {
    TokensEarned(b, t, cs, i, now);
    PrefixRuns(b, t, cs, i);
    TokensBounded(b, t, cs[..i]);
    SavedCovers(After(b, t, cs[..i]).value, Finish(t, cs[..i]), now);
  }

  /** So a request of no more than what the time since the last call that let anything through has earned, and at most a
      second's worth, is never refused, whatever was refused in between. */
  lemma {:induction false} NeverStarved(b: Bucket, t: real, cs: seq<Call>, i: nat, c: Call)
    requires b.Valid() && b.last <= t && After(b, t, cs).Some? && i <= |cs| && Through(b, t, cs, i) == 0
    requires c.TryTake? && Finish(t, cs) <= c.begin <= c.now
    requires c.bytes as real <= Flow(b.rate, Finish(t, cs[..i]), c.now) && c.bytes as real <= b.rate
    ensures Admitted(After(b, t, cs).value, c) == c.bytes
  {
    EarnedSince(b, t, cs, i, c.now);
  }

  /** A bucket that has let nothing through for a second since its last wait ended is full. */
  lemma {:induction false} FullAfterASecond(b: Bucket, t: real, cs: seq<Call>, i: nat, now: real)
    requires b.Valid() && b.last <= t && After(b, t, cs).Some? && i <= |cs| && Through(b, t, cs, i) == 0
    requires Finish(t, cs) <= now && Finish(t, cs[..i]) + 1.0 <= now
    ensures Refilled(After(b, t, cs).value, now).tokens == b.rate
  {
    EarnedSince(b, t, cs, i, now);
    FlowMonotone(b.rate, 0.0, 1.0, Finish(t, cs[..i]), now);
  }

  // ---- debits whose waits the caller may skip ----

  /** A debit with its two clock readings. */
  datatype Debit = Debit(now: real, again: real, bytes: nat)

  /** The bucket after debits at any times; its `last` is when the wait of the latest one ends. */
  function AfterDebits(b: Bucket, ds: seq<Debit>): (e: Bucket)
    requires b.rate > 0.0
    ensures e.rate == b.rate
  {
    if ds == [] then b
    else
      var d := ds[|ds| - 1];
      Debited(AfterDebits(b, ds[..|ds| - 1]), d.now, d.again, d.bytes).0
  }

  function Total(ds: seq<Debit>): nat { if ds == [] then 0 else Total(ds[..|ds| - 1]) + ds[|ds| - 1].bytes }

  /** Debt a debit writes off by coming before the waits so far are over. */
  function Forgiven(b: Bucket, ds: seq<Debit>): real
    requires b.rate > 0.0
  {
    if ds == [] then 0.0
    else
      var front, d := ds[..|ds| - 1], ds[|ds| - 1];
      Forgiven(b, front) + Flow(b.rate, 0.0, MaxR(0.0, AfterDebits(b, front).last - d.now))
  }

  /** Tokens never handed out: over a full bucket, or between the two readings of a debit that waits. */
  function Dropped(b: Bucket, ds: seq<Debit>): real
    requires b.rate > 0.0
  {
    if ds == [] then 0.0
    else
      Dropped(b, ds[..|ds| - 1]) + DroppedBy(AfterDebits(b, ds[..|ds| - 1]), ds[|ds| - 1])
  }

  function DroppedBy(b: Bucket, d: Debit): real
    requires b.rate > 0.0
  {
    var have := b.tokens + Flow(b.rate, 0.0, MaxR(0.0, d.now - b.last));
    MaxR(0.0, have - b.rate) + if MinR(have, b.rate) < d.bytes as real then Flow(b.rate, d.now, d.again) else 0.0
  }

  lemma RefillBalance(b: Bucket, now: real)
    requires b.rate > 0.0
    ensures Refilled(b, now).tokens == MinR(b.tokens + Flow(b.rate, 0.0, MaxR(0.0, now - b.last)), b.rate)
    ensures Flow(b.rate, 0.0, MaxR(0.0, now - b.last))
            == Flow(b.rate, b.last, now) + Flow(b.rate, 0.0, MaxR(0.0, b.last - now))
  {
  }

  /** The part of a debit after its refill. */
  lemma TakeBalance(r: Bucket, now: real, again: real, bytes: nat)
    requires r.rate > 0.0 && r.last == now
    ensures var left := r.tokens - bytes as real;
            var last := if left < 0.0 then again + (0.0 - left) / r.rate else now;
            MaxR(left, 0.0) + (if left < 0.0 then Flow(r.rate, now, again) else 0.0) + bytes as real
            == r.tokens + Flow(r.rate, now, last)
  {
    var left := r.tokens - bytes as real;
    if left < 0.0 {
      FlowTelescopes(r.rate, now, again, again + (0.0 - left) / r.rate);
      assert Flow(r.rate, again, again + (0.0 - left) / r.rate) == 0.0 - left;
    }
  }

  /** One debit: what it takes, against tokens, time, debt written off and tokens dropped. */
  lemma DebitBalance(b: Bucket, d: Debit)
    requires b.rate > 0.0
    ensures var e := Debited(b, d.now, d.again, d.bytes).0;
            d.bytes as real + e.tokens + DroppedBy(b, d)
            == b.tokens + Flow(b.rate, b.last, e.last) + Flow(b.rate, 0.0, MaxR(0.0, b.last - d.now))
  {
    var r, e := Refilled(b, d.now), Debited(b, d.now, d.again, d.bytes).0;
    RefillBalance(b, d.now);
    TakeBalance(r, d.now, d.again, d.bytes);
    FlowTelescopes(b.rate, b.last, d.now, e.last);
  }

  lemma {:induction false} DebitsBalance(b: Bucket, ds: seq<Debit>)
    requires b.rate > 0.0
    ensures var e := AfterDebits(b, ds);
            Total(ds) as real + e.tokens + Dropped(b, ds) == b.tokens + Flow(b.rate, b.last, e.last) + Forgiven(b, ds)
  {
    if ds != [] {
      var front, d := ds[..|ds| - 1], ds[|ds| - 1];
      DebitsBalance(b, front);
      DebitBalance(AfterDebits(b, front), d);
      FlowTelescopes(b.rate, b.last, AfterDebits(b, front).last, AfterDebits(b, ds).last);
    }
  }

  /** Over any debits at any times, slept off or not: they stay within rate times the time until the last wait ends plus
      one second of burst if and only if the debt written off is covered by the tokens dropped, those missing at the
      start and those left at the end. */
  lemma DebitsBoundIff(b: Bucket, ds: seq<Debit>)
    requires b.rate > 0.0
    ensures var e := AfterDebits(b, ds);
            Total(ds) as real <= Flow(b.rate, b.last, e.last) + b.rate
            <==> Forgiven(b, ds) <= Dropped(b, ds) + (b.rate - b.tokens) + e.tokens
  {
    DebitsBalance(b, ds);
  }

  /** A debit on a full bucket. */
  lemma FirstDebit(b: Bucket, bytes: nat)
    requires b.rate > 0.0 && b.tokens == b.rate
    ensures var (m, wait) := Debited(b, b.last, b.last, bytes);
            && m.Valid() && m.rate == b.rate && m.last == b.last + wait && (wait > 0.0 ==> m.tokens == 0.0)
            && bytes as real + m.tokens == b.rate + Flow(b.rate, b.last, m.last)
  {
    var d := Debit(b.last, b.last, bytes);
    assert Refilled(b, b.last) == b;
    DebitBalance(b, d);
  }

  lemma LateDebit(m: Bucket, d: Debit)
    requires m.Valid() && m.last <= d.now == d.again
    ensures DroppedBy(m, d) >= 0.0 && Debited(m, d.now, d.again, d.bytes).0.tokens >= 0.0
  {
    MulNonNegative(d.now - m.last, m.rate);
  }

  lemma EarlyDebit(m: Bucket, d: Debit)
    requires m.rate > 0.0 && m.tokens == 0.0 && d.now == d.again < m.last
    ensures DroppedBy(m, d) == 0.0 == Debited(m, d.now, d.again, d.bytes).0.tokens
    ensures Flow(m.rate, 0.0, m.last - d.now) > 0.0
  {
    assert Refilled(m, d.now).tokens == 0.0;
  }

  /** After a first debit that left `m`, the second one's account is covered if and only if it is not early. */
  lemma CoveredIff(m: Bucket, d: Debit)
    requires m.Valid() && d.now == d.again && (d.now < m.last ==> m.tokens == 0.0)
    ensures Flow(m.rate, 0.0, MaxR(0.0, m.last - d.now))
            <= DroppedBy(m, d) + Debited(m, d.now, d.again, d.bytes).0.tokens
            <==> m.last <= d.now
  {
    if m.last <= d.now { LateDebit(m, d); } else { EarlyDebit(m, d); }
  }

  /** From a full bucket two debits keep the bound if and only if the second comes once the wait of the first is
      over. */
  lemma SecondDebitIff(b: Bucket, first: nat, now: real, second: nat)
    requires b.rate > 0.0 && b.tokens == b.rate && b.last <= now
    ensures var (m, wait) := Debited(b, b.last, b.last, first);
            var (e, _) := Debited(m, now, now, second);
            (first + second) as real <= Flow(b.rate, b.last, e.last) + b.rate <==> b.last + wait <= now
  {
    var (m, wait) := Debited(b, b.last, b.last, first);
    var d := Debit(now, now, second);
    FirstDebit(b, first);
    DebitBalance(m, d);
    CoveredIff(m, d);
    FlowTelescopes(b.rate, b.last, m.last, Debited(m, now, now, second).0.last);
  }

  /** The bound needs the waits honoured: two debits at the same instant, neither slept off, let through three
      seconds' worth where one second of burst is allowed. */
  lemma UnhonouredDebitsExceed(now: real)
    ensures var b := Create(1000, now);
            var (b1, w1) := Debited(b, now, now, 2000);
            var (b2, w2) := Debited(b1, now, now, 1000);
            && w1 == 1.0 && w2 == 1.0
            && (2000 + 1000) as real > b.rate * (now + w2 - now) + b.rate
  {
  }
}

/** Guest RAM: a bounds-checked byte array at a guest-physical base address. */
module GuestMemory {
  import opened Words

  datatype Ram = Ram(base: u64, bytes: seq<byte>) {
    predicate Valid() { base + |bytes| <= U64_SPAN }
  }

  /** The `n` bytes at guest-physical `a` all lie in RAM. */
  predicate InRam(r: Ram, a: int, n: nat) { r.base <= a && a + n <= r.base + |r.bytes| }

  function Slice(r: Ram, a: int, n: nat): (s: seq<byte>)
    requires InRam(r, a, n)
    ensures |s| == n
  {
    r.bytes[a - r.base..a - r.base + n]
  }

  /** A typed read; out of range reads zero. */
  function ReadLe(r: Ram, a: int, n: nat): (v: nat)
    ensures v < Pow256(n)
  {
    if InRam(r, a, n) then (FromLeBound(Slice(r, a, n)); FromLe(Slice(r, a, n))) else 0
  }

  /** A write; out of range changes nothing. */
  function WriteAt(r: Ram, a: int, s: seq<byte>): (w: Ram)
    ensures w.base == r.base && |w.bytes| == |r.bytes|
  {
    if InRam(r, a, |s|) then r.(bytes := r.bytes[..a - r.base] + s + r.bytes[a - r.base + |s|..]) else r
  }

  /** Wrapping 64-bit address arithmetic. */
  function Plus(a: u64, n: nat): u64
    requires n < U64_SPAN
  {
    if a + n < U64_SPAN then a + n else a + n - U64_SPAN
  }

  /** Two RAMs hold the same bytes in `[a, a + n)`. */
  predicate Agree(r: Ram, w: Ram, a: int, n: nat) {
    r.base == w.base && |r.bytes| == |w.bytes| && (InRam(r, a, n) ==> Slice(r, a, n) == Slice(w, a, n))
  }

  predicate Apart(a: int, n: nat, b: int, m: nat) { a + n <= b || b + m <= a }

  lemma SliceWritten(r: Ram, a: int, s: seq<byte>)
    requires InRam(r, a, |s|)
    ensures Slice(WriteAt(r, a, s), a, |s|) == s
  {
  }

  lemma ReadWritten(r: Ram, a: int, v: nat, n: nat)
    requires InRam(r, a, n) && v < Pow256(n)
    ensures ReadLe(WriteAt(r, a, Le(v, n)), a, n) == v
  {
    SliceWritten(r, a, Le(v, n));
    LeRoundTrip(v, n);
  }

  lemma AgreeApart(r: Ram, a: int, s: seq<byte>, b: int, m: nat)
    requires Apart(a, |s|, b, m)
    ensures Agree(r, WriteAt(r, a, s), b, m)
  {
  }

  /** A write elsewhere does not change what a typed read returns. */
  lemma ReadOther(r: Ram, a: int, s: seq<byte>, b: int, m: nat)
    requires Apart(a, |s|, b, m)
    ensures ReadLe(WriteAt(r, a, s), b, m) == ReadLe(r, b, m)
  {
    AgreeApart(r, a, s, b, m);
  }

  lemma AgreeTrans(r: Ram, s: Ram, t: Ram, a: int, n: nat)
    requires Agree(r, s, a, n) && Agree(s, t, a, n)
    ensures Agree(r, t, a, n)
  {
  }

  lemma AgreePart(r: Ram, w: Ram, a: int, n: nat, b: int, m: nat)
    requires Agree(r, w, a, n) && InRam(r, a, n) && a <= b && b + m <= a + n
    ensures Agree(r, w, b, m) && ReadLe(w, b, m) == ReadLe(r, b, m)
  {
    forall k | 0 <= k < m ensures Slice(r, b, m)[k] == Slice(w, b, m)[k] {
      assert Slice(r, b, m)[k] == Slice(r, a, n)[b - a + k];
      assert Slice(w, b, m)[k] == Slice(w, a, n)[b - a + k];
    }
    assert Slice(r, b, m) == Slice(w, b, m);
  }

  lemma {:induction false} ZeroesReadZero(s: seq<byte>)
    requires forall k | 0 <= k < |s| :: s[k] == 0
    ensures FromLe(s) == 0
  {
    if s != [] { ZeroesReadZero(s[1..]); }
  }

  /** The view of guest RAM devices hold. */
  class GuestRam {
    const base: u64
    const host: array<byte>

    constructor (base: u64, len: nat)
      requires base + len <= U64_SPAN
      ensures View().base == base && |View().bytes| == len && View().Valid() && fresh(host)
    {
      this.base := base;
      host := new byte[len](_ => 0);
    }

    ghost function View(): Ram
      reads this, host
    {
      Ram(base, host[..])
    }

    predicate InRange(gpa: nat, n: nat)
      reads this, host
      ensures InRange(gpa, n) == InRam(View(), gpa, n)
    {
      base <= gpa && gpa - base + n <= host.Length
    }

    /** Copy out; a range not wholly in RAM is refused and leaves the buffer as it was. */
    method Read(gpa: nat, buf: array<byte>) returns (ok: bool)
      requires buf != host
      modifies buf
      ensures ok == InRam(View(), gpa, buf.Length)
      ensures buf[..] == if ok then Slice(View(), gpa, buf.Length) else old(buf[..])
    {
      ok := InRange(gpa, buf.Length);
      if !ok {
        return;
      }
      var off := gpa - base;
      for i := 0 to buf.Length
        invariant buf[..i] == host[off..off + i]
      {
        buf[i] := host[off + i];
      }
      assert buf[..] == buf[..buf.Length];
    }

    /** Copy in, byte by byte; refused if any byte would fall outside RAM. */
    method Write(gpa: nat, buf: seq<byte>) returns (ok: bool)
      modifies host
      ensures ok == InRam(old(View()), gpa, |buf|)
      ensures View() == WriteAt(old(View()), gpa, buf)
    {
      ok := InRange(gpa, |buf|);
      if !ok {
        return;
      }
      var off := gpa - base;
      for i := 0 to |buf|
        invariant forall k | 0 <= k < host.Length ::
                    host[k] == if off <= k < off + i then buf[k - off] else old(host[k])
      {
        host[off + i] := buf[i];
      }
      assert host[..] == WriteAt(old(View()), gpa, buf).bytes;
    }

    method ReadTyped(gpa: nat, n: nat) returns (v: nat)
      ensures v == ReadLe(View(), gpa, n)
    {
      var buf := new byte[n](_ => 0);
      var ok := Read(gpa, buf);
      if !ok { ZeroesReadZero(buf[..]); }
      v := FromLe(buf[..]);
    }

    method WriteTyped(gpa: nat, v: nat, n: nat)
      modifies host
      ensures View() == WriteAt(old(View()), gpa, Le(v, n))
    {
      var _ := Write(gpa, Le(v, n));
    }
  }
}

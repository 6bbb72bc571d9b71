/** Machine words as bounded integers, and the little-endian byte codec the rings and packets use. */
module Words {
  type byte = x: int | 0 <= x < 0x100
  type u16 = x: int | 0 <= x < 0x1_0000
  type u32 = x: int | 0 <= x < 0x1_0000_0000
  type u64 = x: int | 0 <= x < 0x1_0000_0000_0000_0000

  const U16_SPAN: nat := 0x1_0000
  const U32_SPAN: nat := 0x1_0000_0000
  const U64_SPAN: nat := 0x1_0000_0000_0000_0000

  datatype Option<+T> = None | Some(value: T)

  function Min(a: int, b: int): int { if a < b then a else b }

  function Max(a: int, b: int): int { if a < b then b else a }

  lemma Regroup<T>(a: seq<T>, b: seq<T>, c: seq<T>)
    ensures (a + b) + c == a + (b + c)
  {
  }

  function Pow2(n: nat): (r: nat)
    ensures r > 0
  {
    if n == 0 then 1 else 2 * Pow2(n - 1)
  }

  /** Bit `b` of `v`, that is `v & (1 << b) != 0`. */
  predicate Bit(v: nat, b: nat) { v / Pow2(b) % 2 == 1 }

  /** Byte `k` of `v`, that is `(v >> (8 * k)) as u8`. */
  function ByteOf(v: nat, k: nat): byte { v / Pow2(8 * k) % 256 }

  // ---- wrapping 32-bit counters ----

  function WrapAdd(a: u32, n: nat): u32 { (a + n) % U32_SPAN }

  function WrapSub(a: u32, b: u32): u32 { (a - b) % U32_SPAN }

  lemma WrapAddExact(a: nat, n: nat)
    ensures WrapAdd(a % U32_SPAN, n) == (a + n) % U32_SPAN
  {
  }

  /** Two counters less than a full turn apart are told apart by their wrapping difference. */
  lemma WrapSubExact(a: nat, b: nat)
    requires b <= a < b + U32_SPAN
    ensures WrapSub(a % U32_SPAN, b % U32_SPAN) == a - b
  {
  }

  /** Advancing a counter advances its distance from another, as long as that is less than a full turn. */
  lemma WrapSubAdvance(a: u32, b: u32, n: nat)
    requires WrapSub(a, b) + n < U32_SPAN
    ensures WrapSub(WrapAdd(a, n), b) == WrapSub(a, b) + n
  {
    Turn32(a - b);
    Turn32(a + n - U32_SPAN);
    Turn32(WrapAdd(a, n) - b);
  }

  lemma Turn32(x: int)
    requires 0 <= x + U32_SPAN < 2 * U32_SPAN
    ensures x % U32_SPAN == if x < 0 then x + U32_SPAN else x
    ensures (x + U32_SPAN) % U32_SPAN == x % U32_SPAN
  {
  }

  // ---- little-endian codec ----

  function Pow256(n: nat): (r: nat)
    ensures r > 0
  {
    if n == 0 then 1 else 256 * Pow256(n - 1)
  }

  function Le(v: nat, n: nat): (s: seq<byte>)
    ensures |s| == n
  {
    if n == 0 then [] else [v % 256] + Le(v / 256, n - 1)
  }

  function FromLe(s: seq<byte>): nat {
    if s == [] then 0 else s[0] + 256 * FromLe(s[1..])
  }

  lemma {:induction false} LeRoundTrip(v: nat, n: nat)
    requires v < Pow256(n)
    ensures FromLe(Le(v, n)) == v
  {
    if n > 0 {
      LeRoundTrip(v / 256, n - 1);
      assert Le(v, n)[1..] == Le(v / 256, n - 1);
    }
  }

  lemma {:induction false} FromLeBound(s: seq<byte>)
    ensures FromLe(s) < Pow256(|s|)
  {
    if s != [] { FromLeBound(s[1..]); }
  }

  /** The byte order: the first byte is the least significant. */
  lemma TwoBytes(v: u16)
    ensures Le(v, 2) == [v % 0x100, v / 0x100] && FromLe([v % 0x100, v / 0x100]) == v
  {
    assert Le(v / 0x100, 1) == [v / 0x100];
    assert [v % 0x100, v / 0x100][1..] == [v / 0x100] && FromLe([v / 0x100]) == v / 0x100;
  }

  lemma FourBytes(v: u32)
    ensures Le(v, 4) == [v % 0x100, v / 0x100 % 0x100, v / 0x1_0000 % 0x100, v / 0x100_0000]
  {
    TwoBytes(v / 0x1_0000);
    assert v / 0x100 / 0x100 == v / 0x1_0000;
    assert Le(v / 0x100, 3) == [v / 0x100 % 0x100] + Le(v / 0x1_0000, 2);
  }

  lemma Pow256Values()
    ensures Pow256(2) == U16_SPAN && Pow256(4) == U32_SPAN && Pow256(8) == U64_SPAN
  {
    assert Pow256(1) == 256 && Pow256(2) == 0x1_0000 && Pow256(3) == 0x100_0000;
    assert Pow256(4) == U32_SPAN && Pow256(5) == 256 * U32_SPAN && Pow256(6) == 0x1_0000 * U32_SPAN;
    assert Pow256(7) == 0x100_0000 * U32_SPAN;
  }

  // ---- parts of a byte string ----

  /** `s` lies in `b` at offset `c`. */
  predicate Holds(b: seq<byte>, c: nat, s: seq<byte>) { c + |s| <= |b| && b[c..c + |s|] == s }

  lemma HoldsSplit(b: seq<byte>, c: nat, s: seq<byte>, t: seq<byte>)
    requires Holds(b, c, s + t)
    ensures Holds(b, c, s) && Holds(b, c + |s|, t)
  {
    var w := b[c..c + |s + t|];
    assert w[..|s|] == s && w[|s|..] == t;
    assert b[c..c + |s|] == w[..|s|];
    assert b[c + |s|..c + |s| + |t|] == w[|s|..];
  }

  /** A little-endian field read back from where it was written; what follows it is found after it. */
  lemma FieldBack(b: seq<byte>, c: nat, v: nat, n: nat, rest: seq<byte>)
    requires Holds(b, c, Le(v, n) + rest) && v < Pow256(n)
    ensures c + n <= |b| && FromLe(b[c..c + n]) == v && Holds(b, c + n, rest)
  {
    HoldsSplit(b, c, Le(v, n), rest);
    LeRoundTrip(v, n);
  }
}

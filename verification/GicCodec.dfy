/** The GIC snapshot blob: what capture writes, what restore reads, and how the two relate. */
module GicCodec {
  import opened Words
  import opened GicSpec

  const BLOB_MAGIC: byte := 0xa2
  const BLOB_V2: byte := 2
  const RUNNING_CAP: nat := 255

  // ---- writer ----

  function BoolByte(x: bool): byte { if x then 1 else 0 }

  function BoolBytes(s: seq<bool>): seq<byte> { seq(|s|, i requires 0 <= i < |s| => BoolByte(s[i])) }

  function EncodeLines(l: Lines): seq<byte> {
    BoolBytes(l.enabled)
    + (BoolBytes(l.pending)
       + (BoolBytes(l.active)
          + (BoolBytes(l.level)
             + (BoolBytes(l.edge)
                + l.priority))))
  }

  /** The part of a running stack the one-byte count can describe. */
  function Capped(r: seq<byte>): (c: seq<byte>)
    ensures |c| <= RUNNING_CAP
  {
    r[..Min(|r|, RUNNING_CAP)]
  }

  function EncodeBank(b: CpuBank): seq<byte> {
    [BoolByte(b.cpuEnabled), b.pmr]
    + (EncodeLines(b.lines)
       + (b.sgiSrc
          + ([|Capped(b.running)|]
             + Capped(b.running))))
  }

  function EncodeBanks(bs: seq<CpuBank>): seq<byte> {
    if bs == [] then [] else EncodeBank(bs[0]) + EncodeBanks(bs[1..])
  }

  function EncodeHeader(g: Gic): seq<byte>
    requires g.Valid()
  {
    [BLOB_MAGIC, BLOB_V2, |g.cpus|, BoolByte(g.distEnabled)]
  }

  function Encode(g: Gic): seq<byte>
    requires g.Valid()
  {
    EncodeHeader(g) + (EncodeBanks(g.cpus) + (EncodeLines(g.lines) + g.targets))
  }

  // ---- reader ----

  /** Byte `c` of a blob; bytes past the end read as zero. */
  function At(b: seq<byte>, c: nat): byte { if c < |b| then b[c] else 0 }

  function BytesAt(b: seq<byte>, c: nat, n: nat): (r: seq<byte>)
    ensures |r| == n
  {
    seq<byte>(n, i requires 0 <= i < n => At(b, c + i))
  }

  function BoolsAt(b: seq<byte>, c: nat, n: nat): (r: seq<bool>)
    ensures |r| == n
  {
    seq(n, i requires 0 <= i < n => At(b, c + i) != 0)
  }

  function LinesAt(b: seq<byte>, c: nat, n: nat): (l: Lines)
    ensures l.Sized(n)
  {
    Lines(BoolsAt(b, c, n), BoolsAt(b, c + n, n), BoolsAt(b, c + 2 * n, n), BoolsAt(b, c + 3 * n, n),
          BoolsAt(b, c + 4 * n, n), BytesAt(b, c + 5 * n, n))
  }

  function BankAt(b: seq<byte>, c: nat): (k: CpuBank)
    ensures k.Valid()
  {
    CpuBank(At(b, c) != 0, At(b, c + 1), BytesAt(b, c + 211, At(b, c + 210)), LinesAt(b, c + 2, PRIVATE),
            BytesAt(b, c + 194, 16))
  }

  /** Where the bank after the one at `c` starts. */
  function NextBank(b: seq<byte>, c: nat): nat { c + 211 + At(b, c + 210) }

  function BanksAt(b: seq<byte>, c: nat, n: nat): (r: seq<CpuBank>)
    ensures |r| == n && forall i | 0 <= i < n :: r[i].Valid()
    decreases n
  {
    if n == 0 then [] else [BankAt(b, c)] + BanksAt(b, NextBank(b, c), n - 1)
  }

  function AfterBanks(b: seq<byte>, c: nat, n: nat): nat
    decreases n
  {
    if n == 0 then c else AfterBanks(b, NextBank(b, c), n - 1)
  }

  function BlobCpus(b: seq<byte>): (n: nat)
    ensures 1 <= n <= MAX_CPUS
  {
    Max(1, Min(At(b, 2), MAX_CPUS))
  }

  /** A versioned blob loaded into a GIC that has `have` banks: never fewer banks than that, extra ones reset. */
  function Restored(have: nat, b: seq<byte>): (g: Gic)
    requires 1 <= have <= MAX_CPUS
    ensures g.Valid() && |g.cpus| == Max(BlobCpus(b), have)
  {
    var n := BlobCpus(b);
    var c := AfterBanks(b, 4, n);
    Gic(At(b, 3) != 0, BanksAt(b, 4, n) + seq(Max(n, have) - n, _ => DefaultBank()),
        LinesAt(b, c, NUM_INTID), BytesAt(b, c + 6 * NUM_INTID, NUM_INTID))
  }

  // ---- the single-CPU layout of older snapshots ----

  /** The private part of flat per-INTID arrays. */
  function PrivatePart(l: Lines): (r: Lines)
    requires l.Sized(NUM_INTID)
    ensures r.Sized(PRIVATE)
  {
    Lines(l.enabled[..PRIVATE], l.pending[..PRIVATE], l.active[..PRIVATE], l.level[..PRIVATE], l.edge[..PRIVATE],
          l.priority[..PRIVATE])
  }

  /** The shared part of `l` over what `was` holds for private INTIDs. */
  function SharedPart(was: Lines, l: Lines): (r: Lines)
    requires was.Sized(NUM_INTID) && l.Sized(NUM_INTID)
    ensures r.Sized(NUM_INTID)
  {
    Lines(was.enabled[..PRIVATE] + l.enabled[PRIVATE..], was.pending[..PRIVATE] + l.pending[PRIVATE..],
          was.active[..PRIVATE] + l.active[PRIVATE..], was.level[..PRIVATE] + l.level[PRIVATE..],
          was.edge[..PRIVATE] + l.edge[PRIVATE..], was.priority[..PRIVATE] + l.priority[PRIVATE..])
  }

  const LEGACY_RUNNING: nat := 3 + 6 * NUM_INTID

  /** What the layout holds: one CPU, its private INTIDs in the same arrays as the shared ones. */
  datatype Legacy = Legacy(distEnabled: bool, cpuEnabled: bool, pmr: byte, lines: Lines, running: seq<byte>)

  function LegacyAt(b: seq<byte>): (l: Legacy)
    ensures l.lines.Sized(NUM_INTID) && |l.running| <= RUNNING_CAP
  {
    Legacy(At(b, 0) != 0, At(b, 1) != 0, At(b, 2), LinesAt(b, 3, NUM_INTID),
           BytesAt(b, LEGACY_RUNNING + 1, At(b, LEGACY_RUNNING)))
  }

  /** `l` loaded into `g`: one bank, shared INTIDs routed to it, and whatever the bank count was before. */
  function Migrated(g: Gic, l: Legacy): (r: Gic)
    requires g.Valid() && l.lines.Sized(NUM_INTID)
    ensures r.Valid() && |r.cpus| == 1
  {
    Gic(l.distEnabled, [CpuBank(l.cpuEnabled, l.pmr, l.running, PrivatePart(l.lines), seq<byte>(16, _ => 0))],
        SharedPart(g.lines, l.lines), seq<byte>(NUM_INTID, _ => 1))
  }

  /** A blob of any bytes loaded into `g`: the first byte tells the layout. */
  function Loaded(g: Gic, b: seq<byte>): (r: Gic)
    requires g.Valid()
    ensures r.Valid()
  {
    if b != [] && b[0] == BLOB_MAGIC then Restored(|g.cpus|, b) else Migrated(g, LegacyAt(b))
  }

  // ---- round trip ----

  lemma HoldsAt(b: seq<byte>, c: nat, s: seq<byte>, i: nat)
    requires Holds(b, c, s) && i < |s|
    ensures At(b, c + i) == s[i]
  {
    assert b[c..c + |s|][i] == b[c + i];
  }

  lemma BytesBack(b: seq<byte>, c: nat, s: seq<byte>)
    requires Holds(b, c, s)
    ensures BytesAt(b, c, |s|) == s
  {
    forall i | 0 <= i < |s| ensures At(b, c + i) == s[i] { HoldsAt(b, c, s, i); }
  }

  lemma BoolsBack(b: seq<byte>, c: nat, s: seq<bool>, rest: seq<byte>)
    requires Holds(b, c, BoolBytes(s) + rest)
    ensures BoolsAt(b, c, |s|) == s && Holds(b, c + |s|, rest)
  {
    HoldsSplit(b, c, BoolBytes(s), rest);
    forall i | 0 <= i < |s| ensures (At(b, c + i) != 0) == s[i] { HoldsAt(b, c, BoolBytes(s), i); }
  }

  lemma LinesBack(b: seq<byte>, c: nat, l: Lines, n: nat)
    requires l.Sized(n) && Holds(b, c, EncodeLines(l))
    ensures LinesAt(b, c, n) == l
  {
    var rest := BoolBytes(l.level) + (BoolBytes(l.edge) + l.priority);
    ThreeBack(b, c, n, l.enabled, l.pending, l.active, rest);
    var c3 := c + 3 * n;
    BoolsBack(b, c3, l.level, BoolBytes(l.edge) + l.priority);
    BoolsBack(b, c3 + n, l.edge, l.priority);
    BytesBack(b, c3 + n + n, l.priority);
  }

  lemma ThreeBack(b: seq<byte>, c: nat, n: nat, x: seq<bool>, y: seq<bool>, z: seq<bool>, rest: seq<byte>)
    requires |x| == |y| == |z| == n && Holds(b, c, BoolBytes(x) + (BoolBytes(y) + (BoolBytes(z) + rest)))
    ensures BoolsAt(b, c, n) == x && BoolsAt(b, c + n, n) == y && BoolsAt(b, c + 2 * n, n) == z
    ensures Holds(b, c + 3 * n, rest)
  {
    BoolsBack(b, c, x, BoolBytes(y) + (BoolBytes(z) + rest));
    BoolsBack(b, c + n, y, BoolBytes(z) + rest);
    BoolsBack(b, c + n + n, z, rest);
  }

  lemma EncodedLinesLength(l: Lines, n: nat)
    requires l.Sized(n)
    ensures |EncodeLines(l)| == 6 * n
  {
  }

  lemma BankBack(b: seq<byte>, c: nat, k: CpuBank)
    requires k.Valid() && Holds(b, c, EncodeBank(k))
    ensures BankAt(b, c) == k.(running := Capped(k.running))
    ensures NextBank(b, c) == c + |EncodeBank(k)|
  {
    var head, lines, r := [BoolByte(k.cpuEnabled), k.pmr], EncodeLines(k.lines), Capped(k.running);
    var count: seq<byte> := [|r|];
    EncodedLinesLength(k.lines, PRIVATE);
    HoldsSplit(b, c, head, lines + (k.sgiSrc + (count + r)));
    HoldsSplit(b, c + 2, lines, k.sgiSrc + (count + r));
    HoldsSplit(b, c + 194, k.sgiSrc, count + r);
    HoldsSplit(b, c + 210, count, r);
    HoldsAt(b, c, head, 0);
    HoldsAt(b, c, head, 1);
    HoldsAt(b, c + 210, count, 0);
    LinesBack(b, c + 2, k.lines, PRIVATE);
    BytesBack(b, c + 194, k.sgiSrc);
    BytesBack(b, c + 211, r);
  }

  /** Banks with every running stack cut to what the blob can hold. */
  function CappedBanks(bs: seq<CpuBank>): (r: seq<CpuBank>)
    ensures |r| == |bs|
  {
    seq(|bs|, i requires 0 <= i < |bs| => bs[i].(running := Capped(bs[i].running)))
  }

  lemma {:induction false} BanksBack(b: seq<byte>, c: nat, bs: seq<CpuBank>)
    requires (forall i | 0 <= i < |bs| :: bs[i].Valid()) && Holds(b, c, EncodeBanks(bs))
    ensures BanksAt(b, c, |bs|) == CappedBanks(bs)
    ensures AfterBanks(b, c, |bs|) == c + |EncodeBanks(bs)|
    decreases |bs|
  {
    if bs != [] {
      HoldsSplit(b, c, EncodeBank(bs[0]), EncodeBanks(bs[1..]));
      assert BankAt(b, c) == bs[0].(running := Capped(bs[0].running)) && NextBank(b, c) == c + |EncodeBank(bs[0])| by {
        BankBack(b, c, bs[0]);
      }
      BanksBack(b, NextBank(b, c), bs[1..]);
      BanksUnfold(b, c, |bs|);
      CappedBanksUnfold(bs);
    }
  }

  lemma BanksUnfold(b: seq<byte>, c: nat, n: nat)
    requires n > 0
    ensures BanksAt(b, c, n) == [BankAt(b, c)] + BanksAt(b, NextBank(b, c), n - 1)
    ensures AfterBanks(b, c, n) == AfterBanks(b, NextBank(b, c), n - 1)
  {
  }

  lemma CappedBanksUnfold(bs: seq<CpuBank>)
    requires bs != []
    ensures CappedBanks(bs) == [bs[0].(running := Capped(bs[0].running))] + CappedBanks(bs[1..])
  {
  }

  /** What a snapshot of `g` becomes in a GIC with `have` banks: the stacks capped at 255 entries,
      everything else exact, and banks `g` does not have left at reset. */
  function Transplanted(g: Gic, have: nat): Gic {
    g.(cpus := CappedBanks(g.cpus) + seq(Max(|g.cpus|, have) - |g.cpus|, _ => DefaultBank()))
  }

  /** Blob `b` holds the parts of `g` where restore looks for them. */
  predicate LaidOut(b: seq<byte>, g: Gic) {
    var c := 4 + |EncodeBanks(g.cpus)|;
    && At(b, 2) == |g.cpus| && At(b, 3) == BoolByte(g.distEnabled)
    && Holds(b, 4, EncodeBanks(g.cpus))
    && Holds(b, c, EncodeLines(g.lines)) && Holds(b, c + 6 * NUM_INTID, g.targets)
  }

  lemma BlobLayout(g: Gic)
    requires g.Valid()
    ensures LaidOut(Encode(g), g)
  {
    var b := Encode(g);
    var head, banks, lines := EncodeHeader(g), EncodeBanks(g.cpus), EncodeLines(g.lines);
    EncodedLinesLength(g.lines, NUM_INTID);
    assert b[0..|b|] == b;
    HoldsSplit(b, 0, head, banks + (lines + g.targets));
    HoldsAt(b, 0, head, 2);
    HoldsAt(b, 0, head, 3);
    HoldsSplit(b, 4, banks, lines + g.targets);
    HoldsSplit(b, 4 + |banks|, lines, g.targets);
  }

  lemma RestoreOfLayout(b: seq<byte>, g: Gic, have: nat)
    requires g.Valid() && LaidOut(b, g) && 1 <= have <= MAX_CPUS
    ensures Restored(have, b) == Transplanted(g, have)
  {
    var c := 4 + |EncodeBanks(g.cpus)|;
    assert BanksAt(b, 4, |g.cpus|) == CappedBanks(g.cpus) && AfterBanks(b, 4, |g.cpus|) == c by {
      BanksBack(b, 4, g.cpus);
    }
    assert LinesAt(b, c, NUM_INTID) == g.lines by { LinesBack(b, c, g.lines, NUM_INTID); }
    assert BytesAt(b, c + 6 * NUM_INTID, NUM_INTID) == g.targets by { BytesBack(b, c + 6 * NUM_INTID, g.targets); }
  }

  /** Restoring a captured blob, for any state at all. */
  lemma RestoreOfCapture(g: Gic, have: nat)
    requires g.Valid() && 1 <= have <= MAX_CPUS
    ensures Restored(have, Encode(g)) == Transplanted(g, have)
  {
    BlobLayout(g);
    RestoreOfLayout(Encode(g), g, have);
  }

  /** The codec is lossless exactly when no running stack is longer than 255. */
  lemma LosslessIff(g: Gic, have: nat)
    requires g.Valid() && 1 <= have <= |g.cpus|
    ensures Restored(have, Encode(g)) == g <==> forall c | 0 <= c < |g.cpus| :: |g.cpus[c].running| <= RUNNING_CAP
  {
    RestoreOfCapture(g, have);
    var r := Restored(have, Encode(g));
    assert r.cpus == CappedBanks(g.cpus);
    forall c | 0 <= c < |g.cpus|
      ensures r.cpus[c] == g.cpus[c] <==> |g.cpus[c].running| <= RUNNING_CAP
    {
      assert r.cpus[c] == g.cpus[c].(running := Capped(g.cpus[c].running));
    }
  }

  /** A captured blob is never taken for the older layout. */
  lemma LoadOfCapture(g: Gic, into: Gic)
    requires g.Valid() && into.Valid()
    ensures Loaded(into, Encode(g)) == Transplanted(g, |into.cpus|)
  {
    RestoreOfCapture(g, |into.cpus|);
    assert Encode(g)[0] == EncodeHeader(g)[0];
  }

  /** The older layout as its writer laid it out. */
  function EncodeLegacy(l: Legacy): seq<byte>
    requires |l.running| <= RUNNING_CAP
  {
    [BoolByte(l.distEnabled), BoolByte(l.cpuEnabled), l.pmr] + (EncodeLines(l.lines) + ([|l.running|] + l.running))
  }

  lemma LegacyBack(l: Legacy)
    requires l.lines.Sized(NUM_INTID) && |l.running| <= RUNNING_CAP
    ensures LegacyAt(EncodeLegacy(l)) == l
  {
    var b, lines := EncodeLegacy(l), EncodeLines(l.lines);
    var head := [BoolByte(l.distEnabled), BoolByte(l.cpuEnabled), l.pmr];
    var count: seq<byte> := [|l.running|];
    EncodedLinesLength(l.lines, NUM_INTID);
    assert b[0..|b|] == b;
    HoldsSplit(b, 0, head, lines + (count + l.running));
    HoldsSplit(b, 3, lines, count + l.running);
    HoldsSplit(b, LEGACY_RUNNING, count, l.running);
    LegacyHead(b, l);
    HoldsAt(b, LEGACY_RUNNING, count, 0);
    LinesBack(b, 3, l.lines, NUM_INTID);
    BytesBack(b, LEGACY_RUNNING + 1, l.running);
  }

  lemma LegacyHead(b: seq<byte>, l: Legacy)
    requires Holds(b, 0, [BoolByte(l.distEnabled), BoolByte(l.cpuEnabled), l.pmr])
    ensures (At(b, 0) != 0) == l.distEnabled && (At(b, 1) != 0) == l.cpuEnabled && At(b, 2) == l.pmr
  {
    var head := [BoolByte(l.distEnabled), BoolByte(l.cpuEnabled), l.pmr];
    HoldsAt(b, 0, head, 0);
    HoldsAt(b, 0, head, 1);
    HoldsAt(b, 0, head, 2);
  }

  /** An older single-CPU snapshot migrates: CPU 0 sees every INTID as that snapshot had it. The GIC then has one bank,
      however many it had before. */
  lemma LegacyMigrates(g: Gic, l: Legacy, i: nat)
    requires g.Valid() && l.lines.Sized(NUM_INTID) && |l.running| <= RUNNING_CAP && i < NUM_INTID
    ensures var r := Loaded(g, EncodeLegacy(l));
            && r == Migrated(g, l) && |r.cpus| == 1
            && r.distEnabled == l.distEnabled && r.cpus[0].running == l.running && r.cpus[0].pmr == l.pmr
            && Block(r, 0, i).enabled[i] == l.lines.enabled[i] && Block(r, 0, i).pending[i] == l.lines.pending[i]
            && Block(r, 0, i).active[i] == l.lines.active[i] && Block(r, 0, i).level[i] == l.lines.level[i]
            && Block(r, 0, i).edge[i] == l.lines.edge[i] && Block(r, 0, i).priority[i] == l.lines.priority[i]
  {
    LegacyBack(l);
    assert EncodeLegacy(l)[0] == BoolByte(l.distEnabled);
    PartsSeeAll(g.lines, l.lines, i);
  }

  lemma PartsSeeAll(was: Lines, l: Lines, i: nat)
    requires was.Sized(NUM_INTID) && l.Sized(NUM_INTID) && i < NUM_INTID
    ensures var p := if i < PRIVATE then PrivatePart(l) else SharedPart(was, l);
            && p.enabled[i] == l.enabled[i] && p.pending[i] == l.pending[i] && p.active[i] == l.active[i]
            && p.level[i] == l.level[i] && p.edge[i] == l.edge[i] && p.priority[i] == l.priority[i]
  {
  }

  // ---- where the fields are ----

  /** Six arrays one after the other: enabled, pending, active, level, edge and priority. */
  predicate LinesLie(b: seq<byte>, c: nat, n: nat, l: Lines) {
    && l.Sized(n)
    && forall i | 0 <= i < n ::
         && l.enabled[i] == (At(b, c + i) != 0) && l.pending[i] == (At(b, c + n + i) != 0)
         && l.active[i] == (At(b, c + 2 * n + i) != 0) && l.level[i] == (At(b, c + 3 * n + i) != 0)
         && l.edge[i] == (At(b, c + 4 * n + i) != 0) && l.priority[i] == At(b, c + 5 * n + i)
  }

  /** A versioned blob of one CPU by its offsets: 0xa2 and 2, the CPU count, the distributor, then the bank, with its
      stack length at 214, then the shared lines and the targets. */
  lemma BlobOffsets(g: Gic, b: seq<byte>)
    requires g.Valid() && |b| >= 4 && b[0] == 0xa2 && b[2] == 1
    ensures var r, end := Loaded(g, b), 215 + At(b, 214);
            && r.distEnabled == (b[3] != 0)
            && r.cpus[0].cpuEnabled == (At(b, 4) != 0) && r.cpus[0].pmr == At(b, 5)
            && LinesLie(b, 6, 32, r.cpus[0].lines)
            && (forall i | 0 <= i < 16 :: r.cpus[0].sgiSrc[i] == At(b, 198 + i))
            && |r.cpus[0].running| == At(b, 214)
            && (forall i | 0 <= i < At(b, 214) :: r.cpus[0].running[i] == At(b, 215 + i))
            && LinesLie(b, end, 256, r.lines)
            && (forall i | 0 <= i < 256 :: r.targets[i] == At(b, end + 1536 + i))
  {
    assert BanksAt(b, 4, 1) == [BankAt(b, 4)];
    assert AfterBanks(b, 4, 1) == NextBank(b, 4);
  }

  /** A captured state begins with the magic byte, the version, the CPU count and the distributor's state. */
  lemma CapturedHead(g: Gic)
    requires g.Valid()
    ensures Encode(g)[..4] == [0xa2, 2, |g.cpus|, if g.distEnabled then 1 else 0]
  {
  }

  lemma LegacyLie(b: seq<byte>, i: nat)
    requires i < 256
    ensures var l := LegacyAt(b);
            && l.lines.enabled[i] == (At(b, 3 + i) != 0) && l.lines.pending[i] == (At(b, 259 + i) != 0)
            && l.lines.active[i] == (At(b, 515 + i) != 0) && l.lines.level[i] == (At(b, 771 + i) != 0)
            && l.lines.edge[i] == (At(b, 1027 + i) != 0) && l.lines.priority[i] == At(b, 1283 + i)
            && |l.running| == At(b, 1539) && (i < At(b, 1539) ==> l.running[i] == At(b, 1540 + i))
  {
  }

  /** The older layout by its offsets: distributor, CPU interface, mask, then flat arrays and the stack. */
  lemma LegacyOffsets(g: Gic, b: seq<byte>, i: nat)
    requires g.Valid() && (b == [] || b[0] != 0xa2) && i < 256
    ensures var r := Loaded(g, b);
            && r.distEnabled == (At(b, 0) != 0) && r.cpus[0].cpuEnabled == (At(b, 1) != 0) && r.cpus[0].pmr == At(b, 2)
            && Block(r, 0, i).enabled[i] == (At(b, 3 + i) != 0) && Block(r, 0, i).pending[i] == (At(b, 259 + i) != 0)
            && Block(r, 0, i).active[i] == (At(b, 515 + i) != 0) && Block(r, 0, i).level[i] == (At(b, 771 + i) != 0)
            && Block(r, 0, i).edge[i] == (At(b, 1027 + i) != 0) && Block(r, 0, i).priority[i] == At(b, 1283 + i)
            && |r.cpus[0].running| == At(b, 1539) && (i < At(b, 1539) ==> r.cpus[0].running[i] == At(b, 1540 + i))
            && r.targets[i] == 1
  {
    var l := LegacyAt(b);
    assert Loaded(g, b) == Migrated(g, l);
    PartsSeeAll(g.lines, l.lines, i);
    LegacyLie(b, i);
  }
}

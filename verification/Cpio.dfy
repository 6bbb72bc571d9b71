/** The newc cpio writer of the bootstrap initramfs, before compression, and a reader written from the format. */
module Cpio {
  import opened Words

  datatype Entry = Entry(name: seq<byte>, mode: u32, major: u32, minor: u32, data: seq<byte>)

  /** "070701" and "TRAILER!!!". */
  const MAGIC: seq<byte> := [48, 55, 48, 55, 48, 49]
  const TRAILER: seq<byte> := [84, 82, 65, 73, 76, 69, 82, 33, 33, 33]
  const HEADER_SIZE: nat := 110

  // ---- eight-digit hexadecimal fields ----

  function Digit(d: nat): byte
    requires d < 16
  {
    if d < 10 then 48 + d else 87 + d
  }

  /** Either case is a hexadecimal digit to a reader. */
  function DigitValue(c: byte): Option<nat> {
    if 48 <= c < 58 then Some(c - 48)
    else if 97 <= c < 103 then Some(c - 87)
    else if 65 <= c < 71 then Some(c - 55)
    else None
  }

  function Pow16(n: nat): nat { if n == 0 then 1 else 16 * Pow16(n - 1) }

  /** The low `n` hexadecimal digits of `v`, most significant first. */
  function Hex(v: nat, n: nat): (s: seq<byte>)
    ensures |s| == n
  {
    if n == 0 then [] else Hex(v / 16, n - 1) + [Digit(v % 16)]
  }

  function UnHex(s: seq<byte>): Option<nat> {
    if s == [] then Some(0)
    else
      var high, low := UnHex(s[..|s| - 1]), DigitValue(s[|s| - 1]);
      if high.Some? && low.Some? then Some(16 * high.value + low.value) else None
  }

  lemma {:induction false} HexRoundTrip(v: nat, n: nat)
    requires v < Pow16(n)
    ensures UnHex(Hex(v, n)) == Some(v)
  {
    if n > 0 {
      HexRoundTrip(v / 16, n - 1);
      assert Hex(v, n)[..n - 1] == Hex(v / 16, n - 1);
    }
  }

  lemma EightDigits()
    ensures Pow16(8) == U32_SPAN
  {
    assert Pow16(2) == 256 && Pow16(4) == 0x1_0000 && Pow16(6) == 0x100_0000;
  }

  function HexAll(fs: seq<u32>): (s: seq<byte>)
    ensures |s| == 8 * |fs|
  {
    if fs == [] then [] else Hex(fs[0], 8) + HexAll(fs[1..])
  }

  function ReadFields(b: seq<byte>, at: nat, n: nat): Option<seq<nat>>
    requires at + 8 * n <= |b|
    decreases |b| - at
  {
    if n == 0 then Some([])
    else
      var v, rest := UnHex(b[at..at + 8]), ReadFields(b, at + 8, n - 1);
      if v.Some? && rest.Some? then Some([v.value] + rest.value) else None
  }

  lemma {:induction false} FieldsBack(b: seq<byte>, at: nat, fs: seq<u32>)
    requires Holds(b, at, HexAll(fs))
    ensures ReadFields(b, at, |fs|) == Some(fs)
    decreases fs
  {
    if fs != [] {
      HoldsSplit(b, at, Hex(fs[0], 8), HexAll(fs[1..]));
      EightDigits();
      HexRoundTrip(fs[0], 8);
      FieldsBack(b, at + 8, fs[1..]);
      assert [fs[0]] + fs[1..] == fs;
    }
  }

  // ---- records ----

  function Pad(n: nat): nat { (4 - n % 4) % 4 }

  function Zeros(n: nat): seq<byte> { seq<byte>(n, i => 0) }

  function Fields(ino: u32, e: Entry): (fs: seq<u32>)
    ensures |fs| == 13
  {
    [ino, e.mode, 0, 0, 1, 0, |e.data| % U32_SPAN, 0, 0, e.major, e.minor, (|e.name| + 1) % U32_SPAN, 0]
  }

  function Header(ino: u32, e: Entry): (s: seq<byte>)
    ensures |s| == HEADER_SIZE
  {
    MAGIC + HexAll(Fields(ino, e))
  }

  function NamePad(e: Entry): nat { Pad(HEADER_SIZE + |e.name| + 1) }

  function Payload(e: Entry): (s: seq<byte>)
    ensures |s| == |e.name| + 1 + NamePad(e) + |e.data| + Pad(|e.data|)
  {
    (e.name + [0]) + (Zeros(NamePad(e)) + (e.data + Zeros(Pad(|e.data|))))
  }

  function Record(ino: u32, e: Entry): (s: seq<byte>)
    ensures |s| == HEADER_SIZE + |Payload(e)|
  {
    Header(ino, e) + Payload(e)
  }

  /** The records of `es`, numbered from `ino + 1` on, and then `end`. */
  function Archive(es: seq<Entry>, ino: u32, end: seq<byte>): seq<byte>
    decreases es
  {
    if es == [] then end
    else
      var next := (ino + 1) % U32_SPAN;
      Record(next, es[0]) + Archive(es[1..], next, end)
  }

  // ---- a reader of the format ----

  function Align(n: nat): nat { n + Pad(n) }

  /** The bytes before the first NUL. */
  function CString(s: seq<byte>): (r: seq<byte>)
    ensures 0 !in r && |r| <= |s|
  {
    if s == [] || s[0] == 0 then [] else [s[0]] + CString(s[1..])
  }

  datatype Item = Item(entry: Entry, next: nat)

  function ReadRecord(b: seq<byte>, at: nat): (r: Option<Item>)
    ensures r.Some? ==> at < r.value.next
  {
    if at + HEADER_SIZE > |b| || b[at..at + 6] != MAGIC then None
    else
      var fs := ReadFields(b, at + 6, 13);
      if fs == None || |fs.value| != 13 then None
      else ReadBody(b, at + HEADER_SIZE, fs.value)
  }

  function ReadBody(b: seq<byte>, at: nat, fs: seq<nat>): (r: Option<Item>)
    requires |fs| == 13
    ensures r.Some? ==> at <= r.value.next
  {
    var nameEnd := at + fs[11];
    var start := Align(nameEnd);
    var end := start + fs[6];
    if end > |b| || fs[1] >= U32_SPAN || fs[9] >= U32_SPAN || fs[10] >= U32_SPAN then None
    else Some(Item(Entry(CString(b[at..nameEnd]), fs[1], fs[9], fs[10], b[start..end]), Align(end)))
  }

  function ReadArchive(b: seq<byte>, at: nat): Option<seq<Entry>>
    decreases |b| - at
  {
    var r := ReadRecord(b, at);
    if r == None then None
    else if r.value.entry.name == TRAILER then Some([])
    else if r.value.next > |b| then None
    else
      var rest := ReadArchive(b, r.value.next);
      if rest == None then None else Some([r.value.entry] + rest.value)
  }

  // ---- round trip ----

  /** What the format can carry: a NUL-free name other than the trailer's, and sizes of 32 bits. */
  predicate Carried(e: Entry) {
    0 !in e.name && e.name != TRAILER && |e.name| + 1 < U32_SPAN && |e.data| < U32_SPAN
  }

  lemma PadShift(at: nat, n: nat)
    requires at % 4 == 0
    ensures Pad(at + n) == Pad(n) && (at + n + Pad(n)) % 4 == 0
  {
  }

  lemma AlignsTo(at: nat, n: nat, m: nat)
    requires at % 4 == 0
    ensures Align(at + n) == at + n + Pad(n) && Align(at + n + Pad(n) + m) == at + n + Pad(n) + m + Pad(m)
  {
    PadShift(at, n);
    PadShift(at + n + Pad(n), m);
  }

  /** Every record is a whole number of four-byte words. */
  lemma RecordAligned(ino: u32, e: Entry, at: nat)
    requires at % 4 == 0
    ensures (at + |Record(ino, e)|) % 4 == 0
  {
    var n := HEADER_SIZE + |e.name| + 1;
    PadShift(at, n);
    PadShift(at + n + Pad(n), |e.data|);
  }

  lemma {:induction false} CStringBack(name: seq<byte>)
    ensures 0 !in name ==> CString(name + [0]) == name
  {
    if name != [] {
      CStringBack(name[1..]);
      assert (name + [0])[1..] == name[1..] + [0];
    }
  }

  lemma HeaderBack(b: seq<byte>, at: nat, ino: u32, e: Entry)
    requires Holds(b, at, Record(ino, e))
    ensures at + HEADER_SIZE <= |b| && ReadRecord(b, at) == ReadBody(b, at + HEADER_SIZE, Fields(ino, e))
    ensures Holds(b, at + HEADER_SIZE, Payload(e))
  {
    HoldsSplit(b, at, Header(ino, e), Payload(e));
    HoldsSplit(b, at, MAGIC, HexAll(Fields(ino, e)));
    FieldsBack(b, at + 6, Fields(ino, e));
  }

  /** Where the parts of a record lie. */
  lemma PartsLie(b: seq<byte>, at: nat, name: seq<byte>, pad: seq<byte>, data: seq<byte>, end: seq<byte>)
    requires Holds(b, at, name + (pad + (data + end)))
    ensures Holds(b, at, name) && Holds(b, at + |name| + |pad|, data)
  {
    HoldsSplit(b, at, name, pad + (data + end));
    HoldsSplit(b, at + |name|, pad, data + end);
    HoldsSplit(b, at + |name| + |pad|, data, end);
  }

  lemma BodyBack(b: seq<byte>, at: nat, fs: seq<nat>, nameZ: seq<byte>, e: Entry)
    requires |fs| == 13 && fs[11] == |nameZ| && fs[6] == |e.data|
    requires fs[1] == e.mode && fs[9] == e.major && fs[10] == e.minor
    requires Holds(b, at, nameZ) && Holds(b, Align(at + |nameZ|), e.data)
    ensures ReadBody(b, at, fs) == Some(Item(e.(name := CString(nameZ)), Align(Align(at + |nameZ|) + |e.data|)))
  {
  }

  /** Where the record after `e` starts, relative to `e`. */
  function Size(e: Entry): nat { HEADER_SIZE + |e.name| + 1 + NamePad(e) + |e.data| + Pad(|e.data|) }

  lemma PayloadBack(b: seq<byte>, at: nat, fs: seq<nat>, e: Entry)
    requires at % 4 == 0 && Holds(b, at + HEADER_SIZE, Payload(e))
    requires |fs| == 13 && fs[11] == |e.name| + 1 && fs[6] == |e.data|
    requires fs[1] == e.mode && fs[9] == e.major && fs[10] == e.minor
    ensures ReadBody(b, at + HEADER_SIZE, fs) ==
            Some(Item(e.(name := CString(e.name + [0])), at + Size(e)))
  {
    PartsLie(b, at + HEADER_SIZE, e.name + [0], Zeros(NamePad(e)), e.data, Zeros(Pad(|e.data|)));
    AlignsTo(at, HEADER_SIZE + |e.name| + 1, |e.data|);
    BodyBack(b, at + HEADER_SIZE, fs, e.name + [0], e);
  }

  lemma SizesExact(ino: u32, e: Entry)
    requires |e.name| + 1 < U32_SPAN && |e.data| < U32_SPAN
    ensures Fields(ino, e)[11] == |e.name| + 1 && Fields(ino, e)[6] == |e.data|
  {
  }

  lemma SizedBack(b: seq<byte>, at: nat, ino: u32, e: Entry)
    requires at % 4 == 0 && Holds(b, at, Record(ino, e))
    requires |e.name| + 1 < U32_SPAN && |e.data| < U32_SPAN
    ensures ReadRecord(b, at) == Some(Item(e.(name := CString(e.name + [0])), at + Size(e))) && at + Size(e) <= |b|
  {
    HeaderBack(b, at, ino, e);
    var fs := Fields(ino, e);
    assert fs[11] == |e.name| + 1 && fs[6] == |e.data| by { SizesExact(ino, e); }
    PayloadBack(b, at, fs, e);
  }

  /** An entry read back equal to what was written was one the format carries. */
  lemma ReadBackCarried(b: seq<byte>, at: nat, ino: u32, e: Entry)
    requires Holds(b, at, Record(ino, e)) && ReadRecord(b, at).Some?
    requires ReadRecord(b, at).value.entry == e && e.name != TRAILER
    ensures Carried(e)
  {
    HeaderBack(b, at, ino, e);
    BodySizes(b, at + HEADER_SIZE, Fields(ino, e));
  }

  /** What is read is no longer than the header says. */
  lemma BodySizes(b: seq<byte>, at: nat, fs: seq<nat>)
    requires |fs| == 13 && ReadBody(b, at, fs).Some?
    ensures var e := ReadBody(b, at, fs).value.entry; 0 !in e.name && |e.name| <= fs[11] && |e.data| == fs[6]
  {
  }

  lemma TrailerEnds(b: seq<byte>, at: nat, ino: u32, last: Entry)
    requires at % 4 == 0 && Holds(b, at, Record(ino, last)) && last.name == TRAILER && last.data == []
    ensures ReadArchive(b, at) == Some([])
  {
    CStringBack(last.name);
    SizedBack(b, at, ino, last);
  }

  /** Reading past a record the format carries leaves the rest to be read. */
  lemma ReadsOn(b: seq<byte>, at: nat, ino: u32, e: Entry, es: seq<Entry>)
    requires at % 4 == 0 && Holds(b, at, Record(ino, e)) && Carried(e)
    ensures ReadArchive(b, at) == Some([e] + es) <==> ReadArchive(b, at + Size(e)) == Some(es)
  {
    var next := at + Size(e);
    assert ReadRecord(b, at) == Some(Item(e, next)) && next <= |b| by {
      CStringBack(e.name);
      SizedBack(b, at, ino, e);
    }
    ReadUnfolds(b, at, e, next);
    ConsEqual(e, ReadArchive(b, next), es);
  }

  lemma ReadUnfolds(b: seq<byte>, at: nat, e: Entry, next: nat)
    requires ReadRecord(b, at) == Some(Item(e, next)) && e.name != TRAILER && next <= |b|
    ensures ReadArchive(b, at) == Prepended(e, ReadArchive(b, next))
  {
  }

  function Prepended(e: Entry, rest: Option<seq<Entry>>): Option<seq<Entry>> {
    if rest == None then None else Some([e] + rest.value)
  }

  lemma ConsEqual(e: Entry, rest: Option<seq<Entry>>, es: seq<Entry>)
    ensures Prepended(e, rest) == Some([e] + es) <==> rest == Some(es)
  {
    if rest.Some? { assert ([e] + rest.value)[1..] == rest.value && ([e] + es)[1..] == es; }
  }

  predicate AllCarried(es: seq<Entry>) { forall i | 0 <= i < |es| :: Carried(es[i]) }

  lemma AllCarriedUnfolds(es: seq<Entry>)
    requires es != []
    ensures AllCarried(es) <==> Carried(es[0]) && AllCarried(es[1..])
  {
    if Carried(es[0]) && AllCarried(es[1..]) {
      forall i | 0 <= i < |es| ensures Carried(es[i]) {
        if i > 0 { assert es[i] == es[1..][i - 1]; }
      }
    }
  }

  /** A reader that returned `es` read `es[0]` first. */
  lemma FirstRead(b: seq<byte>, at: nat, es: seq<Entry>)
    requires es != [] && ReadArchive(b, at) == Some(es)
    ensures ReadRecord(b, at).Some? && ReadRecord(b, at).value.entry == es[0] && es[0].name != TRAILER
  {
  }

  /** The record of `e`, under some number, starts at `at`. */
  ghost predicate RecordAt(b: seq<byte>, at: nat, e: Entry) {
    at % 4 == 0 && exists ino: u32 :: Holds(b, at, Record(ino, e))
  }

  /** The records of `es` one behind the other, and then that of `last`. */
  ghost predicate Laid(b: seq<byte>, at: nat, es: seq<Entry>, last: Entry)
    decreases es
  {
    if es == [] then RecordAt(b, at, last) else RecordAt(b, at, es[0]) && Laid(b, at + Size(es[0]), es[1..], last)
  }

  lemma ArchiveSplits(b: seq<byte>, at: nat, es: seq<Entry>, ino: u32, end: seq<byte>)
    requires es != [] && at % 4 == 0 && Holds(b, at, Archive(es, ino, end))
    ensures RecordAt(b, at, es[0]) && (at + Size(es[0])) % 4 == 0
    ensures Holds(b, at + Size(es[0]), Archive(es[1..], (ino + 1) % U32_SPAN, end))
  {
    var next := (ino + 1) % U32_SPAN;
    RecordAligned(next, es[0], at);
    HoldsSplit(b, at, Record(next, es[0]), Archive(es[1..], next, end));
  }

  lemma {:induction false} ArchiveLaid(b: seq<byte>, at: nat, es: seq<Entry>, ino: u32, last: Entry)
    requires at % 4 == 0 && Holds(b, at, Archive(es, ino, Record(0, last)))
    ensures Laid(b, at, es, last)
    decreases es
  {
    if es == [] {
      assert RecordAt(b, at, last);
    } else {
      ArchiveSplits(b, at, es, ino, Record(0, last));
      ArchiveLaid(b, at + Size(es[0]), es[1..], (ino + 1) % U32_SPAN, last);
    }
  }

  lemma CarriedBack(b: seq<byte>, at: nat, e: Entry, rest: seq<Entry>)
    requires RecordAt(b, at, e) && Carried(e)
    ensures ReadArchive(b, at) == Some([e] + rest) <==> ReadArchive(b, at + Size(e)) == Some(rest)
  {
    var ino: u32 :| Holds(b, at, Record(ino, e));
    ReadsOn(b, at, ino, e, rest);
  }

  lemma UncarriedLost(b: seq<byte>, at: nat, e: Entry, rest: seq<Entry>)
    requires RecordAt(b, at, e) && !Carried(e)
    ensures ReadArchive(b, at) != Some([e] + rest)
  {
    var ino: u32 :| Holds(b, at, Record(ino, e));
    if ReadArchive(b, at) == Some([e] + rest) { ReadOnlyCarried(b, at, ino, [e] + rest); }
  }

  /** The first entry is read back, and reading goes on behind it, exactly if the format carries it. */
  lemma FirstBack(b: seq<byte>, at: nat, es: seq<Entry>)
    requires es != [] && RecordAt(b, at, es[0])
    ensures ReadArchive(b, at) == Some(es) <==> Carried(es[0]) && ReadArchive(b, at + Size(es[0])) == Some(es[1..])
  {
    assert es == [es[0]] + es[1..];
    if Carried(es[0]) { CarriedBack(b, at, es[0], es[1..]); } else { UncarriedLost(b, at, es[0], es[1..]); }
  }

  lemma ReadOnlyCarried(b: seq<byte>, at: nat, ino: u32, es: seq<Entry>)
    requires es != [] && Holds(b, at, Record(ino, es[0])) && ReadArchive(b, at) == Some(es)
    ensures Carried(es[0])
  {
    FirstRead(b, at, es);
    ReadBackCarried(b, at, ino, es[0]);
  }

  lemma {:induction false} LaidBackIff(b: seq<byte>, at: nat, es: seq<Entry>, last: Entry)
    requires last.name == TRAILER && last.data == [] && Laid(b, at, es, last)
    ensures ReadArchive(b, at) == Some(es) <==> AllCarried(es)
    decreases es
  {
    if es == [] {
      var ino: u32 :| Holds(b, at, Record(ino, last));
      TrailerEnds(b, at, ino, last);
    } else {
      LaidBackIff(b, at + Size(es[0]), es[1..], last);
      FirstBack(b, at, es);
      AllCarriedUnfolds(es);
    }
  }

  /** The reader recovers exactly the entries written, in order, if and only if the format carries each of them. */
  lemma ReadBackIff(b: seq<byte>, at: nat, es: seq<Entry>, ino: u32, last: Entry)
    requires last.name == TRAILER && last.data == []
    requires at % 4 == 0 && Holds(b, at, Archive(es, ino, Record(0, last)))
    ensures ReadArchive(b, at) == Some(es) <==> AllCarried(es)
  {
    ArchiveLaid(b, at, es, ino, last);
    LaidBackIff(b, at, es, last);
  }

  // ---- the writer ----

  class Writer {
    var buf: seq<byte>
    var ino: u32

    constructor ()
      ensures buf == [] && ino == 0
    {
      buf, ino := [], 0;
    }

    method Pad4()
      modifies this
      ensures buf == old(buf) + Zeros(Pad(|old(buf)|)) && |buf| % 4 == 0 && ino == old(ino)
    {
      ghost var n := 0;
      while |buf| % 4 != 0
        invariant n <= Pad(|old(buf)|) && buf == old(buf) + Zeros(n) && ino == old(ino)
        decreases Pad(|old(buf)|) - n
      {
        buf := buf + [0];
        n := n + 1;
      }
    }

    method HeaderText(ino: u32, e: Entry) returns (s: seq<byte>)
      ensures s == Header(ino, e)
    {
      var fs := Fields(ino, e);
      s := MAGIC;
      for i := 0 to |fs|
        invariant s + HexAll(fs[i..]) == Header(ino, e)
      {
        assert fs[i..][1..] == fs[i + 1..];
        s := s + Hex(fs[i], 8);
      }
    }

    method Add(e: Entry)
      requires |buf| % 4 == 0
      modifies this
      ensures ino == (old(ino) + 1) % U32_SPAN
      ensures buf == old(buf) + Record(ino, e) && |buf| % 4 == 0
    {
      ino := (ino + 1) % U32_SPAN;
      Named(ino, e);
      buf := buf + e.data;
      PadShift(|old(buf)| + HEADER_SIZE + |e.name| + 1 + NamePad(e), |e.data|);
      Pad4();
      RecordParts(old(buf), ino, e);
    }

    /** The header, the name and its padding. */
    method Named(ino: u32, e: Entry)
      requires |buf| % 4 == 0
      modifies this
      ensures buf == old(buf) + Header(ino, e) + (e.name + [0]) + Zeros(NamePad(e)) && |buf| % 4 == 0
      ensures this.ino == old(this.ino)
    {
      var header := HeaderText(ino, e);
      buf := buf + header + (e.name + [0]);
      PadShift(|old(buf)|, HEADER_SIZE + |e.name| + 1);
      Pad4();
    }

    method Finish() returns (archive: seq<byte>)
      requires |buf| % 4 == 0
      modifies this
      ensures archive == old(buf) + Record(0, Entry(TRAILER, 0, 0, 0, []))
    {
      var last := Entry(TRAILER, 0, 0, 0, []);
      Named(0, last);
      archive := buf;
      RecordParts(old(buf), 0, last);
      EmptyData(buf, last);
    }
  }

  lemma EmptyData(s: seq<byte>, e: Entry)
    requires e.data == []
    ensures s + e.data + Zeros(Pad(|e.data|)) == s
  {
  }

  lemma RecordParts(buf: seq<byte>, ino: u32, e: Entry)
    ensures buf + Header(ino, e) + (e.name + [0]) + Zeros(NamePad(e)) + e.data + Zeros(Pad(|e.data|)) ==
            buf + Record(ino, e)
  {
    Joined(buf, Header(ino, e), e.name + [0], Zeros(NamePad(e)), e.data, Zeros(Pad(|e.data|)));
  }

  lemma Joined(a: seq<byte>, b: seq<byte>, c: seq<byte>, d: seq<byte>, e: seq<byte>, f: seq<byte>)
    ensures a + b + c + d + e + f == a + (b + (c + (d + (e + f))))
  {
  }

  /** `buf` holds the records of `es` before the `i`-th, the last of them numbered `ino`. */
  predicate Written(buf: seq<byte>, es: seq<Entry>, i: nat, ino: u32)
    requires i <= |es|
  {
    buf + Archive(es[i..], ino, []) == Archive(es, 0, [])
  }

  lemma WrittenMore(buf: seq<byte>, es: seq<Entry>, i: nat, ino: u32)
    requires i < |es| && Written(buf, es, i, ino)
    ensures var next := (ino + 1) % U32_SPAN; Written(buf + Record(next, es[i]), es, i + 1, next)
  {
    assert es[i..][1..] == es[i + 1..];
    var next := (ino + 1) % U32_SPAN;
    Regroup(buf, Record(next, es[i]), Archive(es[i + 1..], next, []));
  }

  lemma WrittenAll(buf: seq<byte>, es: seq<Entry>, ino: u32)
    requires Written(buf, es, |es|, ino)
    ensures buf == Archive(es, 0, [])
  {
    assert buf + [] == buf;
  }

  lemma {:induction false} ArchiveEnds(es: seq<Entry>, ino: u32, end: seq<byte>)
    ensures Archive(es, ino, []) + end == Archive(es, ino, end)
    decreases es
  {
    if es != [] {
      var next := (ino + 1) % U32_SPAN;
      ArchiveEnds(es[1..], next, end);
      Regroup(Record(next, es[0]), Archive(es[1..], next, []), end);
    }
  }

  lemma BuiltIff(archive: seq<byte>, es: seq<Entry>, last: Entry)
    requires last.name == TRAILER && last.data == []
    requires archive == Archive(es, 0, []) + Record(0, last)
    ensures ReadArchive(archive, 0) == Some(es) <==> AllCarried(es)
  {
    ArchiveEnds(es, 0, Record(0, last));
    assert archive[0..0 + |archive|] == archive;
    ReadBackIff(archive, 0, es, 0, last);
  }

  /** An archive built record by record reads back as its entries exactly when the format carries each. */
  method Build(es: seq<Entry>) returns (archive: seq<byte>)
    ensures ReadArchive(archive, 0) == Some(es) <==> AllCarried(es)
  {
    var w := new Writer();
    AddAll(w, es);
    archive := w.Finish();
    BuiltIff(archive, es, Entry(TRAILER, 0, 0, 0, []));
  }

  method AddAll(w: Writer, es: seq<Entry>)
    requires w.buf == [] && w.ino == 0
    modifies w
    ensures w.buf == Archive(es, 0, []) && |w.buf| % 4 == 0
  {
    for i := 0 to |es|
      invariant |w.buf| % 4 == 0
      invariant Written(w.buf, es, i, w.ino)
    {
      WrittenMore(w.buf, es, i, w.ino);
      w.Add(es[i]);
    }
    WrittenAll(w.buf, es, w.ino);
  }

  // ---- the text of a record ----

  /** Most significant digit first, in lower case. */
  lemma HexText()
    ensures Hex(0x01ab_cdef, 8) == [48, 49, 97, 98, 99, 100, 101, 102]
  {
    assert Hex(0x01, 2) == [48, 49];
    assert Hex(0x01ab, 4) == [48, 49, 97, 98];
    assert Hex(0x01ab_cd, 6) == [48, 49, 97, 98, 99, 100];
  }

  /** The thirteen fields of a newc header in their order: inode, mode, uid, gid, links, time, size, device, special
      device, name size and check; owner, time and device are zero and there is one link. */
  lemma RecordText(b: seq<byte>, at: nat, ino: u32, e: Entry)
    requires Holds(b, at, Record(ino, e)) && Carried(e)
    ensures at + 110 <= |b| && b[at..at + 6] == [48, 55, 48, 55, 48, 49]
    ensures ReadFields(b, at + 6, 13)
            == Some([ino, e.mode, 0, 0, 1, 0, |e.data|, 0, 0, e.major, e.minor, |e.name| + 1, 0])
    ensures Holds(b, at + 110, e.name + [0])
  {
    HoldsSplit(b, at, Header(ino, e), Payload(e));
    HeaderText13(b, at, ino, e);
    SizesExact(ino, e);
    HoldsSplit(b, at + 110, e.name + [0], Zeros(NamePad(e)) + (e.data + Zeros(Pad(|e.data|))));
  }

  lemma HeaderText13(b: seq<byte>, at: nat, ino: u32, e: Entry)
    requires Holds(b, at, Header(ino, e))
    ensures b[at..at + 6] == MAGIC && ReadFields(b, at + 6, 13) == Some(Fields(ino, e))
  {
    HoldsSplit(b, at, MAGIC, HexAll(Fields(ino, e)));
    FieldsBack(b, at + 6, Fields(ino, e));
  }

  /** The magic and the trailer's name, as text. */
  lemma FixedText()
    ensures |MAGIC| == 6 && forall k | 0 <= k < 6 :: MAGIC[k] as char == "070701"[k]
    ensures |TRAILER| == 10 && forall k | 0 <= k < 10 :: TRAILER[k] as char == "TRAILER!!!"[k]
  {
  }

  /** Where record `k` begins. */
  function Start(es: seq<Entry>, k: nat): nat
    requires k <= |es|
  {
    if k == 0 then 0 else Size(es[0]) + Start(es[1..], k - 1)
  }

  /** The record at `at` has this inode number. */
  ghost predicate Numbered(b: seq<byte>, at: nat, ino: nat, e: Entry) {
    exists i: u32 :: i == ino && Holds(b, at, Record(i, e))
  }

  lemma NextHead(b: seq<byte>, at: nat, es: seq<Entry>, ino: u32, end: seq<byte>)
    requires es != [] && Holds(b, at, Archive(es, ino, end))
    ensures var next := (ino + 1) % U32_SPAN;
            Numbered(b, at, next, es[0]) && Holds(b, at + Size(es[0]), Archive(es[1..], next, end))
  {
    var next := (ino + 1) % U32_SPAN;
    HoldsSplit(b, at, Record(next, es[0]), Archive(es[1..], next, end));
  }

  lemma ArchiveHead(b: seq<byte>, at: nat, es: seq<Entry>, ino: u32, end: seq<byte>)
    requires es != [] && ino + 1 < U32_SPAN && Holds(b, at, Archive(es, ino, end))
    ensures Numbered(b, at, ino + 1, es[0]) && Holds(b, at + Size(es[0]), Archive(es[1..], ino + 1, end))
  {
    assert (ino + 1) % U32_SPAN == ino + 1;
    NextHead(b, at, es, ino, end);
  }

  /** Records follow one another, and inode numbers count up from one. */
  lemma {:induction false} InodesCount(b: seq<byte>, at: nat, es: seq<Entry>, ino: u32, end: seq<byte>, k: nat)
    requires k < |es| && ino + |es| < U32_SPAN && Holds(b, at, Archive(es, ino, end))
    ensures Numbered(b, at + Start(es, k), ino + k + 1, es[k])
    decreases k
  {
    ArchiveHead(b, at, es, ino, end);
    if k > 0 { InodesCount(b, at + Size(es[0]), es[1..], ino + 1, end, k - 1); }
  }
}

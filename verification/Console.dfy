/** The PL011's console trigger: a bounded window over the guest's output that latches on a marker. */
module Console {
  import opened Words

  /** The armed marker, the last bytes sent (at most as many as the marker has), and the latch. */
  datatype Matcher = Matcher(marker: seq<byte>, tail: seq<byte>, marked: bool)

  function Arm(marker: seq<byte>): Matcher { Matcher(marker, [], false) }

  function LastBytes(s: seq<byte>, n: nat): seq<byte> { if |s| <= n then s else s[|s| - n..] }

  /** One byte of output. */
  function Feed(m: Matcher, b: byte): Matcher {
    if m.marker == [] || m.marked then m
    else
      var tail := LastBytes(m.tail + [b], |m.marker|);
      m.(tail := tail, marked := tail == m.marker)
  }

  function FeedAll(m: Matcher, s: seq<byte>): Matcher {
    if s == [] then m else Feed(FeedAll(m, s[..|s| - 1]), s[|s| - 1])
  }

  predicate At(marker: seq<byte>, s: seq<byte>, k: nat) {
    k + |marker| <= |s| && s[k..k + |marker|] == marker
  }

  /** The marker lies in `s` as a contiguous run. */
  ghost predicate Occurs(marker: seq<byte>, s: seq<byte>) { exists k: nat :: At(marker, s, k) }

  predicate EndsWith(s: seq<byte>, marker: seq<byte>) {
    |marker| <= |s| && s[|s| - |marker|..] == marker
  }

  lemma OccursGrows(marker: seq<byte>, s: seq<byte>, b: byte)
    requires marker != []
    ensures Occurs(marker, s + [b]) <==> Occurs(marker, s) || EndsWith(s + [b], marker)
  {
    var t, n := s + [b], |marker|;
    forall k: nat ensures At(marker, t, k) <==> At(marker, s, k) || (k == |t| - n && EndsWith(t, marker)) {
      if k + n <= |s| {
        assert t[k..k + n] == s[k..k + n];
      } else if k + n == |t| {
        assert t[|t| - n..] == t[k..k + n];
      }
    }
    if EndsWith(t, marker) { assert At(marker, t, |t| - n); }
  }

  lemma WindowSlides(s: seq<byte>, b: byte, n: nat)
    requires n > 0
    ensures LastBytes(LastBytes(s, n) + [b], n) == LastBytes(s + [b], n)
  {
  }

  lemma WindowMatches(s: seq<byte>, marker: seq<byte>)
    ensures LastBytes(s, |marker|) == marker <==> EndsWith(s, marker)
  {
  }

  lemma {:induction false} WindowTracks(marker: seq<byte>, s: seq<byte>)
    requires marker != []
    ensures var m := FeedAll(Arm(marker), s);
            && m.marker == marker
            && (m.marked <==> Occurs(marker, s))
            && (!m.marked ==> m.tail == LastBytes(s, |marker|))
  {
    if s == [] {
      assert !Occurs(marker, s);
    } else {
      var front, b := s[..|s| - 1], s[|s| - 1];
      WindowTracks(marker, front);
      assert s == front + [b];
      OccursGrows(marker, front, b);
      WindowSlides(front, b, |marker|);
      WindowMatches(s, marker);
    }
  }

  /** For every marker and everything the guest prints since arming: the latch is set exactly when a nonempty
      marker has occurred, overlapping partial matches included; an empty marker never latches. */
  lemma MarkerLatchesIff(marker: seq<byte>, s: seq<byte>)
    ensures FeedAll(Arm(marker), s).marked <==> marker != [] && Occurs(marker, s)
  {
    if marker == [] { EmptyNeverLatches(s); } else { WindowTracks(marker, s); }
  }

  lemma {:induction false} EmptyNeverLatches(s: seq<byte>)
    ensures FeedAll(Arm([]), s) == Arm([])
  {
    if s != [] { EmptyNeverLatches(s[..|s| - 1]); }
  }

  // ---- the device ----

  const DR: nat := 0x00
  const FR: nat := 0x18
  const IBRD: nat := 0x24
  const FBRD: nat := 0x28
  const LCR_H: nat := 0x2c
  const CR: nat := 0x30
  const IFLS: nat := 0x34
  const IMSC: nat := 0x38
  const RIS: nat := 0x3c
  const MIS: nat := 0x40
  const ICR: nat := 0x44

  /** The PrimeCell identification bytes, at 0xfe0 and every four bytes on. */
  const ID: seq<byte> := [0x11, 0x10, 0x14, 0x00, 0x0d, 0xf0, 0x05, 0xb1]

  /** The two interrupt bits the device ever raises: received data (bit 4) and the receive timeout (bit 6). */
  datatype Bits = Bits(data: bool, timeout: bool) {
    function Value(): nat { (if data then 0x10 else 0) + if timeout then 0x40 else 0 }
  }

  const NONE: Bits := Bits(false, false)
  const BOTH: Bits := Bits(true, true)

  function And(a: Bits, b: Bits): Bits { Bits(a.data && b.data, a.timeout && b.timeout) }

  function Not(a: Bits): Bits { Bits(!a.data, !a.timeout) }

  /** The registers a driver programs, which a snapshot carries. */
  datatype Config = Config(cr: u32, imsc: u32, ibrd: u32, fbrd: u32, lcrH: u32, ifls: u32)

  datatype Uart = Uart(rx: seq<byte>, config: Config, ris: Bits, window: Matcher)

  function Boot(): Uart { Uart([], Config(0, 0, 0, 0, 0, 0), NONE, Arm([])) }

  datatype Event =
    | Armed(marker: seq<byte>)
    | Wrote(offset: nat, value: u64)
    | Received(b: byte)
    | ReadData
    | Restored(config: Config)

  function Mask(value: nat): Bits { Bits(Bit(value, 4), Bit(value, 6)) }

  function Configured(c: Config, offset: nat, v: u32): Config {
    if offset == CR then c.(cr := v)
    else if offset == IMSC then c.(imsc := v)
    else if offset == IBRD then c.(ibrd := v)
    else if offset == FBRD then c.(fbrd := v)
    else if offset == LCR_H then c.(lcrH := v)
    else if offset == IFLS then c.(ifls := v)
    else c
  }

  function AfterWrite(u: Uart, offset: nat, value: u64): Uart {
    var v := value % U32_SPAN;
    if offset == DR then u.(window := Feed(u.window, value % 256))
    else if offset == ICR then u.(ris := And(u.ris, Not(Mask(v))))
    else u.(config := Configured(u.config, offset, v))
  }

  function AfterRead(u: Uart): Uart {
    var rest := if u.rx == [] then [] else u.rx[1..];
    u.(rx := rest, ris := if rest == [] then NONE else u.ris)
  }

  function Step(u: Uart, e: Event): Uart {
    match e
    case Armed(m) => u.(window := Arm(m))
    case Wrote(offset, value) => AfterWrite(u, offset, value)
    case Received(b) => u.(rx := u.rx + [b], ris := BOTH)
    case ReadData => AfterRead(u)
    case Restored(c) => u.(config := c)
  }

  /** The interrupt line: an unmasked status bit is set. */
  predicate LineUp(u: Uart) { And(u.ris, Mask(u.config.imsc)) != NONE }

  function After(es: seq<Event>): Uart {
    if es == [] then Boot() else Step(After(es[..|es| - 1]), es[|es| - 1])
  }

  /** The marker armed last, and the bytes the guest sent since. */
  function Marker(es: seq<Event>): seq<byte> {
    if es == [] then []
    else if es[|es| - 1].Armed? then es[|es| - 1].marker else Marker(es[..|es| - 1])
  }

  function Sent(es: seq<Event>): seq<byte> {
    if es == [] || es[|es| - 1].Armed? then []
    else
      var e := es[|es| - 1];
      Sent(es[..|es| - 1]) + if e.Wrote? && e.offset == DR then [e.value % 256] else []
  }

  lemma {:induction false} RunFeeds(es: seq<Event>)
    ensures After(es).window == FeedAll(Arm(Marker(es)), Sent(es))
  {
    if es != [] && !es[|es| - 1].Armed? {
      var front, e := es[..|es| - 1], es[|es| - 1];
      RunFeeds(front);
      if e.Wrote? && e.offset == DR {
        assert Sent(es)[..|Sent(es)| - 1] == Sent(front);
      } else {
        assert Sent(es) == Sent(front);
      }
    }
  }

  /** Over any run of the device: `marked` holds exactly when the marker armed last is nonempty and occurs in what
      the guest sent since. */
  lemma MarkedIff(es: seq<Event>)
    ensures After(es).window.marked <==> Marker(es) != [] && Occurs(Marker(es), Sent(es))
  {
    RunFeeds(es);
    MarkerLatchesIff(Marker(es), Sent(es));
  }

  function Pushed(es: seq<Event>): seq<byte> {
    if es == [] then []
    else Pushed(es[..|es| - 1]) + if es[|es| - 1].Received? then [es[|es| - 1].b] else []
  }

  function Taken(es: seq<Event>): seq<byte> {
    if es == [] then []
    else
      var front := es[..|es| - 1];
      Taken(front) + if es[|es| - 1].ReadData? && After(front).rx != [] then [After(front).rx[0]] else []
  }

  lemma FifoMoves(taken: seq<byte>, rx: seq<byte>, more: seq<byte>)
    ensures (taken + rx) + more == taken + (rx + more)
    ensures rx != [] ==> taken + rx == (taken + [rx[0]]) + rx[1..]
  {
  }

  lemma StepConserves(taken: seq<byte>, u: Uart, e: Event)
    ensures (taken + if e.ReadData? && u.rx != [] then [u.rx[0]] else []) + Step(u, e).rx
            == (taken + u.rx) + if e.Received? then [e.b] else []
  {
    FifoMoves(taken, u.rx, if e.Received? then [e.b] else []);
  }

  /** Input is conserved and in order: what the guest read followed by what waits is what the host pushed. */
  lemma {:induction false} InputConserved(es: seq<Event>)
    ensures Pushed(es) == Taken(es) + After(es).rx
  {
    if es != [] {
      var front, e := es[..|es| - 1], es[|es| - 1];
      InputConserved(front);
      StepConserves(Taken(front), After(front), e);
    }
  }

  /** A raised status bit means that a byte waits. */
  predicate Quiet(u: Uart) { u.rx == [] ==> u.ris == NONE }

  /** Over every run the interrupt line is up only while a byte waits. */
  lemma {:induction false} LineOnlyForInput(es: seq<Event>)
    ensures Quiet(After(es)) && (LineUp(After(es)) ==> After(es).rx != [])
  {
    if es != [] { LineOnlyForInput(es[..|es| - 1]); }
  }

  /** A received byte raises the line exactly if the driver has unmasked a receive bit; after a restore that is for the
      mask of the snapshot to say, whatever the new device held. */
  lemma InputWakes(u: Uart, snapshot: Uart, b: byte)
    ensures LineUp(Step(u, Received(b))) <==> Bit(u.config.imsc, 4) || Bit(u.config.imsc, 6)
    ensures LineUp(Step(Step(u, Restored(snapshot.config)), Received(b))) <==> LineUp(Step(snapshot, Received(b)))
  {
  }

  class Pl011 {
    var output: seq<byte>
    var rx: seq<byte>
    var cr: u32
    var imsc: u32
    var ris: Bits
    var ibrd: u32
    var fbrd: u32
    var lcrH: u32
    var ifls: u32
    var marker: seq<byte>
    var txTail: seq<byte>
    var marked: bool

    ghost function State(): Uart
      reads this
    {
      Uart(rx, Config(cr, imsc, ibrd, fbrd, lcrH, ifls), ris, Matcher(marker, txTail, marked))
    }

    ghost predicate Valid()
      reads this
    {
      Quiet(State())
    }

    constructor ()
      ensures Valid() && output == [] && State() == Boot()
    {
      output, rx, ris, marker, txTail, marked := [], [], NONE, [], [], false;
      cr, imsc, ibrd, fbrd, lcrH, ifls := 0, 0, 0, 0, 0, 0;
    }

    method ArmMarker(m: seq<byte>)
      requires Valid()
      modifies this
      ensures Valid() && State() == Step(old(State()), Armed(m)) && output == old(output)
    {
      marker, txTail, marked := m, [], false;
    }

    method PushRx(b: byte)
      requires Valid()
      modifies this
      ensures Valid() && State() == Step(old(State()), Received(b)) && output == old(output)
    {
      rx := rx + [b];
      ris := BOTH;
    }

    /** The line is up only while a byte waits, and then exactly if the status bit of one of the two receive
        interrupts is unmasked. */
    method IrqLevel() returns (up: bool)
      requires Valid()
      ensures up ==> rx != []
      ensures up <==> LineUp(State())
      ensures ris == BOTH ==> (up <==> Bit(imsc, 4) || Bit(imsc, 6))
    {
      up := (ris.data && Bit(imsc, 4)) || (ris.timeout && Bit(imsc, 6));
    }

    method Read(offset: nat) returns (v: nat)
      requires Valid()
      modifies this
      ensures Valid() && State() == (if offset == DR then Step(old(State()), ReadData) else old(State()))
      ensures output == old(output) && v == Register(old(State()), offset)
    {
      if 0xfe0 <= offset < 0x1000 && offset % 4 == 0 {
        return ID[(offset - 0xfe0) / 4];
      }
      if offset == DR {
        v := ReadDataRegister();
      } else if offset == FR {
        v := 0x80 + if rx == [] then 0x10 else 0;
      } else if offset == RIS {
        v := ris.Value();
      } else if offset == MIS {
        v := And(ris, Mask(imsc)).Value();
      } else {
        v := ConfigRegister(Config(cr, imsc, ibrd, fbrd, lcrH, ifls), offset);
      }
    }

    /** A read of the data register. */
    method ReadDataRegister() returns (b: byte)
      requires Valid()
      modifies this
      ensures Valid() && State() == Step(old(State()), ReadData) && output == old(output)
      ensures b == if old(rx) == [] then 0 else old(rx)[0]
    {
      b := 0;
      if rx != [] {
        b := rx[0];
        rx := rx[1..];
      }
      if rx == [] {
        ris := NONE;
      }
    }

    method Write(offset: nat, value: u64)
      requires Valid()
      modifies this
      ensures Valid() && State() == Step(old(State()), Wrote(offset, value))
      ensures output == old(output) + if offset == DR then [value % 256] else []
    {
      var v := value % U32_SPAN;
      if offset == DR {
        Transmit(value % 256);
      } else if offset == IMSC {
        imsc := v;
      } else if offset == CR {
        cr := v;
      } else if offset == IBRD {
        ibrd := v;
      } else if offset == FBRD {
        fbrd := v;
      } else if offset == LCR_H {
        lcrH := v;
      } else if offset == IFLS {
        ifls := v;
      } else if offset == ICR {
        ris := And(ris, Not(Mask(v)));
      }
    }

    method Transmit(b: byte)
      requires Valid()
      modifies this
      ensures Valid() && output == old(output) + [b]
      ensures State() == old(State()).(window := Feed(old(State()).window, b))
    {
      output := output + [b];
      if marker != [] && !marked {
        txTail := txTail + [b];
        ghost var grown := txTail;
        while |txTail| > |marker|
          invariant State() == old(State()).(window := Matcher(old(marker), txTail, false))
          invariant output == old(output) + [b]
          invariant |txTail| <= |grown| && txTail == grown[|grown| - |txTail|..]
          invariant |marker| <= |txTail| || txTail == grown
        {
          txTail := txTail[1..];
        }
        if |txTail| == |marker| && txTail == marker {
          marked := true;
        }
      }
    }

    /** The configuration registers, for a snapshot. */
    method Regs() returns (r: seq<u32>)
      ensures |r| == 6 && FromRegs(r) == State().config
    {
      r := [cr, imsc, ibrd, fbrd, lcrH, ifls];
    }

    method SetRegs(r: seq<u32>)
      requires Valid() && |r| == 6
      modifies this
      ensures Valid() && State() == Step(old(State()), Restored(FromRegs(r))) && output == old(output)
    {
      cr, imsc, ibrd, fbrd, lcrH, ifls := r[0], r[1], r[2], r[3], r[4], r[5];
    }
  }

  /** The order in which a snapshot lists the configuration. */
  function FromRegs(r: seq<u32>): Config
    requires |r| == 6
  {
    Config(r[0], r[1], r[2], r[3], r[4], r[5])
  }

  function ConfigRegister(c: Config, offset: nat): u32 {
    if offset == IMSC then c.imsc
    else if offset == CR then c.cr
    else if offset == IBRD then c.ibrd
    else if offset == FBRD then c.fbrd
    else if offset == LCR_H then c.lcrH
    else if offset == IFLS then c.ifls
    else 0
  }

  /** What a read at `offset` finds. */
  function Register(u: Uart, offset: nat): nat {
    if 0xfe0 <= offset < 0x1000 && offset % 4 == 0 then ID[(offset - 0xfe0) / 4]
    else if offset == DR then (if u.rx == [] then 0 else u.rx[0])
    else if offset == FR then 0x80 + (if u.rx == [] then 0x10 else 0)
    else if offset == RIS then u.ris.Value()
    else if offset == MIS then And(u.ris, Mask(u.config.imsc)).Value()
    else ConfigRegister(u.config, offset)
  }

  /** A configuration register reads back the low 32 bits last written to it, and no other register changes it. */
  lemma ConfigReadsBack(u: Uart, offset: nat, value: u64, other: nat)
    requires offset in {CR, IMSC, IBRD, FBRD, LCR_H, IFLS}
    ensures Register(Step(u, Wrote(offset, value)), offset) == value % U32_SPAN
    ensures other in {CR, IMSC, IBRD, FBRD, LCR_H, IFLS} && other != offset ==>
              Register(Step(u, Wrote(offset, value)), other) == Register(u, other)
  {
  }

  // ---- the registers by address ----

  /** Over every run: the flag register reads 0x90 once everything received has been read, and 0x80 while a byte waits,
      which the data register then gives. */
  lemma EmptyFlagIff(es: seq<Event>)
    ensures Register(After(es), 0x18) == if Pushed(es) == Taken(es) then 0x90 else 0x80
    ensures Pushed(es) != Taken(es) ==>
              |Taken(es)| < |Pushed(es)| && Register(After(es), 0x00) == Pushed(es)[|Taken(es)|]
  {
    InputConserved(es);
  }

  /** Both receive bits, 4 and 6, are raised by input; a write to 0x44 clears exactly those it has; 0x40 shows those
      that 0x38 lets through, and the line is up exactly while it shows any. */
  lemma InterruptRegisters(u: Uart, b: byte, v: u64)
    ensures Register(Step(u, Received(b)), 0x3c) == 0x50
    ensures var t := Step(u, Wrote(0x44, v));
            && Bit(Register(t, 0x3c), 4) == (Bit(Register(u, 0x3c), 4) && !Bit(v % U32_SPAN, 4))
            && Bit(Register(t, 0x3c), 6) == (Bit(Register(u, 0x3c), 6) && !Bit(v % U32_SPAN, 6))
    ensures Bit(Register(u, 0x40), 4) == (Bit(Register(u, 0x3c), 4) && Bit(Register(u, 0x38), 4))
    ensures Bit(Register(u, 0x40), 6) == (Bit(Register(u, 0x3c), 6) && Bit(Register(u, 0x38), 6))
    ensures LineUp(u) <==> Register(u, 0x40) != 0
  {
    var t := Step(u, Wrote(0x44, v));
    BitsShow(u.ris);
    BitsShow(t.ris);
    BitsShow(And(u.ris, Mask(u.config.imsc)));
  }

  lemma BitsShow(x: Bits)
    ensures Bit(x.Value(), 4) == x.data && Bit(x.Value(), 6) == x.timeout
  {
    assert Pow2(4) == 16 && Pow2(6) == 64;
  }

  /** A restored snapshot's six registers, in order, are CR, IMSC, IBRD, FBRD, LCR_H and IFLS. */
  lemma RestoredRegisters(u: Uart, r: seq<u32>)
    requires |r| == 6
    ensures var t := Step(u, Restored(FromRegs(r)));
            && Register(t, 0x30) == r[0] && Register(t, 0x38) == r[1] && Register(t, 0x24) == r[2]
            && Register(t, 0x28) == r[3] && Register(t, 0x2c) == r[4] && Register(t, 0x34) == r[5]
            && t.rx == u.rx && t.window == u.window
  {
  }

  /** The PrimeCell identification a driver probes for. */
  lemma Identifies(u: Uart)
    ensures Register(u, 0xfe0) == 0x11 && Register(u, 0xfe4) == 0x10 && Register(u, 0xfe8) == 0x14
    ensures Register(u, 0xfec) == 0x00 && Register(u, 0xff0) == 0x0d && Register(u, 0xff4) == 0xf0
    ensures Register(u, 0xff8) == 0x05 && Register(u, 0xffc) == 0xb1
  {
  }
}

/**
 * `shbeu_start_blend`, `shbeu_wait` and `shbeu_blend` as pure specifications
 * over the register image: the argument checks, the reset, the four surface
 * encoders, the colour-space flags and the start of the operation.
 */
module Blend {
  import opened Registers
  import opened Surfaces
  import opened Encoder

  /** What a call does to the uiomux lock on the BEU. */
  datatype LockEffect = Untouched | Released | Held

  /** What `shbeu_start_blend` returns, writes in order, and leaves the lock in. */
  datatype StartOutcome = StartOutcome(ret: int, trace: seq<Write>, lock: LockEffect)

  /**
   * The checks made before the lock is taken: two sources and a destination
   * are given, and a third source, if given, has the second's format.
   */
  predicate ArgsOk(s1: Option<Surface>, s2: Option<Surface>, s3: Option<Surface>, d: Option<Surface>)
  {
    s1.Some? && s2.Some? && d.Some? && (s3.Some? ==> s2.value.format == s3.value.format)
  }

  /** Every surface given is accepted by its encoder. */
  predicate AllAccepted(s1: Option<Surface>, s2: Option<Surface>, s3: Option<Surface>, d: Option<Surface>)
  {
    && (s1.None? || SrcAccepts(s1.value))
    && (s2.None? || SrcAccepts(s2.value))
    && (s3.None? || SrcAccepts(s3.value))
    && (d.None? || DstAccepts(d.value))
  }

  /**
   * The writes after the lock is taken: the reset (BBRSTR set, BRCNTR and
   * BRCHR cleared), then BBLCR0 cleared, which sets the surfaces' stacking
   * order, surface 1 at the back.
   */
  function ResetTrace(): seq<Write>
  {
    [Write(BBRSTR, 1), Write(BRCNTR, 0), Write(BRCHR, 0), Write(BBLCR0, 0)]
  }

  /** The registers the reset sequence writes. */
  function ResetRegs(): set<Reg>
  {
    {BBRSTR, BRCNTR, BRCHR, BBLCR0}
  }

  /** Every register the reset and the four encoders may write. */
  function SetupRegs(): set<Reg>
  {
    ResetRegs() + SrcFootprint(0) + SrcFootprint(1) + SrcFootprint(2) + DstFootprint()
  }

  /** The image after source 1's encoder. */
  function AfterSrc1(img: Image, s1: Option<Surface>): Image
  {
    Apply(img, SrcSetup(img, 0, s1).trace)
  }

  /** The image after source 2's encoder, which runs against `AfterSrc1`. */
  function AfterSrc2(img: Image, s1: Option<Surface>, s2: Option<Surface>): Image
  {
    var i1 := AfterSrc1(img, s1);
    Apply(i1, SrcSetup(i1, 1, s2).trace)
  }

  /** The image after source 3's encoder, which runs against `AfterSrc2`. */
  function AfterSrc3(img: Image, s1: Option<Surface>, s2: Option<Surface>, s3: Option<Surface>): Image
  {
    var i2 := AfterSrc2(img, s1, s2);
    Apply(i2, SrcSetup(i2, 2, s3).trace)
  }

  /** The image after the destination's encoder, which runs against `AfterSrc3`. */
  function AfterSetups(img: Image, s1: Option<Surface>, s2: Option<Surface>, s3: Option<Surface>, d: Option<Surface>): Image
  {
    var i3 := AfterSrc3(img, s1, s2, s3);
    Apply(i3, DstSetup(i3, d).trace)
  }

  /**
   * The four encoder calls in order, sources 1 to 3 then the destination,
   * each against the image its predecessors left, stopping at the first
   * failure.
   */
  function Setups(img: Image, s1: Option<Surface>, s2: Option<Surface>, s3: Option<Surface>, d: Option<Surface>): (o: Outcome)
    ensures o.ret == 0 || o.ret == -1
    ensures o.ret == 0 <==> AllAccepted(s1, s2, s3, d)
  {
    var o1 := SrcSetup(img, 0, s1);
    var o2 := SrcSetup(AfterSrc1(img, s1), 1, s2);
    var o3 := SrcSetup(AfterSrc2(img, s1, s2), 2, s3);
    var o4 := DstSetup(AfterSrc3(img, s1, s2, s3), d);
    if o1.ret < 0 then o1
    else if o2.ret < 0 then Outcome(-1, o1.trace + o2.trace)
    else if o3.ret < 0 then Outcome(-1, o1.trace + o2.trace + o3.trace)
    else Outcome(o4.ret, o1.trace + o2.trace + o3.trace + o4.trace)
  }

  /**
   * A read-modify-write that ORs `mask` into register `r` when `on` holds,
   * and writes nothing otherwise.
   */
  function OrInto(img: Image, r: Reg, on: bool, mask: bv32): seq<Write>
  {
    if on then [Write(r, SetBits(img(r), mask))] else []
  }

  /** The flags ORed into BPKFR: RY always, TE as well when input 2 is RGB. */
  function OutputMask(bits: Bits, f2: PixelFormat): bv32
  {
    if IsRgb(f2) then SetBits(bits.ry, bits.te) else bits.ry
  }

  /** The start word: BEIVK, and a channel bit for each source given. */
  function StartWord(bits: Bits, has1: bool, has2: bool, has3: bool): bv32
  {
    var w := bits.beivk;
    var w := if has1 then SetBits(w, bits.chon1) else w;
    var w := if has2 then SetBits(w, bits.chon2) else w;
    if has3 then SetBits(w, bits.chon3) else w
  }

  /** BEIVK is always set in the start word. */
  lemma StartWordBase(bits: Bits, has1: bool, has2: bool, has3: bool)
    ensures StartWord(bits, has1, has2, has3) & bits.beivk == bits.beivk
  {
    if has1 { if has2 { if has3 {} else {} } else { if has3 {} else {} } }
    else { if has2 { if has3 {} else {} } else { if has3 {} else {} } }
  }

  /** Source 1's channel bit is set when source 1 is given. */
  lemma StartWordChannel1(bits: Bits, has2: bool, has3: bool)
    ensures StartWord(bits, true, has2, has3) & bits.chon1 == bits.chon1
  {
    if has2 { if has3 {} else {} } else { if has3 {} else {} }
  }

  /** Source 2's channel bit is set when source 2 is given. */
  lemma StartWordChannel2(bits: Bits, has1: bool, has3: bool)
    ensures StartWord(bits, has1, true, has3) & bits.chon2 == bits.chon2
  {
    if has1 { if has3 {} else {} } else { if has3 {} else {} }
  }

  /** Source 3's channel bit is set when source 3 is given. */
  lemma StartWordChannel3(bits: Bits, has1: bool, has2: bool)
    ensures StartWord(bits, has1, has2, true) & bits.chon3 == bits.chon3
  {
    if has1 { if has2 {} else {} } else { if has2 {} else {} }
  }

  /** No bit outside BEIVK and the three channel bits is set in the start word. */
  lemma StartWordWithin(bits: Bits, has1: bool, has2: bool, has3: bool)
    ensures StartWord(bits, has1, has2, has3) & !(bits.beivk | bits.chon1 | bits.chon2 | bits.chon3) == 0
  {
    if has1 { if has2 { if has3 {} else {} } else { if has3 {} else {} } }
    else { if has2 { if has3 {} else {} } else { if has3 {} else {} } }
  }

  /** Without source 1, the start word has no bit outside BEIVK and the channel bits of sources 2 and 3. */
  lemma StartWordNoChannel1(bits: Bits, has1: bool, has2: bool, has3: bool)
    ensures !has1 ==> StartWord(bits, has1, has2, has3) & !(bits.beivk | bits.chon2 | bits.chon3) == 0
  {
    if has1 { if has2 { if has3 {} else {} } else { if has3 {} else {} } }
    else { if has2 { if has3 {} else {} } else { if has3 {} else {} } }
  }

  /** Without source 2, the start word has no bit outside BEIVK and the channel bits of sources 1 and 3. */
  lemma StartWordNoChannel2(bits: Bits, has1: bool, has2: bool, has3: bool)
    ensures !has2 ==> StartWord(bits, has1, has2, has3) & !(bits.beivk | bits.chon1 | bits.chon3) == 0
  {
    if has1 { if has2 { if has3 {} else {} } else { if has3 {} else {} } }
    else { if has2 { if has3 {} else {} } else { if has3 {} else {} } }
  }

  /** Without source 3, the start word has no bit outside BEIVK and the channel bits of sources 1 and 2. */
  lemma StartWordNoChannel3(bits: Bits, has1: bool, has2: bool, has3: bool)
    ensures !has3 ==> StartWord(bits, has1, has2, has3) & !(bits.beivk | bits.chon1 | bits.chon2) == 0
  {
    if has1 { if has2 { if has3 {} else {} } else { if has3 {} else {} } }
    else { if has2 { if has3 {} else {} } else { if has3 {} else {} } }
  }

  /**
   * The start word has BEIVK set, the channel bit of each source given set,
   * and no bit set outside BEIVK and the three channel bits.
   */
  lemma StartWordFields(bits: Bits, has1: bool, has2: bool, has3: bool)
    ensures StartWord(bits, has1, has2, has3) & bits.beivk == bits.beivk
    ensures has1 ==> StartWord(bits, has1, has2, has3) & bits.chon1 == bits.chon1
    ensures has2 ==> StartWord(bits, has1, has2, has3) & bits.chon2 == bits.chon2
    ensures has3 ==> StartWord(bits, has1, has2, has3) & bits.chon3 == bits.chon3
    ensures StartWord(bits, has1, has2, has3) & !(bits.beivk | bits.chon1 | bits.chon2 | bits.chon3) == 0
  {
    StartWordBase(bits, has1, has2, has3);
    if has1 { StartWordChannel1(bits, has2, has3); }
    if has2 { StartWordChannel2(bits, has1, has3); }
    if has3 { StartWordChannel3(bits, has1, has2); }
    StartWordWithin(bits, has1, has2, has3);
  }

  /**
   * The channel bit of a source not given is not added: the start word has
   * no bit outside BEIVK and the channel bits of the other two sources.
   */
  lemma StartWordAbsent(bits: Bits, has1: bool, has2: bool, has3: bool)
    ensures !has1 ==> StartWord(bits, has1, has2, has3) & !(bits.beivk | bits.chon2 | bits.chon3) == 0
    ensures !has2 ==> StartWord(bits, has1, has2, has3) & !(bits.beivk | bits.chon1 | bits.chon3) == 0
    ensures !has3 ==> StartWord(bits, has1, has2, has3) & !(bits.beivk | bits.chon1 | bits.chon2) == 0
  {
    StartWordNoChannel1(bits, has1, has2, has3);
    StartWordNoChannel2(bits, has1, has2, has3);
    StartWordNoChannel3(bits, has1, has2, has3);
  }

  /** Output to memory, the three cleared control registers and the interrupt enable. */
  function PreStartTrace(outputMem: bv32): seq<Write>
  {
    [Write(BBLCR1, outputMem), Write(BPROCR, 0), Write(BMWCR0, 0), Write(BPCCR0, 0), Write(BEIER, 1)]
  }

  /** The closing writes: `PreStartTrace`, then the start word into BESTR. */
  function TailTrace(outputMem: bv32, start: bv32): seq<Write>
  {
    PreStartTrace(outputMem) + [Write(BESTR, start)]
  }

  /**
   * `shbeu_start_blend(pvt, src1, src2, src3, dest)` against `img`. Bad
   * arguments are refused before the lock is taken; a surface an encoder
   * rejects releases the lock; success keeps it held for `shbeu_wait`.
   */
  function StartBlend(img: Image, bits: Bits, s1: Option<Surface>, s2: Option<Surface>, s3: Option<Surface>, d: Option<Surface>): (o: StartOutcome)
    ensures o.ret == 0 || o.ret == -1
    ensures o.ret == 0 <==> ArgsOk(s1, s2, s3, d) && AllAccepted(s1, s2, s3, d)
    ensures o.lock == Held <==> o.ret == 0
    ensures o.lock == Untouched <==> !ArgsOk(s1, s2, s3, d)
    ensures o.lock == Untouched ==> o.trace == []
  {
    if !ArgsOk(s1, s2, s3, d) then StartOutcome(-1, [], Untouched)
    else
      var img0 := Apply(img, ResetTrace());
      var o := Setups(img0, s1, s2, s3, d);
      if o.ret < 0 then StartOutcome(-1, ResetTrace() + o.trace, Released)
      else
        var img1 := Apply(img0, o.trace);
        var fi := OrInto(img1, Src(BSIFR, 0), SameFamily(s1.value.format, s2.value.format), bits.in1te);
        var fo := OrInto(Apply(img1, fi), BPKFR, SameFamily(d.value.format, s2.value.format), OutputMask(bits, s2.value.format));
        var start := StartWord(bits, s1.Some?, s2.Some?, s3.Some?);
        StartOutcome(0, ResetTrace() + o.trace + fi + fo + TailTrace(bits.outputMem, start), Held)
  }

  /** `shbeu_wait`'s one write: acknowledge the interrupt. */
  function WaitTrace(): seq<Write>
  {
    [Write(BEVTR, 0x100)]
  }

  /**
   * `shbeu_blend`, given what its call of `shbeu_start_blend` did: wait only
   * when the start succeeded. The lock is never left held: refused arguments
   * never take it, and every other path releases it.
   */
  function BlendOp(st: StartOutcome): (o: StartOutcome)
    requires st.lock == Held <==> st.ret == 0
    ensures o.ret == st.ret
    ensures o.lock != Held
    ensures o.lock == Untouched <==> st.lock == Untouched
    ensures o.ret == 0 ==> o.trace == st.trace + [Write(BEVTR, 0x100)]
    ensures o.ret != 0 ==> o.trace == st.trace
  {
    if st.ret == 0 then StartOutcome(0, st.trace + WaitTrace(), Released)
    else st
  }

  /** Four traces within four register sets write within their union. */
  lemma WrittenFour(a: seq<Write>, b: seq<Write>, c: seq<Write>, e: seq<Write>, A: set<Reg>, B: set<Reg>, C: set<Reg>, E: set<Reg>)
    requires Written(a) <= A && Written(b) <= B && Written(c) <= C && Written(e) <= E
    ensures Written(a) <= A + B + C + E
    ensures Written(a + b) <= A + B + C + E
    ensures Written(a + b + c) <= A + B + C + E
    ensures Written(a + b + c + e) <= A + B + C + E
  {
    WrittenAppend(a, b);
    WrittenAppend(a + b, c);
    WrittenAppend(a + b + c, e);
  }

  /** Whatever they are given, the four encoders write only within their footprints. */
  lemma SetupsWritten(img: Image, s1: Option<Surface>, s2: Option<Surface>, s3: Option<Surface>, d: Option<Surface>)
    ensures Written(Setups(img, s1, s2, s3, d).trace) <= SrcFootprint(0) + SrcFootprint(1) + SrcFootprint(2) + DstFootprint()
  {
    SrcSetupWritten(img, 0, s1);
    SrcSetupWritten(AfterSrc1(img, s1), 1, s2);
    SrcSetupWritten(AfterSrc2(img, s1, s2), 2, s3);
    DstSetupWritten(AfterSrc3(img, s1, s2, s3), d);
    WrittenFour(SrcSetup(img, 0, s1).trace, SrcSetup(AfterSrc1(img, s1), 1, s2).trace,
      SrcSetup(AfterSrc2(img, s1, s2), 2, s3).trace, DstSetup(AfterSrc3(img, s1, s2, s3), d).trace,
      SrcFootprint(0), SrcFootprint(1), SrcFootprint(2), DstFootprint());
  }

  /** When every encoder accepts, the encoders' writes lead to `AfterSetups`. */
  lemma SetupsImage(img: Image, s1: Option<Surface>, s2: Option<Surface>, s3: Option<Surface>, d: Option<Surface>)
    requires AllAccepted(s1, s2, s3, d)
    ensures Apply(img, Setups(img, s1, s2, s3, d).trace) == AfterSetups(img, s1, s2, s3, d)
  {
    ChainFour([], img, SrcSetup(img, 0, s1).trace, SrcSetup(AfterSrc1(img, s1), 1, s2).trace,
      SrcSetup(AfterSrc2(img, s1, s2), 2, s3).trace, DstSetup(AfterSrc3(img, s1, s2, s3), d).trace);
  }

  /**
   * One source encoder against any image: an accepted source fills its
   * format register, ORs its swap bits into BSWPR and sets BBLCR0 to
   * 0xFFFFFF; an absent one changes nothing. BPKFR and the other slots'
   * format registers are left alone.
   */
  lemma SrcStageEffect(img: Image, index: Slot, s: Option<Surface>)
    requires s.None? || SrcAccepts(s.value)
    ensures var after := Apply(img, SrcSetup(img, index, s).trace);
      && (s.Some? ==> after(Src(BSIFR, index)) == SrcFormatCode(s.value.format, s.value.pa != 0).value)
      && after(BSWPR) == (if s.Some? then SetBits(img(BSWPR), SrcSwapBits(index, s.value.format)) else img(BSWPR))
      && after(BBLCR0) == (if s.Some? then 0xFF_FFFF else img(BBLCR0))
      && (index != 0 ==> after(Src(BSIFR, 0)) == img(Src(BSIFR, 0)))
      && after(BPKFR) == img(BPKFR)
  {
    if s.Some? {
      SrcSetupAccepted(img, index, s);
    } else {
      SrcSetupRejected(img, index, s);
    }
    if index != 0 {
      SrcSetupFrame(img, index, s, Src(BSIFR, 0));
    }
    SrcSetupFrame(img, index, s, BPKFR);
  }

  /** The destination encoder, whatever it is given, leaves BBLCR0 and source 1's format register alone. */
  lemma DstStageFrame(img: Image, d: Option<Surface>)
    ensures var after := Apply(img, DstSetup(img, d).trace);
      && after(BBLCR0) == img(BBLCR0)
      && after(Src(BSIFR, 0)) == img(Src(BSIFR, 0))
  {
    DstSetupFrame(img, d, BBLCR0);
    DstSetupFrame(img, d, Src(BSIFR, 0));
  }

  /**
   * The four accepted encoders: BSWPR keeps its bits and gains every
   * surface's swap bits (the reset does not clear it), source 1's format
   * register and BPKFR hold their table codes, and BBLCR0 holds 0xFFFFFF.
   */
  lemma SetupsEffect(img: Image, s1: Option<Surface>, s2: Option<Surface>, s3: Option<Surface>, d: Option<Surface>)
    requires s1.Some? && s2.Some? && d.Some? && AllAccepted(s1, s2, s3, d)
    ensures var after := AfterSetups(img, s1, s2, s3, d);
      var b := SetBits(SetBits(img(BSWPR), SrcSwapBits(0, s1.value.format)), SrcSwapBits(1, s2.value.format));
      var b := if s3.Some? then SetBits(b, SrcSwapBits(2, s3.value.format)) else b;
      && after(BSWPR) == SetBits(b, DstSwapBits(d.value.format))
      && after(Src(BSIFR, 0)) == SrcFormatCode(s1.value.format, s1.value.pa != 0).value
      && after(BPKFR) == DstFormatCode(d.value.format).value
      && after(BBLCR0) == 0xFF_FFFF
  {
    var i1 := AfterSrc1(img, s1);
    var i2 := AfterSrc2(img, s1, s2);
    var i3 := AfterSrc3(img, s1, s2, s3);
    SrcStageEffect(img, 0, s1);
    SrcStageEffect(i1, 1, s2);
    SrcStageEffect(i2, 2, s3);
    DstSetupAccepted(i3, d);
    DstStageFrame(i3, d);
  }

  /** A start refused by an encoder wrote the reset and then what the encoders wrote. */
  lemma StartBlendReleasedTrace(img: Image, bits: Bits, s1: Option<Surface>, s2: Option<Surface>, s3: Option<Surface>, d: Option<Surface>)
    requires ArgsOk(s1, s2, s3, d) && !AllAccepted(s1, s2, s3, d)
    ensures StartBlend(img, bits, s1, s2, s3, d).trace == ResetTrace() + Setups(Apply(img, ResetTrace()), s1, s2, s3, d).trace
  {
  }

  /** The reset followed by writes within the encoders' footprints stays within `SetupRegs`. */
  lemma ResetThenSetupsWritten(t: seq<Write>)
    requires Written(t) <= SrcFootprint(0) + SrcFootprint(1) + SrcFootprint(2) + DstFootprint()
    ensures Written(ResetTrace() + t) <= SetupRegs()
  {
    WrittenAppend(ResetTrace(), t);
  }

  /** Nothing within `SetupRegs` starts the operation. */
  lemma NoStartWithinSetupRegs(t: seq<Write>)
    requires Written(t) <= SetupRegs()
    ensures BESTR !in Written(t)
  {
  }

  /**
   * A failed start writes nothing beyond the reset and the encoders'
   * registers: in particular the operation is never started.
   */
  lemma StartBlendFailure(img: Image, bits: Bits, s1: Option<Surface>, s2: Option<Surface>, s3: Option<Surface>, d: Option<Surface>)
    requires !(ArgsOk(s1, s2, s3, d) && AllAccepted(s1, s2, s3, d))
    ensures Written(StartBlend(img, bits, s1, s2, s3, d).trace) <= SetupRegs()
    ensures BESTR !in Written(StartBlend(img, bits, s1, s2, s3, d).trace)
  {
    if ArgsOk(s1, s2, s3, d) {
      var img0 := Apply(img, ResetTrace());
      StartBlendReleasedTrace(img, bits, s1, s2, s3, d);
      SetupsWritten(img0, s1, s2, s3, d);
      ResetThenSetupsWritten(Setups(img0, s1, s2, s3, d).trace);
    }
    NoStartWithinSetupRegs(StartBlend(img, bits, s1, s2, s3, d).trace);
  }

  /** A read-modify-write touches only its register, and ORs the mask into it when on. */
  lemma OrIntoEffect(img: Image, r: Reg, on: bool, mask: bv32)
    ensures Written(OrInto(img, r, on, mask)) <= {r}
    ensures Apply(img, OrInto(img, r, on, mask))(r) == if on then SetBits(img(r), mask) else img(r)
  {
    if on {
      ApplySingle(img, Write(r, SetBits(img(r), mask)));
    }
  }

  /** The closing writes name the output, control and interrupt registers, then BESTR. */
  lemma TailWritten(outputMem: bv32, start: bv32)
    ensures Written(TailTrace(outputMem, start)) == {BBLCR1, BPROCR, BMWCR0, BPCCR0, BEIER, BESTR}
    ensures BESTR !in Written(PreStartTrace(outputMem))
  {
    WrittenSnoc(PreStartTrace(outputMem), Write(BESTR, start));
  }

  /** The closing writes leave the start word in BESTR. */
  lemma TailStart(img: Image, outputMem: bv32, start: bv32)
    ensures Apply(img, TailTrace(outputMem, start))(BESTR) == start
  {
    ApplySnoc(img, PreStartTrace(outputMem), Write(BESTR, start));
  }

  /** A successful start wrote the reset, the encoders, the two flags and the closing writes. */
  lemma StartBlendHeldTrace(img: Image, bits: Bits, s1: Option<Surface>, s2: Option<Surface>, s3: Option<Surface>, d: Option<Surface>)
    requires ArgsOk(s1, s2, s3, d) && AllAccepted(s1, s2, s3, d)
    ensures var img0 := Apply(img, ResetTrace());
      var setups := Setups(img0, s1, s2, s3, d).trace;
      var img1 := Apply(img0, setups);
      var fi := OrInto(img1, Src(BSIFR, 0), SameFamily(s1.value.format, s2.value.format), bits.in1te);
      var fo := OrInto(Apply(img1, fi), BPKFR, SameFamily(d.value.format, s2.value.format), OutputMask(bits, s2.value.format));
      StartBlend(img, bits, s1, s2, s3, d).trace
        == ResetTrace() + setups + fi + fo + TailTrace(bits.outputMem, StartWord(bits, true, true, s3.Some?))
  {
  }

  /** The reset and the surface-order write clear BBLCR0 and leave BSWPR alone. */
  lemma ResetEffect(img: Image)
    ensures Apply(img, ResetTrace())(BSWPR) == img(BSWPR)
    ensures Apply(img, ResetTrace())(BBLCR0) == 0
  {
    ApplyUnwritten(img, ResetTrace(), BSWPR);
    ApplySnoc(img, ResetTrace()[..3], Write(BBLCR0, 0));
  }

  /** A register outside `{r}` passes through a read-modify-write of `r`. */
  lemma OrIntoFrame(img: Image, r: Reg, on: bool, mask: bv32, q: Reg)
    requires q != r
    ensures Apply(img, OrInto(img, r, on, mask))(q) == img(q)
  {
    OrIntoEffect(img, r, on, mask);
    ApplyUnwritten(img, OrInto(img, r, on, mask), q);
  }

  /** The closing writes leave BSWPR, BBLCR0, BPKFR and source 1's format register alone. */
  lemma TailFrame(img: Image, outputMem: bv32, start: bv32, q: Reg)
    requires q in {BSWPR, BBLCR0, BPKFR, Src(BSIFR, 0)}
    ensures Apply(img, TailTrace(outputMem, start))(q) == img(q)
  {
    TailWritten(outputMem, start);
    ApplyUnwritten(img, TailTrace(outputMem, start), q);
  }

  /**
   * A successful start's image, stage by stage: the reset, the encoders
   * (`AfterSetups`), the input flag, the output flags and the closing writes.
   */
  lemma StartBlendImage(img: Image, bits: Bits, s1: Option<Surface>, s2: Option<Surface>, s3: Option<Surface>, d: Option<Surface>)
    requires ArgsOk(s1, s2, s3, d) && AllAccepted(s1, s2, s3, d)
    ensures var img1 := AfterSetups(Apply(img, ResetTrace()), s1, s2, s3, d);
      var img2 := Apply(img1, OrInto(img1, Src(BSIFR, 0), SameFamily(s1.value.format, s2.value.format), bits.in1te));
      var img3 := Apply(img2, OrInto(img2, BPKFR, SameFamily(d.value.format, s2.value.format), OutputMask(bits, s2.value.format)));
      Apply(img, StartBlend(img, bits, s1, s2, s3, d).trace)
        == Apply(img3, TailTrace(bits.outputMem, StartWord(bits, true, true, s3.Some?)))
  {
    var img0 := Apply(img, ResetTrace());
    var setups := Setups(img0, s1, s2, s3, d).trace;
    var img1 := Apply(img0, setups);
    var fi := OrInto(img1, Src(BSIFR, 0), SameFamily(s1.value.format, s2.value.format), bits.in1te);
    var fo := OrInto(Apply(img1, fi), BPKFR, SameFamily(d.value.format, s2.value.format), OutputMask(bits, s2.value.format));
    StartBlendHeldTrace(img, bits, s1, s2, s3, d);
    ChainFive([], img, ResetTrace(), setups, fi, fo, TailTrace(bits.outputMem, StartWord(bits, true, true, s3.Some?)));
    SetupsImage(img0, s1, s2, s3, d);
  }

  /**
   * The writes after the encoders, from any image: source 1's format
   * register and BPKFR gain their flags when on, BESTR receives the start
   * word, and BSWPR and BBLCR0 pass through.
   */
  lemma FinishEffect(img1: Image, in1te: bv32, same1: bool, sameD: bool, mask: bv32, outputMem: bv32, start: bv32)
    ensures var img2 := Apply(img1, OrInto(img1, Src(BSIFR, 0), same1, in1te));
      var img3 := Apply(img2, OrInto(img2, BPKFR, sameD, mask));
      var after := Apply(img3, TailTrace(outputMem, start));
      && after(BSWPR) == img1(BSWPR)
      && after(BBLCR0) == img1(BBLCR0)
      && after(Src(BSIFR, 0)) == (if same1 then SetBits(img1(Src(BSIFR, 0)), in1te) else img1(Src(BSIFR, 0)))
      && after(BPKFR) == (if sameD then SetBits(img1(BPKFR), mask) else img1(BPKFR))
      && after(BESTR) == start
  {
    var img2 := Apply(img1, OrInto(img1, Src(BSIFR, 0), same1, in1te));
    var img3 := Apply(img2, OrInto(img2, BPKFR, sameD, mask));
    OrIntoEffect(img1, Src(BSIFR, 0), same1, in1te);
    OrIntoFrame(img1, Src(BSIFR, 0), same1, in1te, BSWPR);
    OrIntoFrame(img1, Src(BSIFR, 0), same1, in1te, BBLCR0);
    OrIntoFrame(img1, Src(BSIFR, 0), same1, in1te, BPKFR);
    OrIntoEffect(img2, BPKFR, sameD, mask);
    OrIntoFrame(img2, BPKFR, sameD, mask, BSWPR);
    OrIntoFrame(img2, BPKFR, sameD, mask, BBLCR0);
    OrIntoFrame(img2, BPKFR, sameD, mask, Src(BSIFR, 0));
    TailFrame(img3, outputMem, start, BSWPR);
    TailFrame(img3, outputMem, start, BBLCR0);
    TailFrame(img3, outputMem, start, BPKFR);
    TailFrame(img3, outputMem, start, Src(BSIFR, 0));
    TailStart(img3, outputMem, start);
  }

  /**
   * A successful start, seen from the image its encoders left: BSWPR and
   * BBLCR0 pass through the flag and closing writes, and source 1's format
   * register and BPKFR gain their flags exactly when the families match.
   */
  lemma StartBlendFinish(img: Image, bits: Bits, s1: Option<Surface>, s2: Option<Surface>, s3: Option<Surface>, d: Option<Surface>)
    requires ArgsOk(s1, s2, s3, d) && AllAccepted(s1, s2, s3, d)
    ensures var img1 := AfterSetups(Apply(img, ResetTrace()), s1, s2, s3, d);
      var after := Apply(img, StartBlend(img, bits, s1, s2, s3, d).trace);
      var f1, f2, fd := s1.value.format, s2.value.format, d.value.format;
      && after(BSWPR) == img1(BSWPR)
      && after(BBLCR0) == img1(BBLCR0)
      && after(BPKFR) == (if SameFamily(fd, f2) then SetBits(img1(BPKFR), OutputMask(bits, f2)) else img1(BPKFR))
  {
    var f1, f2, fd := s1.value.format, s2.value.format, d.value.format;
    StartBlendImage(img, bits, s1, s2, s3, d);
    FinishEffect(AfterSetups(Apply(img, ResetTrace()), s1, s2, s3, d), bits.in1te, SameFamily(f1, f2), SameFamily(fd, f2),
      OutputMask(bits, f2), bits.outputMem, StartWord(bits, true, true, s3.Some?));
  }

  /**
   * BSWPR after a successful start: its old bits plus every surface's swap
   * bits, since neither the reset nor anything else clears it.
   */
  lemma StartBlendSwap(img: Image, bits: Bits, s1: Option<Surface>, s2: Option<Surface>, s3: Option<Surface>, d: Option<Surface>)
    requires ArgsOk(s1, s2, s3, d) && AllAccepted(s1, s2, s3, d)
    ensures var swap := SetBits(SetBits(img(BSWPR), SrcSwapBits(0, s1.value.format)), SrcSwapBits(1, s2.value.format));
      var swap := if s3.Some? then SetBits(swap, SrcSwapBits(2, s3.value.format)) else swap;
      Apply(img, StartBlend(img, bits, s1, s2, s3, d).trace)(BSWPR) == SetBits(swap, DstSwapBits(d.value.format))
  {
    StartBlendFinish(img, bits, s1, s2, s3, d);
    ResetEffect(img);
    SetupsEffect(Apply(img, ResetTrace()), s1, s2, s3, d);
  }

  /** BESTR after a successful start holds the start word. */
  lemma StartBlendStartWord(img: Image, bits: Bits, s1: Option<Surface>, s2: Option<Surface>, s3: Option<Surface>, d: Option<Surface>)
    requires ArgsOk(s1, s2, s3, d) && AllAccepted(s1, s2, s3, d)
    ensures Apply(img, StartBlend(img, bits, s1, s2, s3, d).trace)(BESTR) == StartWord(bits, true, true, s3.Some?)
  {
    var img1 := AfterSetups(Apply(img, ResetTrace()), s1, s2, s3, d);
    var img2 := Apply(img1, OrInto(img1, Src(BSIFR, 0), SameFamily(s1.value.format, s2.value.format), bits.in1te));
    var img3 := Apply(img2, OrInto(img2, BPKFR, SameFamily(d.value.format, s2.value.format), OutputMask(bits, s2.value.format)));
    StartBlendImage(img, bits, s1, s2, s3, d);
    TailStart(img3, bits.outputMem, StartWord(bits, true, true, s3.Some?));
  }

  /** BBLCR0 after a successful start holds 0xFFFFFF, whatever the surfaces' alpha values. */
  lemma StartBlendBlendControl(img: Image, bits: Bits, s1: Option<Surface>, s2: Option<Surface>, s3: Option<Surface>, d: Option<Surface>)
    requires ArgsOk(s1, s2, s3, d) && AllAccepted(s1, s2, s3, d)
    ensures Apply(img, StartBlend(img, bits, s1, s2, s3, d).trace)(BBLCR0) == 0xFF_FFFF
  {
    StartBlendFinish(img, bits, s1, s2, s3, d);
    SetupsEffect(Apply(img, ResetTrace()), s1, s2, s3, d);
  }

  /**
   * BPKFR after a successful start: the output's format code, with RY (and
   * TE when input 2 is RGB) exactly when the output and input 2 share a
   * colour family.
   */
  lemma StartBlendOutputFlags(img: Image, bits: Bits, s1: Option<Surface>, s2: Option<Surface>, s3: Option<Surface>, d: Option<Surface>)
    requires ArgsOk(s1, s2, s3, d) && AllAccepted(s1, s2, s3, d)
    ensures var codeD := DstFormatCode(d.value.format).value;
      Apply(img, StartBlend(img, bits, s1, s2, s3, d).trace)(BPKFR)
        == if SameFamily(d.value.format, s2.value.format) then SetBits(codeD, OutputMask(bits, s2.value.format)) else codeD
  {
    StartBlendFinish(img, bits, s1, s2, s3, d);
    SetupsEffect(Apply(img, ResetTrace()), s1, s2, s3, d);
  }

  /** Source 1's format register passes through the output flags and the closing writes. */
  lemma StartBlendInputPass(img: Image, bits: Bits, s1: Option<Surface>, s2: Option<Surface>, s3: Option<Surface>, d: Option<Surface>)
    requires ArgsOk(s1, s2, s3, d) && AllAccepted(s1, s2, s3, d)
    ensures var img1 := AfterSetups(Apply(img, ResetTrace()), s1, s2, s3, d);
      var img2 := Apply(img1, OrInto(img1, Src(BSIFR, 0), SameFamily(s1.value.format, s2.value.format), bits.in1te));
      Apply(img, StartBlend(img, bits, s1, s2, s3, d).trace)(Src(BSIFR, 0)) == img2(Src(BSIFR, 0))
  {
    var f1, f2, fd := s1.value.format, s2.value.format, d.value.format;
    var img1 := AfterSetups(Apply(img, ResetTrace()), s1, s2, s3, d);
    var img2 := Apply(img1, OrInto(img1, Src(BSIFR, 0), SameFamily(f1, f2), bits.in1te));
    var img3 := Apply(img2, OrInto(img2, BPKFR, SameFamily(fd, f2), OutputMask(bits, f2)));
    StartBlendImage(img, bits, s1, s2, s3, d);
    OrIntoFrame(img2, BPKFR, SameFamily(fd, f2), OutputMask(bits, f2), Src(BSIFR, 0));
    TailFrame(img3, bits.outputMem, StartWord(bits, true, true, s3.Some?), Src(BSIFR, 0));
  }

  /**
   * Source 1's format register after a successful start: its format code,
   * with IN1TE exactly when inputs 1 and 2 share a colour family.
   */
  lemma StartBlendInputFlag(img: Image, bits: Bits, s1: Option<Surface>, s2: Option<Surface>, s3: Option<Surface>, d: Option<Surface>)
    requires ArgsOk(s1, s2, s3, d) && AllAccepted(s1, s2, s3, d)
    ensures var code1 := SrcFormatCode(s1.value.format, s1.value.pa != 0).value;
      Apply(img, StartBlend(img, bits, s1, s2, s3, d).trace)(Src(BSIFR, 0))
        == if SameFamily(s1.value.format, s2.value.format) then SetBits(code1, bits.in1te) else code1
  {
    var img1 := AfterSetups(Apply(img, ResetTrace()), s1, s2, s3, d);
    StartBlendInputPass(img, bits, s1, s2, s3, d);
    OrIntoEffect(img1, Src(BSIFR, 0), SameFamily(s1.value.format, s2.value.format), bits.in1te);
    SetupsEffect(Apply(img, ResetTrace()), s1, s2, s3, d);
  }

  /**
   * A trace ending with the closing writes, whose earlier parts never name
   * BESTR, writes BESTR exactly once, as its very last write.
   */
  lemma StartIsLast(setup: seq<Write>, fi: seq<Write>, fo: seq<Write>, outputMem: bv32, start: bv32)
    requires BESTR !in Written(setup)
    requires Written(fi) <= {Src(BSIFR, 0)} && Written(fo) <= {BPKFR}
    ensures var t := setup + fi + fo + TailTrace(outputMem, start);
      && t[|t| - 1] == Write(BESTR, start)
      && BESTR !in Written(t[..|t| - 1])
  {
    var pre := setup + fi + fo + PreStartTrace(outputMem);
    assert setup + fi + fo + TailTrace(outputMem, start) == pre + [Write(BESTR, start)];
    assert (pre + [Write(BESTR, start)])[..|pre|] == pre;
    WrittenAppend(setup, fi);
    WrittenAppend(setup + fi, fo);
    WrittenAppend(setup + fi + fo, PreStartTrace(outputMem));
    TailWritten(outputMem, start);
  }

  /**
   * A successful start ends by writing the start word into BESTR, with a
   * channel bit for each source given, and writes BESTR nowhere before.
   */
  lemma StartBlendStartsLast(img: Image, bits: Bits, s1: Option<Surface>, s2: Option<Surface>, s3: Option<Surface>, d: Option<Surface>)
    requires ArgsOk(s1, s2, s3, d) && AllAccepted(s1, s2, s3, d)
    ensures var t := StartBlend(img, bits, s1, s2, s3, d).trace;
      && |t| > 0
      && t[|t| - 1] == Write(BESTR, StartWord(bits, true, true, s3.Some?))
      && BESTR !in Written(t[..|t| - 1])
  {
    var img0 := Apply(img, ResetTrace());
    var setups := Setups(img0, s1, s2, s3, d).trace;
    var img1 := Apply(img0, setups);
    var f1, f2, fd := s1.value.format, s2.value.format, d.value.format;
    var fi := OrInto(img1, Src(BSIFR, 0), SameFamily(f1, f2), bits.in1te);
    var fo := OrInto(Apply(img1, fi), BPKFR, SameFamily(fd, f2), OutputMask(bits, f2));
    StartBlendHeldTrace(img, bits, s1, s2, s3, d);
    SetupsWritten(img0, s1, s2, s3, d);
    ResetThenSetupsWritten(setups);
    NoStartWithinSetupRegs(ResetTrace() + setups);
    OrIntoEffect(img1, Src(BSIFR, 0), SameFamily(f1, f2), bits.in1te);
    OrIntoEffect(Apply(img1, fi), BPKFR, SameFamily(fd, f2), OutputMask(bits, f2));
    StartIsLast(ResetTrace() + setups, fi, fo, bits.outputMem, StartWord(bits, true, true, s3.Some?));
  }

  /** The reset and the surface-order write, made one at a time. */
  lemma ResetSteps(log: seq<Write>, img: Image)
    ensures log + [Write(BBRSTR, 1)] + [Write(BRCNTR, 0)] + [Write(BRCHR, 0)] + [Write(BBLCR0, 0)]
      == log + ResetTrace()
    ensures Update(Update(Update(Update(img, Write(BBRSTR, 1)), Write(BRCNTR, 0)), Write(BRCHR, 0)), Write(BBLCR0, 0))
      == Apply(img, ResetTrace())
  {
    StepFour(log, img, Write(BBRSTR, 1), Write(BRCNTR, 0), Write(BRCHR, 0), Write(BBLCR0, 0));
  }

  /** The closing writes, made one at a time. */
  lemma TailSteps(log: seq<Write>, img: Image, outputMem: bv32, start: bv32)
    ensures var a, b, c, e, f := Write(BBLCR1, outputMem), Write(BPROCR, 0), Write(BMWCR0, 0), Write(BPCCR0, 0), Write(BEIER, 1);
      && log + [a] + [b] + [c] + [e] + [f] + [Write(BESTR, start)] == log + TailTrace(outputMem, start)
      && Update(Update(Update(Update(Update(Update(img, a), b), c), e), f), Write(BESTR, start))
         == Apply(img, TailTrace(outputMem, start))
  {
    var a, b, c, e, f := Write(BBLCR1, outputMem), Write(BPROCR, 0), Write(BMWCR0, 0), Write(BPCCR0, 0), Write(BEIER, 1);
    StepFive(log, img, a, b, c, e, f);
    ApplySnoc(img, PreStartTrace(outputMem), Write(BESTR, start));
  }

  /** Setting RY and then, for an RGB input 2, TE sets the output mask. */
  lemma OutputMaskSteps(v: bv32, bits: Bits, f2: PixelFormat)
    ensures (if IsRgb(f2) then SetBits(SetBits(v, bits.ry), bits.te) else SetBits(v, bits.ry))
      == SetBits(v, OutputMask(bits, f2))
  {
    if IsRgb(f2) {
      SetBitsNest(v, bits.ry, bits.te);
    }
  }

  /** The encoders stopped by source 2. */
  lemma SetupsStopTwo(img: Image, s1: Option<Surface>, s2: Option<Surface>, s3: Option<Surface>, d: Option<Surface>)
    requires (s1.None? || SrcAccepts(s1.value)) && s2.Some? && !SrcAccepts(s2.value)
    ensures Setups(img, s1, s2, s3, d)
      == Outcome(-1, SrcSetup(img, 0, s1).trace + SrcSetup(AfterSrc1(img, s1), 1, s2).trace)
  {
  }

  /** The encoders stopped by source 3. */
  lemma SetupsStopThree(img: Image, s1: Option<Surface>, s2: Option<Surface>, s3: Option<Surface>, d: Option<Surface>)
    requires (s1.None? || SrcAccepts(s1.value)) && (s2.None? || SrcAccepts(s2.value))
    requires s3.Some? && !SrcAccepts(s3.value)
    ensures Setups(img, s1, s2, s3, d)
      == Outcome(-1, SrcSetup(img, 0, s1).trace + SrcSetup(AfterSrc1(img, s1), 1, s2).trace
                     + SrcSetup(AfterSrc2(img, s1, s2), 2, s3).trace)
  {
  }

  /** Every source accepted: the destination's encoder decides. */
  lemma SetupsReachDst(img: Image, s1: Option<Surface>, s2: Option<Surface>, s3: Option<Surface>, d: Option<Surface>)
    requires (s1.None? || SrcAccepts(s1.value)) && (s2.None? || SrcAccepts(s2.value))
    requires s3.None? || SrcAccepts(s3.value)
    ensures var o4 := DstSetup(AfterSrc3(img, s1, s2, s3), d);
      Setups(img, s1, s2, s3, d)
        == Outcome(o4.ret, SrcSetup(img, 0, s1).trace + SrcSetup(AfterSrc1(img, s1), 1, s2).trace
                           + SrcSetup(AfterSrc2(img, s1, s2), 2, s3).trace + o4.trace)
  {
  }

  /**
   * Once a source is refused, the encoders stop: nothing is written beyond
   * the footprints of the sources up to the refused one, so a refused source
   * 1 or 2 leaves the later slots alone, and no refused source lets the
   * destination's stride, address, fixed-alpha or format registers be written.
   */
  lemma SetupsStopWritten(img: Image, s1: Option<Surface>, s2: Option<Surface>, s3: Option<Surface>, d: Option<Surface>)
    ensures s1.Some? && !SrcAccepts(s1.value)
      ==> Written(Setups(img, s1, s2, s3, d).trace) <= SrcFootprint(0)
    ensures (s1.None? || SrcAccepts(s1.value)) && s2.Some? && !SrcAccepts(s2.value)
      ==> Written(Setups(img, s1, s2, s3, d).trace) <= SrcFootprint(0) + SrcFootprint(1)
    ensures (s1.None? || SrcAccepts(s1.value)) && (s2.None? || SrcAccepts(s2.value)) && s3.Some? && !SrcAccepts(s3.value)
      ==> Written(Setups(img, s1, s2, s3, d).trace) <= SrcFootprint(0) + SrcFootprint(1) + SrcFootprint(2)
  {
    var t1 := SrcSetup(img, 0, s1).trace;
    var t2 := SrcSetup(AfterSrc1(img, s1), 1, s2).trace;
    var t3 := SrcSetup(AfterSrc2(img, s1, s2), 2, s3).trace;
    SrcSetupWritten(img, 0, s1);
    SrcSetupWritten(AfterSrc1(img, s1), 1, s2);
    SrcSetupWritten(AfterSrc2(img, s1, s2), 2, s3);
    WrittenAppend(t1, t2);
    WrittenAppend(t1 + t2, t3);
  }

  /** A trace that starts with the reset has the reset as its first four writes. */
  lemma ResetPrefix(t: seq<Write>)
    ensures |ResetTrace() + t| >= 4 && (ResetTrace() + t)[..4] == ResetTrace()
  {
  }

  /** The reset followed by four more stages still has the reset as its first four writes. */
  lemma ResetPrefixFive(b: seq<Write>, c: seq<Write>, e: seq<Write>, f: seq<Write>)
    ensures var t := ResetTrace() + b + c + e + f;
      |t| >= 4 && t[..4] == ResetTrace()
  {
    assert ResetTrace() + b + c + e + f == ResetTrace() + (b + c + e + f);
    ResetPrefix(b + c + e + f);
  }

  /** A trace that ends with the closing writes has them as its last six. */
  lemma TailSuffix(head: seq<Write>, outputMem: bv32, start: bv32)
    ensures var t := head + TailTrace(outputMem, start);
      |t| >= 6 && t[|t| - 6..] == TailTrace(outputMem, start)
  {
    var t := head + TailTrace(outputMem, start);
    assert t[|head|..] == TailTrace(outputMem, start);
  }

  /** Once the arguments pass, the reset is written first, whatever the encoders do. */
  lemma StartBlendResetFirst(img: Image, bits: Bits, s1: Option<Surface>, s2: Option<Surface>, s3: Option<Surface>, d: Option<Surface>)
    requires ArgsOk(s1, s2, s3, d)
    ensures var t := StartBlend(img, bits, s1, s2, s3, d).trace;
      |t| >= 4 && t[..4] == ResetTrace()
  {
    var t := StartBlend(img, bits, s1, s2, s3, d).trace;
    if AllAccepted(s1, s2, s3, d) {
      var img0 := Apply(img, ResetTrace());
      var setups := Setups(img0, s1, s2, s3, d).trace;
      var img1 := Apply(img0, setups);
      var fi := OrInto(img1, Src(BSIFR, 0), SameFamily(s1.value.format, s2.value.format), bits.in1te);
      var fo := OrInto(Apply(img1, fi), BPKFR, SameFamily(d.value.format, s2.value.format), OutputMask(bits, s2.value.format));
      StartBlendHeldTrace(img, bits, s1, s2, s3, d);
      ResetPrefixFive(setups, fi, fo, TailTrace(bits.outputMem, StartWord(bits, true, true, s3.Some?)));
    } else {
      StartBlendReleasedTrace(img, bits, s1, s2, s3, d);
      ResetPrefix(Setups(Apply(img, ResetTrace()), s1, s2, s3, d).trace);
    }
  }

  /** A successful start ends with the six closing writes, the start word last. */
  lemma StartBlendEndsWithTail(img: Image, bits: Bits, s1: Option<Surface>, s2: Option<Surface>, s3: Option<Surface>, d: Option<Surface>)
    requires ArgsOk(s1, s2, s3, d) && AllAccepted(s1, s2, s3, d)
    ensures var t := StartBlend(img, bits, s1, s2, s3, d).trace;
      |t| >= 6 && t[|t| - 6..] == TailTrace(bits.outputMem, StartWord(bits, true, true, s3.Some?))
  {
    var img0 := Apply(img, ResetTrace());
    var setups := Setups(img0, s1, s2, s3, d).trace;
    var img1 := Apply(img0, setups);
    var fi := OrInto(img1, Src(BSIFR, 0), SameFamily(s1.value.format, s2.value.format), bits.in1te);
    var fo := OrInto(Apply(img1, fi), BPKFR, SameFamily(d.value.format, s2.value.format), OutputMask(bits, s2.value.format));
    StartBlendHeldTrace(img, bits, s1, s2, s3, d);
    TailSuffix(ResetTrace() + setups + fi + fo, bits.outputMem, StartWord(bits, true, true, s3.Some?));
  }

  /** Arguments refused before the lock is taken: nothing is written. */
  lemma StartBlendRefused(img: Image, bits: Bits, s1: Option<Surface>, s2: Option<Surface>, s3: Option<Surface>, d: Option<Surface>)
    requires !ArgsOk(s1, s2, s3, d)
    ensures StartBlend(img, bits, s1, s2, s3, d) == StartOutcome(-1, [], Untouched)
  {
  }

  /** An encoder failure after the reset: the lock is released. */
  lemma StartBlendSetupFailed(img: Image, bits: Bits, s1: Option<Surface>, s2: Option<Surface>, s3: Option<Surface>, d: Option<Surface>)
    requires ArgsOk(s1, s2, s3, d)
    requires !AllAccepted(s1, s2, s3, d)
    ensures StartBlend(img, bits, s1, s2, s3, d)
      == StartOutcome(-1, ResetTrace() + Setups(Apply(img, ResetTrace()), s1, s2, s3, d).trace, Released)
  {
  }

  /** Every stage of a successful start, one after the other. */
  lemma StartBlendSucceeded(img: Image, bits: Bits, s1: Option<Surface>, s2: Option<Surface>, s3: Option<Surface>, d: Option<Surface>)
    requires ArgsOk(s1, s2, s3, d)
    requires AllAccepted(s1, s2, s3, d)
    ensures var img0 := Apply(img, ResetTrace());
      var setups := Setups(img0, s1, s2, s3, d).trace;
      var img1 := Apply(img0, setups);
      var fi := OrInto(img1, Src(BSIFR, 0), SameFamily(s1.value.format, s2.value.format), bits.in1te);
      var fo := OrInto(Apply(img1, fi), BPKFR, SameFamily(d.value.format, s2.value.format), OutputMask(bits, s2.value.format));
      StartBlend(img, bits, s1, s2, s3, d)
        == StartOutcome(0, ResetTrace() + setups + fi + fo + TailTrace(bits.outputMem, StartWord(bits, true, true, s3.Some?)), Held)
  {
  }

  /** `shbeu_blend` after a successful start: the wait's write follows the start's. */
  lemma BlendWaited(log: seq<Write>, img: Image, st: StartOutcome)
    requires st.ret == 0 && st.lock == Held
    ensures BlendOp(st) == StartOutcome(0, st.trace + WaitTrace(), Released)
    ensures log + st.trace + WaitTrace() == log + BlendOp(st).trace
    ensures Apply(Apply(img, st.trace), WaitTrace()) == Apply(img, BlendOp(st).trace)
  {
    ApplyAppend(img, st.trace, WaitTrace());
  }
}

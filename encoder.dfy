/**
 * The surface encoders `setup_src_surface` and `setup_dst_surface` as pure
 * specifications: from the register image before the call and the surface,
 * the return code and the exact sequence of register writes.
 */
module Encoder {
  import opened Registers
  import opened Surfaces

  /** What one encoder call returns and writes, in order. */
  datatype Outcome = Outcome(ret: int, trace: seq<Write>)

  /** The checks `setup_src_surface` makes before its first write. */
  predicate SrcPlanesOk(s: Surface)
  {
    s.py != 0 && Aligned(s) && WithinLimits(s)
  }

  /** A source surface the encoder accepts: the checks pass and its format has a code. */
  predicate SrcAccepts(s: Surface)
  {
    SrcPlanesOk(s) && SrcFormatCode(s.format, s.pa != 0).Some?
  }

  /** Every register `setup_src_surface` may write for slot `index`. */
  function SrcFootprint(index: Slot): set<Reg>
  {
    {Src(BSSZR, index), Src(BSMWR, index), Src(BSAYR, index), Src(BSACR, index),
     Src(BSAAR, index), Src(BSIFR, index), BLOCR(index), BSWPR, BBLCR0}
  }

  /** The registers written before the source format is looked at. */
  function SrcPlaneRegs(index: Slot): set<Reg>
  {
    {Src(BSSZR, index), Src(BSMWR, index), Src(BSAYR, index), Src(BSACR, index), Src(BSAAR, index)}
  }

  /** The five writes describing the slot's planes, made before the format is looked at. */
  function SrcPlaneWrites(index: Slot, s: Surface): seq<Write>
  {
    [Write(Src(BSSZR, index), SizeWord(s.width, s.height)),
     Write(Src(BSMWR, index), s.pitch),
     Write(Src(BSAYR, index), s.py),
     Write(Src(BSACR, index), s.pc),
     Write(Src(BSAAR, index), s.pa)]
  }

  /**
   * `setup_src_surface(ump, index, surface)` run against the image `img`.
   * The read of BSWPR sees `img`: no earlier write of the call touches it.
   * The constant alpha merged into the value read from BBLCR0 is never
   * written: the register is set to 0xFFFFFF whatever `alpha` and `pa` are.
   */
  function SrcSetup(img: Image, index: Slot, surface: Option<Surface>): (o: Outcome)
    ensures o.ret == 0 || o.ret == -1
    ensures o.ret == 0 <==> surface.None? || SrcAccepts(surface.value)
    ensures surface.None? || !SrcPlanesOk(surface.value) ==> o.trace == []
  {
    match surface
    case None => Outcome(0, [])
    case Some(s) =>
      if s.py == 0 then Outcome(-1, [])
      else if !Aligned(s) then Outcome(-1, [])
      else if !WithinLimits(s) then Outcome(-1, [])
      else
        match SrcFormatCode(s.format, s.pa != 0)
        case None => Outcome(-1, SrcPlaneWrites(index, s))
        case Some(code) =>
          Outcome(0, SrcPlaneWrites(index, s)
            + [Write(Src(BSIFR, index), code)]
            + [Write(BLOCR(index), PositionWord(s.x, s.y))]
            + [Write(BSWPR, SetBits(img(BSWPR), SrcSwapBits(index, s.format)))]
            + [Write(BBLCR0, 0xFF_FFFF)])
  }

  /** A destination surface the encoder accepts. */
  predicate DstAccepts(d: Surface)
  {
    d.pa == 0 && d.x == 0 && d.y == 0 && Aligned(d) && WithinLimits(d)
    && DstFormatCode(d.format).Some?
  }

  /** Every register `setup_dst_surface` may write. */
  function DstFootprint(): set<Reg>
  {
    {BDMWR, BDAYR, BDACR, BAFXR, BPKFR, BSWPR}
  }

  /** The registers written before the destination format is looked at. */
  function DstPlaneRegs(): set<Reg>
  {
    {BDMWR, BDAYR, BDACR, BAFXR}
  }

  /** The four writes made before the destination format is looked at. */
  function DstPlaneWrites(d: Surface): seq<Write>
  {
    [Write(BDMWR, d.pitch), Write(BDAYR, d.py), Write(BDACR, d.pc), Write(BAFXR, 0)]
  }

  /**
   * `setup_dst_surface(ump, surface)` run against `img`. There is no check of
   * `py` and no write of a size register; an unknown format is rejected only
   * after the stride and address registers have been written.
   */
  function DstSetup(img: Image, surface: Option<Surface>): (o: Outcome)
    ensures o.ret == 0 || o.ret == -1
    ensures o.ret == 0 <==> surface.None? || DstAccepts(surface.value)
  {
    match surface
    case None => Outcome(0, [])
    case Some(d) =>
      if d.pa != 0 || d.x != 0 || d.y != 0 then Outcome(-1, [])
      else if !Aligned(d) then Outcome(-1, [])
      else if !WithinLimits(d) then Outcome(-1, [])
      else
        match DstFormatCode(d.format)
        case None => Outcome(-1, DstPlaneWrites(d))
        case Some(code) =>
          Outcome(0, DstPlaneWrites(d)
            + [Write(BPKFR, code)]
            + [Write(BSWPR, SetBits(img(BSWPR), DstSwapBits(d.format)))])
  }

  /** A source failing a check made before the first write is refused with nothing written. */
  lemma SrcSetupEarlyReject(img: Image, index: Slot, s: Surface)
    requires !SrcPlanesOk(s)
    ensures SrcSetup(img, index, Some(s)) == Outcome(-1, [])
  {
  }

  /** A source passing those checks whose format has no code is refused after its plane writes. */
  lemma SrcSetupLateReject(img: Image, index: Slot, s: Surface)
    requires SrcPlanesOk(s) && SrcFormatCode(s.format, s.pa != 0).None?
    ensures SrcSetup(img, index, Some(s)) == Outcome(-1, SrcPlaneWrites(index, s))
  {
  }

  /** A destination failing a check made before the first write is refused with nothing written. */
  lemma DstSetupEarlyReject(img: Image, d: Surface)
    requires d.pa != 0 || d.x != 0 || d.y != 0 || !Aligned(d) || !WithinLimits(d)
    ensures DstSetup(img, Some(d)) == Outcome(-1, [])
  {
  }

  /** A destination passing those checks whose format has no code is refused after its plane writes. */
  lemma DstSetupLateReject(img: Image, d: Surface)
    requires d.pa == 0 && d.x == 0 && d.y == 0 && Aligned(d) && WithinLimits(d)
    requires DstFormatCode(d.format).None?
    ensures DstSetup(img, Some(d)) == Outcome(-1, DstPlaneWrites(d))
  {
  }

  /** The plane writes name exactly the slot's plane registers. */
  lemma SrcPlaneWritesRegs(index: Slot, s: Surface)
    ensures Written(SrcPlaneWrites(index, s)) == SrcPlaneRegs(index)
  {
  }

  /**
   * Setting bit 31 and then the format's swap mode in the slot's byte sets
   * the slot's swap bits.
   */
  lemma SrcSwapSteps(v: bv32, index: Slot, f: PixelFormat)
    ensures SetBits(SetBits(v, 0x8000_0000), SlotSwapMode(index, if f == RGB565 then 0x6 else 0x7))
      == SetBits(v, SrcSwapBits(index, f))
  {
    SetBitsTwice(v, 0x8000_0000, SlotSwapMode(index, if f == RGB565 then 0x6 else 0x7));
  }

  /** The trace of an accepted source, one write after the other. */
  lemma SrcSetupTrace(img: Image, index: Slot, s: Surface)
    requires SrcAccepts(s)
    ensures SrcSetup(img, index, Some(s)).trace
      == SrcPlaneWrites(index, s)
         + [Write(Src(BSIFR, index), SrcFormatCode(s.format, s.pa != 0).value)]
         + [Write(BLOCR(index), PositionWord(s.x, s.y))]
         + [Write(BSWPR, SetBits(img(BSWPR), SrcSwapBits(index, s.format)))]
         + [Write(BBLCR0, 0xFF_FFFF)]
  {
  }

  /** The plane writes leave BSWPR as it was. */
  lemma SrcPlanesKeepSwap(img: Image, index: Slot, s: Surface)
    ensures Apply(img, SrcPlaneWrites(index, s))(BSWPR) == img(BSWPR)
  {
    SrcPlaneWritesRegs(index, s);
    ApplyUnwritten(img, SrcPlaneWrites(index, s), BSWPR);
  }

  /**
   * An accepted source's plane writes, followed one at a time by its format,
   * position, swap and blend-control writes with BSWPR read back from `img`,
   * are `setup_src_surface`'s trace.
   */
  lemma SrcSetupSteps(log: seq<Write>, img: Image, index: Slot, s: Surface, swap: bv32)
    requires SrcAccepts(s)
    requires swap == SetBits(img(BSWPR), SrcSwapBits(index, s.format))
    ensures var o := SrcSetup(img, index, Some(s));
      var p := SrcPlaneWrites(index, s);
      var wf := Write(Src(BSIFR, index), SrcFormatCode(s.format, s.pa != 0).value);
      var wl := Write(BLOCR(index), PositionWord(s.x, s.y));
      && o.ret == 0
      && log + p + [wf] + [wl] + [Write(BSWPR, swap)] + [Write(BBLCR0, 0xFF_FFFF)] == log + o.trace
      && Update(Update(Update(Update(Apply(img, p), wf), wl), Write(BSWPR, swap)), Write(BBLCR0, 0xFF_FFFF))
         == Apply(img, o.trace)
  {
    StepTail(log, img, SrcPlaneWrites(index, s),
      Write(Src(BSIFR, index), SrcFormatCode(s.format, s.pa != 0).value),
      Write(BLOCR(index), PositionWord(s.x, s.y)), Write(BSWPR, swap), Write(BBLCR0, 0xFF_FFFF));
    SrcSetupTrace(img, index, s);
  }

  /** The registers the last four writes of an accepted source add. */
  lemma SrcTailWritten(t0: seq<Write>, wf: Write, wl: Write, ws: Write, wb: Write)
    ensures Written(t0 + [wf] + [wl] + [ws] + [wb]) == Written(t0) + {wf.reg, wl.reg, ws.reg, wb.reg}
  {
    WrittenSnoc(t0, wf);
    WrittenSnoc(t0 + [wf], wl);
    WrittenSnoc(t0 + [wf] + [wl], ws);
    WrittenSnoc(t0 + [wf] + [wl] + [ws], wb);
  }

  /**
   * `setup_src_surface` writes only the slot's registers, BSWPR and BBLCR0;
   * when it fails it has written at most the slot's plane registers, so the
   * slot's format register, BSWPR and BBLCR0 are never touched by a failure.
   */
  lemma SrcSetupWritten(img: Image, index: Slot, surface: Option<Surface>)
    ensures Written(SrcSetup(img, index, surface).trace) <= SrcFootprint(index)
    ensures SrcSetup(img, index, surface).ret == -1
      ==> Written(SrcSetup(img, index, surface).trace) <= SrcPlaneRegs(index)
  {
    var o := SrcSetup(img, index, surface);
    if o.trace == [] {
    } else if o.ret == -1 {
      SrcPlaneWritesRegs(index, surface.value);
    } else {
      var s := surface.value;
      SrcSetupTrace(img, index, s);
      SrcPlaneWritesRegs(index, s);
      SrcTailWritten(SrcPlaneWrites(index, s),
        Write(Src(BSIFR, index), SrcFormatCode(s.format, s.pa != 0).value),
        Write(BLOCR(index), PositionWord(s.x, s.y)),
        Write(BSWPR, SetBits(img(BSWPR), SrcSwapBits(index, s.format))),
        Write(BBLCR0, 0xFF_FFFF));
    }
  }

  /** Registers outside the slot's footprint keep their values. */
  lemma SrcSetupFrame(img: Image, index: Slot, surface: Option<Surface>, r: Reg)
    requires r !in SrcFootprint(index)
    ensures Apply(img, SrcSetup(img, index, surface).trace)(r) == img(r)
  {
    SrcSetupWritten(img, index, surface);
    ApplyUnwritten(img, SrcSetup(img, index, surface).trace, r);
  }

  /** A trace confined to the slot's plane registers leaves BSWPR, BBLCR0 and the slot's format register alone. */
  lemma PlanesOnlyUnchanged(img: Image, index: Slot, t: seq<Write>)
    requires Written(t) <= SrcPlaneRegs(index)
    ensures Apply(img, t)(BSWPR) == img(BSWPR) && Apply(img, t)(BBLCR0) == img(BBLCR0)
      && Apply(img, t)(Src(BSIFR, index)) == img(Src(BSIFR, index))
  {
    assert BSWPR !in Written(t) && BBLCR0 !in Written(t) && Src(BSIFR, index) !in Written(t) by {
      assert BSWPR !in SrcPlaneRegs(index) && BBLCR0 !in SrcPlaneRegs(index);
      assert Src(BSIFR, index) !in SrcPlaneRegs(index);
    }
    ApplyUnwritten(img, t, BSWPR);
    ApplyUnwritten(img, t, BBLCR0);
    ApplyUnwritten(img, t, Src(BSIFR, index));
  }

  /**
   * A rejected or absent source leaves BSWPR, BBLCR0 and the slot's format
   * register as they were.
   */
  lemma SrcSetupRejected(img: Image, index: Slot, surface: Option<Surface>)
    requires surface.None? || !SrcAccepts(surface.value)
    ensures var after := Apply(img, SrcSetup(img, index, surface).trace);
      after(BSWPR) == img(BSWPR) && after(BBLCR0) == img(BBLCR0)
      && after(Src(BSIFR, index)) == img(Src(BSIFR, index))
  {
    SrcSetupWritten(img, index, surface);
    PlanesOnlyUnchanged(img, index, SrcSetup(img, index, surface).trace);
  }

  /** The last four writes of an accepted source, read back. */
  lemma SrcTailEffect(img: Image, index: Slot, t0: seq<Write>, wf: Write, wl: Write, ws: Write, wb: Write)
    requires wf.reg == Src(BSIFR, index) && wl.reg == BLOCR(index)
    requires ws.reg == BSWPR && wb.reg == BBLCR0
    ensures var after := Apply(img, t0 + [wf] + [wl] + [ws] + [wb]);
      && after(Src(BSIFR, index)) == wf.value && after(BLOCR(index)) == wl.value
      && after(BSWPR) == ws.value && after(BBLCR0) == wb.value
  {
    var t1 := t0 + [wf];
    var t2 := t1 + [wl];
    var t3 := t2 + [ws];
    ApplySnoc(img, t3, wb);
    ApplySnoc(img, t2, ws);
    ApplySnoc(img, t1, wl);
    ApplySnoc(img, t0, wf);
  }

  /**
   * An accepted source: its format register holds the table's code, BSWPR
   * gains exactly the slot's swap bits, and BBLCR0 holds 0xFFFFFF whatever
   * the surface's constant alpha and whether it has an alpha plane.
   */
  lemma SrcSetupAccepted(img: Image, index: Slot, surface: Option<Surface>)
    requires surface.Some? && SrcAccepts(surface.value)
    ensures var s, after := surface.value, Apply(img, SrcSetup(img, index, surface).trace);
      && after(Src(BSIFR, index)) == SrcFormatCode(s.format, s.pa != 0).value
      && after(BSWPR) == SetBits(img(BSWPR), SrcSwapBits(index, s.format))
      && after(BBLCR0) == 0xFF_FFFF
  {
    var s := surface.value;
    SrcSetupTrace(img, index, s);
    SrcTailEffect(img, index, SrcPlaneWrites(index, s),
      Write(Src(BSIFR, index), SrcFormatCode(s.format, s.pa != 0).value),
      Write(BLOCR(index), PositionWord(s.x, s.y)),
      Write(BSWPR, SetBits(img(BSWPR), SrcSwapBits(index, s.format))),
      Write(BBLCR0, 0xFF_FFFF));
  }

  /** The last four writes of an accepted source leave every other register as the plane writes left it. */
  lemma SrcTailKeeps(img: Image, t0: seq<Write>, wf: Write, wl: Write, ws: Write, wb: Write, r: Reg)
    requires r != wf.reg && r != wl.reg && r != ws.reg && r != wb.reg
    ensures Apply(img, t0 + [wf] + [wl] + [ws] + [wb])(r) == Apply(img, t0)(r)
  {
    var t1 := t0 + [wf];
    var t2 := t1 + [wl];
    var t3 := t2 + [ws];
    ApplySnoc(img, t3, wb);
    ApplySnoc(img, t2, ws);
    ApplySnoc(img, t1, wl);
    ApplySnoc(img, t0, wf);
  }

  /** The plane writes leave the size word, stride and the three plane addresses in the slot's registers. */
  lemma SrcPlanesEffect(img: Image, index: Slot, s: Surface)
    ensures var after := Apply(img, SrcPlaneWrites(index, s));
      && after(Src(BSSZR, index)) == SizeWord(s.width, s.height)
      && after(Src(BSMWR, index)) == s.pitch
      && after(Src(BSAYR, index)) == s.py
      && after(Src(BSACR, index)) == s.pc
      && after(Src(BSAAR, index)) == s.pa
  {
    StepFive([], img, Write(Src(BSSZR, index), SizeWord(s.width, s.height)), Write(Src(BSMWR, index), s.pitch),
      Write(Src(BSAYR, index), s.py), Write(Src(BSACR, index), s.pc), Write(Src(BSAAR, index), s.pa));
  }

  /**
   * An accepted source's slot registers: the size register holds the width
   * in its lower half and the height in its upper half, the stride and
   * the three plane addresses are the surface's, and the position register
   * holds the overlay position.
   */
  lemma SrcSetupPlanes(img: Image, index: Slot, surface: Option<Surface>)
    requires surface.Some? && SrcAccepts(surface.value)
    ensures var s, after := surface.value, Apply(img, SrcSetup(img, index, surface).trace);
      && after(Src(BSSZR, index)) & 0xFFFF == s.width
      && after(Src(BSSZR, index)) >> HalfWord == s.height
      && after(Src(BSMWR, index)) == s.pitch
      && after(Src(BSAYR, index)) == s.py
      && after(Src(BSACR, index)) == s.pc
      && after(Src(BSAAR, index)) == s.pa
      && after(BLOCR(index)) == PositionWord(s.x, s.y)
  {
    var s := surface.value;
    var t0 := SrcPlaneWrites(index, s);
    var wf := Write(Src(BSIFR, index), SrcFormatCode(s.format, s.pa != 0).value);
    var wl := Write(BLOCR(index), PositionWord(s.x, s.y));
    var ws := Write(BSWPR, SetBits(img(BSWPR), SrcSwapBits(index, s.format)));
    var wb := Write(BBLCR0, 0xFF_FFFF);
    SrcSetupTrace(img, index, s);
    SrcPlanesEffect(img, index, s);
    SrcTailKeeps(img, t0, wf, wl, ws, wb, Src(BSSZR, index));
    SrcTailKeeps(img, t0, wf, wl, ws, wb, Src(BSMWR, index));
    SrcTailKeeps(img, t0, wf, wl, ws, wb, Src(BSAYR, index));
    SrcTailKeeps(img, t0, wf, wl, ws, wb, Src(BSACR, index));
    SrcTailKeeps(img, t0, wf, wl, ws, wb, Src(BSAAR, index));
    SrcTailEffect(img, index, t0, wf, wl, ws, wb);
    WithinLimitsFits(s);
    SizeWordFields(s.width, s.height);
  }

  /** The destination's plane writes name exactly its plane registers. */
  lemma DstPlaneWritesRegs(d: Surface)
    ensures Written(DstPlaneWrites(d)) == DstPlaneRegs()
  {
  }

  /** The trace of an accepted destination, one write after the other. */
  lemma DstSetupTrace(img: Image, d: Surface)
    requires DstAccepts(d)
    ensures DstSetup(img, Some(d)).trace
      == DstPlaneWrites(d)
         + [Write(BPKFR, DstFormatCode(d.format).value)]
         + [Write(BSWPR, SetBits(img(BSWPR), DstSwapBits(d.format)))]
  {
  }

  /**
   * An accepted destination's writes, made one at a time from `img` with
   * BSWPR read back unchanged, are `setup_dst_surface`'s trace.
   */
  lemma DstSetupSteps(log: seq<Write>, img: Image, d: Surface, swap: bv32)
    requires DstAccepts(d)
    requires swap == SetBits(img(BSWPR), DstSwapBits(d.format))
    ensures var o := DstSetup(img, Some(d));
      var code := DstFormatCode(d.format).value;
      && log + [Write(BDMWR, d.pitch)] + [Write(BDAYR, d.py)] + [Write(BDACR, d.pc)] + [Write(BAFXR, 0)]
           + [Write(BPKFR, code)] + [Write(BSWPR, swap)] == log + o.trace
      && Update(Update(Update(Update(Update(Update(img, Write(BDMWR, d.pitch)), Write(BDAYR, d.py)),
           Write(BDACR, d.pc)), Write(BAFXR, 0)), Write(BPKFR, code)), Write(BSWPR, swap))
         == Apply(img, o.trace)
  {
    StepSix(log, img, Write(BDMWR, d.pitch), Write(BDAYR, d.py), Write(BDACR, d.pc), Write(BAFXR, 0),
      Write(BPKFR, DstFormatCode(d.format).value), Write(BSWPR, swap));
    DstSetupTrace(img, d);
  }

  /**
   * `setup_dst_surface` writes only the destination registers and BSWPR;
   * when it fails, in particular on an unknown format, it has written at
   * most the stride and address registers and BAFXR.
   */
  lemma DstSetupWritten(img: Image, surface: Option<Surface>)
    ensures Written(DstSetup(img, surface).trace) <= DstFootprint()
    ensures DstSetup(img, surface).ret == -1 ==> Written(DstSetup(img, surface).trace) <= DstPlaneRegs()
  {
    var o := DstSetup(img, surface);
    if o.trace == [] {
    } else if o.ret == -1 {
      DstPlaneWritesRegs(surface.value);
    } else {
      var d := surface.value;
      var t0 := DstPlaneWrites(d);
      var wp := Write(BPKFR, DstFormatCode(d.format).value);
      var ws := Write(BSWPR, SetBits(img(BSWPR), DstSwapBits(d.format)));
      DstSetupTrace(img, d);
      DstPlaneWritesRegs(d);
      WrittenSnoc(t0, wp);
      WrittenSnoc(t0 + [wp], ws);
    }
  }

  /** Registers outside the destination's footprint keep their values. */
  lemma DstSetupFrame(img: Image, surface: Option<Surface>, r: Reg)
    requires r !in DstFootprint()
    ensures Apply(img, DstSetup(img, surface).trace)(r) == img(r)
  {
    DstSetupWritten(img, surface);
    ApplyUnwritten(img, DstSetup(img, surface).trace, r);
  }

  /** A trace confined to the destination's plane registers leaves BPKFR and BSWPR alone. */
  lemma DstPlanesOnlyUnchanged(img: Image, t: seq<Write>)
    requires Written(t) <= DstPlaneRegs()
    ensures Apply(img, t)(BPKFR) == img(BPKFR) && Apply(img, t)(BSWPR) == img(BSWPR)
  {
    assert BPKFR !in Written(t) && BSWPR !in Written(t) by {
      assert BPKFR !in DstPlaneRegs() && BSWPR !in DstPlaneRegs();
    }
    ApplyUnwritten(img, t, BPKFR);
    ApplyUnwritten(img, t, BSWPR);
  }

  /** A rejected or absent destination leaves BPKFR and BSWPR as they were. */
  lemma DstSetupRejected(img: Image, surface: Option<Surface>)
    requires surface.None? || !DstAccepts(surface.value)
    ensures var after := Apply(img, DstSetup(img, surface).trace);
      after(BPKFR) == img(BPKFR) && after(BSWPR) == img(BSWPR)
  {
    DstSetupWritten(img, surface);
    DstPlanesOnlyUnchanged(img, DstSetup(img, surface).trace);
  }

  /**
   * An accepted destination: BPKFR holds the destination table's code and
   * BSWPR gains exactly the destination's swap bits.
   */
  lemma DstSetupAccepted(img: Image, surface: Option<Surface>)
    requires surface.Some? && DstAccepts(surface.value)
    ensures var d, after := surface.value, Apply(img, DstSetup(img, surface).trace);
      && after(BPKFR) == DstFormatCode(d.format).value
      && after(BSWPR) == SetBits(img(BSWPR), DstSwapBits(d.format))
  {
    var d := surface.value;
    var t0 := DstPlaneWrites(d);
    var wp := Write(BPKFR, DstFormatCode(d.format).value);
    var ws := Write(BSWPR, SetBits(img(BSWPR), DstSwapBits(d.format)));
    DstSetupTrace(img, d);
    ApplySnoc(img, t0 + [wp], ws);
    ApplySnoc(img, t0, wp);
  }

  /** The plane writes leave the stride and plane addresses in BDMWR, BDAYR and BDACR, and BAFXR cleared. */
  lemma DstPlanesEffect(img: Image, d: Surface)
    ensures var after := Apply(img, DstPlaneWrites(d));
      after(BDMWR) == d.pitch && after(BDAYR) == d.py && after(BDACR) == d.pc && after(BAFXR) == 0
  {
    var a, b, c, e := Write(BDMWR, d.pitch), Write(BDAYR, d.py), Write(BDACR, d.pc), Write(BAFXR, 0);
    var i1 := Update(img, a);
    var i2 := Update(i1, b);
    var i3 := Update(i2, c);
    var i4 := Update(i3, e);
    StepFour([], img, a, b, c, e);
    assert i4(BDMWR) == i3(BDMWR) == i2(BDMWR) == i1(BDMWR);
    assert i4(BDAYR) == i3(BDAYR) == i2(BDAYR);
    assert i4(BDACR) == i3(BDACR);
  }

  /** The format and swap writes of an accepted destination leave every other register as the plane writes left it. */
  lemma DstTailKeeps(img: Image, t0: seq<Write>, wp: Write, ws: Write, r: Reg)
    requires r != wp.reg && r != ws.reg
    ensures Apply(img, t0 + [wp] + [ws])(r) == Apply(img, t0)(r)
  {
    ApplySnoc(img, t0 + [wp], ws);
    ApplySnoc(img, t0, wp);
  }

  /** An accepted destination leaves its stride and plane addresses in BDMWR, BDAYR and BDACR, and BAFXR cleared. */
  lemma DstSetupPlanes(img: Image, surface: Option<Surface>)
    requires surface.Some? && DstAccepts(surface.value)
    ensures var d, after := surface.value, Apply(img, DstSetup(img, surface).trace);
      && after(BDMWR) == d.pitch
      && after(BDAYR) == d.py
      && after(BDACR) == d.pc
      && after(BAFXR) == 0
  {
    var d := surface.value;
    var t0 := DstPlaneWrites(d);
    var wp := Write(BPKFR, DstFormatCode(d.format).value);
    var ws := Write(BSWPR, SetBits(img(BSWPR), DstSwapBits(d.format)));
    DstSetupTrace(img, d);
    DstPlanesEffect(img, d);
    DstTailKeeps(img, t0, wp, ws, BDMWR);
    DstTailKeeps(img, t0, wp, ws, BDAYR);
    DstTailKeeps(img, t0, wp, ws, BDACR);
    DstTailKeeps(img, t0, wp, ws, BAFXR);
  }
}

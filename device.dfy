/**
 * An open BEU handle: the mapped register window, updated one bus write at a
 * time, and the uiomux lock the driver takes around an operation. The
 * methods follow the driver's statements and branches, except that each
 * encoder makes its early checks, which return -1 before any write, as one
 * `if` over their disjunction. They are proved to make exactly the writes
 * of the specifications in `Encoder` and `Blend`.
 */
module Device {
  import opened Registers
  import opened Surfaces
  import opened Encoder
  import opened Blend

  class Beu {
    /** The current contents of the register window. */
    var regs: Image
    /** Whether this handle holds the uiomux lock on the BEU. */
    var locked: bool
    /** The bit masks of the register header. */
    const bits: Bits
    /** Every bus write made through this handle, oldest first. */
    ghost var log: seq<Write>

    /** A handle on a window holding `window`, with no write made and the lock free. */
    constructor (window: Image, masks: Bits)
      ensures regs == window && bits == masks
      ensures log == [] && !locked
    {
      regs := window;
      locked := false;
      bits := masks;
      log := [];
    }

    /** `read_reg`: the current value of one register. */
    method ReadReg(r: Reg) returns (v: bv32)
      ensures v == regs(r)
    {
      v := regs(r);
    }

    /** `write_reg`: one bus write, which changes that register only. */
    method WriteReg(r: Reg, v: bv32)
      modifies this`regs, this`log
      ensures regs == Update(old(regs), Write(r, v))
      ensures log == old(log) + [Write(r, v)]
    {
      regs := Update(regs, Write(r, v));
      log := log + [Write(r, v)];
    }

    /** `setup_src_surface(ump, index, surface)`. */
    method SetupSrcSurface(index: Slot, surface: Option<Surface>) returns (ret: int)
      modifies this`regs, this`log
      ensures var o := SrcSetup(old(regs), index, surface);
        && ret == o.ret
        && log == old(log) + o.trace
        && regs == Apply(old(regs), o.trace)
    {
      if surface.None? {
        return 0;
      }
      var s := surface.value;
      if s.py == 0 || !Aligned(s) || !WithinLimits(s) {
        SrcSetupEarlyReject(regs, index, s);
        return -1;
      }
      ghost var regs0 := regs;
      WriteSrcPlanes(index, s);

      var code := SrcFormatCode(s.format, s.pa != 0);
      if code.None? {
        SrcSetupLateReject(regs0, index, s);
        return -1;
      }
      WriteReg(Src(BSIFR, index), code.value);

      WriteReg(BLOCR(index), PositionWord(s.x, s.y));

      SrcPlanesKeepSwap(regs0, index, s);
      TwoFrame(Apply(regs0, SrcPlaneWrites(index, s)), Write(Src(BSIFR, index), code.value),
        Write(BLOCR(index), PositionWord(s.x, s.y)), BSWPR);
      var tmp := ReadReg(BSWPR);
      tmp := SetBits(tmp, 0x8000_0000);
      if s.format == RGB565 {
        tmp := SetBits(tmp, SlotSwapMode(index, 0x6));
      } else {
        tmp := SetBits(tmp, SlotSwapMode(index, 0x7));
      }
      SrcSwapSteps(regs0(BSWPR), index, s.format);
      WriteReg(BSWPR, tmp);
      SrcSetupSteps(old(log), regs0, index, s, tmp);

      // The constant alpha is merged into the value read back, but that value
      // is never written: BBLCR0 receives 0xFFFFFF.
      tmp := ReadReg(BBLCR0);
      if s.pa == 0 {
        tmp := SetBits(tmp, SlotAlpha(index, s.alpha));
      }
      WriteReg(BBLCR0, 0xFF_FFFF);
      ret := 0;
    }

    /** The five writes describing source slot `index`'s planes, made in order. */
    method WriteSrcPlanes(index: Slot, s: Surface)
      modifies this`regs, this`log
      ensures log == old(log) + SrcPlaneWrites(index, s)
      ensures regs == Apply(old(regs), SrcPlaneWrites(index, s))
    {
      ghost var log0, regs0 := log, regs;
      WriteReg(Src(BSSZR, index), SizeWord(s.width, s.height));
      WriteReg(Src(BSMWR, index), s.pitch);
      WriteReg(Src(BSAYR, index), s.py);
      WriteReg(Src(BSACR, index), s.pc);
      WriteReg(Src(BSAAR, index), s.pa);
      StepFive(log0, regs0, Write(Src(BSSZR, index), SizeWord(s.width, s.height)), Write(Src(BSMWR, index), s.pitch),
        Write(Src(BSAYR, index), s.py), Write(Src(BSACR, index), s.pc), Write(Src(BSAAR, index), s.pa));
    }

    /** `setup_dst_surface(ump, surface)`. */
    method SetupDstSurface(surface: Option<Surface>) returns (ret: int)
      modifies this`regs, this`log
      ensures var o := DstSetup(old(regs), surface);
        && ret == o.ret
        && log == old(log) + o.trace
        && regs == Apply(old(regs), o.trace)
    {
      if surface.None? {
        return 0;
      }
      var d := surface.value;
      if d.pa != 0 || d.x != 0 || d.y != 0 || !Aligned(d) || !WithinLimits(d) {
        DstSetupEarlyReject(regs, d);
        return -1;
      }
      ghost var log0, regs0 := log, regs;
      WriteReg(BDMWR, d.pitch);
      WriteReg(BDAYR, d.py);
      WriteReg(BDACR, d.pc);
      WriteReg(BAFXR, 0);

      var code := DstFormatCode(d.format);
      if code.None? {
        StepFour(log0, regs0, Write(BDMWR, d.pitch), Write(BDAYR, d.py), Write(BDACR, d.pc), Write(BAFXR, 0));
        DstSetupLateReject(regs0, d);
        return -1;
      }
      WriteReg(BPKFR, code.value);

      FiveFrame(regs0, Write(BDMWR, d.pitch), Write(BDAYR, d.py), Write(BDACR, d.pc), Write(BAFXR, 0),
        Write(BPKFR, code.value), BSWPR);
      var tmp := ReadReg(BSWPR);
      if d.format == RGB565 {
        tmp := SetBits(tmp, 0x60);
      } else {
        tmp := SetBits(tmp, 0x70);
      }
      WriteReg(BSWPR, tmp);
      DstSetupSteps(log0, regs0, d, tmp);
      ret := 0;
    }

    /** The reset at the head of `shbeu_start_blend`: BBRSTR, BRCNTR and BRCHR, then BBLCR0 cleared to set the surfaces' order. */
    method Reset()
      modifies this`regs, this`log
      ensures log == old(log) + ResetTrace()
      ensures regs == Apply(old(regs), ResetTrace())
    {
      ghost var log0, regs0 := log, regs;
      WriteReg(BBRSTR, 1);
      WriteReg(BRCNTR, 0);
      WriteReg(BRCHR, 0);
      WriteReg(BBLCR0, 0);
      ResetSteps(log0, regs0);
    }

    /**
     * The four encoder calls of `shbeu_start_blend`, sources 1 to 3 then the
     * destination, giving up at the first one that fails.
     */
    method SetupSurfaces(s1: Option<Surface>, s2: Option<Surface>, s3: Option<Surface>, d: Option<Surface>) returns (ret: int)
      modifies this`regs, this`log
      ensures var o := Setups(old(regs), s1, s2, s3, d);
        && ret == o.ret
        && log == old(log) + o.trace
        && regs == Apply(old(regs), o.trace)
    {
      ghost var img := regs;
      ret := SetupSrcSurface(0, s1);
      if ret < 0 {
        return -1;
      }
      ghost var t1 := SrcSetup(img, 0, s1).trace;
      ret := SetupSrcSurface(1, s2);
      ghost var t2 := SrcSetup(AfterSrc1(img, s1), 1, s2).trace;
      if ret < 0 {
        SetupsStopTwo(img, s1, s2, s3, d);
        ChainTwo(old(log), img, t1, t2);
        return -1;
      }
      ret := SetupSrcSurface(2, s3);
      ghost var t3 := SrcSetup(AfterSrc2(img, s1, s2), 2, s3).trace;
      if ret < 0 {
        SetupsStopThree(img, s1, s2, s3, d);
        ChainThree(old(log), img, t1, t2, t3);
        return -1;
      }
      ret := SetupDstSurface(d);
      SetupsReachDst(img, s1, s2, s3, d);
      ChainFour(old(log), img, t1, t2, t3, DstSetup(AfterSrc3(img, s1, s2, s3), d).trace);
      if ret < 0 {
        return -1;
      }
    }

    /** Input 1 is flagged when inputs 1 and 2 are both YCbCr or both RGB. */
    method FlagInput(f1: PixelFormat, f2: PixelFormat)
      modifies this`regs, this`log
      ensures var t := OrInto(old(regs), Src(BSIFR, 0), SameFamily(f1, f2), bits.in1te);
        log == old(log) + t && regs == Apply(old(regs), t)
    {
      if (IsYCbCr(f1) && IsYCbCr(f2)) || (IsRgb(f1) && IsRgb(f2)) {
        var bsifr := ReadReg(Src(BSIFR, 0));
        bsifr := SetBits(bsifr, bits.in1te);
        WriteReg(Src(BSIFR, 0), bsifr);
        ApplySingle(old(regs), Write(Src(BSIFR, 0), bsifr));
      }
    }

    /**
     * The output is flagged RY, and TE as well for an RGB input 2, when it and
     * input 2 are both YCbCr or both RGB.
     */
    method FlagOutput(fd: PixelFormat, f2: PixelFormat)
      modifies this`regs, this`log
      ensures var t := OrInto(old(regs), BPKFR, SameFamily(fd, f2), OutputMask(bits, f2));
        log == old(log) + t && regs == Apply(old(regs), t)
    {
      if (IsYCbCr(fd) && IsYCbCr(f2)) || (IsRgb(fd) && IsRgb(f2)) {
        var bpkfr := ReadReg(BPKFR);
        ghost var v := bpkfr;
        bpkfr := SetBits(bpkfr, bits.ry);
        if IsRgb(f2) {
          bpkfr := SetBits(bpkfr, bits.te);
        }
        OutputMaskSteps(v, bits, f2);
        WriteReg(BPKFR, bpkfr);
        ApplySingle(old(regs), Write(BPKFR, bpkfr));
      }
    }

    /**
     * The start word: BEIVK, with a channel bit for each source given.
     * `StartWordFields` and `StartWordAbsent` state which bits that word holds.
     */
    method StartReg(has1: bool, has2: bool, has3: bool) returns (start: bv32)
      ensures start == StartWord(bits, has1, has2, has3)
    {
      start := bits.beivk;
      if has1 {
        start := SetBits(start, bits.chon1);
      }
      if has2 {
        start := SetBits(start, bits.chon2);
      }
      if has3 {
        start := SetBits(start, bits.chon3);
      }
    }

    /**
     * The closing writes: output to memory, the cleared control registers,
     * the interrupt enable, then the start word with a channel bit for each
     * source given.
     */
    method Finish(has1: bool, has2: bool, has3: bool)
      modifies this`regs, this`log
      ensures log == old(log) + TailTrace(bits.outputMem, StartWord(bits, has1, has2, has3))
      ensures regs == Apply(old(regs), TailTrace(bits.outputMem, StartWord(bits, has1, has2, has3)))
    {
      ghost var log0, regs0 := log, regs;
      WriteReg(BBLCR1, bits.outputMem);
      WriteReg(BPROCR, 0);
      WriteReg(BMWCR0, 0);
      WriteReg(BPCCR0, 0);
      WriteReg(BEIER, 1);
      var start := StartReg(has1, has2, has3);
      WriteReg(BESTR, start);
      TailSteps(log0, regs0, bits.outputMem, start);
    }

    /**
     * `shbeu_start_blend(pvt, src1, src2, src3, dest)`: the lock is taken
     * once the arguments pass, released again if an encoder fails, and left
     * held on success for `Wait`.
     */
    method Start(src1: Option<Surface>, src2: Option<Surface>, src3: Option<Surface>, dest: Option<Surface>) returns (ret: int)
      requires !locked || !ArgsOk(src1, src2, src3, dest)
      modifies this`regs, this`log, this`locked
      ensures var o := StartBlend(old(regs), bits, src1, src2, src3, dest);
        && ret == o.ret
        && log == old(log) + o.trace
        && regs == Apply(old(regs), o.trace)
        && (o.lock == Untouched ==> locked == old(locked))
        && (o.lock != Untouched ==> locked == (o.lock == Held))
    {
      if src1.None? || src2.None? || dest.None? {
        StartBlendRefused(regs, bits, src1, src2, src3, dest);
        return -1;
      }
      if src3.Some? && src2.value.format != src3.value.format {
        StartBlendRefused(regs, bits, src1, src2, src3, dest);
        return -1;
      }

      locked := true;
      ghost var img := regs;
      Reset();
      ghost var img0 := regs;
      ret := SetupSurfaces(src1, src2, src3, dest);
      ghost var setups := Setups(img0, src1, src2, src3, dest).trace;
      if ret < 0 {
        locked := false;
        StartBlendSetupFailed(img, bits, src1, src2, src3, dest);
        ChainTwo(old(log), img, ResetTrace(), setups);
        return -1;
      }

      ghost var img1 := regs;
      FlagInput(src1.value.format, src2.value.format);
      ghost var fi := OrInto(img1, Src(BSIFR, 0), SameFamily(src1.value.format, src2.value.format), bits.in1te);
      ghost var img2 := regs;
      FlagOutput(dest.value.format, src2.value.format);
      ghost var fo := OrInto(img2, BPKFR, SameFamily(dest.value.format, src2.value.format), OutputMask(bits, src2.value.format));
      Finish(src1.Some?, src2.Some?, src3.Some?);
      StartBlendSucceeded(img, bits, src1, src2, src3, dest);
      ChainFive(old(log), img, ResetTrace(), setups, fi, fo, TailTrace(bits.outputMem, StartWord(bits, true, true, src3.Some?)));
      ret := 0;
    }

    /**
     * `shbeu_wait`: acknowledge the interrupt and release the lock. The wait
     * for the interrupt and the poll of BSTAR are not part of this model.
     */
    method Wait()
      modifies this`regs, this`log, this`locked
      ensures log == old(log) + WaitTrace()
      ensures regs == Apply(old(regs), WaitTrace())
      ensures !locked
    {
      WriteReg(BEVTR, 0x100);
      ApplySingle(old(regs), Write(BEVTR, 0x100));
      locked := false;
    }

    /** `shbeu_blend`: start, and wait only if the start succeeded. */
    method Blend(src1: Option<Surface>, src2: Option<Surface>, src3: Option<Surface>, dest: Option<Surface>) returns (ret: int)
      requires !locked || !ArgsOk(src1, src2, src3, dest)
      modifies this`regs, this`log, this`locked
      ensures var o := BlendOp(StartBlend(old(regs), bits, src1, src2, src3, dest));
        && ret == o.ret
        && log == old(log) + o.trace
        && regs == Apply(old(regs), o.trace)
        && (o.lock == Untouched ==> locked == old(locked))
        && (o.lock != Untouched ==> !locked)
    {
      ghost var img := regs;
      ret := Start(src1, src2, src3, dest);
      if ret == 0 {
        Wait();
        BlendWaited(old(log), img, StartBlend(img, bits, src1, src2, src3, dest));
      }
    }
  }
}

/**
 * Surface descriptors and the pure encodings the BEU driver derives from them:
 * colour families, the source and destination format tables, and the packed
 * size, position and byte-swap words.
 */
module Surfaces {

  /**
   * The pixel formats the driver recognises. `Other` stands for any other
   * V4L2 fourcc: its value is never one of the four named formats', so two
   * formats are equal exactly when the driver's fourccs compare equal.
   */
  datatype PixelFormat = NV12 | NV16 | RGB565 | RGB32 | Other(fourcc: int)

  /**
   * One surface as the caller describes it. Addresses and geometry are 32-bit
   * `unsigned long`s; `pa == 0` means "no per-pixel alpha plane".
   */
  datatype Surface = Surface(
    format: PixelFormat,
    width: bv32, height: bv32, pitch: bv32,
    py: bv32, pc: bv32, pa: bv32,
    x: bv32, y: bv32,
    alpha: bv8)

  datatype Option<T> = None | Some(value: T)

  /** `is_ycbcr`: the two semi-planar YCbCr formats, both of them named formats. */
  predicate IsYCbCr(f: PixelFormat): (r: bool)
    ensures r ==> !f.Other?
  {
    f == NV12 || f == NV16
  }

  /** `is_rgb`: the two RGB formats; no format is in both families. */
  function IsRgb(f: PixelFormat): (r: bool)
    ensures r ==> !IsYCbCr(f)
    ensures r || IsYCbCr(f) <==> !f.Other?
  {
    f == RGB565 || f == RGB32
  }

  /**
   * Both formats are YCbCr or both are RGB (the test the orchestrator makes):
   * both are named formats and they lie in the same colour family.
   */
  predicate SameFamily(a: PixelFormat, b: PixelFormat): (r: bool)
    ensures r <==> !a.Other? && !b.Other? && IsRgb(a) == IsRgb(b)
  {
    (IsYCbCr(a) && IsYCbCr(b)) || (IsRgb(a) && IsRgb(b))
  }

  /** Width, pitch and height are each a multiple of 4. */
  predicate Aligned(s: Surface)
  {
    s.width % 4 == 0 && s.pitch % 4 == 0 && s.height % 4 == 0
  }

  /** Width, pitch and height are each at most 4092. */
  predicate WithinLimits(s: Surface)
  {
    s.width <= 4092 && s.pitch <= 4092 && s.height <= 4092
  }

  /** The hardware limit 4092 fits in the 16-bit fields of a packed word. */
  lemma WithinLimitsFits(s: Surface)
    requires WithinLimits(s)
    ensures s.width < 0x1_0000 && s.height < 0x1_0000 && s.pitch < 0x1_0000
  {
  }

  /**
   * The source format table: (format, alpha plane present) to the value of
   * the slot's format register. RGB565 with an alpha plane and every other
   * format have no code.
   */
  function SrcFormatCode(f: PixelFormat, hasAlpha: bool): (r: Option<bv32>)
    ensures r.None? <==> f.Other? || (f == RGB565 && hasAlpha)
    ensures r.Some? ==> SrcFormatOf(r.value) == Some((f, hasAlpha))
  {
    if f == NV12 && !hasAlpha then Some(0x200)
    else if f == NV12 && hasAlpha then Some(0x500)
    else if f == NV16 && !hasAlpha then Some(0x100)
    else if f == NV16 && hasAlpha then Some(0x400)
    else if f == RGB565 && !hasAlpha then Some(0x3)
    else if f == RGB32 && !hasAlpha then Some(0x0)
    else if f == RGB32 && hasAlpha then Some(0xC)
    else None
  }

  /** Reads a source format code back: the hardware's view of the table. */
  function SrcFormatOf(code: bv32): Option<(PixelFormat, bool)>
  {
    if code == 0x200 then Some((NV12, false))
    else if code == 0x500 then Some((NV12, true))
    else if code == 0x100 then Some((NV16, false))
    else if code == 0x400 then Some((NV16, true))
    else if code == 0x3 then Some((RGB565, false))
    else if code == 0x0 then Some((RGB32, false))
    else if code == 0xC then Some((RGB32, true))
    else None
  }

  /** The destination format table; every format other than the four has no code. */
  function DstFormatCode(f: PixelFormat): (r: Option<bv32>)
    ensures r.None? <==> f.Other?
    ensures r.Some? ==> DstFormatOf(r.value) == Some(f)
  {
    if f == NV12 then Some(0x200)
    else if f == NV16 then Some(0x100)
    else if f == RGB565 then Some(0x6)
    else if f == RGB32 then Some(0xB)
    else None
  }

  /** Reads a destination format code back. */
  function DstFormatOf(code: bv32): Option<PixelFormat>
  {
    if code == 0x200 then Some(NV12)
    else if code == 0x100 then Some(NV16)
    else if code == 0x6 then Some(RGB565)
    else if code == 0xB then Some(RGB32)
    else None
  }

  /** Shift amounts, as 32-bit values. */
  const Nibble: bv32 := 4
  const Byte: bv32 := 8
  const HalfWord: bv32 := 16
  const ThreeBytes: bv32 := 24

  /** The size register: height in the upper half, width in the lower half. */
  function SizeWord(width: bv32, height: bv32): bv32
  {
    (height << HalfWord) | width
  }

  /** Width and height below 2^16 can both be read back from the size word. */
  lemma SizeWordFields(width: bv32, height: bv32)
    requires width < 0x1_0000 && height < 0x1_0000
    ensures SizeWord(width, height) & 0xFFFF == width
    ensures SizeWord(width, height) >> HalfWord == height
  {
  }

  /** The overlay position register: x in the upper half, y in the lower half. */
  function PositionWord(x: bv32, y: bv32): bv32
  {
    (x << HalfWord) | y
  }

  /**
   * Nothing bounds x or y: the low half of the position word is y's low half,
   * but bits of x above 16 are shifted out and bits of y above 16 overlap x.
   */
  lemma PositionWordFields(x: bv32, y: bv32)
    ensures PositionWord(x, y) & 0xFFFF == y & 0xFFFF
    ensures PositionWord(x, y) >> HalfWord == (x & 0xFFFF) | (y >> HalfWord)
  {
  }

  /** The byte-swap field of source slot `index`: byte `index + 1` of BSWPR. */
  function SrcSwapField(index: int): bv32
    requires 0 <= index < 3
  {
    if index == 0 then 0xFF00 else if index == 1 then 0xFF_0000 else 0xFF00_0000
  }

  /** The swap mode a surface's format selects: 6 for RGB565, 7 for every other format. */
  function SwapMode(f: PixelFormat): bv32
  {
    if f == RGB565 then 0x6 else 0x7
  }

  /** A swap mode moved into the byte of source slot `index`: shifted left by `(index + 1) * 8`. */
  function SlotSwapMode(index: int, mode: bv32): bv32
    requires 0 <= index < 3
  {
    if index == 0 then mode << Byte else if index == 1 then mode << HalfWord else mode << ThreeBytes
  }

  /** The bits source slot `index` ORs into BSWPR: bit 31 and the format's swap mode in the slot's byte. */
  function SrcSwapBits(index: int, f: PixelFormat): bv32
    requires 0 <= index < 3
  {
    0x8000_0000 | SlotSwapMode(index, SwapMode(f))
  }

  /**
   * A surface's constant alpha moved into the byte of source slot `index`:
   * shifted left by `index * 8`.
   */
  function SlotAlpha(index: int, alpha: bv8): bv32
    requires 0 <= index < 3
  {
    var a := alpha as bv32 & 0xFF;
    if index == 0 then a else if index == 1 then a << Byte else a << HalfWord
  }

  /**
   * A source's swap bits: bit 31 is set, and nothing outside bit 31 and the
   * slot's own byte is set. For slots 1 and 2 that byte holds the swap mode;
   * slot 3's byte is the top one, which also carries bit 31, so it holds
   * 0x80 plus the mode, and its low seven bits hold the mode.
   */
  lemma SrcSwapBitsFields(index: int, f: PixelFormat)
    requires 0 <= index < 3
    ensures SrcSwapBits(index, f) & 0x8000_0000 != 0
    ensures SrcSwapBits(index, f) & !(0x8000_0000 | SrcSwapField(index)) == 0
    ensures if index == 0 then (SrcSwapBits(index, f) >> Byte) & 0xFF == SwapMode(f)
      else if index == 1 then (SrcSwapBits(index, f) >> HalfWord) & 0xFF == SwapMode(f)
      else && (SrcSwapBits(index, f) >> ThreeBytes) & 0xFF == 0x80 | SwapMode(f)
           && (SrcSwapBits(index, f) >> ThreeBytes) & 0x7F == SwapMode(f)
  {
  }

  /** The bits the destination ORs into BSWPR: the swap mode in bits 4 to 7. */
  function DstSwapBits(f: PixelFormat): bv32
  {
    if f == RGB565 then 0x60 else 0x70
  }

  /** The destination's swap bits lie in its low byte and hold the swap mode. */
  lemma DstSwapBitsFields(f: PixelFormat)
    ensures DstSwapBits(f) & !0xFF == 0
    ensures DstSwapBits(f) >> Nibble == SwapMode(f)
  {
  }

  /**
   * Each slot's swap bits stay inside its own field: two sources share only
   * bit 31, and the destination shares nothing with any source.
   */
  lemma SwapFieldsDisjoint(i: int, j: int, f: PixelFormat, g: PixelFormat, d: PixelFormat)
    requires 0 <= i < 3 && 0 <= j < 3 && i != j
    ensures SrcSwapBits(i, f) & SrcSwapBits(j, g) == 0x8000_0000
    ensures SrcSwapBits(i, f) & DstSwapBits(d) == 0
  {
    SrcSwapBitsFields(i, f);
    SrcSwapBitsFields(j, g);
    DstSwapBitsFields(d);
    assert SrcSwapField(i) & SrcSwapField(j) == 0;
    assert SrcSwapField(i) & 0xFF == 0;
  }
}

# libshbeu blend engine: a Dafny model

libshbeu drives the SH-Mobile BEU, a hardware block that blends up to three
source surfaces into one destination surface. This project models the core
of `src/libshbeu/beu.c`:

- `is_ycbcr` and `is_rgb`, the colour-family tests;
- `setup_src_surface` and `setup_dst_surface`, the surface encoders: they
  check a surface, then program its stride, address, size, position, format
  and byte-swap registers;
- `shbeu_start_blend`, which checks its arguments and takes the uiomux lock.
  It then resets the block, runs the four encoders and sets the colour-space
  conversion flags. Finally it enables the interrupt and writes the start
  word;
- `shbeu_wait`, which acknowledges the interrupt and releases the lock;
- `shbeu_blend`, which is start, then wait when the start succeeded.

The model is built in four layers:

- `registers.dfy` (module `Registers`):
  - The register window is an image `Reg -> bv32` of symbolic registers. Two
    different names never alias.
  - A bus write is a `Write`. `Apply` runs a sequence of writes over an image.
  - `SetBits` is the driver's `|=`.
  - The bit masks of the register header (`BESTR_*`, `BSIFR1_IN1TE`,
    `BPKFR_RY`, `BPKFR_TE`, `BBLCR1_OUTPUT_MEM`) form a record `Bits` of
    unknown values. No proof relies on what they are.
- `surfaces.dfy` (module `Surfaces`): the surface descriptor, the two format
  tables with their decoders, and the packed size, position and swap words.
- `encoder.dfy` (module `Encoder`):
  - `SrcSetup` and `DstSetup` are the encoders as pure functions. From the
    image before the call and the surface, each gives the return code and
    the exact writes made, in order.
  - Lemmas state what those writes do.
- `blend.dfy` (module `Blend`): `StartBlend` and `BlendOp` give the same for
  the orchestrator, including what happens to the lock.
- `device.dfy` (module `Device`):
  - The class `Beu` holds the mutable state: the register image, the lock
    and a ghost log of every bus write.
  - Its methods follow the C code's statements and branches, with one
    exception: each encoder makes its early checks, the ones that `return -1`
    before any write (beu.c:135-142 for a source, beu.c:206-213 for the
    destination), as one `if` over their disjunction. Because none of these
    checks writes anything, merging them changes neither the result nor the
    writes. Each method is proved to return what the pure function returns
    and to make exactly the writes it lists, in that order.
  - `shbeu_start_blend` is split into methods along its own blocks: reset,
    encoders, the two flags, and the closing writes. The same goes for the
    source encoder's five plane writes.

### Behaviour as written

The model follows the code where the code's own comments say otherwise:
the comment on the alpha write (beu.c:183), the surface-order comment
(beu.c:281), and the colour-space comments (beu.c:293 and beu.c:302).

- **Constant alpha is never written.** `setup_src_surface` ORs the surface's
  constant alpha into the value it read from BBLCR0. It then writes
  0xFFFFFF to BBLCR0, not that value. `Encoder.SrcSetupAccepted` and
  `Blend.StartBlendBlendControl` prove that BBLCR0 ends up 0xFFFFFF whatever
  the alpha values and alpha planes are.
- **The surface order is only a write of 0.** The comment at beu.c:281
  names an order of the three surfaces (and names surface 2 twice). The
  code writes 0 to BBLCR0. The model records that write and does not
  interpret which order 0 selects (`Blend.ResetEffect`).
- **The colour-space flags fire on the same family.** The comments at
  beu.c:293 and beu.c:302 ask whether the colour spaces are *different*. The tests set IN1TE when
  inputs 1 and 2 are in the *same* family, and set RY (and TE) when the
  output and input 2 are in the *same* family (`Blend.StartBlendInputFlag`,
  `Blend.StartBlendOutputFlags`).
- **Formats are rejected after the first writes.**
  - An unknown source format, or RGB565 with an alpha plane, is rejected
    after the five plane registers have been written.
  - An unknown destination format is rejected after BDMWR, BDAYR, BDACR and
    BAFXR have been written.
  - (`Encoder.SrcSetupLateReject`, `Encoder.DstSetupLateReject`)
- **The destination checks differ from the sources'.**
  - The destination has no check that a luma address is present.
  - Its alpha-plane and offset check comes before the geometry checks.
  - No size register is written for it.
- **The lock is taken after the argument checks.** Missing surfaces and a
  source 3 whose format differs from source 2's are refused without taking
  the lock and without a write (`Blend.StartBlendRefused`).
- **The reset sequence writes nothing to BSWPR.** The model treats the
  write to BBRSTR as an ordinary register write that clears no other
  register; what the hardware reset does is not part of this model. The
  encoders OR their swap bits into the value they read, so in the model
  BSWPR after a start still holds its earlier bits (`Blend.StartBlendSwap`).

## Model

| member | source | states |
|---|---|---|
| Surfaces.IsYCbCr | src/libshbeu/beu.c:105-110 | every YCbCr format is one of the four formats the driver names |
| Surfaces.IsRgb | src/libshbeu/beu.c:105-117 | no format is both RGB and YCbCr, and a format is in one of the two families exactly when it is one of the four the driver names |
| Surfaces.SameFamily | src/libshbeu/beu.c:294-295 | two formats pass the orchestrator's family test exactly when both are named formats and both are RGB or both are YCbCr |
| Surfaces.SrcFormatCode | src/libshbeu/beu.c:151-167 | a source has no format code exactly when its format is unknown or is RGB565 with an alpha plane; every code decodes back to its (format, alpha plane) pair, so no two inputs share a code |
| Surfaces.DstFormatCode | src/libshbeu/beu.c:222-232 | a destination has no format code exactly when its format is unknown; every code decodes back to its format |
| Surfaces.WithinLimitsFits | src/libshbeu/beu.c:141-142 | a surface within the 4092 limits has width, height and pitch below 2^16 |
| Surfaces.SizeWordFields | src/libshbeu/beu.c:144 | width and height below 2^16 can both be read back from the size word |
| Surfaces.PositionWordFields | src/libshbeu/beu.c:171 | x and y are unbounded: the low half of the position word is y's low half, and the high half mixes x's low half with y's high half |
| Surfaces.SrcSwapBitsFields | src/libshbeu/beu.c:174-180 | a source's swap bits set bit 31 and nothing outside bit 31 and the slot's byte; for sources 1 and 2 that byte holds 6 for RGB565 and 7 otherwise; source 3's byte also carries bit 31, so it holds 0x86 or 0x87, with the mode in its low seven bits |
| Surfaces.DstSwapBitsFields | src/libshbeu/beu.c:235-240 | the destination's swap bits lie in the low byte and hold 6 for RGB565 and 7 otherwise, in bits 4 to 7 |
| Surfaces.SwapFieldsDisjoint | src/libshbeu/beu.c:174-240 | two source slots' swap bits share only bit 31, and no source's swap bits overlap the destination's |
| Encoder.SrcSetup | src/libshbeu/beu.c:119-190 | returns 0 or -1; 0 exactly when the source is absent, or has a luma address, is aligned, is within the limits and has a format code; nothing is written for an absent source or one failing a check before the first write |
| Encoder.SrcSetupEarlyReject | src/libshbeu/beu.c:135-142 | a missing luma address, a misaligned geometry or a geometry over the limits is refused with no write |
| Encoder.SrcSetupLateReject | src/libshbeu/beu.c:144-167 | a source with no format code is refused after exactly its five plane writes |
| Encoder.SrcSwapSteps | src/libshbeu/beu.c:175-181 | setting bit 31 and then the slot's swap mode in BSWPR sets the slot's swap bits |
| Encoder.SrcSetupSteps | src/libshbeu/beu.c:144-187 | an accepted source's nine writes, made one at a time with BSWPR read back, are exactly the encoder's trace and leave exactly its image |
| Encoder.SrcSetupWritten | src/libshbeu/beu.c:119-190 | the encoder writes only the slot's registers, BSWPR and BBLCR0, and a failure writes only the slot's plane registers |
| Encoder.SrcSetupFrame | src/libshbeu/beu.c:119-190 | every register outside the slot's footprint keeps its value |
| Encoder.SrcSetupRejected | src/libshbeu/beu.c:135-167 | an absent or refused source leaves BSWPR, BBLCR0 and the slot's format register as they were |
| Encoder.SrcSetupAccepted | src/libshbeu/beu.c:151-187 | an accepted source leaves its format code in the slot's format register, ORs exactly its swap bits into BSWPR and leaves 0xFFFFFF in BBLCR0 |
| Encoder.SrcPlanesEffect | src/libshbeu/beu.c:144-149 | the five plane writes leave the size word, the stride and the three plane addresses in the slot's registers |
| Encoder.SrcSetupPlanes | src/libshbeu/beu.c:144-172 | after an accepted source, the slot's size register holds the width in bits 0-15 and the height from bit 16, the stride and plane address registers hold the surface's values, and the slot's position register holds the overlay position |
| Encoder.DstSetup | src/libshbeu/beu.c:192-244 | returns 0 or -1; 0 exactly when the destination is absent, or has no offset and no alpha plane, is aligned, is within the limits and has a format code |
| Encoder.DstSetupEarlyReject | src/libshbeu/beu.c:206-213 | an alpha plane, an offset, a misaligned geometry or a geometry over the limits is refused with no write |
| Encoder.DstSetupLateReject | src/libshbeu/beu.c:217-232 | a destination with no format code is refused after exactly BDMWR, BDAYR, BDACR and BAFXR are written |
| Encoder.DstSetupSteps | src/libshbeu/beu.c:217-241 | an accepted destination's six writes, made one at a time with BSWPR read back, are exactly the encoder's trace and leave exactly its image |
| Encoder.DstSetupWritten | src/libshbeu/beu.c:192-244 | the encoder writes only the destination registers and BSWPR, and a failure writes at most BDMWR, BDAYR, BDACR and BAFXR |
| Encoder.DstSetupFrame | src/libshbeu/beu.c:192-244 | every register outside the destination's footprint keeps its value |
| Encoder.DstSetupRejected | src/libshbeu/beu.c:206-232 | an absent or refused destination leaves BPKFR and BSWPR as they were |
| Encoder.DstSetupAccepted | src/libshbeu/beu.c:222-241 | an accepted destination leaves its format code in BPKFR and ORs exactly its swap bits into BSWPR |
| Encoder.DstPlanesEffect | src/libshbeu/beu.c:217-220 | the four plane writes leave the stride and plane addresses in BDMWR, BDAYR and BDACR, and 0 in BAFXR |
| Encoder.DstSetupPlanes | src/libshbeu/beu.c:217-241 | after an accepted destination, BDMWR, BDAYR and BDACR hold its stride and plane addresses and BAFXR is 0 |
| Blend.Setups | src/libshbeu/beu.c:284-291 | the four encoders, each run on the image its predecessors left, return 0 exactly when every surface given is accepted, and -1 otherwise |
| Blend.SetupsStopWritten | src/libshbeu/beu.c:284-289 | once a source is refused nothing more is written: only registers of the sources up to the refused one, BSWPR and BBLCR0, never a later slot's or the destination's |
| Blend.SetupsWritten | src/libshbeu/beu.c:284-291 | the encoders together write only within their four footprints |
| Blend.SetupsEffect | src/libshbeu/beu.c:284-291 | after four accepted encoders: BSWPR is its old value with every surface's swap bits ORed in; source 1's format register and BPKFR hold their codes; BBLCR0 holds 0xFFFFFF |
| Blend.StartBlend | src/libshbeu/beu.c:246-338 | returns 0 exactly when the arguments pass and every surface is accepted; the lock is held exactly on success; it is untouched, with nothing written, exactly when the arguments are refused |
| Blend.StartBlendRefused | src/libshbeu/beu.c:262-270 | a missing source 1, source 2 or destination, or a source 3 whose format differs from source 2's, is refused before the lock is taken, with no write |
| Blend.StartBlendResetFirst | src/libshbeu/beu.c:275-282 | once the arguments pass, the first four writes are the reset and the BBLCR0 clear, whether or not an encoder then fails |
| Blend.StartBlendEndsWithTail | src/libshbeu/beu.c:312-326 | a successful start's last six writes are the output, control and interrupt-enable writes followed by the start word |
| Blend.StartBlendFailure | src/libshbeu/beu.c:262-291 | a failed start writes nothing beyond the reset and the encoders' registers; in particular BESTR is never written |
| Blend.ResetEffect | src/libshbeu/beu.c:275-282 | the reset and the surface-order write clear BBLCR0 and do not touch BSWPR |
| Blend.StartBlendSwap | src/libshbeu/beu.c:275-291 | after a successful start, BSWPR is its value before the call with every surface's swap bits ORed in |
| Blend.StartBlendBlendControl | src/libshbeu/beu.c:282-291 | after a successful start, BBLCR0 is 0xFFFFFF whatever the surfaces' alpha values |
| Blend.OrIntoEffect | src/libshbeu/beu.c:297-299 | a read-modify-write touches only its register, and sets the mask in it exactly when it is on |
| Blend.StartBlendInputFlag | src/libshbeu/beu.c:293-300 | after a successful start, source 1's format register holds its code, with IN1TE set exactly when inputs 1 and 2 are in the same colour family |
| Blend.OutputMaskSteps | src/libshbeu/beu.c:306-308 | setting RY, then TE when input 2 is RGB, sets the output mask |
| Blend.StartBlendOutputFlags | src/libshbeu/beu.c:302-310 | after a successful start, BPKFR holds the destination's code, with RY (and TE when input 2 is RGB) set exactly when the output and input 2 are in the same family |
| Blend.StartWordFields | src/libshbeu/beu.c:322-325 | the start word has BEIVK set, the channel bit of each source given set, and no bit outside BEIVK and the three channel bits |
| Blend.StartWordAbsent | src/libshbeu/beu.c:322-325 | for each source not given, the start word has no bit outside BEIVK and the other two sources' channel bits, so that source's channel bit is not added |
| Blend.StartBlendStartWord | src/libshbeu/beu.c:322-326 | after a successful start, BESTR holds the start word for sources 1 and 2, and for source 3 exactly when it is given; `Blend.StartWordFields` and `Blend.StartWordAbsent` give its bits |
| Blend.StartBlendStartsLast | src/libshbeu/beu.c:312-326 | a successful start's last write is the start word into BESTR, and no earlier write names BESTR |
| Blend.BlendOp | src/libshbeu/beu.c:355-371 | blend returns what start returned and never leaves the lock held; the interrupt acknowledge is added exactly when start succeeded |
| Blend.BlendWaited | src/libshbeu/beu.c:365-368 | after a successful start, blend's writes are the start's followed by the wait's |
| Device.Beu.constructor | src/libshbeu/beu.c:39-42 | a handle on a mapped window, with the lock free and no write made |
| Device.Beu.ReadReg | src/libshbeu/beu.c:47-56 | a read returns the register's current value and changes nothing |
| Device.Beu.WriteReg | src/libshbeu/beu.c:58-67 | a write changes that register only and is appended to the log |
| Device.Beu.SetupSrcSurface | src/libshbeu/beu.c:119-190 | returns `SrcSetup`'s code, makes exactly its writes in order, and leaves exactly its image |
| Device.Beu.WriteSrcPlanes | src/libshbeu/beu.c:144-149 | makes the five plane writes, in order |
| Device.Beu.SetupDstSurface | src/libshbeu/beu.c:192-244 | returns `DstSetup`'s code, makes exactly its writes in order, and leaves exactly its image |
| Device.Beu.Reset | src/libshbeu/beu.c:275-282 | makes the three reset writes and the surface-order write to BBLCR0, in order |
| Device.Beu.SetupSurfaces | src/libshbeu/beu.c:284-291 | runs the four encoders and stops at the first failure; returns `Setups`' code and makes exactly its writes |
| Device.Beu.FlagInput | src/libshbeu/beu.c:293-300 | sets IN1TE in source 1's format register exactly when inputs 1 and 2 are in the same family; otherwise writes nothing |
| Device.Beu.FlagOutput | src/libshbeu/beu.c:302-310 | sets the output mask in BPKFR exactly when the output and input 2 are in the same family; otherwise writes nothing |
| Device.Beu.StartReg | src/libshbeu/beu.c:322-325 | computes `StartWord`, the word whose bits `Blend.StartWordFields` and `Blend.StartWordAbsent` state: BEIVK and the channel bit of each source given, and no channel bit of a source not given |
| Device.Beu.Finish | src/libshbeu/beu.c:312-326 | makes the output, control and interrupt-enable writes, then writes the start word to BESTR |
| Device.Beu.Start | src/libshbeu/beu.c:246-338 | returns `StartBlend`'s code and makes exactly its writes in order; refused arguments leave the lock as it was, and otherwise the lock is held exactly when it succeeded |
| Device.Beu.Wait | src/libshbeu/beu.c:340-352 | writes 0x100 to BEVTR and releases the lock |
| Device.Beu.Blend | src/libshbeu/beu.c:355-371 | returns `BlendOp`'s code and makes exactly its writes; refused arguments leave the lock as it was, and every other call ends with it released |

## Left out

- `shbeu_open` and `shbeu_close` (beu.c:69-103) are not modelled. They acquire and map the device; the constructor takes the mapped window as given.
- The `fprintf` tracing under `DEBUG` is not modelled; it only writes to stderr.
- uiomux is not modelled beyond one lock flag. Lock semantics across processes and concurrent callers are out of scope.
- Device.Beu.Start: requires the lock to be free only when the arguments pass the checks at beu.c:263-270; refused arguments return before the `uiomux_lock` at beu.c:273 and leave the lock as it was. When the arguments pass, `uiomux_lock` blocks until the lock is free, so a caller that already held it would never return; that case is not modelled.
- Device.Beu.Blend: has the same requirement as `Device.Beu.Start`, for the same reason, since it starts with a call to `shbeu_start_blend`.
- Device.Beu.Wait: does not model `uiomux_sleep`, the wait for the completion interrupt. It also leaves out the busy-poll of BSTAR (beu.c:343, 347-349); both depend on hardware timing.
- The `pvt == NULL` test (beu.c:263) is not modelled. The model's operations are methods of an existing handle.
- Register offsets and the values of the header's bit masks are not modelled. Registers are symbolic and the masks are an unknown `Bits` record.
- What the BBRSTR reset does inside the hardware is not modelled. Writing 1 to it is treated as an ordinary register write, so the reset clears no other register.
- The unqualified BSIFR that `shbeu_start_blend` reads and writes (beu.c:297-299) is taken to be source 1's format register. This means SRC1_BASE is taken as the zero offset.
- `unsigned long` is modelled as 32 bits. On a 64-bit `unsigned long`, `tmp |= (1 << 31)` would set bits 32-63 as well, because the int is sign-extended.
- `PixelFormat.Other` is taken to carry a fourcc different from the four named formats; the datatype does not enforce it. An `Other` holding one of their values would compare unequal to the named format, where the driver's `!=` (beu.c:268) would find them equal.
- A slot index outside 0 to 2 is not modelled. The `Slot` type rules it out, and the driver only passes 0, 1 and 2.
- The constant alpha ORed into the value read from BBLCR0 (beu.c:184-186) is computed but never used. The model computes it and discards it too, so its value appears in no contract.

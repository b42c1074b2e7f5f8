/** Mode validation of the lowRISC Iris framebuffer driver (`iris_check_var`):
    the screen-info record, the depth pick, the memory check, the fixed pixel
    layouts and the geometry an accepted mode is given.

    Every field of the screen-info record is a 32-bit unsigned value, and the
    arithmetic follows C: unsigned shifts and sums wrap modulo 2^32, `int` values
    are truncated to 32 bits, and the kernel's `ilog2` of a 32-bit value is one
    less than the position of its highest set bit (so `ilog2(0)` is -1). */
module Fb {
  import opened Bits

  /** Bytes of video memory the driver allocates. */
  const VIDEOMEM_SIZE: int := 0x40_0000
  const EINVAL: int := 22
  const FB_VISUAL_TRUECOLOR: U32 := 2
  const MAX_XRES: U32 := 640
  const MAX_YRES: U32 := 480

  datatype Option<T> = None | Some(value: T)

  /** One colour channel of a pixel: its lowest bit and its width. */
  datatype Bitfield = Bitfield(offset: U32, length: U32)

  /** The fields of a screen-info record the driver reads or writes. */
  datatype VarInfo = VarInfo(
    xres: U32, yres: U32, xresVirtual: U32, yresVirtual: U32,
    xoffset: U32, yoffset: U32, bitsPerPixel: U32, grayscale: U32,
    red: Bitfield, green: Bitfield, blue: Bitfield, transp: Bitfield,
    nonstd: U32, pixclock: U32, leftMargin: U32, hsyncLen: U32)

  /** Conversion to a 32-bit unsigned type (wraps modulo 2^32). */
  function ToU32(x: int): U32 {
    x % TWO32
  }

  lemma SmallU32(x: int)
    requires 0 <= x < TWO32
    ensures ToU32(x) == x
  {
  }

  /** The kernel's ilog2 on a 32-bit value. */
  function ILog2(n: U32): (r: int)
    ensures -1 <= r < 32
    ensures n == 0 <==> r == -1
    ensures n >= 1 ==> r >= 0 && Pow2(r) <= n < Pow2(r + 1)
  {
    if n == 0 then -1
    else
      Pow2Of32();
      Log2Below(n, 32);
      Log2Bounds(n);
      Log2(n)
  }

  /** abs() on an int; negating the most negative int wraps back to it. */
  function Abs(x: Int32): (r: Int32)
    ensures x != -0x8000_0000 ==> r >= 0 && (r == x || r == -x)
  {
    if x < 0 then ToInt32(-(x as int)) else x
  }

  predicate FixedDepth(depth: int) {
    depth == 4 || depth == 8 || depth == 16 || depth == 32
  }

  /** The depth `iris_check_var` settles on, from the sum of the red, green
      and blue lengths (a 32-bit unsigned sum stored in an int) and
      bits_per_pixel: the sum, unless it is zero or differs from
      bits_per_pixel by 8 or more, in which case bits_per_pixel. */
  function PickDepth(lengths: int, bpp: U32): (r: Int32)
    ensures 0 <= lengths < 0x8000_0000 && bpp < 0x8000_0000 ==>
      r == (if lengths == 0 || lengths - bpp >= 8 || bpp - lengths >= 8 then bpp else lengths)
  {
    var depth := ToInt32(lengths);
    if depth == 0 || Abs(ToInt32(depth - bpp)) >= 8 then ToInt32(bpp) else depth
  }

  function Depth(v: VarInfo): Int32 {
    PickDepth(v.red.length + v.green.length + v.blue.length, v.bitsPerPixel)
  }

  function Log2Depth(v: VarInfo): int {
    ILog2(ToU32(Depth(v)))
  }

  /** Bits needed for a line index below xres: ilog2(xres - 1) + 1. */
  function Log2Xres(v: VarInfo): int {
    ILog2(ToU32(v.xres - 1)) + 1
  }

  /** log2 of the bytes per line the driver reserves. */
  function Log2Bpl(v: VarInfo): int {
    Log2Xres(v) + Log2Depth(v)
  }

  /** What the C code needs to be defined on `v`: the memory check shifts a
      32-bit value by log2bpl, and an accepted mode divides by its yres. */
  predicate CheckVarDefined(v: VarInfo) {
    0 <= Log2Bpl(v) < 32 && (v.yres == 0 ==> !FixedDepth(Depth(v)))
  }

  /** The video-memory check: yres lines of 2^log2bpl bytes do not fit. */
  predicate MemoryTooLarge(v: VarInfo)
    requires 0 <= Log2Bpl(v)
  {
    v.yres * Pow2(Log2Bpl(v)) > VIDEOMEM_SIZE
  }

  /** The check as the source writes it: the shift is done in 32 bits, so a
      product of 2^32 or more is compared after wrapping. */
  predicate MemoryTooLargeAsWritten(v: VarInfo)
    requires 0 <= Log2Bpl(v)
  {
    ToU32(v.yres * Pow2(Log2Bpl(v))) > VIDEOMEM_SIZE
  }

  /** The fixed pixel layout the driver imposes for a depth. */
  datatype PixelFormat = PixelFormat(
    bitsPerPixel: U32, grayscale: U32,
    red: Bitfield, green: Bitfield, blue: Bitfield, transp: Bitfield, nonstd: U32)

  predicate FitsIn(f: Bitfield, depth: int) {
    f.offset + f.length <= depth
  }

  /** Two channels share no bit. */
  predicate Apart(a: Bitfield, b: Bitfield) {
    a.length == 0 || b.length == 0 || a.offset + a.length <= b.offset || b.offset + b.length <= a.offset
  }

  /** Exactly the four supported depths have a layout; in each, the pixel is
      bits_per_pixel == depth wide, the four channels lie inside it without
      overlapping and together fill it, and only depth 4 is grayscale (with
      the nonstd flag). */
  function Format(depth: int): (r: Option<PixelFormat>)
    ensures r.Some? <==> FixedDepth(depth)
    ensures r.Some? ==> r.value.bitsPerPixel == depth
    ensures r.Some? ==>
      FitsIn(r.value.red, depth) && FitsIn(r.value.green, depth) &&
      FitsIn(r.value.blue, depth) && FitsIn(r.value.transp, depth)
    ensures r.Some? ==>
      Apart(r.value.red, r.value.green) && Apart(r.value.red, r.value.blue) &&
      Apart(r.value.red, r.value.transp) && Apart(r.value.green, r.value.blue) &&
      Apart(r.value.green, r.value.transp) && Apart(r.value.blue, r.value.transp)
    ensures r.Some? ==>
      r.value.red.length + r.value.green.length + r.value.blue.length + r.value.transp.length == depth
    ensures r.Some? ==> (r.value.grayscale == 1 <==> depth == 4) && (r.value.nonstd == 1 <==> depth == 4)
  {
    if depth == 4 then
      Some(PixelFormat(4, 1, Bitfield(0, 0), Bitfield(0, 4), Bitfield(0, 0), Bitfield(0, 0), 1))
    else if depth == 8 then
      Some(PixelFormat(8, 0, Bitfield(5, 3), Bitfield(2, 3), Bitfield(0, 2), Bitfield(0, 0), 0))
    else if depth == 16 then
      Some(PixelFormat(16, 0, Bitfield(11, 5), Bitfield(5, 6), Bitfield(0, 5), Bitfield(0, 0), 0))
    else if depth == 32 then
      Some(PixelFormat(32, 0, Bitfield(16, 8), Bitfield(8, 8), Bitfield(0, 8), Bitfield(24, 8), 0))
    else
      None
  }

  function FormatOf(v: VarInfo): PixelFormat {
    PixelFormat(v.bitsPerPixel, v.grayscale, v.red, v.green, v.blue, v.transp, v.nonstd)
  }

  /** The placeholder pixel clock, 10000000 / xres * 1000 / yres in 32-bit
      unsigned arithmetic. */
  function Pixclock(xres: U32, yres: U32): U32
    requires xres > 0 && yres > 0
  {
    ToU32(10000000 / xres * 1000) / yres
  }

  /** The placeholder margin (xres / 8) & 0xf8.  The mask keeps bits 3 to 7
      of xres / 8, which is (xres / 8 / 8 % 32) * 8; for a clamped xres it is a
      multiple of 8 of at most 80. */
  function Margin(xres: U32): (m: U32)
    ensures xres <= MAX_XRES ==> m % 8 == 0 && m <= 80
  {
    xres / 8 / 8 % 32 * 8
  }

  function Clamp(x: U32, max: U32): (r: U32)
    ensures r <= x && r <= max && (r == x || r == max)
  {
    if x > max then max else x
  }

  lemma DepthLog2(depth: int)
    requires FixedDepth(depth)
    ensures 2 <= ILog2(ToU32(depth)) <= 5 && Pow2(ILog2(ToU32(depth))) == depth
  {
    if depth == 4 {
      Log2OfPow2(2);
    } else if depth == 8 {
      Log2OfPow2(3);
    } else if depth == 16 {
      Log2OfPow2(4);
    } else {
      Log2OfPow2(5);
    }
  }

  /** 2^(ilog2(xres - 1) + 1) is the least power of two not below xres, when
      that exponent is at most 29 (which excludes xres == 0, whose exponent
      is 32). */
  lemma XresLog2(xres: U32, k: int)
    requires k == ILog2(ToU32(xres - 1)) + 1 && k <= 29
    ensures 0 <= k && xres >= 1
    ensures xres <= Pow2(k) < 2 * xres && Pow2(k) < TWO32
  {
    var n := ToU32(xres - 1);
    if xres == 0 {
      assert n == TWO32 - 1;
      Pow2Monotone(k, 29);
      Pow2Below32(29);
      assert false;
    }
    assert n == xres - 1;
    Pow2Below32(k);
  }

  /** Facts about the logarithms of a mode whose depth is supported. */
  lemma GeometryFacts(v: VarInfo)
    requires CheckVarDefined(v) && FixedDepth(Depth(v))
    ensures 2 <= Log2Depth(v) <= 5 && Pow2(Log2Depth(v)) == Depth(v)
    ensures 0 <= Log2Xres(v) <= 29 && v.xres >= 1 && v.yres >= 1
    ensures v.xres <= Pow2(Log2Xres(v)) < 2 * v.xres && Pow2(Log2Xres(v)) < TWO32
    ensures Pow2(Log2Bpl(v)) == Pow2(Log2Xres(v)) * Pow2(Log2Depth(v))
  {
    DepthLog2(Depth(v));
    XresLog2(v.xres, Log2Xres(v));
    Pow2Add(Log2Xres(v), Log2Depth(v));
  }

  /** The geometry `iris_check_var` sets on a record: zero offsets, the
      resolution clamped to 640x480, virtual sizes 1 << log2xres and
      0x400000 >> log2bpl, and the placeholder timings from the clamped
      resolution. */
  function Normalised(v: VarInfo, log2xres: nat, log2bpl: nat): VarInfo
    requires v.xres >= 1 && v.yres >= 1 && Pow2(log2xres) < TWO32
  {
    ShrAtMost(VIDEOMEM_SIZE, log2bpl);
    var xres := Clamp(v.xres, MAX_XRES);
    var yres := Clamp(v.yres, MAX_YRES);
    v.(xres := xres, yres := yres, xresVirtual := Pow2(log2xres),
       yresVirtual := Shr(VIDEOMEM_SIZE, log2bpl), xoffset := 0, yoffset := 0,
       pixclock := Pixclock(xres, yres), leftMargin := Margin(xres), hsyncLen := Margin(xres))
  }

  /** The record `iris_check_var` leaves behind for an accepted mode. */
  function Normalise(v: VarInfo, f: PixelFormat): VarInfo
    requires CheckVarDefined(v) && FixedDepth(Depth(v))
  {
    GeometryFacts(v);
    Normalised(WithFormat(v, f), Log2Xres(v), Log2Bpl(v))
  }

  /** `iris_check_var` with a given outcome of the memory check. */
  function Outcome(v: VarInfo, tooLarge: bool): (int, VarInfo)
    requires CheckVarDefined(v)
  {
    if tooLarge then (-EINVAL, v)
    else
      match Format(Depth(v))
      case None => (-EINVAL, v)
      case Some(f) => (0, Normalise(v, f))
  }

  /** The return value and the record `iris_check_var` leaves behind.  It
      fails with -EINVAL, leaving the record as it was, exactly when the mode
      needs more video memory than there is or its depth is unsupported. */
  function CheckVarResult(v: VarInfo): (r: (int, VarInfo))
    requires CheckVarDefined(v)
    ensures r.0 == 0 || r.0 == -EINVAL
    ensures r.0 == -EINVAL <==> MemoryTooLarge(v) || !FixedDepth(Depth(v))
    ensures r.0 == -EINVAL ==> r.1 == v
  {
    Outcome(v, MemoryTooLarge(v))
  }

  /** A mode `iris_check_var` accepts. */
  predicate Accepted(v: VarInfo) {
    CheckVarDefined(v) && CheckVarResult(v).0 == 0
  }

  /** The record of an accepted mode, with the facts the lemmas below build on. */
  lemma AcceptedRecord(v: VarInfo) returns (w: VarInfo)
    requires Accepted(v)
    ensures FixedDepth(Depth(v)) && !MemoryTooLarge(v)
    ensures w == CheckVarResult(v).1 == Normalise(v, Format(Depth(v)).value)
  {
    w := CheckVarResult(v).1;
  }

  /** An accepted record has bits_per_pixel equal to the depth and exactly that
      depth's fixed layout. */
  lemma AcceptedLayout(v: VarInfo)
    requires Accepted(v)
    ensures CheckVarResult(v).1.bitsPerPixel == Depth(v)
    ensures Format(Depth(v)) == Some(FormatOf(CheckVarResult(v).1))
  {
    var w := AcceptedRecord(v);
    var f := Format(Depth(v)).value;
    assert FormatOf(w) == f;
  }

  /** An accepted record has zero pan offsets and the resolution clamped to
      640x480. */
  lemma AcceptedResolution(v: VarInfo)
    requires Accepted(v)
    ensures CheckVarResult(v).1.xoffset == 0 && CheckVarResult(v).1.yoffset == 0
    ensures CheckVarResult(v).1.xres == Clamp(v.xres, MAX_XRES) <= MAX_XRES
    ensures CheckVarResult(v).1.yres == Clamp(v.yres, MAX_YRES) <= MAX_YRES
  {
    var w := AcceptedRecord(v);
  }

  /** The virtual width of an accepted record is 2^(ilog2(xres - 1) + 1), the
      least power of two not below the requested width; the virtual height
      0x400000 >> log2bpl holds every requested line. */
  lemma AcceptedVirtualSize(v: VarInfo)
    requires Accepted(v)
    ensures CheckVarResult(v).1.xresVirtual == Pow2(Log2Xres(v))
    ensures v.xres <= CheckVarResult(v).1.xresVirtual < 2 * v.xres
    ensures CheckVarResult(v).1.yresVirtual == Shr(VIDEOMEM_SIZE, Log2Bpl(v))
    ensures CheckVarResult(v).1.yres <= v.yres <= CheckVarResult(v).1.yresVirtual
  {
    var w := AcceptedRecord(v);
    GeometryFacts(v);
    ShrBound(v.yres, VIDEOMEM_SIZE, Log2Bpl(v));
  }

  /** The placeholder timings of an accepted record come from the clamped
      resolution; both margins are a multiple of 8 of at most 80. */
  lemma AcceptedTimings(v: VarInfo)
    requires Accepted(v)
    ensures CheckVarResult(v).1.xres >= 1 && CheckVarResult(v).1.yres >= 1 &&
      CheckVarResult(v).1.pixclock == Pixclock(CheckVarResult(v).1.xres, CheckVarResult(v).1.yres)
    ensures CheckVarResult(v).1.leftMargin == CheckVarResult(v).1.hsyncLen == Margin(CheckVarResult(v).1.xres)
    ensures CheckVarResult(v).1.leftMargin % 8 == 0 && CheckVarResult(v).1.leftMargin <= 80
  {
    var w := AcceptedRecord(v);
    GeometryFacts(v);
    assert w.xres <= MAX_XRES;
  }

  /** `iris_check_var` with the memory check as written. */
  function CheckVarAsWritten(v: VarInfo): (int, VarInfo)
    requires CheckVarDefined(v)
  {
    Outcome(v, MemoryTooLargeAsWritten(v))
  }

  /** A 1025x131072 mode at 16 bits per pixel. */
  function OversizedMode(): VarInfo {
    VarInfo(1025, 131072, 0, 0, 0, 0, 16, 0,
      Bitfield(11, 5), Bitfield(5, 6), Bitfield(0, 5), Bitfield(0, 0), 0, 0, 0, 0)
  }

  /** The 32-bit shift in the memory check wraps: 131072 lines of 2^15 bytes
      need 2^32 bytes, the shifted value is 0, and the as-written check
      accepts a mode whose 480 visible lines do not fit in the 128 virtual
      lines the video memory holds.  The corrected check rejects it. */
  lemma MemoryCheckWraps()
    ensures CheckVarDefined(OversizedMode())
    ensures !MemoryTooLargeAsWritten(OversizedMode()) && MemoryTooLarge(OversizedMode())
    ensures CheckVarAsWritten(OversizedMode()).0 == 0
    ensures CheckVarAsWritten(OversizedMode()).1.yresVirtual < CheckVarAsWritten(OversizedMode()).1.yres
    ensures CheckVarResult(OversizedMode()).0 == -EINVAL
  {
    var v := OversizedMode();
    OversizedModeGeometry();
    assert v.yres * Pow2(15) == TWO32;
    ShrBound(128, VIDEOMEM_SIZE, 15);
    ShrBound(129, VIDEOMEM_SIZE, 15);
    var w := Normalise(v, Format(16).value);
    assert CheckVarAsWritten(v) == (0, w);
    assert w.yresVirtual == 128 && w.yres == 480;
  }

  /** The depth and line geometry of OversizedMode: 16 bits per pixel and
      lines of 2^15. */
  lemma OversizedModeGeometry()
    ensures Depth(OversizedMode()) == 16 && Log2Xres(OversizedMode()) == 11
    ensures Log2Bpl(OversizedMode()) == 15 && Pow2(15) == 32768
  {
    var v := OversizedMode();
    assert Depth(v) == 16;
    DepthLog2(16);
    assert Pow2(5) == 32;
    Pow2Add(5, 5);
    assert Pow2(10) == 1024;
    Pow2Add(10, 5);
    Log2OfPow2(10);
    assert v.xres - 1 == 1024;
    SmallU32(1024);
  }

  /** The fixed layout of a depth leads back to that depth. */
  lemma FormatKeepsDepth(depth: int)
    requires FixedDepth(depth)
    ensures var f := Format(depth).value;
      PickDepth(f.red.length + f.green.length + f.blue.length, f.bitsPerPixel) == depth
  {
  }

  /** ilog2(xres - 1) + 1 does not grow when xres is clamped. */
  lemma ClampedXresLog2(xres: U32)
    requires xres >= 1
    ensures 0 <= ILog2(ToU32(Clamp(xres, MAX_XRES) - 1)) + 1 <= ILog2(ToU32(xres - 1)) + 1
  {
    var c := Clamp(xres, MAX_XRES);
    if c >= 2 {
      assert ToU32(c - 1) == c - 1 && ToU32(xres - 1) == xres - 1;
      Log2Monotone(c - 1, xres - 1);
    } else {
      assert ToU32(c - 1) == 0;
    }
  }

  /** A mode `iris_check_var` accepted is accepted again, keeping its depth,
      layout and resolution. */
  lemma AcceptedModeIsStable(v: VarInfo)
    requires Accepted(v)
    ensures Accepted(CheckVarResult(v).1)
    ensures FormatOf(CheckVarResult(CheckVarResult(v).1).1) == FormatOf(CheckVarResult(v).1)
    ensures CheckVarResult(CheckVarResult(v).1).1.xres == CheckVarResult(v).1.xres
    ensures CheckVarResult(CheckVarResult(v).1).1.yres == CheckVarResult(v).1.yres
  {
    var w := AcceptedRecord(v);
    GeometryFacts(v);
    FormatKeepsDepth(Depth(v));
    assert Depth(w) == Depth(v);
    assert Log2Depth(w) == Log2Depth(v);
    ClampedXresLog2(v.xres);
    assert 0 <= Log2Bpl(w) <= Log2Bpl(v);
    assert CheckVarDefined(w);
    Pow2Monotone(Log2Bpl(w), Log2Bpl(v));
    MulMonotone(w.yres, v.yres, Pow2(Log2Bpl(w)), Pow2(Log2Bpl(v)));
    assert !MemoryTooLarge(w);
    var w2 := AcceptedRecord(w);
    assert FormatOf(w) == Format(Depth(v)).value;
  }

  /** The screen-info record a caller asks `iris_check_var` to validate,
      passed by pointer; the driver overwrites its fields in place, each write
      here replacing one or more fields of `info`. */
  class ScreenInfo {
    var info: VarInfo

    constructor(v: VarInfo)
      ensures info == v
    {
      info := v;
    }
  }

  /** The record with the pixel-layout fields replaced by a fixed layout. */
  function WithFormat(v: VarInfo, f: PixelFormat): VarInfo {
    v.(bitsPerPixel := f.bitsPerPixel, grayscale := f.grayscale, red := f.red, green := f.green,
       blue := f.blue, transp := f.transp, nonstd := f.nonstd)
  }

  /** The switch on the depth in `iris_check_var`: a supported depth gets its
      fixed layout; any other depth leaves the record alone and is refused. */
  method SetPixelFormat(s: ScreenInfo, depth: int) returns (ok: bool)
    modifies s
    ensures ok == FixedDepth(depth)
    ensures ok ==> s.info == WithFormat(old(s.info), Format(depth).value)
    ensures !ok ==> s.info == old(s.info)
  {
    ok := true;
    if depth == 4 {
      s.info := s.info.(bitsPerPixel := 4, grayscale := 1);
      s.info := s.info.(red := Bitfield(0, 0), green := Bitfield(0, 4), blue := Bitfield(0, 0), transp := Bitfield(0, 0));
      s.info := s.info.(nonstd := 1);
    } else if depth == 8 {
      s.info := s.info.(bitsPerPixel := 8, grayscale := 0);
      s.info := s.info.(red := Bitfield(5, 3), green := Bitfield(2, 3), blue := Bitfield(0, 2), transp := Bitfield(0, 0));
      s.info := s.info.(nonstd := 0);
    } else if depth == 16 {
      s.info := s.info.(bitsPerPixel := 16, grayscale := 0);
      s.info := s.info.(red := Bitfield(11, 5), green := Bitfield(5, 6), blue := Bitfield(0, 5), transp := Bitfield(0, 0));
      s.info := s.info.(nonstd := 0);
    } else if depth == 32 {
      s.info := s.info.(bitsPerPixel := 32, grayscale := 0);
      s.info := s.info.(red := Bitfield(16, 8), green := Bitfield(8, 8), blue := Bitfield(0, 8), transp := Bitfield(24, 8));
      s.info := s.info.(nonstd := 0);
    } else {
      ok := false;
    }
  }

  /** The tail of `iris_check_var` for an accepted mode: zero offsets, clamped
      resolution, virtual sizes 1 << log2xres and 0x400000 >> log2bpl, and the
      placeholder timings from the clamped resolution. */
  method SetGeometry(s: ScreenInfo, log2xres: nat, log2bpl: nat)
    requires s.info.xres >= 1 && s.info.yres >= 1 && Pow2(log2xres) < TWO32
    modifies s
    ensures s.info == Normalised(old(s.info), log2xres, log2bpl)
  {
    ShrAtMost(VIDEOMEM_SIZE, log2bpl);
    s.info := s.info.(xoffset := 0);
    s.info := s.info.(yoffset := 0);
    if s.info.xres > MAX_XRES {
      s.info := s.info.(xres := MAX_XRES);
    }
    if s.info.yres > MAX_YRES {
      s.info := s.info.(yres := MAX_YRES);
    }
    s.info := s.info.(xresVirtual := Pow2(log2xres));
    s.info := s.info.(yresVirtual := Shr(VIDEOMEM_SIZE, log2bpl));

    s.info := s.info.(pixclock := Pixclock(s.info.xres, s.info.yres));
    s.info := s.info.(leftMargin := Margin(s.info.xres));
    s.info := s.info.(hsyncLen := Margin(s.info.xres));
  }

  /** `iris_check_var`: picks the depth, checks the memory bound, imposes the
      depth's pixel layout, clamps the resolution and sets the virtual sizes
      and the placeholder timings. */
  method CheckVar(s: ScreenInfo) returns (ret: int)
    requires CheckVarDefined(s.info)
    modifies s
    ensures (ret, s.info) == CheckVarResult(old(s.info))
  {
    ghost var v := s.info;
    var depth := PickDepth(s.info.red.length + s.info.green.length + s.info.blue.length, s.info.bitsPerPixel);
    var log2depth := ILog2(ToU32(depth));
    var log2xres := ILog2(ToU32(s.info.xres - 1)) + 1;
    var log2bpl := log2xres + log2depth;
    assert depth == Depth(v) && log2xres == Log2Xres(v) && log2bpl == Log2Bpl(v);

    if s.info.yres * Pow2(log2bpl) > VIDEOMEM_SIZE {
      return -EINVAL;
    }

    var ok := SetPixelFormat(s, depth);
    if !ok {
      return -EINVAL;
    }

    GeometryFacts(v);
    SetGeometry(s, log2xres, log2bpl);
    ret := 0;
  }
}

/** The Iris framebuffer device: the truecolor palette `iris_setcolreg`
    fills, the register writes of `iris_set_par` and `iris_pan_display`, and
    the line length `iris_set_par` records. */
module FbDevice {
  import opened Bits
  import opened Fb

  /** The controller registers the driver writes.  Their offsets come from
      vga.h, which is not part of this model. */
  datatype VideoReg = Enable | DepthSelect | FbWidth | FbHeight | FbBpl | Base | BaseHigh

  /** One iowrite32 call: the register and the 32-bit value. */
  datatype IoWrite = IoWrite(reg: VideoReg, value: U32)

  predicate ShiftsDefined(m: VarInfo) {
    m.red.offset < 32 && m.green.offset < 32 && m.blue.offset < 32 && m.transp.offset < 32
  }

  /** Four 32-bit values, one per channel: colour components or channel
      offsets. */
  datatype Quad = Quad(red: bv32, green: bv32, blue: bv32, transp: bv32)

  predicate ShiftAmounts(off: Quad) {
    off.red < 32 && off.green < 32 && off.blue < 32 && off.transp < 32
  }

  /** The channel offsets of a mode, as shift amounts. */
  function Offsets(m: VarInfo): (off: Quad)
    requires ShiftsDefined(m)
    ensures ShiftAmounts(off)
  {
    Quad(m.red.offset as bv32, m.green.offset as bv32, m.blue.offset as bv32, m.transp.offset as bv32)
  }

  /** The truecolor palette entry: each component shifted to its channel's
      offset (in 32 bits) and the four or-ed together. */
  function PaletteEntry(c: Quad, off: Quad): bv32
    requires ShiftAmounts(off)
  {
    (c.red << off.red) | (c.green << off.green) | (c.blue << off.blue) | (c.transp << off.transp)
  }

  /** The value of the channel of width `len` at bit `off` of a pixel. */
  function Channel(x: bv32, off: bv32, len: bv32): bv32
    requires off < 32 && len < 32
  {
    (x >> off) & ((1 << len) - 1)
  }

  /** Components that fit their channels come back out of a palette entry. */
  predicate RoundTrips(c: Quad, off: Quad, len: Quad)
    requires ShiftAmounts(off) && ShiftAmounts(len)
  {
    var x := PaletteEntry(c, off);
    Channel(x, off.red, len.red) == c.red && Channel(x, off.green, len.green) == c.green &&
    Channel(x, off.blue, len.blue) == c.blue && Channel(x, off.transp, len.transp) == c.transp
  }

  lemma RoundTrip332(c: Quad)
    requires c.red < 8 && c.green < 8 && c.blue < 4 && c.transp == 0
    ensures RoundTrips(c, Quad(5, 2, 0, 0), Quad(3, 3, 2, 0))
  {
  }

  lemma RoundTrip565(c: Quad)
    requires c.red < 32 && c.green < 64 && c.blue < 32 && c.transp == 0
    ensures RoundTrips(c, Quad(11, 5, 0, 0), Quad(5, 6, 5, 0))
  {
  }

  lemma RoundTrip8888(c: Quad)
    requires c.red < 256 && c.green < 256 && c.blue < 256 && c.transp < 256
    ensures RoundTrips(c, Quad(16, 8, 0, 24), Quad(8, 8, 8, 8))
  {
  }

  /** The channel widths of a mode. */
  function Lengths(m: VarInfo): (len: Quad)
    requires m.red.length < 32 && m.green.length < 32 && m.blue.length < 32 && m.transp.length < 32
    ensures ShiftAmounts(len)
  {
    Quad(m.red.length as bv32, m.green.length as bv32, m.blue.length as bv32, m.transp.length as bv32)
  }

  predicate FitsChannels(c: Quad, len: Quad)
    requires ShiftAmounts(len)
  {
    c.red < 1 << len.red && c.green < 1 << len.green && c.blue < 1 << len.blue &&
    c.transp < 1 << len.transp
  }

  /** The offsets and widths of the truecolor layouts as shift amounts. */
  lemma TruecolorQuads(m: VarInfo)
    requires m.bitsPerPixel == 8 || m.bitsPerPixel == 16 || m.bitsPerPixel == 32
    requires FormatOf(m) == Format(m.bitsPerPixel).value
    ensures ShiftsDefined(m) && m.red.length < 32 && m.green.length < 32
    ensures m.blue.length < 32 && m.transp.length < 32
    ensures m.bitsPerPixel == 8 ==> Offsets(m) == Quad(5, 2, 0, 0) && Lengths(m) == Quad(3, 3, 2, 0)
    ensures m.bitsPerPixel == 16 ==> Offsets(m) == Quad(11, 5, 0, 0) && Lengths(m) == Quad(5, 6, 5, 0)
    ensures m.bitsPerPixel == 32 ==> Offsets(m) == Quad(16, 8, 0, 24) && Lengths(m) == Quad(8, 8, 8, 8)
  {
  }

  /** In each truecolor layout `iris_check_var` imposes, components that fit
      their channels come back out of the palette entry `iris_setcolreg`
      stores: the channels do not disturb one another. */
  lemma TruecolorRoundTrip(m: VarInfo, c: Quad)
    requires m.bitsPerPixel == 8 || m.bitsPerPixel == 16 || m.bitsPerPixel == 32
    requires FormatOf(m) == Format(m.bitsPerPixel).value
    requires m.red.length < 32 && m.green.length < 32 && m.blue.length < 32 && m.transp.length < 32
    requires FitsChannels(c, Lengths(m))
    ensures ShiftsDefined(m)
    ensures RoundTrips(c, Offsets(m), Lengths(m))
  {
    TruecolorQuads(m);
    if m.bitsPerPixel == 8 {
      RoundTrip332(c);
    } else if m.bitsPerPixel == 16 {
      RoundTrip565(c);
    } else {
      RoundTrip8888(c);
    }
  }

  /** A left shift of a 32-bit value by k bits, in 32 bits. */
  function Shl32(x: int, k: nat): U32 {
    ToU32(x * Pow2(k))
  }

  /** A shift that loses no bits multiplies by 2^k. */
  lemma Shl32Exact(x: nat, k: nat, n: nat)
    requires Pow2(k) == n && x * n < TWO32
    ensures Shl32(x, k) == x * n
  {
    SmallU32(x * n);
  }

  /** `iris_set_par`: the line length is xres_virtual << ilog2(bits_per_pixel)
      in 32 bits. */
  function LineLength(m: VarInfo): U32
    requires m.bitsPerPixel >= 1
  {
    Shl32(m.xresVirtual, Log2(m.bitsPerPixel))
  }

  /** The depth code: 5 - ilog2(bits_per_pixel), as the 32-bit value written. */
  function DepthCode(m: VarInfo): U32
    requires m.bitsPerPixel >= 1
  {
    ToU32(5 - Log2(m.bitsPerPixel))
  }

  /** The writes of `iris_set_par`: the controller is disabled, the depth,
      size and line-length registers are written, and it is enabled again. */
  function ModeWrites(m: VarInfo): (w: seq<IoWrite>)
    requires m.bitsPerPixel >= 1
    ensures |w| == 6 && w[0] == IoWrite(Enable, 0) && w[5] == IoWrite(Enable, 1)
    ensures forall i :: 1 <= i < 5 ==> w[i].reg != Enable
    ensures w[1] == IoWrite(DepthSelect, DepthCode(m)) && w[4] == IoWrite(FbBpl, LineLength(m))
  {
    [IoWrite(Enable, 0), IoWrite(DepthSelect, DepthCode(m)), IoWrite(FbWidth, m.xres),
     IoWrite(FbHeight, m.yres), IoWrite(FbBpl, LineLength(m)), IoWrite(Enable, 1)]
  }

  /** The frame address `iris_pan_display` computes: smem_start plus
      yoffset << ilog2(line_length) plus xoffset << ilog2(bits_per_pixel),
      the two shifts and their sum in 32 bits and the final sum in 64. */
  function PanAddress(base: U64, lineLength: U32, v: VarInfo): (mem: U64)
    requires lineLength >= 1 && v.bitsPerPixel >= 1
  {
    var rows := Shl32(v.yoffset, Log2(lineLength));
    var cols := Shl32(v.xoffset, Log2(v.bitsPerPixel));
    ToU64(base + ToU32(rows + cols))
  }

  /** The writes of `iris_pan_display`: the low word of the address to the base
      register, then the high word; together they give the address back. */
  function PanWrites(mem: U64): (w: seq<IoWrite>)
    ensures |w| == 2 && w[0].reg == Base && w[1].reg == BaseHigh
    ensures w[1].value * TWO32 + w[0].value == mem
  {
    [IoWrite(Base, mem % TWO32), IoWrite(BaseHigh, mem / TWO32)]
  }

  /** The line length and depth code of a record whose depth is 2^d, 2 <= d <= 5,
      and whose virtual width is 2^k, with k + d < 32. */
  lemma LineFacts(w: VarInfo, k: nat, d: nat)
    requires 2 <= d <= 5 && w.bitsPerPixel == Pow2(d) && w.xresVirtual == Pow2(k) && k + d < 32
    ensures w.bitsPerPixel >= 1
    ensures LineLength(w) == Pow2(k + d) == w.xresVirtual * w.bitsPerPixel
    ensures DepthCode(w) == 5 - d
  {
    Log2OfPow2(d);
    Pow2Add(k, d);
    Pow2Below32(k + d);
  }

  /** For a mode `iris_check_var` accepted, `iris_set_par` programs a line
      of xres_virtual * bits_per_pixel, a power of two that does not wrap,
      and a depth code from 0 to 3 that selects exactly that depth. */
  lemma AcceptedLineLength(v: VarInfo)
    requires Accepted(v)
    ensures CheckVarResult(v).1.bitsPerPixel >= 1
    ensures LineLength(CheckVarResult(v).1) == Pow2(Log2Bpl(v))
    ensures LineLength(CheckVarResult(v).1)
         == CheckVarResult(v).1.xresVirtual * CheckVarResult(v).1.bitsPerPixel
    ensures DepthCode(CheckVarResult(v).1) <= 3
    ensures Pow2(5 - DepthCode(CheckVarResult(v).1)) == CheckVarResult(v).1.bitsPerPixel
  {
    AcceptedLayout(v);
    AcceptedVirtualSize(v);
    GeometryFacts(v);
    LineFacts(CheckVarResult(v).1, Log2Xres(v), Log2Depth(v));
  }

  /** The frame `iris_set_par` programs fits in video memory: its visible
      lines, and all its virtual lines too. */
  lemma AcceptedFrameFits(v: VarInfo)
    requires Accepted(v)
    ensures CheckVarResult(v).1.bitsPerPixel >= 1
    ensures LineLength(CheckVarResult(v).1) * CheckVarResult(v).1.yres <= VIDEOMEM_SIZE
    ensures LineLength(CheckVarResult(v).1) * CheckVarResult(v).1.yresVirtual <= VIDEOMEM_SIZE
  {
    var w := AcceptedRecord(v);
    AcceptedLineLength(v);
    AcceptedVirtualSize(v);
    MulMonotone(w.yres, v.yres, Pow2(Log2Bpl(v)), Pow2(Log2Bpl(v)));
    ShrMul(VIDEOMEM_SIZE, Log2Bpl(v));
  }

  /** Panning an accepted mode to offsets the virtual screen can show: the
      address `iris_pan_display` computes is the frame start plus yoffset lines
      plus xoffset pixels, with no 32-bit wrap on the way, and the last pixel of
      the visible window ends inside video memory, provided the video memory
      does not itself cross the 64-bit boundary. */
  lemma PanInsideMemory(v: VarInfo, base: U64, p: VarInfo)
    requires Accepted(v)
    requires p.bitsPerPixel == CheckVarResult(v).1.bitsPerPixel
    requires p.yoffset + CheckVarResult(v).1.yres <= CheckVarResult(v).1.yresVirtual
    requires p.xoffset + CheckVarResult(v).1.xres <= CheckVarResult(v).1.xresVirtual
    requires base + VIDEOMEM_SIZE <= TWO64
    ensures LineLength(CheckVarResult(v).1) >= 1 && p.bitsPerPixel >= 1
    ensures PanAddress(base, LineLength(CheckVarResult(v).1), p)
         == base + p.yoffset * LineLength(CheckVarResult(v).1) + p.xoffset * p.bitsPerPixel
    ensures PanAddress(base, LineLength(CheckVarResult(v).1), p)
            + (CheckVarResult(v).1.yres - 1) * LineLength(CheckVarResult(v).1)
            + CheckVarResult(v).1.xres * p.bitsPerPixel
         <= base + VIDEOMEM_SIZE
  {
    var w := AcceptedPanFacts(v);
    var L := LineLength(w);
    PanWindow(base, L, p, w.xres, w.yres, w.xresVirtual, w.yresVirtual);
  }

  /** The facts about an accepted record that panning needs, as plain
      equalities on the record. */
  lemma AcceptedPanFacts(v: VarInfo) returns (w: VarInfo)
    requires Accepted(v)
    ensures w == CheckVarResult(v).1
    ensures LineLength(w) >= 1 && w.bitsPerPixel >= 1 && w.xres >= 1 && w.yres >= 1
    ensures Pow2(Log2(LineLength(w))) == LineLength(w) && Pow2(Log2(w.bitsPerPixel)) == w.bitsPerPixel
    ensures LineLength(w) == w.xresVirtual * w.bitsPerPixel
    ensures LineLength(w) * w.yresVirtual <= VIDEOMEM_SIZE
  {
    w := CheckVarResult(v).1;
    AcceptedLayout(v);
    AcceptedLineLength(v);
    AcceptedFrameFits(v);
    AcceptedTimings(v);
    GeometryFacts(v);
    Log2OfPow2(Log2Bpl(v));
    Log2OfPow2(Log2Depth(v));
  }

  /** PanInsideMemory on plain numbers: a frame of yresV lines of L = xresV *
      bpp units inside video memory at base, panned to offsets that keep an
      xres x yres window on it. */
  lemma PanWindow(base: U64, L: U32, p: VarInfo, xres: nat, yres: nat, xresV: nat, yresV: nat)
    requires L >= 1 && p.bitsPerPixel >= 1
    requires Pow2(Log2(L)) == L && Pow2(Log2(p.bitsPerPixel)) == p.bitsPerPixel
    requires L == xresV * p.bitsPerPixel && L * yresV <= VIDEOMEM_SIZE && xres >= 1 && yres >= 1
    requires p.yoffset + yres <= yresV && p.xoffset + xres <= xresV
    requires base + VIDEOMEM_SIZE <= TWO64
    ensures PanAddress(base, L, p) == base + p.yoffset * L + p.xoffset * p.bitsPerPixel
    ensures PanAddress(base, L, p) + (yres - 1) * L + xres * p.bitsPerPixel <= base + VIDEOMEM_SIZE
  {
    WindowFits(L, p.bitsPerPixel, p.xoffset, p.yoffset, xres, yres, xresV, yresV, VIDEOMEM_SIZE);
    PanAddressExact(base, L, p);
  }

  /** Without wrap-around the address is the base plus yoffset lines plus
      xoffset pixels. */
  lemma PanAddressExact(base: U64, L: U32, p: VarInfo)
    requires L >= 1 && p.bitsPerPixel >= 1
    requires Pow2(Log2(L)) == L && Pow2(Log2(p.bitsPerPixel)) == p.bitsPerPixel
    requires p.yoffset * L + p.xoffset * p.bitsPerPixel < TWO32
    requires base + p.yoffset * L + p.xoffset * p.bitsPerPixel < TWO64
    ensures PanAddress(base, L, p) == base + p.yoffset * L + p.xoffset * p.bitsPerPixel
  {
    var rows := p.yoffset * L;
    var cols := p.xoffset * p.bitsPerPixel;
    MulNat(p.yoffset, L);
    MulNat(p.xoffset, p.bitsPerPixel);
    Shl32Exact(p.yoffset, Log2(L), L);
    Shl32Exact(p.xoffset, Log2(p.bitsPerPixel), p.bitsPerPixel);
    SmallU32(rows + cols);
    SmallU64(base + (rows + cols));
  }

  /** A window of yres lines whose last line ends xres pixels past xoffset,
      starting yoffset lines down, inside a memory of yresV lines of L = xresV *
      bpp units each. */
  lemma WindowFits(L: nat, bpp: nat, xo: nat, yo: nat, xres: nat, yres: nat, xresV: nat, yresV: nat, size: nat)
    requires L == xresV * bpp && L * yresV <= size && xres >= 1 && yres >= 1 && bpp >= 1
    requires yo + yres <= yresV && xo + xres <= xresV
    ensures yo * L + xo * bpp + (yres - 1) * L + xres * bpp <= size
    ensures yo * L < size && xo * bpp < size && yo * L + xo * bpp < size
  {
    MulMonotone(xo + xres, xresV, bpp, bpp);
    assert (xo + xres) * bpp == xo * bpp + xres * bpp;
    MulMonotone(yo + yres, yresV, L, L);
    assert (yo + yres) * L == yo * L + (yres - 1) * L + L;
    MulMonotone(0, yres - 1, L, L);
    MulMonotone(1, xres, 1, bpp);
  }

  /** The driver's fb_info: the visual and the mode in force, the video memory
      address, the line length, the register writes so far and the pseudo
      palette. */
  class Iris {
    var visual: U32
    var mode: VarInfo
    var smemStart: U64
    var lineLength: U32
    var writes: seq<IoWrite>
    const palette: array<bv32>

    ghost predicate Valid()
      reads this
    {
      palette.Length == 16
    }

    /** The state the probe sets up before programming the first mode: a
        zeroed 16-entry palette and no register writes yet. */
    constructor(visual: U32, mode: VarInfo, smemStart: U64)
      ensures Valid() && fresh(palette) && palette[..] == seq(16, _ => 0)
      ensures this.visual == visual && this.mode == mode && this.smemStart == smemStart
      ensures lineLength == 0 && writes == []
    {
      this.visual := visual;
      this.mode := mode;
      this.smemStart := smemStart;
      lineLength := 0;
      writes := [];
      palette := new bv32[16](_ => 0);
    }

    /** `iris_setcolreg`: for a truecolor visual, stores the palette entry of
        register `regno`, refusing registers past the 16th; any other visual
        has no palette and the call does nothing. */
    method SetColReg(regno: U32, red: bv32, green: bv32, blue: bv32, transp: bv32) returns (ret: int)
      requires Valid()
      requires visual == FB_VISUAL_TRUECOLOR && regno < 16 ==> ShiftsDefined(mode)
      modifies palette
      ensures visual == FB_VISUAL_TRUECOLOR && regno >= 16 ==> ret == -EINVAL
      ensures !(visual == FB_VISUAL_TRUECOLOR && regno >= 16) ==> ret == 0
      ensures visual == FB_VISUAL_TRUECOLOR && regno < 16 ==>
        palette[..] == old(palette[..])[regno := PaletteEntry(Quad(red, green, blue, transp), Offsets(mode))]
      ensures !(visual == FB_VISUAL_TRUECOLOR && regno < 16) ==> palette[..] == old(palette[..])
    {
      if visual == FB_VISUAL_TRUECOLOR {
        if regno >= 16 {
          return -EINVAL;
        }
        var v := PaletteEntry(Quad(red, green, blue, transp), Offsets(mode));
        palette[regno] := v;
      }
      return 0;
    }

    /** `iris_set_par`: programs the controller for the mode in force and
        records its line length. */
    method SetPar() returns (ret: int)
      requires mode.bitsPerPixel >= 1
      modifies this
      ensures ret == 0
      ensures visual == old(visual) && mode == old(mode) && smemStart == old(smemStart)
      ensures writes == old(writes) + ModeWrites(old(mode)) && lineLength == LineLength(old(mode))
    {
      var log2depth: int := Log2(mode.bitsPerPixel);
      writes := writes + [IoWrite(Enable, 0)];
      writes := writes + [IoWrite(DepthSelect, ToU32(5 - log2depth))];
      writes := writes + [IoWrite(FbWidth, mode.xres)];
      writes := writes + [IoWrite(FbHeight, mode.yres)];
      writes := writes + [IoWrite(FbBpl, Shl32(mode.xresVirtual, log2depth))];
      writes := writes + [IoWrite(Enable, 1)];
      lineLength := Shl32(mode.xresVirtual, log2depth);
      ret := 0;
    }

    /** `iris_pan_display`: points the controller at the frame for the
        offsets of `v`. */
    method PanDisplay(v: VarInfo) returns (ret: int)
      requires lineLength >= 1 && v.bitsPerPixel >= 1
      modifies this
      ensures ret == 0
      ensures visual == old(visual) && mode == old(mode) && smemStart == old(smemStart)
      ensures lineLength == old(lineLength)
      ensures writes == old(writes) + PanWrites(PanAddress(old(smemStart), old(lineLength), v))
    {
      var mem := smemStart;
      var log2bpl := Log2(lineLength);
      var log2depth := Log2(v.bitsPerPixel);
      mem := ToU64(mem + ToU32(Shl32(v.yoffset, log2bpl) + Shl32(v.xoffset, log2depth)));
      writes := writes + [IoWrite(Base, mem % TWO32)];
      writes := writes + [IoWrite(BaseHigh, mem / TWO32)];
      ret := 0;
    }
  }
}

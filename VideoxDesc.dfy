/** The 64-bit descriptors the videox accelerator driver feeds to the hardware, and
    the register writes that carry them.

    A descriptor packs, from the low bit up: the operation code (bits 0-2, first
    descriptor of each side only), the physical address, the chunk length at bit 34,
    the "last chunk" flag at bit 55 and the operation attribute at bits 56-63
    (first descriptor of each side only).  Source descriptors go to the register
    pair at offsets 0/4, destination descriptors to the pair at 8/12, low word
    first. */
module VideoxDesc {
  import opened Bits

  datatype Side = Src | Dest

  /** A descriptor before packing: the values the driver ORs together. */
  datatype Desc = Desc(side: Side, addr: U64, length: U64, opc: U64, attr: U64, last: bool)

  datatype Half = Low | High

  /** One 32-bit register write: the control-register offset, and the descriptor
      and half of it whose 32 bits are written (see Value). */
  datatype RegWrite = RegWrite(offset: nat, desc: Desc, half: Half)

  const LENGTH_SHIFT: bv64 := 34
  const LAST_BIT: bv64 := 55
  const ATTR_SHIFT: bv64 := 56

  /** The driver's packing: address | length << 34 | opcode | attr << 56, with
      1 << 55 or-ed in for a last chunk. */
  function Pack(addr: bv64, length: bv64, opc: bv64, attr: bv64, last: bool): bv64 {
    var w := addr | (length << LENGTH_SHIFT) | opc | (attr << ATTR_SHIFT);
    if last then w | (1 << LAST_BIT) else w
  }

  function Encode(d: Desc): bv64 {
    Pack(d.addr as bv64, d.length as bv64, d.opc as bv64, d.attr as bv64, d.last)
  }

  /** The 32-bit value a register write puts on the bus. */
  function Value(w: RegWrite): bv32 {
    match w.half
    case Low => Lo(Encode(w.desc))
    case High => Hi(Encode(w.desc))
  }

  /** Base offset of the register pair a descriptor goes to. */
  function Base(side: Side): (r: nat)
    ensures side == Src ==> r == 0
    ensures side == Dest ==> r == 8
  {
    match side
    case Src => 0
    case Dest => 8
  }

  /** The two writes that send one descriptor: low word to the base offset, then
      high word to base + 4. */
  function Words(d: Desc): seq<RegWrite> {
    [RegWrite(Base(d.side), d, Low), RegWrite(Base(d.side) + 4, d, High)]
  }

  /** The writes that send a sequence of descriptors, in order. */
  function WordsOf(ds: seq<Desc>): seq<RegWrite>
  {
    if ds == [] then [] else Words(ds[0]) + WordsOf(ds[1..])
  }

  lemma {:induction false} WordsOfAppend(a: seq<Desc>, b: seq<Desc>)
    ensures WordsOf(a + b) == WordsOf(a) + WordsOf(b)
  {
    if a != [] {
      assert (a + b)[0] == a[0];
      assert (a + b)[1..] == a[1..] + b;
      WordsOfAppend(a[1..], b);
      calc {
        WordsOf(a + b);
        Words(a[0]) + WordsOf(a[1..] + b);
        Words(a[0]) + (WordsOf(a[1..]) + WordsOf(b));
        (Words(a[0]) + WordsOf(a[1..])) + WordsOf(b);
      }
    } else {
      assert a + b == b;
    }
  }

  lemma {:induction false} WordsOfLength(ds: seq<Desc>)
    ensures |WordsOf(ds)| == 2 * |ds|
  {
    if ds != [] {
      WordsOfLength(ds[1..]);
    }
  }

  /** Sending descriptors writes exactly two words per descriptor: the k-th
      descriptor's low word at position 2k and its high word right after, to its
      own side's register pair. */
  lemma {:induction false} WordsOfShape(ds: seq<Desc>, k: nat)
    requires k < |ds|
    ensures |WordsOf(ds)| == 2 * |ds|
    ensures WordsOf(ds)[2 * k] == RegWrite(Base(ds[k].side), ds[k], Low)
    ensures WordsOf(ds)[2 * k + 1] == RegWrite(Base(ds[k].side) + 4, ds[k], High)
  {
    if k == 0 {
      WordsOfLength(ds[1..]);
    } else {
      WordsOfShape(ds[1..], k - 1);
    }
  }

  /** The two halves written for a descriptor recombine to its packed value. */
  lemma WordsCarryDescriptor(d: Desc)
    ensures ((Value(Words(d)[1]) as bv64) << 32) | (Value(Words(d)[0]) as bv64) == Encode(d)
  {
    WordsRecombine(Encode(d));
  }

  function OpcField(w: bv64): bv64 { w & 7 }
  function AddrField(w: bv64): bv64 { w & 0x3_FFFF_FFF8 }
  function LengthField(w: bv64): bv64 { (w >> LENGTH_SHIFT) & 0x1F_FFFF }
  function LastFlag(w: bv64): bool { (w >> LAST_BIT) & 1 == 1 }
  function AttrField(w: bv64): bv64 { w >> ATTR_SHIFT }

  /** Each field comes back out of its own bit range when the address fits in the
      34 bits below the length field, the length in the 21 bits below bit 55, the
      opcode in 3 bits and the attribute in 8: the address bits above bit 2, the
      length, the last flag (bit 55 is set exactly for a last chunk) and the
      attribute.  The opcode bits hold the opcode or-ed with the address's low bits,
      which are zero for the 64-byte-aligned addresses the driver admits. */
  lemma PackFields(a: bv64, l: bv64, o: bv64, t: bv64, last: bool)
    requires a < 0x4_0000_0000 && l < 0x20_0000 && o < 8 && t < 256
    ensures OpcField(Pack(a, l, o, t, last)) == (a & 7) | o
    ensures AddrField(Pack(a, l, o, t, last)) == AddrField(a)
    ensures LengthField(Pack(a, l, o, t, last)) == l
    ensures LastFlag(Pack(a, l, o, t, last)) == last
    ensures AttrField(Pack(a, l, o, t, last)) == t
  {
  }

  /** Whatever the other fields hold, the last flag is set when asked for, and a
      descriptor without it has bit 55 clear as long as no other field reaches that
      bit. */
  lemma PackLastFlag(a: bv64, l: bv64, o: bv64, t: bv64, last: bool)
    ensures last ==> LastFlag(Pack(a, l, o, t, last))
    ensures !last && a < 0x80_0000_0000_0000 && l < 0x20_0000 && o < 0x80_0000_0000_0000 ==>
      !LastFlag(Pack(a, l, o, t, last))
  {
  }
}

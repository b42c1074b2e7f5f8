/** Requests and operations of the videox accelerator driver: the result-length
    transform, request admission checks, the page arithmetic that splits each side
    of a request into per-page chunks, the operation record with its issuing
    progress, and the five-phase step that produces the next descriptor. */
module VideoxOps {
  import opened Bits
  import opened VideoxDesc

  const PAGE_SIZE: nat := 4096
  const NR_FUN_UNITS: int := 3

  /** The request copied in from user space. */
  datatype Request = Request(src: U64, dest: U64, len: U64, opcode: Int32, attr: Int32)

  /** A pinned user page, identified by its physical address. */
  type Page = U64

  datatype Phase = SendSrc1 | SendDest1 | SendSrcRest | SendDestRest | Sent

  /** An operation: the request, the pinned pages of each side (their counts are
      src_cnt and dest_cnt), the issue cursors, the values computed at admission, and
      the phase. */
  datatype Op = Op(
    req: Request, src: seq<Page>, dest: seq<Page>,
    srcPtr: nat, destPtr: nat,
    destLen: Int32, srcLastLen: Int32, destLastLen: Int32,
    status: Phase)

  // ---------------------------------------------------------------- result length

  /** compute_result_len, step by step as the driver runs it: opcode 1 doubles the
      length and with attribute bit 0 set falls through to opcode 2 with the
      attribute shifted; opcode 2 with bit 0 set falls through to opcode 3; opcode 3
      halves.  The doubling wraps modulo 2^64 as size_t arithmetic does. */
  function ResultLen(opcode: int, attrib: int, len: U64): U64 {
    var (op1, at1, len1) :=
      if opcode == 1 then
        (if attrib % 2 == 1 then (2, attrib / 2, ToU64(2 * len)) else (1, attrib, ToU64(2 * len)))
      else (opcode, attrib, len);
    var op2 := if op1 == 2 && at1 % 2 == 1 then 3 else op1;
    if op2 == 3 then len1 / 2 else len1
  }

  /** The flat table of result lengths, by opcode and attribute bits. */
  lemma ResultLenTable(opcode: int, attrib: int, len: U64)
    ensures opcode == 1 && attrib % 2 == 0 ==> ResultLen(opcode, attrib, len) == (2 * len) % TWO64
    ensures opcode == 1 && attrib % 2 == 1 && (attrib / 2) % 2 == 0 ==>
      ResultLen(opcode, attrib, len) == (2 * len) % TWO64
    ensures opcode == 1 && attrib % 2 == 1 && (attrib / 2) % 2 == 1 ==>
      ResultLen(opcode, attrib, len) == len % TWO63
    ensures opcode == 2 && attrib % 2 == 1 ==> ResultLen(opcode, attrib, len) == len / 2
    ensures opcode == 2 && attrib % 2 == 0 ==> ResultLen(opcode, attrib, len) == len
    ensures opcode == 3 ==> ResultLen(opcode, attrib, len) == len / 2
    ensures opcode != 1 && opcode != 2 && opcode != 3 ==> ResultLen(opcode, attrib, len) == len
  {
    if opcode == 1 && attrib % 2 == 1 && (attrib / 2) % 2 == 1 {
      HalfOfDouble(len);
    }
  }

  lemma HalfOfDouble(len: U64)
    ensures ((2 * len) % TWO64) / 2 == len % TWO63
  {
    if len < TWO63 {
      assert (2 * len) % TWO64 == 2 * len;
    } else {
      assert (2 * len) % TWO64 == 2 * (len - TWO63);
    }
  }

  /** Without wrap-around (len below 2^63) the fall-through for attribute bits 0 and
      1 both set gives back the input length. */
  lemma ResultLenIdentity(attrib: int, len: U64)
    requires attrib % 2 == 1 && (attrib / 2) % 2 == 1 && len < TWO63
    ensures ResultLen(1, attrib, len) == len
  {
    ResultLenTable(1, attrib, len);
  }

  // ---------------------------------------------------------------- admission

  function DestLen(req: Request): U64 {
    ResultLen(req.opcode, req.attr, req.len)
  }

  predicate OpcodeInRange(req: Request) {
    0 <= req.opcode <= NR_FUN_UNITS
  }

  /** The 64-byte alignment the hardware requires of both addresses and lengths. */
  predicate Aligned(req: Request) {
    req.src % 64 == 0 && req.dest % 64 == 0 && req.len % 64 == 0 && DestLen(req) % 64 == 0
  }

  /** The checks a request passes before any allocation or pinning. */
  predicate Admissible(req: Request) {
    OpcodeInRange(req) && Aligned(req)
  }

  /** First page frame of a range. */
  function StartPage(addr: U64): U64 {
    addr / PAGE_SIZE
  }

  /** Page frame of the last byte of a range, computed in 64-bit arithmetic. */
  function EndPage(addr: U64, len: U64): U64 {
    ToU64(addr + len - 1) / PAGE_SIZE
  }

  /** end_page - start_page + 1, in 64-bit arithmetic. */
  function PageCount(addr: U64, len: U64): U64 {
    ToU64(EndPage(addr, len) - StartPage(addr) + 1)
  }

  /** Length of the final chunk: addr + len - (end_page << PAGE_SHIFT). */
  function LastLen(addr: U64, len: U64): U64 {
    ToU64(addr + len - EndPage(addr, len) * PAGE_SIZE)
  }

  /** The final-chunk length is always between 1 and a page: it is one more than the
      offset of the range's last byte in its page.  So storing it in an int loses
      nothing. */
  lemma LastLenInPage(addr: U64, len: U64)
    ensures LastLen(addr, len) == ToU64(addr + len - 1) % PAGE_SIZE + 1
    ensures 1 <= LastLen(addr, len) <= PAGE_SIZE
    ensures ToInt32(LastLen(addr, len)) == LastLen(addr, len)
  {
    var e := ToU64(addr + len - 1);
    var q := addr + len - 1 - e;
    assert q % TWO64 == 0;
    assert e / PAGE_SIZE * PAGE_SIZE == e - e % PAGE_SIZE;
    assert addr + len - EndPage(addr, len) * PAGE_SIZE == q + e % PAGE_SIZE + 1;
    ModuloShift(q, e % PAGE_SIZE + 1);
  }

  lemma ModuloShift(q: int, r: int)
    requires q % TWO64 == 0 && 0 <= r < TWO64
    ensures (q + r) % TWO64 == r
  {
    var k := q / TWO64;
    assert q == k * TWO64;
  }

  /** A range with no bytes that starts on a page boundary spans no page at all; the
      issue step would then read a page that was never pinned. */
  lemma EmptyAlignedRangeHasNoPages(addr: U64)
    requires addr % PAGE_SIZE == 0 && addr > 0
    ensures PageCount(addr, 0) == 0
  {
    assert ToU64(addr - 1) == addr - 1;
    assert (addr - 1) / PAGE_SIZE == addr / PAGE_SIZE - 1;
  }

  /** The operation kzalloc'd by op_new and filled in after pinning: cursors at 0,
      phase SEND_SRC_1, and the computed lengths stored in int fields. */
  function NewOp(req: Request, src: seq<Page>, dest: seq<Page>): Op {
    Op(req, src, dest, 0, 0,
       ToInt32(DestLen(req)),
       ToInt32(LastLen(req.src, req.len)),
       ToInt32(LastLen(req.dest, DestLen(req))),
       SendSrc1)
  }

  // ---------------------------------------------------------------- chunks

  /** Length of the first source chunk: the rest of the first page, or the whole
      request if that is shorter. */
  function FirstSrcLen(op: Op): U64 {
    var off := op.req.src % PAGE_SIZE;
    if PAGE_SIZE - off > op.req.len then op.req.len else PAGE_SIZE - off
  }

  /** Length of the first destination chunk, compared against the stored int
      dest_len converted back to unsigned long. */
  function FirstDestLen(op: Op): U64 {
    var off := op.req.dest % PAGE_SIZE;
    var l := ToU64(op.destLen);
    if PAGE_SIZE - off > l then l else PAGE_SIZE - off
  }

  /** Length of source chunk i >= 1: the last length on the final page, else a page. */
  function SrcRestLen(op: Op, i: nat): U64 {
    if |op.src| == i + 1 then ToU64(op.srcLastLen) else PAGE_SIZE
  }

  function DestRestLen(op: Op, j: nat): U64 {
    if |op.dest| == j + 1 then ToU64(op.destLastLen) else PAGE_SIZE
  }

  function SrcLengths(op: Op): seq<U64>
    requires |op.src| >= 1
  {
    [FirstSrcLen(op)] + seq(|op.src| - 1, k requires 0 <= k < |op.src| - 1 => SrcRestLen(op, k + 1))
  }

  function DestLengths(op: Op): seq<U64>
    requires |op.dest| >= 1
  {
    [FirstDestLen(op)] + seq(|op.dest| - 1, k requires 0 <= k < |op.dest| - 1 => DestRestLen(op, k + 1))
  }

  function Sum(s: seq<U64>): nat {
    if s == [] then 0 else s[0] + Sum(s[1..])
  }

  /** Sum of n middle pages and one final chunk. */
  lemma {:induction false} SumOfTail(s: seq<U64>, last: U64)
    requires |s| >= 1 && s[|s| - 1] == last
    requires forall k :: 0 <= k < |s| - 1 ==> s[k] == PAGE_SIZE
    ensures Sum(s) == (|s| - 1) * PAGE_SIZE + last
  {
    if |s| > 1 {
      SumOfTail(s[1..], last);
    }
  }

  /** One side's chunks for a range of `len` bytes from `addr` (first chunk from
      firstLen, the last from LastLen) add up to exactly `len`, when the range does
      not wrap around the address space. */
  lemma ChunksCoverRange(addr: U64, len: U64, firstLen: U64, lens: seq<U64>)
    requires 0 < len && addr + len <= TWO64
    requires PageCount(addr, len) >= 1 && |lens| == PageCount(addr, len)
    requires firstLen == (if PAGE_SIZE - addr % PAGE_SIZE > len then len else PAGE_SIZE - addr % PAGE_SIZE)
    requires lens[0] == firstLen
    requires |lens| >= 2 ==> lens[|lens| - 1] == LastLen(addr, len)
    requires forall k :: 1 <= k < |lens| - 1 ==> lens[k] == PAGE_SIZE
    ensures Sum(lens) == len
  {
    var s, off, e := StartPage(addr), addr % PAGE_SIZE, EndPage(addr, len);
    assert addr == s * PAGE_SIZE + off;
    assert ToU64(addr + len - 1) == addr + len - 1;
    assert e == (addr + len - 1) / PAGE_SIZE;
    assert |lens| == e - s + 1;
    if |lens| == 1 {
      assert off + len - 1 < PAGE_SIZE;
      assert lens == [lens[0]];
    } else {
      assert off + len - 1 >= PAGE_SIZE;
      LastLenInPage(addr, len);
      SumOfTail(lens[1..], LastLen(addr, len));
      assert LastLen(addr, len) == addr + len - e * PAGE_SIZE;
    }
  }

  lemma SrcChunksSum(op: Op)
    requires 0 < op.req.len && op.req.src + op.req.len <= TWO64
    requires |op.src| == PageCount(op.req.src, op.req.len) >= 1
    requires op.srcLastLen == LastLen(op.req.src, op.req.len)
    ensures Sum(SrcLengths(op)) == op.req.len
  {
    var lens := SrcLengths(op);
    assert forall k :: 1 <= k < |lens| ==> lens[k] == SrcRestLen(op, k);
    ChunksCoverRange(op.req.src, op.req.len, FirstSrcLen(op), lens);
  }

  lemma DestChunksSum(op: Op, len: U64)
    requires 0 < len && op.req.dest + len <= TWO64
    requires |op.dest| == PageCount(op.req.dest, len) >= 1
    requires op.destLen == len && op.destLastLen == LastLen(op.req.dest, len)
    ensures Sum(DestLengths(op)) == len
  {
    var lens := DestLengths(op);
    assert ToU64(op.destLen) == len;
    assert ToU64(op.destLastLen) == LastLen(op.req.dest, len);
    var off := op.req.dest % PAGE_SIZE;
    assert FirstDestLen(op) == if PAGE_SIZE - off > len then len else PAGE_SIZE - off;
    assert |lens| >= 2 ==> lens[|lens| - 1] == LastLen(op.req.dest, len);
    assert forall k :: 1 <= k < |lens| - 1 ==> lens[k] == PAGE_SIZE;
    ChunksCoverRange(op.req.dest, len, FirstDestLen(op), lens);
  }

  /** The source chunks of an admitted operation add up to the request length, and
      its destination chunks to the computed result length, when neither range wraps
      around the address space and the result length fits the int it is stored in. */
  lemma ChunkLengthsSum(req: Request, src: seq<Page>, dest: seq<Page>)
    requires 0 < req.len && req.src + req.len <= TWO64
    requires 0 < DestLen(req) < 0x8000_0000 && req.dest + DestLen(req) <= TWO64
    requires |src| == PageCount(req.src, req.len) >= 1
    requires |dest| == PageCount(req.dest, DestLen(req)) >= 1
    ensures Sum(SrcLengths(NewOp(req, src, dest))) == req.len
    ensures Sum(DestLengths(NewOp(req, src, dest))) == DestLen(req)
  {
    LastLenInPage(req.src, req.len);
    LastLenInPage(req.dest, DestLen(req));
    SrcChunksSum(NewOp(req, src, dest));
    DestChunksSum(NewOp(req, src, dest), DestLen(req));
  }

  // ---------------------------------------------------------------- descriptors

  /** opcode & 7 and attr & 255, as the unsigned values or-ed into the descriptor
      (two's-complement masking is the Euclidean remainder). */
  function OpcBits(op: Op): U64 { op.req.opcode % 8 }
  function AttrBits(op: Op): U64 { op.req.attr % 256 }

  /** The first source descriptor: the first page's address plus the in-page offset,
      the opcode and attribute, and the last flag when it is the only page. */
  function FirstSrc(op: Op): Desc
    requires |op.src| >= 1
  {
    Desc(Src, ToU64(op.src[0] + op.req.src % PAGE_SIZE), FirstSrcLen(op),
         OpcBits(op), AttrBits(op), |op.src| == 1)
  }

  /** The first destination descriptor; destination descriptors never carry the
      last flag. */
  function FirstDest(op: Op): Desc
    requires |op.dest| >= 1
  {
    Desc(Dest, ToU64(op.dest[0] + op.req.dest % PAGE_SIZE), FirstDestLen(op),
         OpcBits(op), AttrBits(op), false)
  }

  /** Source descriptor for page i >= 1: address, length, last flag on the final page. */
  function SrcRest(op: Op, i: nat): Desc
    requires 1 <= i < |op.src|
  {
    Desc(Src, op.src[i], SrcRestLen(op, i), 0, 0, |op.src| == i + 1)
  }

  function DestRest(op: Op, j: nat): Desc
    requires 1 <= j < |op.dest|
  {
    Desc(Dest, op.dest[j], DestRestLen(op, j), 0, 0, false)
  }

  function Total(op: Op): nat {
    |op.src| + |op.dest|
  }

  /** Every descriptor an operation issues, in issue order: first source, first
      destination, the remaining sources, the remaining destinations. */
  function Descs(op: Op): (ds: seq<Desc>)
    requires |op.src| >= 1 && |op.dest| >= 1
    ensures |ds| == Total(op)
  {
    [FirstSrc(op), FirstDest(op)]
    + seq(|op.src| - 1, k requires 0 <= k < |op.src| - 1 => SrcRest(op, k + 1))
    + seq(|op.dest| - 1, k requires 0 <= k < |op.dest| - 1 => DestRest(op, k + 1))
  }

  /** The k-th descriptor an operation issues. */
  lemma DescAt(op: Op, k: nat)
    requires |op.src| >= 1 && |op.dest| >= 1 && k < Total(op)
    ensures |Descs(op)| == Total(op)
    ensures Descs(op)[k] ==
      if k == 0 then FirstSrc(op)
      else if k == 1 then FirstDest(op)
      else if k <= |op.src| then SrcRest(op, k - 1)
      else DestRest(op, k - |op.src|)
  {
    var rs := seq(|op.src| - 1, i requires 0 <= i < |op.src| - 1 => SrcRest(op, i + 1));
    var rd := seq(|op.dest| - 1, j requires 0 <= j < |op.dest| - 1 => DestRest(op, j + 1));
    assert Descs(op) == [FirstSrc(op), FirstDest(op)] + rs + rd;
    if 2 <= k <= |op.src| {
      assert Descs(op)[k] == rs[k - 2];
    } else if k > |op.src| && k >= 2 {
      assert Descs(op)[k] == rd[k - |op.src| - 1];
    }
  }

  /** The operation's descriptors split by side: exactly src_cnt source descriptors
      and dest_cnt destination descriptors, each side in ascending page order (the
      first destination goes right after the first source); the last flag is set
      exactly on the final source descriptor. */
  lemma DescsLayout(op: Op)
    requires |op.src| >= 1 && |op.dest| >= 1
    ensures |Descs(op)| == Total(op)
    ensures forall k :: 0 <= k < Total(op) ==>
      (Descs(op)[k].side == Src <==> k == 0 || 2 <= k <= |op.src|)
    ensures forall k :: 0 <= k < Total(op) ==>
      (Descs(op)[k].last <==> k == (if |op.src| == 1 then 0 else |op.src|))
  {
    DescAt(op, 0);
    forall k | 0 <= k < Total(op)
      ensures Descs(op)[k].side == Src <==> k == 0 || 2 <= k <= |op.src|
      ensures Descs(op)[k].last <==> k == (if |op.src| == 1 then 0 else |op.src|)
    {
      DescAt(op, k);
    }
  }

  // ---------------------------------------------------------------- progress

  /** The cursors and phase consistent with one another, for an operation with at
      least one page on each side. */
  predicate OpInv(op: Op) {
    && |op.src| >= 1 && |op.dest| >= 1
    && match op.status
       case SendSrc1 => op.srcPtr == 0 && op.destPtr == 0
       case SendDest1 => op.srcPtr == 1 && op.destPtr == 0
       case SendSrcRest => 1 <= op.srcPtr < |op.src| && op.destPtr == 1
       case SendDestRest => op.srcPtr == |op.src| && 1 <= op.destPtr < |op.dest|
       case Sent => op.srcPtr == |op.src| && op.destPtr == |op.dest|
  }

  /** Number of descriptors already issued. */
  function Issued(op: Op): nat {
    op.srcPtr + op.destPtr
  }

  /** The operation as admitted, with its progress forgotten. */
  function Static(op: Op): Op {
    op.(srcPtr := 0, destPtr := 0, status := SendSrc1)
  }

  /** The phase an operation is in after k of its descriptors have been issued. */
  function PhaseAt(op: Op, k: nat): Phase {
    if k == 0 then SendSrc1
    else if k == 1 then SendDest1
    else if k <= |op.src| then SendSrcRest
    else if k < Total(op) then SendDestRest
    else Sent
  }

  /** Progress is determined by the number of descriptors issued: the phase is
      PhaseAt of that number, so phases only move forward, SEND_SRC_REST occurs iff
      src_cnt > 1, SEND_DEST_REST iff dest_cnt > 1, and the cursors never pass the
      page counts. */
  lemma PhaseByIssued(op: Op)
    requires OpInv(op)
    ensures Issued(op) <= Total(op)
    ensures op.status == PhaseAt(op, Issued(op))
    ensures op.srcPtr <= |op.src| && op.destPtr <= |op.dest|
    ensures op.status == SendSrcRest ==> |op.src| > 1
    ensures op.status == SendDestRest ==> |op.dest| > 1
    ensures op.status == Sent <==> Issued(op) == Total(op)
  {
  }

  /** One issuing step of the phase machine, for an operation that is not yet SENT:
      the advanced operation and the descriptor it sends. */
  function Step(op: Op): (Op, Desc)
    requires OpInv(op) && op.status != Sent
  {
    match op.status
    case SendSrc1 =>
      (op.(status := SendDest1, srcPtr := 1), FirstSrc(op))
    case SendDest1 =>
      var next := if |op.src| > 1 then SendSrcRest else if |op.dest| > 1 then SendDestRest else Sent;
      (op.(destPtr := 1, status := next), FirstDest(op))
    case SendSrcRest =>
      var p := op.srcPtr + 1;
      var next := if |op.src| > p then SendSrcRest else if |op.dest| > 1 then SendDestRest else Sent;
      (op.(srcPtr := p, status := next), SrcRest(op, op.srcPtr))
    case SendDestRest =>
      var p := op.destPtr + 1;
      var next := if |op.dest| > p then SendDestRest else Sent;
      (op.(destPtr := p, status := next), DestRest(op, op.destPtr))
  }

  /** A step sends the operation's next unsent descriptor, issues exactly one more,
      keeps the invariant and changes nothing but progress. */
  lemma StepIssuesNext(op: Op)
    requires OpInv(op) && op.status != Sent
    ensures OpInv(Step(op).0)
    ensures Static(Step(op).0) == Static(op)
    ensures Issued(Step(op).0) == Issued(op) + 1
    ensures Issued(op) < |Descs(op)| && Step(op).1 == Descs(op)[Issued(op)]
  {
    DescAt(op, Issued(op));
  }

  lemma DescsOfSameStatic(a: Op, b: Op)
    requires |a.src| >= 1 && |a.dest| >= 1 && Static(a) == Static(b)
    ensures Descs(a) == Descs(b)
  {
    forall k | 0 <= k < Total(a) ensures Descs(a)[k] == Descs(b)[k] {
      DescAt(a, k);
      DescAt(b, k);
    }
  }

  /** The descriptors an operation has still to send. */
  function Outstanding(op: Op): seq<Desc> {
    if |op.src| >= 1 && |op.dest| >= 1 && Issued(op) <= Total(op) then Descs(op)[Issued(op)..] else []
  }

  /** A step sends the first outstanding descriptor and leaves the rest outstanding;
      the operation is SENT exactly when nothing is left. */
  lemma StepConsumesOutstanding(op: Op)
    requires OpInv(op) && op.status != Sent
    ensures |Outstanding(op)| > 0
    ensures Outstanding(op)[0] == Step(op).1
    ensures Outstanding(Step(op).0) == Outstanding(op)[1..]
    ensures Step(op).0.status == Sent <==> Outstanding(Step(op).0) == []
  {
    StepIssuesNext(op);
    PhaseByIssued(op);
    PhaseByIssued(Step(op).0);
    DescsOfSameStatic(op, Step(op).0);
  }

  /** Which depth register a phase must see below 128 before it may send. */
  predicate Blocked(op: Op, srcReg: U32, destReg: U32) {
    match op.status
    case SendSrc1 => srcReg == 128
    case SendSrcRest => srcReg == 128
    case SendDest1 => destReg == 128
    case SendDestRest => destReg == 128
    case Sent => false
  }

  // ---------------------------------------------------------------- page release

  datatype PageEvent = PutPage(page: Page) | SetDirty(page: Page)

  /** put_page on each page in turn. */
  function PutAll(pages: seq<Page>): seq<PageEvent> {
    if pages == [] then [] else [PutPage(pages[0])] + PutAll(pages[1..])
  }

  /** set_page_dirty and then put_page on each page in turn. */
  function DirtyPutAll(pages: seq<Page>): seq<PageEvent> {
    if pages == [] then [] else [SetDirty(pages[0]), PutPage(pages[0])] + DirtyPutAll(pages[1..])
  }

  /** op_cleanup: release every source page, then mark every destination page dirty
      and release it. */
  function CleanupEvents(op: Op): seq<PageEvent> {
    PutAll(op.src) + DirtyPutAll(op.dest)
  }

  lemma {:induction false} PutAllShape(pages: seq<Page>)
    ensures |PutAll(pages)| == |pages|
    ensures forall i :: 0 <= i < |pages| ==> PutAll(pages)[i] == PutPage(pages[i])
  {
    if pages != [] {
      PutAllShape(pages[1..]);
    }
  }

  lemma {:induction false} DirtyPutAllShape(pages: seq<Page>)
    ensures |DirtyPutAll(pages)| == 2 * |pages|
    ensures forall j :: 0 <= j < |pages| ==>
      DirtyPutAll(pages)[2 * j] == SetDirty(pages[j]) && DirtyPutAll(pages)[2 * j + 1] == PutPage(pages[j])
  {
    if pages != [] {
      DirtyPutAllShape(pages[1..]);
      var r := DirtyPutAll(pages);
      forall j | 0 <= j < |pages|
        ensures r[2 * j] == SetDirty(pages[j]) && r[2 * j + 1] == PutPage(pages[j])
      {
        if j > 0 {
          assert r[2 * j] == DirtyPutAll(pages[1..])[2 * (j - 1)];
          assert r[2 * j + 1] == DirtyPutAll(pages[1..])[2 * (j - 1) + 1];
        }
      }
    }
  }

  lemma {:induction false} PutAllAppend(a: seq<Page>, b: seq<Page>)
    ensures PutAll(a + b) == PutAll(a) + PutAll(b)
  {
    if a == [] {
      assert a + b == b;
    } else {
      assert (a + b)[1..] == a[1..] + b;
      PutAllAppend(a[1..], b);
    }
  }

  lemma {:induction false} DirtyPutAllAppend(a: seq<Page>, b: seq<Page>)
    ensures DirtyPutAll(a + b) == DirtyPutAll(a) + DirtyPutAll(b)
  {
    if a == [] {
      assert a + b == b;
    } else {
      assert (a + b)[1..] == a[1..] + b;
      DirtyPutAllAppend(a[1..], b);
    }
  }

  /** Releasing one more page extends the log by that page's events. */
  lemma PutAllStep(s: seq<Page>, i: nat)
    requires i < |s|
    ensures PutAll(s[..i + 1]) == PutAll(s[..i]) + [PutPage(s[i])]
  {
    assert s[..i + 1] == s[..i] + [s[i]];
    PutAllAppend(s[..i], [s[i]]);
    assert PutAll([s[i]]) == [PutPage(s[i])] + PutAll([]);
  }

  lemma DirtyPutAllStep(s: seq<Page>, i: nat)
    requires i < |s|
    ensures DirtyPutAll(s[..i + 1]) == DirtyPutAll(s[..i]) + [SetDirty(s[i]), PutPage(s[i])]
  {
    assert s[..i + 1] == s[..i] + [s[i]];
    DirtyPutAllAppend(s[..i], [s[i]]);
    assert DirtyPutAll([s[i]]) == [SetDirty(s[i]), PutPage(s[i])] + DirtyPutAll([]);
  }

  /** Cleaning up an operation releases each of its pages exactly once, in page
      order, sources first; each destination page is marked dirty just before it is
      released. */
  lemma CleanupShape(op: Op)
    ensures |CleanupEvents(op)| == |op.src| + 2 * |op.dest|
    ensures forall i :: 0 <= i < |op.src| ==> CleanupEvents(op)[i] == PutPage(op.src[i])
    ensures forall j :: 0 <= j < |op.dest| ==>
      CleanupEvents(op)[|op.src| + 2 * j] == SetDirty(op.dest[j])
      && CleanupEvents(op)[|op.src| + 2 * j + 1] == PutPage(op.dest[j])
  {
    PutAllShape(op.src);
    DirtyPutAllShape(op.dest);
  }
}

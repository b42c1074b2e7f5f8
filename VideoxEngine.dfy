/** The videox driver as the kernel runs it: one engine object holding the two
    operation lists, with the polling loop, op_cleanup, the ioctl entry point and
    the open/release gate as methods that update it in place.  The hardware's depth
    registers are an observation stream `hw`; the register writes, page releases and
    pin calls are appended to logs. */
module VideoxEngine {
  import opened Bits
  import opened VideoxDesc
  import opened VideoxOps
  import opened VideoxQueue

  const EINVAL: int := 22
  const EBUSY: int := 16
  const ENOSYS: int := 38

  /** What get_user_pages gives back: its return value and the pages it pinned into
      the operation's page array. */
  datatype PinReply = PinReply(count: Int32, pages: seq<Page>)

  /** get_user_pages never pins more than asked for and fills exactly the first
      `count` slots (none when it returns an error). */
  predicate PinFits(reply: PinReply, npages: U64) {
    reply.count <= npages && |reply.pages| == (if reply.count < 0 then 0 else reply.count)
  }

  function SrcPages(req: Request): U64 { PageCount(req.src, req.len) }
  function DestPages(req: Request): U64 { PageCount(req.dest, DestLen(req)) }

  /** The two pin calls of an admitted request: the source range read-only, the
      destination range writable, each from the start of its first page. */
  function PinCalls(req: Request): seq<PinCall> {
    [PinCall(StartPage(req.src) * PAGE_SIZE, SrcPages(req), false),
     PinCall(StartPage(req.dest) * PAGE_SIZE, DestPages(req), true)]
  }

  /** The pin came up short: the returned count, converted to unsigned long for the
      comparison, is not the number of pages asked for. */
  predicate Short(req: Request, srcPin: PinReply, destPin: PinReply) {
    ToU64(srcPin.count) != SrcPages(req) || ToU64(destPin.count) != DestPages(req)
  }

  /** What the caller of the submit path must guarantee: an admitted request spans
      at least one page on each side (a zero-length request on a page boundary does
      not, and the first issue step would read an unpinned page), few enough pages
      for the int page counts, and pin replies that fit their requests. */
  predicate SubmitPre(req: Request, srcPin: PinReply, destPin: PinReply) {
    Admissible(req) ==>
      && 1 <= SrcPages(req) < 0x8000_0000 && 1 <= DestPages(req) < 0x8000_0000
      && PinFits(srcPin, SrcPages(req)) && PinFits(destPin, DestPages(req))
  }

  /** The submit path (ioctl cmd 1) from d0 to d: a request that fails the opcode or
      alignment checks changes nothing; one whose pins come up short releases exactly
      the pages that were pinned, marks none dirty, and queues nothing; otherwise the
      new operation joins the tail of the pending queue and the polling loop runs
      once. */
  ghost predicate SubmitSpec(d0: Dev, d: Dev, req: Request, srcPin: PinReply, destPin: PinReply,
                             hw: Hardware, ret: int, n: nat, freed: seq<Op>)
  {
    && (!Admissible(req) ==> ret == -EINVAL && d == d0)
    && (Admissible(req) && Short(req, srcPin, destPin) ==>
          ret == -EINVAL
          && d == d0.(pins := d0.pins + PinCalls(req),
                      pages := d0.pages + PutAll(srcPin.pages) + PutAll(destPin.pages)))
    && (Admissible(req) && !Short(req, srcPin, destPin) ==>
          var q := Queued(d0, req, srcPin, destPin);
          ret == 0 && Inv(q) && (d, n, freed) == Run(q, hw) && PollSpec(q, d, hw, n, freed))
  }

  /** The state after a successful admission: both pin calls made and the new
      operation at the tail of the pending queue. */
  function Queued(d0: Dev, req: Request, srcPin: PinReply, destPin: PinReply): Dev {
    d0.(pending := d0.pending + [NewOp(req, srcPin.pages, destPin.pages)],
        pins := d0.pins + PinCalls(req))
  }

  /** A pin reply whose count, read as unsigned long, equals a page count below
      2^31 reports exactly that many pages. */
  lemma PinCountExact(reply: PinReply, npages: U64)
    requires 1 <= npages < 0x8000_0000 && PinFits(reply, npages) && ToU64(reply.count) == npages
    ensures reply.count == npages && |reply.pages| == npages
  {
  }

  class Engine {
    var pending: seq<Op>
    var sent: seq<Op>
    var trace: seq<RegWrite>
    var pages: seq<PageEvent>
    var pins: seq<PinCall>
    var tick: nat

    function State(): Dev
      reads this
    {
      Dev(pending, sent, trace, pages, pins, tick)
    }

    ghost predicate Valid()
      reads this
    {
      Inv(State())
    }

    /** Both lists start empty (LIST_HEAD). */
    constructor ()
      ensures Valid() && State() == Dev([], [], [], [], [], 0)
    {
      pending, sent, trace, pages, pins, tick := [], [], [], [], [], 0;
    }

    /** op_cleanup: put every source page, then dirty and put every destination page. */
    method Cleanup(op: Op)
      modifies this
      ensures State() == old(State()).(pages := old(pages) + CleanupEvents(op))
    {
      for i := 0 to |op.src|
        invariant pages == old(pages) + PutAll(op.src[..i])
        invariant pending == old(pending) && sent == old(sent) && trace == old(trace)
        invariant pins == old(pins) && tick == old(tick)
      {
        pages := pages + [PutPage(op.src[i])];
        PutAllStep(op.src, i);
      }
      assert op.src[..|op.src|] == op.src;
      ghost var mid := pages;
      for j := 0 to |op.dest|
        invariant pages == mid + DirtyPutAll(op.dest[..j])
        invariant pending == old(pending) && sent == old(sent) && trace == old(trace)
        invariant pins == old(pins) && tick == old(tick)
      {
        pages := pages + [SetDirty(op.dest[j])];
        pages := pages + [PutPage(op.dest[j])];
        DirtyPutAllStep(op.dest, j);
      }
      assert op.dest[..|op.dest|] == op.dest;
      assert pages == old(pages) + PutAll(op.src) + DirtyPutAll(op.dest);
    }

    /** The reclaim at the top of the polling loop: unlink each sent operation in
        order and clean it up. */
    method ReclaimSent()
      modifies this
      ensures State() == old(State()).(sent := [], pages := old(pages) + AllCleanup(old(sent)))
    {
      ghost var s0 := sent;
      ghost var k := 0;
      while sent != []
        invariant k <= |s0| && sent == s0[k..]
        invariant pages == old(pages) + AllCleanup(s0[..k])
        invariant pending == old(pending) && trace == old(trace) && pins == old(pins) && tick == old(tick)
        decreases |sent|
      {
        var op := sent[0];
        assert op == s0[k];
        sent := sent[1..];
        assert s0[k..][1..] == s0[k + 1..];
        ghost var before := pages;
        Cleanup(op);
        assert pages == before + CleanupEvents(op);
        AllCleanupStep(s0, k);
        k := k + 1;
      }
      assert s0[..k] == s0;
    }

    /** Issue the head operation's next descriptor, low word then high word, and move
        the operation to the tail of the sent list once it is SENT. */
    method IssueHead()
      requires Valid() && |pending| > 0
      modifies this
      ensures State() == Advance(old(State()))
    {
      var (op, desc) := Step(pending[0]);
      trace := trace + [RegWrite(Base(desc.side), desc, Low)];
      trace := trace + [RegWrite(Base(desc.side) + 4, desc, High)];
      if op.status == Sent {
        pending := pending[1..];
        sent := sent + [op];
      } else {
        pending := [op] + pending[1..];
      }
    }

    /** One pass of the body of polling_loop: read both depth registers, reclaim
        when the destination depth is 0, then return if the pending list is empty or
        the register the head's phase needs reads 128, else issue. */
    method PollPass(hw: Hardware) returns (stop: bool, ghost more: seq<Op>)
      requires Valid()
      modifies this
      ensures State() == Iterate(old(State()), hw).0
      ensures stop == Iterate(old(State()), hw).1 && more == Iterate(old(State()), hw).2
    {
      ghost var d := State();
      IterateFacts(d, hw);
      ReclaimStep(d, hw(d.tick));
      var srcReg := hw(tick).srcReg;
      var destReg := hw(tick).destReg;
      tick := tick + 1;
      more := [];
      if destReg == 0 && |sent| > 0 {
        more := sent;
        ReclaimSent();
      }
      assert State() == Reclaim(d.(tick := d.tick + 1), hw(d.tick));
      if |pending| == 0 || Blocked(pending[0], srcReg, destReg) {
        return true, more;
      }
      IssueHead();
      return false, more;
    }

    /** polling_loop: passes until one returns.  The call is exactly `Run`; what
        that means for the queues, the trace and the logs is `PollSpec`, compared
        with `true` so that it is checked as one fact. */
    method Poll(hw: Hardware) returns (ghost n: nat, ghost freed: seq<Op>)
      requires Valid()
      modifies this
      ensures Valid() && (State(), n, freed) == Run(old(State()), hw)
      ensures PollSpec(old(State()), State(), hw, n, freed) == true
    {
      ghost var d0 := State();
      RunMeetsPollSpec(d0, hw);
      n, freed := 0, [];
      assert [] + Run(d0, hw).2 == Run(d0, hw).2;
      while true
        invariant Valid()
        invariant Run(d0, hw).0 == Run(State(), hw).0
        invariant Run(d0, hw).1 == n + Run(State(), hw).1
        invariant Run(d0, hw).2 == freed + Run(State(), hw).2
        decreases |Stream(pending)|
      {
        ghost var d := State();
        ghost var freedBefore := freed;
        var stop, more := PollPass(hw);
        freed := freed + more;
        if stop {
          RunStop(d, hw);
          assert Run(d0, hw) == (State(), n, freed);
          return;
        }
        IterateShrinks(d, hw);
        RunStep(d, hw);
        Assoc(freedBefore, more, Run(State(), hw).2);
        n := n + 1;
      }
    }

    /** put_page on each page of a pin reply. */
    method PutPages(ps: seq<Page>)
      modifies this
      ensures pages == old(pages) + PutAll(ps)
      ensures pending == old(pending) && sent == old(sent) && trace == old(trace)
      ensures pins == old(pins) && tick == old(tick)
    {
      for i := 0 to |ps|
        invariant pages == old(pages) + PutAll(ps[..i])
        invariant pending == old(pending) && sent == old(sent) && trace == old(trace)
        invariant pins == old(pins) && tick == old(tick)
      {
        pages := pages + [PutPage(ps[i])];
        PutAllStep(ps, i);
      }
      assert ps[..|ps|] == ps;
    }

    /** The submit path of the ioctl (cmd 1). */
    method Submit(req: Request, srcPin: PinReply, destPin: PinReply, hw: Hardware)
      returns (ret: int, ghost n: nat, ghost freed: seq<Op>)
      requires Valid() && SubmitPre(req, srcPin, destPin)
      modifies this
      ensures Valid() && SubmitSpec(old(State()), State(), req, srcPin, destPin, hw, ret, n, freed)
    {
      n, freed := 0, [];
      if req.opcode < 0 || req.opcode > NR_FUN_UNITS {
        return -EINVAL, n, freed;
      }
      var destLen := ResultLen(req.opcode, req.attr, req.len);
      if req.src % 64 != 0 || req.dest % 64 != 0 || req.len % 64 != 0 || destLen % 64 != 0 {
        return -EINVAL, n, freed;
      }
      assert Admissible(req);
      var srcStart := StartPage(req.src);
      var srcNpage := PageCount(req.src, req.len);
      var destStart := StartPage(req.dest);
      var destNpage := PageCount(req.dest, destLen);
      pins := pins + [PinCall(srcStart * PAGE_SIZE, srcNpage, false)];
      pins := pins + [PinCall(destStart * PAGE_SIZE, destNpage, true)];
      ghost var pinned := State();
      assert pinned == old(State()).(pins := old(pins) + PinCalls(req));
      if ToU64(srcPin.count) != srcNpage || ToU64(destPin.count) != destNpage {
        PutPages(srcPin.pages);
        PutPages(destPin.pages);
        assert State() == pinned.(pages := old(pages) + PutAll(srcPin.pages) + PutAll(destPin.pages));
        return -EINVAL, n, freed;
      }
      PinCountExact(srcPin, srcNpage);
      PinCountExact(destPin, destNpage);
      var op := NewOp(req, srcPin.pages, destPin.pages);
      pending := pending + [op];
      assert State() == pinned.(pending := old(pending) + [op]);
      n, freed := Poll(hw);
      ret := 0;
    }

    /** videox_ioctl: cmd 0 runs the polling loop and reports whether either list
        still holds an operation; cmd 1 submits; any other command is unknown. */
    method Ioctl(cmd: U32, req: Request, srcPin: PinReply, destPin: PinReply, hw: Hardware)
      returns (ret: int, busy: bool, ghost n: nat, ghost freed: seq<Op>)
      requires Valid()
      requires cmd == 1 ==> SubmitPre(req, srcPin, destPin)
      modifies this
      ensures Valid()
      ensures cmd == 0 ==>
        ret == 0 && (State(), n, freed) == Run(old(State()), hw)
        && PollSpec(old(State()), State(), hw, n, freed)
        && (busy <==> sent != [] || pending != [])
      ensures cmd == 1 ==> SubmitSpec(old(State()), State(), req, srcPin, destPin, hw, ret, n, freed)
      ensures cmd != 0 && cmd != 1 ==> ret == -ENOSYS && State() == old(State())
    {
      busy, n, freed := false, 0, [];
      if cmd == 0 {
        n, freed := Poll(hw);
        busy := sent != [] || pending != [];
        ret := 0;
      } else if cmd == 1 {
        ret, n, freed := Submit(req, srcPin, destPin, hw);
      } else {
        ret := -ENOSYS;
      }
    }
  }

  /** The single-owner gate: `available` starts at 1; `holders` counts the opens
      not yet released. */
  class Gate {
    var available: int
    ghost var holders: nat

    ghost predicate Valid()
      reads this
    {
      holders <= 1 && available == 1 - holders
    }

    constructor ()
      ensures Valid() && holders == 0 && available == 1
    {
      available := 1;
      holders := 0;
    }

    /** videox_open: decrement and test; on failure undo the decrement. */
    method Open() returns (ret: int)
      requires Valid()
      modifies this
      ensures Valid()
      ensures old(holders) == 0 ==> ret == 0 && holders == 1
      ensures old(holders) == 1 ==> ret == -EBUSY && holders == 1 && available == old(available)
    {
      available := available - 1;
      if available != 0 {
        available := available + 1;
        return -EBUSY;
      }
      holders := 1;
      return 0;
    }

    /** videox_release, called once for each successful open. */
    method Release()
      requires Valid() && holders == 1
      modifies this
      ensures Valid() && holders == 0 && available == 1
    {
      available := available + 1;
      holders := 0;
    }
  }
}

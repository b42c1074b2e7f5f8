/** The issuing engine of the videox driver as a function of its state: the pending
    and sent queues, the register-write trace, the page-release log, the pin-call log
    and the number of hardware observations consumed so far.  `Iterate` is one pass
    of the polling loop and `Run` a whole call, pass by pass; `PollSpec` says what a
    call does to the queues, the trace and the logs, and `RunMeetsPollSpec` proves
    that every call meets it. */
module VideoxQueue {
  import opened Bits
  import opened VideoxDesc
  import opened VideoxOps

  /** One observation of the two depth registers (offsets 0 and 8). */
  datatype Reading = Reading(srcReg: U32, destReg: U32)

  /** What the hardware shows on the k-th observation. */
  type Hardware = nat -> Reading

  /** A get_user_pages call: first page address, page count, whether writable. */
  datatype PinCall = PinCall(start: U64, npages: U64, write: bool)

  datatype Dev = Dev(
    pending: seq<Op>, sent: seq<Op>,
    trace: seq<RegWrite>, pages: seq<PageEvent>, pins: seq<PinCall>,
    tick: nat)

  /** Every queued operation is consistent; only the head of the pending queue has
      started issuing; everything in the sent queue is fully issued. */
  predicate QueueInv(pending: seq<Op>, sent: seq<Op>) {
    && (forall i :: 0 <= i < |pending| ==> OpInv(pending[i]) && pending[i].status != Sent)
    && (forall i :: 1 <= i < |pending| ==> pending[i].status == SendSrc1)
    && (forall i :: 0 <= i < |sent| ==> OpInv(sent[i]) && sent[i].status == Sent)
  }

  predicate Inv(d: Dev) {
    QueueInv(d.pending, d.sent)
  }

  /** The descriptors still to be sent, in the order the engine sends them. */
  function Stream(ops: seq<Op>): seq<Desc> {
    if ops == [] then [] else Outstanding(ops[0]) + Stream(ops[1..])
  }

  /** The operations with their progress forgotten. */
  function Statics(ops: seq<Op>): seq<Op> {
    seq(|ops|, i requires 0 <= i < |ops| => Static(ops[i]))
  }

  predicate IsSuffix<T(==)>(a: seq<T>, b: seq<T>) {
    |a| <= |b| && a == b[|b| - |a|..]
  }

  /** op_cleanup of every operation, in queue order. */
  function AllCleanup(ops: seq<Op>): seq<PageEvent> {
    if ops == [] then [] else CleanupEvents(ops[0]) + AllCleanup(ops[1..])
  }

  /** Start of a loop iteration: when the destination depth reads 0, every sent
      operation is cleaned up and dropped. */
  function Reclaim(d: Dev, r: Reading): Dev {
    if r.destReg == 0 && |d.sent| > 0 then d.(sent := [], pages := d.pages + AllCleanup(d.sent))
    else d
  }

  /** Issue one descriptor of the head operation; a finished operation moves to the
      tail of the sent queue. */
  function Advance(d: Dev): Dev
    requires Inv(d) && |d.pending| > 0
  {
    var (op, desc) := Step(d.pending[0]);
    var trace := d.trace + Words(desc);
    if op.status == Sent then d.(pending := d.pending[1..], sent := d.sent + [op], trace := trace)
    else d.(pending := [op] + d.pending[1..], trace := trace)
  }

  // ---------------------------------------------------------------- lemmas

  /** Issuing sends the first outstanding descriptor, removes it from the stream,
      keeps the invariant and the operations' order, and touches nothing else. */
  lemma AdvanceSendsNext(d: Dev)
    requires Inv(d) && |d.pending| > 0
    ensures Inv(Advance(d))
    ensures |Stream(d.pending)| > 0
    ensures Advance(d).trace == d.trace + Words(Stream(d.pending)[0])
    ensures Stream(Advance(d).pending) == Stream(d.pending)[1..]
    ensures Statics(Advance(d).sent + Advance(d).pending) == Statics(d.sent + d.pending)
    ensures Advance(d).pages == d.pages && Advance(d).pins == d.pins && Advance(d).tick == d.tick
  {
    AdvanceInv(d);
    AdvanceStream(d);
    AdvanceStatics(d);
  }

  lemma AdvanceShrinks(d: Dev)
    requires Inv(d) && |d.pending| > 0
    ensures Inv(Advance(d)) && |Stream(Advance(d).pending)| < |Stream(d.pending)|
  {
    AdvanceInv(d);
    AdvanceStream(d);
  }

  lemma AdvanceInv(d: Dev)
    requires Inv(d) && |d.pending| > 0
    ensures Inv(Advance(d))
  {
    StepIssuesNext(d.pending[0]);
  }

  lemma AdvanceStream(d: Dev)
    requires Inv(d) && |d.pending| > 0
    ensures |Stream(d.pending)| > 0
    ensures Advance(d).trace == d.trace + Words(Stream(d.pending)[0])
    ensures Stream(Advance(d).pending) == Stream(d.pending)[1..]
  {
    var op, rest := d.pending[0], d.pending[1..];
    assert d.pending == [op] + rest;
    StreamAfterStep(op, rest, Step(op).0, Step(op).1);
  }

  /** The stream seen from one queue: a step of its head takes off the first
      descriptor, and a head that becomes SENT leaves the queue. */
  lemma StreamAfterStep(op: Op, rest: seq<Op>, next: Op, desc: Desc)
    requires OpInv(op) && op.status != Sent && Step(op) == (next, desc)
    ensures |Stream([op] + rest)| > 0 && Stream([op] + rest)[0] == desc
    ensures next.status == Sent ==> Stream(rest) == Stream([op] + rest)[1..]
    ensures next.status != Sent ==> Stream([next] + rest) == Stream([op] + rest)[1..]
  {
    StepConsumesOutstanding(op);
    assert Step(op).0 == next && Step(op).1 == desc;
    StreamCons(op, rest);
    var out, tail := Outstanding(op), Stream(rest);
    assert |out| > 0 && out[0] == desc && Outstanding(next) == out[1..];
    ConsTail(out, tail);
    if next.status != Sent {
      StreamCons(next, rest);
    } else {
      assert out[1..] == [];
      assert out[1..] + tail == tail;
    }
  }

  lemma ConsTail<T>(out: seq<T>, tail: seq<T>)
    requires |out| > 0
    ensures |out + tail| > 0 && (out + tail)[0] == out[0] && (out + tail)[1..] == out[1..] + tail
  {
  }

  lemma StreamCons(op: Op, rest: seq<Op>)
    ensures Stream([op] + rest) == Outstanding(op) + Stream(rest)
  {
    var p := [op] + rest;
    assert p[0] == op && p[1..] == rest;
  }

  lemma AdvanceStatics(d: Dev)
    requires Inv(d) && |d.pending| > 0
    ensures Statics(Advance(d).sent + Advance(d).pending) == Statics(d.sent + d.pending)
  {
    var op := d.pending[0];
    StepIssuesNext(op);
    var op' := Step(op).0;
    var before, after := d.sent + d.pending, Advance(d).sent + Advance(d).pending;
    assert |after| == |before|;
    forall i | 0 <= i < |before| ensures Statics(after)[i] == Statics(before)[i] {
      if i == |d.sent| {
        assert after[i] == op' && before[i] == op;
      } else {
        assert after[i] == before[i];
      }
    }
  }

  lemma {:induction false} AllCleanupAppend(a: seq<Op>, b: seq<Op>)
    ensures AllCleanup(a + b) == AllCleanup(a) + AllCleanup(b)
  {
    if a != [] {
      assert (a + b)[0] == a[0];
      assert (a + b)[1..] == a[1..] + b;
      AllCleanupAppend(a[1..], b);
    } else {
      assert a + b == b;
    }
  }

  lemma AllCleanupStep(s: seq<Op>, k: nat)
    requires k < |s|
    ensures AllCleanup(s[..k + 1]) == AllCleanup(s[..k]) + CleanupEvents(s[k])
  {
    assert s[..k + 1] == s[..k] + [s[k]];
    AllCleanupAppend(s[..k], [s[k]]);
    assert AllCleanup([s[k]]) == CleanupEvents(s[k]) + AllCleanup([]);
  }

  /** Reclaiming keeps the invariant; a zero destination reading always leaves the
      sent queue empty; what is dropped are the oldest operations, and exactly their
      pages are released, oldest operation first. */
  lemma ReclaimReleasesSent(d: Dev, r: Reading)
    requires Inv(d)
    ensures Inv(Reclaim(d, r))
    ensures r.destReg == 0 ==> Reclaim(d, r).sent == []
    ensures IsSuffix(Statics(Reclaim(d, r).sent + Reclaim(d, r).pending), Statics(d.sent + d.pending))
    ensures |Reclaim(d, r).sent| <= |d.sent|
    ensures Reclaim(d, r).pages == d.pages + AllCleanup(d.sent[..|d.sent| - |Reclaim(d, r).sent|])
  {
    var d' := Reclaim(d, r);
    var before, after := d.sent + d.pending, d'.sent + d'.pending;
    if r.destReg == 0 && |d.sent| > 0 {
      assert after == d.pending;
      assert Statics(after) == Statics(before)[|d.sent|..];
      assert d.sent[..|d.sent|] == d.sent;
    } else {
      assert d.sent[..0] == [];
      assert d.pages + [] == d.pages;
    }
  }

  lemma ReclaimKeepsInv(d: Dev, r: Reading)
    requires Inv(d)
    ensures Inv(Reclaim(d, r))
  {
  }

  lemma StaticsAppend(a: seq<Op>, b: seq<Op>)
    ensures Statics(a + b) == Statics(a) + Statics(b)
  {
  }

  lemma Assoc<T>(a: seq<T>, b: seq<T>, c: seq<T>)
    ensures (a + b) + c == a + (b + c)
  {
  }

  lemma WordsOfSnoc(ds: seq<Desc>, d: Desc)
    ensures WordsOf(ds + [d]) == WordsOf(ds) + Words(d)
  {
    WordsOfAppend(ds, [d]);
    assert [d][1..] == [];
  }

  /** Issuing one more descriptor extends what has been sent of the original stream
      by its next element. */
  lemma AdvanceExtends(d: Dev, s0: seq<Desc>, t0: seq<RegWrite>, n: nat)
    requires Inv(d) && |d.pending| > 0
    requires n <= |s0| && Stream(d.pending) == s0[n..] && d.trace == t0 + WordsOf(s0[..n])
    ensures n + 1 <= |s0| && Stream(Advance(d).pending) == s0[n + 1..]
    ensures Advance(d).trace == t0 + WordsOf(s0[..n + 1])
  {
    AdvanceStream(d);
    assert s0[n..][1..] == s0[n + 1..];
    assert s0[..n + 1] == s0[..n] + [s0[n]];
    WordsOfSnoc(s0[..n], s0[n]);
  }

  // ---------------------------------------------------------------- one call of the loop

  /** One pass of the loop body: read both depth registers, reclaim when the
      destination depth reads 0, then issue one descriptor unless the pending queue
      is empty or the head is stalled.  Gives the new state, whether the loop
      returns, and the operations reclaimed. */
  function Iterate(d: Dev, hw: Hardware): (Dev, bool, seq<Op>)
    requires Inv(d)
  {
    var r := hw(d.tick);
    var d1 := Reclaim(d.(tick := d.tick + 1), r);
    var freed := if r.destReg == 0 && |d.sent| > 0 then d.sent else [];
    ReclaimKeepsInv(d.(tick := d.tick + 1), r);
    if |d1.pending| == 0 || Blocked(d1.pending[0], r.srcReg, r.destReg) then (d1, true, freed)
    else (Advance(d1), false, freed)
  }

  /** What the loop has done so far, starting from d0: n descriptors sent, in stream
      order; the operations in `freed` reclaimed, oldest first, with their pages
      released; nothing else lost or reordered; no pins. */
  ghost predicate Accounted(d0: Dev, d: Dev, n: nat, freed: seq<Op>) {
    && Inv(d)
    && n <= |Stream(d0.pending)|
    && Stream(d.pending) == Stream(d0.pending)[n..]
    && d.trace == d0.trace + WordsOf(Stream(d0.pending)[..n])
    && Statics(freed) + Statics(d.sent + d.pending) == Statics(d0.sent + d0.pending)
    && d.pages == d0.pages + AllCleanup(freed)
    && d.pins == d0.pins
  }

  /** Nothing is reclaimed unless some reading in [from, to) showed a destination
      depth of 0. */
  ghost predicate FreedOnlyOnZero(hw: Hardware, from: nat, to: nat, freed: seq<Op>) {
    (forall t :: from <= t < to ==> hw(t).destReg != 0) ==> freed == []
  }

  /** The register a descriptor's side waits on reads 128: that side's hardware
      queue is full. */
  predicate Stalls(desc: Desc, r: Reading) {
    if desc.side == Src then r.srcReg == 128 else r.destReg == 128
  }

  /** Descriptor k of s met a full queue at the reading taken just before it was
      to be sent. */
  ghost predicate StalledAt(s: seq<Desc>, hw: Hardware, t0: nat, k: nat) {
    k < |s| && Stalls(s[k], hw(t0 + k))
  }

  /** None of the first n descriptors of s met a full queue. */
  ghost predicate NoStallBefore(s: seq<Desc>, hw: Hardware, t0: nat, n: nat) {
    forall k :: 0 <= k < n ==> !StalledAt(s, hw, t0, k)
  }

  /** A call that sent n descriptors of s returned because all of s was sent, or
      because descriptor n met a full queue. */
  ghost predicate StopsAt(s: seq<Desc>, hw: Hardware, t0: nat, n: nat) {
    n == |s| || StalledAt(s, hw, t0, n)
  }

  /** Loop invariant of the polling loop: what has been sent, reclaimed and released
      so far is accounted for, and the passes so far went as `LoopSoFar` says. */
  ghost predicate Progress(d0: Dev, d: Dev, hw: Hardware, n: nat, freed: seq<Op>) {
    Accounted(d0, d, n, freed) && LoopSoFar(d0, d, hw, n, freed)
  }

  /** n passes so far, each taking one reading and issuing one descriptor after a
      reading that did not stall it; operations freed only after a destination
      depth of 0. */
  ghost predicate LoopSoFar(d0: Dev, d: Dev, hw: Hardware, n: nat, freed: seq<Op>) {
    && d.tick == d0.tick + n
    && (n == 0 ==> d.pending == d0.pending)
    && NoStallBefore(Stream(d0.pending), hw, d0.tick, n)
    && FreedOnlyOnZero(hw, d0.tick, d.tick, freed)
  }

  /** One call of the polling loop from d0 to d, having sent n descriptors and freed
      the operations in `freed`: everything is accounted for, and the call went as
      `LoopEnd` says. */
  ghost predicate PollSpec(d0: Dev, d: Dev, hw: Hardware, n: nat, freed: seq<Op>) {
    Accounted(d0, d, n, freed) && LoopEnd(d0, d, hw, n, freed)
  }

  /** The call read n + 1 observations, sent descriptor k of the stream after reading
      k for every k < n, none of those readings stalled it, and reading n found the
      stream sent or the next descriptor's register at 128; nothing was freed unless
      some reading showed a destination depth of 0, and a destination depth of 0 at
      the last reading left the sent queue empty. */
  ghost predicate LoopEnd(d0: Dev, d: Dev, hw: Hardware, n: nat, freed: seq<Op>) {
    && d.tick == d0.tick + n + 1
    && (n == 0 ==> d.pending == d0.pending)
    && NoStallBefore(Stream(d0.pending), hw, d0.tick, n)
    && StopsAt(Stream(d0.pending), hw, d0.tick, n)
    && FreedOnlyOnZero(hw, d0.tick, d.tick, freed)
    && (hw(d.tick - 1).destReg == 0 ==> d.sent == [])
  }

  lemma StepStalls(op: Op, r: Reading)
    requires OpInv(op) && op.status != Sent
    ensures Blocked(op, r.srcReg, r.destReg) <==> Stalls(Step(op).1, r)
  {
  }

  /** The queue is empty exactly when its stream is, and the head operation waits on
      the register of the stream's first descriptor. */
  lemma HeadStalls(d: Dev, r: Reading)
    requires Inv(d)
    ensures |d.pending| > 0 <==> |Stream(d.pending)| > 0
    ensures |d.pending| > 0 ==> (Blocked(d.pending[0], r.srcReg, r.destReg) <==> Stalls(Stream(d.pending)[0], r))
  {
    if |d.pending| > 0 {
      var op, rest := d.pending[0], d.pending[1..];
      assert d.pending == [op] + rest;
      StreamAfterStep(op, rest, Step(op).0, Step(op).1);
      StepStalls(op, r);
    }
  }

  lemma FreedExtends(hw: Hardware, from: nat, to: nat, freed: seq<Op>, more: seq<Op>)
    requires from <= to && FreedOnlyOnZero(hw, from, to, freed)
    requires hw(to).destReg != 0 ==> more == []
    ensures FreedOnlyOnZero(hw, from, to + 1, freed + more)
  {
    if forall t :: from <= t < to + 1 ==> hw(t).destReg != 0 {
      assert hw(to).destReg != 0;
      assert freed + more == [];
    }
  }

  lemma ReclaimAccounted(d0: Dev, d: Dev, n: nat, freed: seq<Op>, r: Reading)
    requires Accounted(d0, d, n, freed)
    ensures var more := if r.destReg == 0 && |d.sent| > 0 then d.sent else [];
      Accounted(d0, Reclaim(d.(tick := d.tick + 1), r), n, freed + more)
  {
    if r.destReg == 0 && |d.sent| > 0 {
      ReclaimAccountedZero(d0, d, n, freed, r);
    } else {
      assert freed + [] == freed;
    }
  }

  lemma ReclaimAccountedZero(d0: Dev, d: Dev, n: nat, freed: seq<Op>, r: Reading)
    requires Accounted(d0, d, n, freed) && r.destReg == 0 && |d.sent| > 0
    ensures Accounted(d0, Reclaim(d.(tick := d.tick + 1), r), n, freed + d.sent)
  {
    var d1 := Reclaim(d.(tick := d.tick + 1), r);
    assert d1 == d.(tick := d.tick + 1, sent := [], pages := d.pages + AllCleanup(d.sent));
    StaticsAppend(freed, d.sent);
    StaticsAppend(d.sent, d.pending);
    AllCleanupAppend(freed, d.sent);
    assert d1.sent + d1.pending == d.pending;
    Assoc(Statics(freed), Statics(d.sent), Statics(d.pending));
    Assoc(d0.pages, AllCleanup(freed), AllCleanup(d.sent));
  }

  lemma AdvanceAccounted(d0: Dev, d: Dev, n: nat, freed: seq<Op>)
    requires Accounted(d0, d, n, freed) && |d.pending| > 0
    ensures Accounted(d0, Advance(d), n + 1, freed)
  {
    AdvanceInv(d);
    AdvanceStatics(d);
    AdvanceExtends(d, Stream(d0.pending), d0.trace, n);
  }

  /** The pass unfolded: reclaim first, then return or issue. */
  lemma IterateFacts(d: Dev, hw: Hardware)
    requires Inv(d)
    ensures var r := hw(d.tick);
      var d1 := Reclaim(d.(tick := d.tick + 1), r);
      && Inv(d1)
      && Iterate(d, hw).2 == (if r.destReg == 0 && |d.sent| > 0 then d.sent else [])
      && (Iterate(d, hw).1 <==> |d.pending| == 0 || Blocked(d.pending[0], r.srcReg, r.destReg))
      && (Iterate(d, hw).1 ==> Iterate(d, hw).0 == d1)
      && (!Iterate(d, hw).1 ==> Iterate(d, hw).0 == Advance(d1))
  {
    var r := hw(d.tick);
    ReclaimStep(d, r);
    var d1 := Reclaim(d.(tick := d.tick + 1), r);
    var freed := if r.destReg == 0 && |d.sent| > 0 then d.sent else [];
    if |d.pending| == 0 || Blocked(d.pending[0], r.srcReg, r.destReg) {
      assert Iterate(d, hw) == (d1, true, freed);
    } else {
      assert Iterate(d, hw) == (Advance(d1), false, freed);
    }
  }

  /** The reclaim at the top of a pass keeps the invariant and the pending
      queue, and takes one reading. */
  lemma ReclaimStep(d: Dev, r: Reading)
    requires Inv(d)
    ensures var d1 := Reclaim(d.(tick := d.tick + 1), r);
      Inv(d1) && d1.pending == d.pending && d1.tick == d.tick + 1
      && (r.destReg == 0 ==> d1.sent == [])
  {
    var dt := d.(tick := d.tick + 1);
    assert dt.pending == d.pending && dt.sent == d.sent;
    ReclaimReleasesSent(dt, r);
  }

  lemma AdvanceFrame(d: Dev)
    requires Inv(d) && |d.pending| > 0
    ensures Advance(d).tick == d.tick && Advance(d).pages == d.pages && Advance(d).pins == d.pins
  {
  }

  lemma IterateAccounted(d0: Dev, d: Dev, hw: Hardware, n: nat, freed: seq<Op>)
    requires Accounted(d0, d, n, freed)
    requires !Iterate(d, hw).1
    ensures Accounted(d0, Iterate(d, hw).0, n + 1, freed + Iterate(d, hw).2)
    ensures Iterate(d, hw).0.tick == d.tick + 1
    ensures hw(d.tick).destReg != 0 ==> Iterate(d, hw).2 == []
    ensures n < |Stream(d0.pending)| && !Stalls(Stream(d0.pending)[n], hw(d.tick))
  {
    var r := hw(d.tick);
    var d1 := Reclaim(d.(tick := d.tick + 1), r);
    IterateFacts(d, hw);
    ReclaimStep(d, hw(d.tick));
    ReclaimAccounted(d0, d, n, freed, r);
    AdvanceAccounted(d0, d1, n, freed + Iterate(d, hw).2);
    AdvanceFrame(d1);
    HeadStalls(d, r);
    assert Stream(d.pending)[0] == Stream(d0.pending)[n];
  }

  /** A pass that does not return keeps the invariant with one more descriptor sent. */
  lemma IterateKeeps(d0: Dev, d: Dev, hw: Hardware, n: nat, freed: seq<Op>)
    requires Progress(d0, d, hw, n, freed)
    requires !Iterate(d, hw).1
    ensures Progress(d0, Iterate(d, hw).0, hw, n + 1, freed + Iterate(d, hw).2)
  {
    IterateAccounted(d0, d, hw, n, freed);
    ProgressExtends(d0, d, Iterate(d, hw).0, hw, n, freed, Iterate(d, hw).2);
  }

  /** The loop invariant carries over a pass that sent one more descriptor after a
      reading that did not stall it, took one more reading and freed operations only
      on a zero reading. */
  lemma ProgressExtends(d0: Dev, d: Dev, d': Dev, hw: Hardware, n: nat, freed: seq<Op>, more: seq<Op>)
    requires d.tick == d0.tick + n && FreedOnlyOnZero(hw, d0.tick, d.tick, freed)
    requires d'.tick == d.tick + 1
    requires hw(d.tick).destReg != 0 ==> more == []
    requires NoStallBefore(Stream(d0.pending), hw, d0.tick, n)
    requires n < |Stream(d0.pending)| && !Stalls(Stream(d0.pending)[n], hw(d.tick))
    ensures LoopSoFar(d0, d', hw, n + 1, freed + more)
  {
    FreedExtends(hw, d0.tick, d.tick, freed, more);
    NoStallExtends(Stream(d0.pending), hw, d0.tick, n);
  }
  lemma NoStallExtends(s: seq<Desc>, hw: Hardware, t0: nat, n: nat)
    requires NoStallBefore(s, hw, t0, n)
    requires n < |s| && !Stalls(s[n], hw(t0 + n))
    ensures NoStallBefore(s, hw, t0, n + 1)
  {
    assert !StalledAt(s, hw, t0, n);
  }

  /** A pass that returns ends the call as PollSpec describes. */
  lemma IterateStops(d0: Dev, d: Dev, hw: Hardware, n: nat, freed: seq<Op>)
    requires Progress(d0, d, hw, n, freed)
    requires Iterate(d, hw).1
    ensures PollSpec(d0, Iterate(d, hw).0, hw, n, freed + Iterate(d, hw).2)
  {
    IterateHalts(d0, d, hw, n, freed);
    StopsExtends(d0, d, Iterate(d, hw).0, hw, n, freed, Iterate(d, hw).2);
  }
  /** What a stopping pass does: it reclaims, advances the clock, leaves the
      queue as it was, and the head of what is left stalls at this reading. */
  lemma IterateHalts(d0: Dev, d: Dev, hw: Hardware, n: nat, freed: seq<Op>)
    requires Accounted(d0, d, n, freed)
    requires Iterate(d, hw).1
    ensures Accounted(d0, Iterate(d, hw).0, n, freed + Iterate(d, hw).2)
    ensures Iterate(d, hw).0.tick == d.tick + 1 && Iterate(d, hw).0.pending == d.pending
    ensures hw(d.tick).destReg != 0 ==> Iterate(d, hw).2 == []
    ensures hw(d.tick).destReg == 0 ==> Iterate(d, hw).0.sent == []
    ensures n == |Stream(d0.pending)| || Stalls(Stream(d0.pending)[n], hw(d.tick))
  {
    var r := hw(d.tick);
    IterateFacts(d, hw);
    ReclaimStep(d, r);
    ReclaimAccounted(d0, d, n, freed, r);
    HeadStalls(d, r);
    if |d.pending| > 0 {
      assert Stream(d.pending)[0] == Stream(d0.pending)[n];
    }
  }
  lemma StopsExtends(d0: Dev, d: Dev, d': Dev, hw: Hardware, n: nat, freed: seq<Op>, more: seq<Op>)
    requires d.tick == d0.tick + n && FreedOnlyOnZero(hw, d0.tick, d.tick, freed)
    requires n == 0 ==> d.pending == d0.pending
    requires NoStallBefore(Stream(d0.pending), hw, d0.tick, n)
    requires d'.tick == d.tick + 1 && d'.pending == d.pending
    requires hw(d.tick).destReg != 0 ==> more == []
    requires hw(d.tick).destReg == 0 ==> d'.sent == []
    requires n <= |Stream(d0.pending)|
    requires n == |Stream(d0.pending)| || Stalls(Stream(d0.pending)[n], hw(d.tick))
    ensures LoopEnd(d0, d', hw, n, freed + more)
  {
    assert d'.tick - 1 == d.tick == d0.tick + n;
    StopsHere(Stream(d0.pending), hw, d0.tick, n);
    FreedExtends(hw, d0.tick, d.tick, freed, more);
  }
  lemma StopsHere(s: seq<Desc>, hw: Hardware, t0: nat, n: nat)
    requires n == |s| || (n < |s| && Stalls(s[n], hw(t0 + n)))
    ensures StopsAt(s, hw, t0, n)
  {
  }


  /** A pass that does not return shortens the outstanding stream. */
  lemma IterateShrinks(d: Dev, hw: Hardware)
    requires Inv(d) && !Iterate(d, hw).1
    ensures Inv(Iterate(d, hw).0) && |Stream(Iterate(d, hw).0.pending)| < |Stream(d.pending)|
  {
    IterateFacts(d, hw);
    ReclaimStep(d, hw(d.tick));
    AdvanceShrinks(Reclaim(d.(tick := d.tick + 1), hw(d.tick)));
  }

  /** A whole call of polling_loop: passes until one returns.  Gives the final
      state, the number of descriptors sent and the operations reclaimed, oldest
      first. */
  function Run(d: Dev, hw: Hardware): (Dev, nat, seq<Op>)
    requires Inv(d)
    decreases |Stream(d.pending)|
  {
    var it := Iterate(d, hw);
    if it.1 then (it.0, 0, it.2)
    else
      IterateShrinks(d, hw);
      var rest := Run(it.0, hw);
      (rest.0, rest.1 + 1, it.2 + rest.2)
  }

  /** A pass that returns ends the call there. */
  lemma RunStop(d: Dev, hw: Hardware)
    requires Inv(d) && Iterate(d, hw).1
    ensures Run(d, hw) == (Iterate(d, hw).0, 0, Iterate(d, hw).2)
  {
  }

  /** A pass that does not return leaves the rest of the call to the next pass: one
      more descriptor, and its reclaimed operations ahead of the later ones. */
  lemma RunStep(d: Dev, hw: Hardware)
    requires Inv(d) && !Iterate(d, hw).1
    ensures Inv(Iterate(d, hw).0)
    ensures var next := Run(Iterate(d, hw).0, hw);
      Run(d, hw).0 == next.0 && Run(d, hw).1 == next.1 + 1 && Run(d, hw).2 == Iterate(d, hw).2 + next.2
  {
    IterateShrinks(d, hw);
  }

  /** One pass of the loop from a state reached by `Progress`: either it
      stops, with `PollSpec` holding and `Run` ending there, or it goes on,
      with `Progress` one pass further and `Run` taking one more pass. */
  lemma IterateCases(d0: Dev, d: Dev, hw: Hardware, n: nat, freed: seq<Op>)
    requires Progress(d0, d, hw, n, freed) == true
    ensures Inv(d)
    ensures var it := Iterate(d, hw);
      if it.1 then
        PollSpec(d0, it.0, hw, n, freed + it.2) == true && Run(d, hw) == (it.0, 0, it.2)
      else
        && Progress(d0, it.0, hw, n + 1, freed + it.2) == true
        && |Stream(it.0.pending)| < |Stream(d.pending)|
        && var next := Run(it.0, hw);
           Run(d, hw) == (next.0, next.1 + 1, it.2 + next.2)
  {
    if Iterate(d, hw).1 {
      IterateStops(d0, d, hw, n, freed);
      RunStop(d, hw);
    } else {
      IterateKeeps(d0, d, hw, n, freed);
      IterateShrinks(d, hw);
      RunStep(d, hw);
    }
  }

  /** From any state `Progress` reaches, `Run` finishes in a state that
      `PollSpec` describes; `r` is what `Run` returns there, with the
      passes and the freed operations counted from `d0`. */
  lemma {:induction false} RunFrom(d0: Dev, d: Dev, hw: Hardware, n: nat, freed: seq<Op>)
    returns (r: (Dev, nat, seq<Op>))
    requires Progress(d0, d, hw, n, freed) == true
    ensures Inv(d)
    ensures r.0 == Run(d, hw).0 && r.1 == n + Run(d, hw).1 && r.2 == freed + Run(d, hw).2
    ensures PollSpec(d0, r.0, hw, r.1, r.2) == true
    decreases |Stream(d.pending)|
  {
    var it := Iterate(d, hw);
    IterateCases(d0, d, hw, n, freed);
    if it.1 {
      r := (it.0, n, freed + it.2);
    } else {
      r := RunFrom(d0, it.0, hw, n + 1, freed + it.2);
      var next := Run(it.0, hw);
      Assoc(freed, it.2, next.2);
      assert r.1 == n + (next.1 + 1);
      assert r.2 == freed + (it.2 + next.2);
    }
  }


  /** Every call of the polling loop from a consistent state meets PollSpec. */
  lemma RunMeetsPollSpec(d0: Dev, hw: Hardware)
    requires Inv(d0)
    ensures PollSpec(d0, Run(d0, hw).0, hw, Run(d0, hw).1, Run(d0, hw).2)
  {
    ProgressStart(d0, hw);
    var r := RunFrom(d0, d0, hw, 0, []);
    assert [] + Run(d0, hw).2 == Run(d0, hw).2;
    PollSpecOfEqual(d0, hw, r, Run(d0, hw));
  }

  lemma PollSpecOfEqual(d0: Dev, hw: Hardware, a: (Dev, nat, seq<Op>), b: (Dev, nat, seq<Op>))
    requires a.0 == b.0 && a.1 == b.1 && a.2 == b.2 && PollSpec(d0, a.0, hw, a.1, a.2) == true
    ensures PollSpec(d0, b.0, hw, b.1, b.2)
  {
  }

  /** The loop invariant holds before the first pass. */
  lemma ProgressStart(d0: Dev, hw: Hardware)
    requires Inv(d0)
    ensures Progress(d0, d0, hw, 0, [])
  {
    assert Stream(d0.pending)[..0] == [] && Stream(d0.pending)[0..] == Stream(d0.pending);
    assert Statics([]) + Statics(d0.sent + d0.pending) == Statics(d0.sent + d0.pending);
    assert d0.pages + AllCleanup([]) == d0.pages;
    assert d0.trace + WordsOf([]) == d0.trace;
  }

  /** PollSpec fixes how far a call gets: two calls from the same state on the same
      readings send the same number of descriptors, write the same trace, take the
      same number of readings and leave the same stream outstanding. */
  lemma PollSpecDeterminesProgress(d0: Dev, d: Dev, d': Dev, hw: Hardware,
                                   n: nat, n': nat, freed: seq<Op>, freed': seq<Op>)
    requires PollSpec(d0, d, hw, n, freed) && PollSpec(d0, d', hw, n', freed')
    ensures n == n' && d.trace == d'.trace && d.tick == d'.tick
    ensures Stream(d.pending) == Stream(d'.pending)
  {
    var s := Stream(d0.pending);
    assert n < |s| ==> StalledAt(s, hw, d0.tick, n);
    assert n' < |s| ==> StalledAt(s, hw, d0.tick, n');
  }

  /** Backpressure: when the first reading stalls the head, the call sends nothing
      and the head keeps its phase and cursors. */
  lemma StalledPollSendsNothing(d0: Dev, d: Dev, hw: Hardware, n: nat, freed: seq<Op>)
    requires Inv(d0) && PollSpec(d0, d, hw, n, freed)
    requires |d0.pending| > 0 && Blocked(d0.pending[0], hw(d0.tick).srcReg, hw(d0.tick).destReg)
    ensures n == 0 && d.pending == d0.pending && d.trace == d0.trace
  {
    HeadStalls(d0, hw(d0.tick));
    assert StalledAt(Stream(d0.pending), hw, d0.tick, 0);
    assert Stream(d0.pending)[..0] == [];
  }

  /** With no register ever reading 128, a call sends everything outstanding and
      leaves the pending queue empty. */
  lemma UnblockedPollDrains(d0: Dev, d: Dev, hw: Hardware, n: nat, freed: seq<Op>)
    requires PollSpec(d0, d, hw, n, freed)
    requires forall t :: hw(t).srcReg != 128 && hw(t).destReg != 128
    ensures d.pending == []
    ensures d.trace == d0.trace + WordsOf(Stream(d0.pending))
  {
    var s := Stream(d0.pending);
    assert !StalledAt(s, hw, d0.tick, n);
    assert Stream(d.pending) == [];
    HeadStalls(d, hw(0));
    assert s[..n] == s;
  }
}

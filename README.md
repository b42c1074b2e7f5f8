# lowRISC Linux drivers: videox, Iris framebuffer, RISC-V page tables

A Dafny model of three parts of the lowRISC Linux tree, with proofs about each.

- **videox accelerator driver** (`arch/riscv/videox/videox.c`).
  - `compute_result_len` maps an opcode and attribute to the destination length.
  - The ioctl admits a request. It checks the opcode and 64-byte alignment, counts the pages on each side and pins both ranges. If a pin comes up short it rolls back; otherwise it queues the new operation.
  - `polling_loop` is a five-phase issuer (SEND_SRC_1, SEND_DEST_1, SEND_SRC_REST, SEND_DEST_REST, SENT). It packs 64-bit descriptors and writes each one as two 32-bit register writes. It stops when a depth register reads 128 and reclaims finished operations when the destination depth reads 0.
  - `op_cleanup` releases an operation's pages.
  - The open/release counter lets one owner in at a time.
  - Files: `VideoxDesc.dfy` (descriptor packing and register words), `VideoxOps.dfy` (requests, page arithmetic, the phase step, page release), `VideoxQueue.dfy` (the engine as a function of its state and the loop invariant), `VideoxEngine.dfy` (the `Engine` class whose methods update the two lists in place, and the `Gate` class).
- **Iris framebuffer driver** (`arch/riscv/video/fb.c`).
  - `iris_check_var` validates and normalises a mode. It is a method on a `ScreenInfo` object whose record it overwrites, proved equal to the function `CheckVarResult` (`Fb.dfy`).
  - `iris_setcolreg` fills a 16-entry palette array. `iris_set_par` and `iris_pan_display` append to a trace of register writes and store the line length. All three are methods of the `Iris` class (`FbDevice.dfy`).
- **RISC-V page-table header** (`arch/riscv/include/asm/pgtable.h`).
  - The pte flag helpers, `pfn_pte`/`pte_pfn`, `pte_modify`, the table indices, the pmd predicates, the entry stores and the swap-entry macros, all on 64-bit words (`Pgtable.dfy`).
  - The single-bit flag masks come from a header that is not part of this model. They are an abstract `Layout` of distinct bit positions, with the present flag at bit 0.
- `Bits.dfy` holds the shared 32/64-bit helpers and the power-of-two and logarithm lemmas.

The environment of the videox driver is modelled as follows:
- The hardware's depth registers are a stream of observations, `Hardware = nat -> Reading`.
- `get_user_pages` is a reply (a count and the pinned pages) passed to the submit path.
- Register writes, page releases (`put_page`, `set_page_dirty`) and pin calls are appended to logs held by the engine.

## Model

| member | source | states |
|---|---|---|
| VideoxDesc.WordsOfShape | arch/riscv/videox/videox.c:161-162 | sending descriptors writes two words each: the k-th descriptor's low word at position 2k to its side's base offset, then its high word to base + 4 |
| VideoxDesc.WordsCarryDescriptor | arch/riscv/videox/videox.c:161-162 | the low and high 32-bit words written for a descriptor recombine to its packed 64-bit value |
| VideoxDesc.PackFields | arch/riscv/videox/videox.c:155-158 | when the fields fit their ranges, the address bits, the length (bit 34), the last flag (bit 55) and the attribute (bits 56-63) come back out of the packed word; the opcode bits hold the opcode or-ed with the address's low bits |
| VideoxDesc.PackLastFlag | arch/riscv/videox/videox.c:158 | bit 55 is set whenever the last flag is requested, and clear otherwise as long as no other field reaches it |
| VideoxOps.ResultLenTable | arch/riscv/videox/videox.c:257-275 | the result length by case: 2*len mod 2^64 for opcode 1 with attribute bit 0 clear or bits 0/1 = 1/0; len mod 2^63 for opcode 1 with both bits set; len/2 for opcode 3 or opcode 2 with bit 0 set; len otherwise |
| VideoxOps.ResultLenIdentity | arch/riscv/videox/videox.c:258-273 | opcode 1 with attribute bits 0 and 1 set gives back the input length when len < 2^63 |
| VideoxOps.LastLenInPage | arch/riscv/videox/videox.c:335-336 | the last-chunk length is the in-page offset of the range's last byte plus one, between 1 and a page, so storing it in an int loses nothing |
| VideoxOps.EmptyAlignedRangeHasNoPages | arch/riscv/videox/videox.c:307-309 | a zero-length range that starts on a page boundary (above 0) spans 0 pages |
| VideoxOps.ChunksCoverRange | arch/riscv/videox/videox.c:307-313 | one side's chunks (the first min(PAGE_SIZE - offset, len), full pages in the middle, last_len at the end) add up to exactly len when the range does not wrap |
| VideoxOps.SrcChunksSum | arch/riscv/videox/videox.c:153-205 | the source chunk lengths the issuer uses add up to the request length |
| VideoxOps.DestChunksSum | arch/riscv/videox/videox.c:175-233 | the destination chunk lengths the issuer uses add up to the result length |
| VideoxOps.ChunkLengthsSum | arch/riscv/videox/videox.c:334-336 | for a newly admitted operation, the source chunks sum to len and the destination chunks to dest_len (when dest_len fits an int and neither range wraps) |
| VideoxOps.Descs | arch/riscv/videox/videox.c:145-248 | an operation issues exactly src_cnt + dest_cnt descriptors |
| VideoxOps.DescAt | arch/riscv/videox/videox.c:149-246 | the k-th issued descriptor is the first source, then the first destination, then the remaining sources in page order, then the remaining destinations |
| VideoxOps.DescsLayout | arch/riscv/videox/videox.c:155-237 | descriptor k is a source descriptor exactly when k is 0 or between 2 and src_cnt, and the last flag is set on exactly one descriptor, the final source one |
| VideoxOps.PhaseByIssued | arch/riscv/videox/videox.c:148-246 | the phase is fixed by the number of descriptors issued, so phases only move forward; SEND_SRC_REST occurs only if src_cnt > 1, SEND_DEST_REST only if dest_cnt > 1; cursors stay within the page counts; SENT iff everything is issued |
| VideoxOps.StepIssuesNext | arch/riscv/videox/videox.c:148-246 | one issue step sends the next unsent descriptor, issues one more, keeps the cursor invariant and changes nothing but progress |
| VideoxOps.StepConsumesOutstanding | arch/riscv/videox/videox.c:148-246 | a step sends the first outstanding descriptor and leaves the rest; the operation becomes SENT exactly when nothing is left |
| VideoxOps.PutAllShape | arch/riscv/videox/videox.c:326-327 | the release log of a page list has one put_page per page, in order |
| VideoxOps.DirtyPutAllShape | arch/riscv/videox/videox.c:117-122 | each destination page is marked dirty and then put, in page order |
| VideoxOps.CleanupShape | arch/riscv/videox/videox.c:111-124 | op_cleanup releases every page exactly once, sources first, each destination page marked dirty just before its release |
| VideoxQueue.AdvanceSendsNext | arch/riscv/videox/videox.c:145-249 | issuing writes the first descriptor of the outstanding stream, removes it from the stream, keeps the queue invariant and the operations' order, and leaves the page and pin logs alone |
| VideoxQueue.AdvanceShrinks | arch/riscv/videox/videox.c:145-249 | every issue step shortens the outstanding stream, so the loop terminates |
| VideoxQueue.ReclaimReleasesSent | arch/riscv/videox/videox.c:134-143 | reclaiming keeps the queue invariant; a destination depth of 0 always leaves sent_ops empty; what is left of sent_ops and pending_ops is a suffix of what was there, so only the oldest operations are dropped, and exactly the dropped operations' pages are released, oldest first |
| VideoxQueue.HeadStalls | arch/riscv/videox/videox.c:151-226 | pending_ops is empty exactly when the outstanding stream is, and the head is blocked at a reading exactly when the register of the side of the stream's first descriptor reads 128 |
| VideoxQueue.IterateKeeps | arch/riscv/videox/videox.c:128-253 | a pass that does not return keeps the loop invariant: one more descriptor of the stream sent, after a reading that did not stall it, one more reading taken, and operations freed only after a destination depth of 0 |
| VideoxQueue.IterateStops | arch/riscv/videox/videox.c:128-253 | a pass that returns ends the call as PollSpec says: the stream is fully sent or its next descriptor's register read 128 at this reading, and a destination depth of 0 here left sent_ops empty |
| VideoxQueue.IterateShrinks | arch/riscv/videox/videox.c:128-253 | a pass that does not return shortens the outstanding stream, so polling_loop terminates |
| VideoxQueue.RunStop | arch/riscv/videox/videox.c:128-253 | a pass that returns is the last pass of the call |
| VideoxQueue.RunStep | arch/riscv/videox/videox.c:128-253 | a pass that does not return leaves the rest of the call to the next pass: one more descriptor, and its reclaimed operations ahead of the later ones |
| VideoxQueue.IterateCases | arch/riscv/videox/videox.c:128-253 | from a state the loop invariant describes, a pass either ends the call in a PollSpec state or keeps the invariant one pass further |
| VideoxQueue.RunFrom | arch/riscv/videox/videox.c:126-255 | from any state the loop invariant describes, the rest of the call ends in a state PollSpec describes, counting passes and freed operations from the start of the call |
| VideoxQueue.RunMeetsPollSpec | arch/riscv/videox/videox.c:126-255 | every call of polling_loop from a consistent state meets PollSpec |
| VideoxQueue.PollSpecDeterminesProgress | arch/riscv/videox/videox.c:126-255 | PollSpec leaves no choice in how far a call gets: two outcomes it admits from the same state and readings agree on the number sent, the trace, the readings taken and the stream left |
| VideoxQueue.StalledPollSendsNothing | arch/riscv/videox/videox.c:151-226 | when the first reading stalls the head, the call writes no descriptor and the head keeps its phase and cursors |
| VideoxQueue.UnblockedPollDrains | arch/riscv/videox/videox.c:126-255 | when no register ever reads 128, one call sends every outstanding descriptor in order and empties pending_ops |
| VideoxEngine.PinCountExact | arch/riscv/videox/videox.c:325 | a pin reply whose count equals the page count (compared as unsigned long) holds exactly that many pages |
| VideoxEngine.Engine.constructor | arch/riscv/videox/videox.c:80-81 | both lists and all logs start empty |
| VideoxEngine.Engine.Cleanup | arch/riscv/videox/videox.c:111-124 | op_cleanup appends the operation's release events to the page log and changes nothing else |
| VideoxEngine.Engine.ReclaimSent | arch/riscv/videox/videox.c:137-142 | every sent operation is unlinked and cleaned up, in list order |
| VideoxEngine.Engine.IssueHead | arch/riscv/videox/videox.c:145-248 | the head's next descriptor is written low word then high word, and a SENT operation moves to the tail of sent_ops |
| VideoxEngine.Engine.PollPass | arch/riscv/videox/videox.c:128-253 | one loop pass does what Iterate says: read, reclaim, then return or issue |
| VideoxEngine.Engine.Poll | arch/riscv/videox/videox.c:126-255 | polling_loop ends in exactly Run of the starting state, one Iterate pass per loop pass, and so meets PollSpec: it takes n + 1 readings, sends descriptor k of the stream after reading k for each k < n, none of which stalled it, and returns at reading n because the stream is sent or the next descriptor's register reads 128; operations are reclaimed only after a destination depth of 0, their pages released oldest first, and nothing else is lost or reordered |
| VideoxEngine.Engine.PutPages | arch/riscv/videox/videox.c:326-327 | the rollback puts each pinned page once, in order |
| VideoxEngine.Engine.Submit | arch/riscv/videox/videox.c:284-345 | a bad opcode or misalignment gives -EINVAL with no change; a short pin gives -EINVAL after logging both pin calls and releasing exactly the pinned pages, with nothing queued; otherwise the new operation joins the tail of pending_ops and the loop runs once, ending in exactly Run of that state, which meets PollSpec |
| VideoxEngine.Engine.Ioctl | arch/riscv/videox/videox.c:277-349 | cmd 0 runs polling_loop, ending in exactly Run of the state it was given (which meets PollSpec), and reports whether either list is non-empty; cmd 1 submits; any other command returns -ENOSYS and changes nothing |
| VideoxEngine.Gate.constructor | arch/riscv/videox/videox.c:63 | the counter starts at 1 with no holder |
| VideoxEngine.Gate.Open | arch/riscv/videox/videox.c:351-360 | the first open succeeds and takes the device; a second returns -EBUSY with the counter restored |
| VideoxEngine.Gate.Release | arch/riscv/videox/videox.c:362-367 | release makes the device available again |
| Pgtable.MkwriteSetsWrite | arch/riscv/include/asm/pgtable.h:224-227 | pte_write(pte_mkwrite(p)) holds and no other bit changes |
| Pgtable.WrprotectClearsWrite | arch/riscv/include/asm/pgtable.h:217-220 | pte_write(pte_wrprotect(p)) does not hold and no other bit changes |
| Pgtable.MkdirtySetsDirty | arch/riscv/include/asm/pgtable.h:231-234 | pte_dirty(pte_mkdirty(p)) holds and no other bit changes |
| Pgtable.MkcleanClearsDirty | arch/riscv/include/asm/pgtable.h:236-239 | pte_dirty(pte_mkclean(p)) does not hold and no other bit changes |
| Pgtable.MkyoungClearsAccessed | arch/riscv/include/asm/pgtable.h:241-244 | as written, pte_mkyoung yields an entry that is not young; only the accessed bit changes |
| Pgtable.MkoldSetsAccessed | arch/riscv/include/asm/pgtable.h:246-249 | as written, pte_mkold yields an entry that is young; only the accessed bit changes |
| Pgtable.MkyoungIntendedSetsAccessed | arch/riscv/include/asm/pgtable.h:241-244 | the intended pte_mkyoung makes the entry young, changes no other bit, and equals the as-written pte_mkold |
| Pgtable.MkoldIntendedClearsAccessed | arch/riscv/include/asm/pgtable.h:246-249 | the intended pte_mkold makes the entry old, changes no other bit, and equals the as-written pte_mkyoung |
| Pgtable.MkspecialSetsSpecial | arch/riscv/include/asm/pgtable.h:251-254 | pte_special(pte_mkspecial(p)) holds and no other bit changes |
| Pgtable.ModifyKeepsChangeMask | arch/riscv/include/asm/pgtable.h:257-260 | pte_modify keeps the old entry's _PAGE_CHG_MASK bits (or-ed with newprot's) and takes every other bit from newprot |
| Pgtable.PfnRoundTrip | arch/riscv/include/asm/pgtable.h:124-135 | pte_pfn(pfn_pte(pfn, prot)) == pfn when prot is below bit 10 and pfn fits above it; prot is recovered from the low bits |
| Pgtable.IndicesInRange | arch/riscv/include/asm/pgtable.h:103-142 | pgd_index(a) < PTRS_PER_PGD and pte_index(a) < PTRS_PER_PTE |
| Pgtable.StoresReplaceEntry | arch/riscv/include/asm/pgtable.h:87-172 | the stores replace the slot; after pmd_clear the pmd is none and bad (pmd_bad is !pmd_present); after pte_clear the pte is none and not present |
| Pgtable.SwpTypeRoundTrip | arch/riscv/include/asm/pgtable.h:281-295 | __swp_type of a swap entry (through the pte conversions) gives back any type below 32 |
| Pgtable.SwpOffsetRoundTrip | arch/riscv/include/asm/pgtable.h:284-295 | __swp_offset gives back the offset whenever offset << 7 fits in 64 bits |
| Pgtable.SwpEntryNotPresent | arch/riscv/include/asm/pgtable.h:272-292 | bits 0 and 1 of every swap entry are clear, so a swap pte is never present |
| Fb.ILog2 | arch/riscv/video/fb.c:79-80 | ilog2 of a 32-bit value: -1 exactly for 0, else the r with 2^r <= n < 2^(r+1) |
| Fb.Abs | arch/riscv/video/fb.c:76 | abs() of an int other than INT_MIN is its magnitude |
| Fb.PickDepth | arch/riscv/video/fb.c:75-77 | the depth is the sum of the red, green and blue lengths, unless the sum is 0 or differs from bits_per_pixel by 8 or more; then it is bits_per_pixel |
| Fb.Format | arch/riscv/video/fb.c:88-143 | exactly depths 4, 8, 16 and 32 have a layout; in it bits_per_pixel is the depth, the channels lie inside the pixel, do not overlap and fill it, and only depth 4 is grayscale and nonstd |
| Fb.Margin | arch/riscv/video/fb.c:154-155 | for a clamped xres, (xres / 8) & 0xf8 is a multiple of 8 of at most 80 |
| Fb.Clamp | arch/riscv/video/fb.c:147-148 | the clamped value is at most both the value and the limit, and is one of them |
| Fb.CheckVarResult | arch/riscv/video/fb.c:73-158 | with the corrected memory check (see Findings; the code as written is `CheckVarAsWritten`), the result is 0 or -EINVAL; -EINVAL exactly when the mode needs more than 0x400000 of video memory or the depth is not 4, 8, 16 or 32, and then the record is unchanged |
| Fb.AcceptedLayout | arch/riscv/video/fb.c:88-140 | an accepted record has bits_per_pixel equal to the depth and exactly that depth's fixed layout |
| Fb.AcceptedResolution | arch/riscv/video/fb.c:145-148 | an accepted record has zero offsets and the resolution clamped to 640x480 |
| Fb.AcceptedVirtualSize | arch/riscv/video/fb.c:149-150 | xres_virtual is 2^(ilog2(xres - 1) + 1), the least power of two not below the requested xres; yres_virtual is 0x400000 >> log2bpl and at least the requested yres |
| Fb.AcceptedTimings | arch/riscv/video/fb.c:153-155 | pixclock comes from the clamped resolution; left_margin == hsync_len == the margin of the clamped xres, a multiple of 8 of at most 80 |
| Fb.MemoryCheckWraps | arch/riscv/video/fb.c:84 | for a 1025x131072 16-bpp mode the 32-bit shift wraps to 0: the as-written check accepts a mode whose yres_virtual (128) is below its yres (480), and the corrected check rejects it |
| Fb.AcceptedModeIsStable | arch/riscv/video/fb.c:73-158 | a record iris_check_var accepted is accepted again with the same layout and resolution |
| Fb.SetPixelFormat | arch/riscv/video/fb.c:88-143 | the depth switch writes the depth's fixed layout over the record and succeeds exactly for depths 4, 8, 16 and 32; otherwise the record is left alone |
| Fb.SetGeometry | arch/riscv/video/fb.c:145-155 | the tail of iris_check_var leaves the record Normalised: zero offsets, clamped resolution, virtual sizes, and timings from the clamped resolution |
| Fb.CheckVar | arch/riscv/video/fb.c:73-158 | iris_check_var with the corrected memory check (see Findings; the code as written is `CheckVarAsWritten`), updating the record in place, returns and leaves behind exactly CheckVarResult of the record it was given |
| FbDevice.TruecolorRoundTrip | arch/riscv/video/fb.c:54-71 | in each truecolor layout check_var imposes (8, 16, 32 bpp), components that fit their channels come back out of the palette entry setcolreg stores |
| FbDevice.ModeWrites | arch/riscv/video/fb.c:164-169 | set_par writes six registers: disable first, enable last, none of the four in between to the enable register; the depth code and the line length among them |
| FbDevice.PanWrites | arch/riscv/video/fb.c:199-200 | pan_display writes the low word to the base register, then the high word to base-high; together they give back the 64-bit address |
| FbDevice.AcceptedLineLength | arch/riscv/video/fb.c:162-171 | for an accepted mode, line_length is xres_virtual * bits_per_pixel = 2^log2bpl without wrap, and the depth code 5 - log2depth is between 0 and 3 and selects exactly that depth |
| FbDevice.AcceptedFrameFits | arch/riscv/video/fb.c:166-171 | for an accepted mode, yres lines and yres_virtual lines of line_length both fit in video memory |
| FbDevice.PanAddressExact | arch/riscv/video/fb.c:195-198 | without wrap, the pan address is smem_start + yoffset * line_length + xoffset * bits_per_pixel |
| FbDevice.PanInsideMemory | arch/riscv/video/fb.c:193-201 | panning an accepted mode to offsets the virtual screen can show: the address is that exact sum and the visible window ends inside video memory |
| FbDevice.Iris.constructor | arch/riscv/video/fb.c:49-52 | the pseudo palette has 16 zeroed entries and no register was written yet |
| FbDevice.Iris.SetColReg | arch/riscv/video/fb.c:54-71 | truecolor with regno >= 16 gives -EINVAL and no change; truecolor with regno < 16 replaces only entry regno with the or of the four shifted components; any other visual returns 0 with no change |
| FbDevice.Iris.SetPar | arch/riscv/video/fb.c:160-190 | returns 0, appends ModeWrites of the mode to the trace, stores LineLength of the mode, and changes nothing else |
| FbDevice.Iris.PanDisplay | arch/riscv/video/fb.c:193-201 | returns 0, appends PanWrites of PanAddress to the trace, and changes nothing else |

## Left out

- setup.c and init.c are not part of this model. Boot memory setup works through foreign kernel calls, and init.c's `iris_setcolreg` is the same code as the one in fb.c.
- Probe, remove and registration (`iris_probe`, `iris_remove`, `iris_init`, `videox_init`, `videox_exit`) are allocation, `ioremap` and registration calls. The `Iris` constructor takes the visual, mode and video-memory address the probe would set.
- The register offsets of the Iris controller come from vga.h, which is not part of this model. Registers are named, not numbered.
- Foreign calls are not modelled:
  - `get_user_pages` is a reply passed in; `put_page` and `set_page_dirty` are log entries; `ioread32` is the observation stream.
  - `copy_from_user` is the `Request` argument. `put_user` is the `busy` result of `Ioctl`.
  - `mmap_sem` locking and `printk` are left out.
- `op_new` and `op_delete`: the choice between the inline four-slot buffer and a heap buffer is not modelled; the page arrays are sequences. `op_delete`'s free-before-read is outside a value model.
- Concurrency is not modelled. The `available` counter is a sequential counter.
- `BUG()` on an unknown phase is unreachable in the model: the phase is a five-value datatype.
- Engine.Submit: its precondition `SubmitPre` requires that an admitted request spans at least one page on each side. A zero-length request on a page boundary spans none, and the first issue step would read `src[0]`, which was never pinned (`VideoxOps.EmptyAlignedRangeHasNoPages`). The precondition also requires page counts below 2^31 and pin replies no longer than asked for.
- VideoxOps.ChunkLengthsSum: only holds when dest_len fits the `int` field it is stored in and neither range wraps around the address space.
- Engine.Cleanup: models no null checks. Every page an operation holds was pinned, so the `if (op->src[i])` guards are always true there.
- Pgtable.Layout: every single-bit flag is placed below bit 32, because `pte_write`, `pte_dirty`, `pte_young` and `pte_special` return the masked entry as an `int`, which would lose a flag above bit 31.
- Pgtable: `_PAGE_PFN_SHIFT` is taken as 10, where the RISC-V privileged architecture's PTE format puts the page number. `_PAGE_CHG_MASK` and the `_PAGE_TYPE` codes are parameters. The `PAGE_*` protection constants and `pgd_offset`/`pte_offset_*` pointer arithmetic are not modelled.
- Fb.CheckVarResult: implements the corrected memory check of the Findings table, not the 32-bit shift at fb.c:84; the code as written is `Fb.CheckVarAsWritten`.
- Fb.CheckVar: implements the same corrected memory check as `Fb.CheckVarResult`.
- Fb.CheckVar: its precondition `CheckVarDefined` requires log2bpl to be below 32 and, for a supported depth, yres to be at least 1. Otherwise the source shifts by 32 or more or divides by zero at fb.c:153.
- Fb.Abs: states nothing about INT_MIN, whose negation wraps back to itself.
- Fb.ScreenInfo: only the fields the driver reads or writes are modelled, held as one record field updated a field at a time.
- Fb.Margin: the `& 0xf8` mask is written as the equivalent arithmetic `xres / 8 / 8 % 32 * 8`.
- FbDevice.Iris.SetColReg: the colour components are modelled as 32-bit values, like `u_int`.
- FbDevice.Iris.SetColReg: its precondition requires the channel offsets of a truecolor visual with regno below 16 to be below 32; larger shifts are undefined in C.
- FbDevice.Iris.PanDisplay: requires a non-zero line_length and bits_per_pixel. For 0, `ilog2` gives -1 (as `Fb.ILog2` states), and the source's shift by -1 is undefined behaviour in C.
- FbDevice.Iris.SetPar: requires bits_per_pixel of at least 1. For 0, `ilog2` gives -1 and `xres_virtual << -1` is undefined behaviour in C; check_var accepts only depths 4 to 32.
- FbDevice.PanInsideMemory: assumes the video memory does not cross the top of the 64-bit address space.
- FbDevice.Iris.SetPar: the `printk` of the mode is left out.

## Findings

| source | as written | input that shows it | evidently intended | confidence | as-written member | corrected member |
|---|---|---|---|---|---|---|
| arch/riscv/video/fb.c:84 | `var->yres << log2bpl` is computed in 32 bits, so a large product wraps before the comparison with VIDEOMEM_SIZE | xres 1025, yres 131072, 16 bpp: log2bpl is 15 and 131072 << 15 is 2^32, which wraps to 0, so the mode is accepted with yres_virtual 128 below its clamped yres 480 | reject every mode whose yres lines of 2^log2bpl do not fit in video memory | not executed | Fb.MemoryCheckWraps (Fb.CheckVarAsWritten, Fb.MemoryTooLargeAsWritten) | Fb.CheckVarResult with Fb.AcceptedVirtualSize (Fb.MemoryTooLarge) |
| arch/riscv/include/asm/pgtable.h:241-249 | `pte_mkyoung` clears `_PAGE_ACCESSED` and `pte_mkold` sets it | any pte p: `pte_young(pte_mkyoung(p))` is false and `pte_young(pte_mkold(p))` is true | `pte_mkyoung` sets the accessed bit and `pte_mkold` clears it | not executed | Pgtable.MkyoungClearsAccessed, Pgtable.MkoldSetsAccessed (Pgtable.PteMkyoung, Pgtable.PteMkold) | Pgtable.MkyoungIntendedSetsAccessed, Pgtable.MkoldIntendedClearsAccessed (Pgtable.PteMkyoungIntended, Pgtable.PteMkoldIntended) |

# Machina, verified

A Dafny model of the parts of Machina, a QEMU-style JIT emulator, whose correctness
spans several functions or whole runs, with machine-checked proofs. `dafny verify
dfyconfig.toml` checks the whole project.

What is modelled, and the main result of each part:

- **Translation-block cache and chaining** (`Chains`, `TbModel`, `TbLemmas`, `TbCache`,
  `TbExec`). The store is a class over arrays with intrusive hash chains and page lists, the
  code buffer a map from jump instruction to target. In every run of its operations a jump
  patched into a live block lands at the host code of a live block that lists it, lookups find
  the newest live block of a key, finished blocks occupy disjoint host ranges, everything a
  lookup, a cache or a chain leads to has host code, and the page counters are exact while a
  page has at most 255 live blocks. `TbExec.Run` is the statement over all runs; in them the
  block the loop remembers for its next round, and takes unseen, is live.
- **Softfloat** (`PowersOfTwo`, `Rounding`, `SoftFloat`, `FloatValue`, `FloatCorrect`,
  `FloatPack`, `FloatTheorems`, `FloatTiny`). Packing is proved correctly rounded in all six
  modes for every format width, significand, exponent and sign, exactly outside the window of
  inputs below the normal range that round up to the smallest normal number; there the code
  returns zero.
  OVERFLOW, INEXACT and UNDERFLOW are characterised by values, with the exact window in which
  UNDERFLOW differs from the standard's tininess after rounding.
- **Optimizer** (`IrBits`, `IrEval`, `IrFold`, `IrModel`, `Optimizer`, `OptimizerProof`,
  `OptimizerRun`, `OptimizerLimits`, `OptimizerExact`, `OptimizerBroken`, `OptimizerPass`).
  Operations mean native arithmetic, defined apart from the optimizer's evaluator. The
  optimized block runs in lockstep with the original, from every state and in every world,
  when the block meets the premises of each step. Blocks a caller can recognise meet them:
  those in which no move or fold writes a temporary that an earlier move reads, with labels and
  calls only before what they would make false. Where the pass is wrong (moves
  and folds over a copied temporary, constants kept over labels and helper calls, signed
  32-bit comparisons of constants of different sign) the exact condition of each step is
  proved, and for each a block is given with both its runs.
- **Liveness** (`Liveness`). The backward pass sets exactly the flags a forward definition of
  need gives; a value shows in a linear run exactly when it is needed.
- **Call-argument moves** (`CallMoves`). The emitted moves implement the parallel assignment,
  for all register and memory contents, exactly when no cycle of three or more registers is
  among them.
- **Memory flattening** (`StableSort`, `FlatView`, `FlatResolve`, `LittleEndian`,
  `AddressSpace`). The flat view is sorted, disjoint and maps each address as the first
  covering range in priority, address and collection order does; the collected ranges have at
  every address exactly the layers the region tree shows. RAM writes read back through every
  alias.
- **Pause and WFI protocol** (`Monitor`, `MonitorQuit`). Any number of monitor threads, one vCPU and the
  devices are interleaved at every lock and condition-variable operation. No wake-up is lost
  in any run, and requested pauses never get stuck exactly when the waker is registered from
  the start. A quit always gets through, and a thread that requested a stop is never left
  behind, exactly under that condition, in all runs in which no stop is requested after a quit
  and, for stops, the manager does not stop the vCPU; each of these provisos is needed.
- **The .tcgir codec** (`TcgirFormat`, `TcgirRoundTrip`, `TcgirCodec`). Reading any
  concatenation of serialized contexts gives them back, up to the format's sentinels, which
  are characterised exactly.

`Options` holds the option type they share.

Conventions. Integers are unbounded: 32- and 64-bit wrap-around is written out where the code
depends on it, and address sums and generation counters are taken not to overflow. The bucket
hash of the block store is an arbitrary function into the table. Guest translation, host code
emission, device models and helper calls are parameters: the proofs hold for every behaviour
they may have. Steps of the pause protocol are sequentially consistent.

## Model

| member | source | states |
|---|---|---|
| `Chains.Prepend` | accel/src/exec/tb_store.rs:147-160 | prepending the newest index keeps a chain descending and adds exactly that index |
| `Chains.Unlink` | accel/src/exec/tb_store.rs:405-439 | unlinking after a predecessor keeps a chain descending and removes exactly that index |
| `TbModel.LiveJumpLandsLive` | accel/src/exec/exec_loop.rs:692-734 | a jump out of a live block lands at the host code of a live block that lists it and has some, or at its own reset target |
| `TbModel.PathStaysLive` | accel/src/exec/tb_store.rs:164-278 | following any number of patched jumps from a live block reaches live blocks with host code only |
| `TbLemmas.IncomingStep` | accel/src/exec/tb_store.rs:178-188 | resetting one incoming jump of an invalidated block keeps every other edge and where it lands |
| `TbLemmas.DropOutKeeps` | accel/src/exec/tb_store.rs:190-210 | dropping one outgoing edge of an invalidated block, on both sides, keeps all other edges and landings |
| `TbLemmas.AddEdgeKeeps` | accel/src/exec/exec_loop.rs:692-734 | patching a slot to a live block, with both edge lists updated, keeps all edges and landings, also when the slot was chained elsewhere |
| `TbLemmas.PageEmptied` | accel/src/exec/tb_store.rs:286-338 | invalidating exactly the live blocks of a page leaves it none and its counter exact |
| `TbLemmas.SaturationLimit` | accel/src/exec/tb_store.rs:359-388 | dropping a live block keeps the counters exact if and only if at most 255 blocks were live on its page; dropping a stale one if and only if none was |
| `TbCache.TbStore.Alloc` | accel/src/exec/tb_store.rs:78-93 | appends a fresh block with the next index, or none when the store is full, and keeps the store consistent |
| `TbCache.TbStore.Lookup` | accel/src/exec/tb_store.rs:127-144 | finds the newest inserted live block with the key, and none exactly when there is none |
| `TbCache.TbStore.Insert` | accel/src/exec/tb_store.rs:147-160 | makes exactly this block findable; chains stay descending and edges untouched |
| `TbCache.TbStore.MarkCodePage` | accel/src/exec/tb_store.rs:359-376 | counts the block on its page up to saturation and adds exactly it to the page's list; pages past the tracked ones are ignored |
| `TbCache.TbStore.UnlinkPage` | accel/src/exec/tb_store.rs:405-439 | removes exactly the block from its page's list, wherever it stands, and keeps all lists descending |
| `TbCache.TbStore.UnlinkHash` | accel/src/exec/tb_store.rs:212-237 | removes exactly the block from its hash chain and keeps all chains descending |
| `TbCache.TbStore.UnlinkIncoming` | accel/src/exec/tb_store.rs:178-188 | sends every jump into the block back to its reset target and clears the sources' slots |
| `TbCache.TbStore.UnlinkOutgoing` | accel/src/exec/tb_store.rs:190-210 | takes the block out of the incoming lists of the blocks it was chained to; all edges are consistent again |
| `TbCache.TbStore.Invalidate` | accel/src/exec/tb_store.rs:164-237 | only this block becomes invalid and unfindable, no jump goes into it, its page counter drops by one, and the store stays consistent |
| `TbCache.TbStore.InvalidateAll` | accel/src/exec/tb_store.rs:259-278 | no block is live any more, the counters are exact, edges and lists stay consistent |
| `TbCache.TbStore.Flush` | accel/src/exec/tb_store.rs:344-353 | the store is empty, nothing is findable, counters are exact |
| `TbCache.TbStore.LiveOnPage` | accel/src/exec/tb_store.rs:296-318 | the page's list yields each live block of the page exactly once |
| `TbCache.TbStore.InvalidatePhysPage` | accel/src/exec/tb_store.rs:286-338 | afterwards no block of the page is live, blocks of other pages keep their state, counters stay exact; pages from 2^20 on are left alone |
| `TbCache.TbStore.ScanPage` | accel/src/exec/tb_store.rs:325-337 | the fallback scan also leaves no live block on the page and touches no other page |
| `TbExec.ExitRoundTrip` | accel/src/ir/tb.rs:214-236 | decoding an encoded exit gives back the block and slot, or the value, if and only if the value is below 2^32 |
| `TbExec.JumpCache.Insert` | accel/src/ir/tb.rs:288-293 | the entry is found again and only its slot changes |
| `TbExec.JumpCache.Invalidate` | accel/src/ir/tb.rs:305-310 | no lookup finds anything until the next insert |
| `TbExec.RangesGiveDistinctJumps` | accel/src/exec/exec_loop.rs:607-640 | disjoint host ranges mean no two slots share a jump instruction |
| `TbExec.OwnerUnique` | accel/src/exec/exec_loop.rs:607-640 | a host address belongs to at most one finished block |
| `TbExec.TbAddJump` | accel/src/exec/exec_loop.rs:692-734 | a patchable slot to a live block, found and so finished, now jumps to its host code and is on its list; a stale target or unpatchable slot changes nothing; the cache stays consistent |
| `TbExec.JumpLandsInCode` | accel/src/exec/exec_loop.rs:241-251 | every patchable jump of a live block lands inside the emitted code: at the start of the code of a live block that lists it, or past itself in its own block |
| `TbExec.Publish` | accel/src/exec/exec_loop.rs:592-606 | stamping a fresh block with the current generation and marking its page keeps lists, edges, ranges and exact counters |
| `TbExec.Emit` | accel/src/exec/exec_loop.rs:607-640 | the code goes at the cursor, disjoint from all before it, its slots first jump to their reset targets, and the cursor moves past it |
| `TbExec.Discard` | accel/src/exec/exec_loop.rs:585-591 | a block whose guest fetch gave nothing is invalidated and leaves no trace in lists, edges or counters |
| `TbExec.TbGenCode` | accel/src/exec/exec_loop.rs:511-654 | a result is a live block with the key, and findable and cached for cflags 0; a reused one matches the physical address; failure leaves the cursor where it was; at most nine blocks are used up for cflags 0 and one for a single instruction |
| `TbExec.TranslateLoop` | accel/src/exec/exec_loop.rs:545-590 | the retry loop terminates for every cflags and every translator, and keeps code ranges disjoint and everything else consistent however often it rewinds |
| `TbExec.FindAgain` | accel/src/exec/exec_loop.rs:532-543 | the recheck under the lock returns and caches the newest live block of the key if its physical address matches, and nothing exactly when it does not |
| `TbExec.TbFind` | accel/src/exec/exec_loop.rs:452-504 | through the jump cache, the hash table or translation, only a live block with the key and with host code comes back, a block that was there matches the current physical address, and if the newest one does nothing is translated |
| `TbExec.ExitTargetHit` | accel/src/exec/exec_loop.rs:268-308 | the cached exit target is used if and only if it is live and has the key; it then has host code |
| `TbExec.SetExitTarget` | accel/src/exec/exec_loop.rs:319-321 | recording an exit target keeps the cache consistent and changes nothing else |
| `TbExec.HandleDirtyPages` | accel/src/exec/exec_loop.rs:208-225 | with exact counters no block of a tracked dirty page stays live, although only pages counted as code are visited; blocks elsewhere are as before and the jump cache is empty |
| `TbExec.FlushDirtyTbPages` | accel/src/exec/exec_loop.rs:357-374 | after an instruction fence no block of a tracked dirty page is live, whatever the counters were, and none at all if no dirty page was recorded; blocks elsewhere are as before and the jump cache is empty |
| `TbExec.NextBlock` | accel/src/exec/exec_loop.rs:119-135 | the block to execute is the remembered one, taken unseen, or the one found with the key; it has host code and is live if the remembered one was |
| `TbExec.DirectExit` | accel/src/exec/exec_loop.rs:228-253 | the block found is live, finished and has the key, a patchable slot is chained to it, and it is what is remembered |
| `TbExec.IndirectExit` | accel/src/exec/exec_loop.rs:254-322 | what is remembered is the cached exit target, if it fits, or the block found, which becomes it; either is live, finished and has the key |
| `TbExec.InvalidateBlock` | accel/src/exec/tb_store.rs:164-237 | only this block stops being live in the whole cache; exact counters stay exact if and only if its page had at most 255 live blocks, for a live block, or none, for a stale one |
| `TbExec.RecoverBufferFull` | system/src/lib.rs:183-191 | after recovery the store and the jump cache are empty, the cursor is at the start, and everything is consistent |
| `TbExec.Run` | accel/src/exec/exec_loop.rs:55-428 | from an empty store, any sequence of taking the next block, direct and indirect exits, diversions of the guest, dirty pages, fences, invalidation, flushing and recovery keeps consistency; while blocks are dropped by page or in bulk, counters are exact and the remembered block is live and finished |
| `Rounding.StickyRound` | softfloat/src/parts.rs:228-250 | a right shift that keeps lost bits sticky never changes the rounding decision nor exactness, in any mode |
| `Rounding.RoundScale` | softfloat/src/parts.rs:232-238 | scaling value and unit together changes neither |
| `FloatPack.ApplyRounding` | softfloat/src/parts.rs:378-438 | the result is the rounded number of units times the unit |
| `FloatPack.Denormalize` | softfloat/src/parts.rs:280-321 | the significand becomes its sticky shift, and tininess is judged before or after rounding as configured |
| `FloatPack.RoundAndCompose` | softfloat/src/parts.rs:323-372 | rounding, its carry, the overflow test and assembly give the encoding and flags of the rounded number of last places |
| `FloatPack.PackFinite` | softfloat/src/parts.rs:269-372 | the bits and flags are those of the significand the unshifted value rounds to |
| `FloatPack.Pack` | softfloat/src/parts.rs:255-372 | the same for every class of input |
| `FloatPack.NormalizedKeeps` | softfloat/src/parts.rs:228-248 | moving the leading bit into place, left or right, keeps leading exponent, rounded significand and exactness |
| `FloatPack.RoundPack` | softfloat/src/parts.rs:215-251 | every significand that fits the working word packs to the bits and flags of the value passed in |
| `FloatCorrect.RoundedValueCorrect` | softfloat/src/parts.rs:378-438 | the rounded value is the nearest, bracketing or odd representable value the mode asks for, with the exponent range unbounded above |
| `FloatTheorems.RoundPackCorrect` | softfloat/src/parts.rs:215-466 | the packed value is correctly rounded if and only if the input is not in the window that rounds up to the smallest normal number, where the result is zero; past the largest finite value it is the mode's overflow result (sections 4.3 and 7.4 of IEEE 754-2019) |
| `FloatTheorems.TopReached` | softfloat/src/parts.rs:378-438 | a significand below an even bound reaches it by rounding exactly in the window of values under that bound, per mode |
| `FloatTheorems.ReachesNormal` | softfloat/src/parts.rs:347-351 | a value below the normal range rounds to the smallest normal number exactly in that window |
| `FloatTheorems.LostSubnormalExample` | softfloat/src/parts.rs:347-351 | a half-precision input in the window packs to zero |
| `FloatTheorems.OverflowIff` | softfloat/src/parts.rs:330-341 | the overflow branch is taken if and only if the rounded value exceeds the largest finite one |
| `FloatTheorems.OverflowMeaning` | softfloat/src/parts.rs:444-515 | the two overflow results are the infinity and the largest finite number of the format |
| `FloatTheorems.InexactIff` | softfloat/src/parts.rs:323-345 | INEXACT is raised if and only if the packed value differs from the input |
| `FloatTheorems.RoundTrip` | softfloat/src/parts.rs:71-208 | packing an unpacked encoding gives it back bit for bit and raises nothing; a signalling NaN comes back quiet |
| `FloatTiny.UnderflowIff` | softfloat/src/parts.rs:300-320 | UNDERFLOW is raised if and only if the result is inexact and the input is below the normal range and, when detected after rounding, outside that window |
| `FloatTiny.UnboundedCorrect` | softfloat/src/parts.rs:307-315 | the value rounded at unbounded exponent is the correct rounding at the full precision of the format |
| `FloatTiny.TininessExact` | softfloat/src/parts.rs:307-315 | for inexact results the flag agrees with tininess after rounding at unbounded exponent (section 7.5 of IEEE 754-2019) if and only if the input is not in the part of the window that only subnormal precision rounds up |
| `FloatTiny.UnderflowMissedExample` | softfloat/src/parts.rs:307-315 | a half-precision input that is tiny by the standard and raises no UNDERFLOW |
| `IrFold.UnaryNative` | accel/src/optimize.rs:324-346 | the masked evaluation of a unary operation is the native operation, also where bits above the operand type are set |
| `IrFold.ExtNative` | accel/src/optimize.rs:349-378 | the masked evaluation of a width conversion is the native conversion |
| `IrFold.MaskedNative` | accel/src/optimize.rs:431-479 | each of the twelve binary operations evaluated on 64-bit words under the 32-bit mask is native 32-bit arithmetic, counts taken modulo 32 |
| `IrFold.BinaryNative` | accel/src/optimize.rs:431-479 | the evaluation of a binary operation is the native operation at both widths, for all operands |
| `IrFold.LessExact` | accel/src/optimize.rs:37-40 | comparing masked words as signed 64-bit ones agrees with the signed 32-bit order if and only if their signs agree |
| `IrFold.CondExact` | accel/src/optimize.rs:30-50 | folding a comparison agrees with the native comparison if and only if it is not a signed 32-bit comparison of constants of different sign |
| `IrFold.SimplifyCorrect` | accel/src/optimize.rs:484-587 | every algebraic simplification keeps the native value, whatever the unknown operand is |
| `IrFold.SameCorrect` | accel/src/optimize.rs:411-425 | the same-operand identities keep the value |
| `OptimizerProof.ForgetHolds` | accel/src/optimize.rs:194-213 | dropping what is known of the written temporaries and of their copies leaves only true facts |
| `OptimizerProof.ReplaceSound` | accel/src/optimize.rs:256-278 | the move of the new or reused constant writes what the operation wrote, and what is recorded holds |
| `OptimizerProof.MovSound` | accel/src/optimize.rs:304-321 | a move with its source propagated has the same effect and leaves true facts |
| `OptimizerProof.UnarySound` | accel/src/optimize.rs:324-346 | a folded or kept unary operation does what the native one does and leaves true facts |
| `OptimizerProof.ConvertSound` | accel/src/optimize.rs:349-378 | the same for width conversions, also of constants with high bits set |
| `OptimizerProof.BinarySound` | accel/src/optimize.rs:381-428 | the same for folded, simplified, strength-reduced and kept binary operations |
| `OptimizerProof.BrCondSound` | accel/src/optimize.rs:590-621 | a folded branch goes where the original goes |
| `OptimizerProof.OutsideSound` | accel/src/optimize.rs:112-122 | operations outside the pass keep their effect, whatever it is, with propagated inputs |
| `OptimizerRun.CallSound` | accel/src/optimize.rs:97-110 | a helper call that may change any global leaves true facts |
| `OptimizerRun.LabelSound` | accel/src/optimize.rs:97-110 | after a label what is recorded is true of every state |
| `OptimizerRun.VisitSane` | accel/src/optimize.rs:74-172 | every rewrite is well typed, adds constants only and keeps the tables in order |
| `OptimizerRun.OpSame` | accel/src/optimize.rs:74-172 | each rewritten operation, in the finished block, does what the original does there and leaves a true record |
| `OptimizerRun.StepSame` | accel/src/optimize.rs:74-172 | one step of the optimized block is one step of the original |
| `OptimizerRun.Lockstep` | accel/src/optimize.rs:74-172 | for every number of steps, state and world, the optimized block is where the original is: same position, temporaries, world and exit |
| `OptimizerLimits.StraightSafe` | accel/src/optimize.rs:226-247 | blocks meet all premises if no move or foldable operation writes a temporary an earlier move reads, labels come before all moves and foldable operations, calls before those that write another global, and no branch compares signed 32-bit words |
| `OptimizerExact.FlatKept` | accel/src/optimize.rs:177-184 | copies always point at temporaries that are neither known nor copies of another, while the premises are met |
| `OptimizerExact.MovExact` | accel/src/optimize.rs:235-247 | a move keeps what is recorded true in every state if and only if no other temporary is recorded as a copy of its target, or it moves the target to itself |
| `OptimizerExact.FoldExact` | accel/src/optimize.rs:226-278 | a fold keeps what is recorded true in every state if and only if it records no constant or no other temporary is recorded as a copy of its target |
| `OptimizerExact.LabelExact` | accel/src/optimize.rs:187-191 | after a label what is recorded is true of every state if and only if no constant is recorded of a temporary that is not one |
| `OptimizerExact.CallExact` | accel/src/optimize.rs:97-110 | after a call what is recorded is true for every helper if and only if no constant is recorded of a global it does not itself write |
| `OptimizerExact.BranchExact` | accel/src/optimize.rs:590-621 | a folded branch goes where the original goes, from every state, if and only if it does not compare constants of different sign as signed 32-bit words |
| `OptimizerExact.StepExact` | accel/src/optimize.rs:74-172 | any operation of the pass is right in every state and world if and only if its premise is met |
| `OptimizerExact.BlockExact` | accel/src/optimize.rs:74-172 | a block meets all premises if and only if every operation of the pass over it is right in every state its record is true of |
| `OptimizerBroken.SwapBroken` | accel/src/optimize.rs:235-247 | a swap through a temporary, both runs: optimized, it leaves both registers equal |
| `OptimizerBroken.SaveBroken` | accel/src/optimize.rs:226-278 | a constant fold over a saved register, both runs: optimized, the saved value is lost |
| `OptimizerBroken.AskBroken` | accel/src/optimize.rs:97-110 | a helper that changes a register holding a recorded constant, both runs: optimized, the change is ignored |
| `OptimizerBroken.LessBroken` | accel/src/optimize.rs:590-621 | a signed 32-bit branch on minus one below one, both runs: optimized, the block leaves through the other exit |
| `OptimizerBroken.LoopBroken` | accel/src/optimize.rs:187-191 | a counting loop, both runs after any number of rounds: optimized, the counter never gets past its first value |
| `OptimizerPass.InvalidateOne` | accel/src/optimize.rs:623-635 | the loop forgets the temporary and every copy of it |
| `OptimizerPass.InvalidateOutputs` | accel/src/optimize.rs:194-213 | the loops forget exactly the written temporaries and their copies |
| `OptimizerPass.PropagateCopies` | accel/src/optimize.rs:124-131 | exactly the inputs with a recorded copy are replaced |
| `OptimizerPass.Optimize` | accel/src/optimize.rs:74-172 | the pass over a context leaves the operations and temporaries of the specification the lockstep theorem is about |
| `Liveness.NeededStep` | accel/src/liveness.rs:29-74 | how need, defined by a later read or block end with no write in between, moves over one operation |
| `Liveness.VisitOp` | accel/src/liveness.rs:24-78 | one operation of the walk keeps the live set equal to need and sets exactly the right flags |
| `Liveness.Analyse` | accel/src/liveness.rs:9-80 | every operation but Nop and InsnStart gets a dead flag exactly where the definition of need says so, duplicates at the first input only, and a sync flag exactly on dead globals |
| `Liveness.NeededDecides` | accel/src/liveness.rs:9-80 | runs from states that agree on needed values show the same reads and the same globals at every block end |
| `Liveness.NeededShows` | accel/src/liveness.rs:9-80 | runs from states that differ in a needed value show something different, whatever the operations do |
| `Liveness.OutputMatters` | accel/src/liveness.rs:46-55 | replacing an output changes what shows if and only if it is needed and no later output of the operation overwrites it |
| `Liveness.DeadOutputUnused` | accel/src/liveness.rs:46-55 | replacing an output flagged dead changes nothing that shows if and only if no earlier output is the same temporary, or a later one is, or it is not needed |
| `Liveness.DeadInputUnused` | accel/src/liveness.rs:57-73 | replacing a temporary after its first read in an operation changes nothing that shows if and only if that read is flagged dead |
| `Liveness.RepeatedOutput` | accel/src/liveness.rs:46-55 | in a two-output operation with both outputs the same, whatever its inputs, the flag is on the value that is kept and shows |
| `CallMoves.CollectMoves` | accel/src/regalloc.rs:373-395 | register inputs not in place become moves in order, all other inputs are pending in order |
| `CallMoves.Topological` | accel/src/regalloc.rs:401-422 | the emitted moves have their effect, no source still needed is overwritten, and every move left is blocked |
| `CallMoves.LeftoverPermutes` | accel/src/regalloc.rs:423-424 | the moves left permute their registers, each the source of one of them, so they are disjoint cycles, without the scratch register |
| `CallMoves.BreakCycle` | accel/src/regalloc.rs:425-450 | a pass walks exactly one cycle from its first move and marks exactly its moves |
| `CallMoves.ResolveMoves` | accel/src/regalloc.rs:397-450 | the code is the parallel assignment for all registers if and only if there is no cycle of three or more; with one, some target is wrong for some registers |
| `CallMoves.LoadCallArgs` | accel/src/regalloc.rs:354-484 | every input reaches its register, whatever registers and memory hold, if and only if there is no such cycle; constant and memory loads clobber nothing needed |
| `CallMoves.RotationExample` | accel/src/regalloc.rs:432-447 | three inputs rotated among argument registers are such a cycle |
| `StableSort.FindSorted` | memory/src/flat_view.rs:65-67 | the first element with a property after a stable sort is the least one, the earliest among equals |
| `FlatView.AliasDenotes` | memory/src/flat_view.rs:169-255 | an alias shows at base + d exactly what its target has at its offset + d, through any nesting, offsets added up |
| `FlatView.ClippedDenotes` | memory/src/flat_view.rs:227-252 | clipping a container keeps exactly the bytes inside both the window and the subregion |
| `FlatView.CollectDenotes` | memory/src/flat_view.rs:99-163 | the collected ranges have at each address exactly the layers the tree shows there, with their priorities, in order |
| `FlatResolve.InsertRange` | memory/src/flat_view.rs:260-311 | the new range fills exactly what was free, keeps what was there, and all ranges stay disjoint and non-empty |
| `FlatResolve.Resolve` | memory/src/flat_view.rs:69-72 | every address is mapped as by the first covering range |
| `FlatResolve.FromRegion` | memory/src/flat_view.rs:60-77 | the view is sorted and disjoint; an address maps to the winner of priority, address and collection order, and to nothing exactly when no range covers it |
| `FlatResolve.ViewShowsTree` | memory/src/flat_view.rs:60-77 | an address is unmapped if and only if the tree shows nothing there, and else maps to a layer of the highest priority |
| `FlatResolve.Lookup` | memory/src/flat_view.rs:81-93 | the binary search finds the range that holds the address, and nothing exactly when none does |
| `LittleEndian.BytesRoundTrip` | memory/src/address_space.rs:111-122 | writing a number in n bytes and reading them gives it modulo 256^n |
| `AddressSpace.Space.Read` | memory/src/address_space.rs:58-92 | the little-endian value in RAM or ROM, zero where nothing is mapped, the device and region offset for I/O |
| `AddressSpace.Space.Write` | memory/src/address_space.rs:96-131 | stores the low bytes in RAM, drops writes to ROM and to nothing, hands device writes over |
| `AddressSpace.Space.IsMapped` | memory/src/address_space.rs:135-147 | true if and only if the whole access lies in one range |
| `AddressSpace.ReadAfterWrite` | memory/src/address_space.rs:58-131 | a RAM write reads back cut to the access size at every address mapped to the same bytes; all other bytes of all blocks stay |
| `AddressSpace.ReadElsewhere` | memory/src/address_space.rs:58-131 | a load whose bytes a write does not touch keeps its value |
| `AddressSpace.MappedIsSafe` | memory/src/address_space.rs:135-147 | every accepted access stays inside its block if and only if every range but a device's fits its block |
| `AddressSpace.FittingTree` | memory/src/flat_view.rs:99-255 | every access the view of a tree accepts stays inside its block if and only if at every address the winning range does; and so if all leaves fit their blocks and all alias windows their targets |
| `Monitor.StopKeeps` | core/src/monitor.rs:96-114 | every step of request_stop keeps the protocol invariant |
| `Monitor.ContKeeps` | core/src/monitor.rs:117-130 | every step of request_cont keeps it |
| `Monitor.QuitKeeps` | core/src/monitor.rs:133-155 | every step of request_quit keeps it |
| `Monitor.RegisterKeeps` | core/src/monitor.rs:77-85 | every step of set_wfi_waker keeps it |
| `Monitor.CheckKeeps` | core/src/monitor.rs:166-180 | every step of check_pause keeps it |
| `Monitor.WfiKeeps` | core/src/wfi.rs:108-152 | every step of the WFI wait keeps it |
| `Monitor.DeviceKeeps` | core/src/wfi.rs:47-81 | interrupts and both steps of a manager stop keep it |
| `Monitor.LoopKeeps` | accel/src/exec/exec_loop.rs:418-427 | the end of a round, with its external stop test, and the return to the loop around keep it |
| `Monitor.RunKeeps` | core/src/monitor.rs:96-180 | every interleaving of any threads keeps it |
| `Monitor.NoLostWakeUp` | core/src/monitor.rs:96-180 | in every run the machine is paused only while the vCPU is parked, whoever is left waiting un-notified waits for a state still in force, and interrupt edges equal answers plus what is pending |
| `Monitor.AsleepIsWoken` | core/src/wfi.rs:55-62 | with the waker registered, a vCPU asleep in WFI while a pause is requested has a wake-up on its way from a stop or a registration, or the machine is quitting |
| `Monitor.AsleepIsStopped` | core/src/monitor.rs:133-155 | with the waker registered from the start, a vCPU asleep in WFI while the machine quits has the quitting thread still ahead of its wake-up |
| `Monitor.WokenParks` | accel/src/exec/arch_exit.rs:39-56 | a vCPU that took the wake-up stays on its way to the barrier until it parks, and runs no guest code before, unless the request is withdrawn or the machine quits |
| `Monitor.IrqStays` | core/src/wfi.rs:108-115 | an interrupt stays pending until a WFI return answers it, once |
| `Monitor.NeverStuck` | core/src/monitor.rs:96-180 | while a pause is requested of a vCPU that still runs, some thread can move without a spurious wake-up, a device or a new request, once the waker is registered and no stop came between check and registration |
| `Monitor.NeverStuckExact` | core/src/monitor.rs:77-114 | with at least one monitor thread, no run gets stuck on a requested pause if and only if the waker is registered from the start |
| `Monitor.RegistrationRace` | core/src/monitor.rs:77-85 | a stop requested between the check and the registration of the waker can leave the request waiting on a sleeping vCPU, and nothing moves any more |
| `MonitorQuit.QuitNeverStuck` | core/src/monitor.rs:133-180 | with the waker registered from the start, while the machine quits and the vCPU is not gone some thread can move, unless a stop was requested after a quit while the vCPU was between its test for the quit and the lock |
| `MonitorQuit.QuitExact` | core/src/monitor.rs:133-180 | with at least one monitor thread, no run without a stop after a quit gets stuck on a quit if and only if the waker is registered from the start; some run with such a stop does even then |
| `MonitorQuit.QuitLost` | core/src/monitor.rs:166-180 | a stop requested after a quit can park a vCPU that had passed its test for the quit: nothing moves any more |
| `MonitorQuit.SleptThrough` | core/src/monitor.rs:133-155 | a quit that finds no waker leaves a vCPU asleep in WFI: nothing moves any more |
| `MonitorQuit.StopNeverStuck` | core/src/monitor.rs:96-114 | with the waker registered from the start, while a thread is in request_stop some thread can move, also when the vCPU is gone, if the manager does not stop the vCPU and no stop is requested after a quit |
| `MonitorQuit.StopExact` | core/src/monitor.rs:96-114 | with at least one monitor thread, no run with neither a manager stop nor a stop after a quit leaves a thread stuck in request_stop if and only if the waker is registered from the start; some run with only the one, and some with only the other, does even then |
| `MonitorQuit.StopAfterManager` | core/src/monitor.rs:96-114 | a stop after the manager stopped the vCPU, and the vCPU left, waits on: nothing moves any more |
| `MonitorQuit.StopAfterExit` | core/src/monitor.rs:96-114 | so does a stop after a quit, once the vCPU left |
| `TcgirRoundTrip.TempBack` | accel/src/ir/serialize.rs:184-195 | an encoded temporary reads back with all its fields, sentinels as nothing |
| `TcgirRoundTrip.OpBack` | accel/src/ir/serialize.rs:197-209 | an encoded operation reads back with its used argument slots, the others zero |
| `TcgirRoundTrip.BodyBack` | accel/src/ir/serialize.rs:248-348 | a serialized body reads back as the context, names resolved and labels recounted |
| `TcgirRoundTrip.DecodeOne` | accel/src/ir/serialize.rs:216-246 | one serialized context in front of any bytes is read, and the rest is read as if alone |
| `TcgirRoundTrip.FileBack` | accel/src/ir/serialize.rs:216-246 | any concatenation of serialized contexts, and up to three bytes more, reads back as exactly those contexts in order |
| `TcgirRoundTrip.KeptExact` | accel/src/ir/serialize.rs:163-212 | a context survives unchanged if and only if no field equals its sentinel, unused slots are zero and the labels are those the operations name |
| `TcgirCodec.StringTable.Intern` | accel/src/ir/serialize.rs:125-133 | a known name keeps its index, a new one gets the next, and index and table agree |
| `TcgirCodec.InternNames` | accel/src/ir/serialize.rs:172-182 | every temporary gets the index of its name in the final table, or the sentinel |
| `TcgirCodec.Serialize` | accel/src/ir/serialize.rs:163-212 | appends exactly the encoding of the context |
| `TcgirCodec.DeserializeTb` | accel/src/ir/serialize.rs:248-348 | reads one body as the format defines, errors included |
| `TcgirCodec.CountLabels` | accel/src/ir/serialize.rs:327-345 | creates as many labels as the operations name |
| `TcgirCodec.Deserialize` | accel/src/ir/serialize.rs:216-246 | reads until fewer than four bytes are left, with every other shortfall or mismatch an error |

## Left out

- OptimizerRun.Lockstep: its premise is exact for the operations of the pass (`BlockExact`), not for the outcome of a whole block, because a false record that nothing later reads does no harm.
- Monitor.NeverStuck: when the machine also quits, the waker must be registered from the start, since a quit that finds no waker wakes nobody.
- That guest code returns to the execution loop: the theorems about stops and quits count a vCPU in guest code as able to move. A quit breaks chains of blocks for this, a stop does not.
- Several vCPUs over one block store: `TbExec.Run` has one jump cache and one remembered block, which another vCPU's invalidation could make stale.
- CallMoves.LoadCallArgs: assumes memory inputs are addressed through registers that are neither argument targets nor the scratch register, as the reserved frame and environment registers are.
- TbCache.TbStore.InvalidatePhysPage: blocks on pages from 2^20 on stay live, as in the code.
- Optimizer operations of I128 and vector types, and stores that reach a global's field in memory: an operation outside the pass writes its outputs and the world only, and helper calls alone change globals unnamed.
- x86 encodings and the SoftMMU fast path: a patch sets the target of a jump slot, nothing finer is modelled.
- The rest of the register allocator: it depends on conditions on register maps that the code does not state.
- x87 extended precision, its pseudo and unnormal encodings, and the softfloat arithmetic operations above packing.
- Breakpoints of the execution loop, when it single-steps, and the pause it shares with the GDB server.
- Guest CPUs, MMU, CSRs, devices, the GDB server, tracing, the command line and the monitor's text and JSON front ends.
- Sixty-four bit overflow of guest address sums and wrap-around of generation counters.
- Memory orderings weaker than sequential consistency.
- The distinction between end-of-file, invalid-data and panic on malformed .tcgir input: all are one error.

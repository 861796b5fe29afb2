# AIR lowering and linalg code generation, modelled in Dafny

This project models two passes of the MLIR-AIR compiler for AI Engine arrays.

**`air-to-std` (AIRLoweringPass).** This pass lowers the AIR dialect toward the AIR runtime, or toward plain calls for CPU emulation. The model covers:

- A `air.herd_launch` becomes a nest of two affine loops tagged `outer` and `inner`. The launch's tile ids, herd sizes and kernel arguments are replaced by the loops' induction variables and by the launch's operands. The body is spliced into the inner loop. An `airrt.herd_load` is emitted when the launch has a symbol name (`HerdLowering`).
- The tile coordinate of a DMA copy is recovered from its enclosing ops. That is either the launch's tile ids or the induction variables of the two nearest loops carrying `air.herd_launch` (`Coordinates`).
- A DMA copy (1-d, 2-d, 4-d) is converted in one of two ways (`DmaLowering`):
  - to an `airrt.dma_memcpy*` op: the copy is classified by memory spaces, an id constant is added, the tile-side buffer and its offsets are dropped, and index operands are widened to i64;
  - to a call of `air_memcpy`, `air_memcpy2d` or `air_memcpy4d`.
- The pass itself (`LoweringPass`):
  - the pattern set chosen by `lower-to-cpu`;
  - the L2 alloc and dealloc conversions;
  - the legality rules of the conversion target;
  - the partial conversion failing exactly when an illegal op remains.

**`air-linalg-codegen` (AIRLinalgCodegen).** This pass tiles and promotes linalg ops onto the herd. The model covers:

- The hand-written rewrite patterns (`SubViewFold`, `CodegenPatterns`, over the memref ops of `MemRefOps`):
  - folding a subview of a subview, with its offset arithmetic;
  - replacing a subview of a view of an alloc by a fresh alloc in fast memory;
  - refining an alloc's dynamic dimensions from constant size operands;
  - eliminating an alloc whose contents are only copied out through a cast.
- The constants the pass hard-codes (`TileSizes`):
  - default herd sizes and how the `herd-size` option overrides them;
  - L1 and L2 tile sizes;
  - conv2d tile sizes computed with C integer division;
  - loop interchanges.
- The staged pattern application (`CodegenPass`):
  - linalg tiling and promotion patterns guarded by transformation-filter markers;
  - the driver that applies them until none matches;
  - the stages of the matmul, conv2d and generic pipelines;
  - the `test-patterns` switch;
  - the order in which `runOnFunction` processes a function's ops.

`Ir` holds the shared IR vocabulary. It has values as expressions (SSA values, index and integer constants, casts, additions), ops with nested blocks, memory spaces (L3 = 0, L2 = 1, L1 = 2), substitution (`replaceAllUsesWith`), and paths to nested ops with the chain of their enclosing ops.

Some behaviour of the code is easy to misread; the model follows the code:

- Alloc-copy elimination casts operand 1 of the copy, the copy's target, and not its source.
- In CPU mode, an L2 alloc or dealloc makes the pass fail. No pattern is registered for them, yet they stay illegal.
- The subview fold zips the two static-offset lists, so it covers only the common prefix. It compares layout maps only over the shorter list and never looks at strides.
- The generic pipeline computes a herd size from the option but never uses it. The `L1-size` option is never read.
- Herd sizes must be constant index values (`ConstantIndexOp`): `cast<ConstantIndexOp>` asserts on anything else. `HerdLowering.Lowerable` makes this a precondition.

## Model

| member | source | states |
|---|---|---|
| Ir.SubstOpsThenReplace | mlir/lib/Conversion/AIRLoweringPass.cpp:343-350 | one more replaceAllUsesWith after a simultaneous substitution is the substitution extended by one entry, provided the replaced value does not occur in earlier replacements |
| Ir.SubstOpsRemoves | mlir/lib/Conversion/AIRLoweringPass.cpp:343-350 | after replacing all uses of a value, no op of any nested block uses it |
| Ir.SubstKeepsPaths | mlir/lib/Conversion/AIRLoweringPass.cpp:343-350 | replacing uses moves no op: every op keeps its position and its chain of enclosing ops |
| Coordinates.NearestTaggedFor | mlir/lib/Conversion/AIRLoweringPass.cpp:379-381 | the found position holds a loop carrying `air.herd_launch`; none closer does; None exactly when no such loop is further out |
| Coordinates.EnclosingLaunch | mlir/lib/Conversion/AIRLoweringPass.cpp:377 | None exactly when no herd launch encloses the op; otherwise the tile ids of an enclosing launch |
| Coordinates.EnclosingLaunchPrefix | mlir/lib/Conversion/AIRLoweringPass.cpp:377 | the launch found is the nearest enclosing one |
| Coordinates.FindTaggedLoop | mlir/lib/Conversion/AIRLoweringPass.cpp:379-381 | the outward while loop returns the nearest tagged loop at or beyond its start |
| Coordinates.TileCoordsAsWritten | mlir/lib/Conversion/AIRLoweringPass.cpp:376-395 | inside a launch, the nearest launch's tile ids; otherwise (nearest tagged loop's iv, next tagged loop's iv); None exactly when there is no launch and fewer than two tagged loops |
| Coordinates.TileCoords | mlir/lib/Conversion/AIRLoweringPass.cpp:376-395 | the intended coordinate: the same launch ids and the same None cases, with the pair from the two nearest tagged loops taken outer loop first |
| Coordinates.RecoverTileCoords | mlir/lib/Conversion/AIRLoweringPass.cpp:376-395 | the recovery both conversions perform computes `TileCoordsAsWritten`: the launch's tile ids inside a launch, otherwise the nearest tagged loop's induction variable first and the next one's second, None when there are fewer than two tagged loops |
| Coordinates.InsideLaunch | mlir/lib/Conversion/AIRLoweringPass.cpp:391-395 | inside an unlowered launch, both versions give the launch's (x, y) tile ids |
| Coordinates.LoweredNest | mlir/lib/Conversion/AIRLoweringPass.cpp:378-390 | below an `inner`/`outer` loop nest the intended pair is (outer iv, inner iv), while the code as written yields (inner iv, outer iv) |
| Coordinates.TagValueIgnoredSearch | mlir/lib/Conversion/AIRLoweringPass.cpp:380-381 | the search tests only the attribute's presence: changing its value does not change the loop found |
| Coordinates.TagValueIgnored | mlir/lib/Conversion/AIRLoweringPass.cpp:380-387 | neither version of the coordinate depends on the attribute's value |
| Coordinates.AsWrittenTransposed | mlir/lib/Conversion/AIRLoweringPass.cpp:383-389 | outside a launch, the two versions succeed on the same chains and differ exactly by swapping the pair |
| HerdLowering.LowerHerdLaunch | mlir/lib/Conversion/AIRLoweringPass.cpp:317-357 | the rewrite, performed step by step with its replaceAllUsesWith calls, yields the lowered ops `LoweredHerd` |
| HerdLowering.LoweredHerd | mlir/lib/Conversion/AIRLoweringPass.cpp:317-357 | the replacing ops are a herd_load exactly when the launch has a symbol name, then one loop over the outer induction variable bounded by the launch's x size |
| HerdLowering.PrefixMapEntries | mlir/lib/Conversion/AIRLoweringPass.cpp:343-350 | each entry of the accumulated substitution comes from one of the replaceAllUsesWith calls made so far |
| HerdLowering.PrefixMapLookup | mlir/lib/Conversion/AIRLoweringPass.cpp:343-350 | with distinct block arguments, the accumulated substitution sends each replaced argument to its replacement |
| HerdLowering.ReplaceStep | mlir/lib/Conversion/AIRLoweringPass.cpp:343-350 | each replaceAllUsesWith call extends the accumulated substitution by its own pair |
| HerdLowering.PlaceholdersReplaced | mlir/lib/Conversion/AIRLoweringPass.cpp:343-350 | tile x goes to the outer iv, tile y to the inner iv, each size argument to its size operand, and kernel argument j to kernel operand j |
| HerdLowering.NoPlaceholderUses | mlir/lib/Conversion/AIRLoweringPass.cpp:343-355 | after lowering, no op uses any block argument of the launch |
| HerdLowering.LoweredNestShape | mlir/lib/Conversion/AIRLoweringPass.cpp:327-341 | a herd_load exactly when the launch has a symbol name, then an outer loop tagged `outer` over 0..size x holding an inner loop tagged `inner` over 0..size y and its terminator, the inner body as long as the launch body |
| HerdLowering.NestPaths | mlir/lib/Conversion/AIRLoweringPass.cpp:352-354 | an op of a body spliced into the nest is found below the inner loop, then the outer loop, at its old path |
| HerdLowering.BodyMovesIntoInnerLoop | mlir/lib/Conversion/AIRLoweringPass.cpp:352-354 | every op of the body except the terminator ends up inside the inner loop, with its uses substituted |
| HerdLowering.CoordinatesAgreeAcrossLowering | mlir/lib/Conversion/AIRLoweringPass.cpp:340-346 | a copy in the body gets the same tile coordinate before and after herd lowering, (tile x, tile y) becoming (outer iv, inner iv) |
| HerdLowering.AsWrittenDisagreesAcrossLowering | mlir/lib/Conversion/AIRLoweringPass.cpp:383-389 | with the code as written, a copy converted after herd lowering receives (inner iv, outer iv), which is not the image of (tile x, tile y) |
| DmaLowering.Classify | mlir/lib/Conversion/AIRLoweringPass.cpp:419-437 | from-tile exactly for L1 to L3 or L2; to-tile exactly for L3 or L2 to L1; None for every other pair |
| DmaLowering.ClassifySwap | mlir/lib/Conversion/AIRLoweringPass.cpp:419-437 | swapping source and destination spaces turns from-tile into to-tile and keeps the unsupported pairs unsupported |
| DmaLowering.IdConstant | mlir/lib/Conversion/AIRLoweringPass.cpp:441-446 | an i32 constant equal to the `id` attribute, or 0 when it is absent |
| DmaLowering.Erase | mlir/lib/Conversion/AIRLoweringPass.cpp:474 | erasing position i shortens the list by one and shifts the later entries down |
| DmaLowering.DropTileOperands | mlir/lib/Conversion/AIRLoweringPass.cpp:473-482 | the erase loops compute `Dropped` |
| DmaLowering.Dropped | mlir/lib/Conversion/AIRLoweringPass.cpp:473-482 | one buffer and its n offsets leave the list; the id and the coordinate stay in front; from tile the destination and what follows both offset lists stay, to tile the source and its offsets stay |
| DmaLowering.DroppedKeepsExternalSide | mlir/lib/Conversion/AIRLoweringPass.cpp:473-482 | from tile, the list keeps the destination and its offsets; to tile, it keeps the source and its offsets; id, coordinates and trailing operands are kept in both |
| DmaLowering.Widen | mlir/lib/Conversion/AIRLoweringPass.cpp:486-488 | the result is never index-typed, non-index values are unchanged, and the integer value is kept |
| DmaLowering.Widened | mlir/lib/Conversion/AIRLoweringPass.cpp:485-490 | every operand is widened in place, the length is kept |
| DmaLowering.WidenIndexOperands | mlir/lib/Conversion/AIRLoweringPass.cpp:485-490 | the index_cast loop computes `Widened` |
| DmaLowering.PushOperands | mlir/lib/Conversion/AIRLoweringPass.cpp:470-471 | the copy's operands are appended in order |
| DmaLowering.RtOpFor | mlir/lib/Conversion/AIRLoweringPass.cpp:492-498 | an AIR-RT op exists exactly for 1, 2 and 4 dimensions, with that dimension count |
| DmaLowering.RtOpForKind | mlir/lib/Conversion/AIRLoweringPass.cpp:492-498 | selecting by dimension count gives back the copy's own kind |
| DmaLowering.AirRtMemcpy | mlir/lib/Conversion/AIRLoweringPass.cpp:411-501 | for the coordinate the conversion recovered: fails exactly on an unsupported space pair or a missing coordinate; otherwise an op of the copy's kind, with one buffer and its offsets fewer than the id, the coordinate and the copy's operands, none of them index-typed |
| DmaLowering.ConvertDmaMemcpyToAirRt | mlir/lib/Conversion/AIRLoweringPass.cpp:411-501 | the imperative conversion computes `AirRtMemcpy` with the coordinate as written, `TileCoordsAsWritten` |
| DmaLowering.MemcpyFnCall | mlir/lib/Conversion/AIRLoweringPass.cpp:361-409 | for the coordinate the conversion recovered: fails exactly when there is none; otherwise a call with an i32 id, that coordinate, then all the copy's operands |
| DmaLowering.ConvertDmaMemcpyToMemcpyFn | mlir/lib/Conversion/AIRLoweringPass.cpp:361-409 | the imperative conversion computes `MemcpyFnCall` with the coordinate as written, `TileCoordsAsWritten` |
| DmaLowering.CpuAndRuntimeAgree | mlir/lib/Conversion/AIRLoweringPass.cpp:470-490 | when the runtime conversion succeeds so does the call conversion, and the runtime operands are the call's operands with the tile side dropped and widened |
| DmaLowering.CallCoordinatesInLoweredNest | mlir/lib/Conversion/AIRLoweringPass.cpp:376-398 | below a lowered herd the call as written is `[id, inner iv, outer iv] + operands`, where the intended coordinate gives `[id, outer iv, inner iv] + operands` |
| DmaLowering.RuntimeOperandsWidened | mlir/lib/Conversion/AIRLoweringPass.cpp:484-490 | no runtime operand is index-typed, and each evaluates to the same integer as the operand it replaces |
| LoweringPass.Patterns | mlir/lib/Conversion/AIRLoweringPass.cpp:675-689 | herd conversion always; the L2 alloc and dealloc conversions exactly when not lowering to CPU |
| LoweringPass.DmaPatternsRegistered | mlir/lib/Conversion/AIRLoweringPass.cpp:675-688 | each copy kind gets its call conversion exactly in CPU mode and its runtime conversion exactly otherwise |
| LoweringPass.AllocLegal | mlir/lib/Conversion/AIRLoweringPass.cpp:707-714 | the legality callbacks: an alloc or dealloc of an L2 buffer is illegal, one in L1 or L3 memory is legal |
| LoweringPass.L2Alloc | mlir/lib/Conversion/AIRLoweringPass.cpp:605-622 | succeeds exactly on an L2 buffer, producing an `airrt.alloc` of the same type |
| LoweringPass.L2Dealloc | mlir/lib/Conversion/AIRLoweringPass.cpp:624-641 | succeeds exactly on an L2 buffer, producing an `airrt.dealloc` of the same operand |
| LoweringPass.LowerItem | mlir/lib/Conversion/AIRLoweringPass.cpp:665-714 | a launch is always lowered; a copy is lowered exactly when the coordinate as written exists and, for the runtime, its spaces are supported, into a call or an AIR-RT op of its kind; an alloc or dealloc is rewritten exactly in runtime mode on L2; whatever is rewritten was rewritten by a pattern the mode registers; the rest is kept |
| LoweringPass.LowerModule | mlir/lib/Conversion/AIRLoweringPass.cpp:707-719 | the conversion fails exactly when some op is illegal after its pattern was tried; otherwise every op is lowered as `LowerItem` says |
| LoweringPass.LowerItemLegal | mlir/lib/Conversion/AIRLoweringPass.cpp:707-714 | an op is left illegal exactly when it is an L2 alloc or dealloc and the CPU mode is chosen |
| LoweringPass.RuntimeModeSucceeds | mlir/lib/Conversion/AIRLoweringPass.cpp:716-719 | without `lower-to-cpu` the conversion succeeds and every L2 alloc or dealloc becomes its runtime op |
| LoweringPass.CpuModeFailsOnL2 | mlir/lib/Conversion/AIRLoweringPass.cpp:716-719 | with `lower-to-cpu` the pass fails exactly when the module holds an L2 alloc or dealloc |
| LoweringPass.OtherMemoryKept | mlir/lib/Conversion/AIRLoweringPass.cpp:707-714 | allocs and deallocs outside L2 are kept in both modes |
| LoweringPass.FailedCopyKept | mlir/lib/Conversion/AIRLoweringPass.cpp:508-517 | a copy whose conversion fails stays in place and is legal, so it does not fail the pass |
| MemRefOps.CountDynamicSplit | mlir/lib/Transform/AIRLinalgCodegen.cpp:55-88 | dynamic entries of a concatenation add up |
| MemRefOps.CountDynamicZero | mlir/lib/Transform/AIRLinalgCodegen.cpp:106-107 | no dynamic entry exactly when every entry is a static size (`hasStaticShape`) |
| MemRefOps.CountDynamicAll | mlir/lib/Transform/AIRLinalgCodegen.cpp:110-111 | every entry is dynamic exactly when the count equals the length |
| SubViewFold.Pushed | mlir/lib/Transform/AIRLinalgCodegen.cpp:58-87 | a combined dimension contributes exactly one operand when either side is dynamic, none otherwise |
| SubViewFold.CombineStatic | mlir/lib/Transform/AIRLinalgCodegen.cpp:58-87 | a combined dimension is dynamic exactly when either side is, then carries the source's marker when the source is dynamic and the op's otherwise; two static offsets add up |
| SubViewFold.PushedMeaning | mlir/lib/Transform/AIRLinalgCodegen.cpp:58-87 | a combined dimension's offset evaluates to the sum of the two offsets |
| SubViewFold.CombineDim | mlir/lib/Transform/AIRLinalgCodegen.cpp:56-87 | the loop body's four branches produce the combined static entry and operand, advancing each cursor past one operand exactly when its side is dynamic |
| SubViewFold.Fold | mlir/lib/Transform/AIRLinalgCodegen.cpp:55-88 | one static entry per dimension of the common prefix, dynamic when either side is, with one operand per dynamic entry |
| SubViewFold.FoldOffsets | mlir/lib/Transform/AIRLinalgCodegen.cpp:46-88 | the two-cursor loop computes `Fold` |
| SubViewFold.FoldSubView | mlir/lib/Transform/AIRLinalgCodegen.cpp:31-98 | applies exactly when the source is a subview with agreeing layouts; the result is well formed, views the inner source, and keeps the outer type, sizes and strides |
| SubViewFold.FoldSubViewOps | mlir/lib/Transform/AIRLinalgCodegen.cpp:34-97 | the pattern computes `FoldSubView` |
| SubViewFold.FoldMeaning | mlir/lib/Transform/AIRLinalgCodegen.cpp:55-88 | the folded offsets evaluate to the sum of the two subviews' offsets in every dimension |
| SubViewFold.AllStaticFold | mlir/lib/Transform/AIRLinalgCodegen.cpp:58-59 | with all offsets static the fold is the elementwise sum and needs no operand |
| SubViewFold.CombineStaticAssoc | mlir/lib/Transform/AIRLinalgCodegen.cpp:58-86 | combining static entries is associative |
| SubViewFold.FoldStaticsAssociative | mlir/lib/Transform/AIRLinalgCodegen.cpp:55-88 | folding a chain of three subviews gives the same static offsets whichever pair is folded first |
| SubViewFold.FoldAssociative | mlir/lib/Transform/AIRLinalgCodegen.cpp:55-88 | folding a chain of three subviews in either order gives the same static offsets and the same offset values |
| SubViewFold.FoldOperandCount | mlir/lib/Transform/AIRLinalgCodegen.cpp:55-88 | the number of offset operands is the number of dimensions where either side is dynamic |
| SubViewFold.FoldDynamicWhereEither | mlir/lib/Transform/AIRLinalgCodegen.cpp:58-87 | a folded dimension is dynamic exactly when one of its two dimensions is |
| CodegenPatterns.ViewedAlloc | mlir/lib/Transform/AIRLinalgCodegen.cpp:171-176 | found exactly when the subview's source is a view whose source is an alloc, and it is that alloc |
| CodegenPatterns.RemoveSubView | mlir/lib/Transform/AIRLinalgCodegen.cpp:169-186 | applies exactly when there is a viewed alloc; the new alloc has the subview's shape and element type, no layout, the fast space and the subview's sizes, and it is recorded as an alloc; every use of the subview and of the old alloc is redirected, the view the match went through included |
| CodegenPatterns.RedirectUsesRemoves | mlir/lib/Transform/AIRLinalgCodegen.cpp:179-184 | redirecting the subview's and the alloc's uses to the new alloc is one simultaneous substitution and leaves no use of either |
| CodegenPatterns.RemoveSubViewRedirects | mlir/lib/Transform/AIRLinalgCodegen.cpp:179-184 | after the pattern, no op uses the subview or the old alloc, the subview is no longer defined, and no view reads either of them |
| CodegenPatterns.RemoveSubViewRematches | mlir/lib/Transform/AIRLinalgCodegen.cpp:171-184 | after the pattern, a second subview of the same view matches again, with the first new alloc as its viewed alloc |
| CodegenPatterns.RemoveSubViewMergesBuffers | mlir/lib/Transform/AIRLinalgCodegen.cpp:169-186 | with two subviews of one view, each used once, rewriting both leaves both users on the second new alloc |
| CodegenPatterns.RemoveSubViewKeepingView | mlir/lib/Transform/AIRLinalgCodegen.cpp:169-186 | applies exactly when the pattern does, with the same new alloc and the same ops; only the view keeps reading the old alloc |
| CodegenPatterns.KeepingViewMatchesOldAlloc | mlir/lib/Transform/AIRLinalgCodegen.cpp:171-184 | with the view left alone, a second subview of it still finds the original alloc |
| CodegenPatterns.KeepingViewSeparateBuffers | mlir/lib/Transform/AIRLinalgCodegen.cpp:169-186 | on the same two subviews, each user gets its own new alloc |
| CodegenPatterns.Refine | mlir/lib/Transform/AIRLinalgCodegen.cpp:113-118 | a dimension takes its size operand's value when that is a constant index, and keeps its old entry otherwise |
| CodegenPatterns.RefineShape | mlir/lib/Transform/AIRLinalgCodegen.cpp:113-118 | the loop over the operands computes `Refine` |
| CodegenPatterns.KeptSizes | mlir/lib/Transform/AIRLinalgCodegen.cpp:119-121 | exactly one size operand is kept per dimension still dynamic |
| CodegenPatterns.MemrefsAsWritten | mlir/lib/Transform/AIRLinalgCodegen.cpp:103-121 | applies exactly to a non-static alloc with one operand per dimension; the new alloc has the refined type and no size operands |
| CodegenPatterns.MemrefsAsWrittenWellFormed | mlir/lib/Transform/AIRLinalgCodegen.cpp:119-121 | the alloc built as written is well formed exactly when every size operand was a non-negative constant |
| CodegenPatterns.MemrefsAsWrittenCounterexample | mlir/lib/Transform/AIRLinalgCodegen.cpp:119-121 | sizes `[4, %n]` on `memref<?x?xf32>` give `memref<4x?xf32>` with no size operand, which is ill formed |
| CodegenPatterns.Memrefs | mlir/lib/Transform/AIRLinalgCodegen.cpp:103-121 | applies under the same guard; the new alloc has the refined type and is well formed |
| CodegenPatterns.MemrefsApplies | mlir/lib/Transform/AIRLinalgCodegen.cpp:105-111 | on a well-formed alloc, the guard holds exactly when the shape is non-empty and entirely dynamic |
| CodegenPatterns.RefineKeepsExtents | mlir/lib/Transform/AIRLinalgCodegen.cpp:113-118 | refining the shape keeps every dimension's extent |
| CodegenPatterns.MemrefsKeepsExtents | mlir/lib/Transform/AIRLinalgCodegen.cpp:113-121 | the corrected alloc allocates the same extents as the original in every dimension |
| CodegenPatterns.LastCast | mlir/lib/Transform/AIRLinalgCodegen.cpp:215-217 | the position of the last cast among the uses, None when there is none |
| CodegenPatterns.AllocCopy | mlir/lib/Transform/AIRLinalgCodegen.cpp:205-238 | erased exactly when unused; replaced exactly when no linalg op initialises from it, a linalg op uses it, and its last cast has one user, a copy; the replacement is a cast of that copy's target |
| CodegenPatterns.RemoveAllocLinalgOpCopy | mlir/lib/Transform/AIRLinalgCodegen.cpp:208-237 | the scan over the uses computes `AllocCopy` |
| TileSizes.OverrideAsWritten | mlir/lib/Transform/AIRLinalgCodegen.cpp:293-297 | undefined exactly when the option has more entries than the vector; otherwise the option's entries followed by the remaining defaults |
| TileSizes.OverrideHerdSize | mlir/lib/Transform/AIRLinalgCodegen.cpp:361-364 | the herd size keeps the vector's length |
| TileSizes.ApplyHerdSizeOption | mlir/lib/Transform/AIRLinalgCodegen.cpp:361-364 | the bounded loop overwrites the array with `OverrideHerdSize` of its old contents |
| TileSizes.OverrideHerdSizeEntries | mlir/lib/Transform/AIRLinalgCodegen.cpp:361-364 | dimension i is the option's entry when it has one, else the default |
| TileSizes.OverrideAgreesWhenFits | mlir/lib/Transform/AIRLinalgCodegen.cpp:293-297 | whenever the option fits, the corrected override equals the code as written |
| TileSizes.GenericOverrunsOnMatmulOption | mlir/lib/Transform/AIRLinalgCodegen.cpp:293-297 | `herd-size=2,2,2`, valid for matmul, overruns the generic op's two-entry vector |
| TileSizes.MatmulOverrunsOnFourEntries | mlir/lib/Transform/AIRLinalgCodegen.cpp:361-364 | a four-entry option overruns the matmul's three-entry vector, where the bounded override keeps three entries |
| TileSizes.OverrideIdempotent | mlir/lib/Transform/AIRLinalgCodegen.cpp:361-364 | applying the option twice equals applying it once |
| TileSizes.OverrideEmpty | mlir/lib/Transform/AIRLinalgCodegen.cpp:361-364 | without the option the defaults stand |
| TileSizes.MatmulL2Tile | mlir/lib/Transform/AIRLinalgCodegen.cpp:366-369 | three L2 tile sizes |
| TileSizes.MatmulL2TileHoldsHerd | mlir/lib/Transform/AIRLinalgCodegen.cpp:366-369 | each L2 tile is a multiple of the L1 tile, and the quotient is the herd size |
| TileSizes.MatmulL2TileDefault | mlir/lib/Transform/AIRLinalgCodegen.cpp:361-369 | the default herd gives 64x64x64; `herd-size=4` gives 128x64x64 |
| TileSizes.TruncDiv | mlir/lib/Transform/AIRLinalgCodegen.cpp:472 | C division: the remainder has the dividend's sign and is smaller than the divisor |
| TileSizes.TruncDivUnique | mlir/lib/Transform/AIRLinalgCodegen.cpp:472 | that remainder condition determines the quotient |
| TileSizes.DimsOf | mlir/lib/Transform/AIRLinalgCodegen.cpp:457-465 | input channels, height and width are input dims 1, 2 and 3, output channels result dim 1, and the kernel weight dims 2 and 3 |
| TileSizes.Conv2dStage1 | mlir/lib/Transform/AIRLinalgCodegen.cpp:472-474 | seven tile sizes: batch 1, all output channels, the input height divided by 4 in C, then width, kernel height and width and input channels |
| TileSizes.Conv2dStage2 | mlir/lib/Transform/AIRLinalgCodegen.cpp:494-496 | stage one's tile sizes with the output channels replaced by their number divided by 4 in C |
| TileSizes.Conv2dStage2SplitsChannels | mlir/lib/Transform/AIRLinalgCodegen.cpp:494-496 | stage two differs from stage one only in the output channels, of which it takes a quarter rounded down |
| TileSizes.Conv2dDynamicHeight | mlir/lib/Transform/AIRLinalgCodegen.cpp:472 | a dynamic input height, -1, gives the height tile 0 in C, not the -1 that floor division would give |
| TileSizes.InterchangesArePermutations | mlir/lib/Transform/AIRLinalgCodegen.cpp:475 | the matmul interchange and both conv2d interchanges are permutations of the op's loops |
| CodegenPass.FilterMatches | mlir/lib/Transform/AIRLinalgCodegen.cpp:303-323 | an unmarked op passes exactly a filter with no markers to match; a marked op passes exactly when its marker is listed |
| CodegenPass.Applies | mlir/lib/Transform/AIRLinalgCodegen.cpp:303-323 | a rule rewrites only ops of its own class, a marked op exactly when the marker is in its filter |
| CodegenPass.FirstApplicable | mlir/lib/Transform/AIRLinalgCodegen.cpp:303-323 | None exactly when no rule's filter and op class match; otherwise the first matching rule |
| CodegenPass.UniqueApplicable | mlir/lib/Transform/AIRLinalgCodegen.cpp:303-323 | with disjoint filters, a rule that matches is the one selected |
| CodegenPass.Drive | mlir/lib/Transform/AIRLinalgCodegen.cpp:332-334 | at most fuel rewrites; settled exactly when no rule matches the final marker; no rewrite leaves the marker unchanged |
| CodegenPass.DriveStep | mlir/lib/Transform/AIRLinalgCodegen.cpp:332-334 | one rewrite applies the matching rule's transform and continues from its replacement marker |
| CodegenPass.DriveChain | mlir/lib/Transform/AIRLinalgCodegen.cpp:332-334 | along a chain of disjoint filters the driver applies every rule once, in order, and settles on the last marker |
| CodegenPass.RunStages | mlir/lib/Transform/AIRLinalgCodegen.cpp:332-334 | stages run one after the other; a settled run leaves no rule of the last stage applicable; with no stages nothing is applied |
| CodegenPass.GenericStages | mlir/lib/Transform/AIRLinalgCodegen.cpp:299-330 | three stages |
| CodegenPass.MatmulStages | mlir/lib/Transform/AIRLinalgCodegen.cpp:366-417 | three stages |
| CodegenPass.Conv2dStages | mlir/lib/Transform/AIRLinalgCodegen.cpp:467-518 | three stages |
| CodegenPass.MatmulHerd | mlir/lib/Transform/AIRLinalgCodegen.cpp:361-364 | dimension i is the option's entry i when there is one and 2 otherwise; whenever the option fits the three entries, that is what the code as written computes |
| CodegenPass.GenericStagesDisjoint | mlir/lib/Transform/AIRLinalgCodegen.cpp:303-323 | no marker matches two filters of the same stage |
| CodegenPass.MatmulStagesDisjoint | mlir/lib/Transform/AIRLinalgCodegen.cpp:371-411 | no marker matches two filters of the same stage, with or without L2 tiling |
| CodegenPass.Conv2dStagesDisjoint | mlir/lib/Transform/AIRLinalgCodegen.cpp:467-510 | no marker matches two filters of the same stage |
| CodegenPass.RunThree | mlir/lib/Transform/AIRLinalgCodegen.cpp:332-334 | three stages compose: each starts from the marker the previous one ended with |
| CodegenPass.NoRules | mlir/lib/Transform/AIRLinalgCodegen.cpp:325-326 | a stage of canonicalization patterns only leaves the op and its marker as they are |
| CodegenPass.GenericChain | mlir/lib/Transform/AIRLinalgCodegen.cpp:301-334 | an unmarked generic op is tiled by 128x128, then tiled by 32x32 over parallel loops, then promoted, ending marked `promote` |
| CodegenPass.MatmulChain | mlir/lib/Transform/AIRLinalgCodegen.cpp:371-421 | an unmarked matmul is tiled to the L2 tile with interchange (2, 1, 0), then tiled by 32x32x32 over parallel loops and promoted, ending marked `L1_promoted` |
| CodegenPass.MatmulChainForL2 | mlir/lib/Transform/AIRLinalgCodegen.cpp:382-411 | with L2 tiling on, the L2 tile is promoted, marked `L2_promoted`, before the L1 tiling picks it up |
| CodegenPass.Conv2dChain | mlir/lib/Transform/AIRLinalgCodegen.cpp:467-522 | a conv2d marked `xten_conv2d` is tiled with the stage-one sizes, promoted (operands 0, 1, 2), tiled with the stage-two sizes and promoted, ending marked `HERD` |
| CodegenPass.Conv2dUntaggedUntouched | mlir/lib/Transform/AIRLinalgCodegen.cpp:477-479 | a conv2d without the `xten_conv2d` marker is not tiled at all |
| CodegenPass.Phases | mlir/lib/Transform/AIRLinalgCodegen.cpp:536-549 | the pre-pattern always runs first and only there; the test patterns run exactly under `test-patterns`, and then no op class is processed |
| CodegenPass.PhaseStages | mlir/lib/Transform/AIRLinalgCodegen.cpp:536-549 | the pre-pattern and the test patterns run one stage, each op class three; every tiling or promotion rule of a phase is for that phase's op class, so the pre-pattern and test phases have none |
| CodegenPass.MemrefsNeverRegistered | mlir/lib/Transform/AIRLinalgCodegen.cpp:372-393 | the alloc-refinement pattern is in no stage the pass runs, since `tileForL2` is always false |
| CodegenPass.RemoveSubViewSpaces | mlir/lib/Transform/AIRLinalgCodegen.cpp:270-275 | subview removal allocates in L2 (the default space 1) under `test-patterns`, and in L1 (space 2) in every pipeline stage |
| CodegenPass.Process | mlir/lib/Transform/AIRLinalgCodegen.cpp:335-337 | under `test-patterns` or for another linalg op nothing is applied; otherwise the op ends with its marker removed |
| CodegenPass.ProcessMatmul | mlir/lib/Transform/AIRLinalgCodegen.cpp:346-430 | an unmarked matmul is tiled to the L2 tile of the herd size the option gives, tiled to the L1 tile, promoted, and left unmarked |
| CodegenPass.ProcessConv2d | mlir/lib/Transform/AIRLinalgCodegen.cpp:433-529 | a conv2d marked `xten_conv2d` undergoes both stages' tilings and promotions and is left unmarked; an unmarked one is untouched |
| CodegenPass.ProcessGeneric | mlir/lib/Transform/AIRLinalgCodegen.cpp:277-340 | an unmarked generic op is tiled twice and promoted, and left unmarked |
| CodegenPass.Positions | mlir/lib/Transform/AIRLinalgCodegen.cpp:349-350 | exactly the positions of the ops of one class, in increasing order |
| CodegenPass.Collect | mlir/lib/Transform/AIRLinalgCodegen.cpp:349-350 | the walk computes `Positions` |
| CodegenPass.ProcessingOrder | mlir/lib/Transform/AIRLinalgCodegen.cpp:536-549 | nothing under `test-patterns`; otherwise only matmul, conv2d and generic ops, in class order (matmuls, conv2ds, generic ops) and in function order within a class |
| CodegenPass.RunOnFunction | mlir/lib/Transform/AIRLinalgCodegen.cpp:536-549 | the ops are processed in `ProcessingOrder` (matmuls, then conv2ds, then generic ops, or none under `test-patterns`), each as `Process` says |
| CodegenPass.ProcessAll | mlir/lib/Transform/AIRLinalgCodegen.cpp:353-430 | each op undergoes `Process` |
| CodegenPass.ProcessedOnce | mlir/lib/Transform/AIRLinalgCodegen.cpp:542-546 | outside `test-patterns` an op is processed exactly when it is a matmul, conv2d or generic op, and never twice |

## Findings

| source | as written | input that shows it | evidently intended | confidence | as-written member | corrected member |
|---|---|---|---|---|---|---|
| mlir/lib/Conversion/AIRLoweringPass.cpp:376-395 | the nearest loop tagged `air.herd_launch` supplies the x coordinate and the next one the y coordinate; the herd lowering (lines 336-346) puts tile x on the outer loop, so after lowering the pair is transposed | a DMA copy in a herd body with tile ids (%tx, %ty), converted after the herd lowering: inside the launch it receives (%tx, %ty), after lowering (inner iv, outer iv), which is (%ty, %tx) | the coordinate is (outer iv, inner iv), the same tile as before lowering | high; not executed | Coordinates.TileCoordsAsWritten, Coordinates.RecoverTileCoords, DmaLowering.CallCoordinatesInLoweredNest, HerdLowering.AsWrittenDisagreesAcrossLowering | Coordinates.TileCoords, HerdLowering.CoordinatesAgreeAcrossLowering |
| mlir/lib/Transform/AIRLinalgCodegen.cpp:293-297 | the `herd-size` entries are written into a two-entry vector with no bound check | `herd-size=2,2,2` (the form the matmul pipeline, lines 361-364, takes) on a function with a `linalg.generic` writes `herd_size[2]` past the vector's end | only as many entries as the herd has dimensions are taken | high; not executed | TileSizes.OverrideAsWritten, TileSizes.GenericOverrunsOnMatmulOption | TileSizes.OverrideHerdSize, TileSizes.ApplyHerdSizeOption, TileSizes.OverrideAgreesWhenFits |
| mlir/lib/Transform/AIRLinalgCodegen.cpp:361-364 | the matmul pipeline's copy of the loop writes the `herd-size` entries into a three-entry vector with no bound check | `herd-size=4,4,4,4` on a function with a `linalg.matmul` writes `herd_size[3]` past the vector's end | only the three herd dimensions are taken | high; not executed | TileSizes.OverrideAsWritten, TileSizes.MatmulOverrunsOnFourEntries | CodegenPass.MatmulHerd, TileSizes.OverrideHerdSize |
| mlir/lib/Transform/AIRLinalgCodegen.cpp:119-121 | MemrefsPattern builds the refined alloc with no size operands, even when a dimension stays dynamic | `memref.alloc(%c4, %n) : memref<?x?xf32>` with `%c4` a constant index gives `memref<4x?xf32>` with no operand for the remaining dynamic dimension | the size operands of the dimensions still dynamic are passed on | medium (the pattern is registered only under `tileForL2`, which is always false); not executed | CodegenPatterns.MemrefsAsWritten, CodegenPatterns.MemrefsAsWrittenCounterexample | CodegenPatterns.Memrefs, CodegenPatterns.MemrefsKeepsExtents |
| mlir/lib/Transform/AIRLinalgCodegen.cpp:184 | `alloc.replaceAllUsesWith(newOp)` rewrites every use of the old alloc, the `memref.view` the match went through (lines 171-176) included, although that view is defined before the new alloc | two subviews %s1, %s2 of one view %v of an alloc %a, each used once: rewriting %s1 makes %v read the first new alloc; rewriting %s2 then matches that alloc and redirects it, so both users end on the second new alloc | each subview gets its own fast buffer and the view keeps reading the old alloc | medium; not executed | CodegenPatterns.RemoveSubView, CodegenPatterns.RemoveSubViewRematches, CodegenPatterns.RemoveSubViewMergesBuffers | CodegenPatterns.RemoveSubViewKeepingView, CodegenPatterns.KeepingViewMatchesOldAlloc, CodegenPatterns.KeepingViewSeparateBuffers |

## Left out

- The `XTEN_DIALECT` conversions, ATen and XTen ops, are compiled out by default. `getATenFn`, which declares the callee, is a lookup in the module's symbol table.
- MLIR's own machinery is outside the model:
  - linalg's tiling and promotion engines, each modelled as a `Transform` value recorded in a trace, not as the loops and buffers it builds;
  - the greedy driver's worklist order;
  - the SCF and linalg canonicalization patterns, modelled as opaque `Pattern` names;
  - the type converter and the dialect-conversion rollback.
- The outliner and inliner around each op (`outline`, `inlineCall`, erasing the call and the outlined function) are left out. The model processes the op in place.
- MemrefsPattern's rewiring of herd-launch block arguments (AIRLinalgCodegen.cpp:122-139) is left out. The pattern is never registered, and the rewiring changes only block-argument types.
- The walk over the functions of the module in runOnOperation (AIRLinalgCodegen.cpp:551-557) is left out. Functions are processed independently; `RunOnFunction` models one.
- The op erasures of AllocCopy, the cast and the copy, are modelled as the outcome `Replaced(target, type, cast)`, not as an edit of a use list.
- The `L1-size` option is never read by the pass, so it has no counterpart.
- Integers are unbounded. 64-bit overflow in the fold's offset sums, and `unsigned` option entries above 2^63, are not modelled.
- CodegenPass.Drive: a fuel bound, the number of rules in the stage, stands for the greedy driver's iteration limit. The chain lemmas show that this is enough for every pipeline the pass builds.
- HerdLowering.LowerHerdLaunch: requires constant herd sizes and one block argument per kernel operand. The code asserts these with `cast<>`, so other inputs abort the compiler rather than fail the pattern.
- DmaLowering.AirRtMemcpy, DmaLowering.MemcpyFnCall: take the recovered coordinate as an argument; the conversions and `LoweringPass.LowerItem` pass the coordinate as written, `TileCoordsAsWritten`, so the transposition in the first finding is part of the model of the pass.
- CodegenPass.MatmulHerd: takes the first three option entries and ignores the rest; the code as written writes past its vector on a longer option, which the model does not follow (second and third findings).
- DmaLowering.AirRtMemcpy: the branch where no AIR-RT op matches the dimension count, which erases the copy and returns null, is not reachable. Copies have 1, 2 or 4 dimensions (`RtOpFor`).
- SubViewFold.FoldSubView: sizes and strides are copied from the outer subview. The model does not check that the outer strides compose with the inner ones, and the code does not either. With inner strides other than 1 the folded subview addresses different elements than the pair did: an outer offset o over an inner stride k moves k·o elements, and the fold adds o.
- CodegenPatterns.RemoveSubView: ops are a list of users and definitions a map, so the model does not track where in the block each value is defined; the use of the new alloc by the earlier view is shown by the redirected definition, not as a dominance violation.
- The Python bindings, the tests, the examples and the build files are not part of this model.

# Skia core logic in Dafny: raster-pipeline builder, paint-option combinations, fragment-processor flags

This project models three pieces of sequential logic from Skia and proves properties of them.

1. **The SkSL raster-pipeline builder** (`SkSL::RP::Builder` and the `Program` that `finish()`
   produces). The model is read off the disassembly expectations in
   `tests/RasterPipelineBuilderTest.cpp`. The builder's own source is not part of this model.
   - A builder holds a growing instruction list, one depth counter per temporary stack, each
     stack's high-water mark, and a label counter (`RasterBuilder`).
   - Every builder call is a pure function `Builder -> Builder`. Its contract states exactly
     which instructions it appends and how the current stack's depth changes.
   - Wide copies, uniform pushes and bitwise operations are split into chunks of at most four
     slots (`Instructions.LowerChunked`). `duplicate(n)` is split into broadcast `swizzle` steps
     of at most three copies (`Instructions.LowerDuplicate`).
   - `finish()` (`Programs.Finish`) does three things:
     - it checks that every stack is empty, every branch names a bound label, and every slot is
       declared;
     - it resolves labels in two passes into relative branch offsets, with a `stack_rewind`
       before each backward branch (`Labels`);
     - it lays the stacks out one after another in the flat `$` cell space, each stack starting
       after the high-water marks of all lower-numbered stacks.
   - `dump()` is modelled as numbered text lines (`Disassembly`). Range notation (`v0..1`, `$4`,
     `u0..3`) is in `Slots`, decimal and hexadecimal text in `Text`, and 32-bit literal patterns
     in `Literals`.
2. **Graphite precompilation's `PaintOptions` arithmetic** (`src/gpu/graphite/Precompile.cpp`,
   module `Precompile`). This covers:
   - the per-category combination counts and their product;
   - the mixed-radix split of a combination index in `createKey`;
   - `SelectOption`'s segment lookup and the blender choice with its kSrcOver fallback;
   - `setClipShaders`, `shouldDither` and the hardware blend mode `toKey` sets.

   The virtual hooks of the precompile objects (`numCombinations`, `numChildCombinations`,
   `isConstant`) and the caps-dependent `GetDstReadRequirement` are fields of an `Oracle` value.
   Every `SelectOption` call weighs an object by its `numCombinations()`. The blend and clip
   counts instead add up `numChildCombinations()`. The lemmas that every blender and clip
   combination is reached therefore assume the two agree on those objects
   (`Precompile.LookupMatchesCounts`).
3. **`GrFragmentProcessor`'s flag algebra and key traversal** (`src/gpu/GrFragmentProcessor.h`,
   module `FragmentProcessors`). This covers:
   - the 32-bit flag word (`bv32`) and the sampler helpers;
   - the flag getters and setters, `mergeOptimizationFlags` and the constant-output helpers;
   - `GrFPFailure`/`GrFPSuccess`;
   - the pre-order `addToKey` traversal over child slots, any of which may be empty.

Where the test's comments and its expected output disagree, the model follows the output.
`tests/RasterPipelineBuilderTest.cpp:150` says the literal goes "into 2", but the expected
line 162 writes `$1`. After `discard_stack()` on stack 0 the next push reuses cell 1, and
`BuilderLaws.DiscardThenPushReuses` states exactly that. Stack 1's cells start at `$2` because
stack 0 reaches a depth of two, even though stack 1 is used first (`Programs.Finish` and
`Programs.StacksDisjoint`).

Module `Listings` works two of the test's programs through the model end to end. It proves
that, in the model, the temporary-stack test's calls finish to exactly the five `copy_constant`
lines at lines 159-163. It also proves that the branch test's calls (three `nextLabelID()`,
the jump, the labels, the immediates and the two conditional branches) finish to exactly the
offsets +5, -2 and -6 and the two rewinds at lines 269-276.

## Model

| member | source | states |
|---|---|---|
| `RasterBuilder.NewBuilder` | tests/RasterPipelineBuilderTest.cpp:47 | a fresh builder has no code, no labels, and an empty stack 0 selected |
| `RasterBuilder.AppendFixed` | tests/RasterPipelineBuilderTest.cpp:45-69 | the accumulator loads and stores, lane-mask set-up and `immediate_*` append exactly that one instruction; they touch no stack cell and change no depth |
| `RasterBuilder.SetCurrentStack` | tests/RasterPipelineBuilderTest.cpp:141-164 | switching stacks emits nothing; every existing stack keeps its depth and high-water mark; a new stack starts empty |
| `RasterBuilder.PushLiteral` | tests/RasterPipelineBuilderTest.cpp:141-164 | a literal push is one `copy_constant` into the next free cell of the current stack, and the depth grows by one |
| `RasterBuilder.PushUniform` | tests/RasterPipelineBuilderTest.cpp:426-444 | `push_uniform(r)` copies the uniforms onto the next `r.count` cells in chunks of at most four, and the depth grows by `r.count` |
| `RasterBuilder.PushSlots` | tests/RasterPipelineBuilderTest.cpp:194-213 | `push_slots(r)` copies the value slots unmasked onto the next `r.count` cells in chunks of at most four, and the depth grows by `r.count` |
| `RasterBuilder.Duplicate` | tests/RasterPipelineBuilderTest.cpp:216-239 | `duplicate(n)` broadcasts the top cell into the next `n` cells in `swizzle` steps, and the depth grows by exactly `n` |
| `RasterBuilder.DiscardStack` | tests/RasterPipelineBuilderTest.cpp:149-155 | `discard_stack(n)` emits nothing and lowers the depth by `n` |
| `RasterBuilder.CopyStackToSlots` | tests/RasterPipelineBuilderTest.cpp:198-209 | `copy_stack_to_slots(dst, k)` copies the cells starting `k` below the top into `dst`, masked or unmasked, chunked, and leaves the depth unchanged |
| `RasterBuilder.PopSlots` | tests/RasterPipelineBuilderTest.cpp:199-212 | `pop_slots(dst)` copies the top `dst.count` cells into `dst` in chunks, then lowers the depth by `dst.count` |
| `RasterBuilder.CopySlotsBetween` | tests/RasterPipelineBuilderTest.cpp:167-191 | a slot-to-slot copy is chunked four wide, keeps the masked/unmasked family, and touches no stack |
| `RasterBuilder.Select` | tests/RasterPipelineBuilderTest.cpp:224-242 | `select(n)` is a masked copy of the top `n` cells onto the `n` below, and the depth shrinks by `n` |
| `RasterBuilder.ApplySwizzle` | tests/RasterPipelineBuilderTest.cpp:227-245 | a swizzle is one instruction over the cells from `depth - consumed`, and the depth changes by `|components| - consumed` |
| `RasterBuilder.ApplyBinary` | tests/RasterPipelineBuilderTest.cpp:280-405 | a binary op on width `n` combines the `n` cells below the top `n` with the top `n` and shrinks the stack by `n`; arithmetic is one instruction of any width and bitwise ops are chunked |
| `RasterBuilder.ApplyUnary` | tests/RasterPipelineBuilderTest.cpp:408-424 | `bitwise_not` of width `n` complements the top `n` cells in chunks of four and leaves the depth unchanged |
| `RasterBuilder.PushMask` | tests/RasterPipelineBuilderTest.cpp:108-138 | pushing a mask stores it into the next free cell, whichever of the three masks it is |
| `RasterBuilder.PopMask` | tests/RasterPipelineBuilderTest.cpp:108-138 | popping a mask loads it from the top cell and frees that cell |
| `RasterBuilder.MergeCondition` | tests/RasterPipelineBuilderTest.cpp:114-129 | `merge_condition_mask` reads the top two cells without popping them |
| `RasterBuilder.MergeLoop` | tests/RasterPipelineBuilderTest.cpp:116-131 | `merge_loop_mask` reads the top cell without popping it |
| `RasterBuilder.NextLabelId` | tests/RasterPipelineBuilderTest.cpp:252-254 | the label ID handed out is the current label count, which goes up by one; it is not bound yet, and nothing else in the builder changes |
| `RasterBuilder.BindLabel` | tests/RasterPipelineBuilderTest.cpp:257-262 | binding a label appends only a marker and adds exactly that label to the bound set |
| `RasterBuilder.AddBranch` | tests/RasterPipelineBuilderTest.cpp:256-264 | a jump or branch appends one unresolved branch naming its label and changes no depth |
| `BuilderLaws.ChunkCovers` | tests/RasterPipelineBuilderTest.cpp:183-191 | every slot of a chunked operation lies in exactly one chunk, namely chunk `offset / 4` |
| `BuilderLaws.MaskPushPop` | tests/RasterPipelineBuilderTest.cpp:108-138 | a mask pop restores from the very cell its push saved to, and the depth returns |
| `BuilderLaws.MasksNest` | tests/RasterPipelineBuilderTest.cpp:108-138 | nested mask pushes use distinct cells and are popped last-in first-out |
| `BuilderLaws.PushPopSlots` | tests/RasterPipelineBuilderTest.cpp:194-213 | chunk `i` of a `pop_slots` reads exactly the cells chunk `i` of the matching `push_slots` wrote, and the depth returns |
| `BuilderLaws.DiscardThenPushReuses` | tests/RasterPipelineBuilderTest.cpp:145-162 | after `discard_stack(n)` the next push writes the first discarded cell |
| `BuilderLaws.StackSwitchKeepsDepth` | tests/RasterPipelineBuilderTest.cpp:141-164 | pushing on another stack and switching back leaves the first stack's depth alone |
| `BuilderLaws.DuplicateFillsCells` | tests/RasterPipelineBuilderTest.cpp:216-239 | each of the `n` cells above the top is written by broadcast step `c / 3` |
| `Instructions.LowerChunked` | tests/RasterPipelineBuilderTest.cpp:183-191 | chunk `i` covers slots `4i` onwards of both ranges, in order, four wide except possibly the last |
| `Instructions.ChunkWidthsCover` | tests/RasterPipelineBuilderTest.cpp:183-191 | chunk widths sum to the width, each is between 1 and 4, and only the last is narrower than 4 |
| `Instructions.ChunkCountMinimal` | tests/RasterPipelineBuilderTest.cpp:202-212 | no split into instructions of at most four slots has fewer chunks |
| `Instructions.LowerDuplicate` | tests/RasterPipelineBuilderTest.cpp:285-311 | step `i` is a `swizzle_{k+1}` of all-`x` components from cell `top + 3i`, adding `k = min(3, remaining)` copies |
| `Instructions.DuplicateAddsN` | tests/RasterPipelineBuilderTest.cpp:329-360 | each broadcast step adds one to three copies, and together they add exactly `n` |
| `Labels.PositionsAt` | tests/RasterPipelineBuilderTest.cpp:249-277 | a label is positioned where the output of everything before it ends, so labels emit nothing |
| `Labels.TranslateBranch` | tests/RasterPipelineBuilderTest.cpp:269-276 | a backward branch becomes `stack_rewind` plus a branch with offset `target - self`; a forward branch becomes the branch alone |
| `Labels.BranchReachesLabel` | tests/RasterPipelineBuilderTest.cpp:269-276 | in the resolved program every branch's offset lands on its label: negative and right after a `stack_rewind` when backward, positive when forward |
| `Labels.OffsetSign` | tests/RasterPipelineBuilderTest.cpp:269-276 | the sign of a resolved offset tells whether the branch is backward |
| `Labels.RewindPrecedesBackwardBranch` | tests/RasterPipelineBuilderTest.cpp:272-276 | every `stack_rewind` is followed by a backward branch |
| `Labels.BackwardBranchFollowsRewind` | tests/RasterPipelineBuilderTest.cpp:272-276 | every backward branch comes right after a `stack_rewind` |
| `Labels.RewindsExactlyBeforeBackwardBranches` | tests/RasterPipelineBuilderTest.cpp:269-276 | a `stack_rewind` sits at position `i` exactly when position `i + 1` is a backward branch |
| `Labels.ResolvedIsFinal` | tests/RasterPipelineBuilderTest.cpp:269-276 | the resolved program holds no label marker and no unresolved branch |
| `Labels.OrdinaryKept` | tests/RasterPipelineBuilderTest.cpp:269-276 | every other instruction is kept unchanged at the position the first pass counted for it |
| `Labels.FirstPass` | tests/RasterPipelineBuilderTest.cpp:249-277 | the first pass's loop computes exactly the label positions of the reference definition |
| `Labels.ResolveLabels` | tests/RasterPipelineBuilderTest.cpp:249-277 | the two-pass resolver computes exactly the reference resolution |
| `Programs.StacksDisjoint` | tests/RasterPipelineBuilderTest.cpp:141-164 | every cell of a lower-numbered stack lies below every cell of a higher-numbered one, and all lie below the total cell count |
| `Programs.Finish` | tests/RasterPipelineBuilderTest.cpp:156-164 | `finish` succeeds exactly when the stacks are empty, every branch label is bound, and every slot is declared; otherwise it reports the fault it found |
| `Programs.FinishedOperandsInBounds` | tests/RasterPipelineBuilderTest.cpp:203-213 | a finished program names only declared value or uniform slots and cells inside its flat cell space |
| `Programs.RelocatedStacksDisjoint` | tests/RasterPipelineBuilderTest.cpp:144-164 | ranges on different stacks never share a finished cell |
| `Labels.StraightLineUnchanged` | tests/RasterPipelineBuilderTest.cpp:141-164 | code without labels and branches is resolvable and resolves to itself |
| `Programs.FinishStraightLine` | tests/RasterPipelineBuilderTest.cpp:141-164 | without labels and branches, finishing a balanced builder whose slots are declared only relocates its stacks into the flat cell space |
| `Listings.BranchesLaidOut` | tests/RasterPipelineBuilderTest.cpp:252-264 | in the branch test's code the two branches to earlier labels are backward and the jump is forward; labels 0, 1 and 2 land at output positions 1, 2 and 5 |
| `Listings.BranchesListing` | tests/RasterPipelineBuilderTest.cpp:249-277 | the branch test's code resolves to the eight listed instructions: `jump +5`, the rewinds, and the backward offsets -2 and -6 |
| `Listings.BranchesLabels` | tests/RasterPipelineBuilderTest.cpp:251-254 | three `nextLabelID()` calls on a fresh builder hand out 0, 1 and 2 and leave the code empty |
| `Listings.BranchesForward` | tests/RasterPipelineBuilderTest.cpp:256-258 | `jump(label3)`, `label(label1)` and `immediate_f(1.0)` append exactly the first three instructions and bind label 0 |
| `Listings.BranchesMiddle` | tests/RasterPipelineBuilderTest.cpp:259-261 | `label(label2)`, `immediate_f(2.0)` and `branch_if_no_active_lanes(label2)` append the next three and bind label 1 |
| `Listings.BranchesBackward` | tests/RasterPipelineBuilderTest.cpp:262-264 | `label(label3)`, `immediate_f(3.0)` and `branch_if_any_active_lanes(label1)` complete the code, with all three labels bound and the stack empty |
| `Listings.BranchesRelocated` | tests/RasterPipelineBuilderTest.cpp:266-277 | the resolved branch program names no cell, so laying out the stacks leaves it unchanged |
| `Listings.FinishBranches` | tests/RasterPipelineBuilderTest.cpp:266-277 | finishing that state with one value slot gives exactly the eight listed instructions and no cells |
| `Listings.Branches` | tests/RasterPipelineBuilderTest.cpp:249-277 | the whole test's call sequence finishes to exactly the listed eight instructions |
| `Listings.TempImmediatesOnStackOne` | tests/RasterPipelineBuilderTest.cpp:144-145 | pushing 999 on stack 1 first writes stack 1's cell 0 and leaves stack 0 empty |
| `Listings.TempImmediatesOnStackZero` | tests/RasterPipelineBuilderTest.cpp:146-148 | back on stack 0 the next two literals fill its cells 0 and 1 |
| `Listings.TempImmediatesReuse` | tests/RasterPipelineBuilderTest.cpp:149-152 | after discarding the top of stack 0, the next literal is written into the freed cell 1, not a new cell; 999 then goes into stack 1's cell 1 |
| `Listings.TempImmediatesBalance` | tests/RasterPipelineBuilderTest.cpp:153-155 | discarding two cells from each stack leaves both empty with high-water marks of two |
| `Listings.TempImmediatesRelocated` | tests/RasterPipelineBuilderTest.cpp:159-163 | with two cells per stack, relocation sends stack 0 to cells 0-1 and stack 1 to cells 2-3, and the total is four cells |
| `Listings.FinishTempImmediates` | tests/RasterPipelineBuilderTest.cpp:156-164 | finishing the balanced state with one value slot gives exactly the listed program: `$2`, `$0`, `$1`, `$1`, `$3` |
| `Listings.TempImmediates` | tests/RasterPipelineBuilderTest.cpp:141-164 | the whole test's call sequence finishes to exactly the listed five `copy_constant` instructions |
| `Disassembly.LinesAt` | tests/RasterPipelineBuilderTest.cpp:59-69 | line `i + 1` of the dump shows instruction `i`: lines are numbered consecutively from one |
| `Disassembly.DumpAppend` | tests/RasterPipelineBuilderTest.cpp:59-69 | appending an instruction appends exactly its numbered line and a line break |
| `Disassembly.LayoutColumns` | tests/RasterPipelineBuilderTest.cpp:59-69 | the number fills columns 0-4, `". "` follows, the name starts in column 7, and the effect starts in column 38 |
| `Disassembly.LineNumberReadsBack` | tests/RasterPipelineBuilderTest.cpp:126-137 | the right-justified number field parses back to the line number for every line up to 99999 |
| `Disassembly.ComponentsRead` | tests/RasterPipelineBuilderTest.cpp:243-245 | the swizzle source shown is as wide as the largest component read plus one |
| `Slots.RangeTextInjective` | tests/RasterPipelineBuilderTest.cpp:60-68 | two ranges that print alike have the same space letter, first slot and width |
| `Text.Hex8RoundTrip` | tests/RasterPipelineBuilderTest.cpp:83-87 | the eight-digit upper-case hexadecimal form of a 32-bit pattern parses back to the pattern |
| `Literals.IntBits` | tests/RasterPipelineBuilderTest.cpp:78-86 | a signed literal is stored as its 32-bit two's-complement pattern |
| `Literals.IntBitsRoundTrip` | tests/RasterPipelineBuilderTest.cpp:78-86 | the stored pattern reads back as the same signed integer |
| `Literals.SignedValueRoundTrip` | tests/RasterPipelineBuilderTest.cpp:159-161 | every pattern is the pattern of the signed integer it reads as |
| `Literals.UIntBits` | tests/RasterPipelineBuilderTest.cpp:79-87 | an unsigned literal is stored as its own value |
| `Opcodes.NWayNameSelectsWidth` | tests/RasterPipelineBuilderTest.cpp:311-320 | arithmetic opcode names tell widths 1-4 apart, and every width above 4 shares the one `_n_` opcode |
| `Precompile.AsBlendMode` | src/gpu/graphite/Precompile.cpp:99-102 | a blender has a blend mode exactly when it is a fixed-mode blender |
| `Precompile.MakeWithLocalMatrix` | src/gpu/graphite/Precompile.cpp:26-34 | the result is a local-matrix shader; an existing one is returned as is, any other shader is wrapped once |
| `Precompile.LocalMatrixIdempotent` | src/gpu/graphite/Precompile.cpp:26-34 | wrapping in a local matrix twice is the same as wrapping once |
| `Precompile.MakeWithColorFilter` | src/gpu/graphite/Precompile.cpp:36-42 | a null filter returns the shader unchanged; otherwise the shader is wrapped with that filter |
| `Precompile.MakeWithWorkingColorSpace` | src/gpu/graphite/Precompile.cpp:44-50 | a null colour space returns the shader unchanged; otherwise the shader is wrapped with that space |
| `Precompile.MakeComposed` | src/gpu/graphite/Precompile.cpp:52-59 | a null inner filter returns the outer filter unchanged; otherwise the result composes outer with inner |
| `Precompile.SetClipShaders` | src/gpu/graphite/Precompile.cpp:62-76 | each clip shader appends its two entries after the existing ones, in order, and nothing else in the options changes |
| `Precompile.ClipPairFaithful` | src/gpu/graphite/Precompile.cpp:62-76 | a pair keeps its clip shader recoverable, both entries are null exactly when the input is, and a null pair counts two combinations |
| `Precompile.NumShaderCombinations` | src/gpu/graphite/Precompile.cpp:78-86 | the count is the sum over the shader options, or 1 when that sum is 0 |
| `Precompile.NumColorFilterCombinations` | src/gpu/graphite/Precompile.cpp:88-96 | the count is the sum over the filter options, or 1 when that sum is 0 |
| `Precompile.NumBlendModeCombinations` | src/gpu/graphite/Precompile.cpp:98-111 | for blenders none of which has a blend mode, as the source asserts, the count is the number of blend modes plus the blenders' child combinations, or 1 when that is 0 |
| `Precompile.CountsMatchLookup` | src/gpu/graphite/Precompile.cpp:98-125 | when each blender's and clip shader's combinations equal its child combinations, the blend and clip totals are the same under either weighting |
| `Precompile.NumClipShaderCombinations` | src/gpu/graphite/Precompile.cpp:113-125 | a null clip entry counts one and any other counts its child combinations; the total is 1 when it would be 0 |
| `Precompile.NumCombinations` | src/gpu/graphite/Precompile.cpp:128-134 | the number of combinations is the product of the four counts, and at least 1 |
| `Precompile.SelectOption` | src/gpu/graphite/Precompile.cpp:389-411 | the selected option comes from the list and the index inside it is below its count; past the end the option is null |
| `Precompile.SelectOptionFindsSegment` | src/gpu/graphite/Precompile.cpp:389-411 | every index below the total falls in the segment of exactly one entry, and is answered with its offset inside that segment |
| `Precompile.SelectOptionOfSegment` | src/gpu/graphite/Precompile.cpp:389-411 | conversely, index `sub` of entry `pos` is reached from the start of `pos`'s segment |
| `Precompile.SelectOptionPastEnd` | src/gpu/graphite/Precompile.cpp:389-411 | indices at or past the total select the null option |
| `Precompile.Decompose` | src/gpu/graphite/Precompile.cpp:368-384 | the clip, blend and colour-filter digits of an index are below their radices |
| `Precompile.DecomposeRecompose` | src/gpu/graphite/Precompile.cpp:368-384 | for an index below the product, every digit is below its radix and the digits recompose to the index |
| `Precompile.RecomposeDecompose` | src/gpu/graphite/Precompile.cpp:368-384 | digits below their radices recompose to an index below the product that splits back into them |
| `Precompile.DistinctIndicesDistinctDigits` | src/gpu/graphite/Precompile.cpp:368-384 | two different combination indices never pick the same digits |
| `Precompile.BlendCandidate` | src/gpu/graphite/Precompile.cpp:392-399 | a blend digit below the number of blend modes picks that mode; a larger digit picks from the blenders |
| `Precompile.ChooseBlender` | src/gpu/graphite/Precompile.cpp:392-402 | the final blender is never null: a null candidate falls back to kSrcOver, and any other candidate is kept |
| `Precompile.BlendFallbackOnlyWhenEmpty` | src/gpu/graphite/Precompile.cpp:392-402 | the fallback happens exactly when the digit lies past the blend modes and past every blender's segment; for a digit below the blend count and lookup weights equal to the counted ones, exactly when there are no blend modes and no blender combinations |
| `Precompile.EveryBlenderReached` | src/gpu/graphite/Precompile.cpp:98-111 | with lookup weights equal to the counted ones, combination `sub` of blender `pos` is the final blender for a digit below the blend count: the one just past the blend modes and the earlier blenders |
| `Precompile.GetDstReadReq` | src/gpu/graphite/Precompile.cpp:136-143 | the decision uses the blender's blend mode, or kSrcOver when there is no blender |
| `Precompile.CreateKey` | src/gpu/graphite/Precompile.cpp:361-418 | the option built has a blender, the dst-read decision for that blender, the paint's dither flag, and shader, filter and clip choices taken from the paint's lists |
| `Precompile.CreateKeyReachesEveryChoice` | src/gpu/graphite/Precompile.cpp:368-415 | every tuple of per-category digits is built by the index that recomposes them, and each category's option is the one `SelectOption` picks for its digit, weighing every object by its `numCombinations()` |
| `Precompile.ShaderChosenWhenOffered` | src/gpu/graphite/Precompile.cpp:383-409 | when the shader options offer any combination, the shader chosen is never null |
| `Precompile.EveryClipEntryReached` | src/gpu/graphite/Precompile.cpp:113-125 | with lookup weights equal to the counted ones, combination `sub` of clip entry `pos`, null or not, is chosen by a clip digit below the clip count: the one just past the earlier entries |
| `Precompile.ShouldDither` | src/gpu/graphite/Precompile.cpp:269-286 | no dithering without the flag or for an unknown colour type; always for 565 and 4444; otherwise only for a present, non-constant shader |
| `Precompile.SolidColorDithersOnlyLowPrecision` | src/gpu/graphite/Precompile.cpp:269-286 | with no shader combination, every option `createKey` builds dithers exactly when the paint asks for it and the target is 565 or 4444 |
| `Precompile.FinalBlendMode` | src/gpu/graphite/Precompile.cpp:338-344 | a dst read forces kSrc; otherwise the blend mode is the final blender's own, or kSrcOver with no blender |
| `Precompile.KeyBlendModeDefined` | src/gpu/graphite/Precompile.cpp:353-356 | the asserted hardware blend mode exists for every option `createKey` builds, provided a blender without a blend mode always needs a dst read |
| `FragmentProcessors.FlagLayout` | src/gpu/GrFragmentProcessor.h:462-479 | kAll is the OR of the three optimization flags; the private flags start at kAll + 1 and are distinct single bits outside kAll |
| `FragmentProcessors.ModulateForClampedSamplerOptFlags` | src/gpu/GrFragmentProcessor.h:356-363 | the result always has coverage-as-alpha, has preserves-opaque exactly for opaque textures, and never has constant output |
| `FragmentProcessors.ModulateForSamplerOptFlags` | src/gpu/GrFragmentProcessor.h:347-353 | decal sampling gives coverage-as-alpha only; otherwise the result is the clamped answer |
| `FragmentProcessors.SamplerFlagsPromises` | src/gpu/GrFragmentProcessor.h:347-363 | decal sampling never promises more than clamped sampling, and every answer stays within the optimization flags |
| `FragmentProcessors.NewProcessor` | src/gpu/GrFragmentProcessor.h:365-368 | the constructor takes flags within kAll only; the new processor reports exactly those flags, no private flag, and no children |
| `FragmentProcessors.OptimizationFlags` | src/gpu/GrFragmentProcessor.h:375-377 | the result is within kAll, and together with the private bits it makes up the whole flag word |
| `FragmentProcessors.ProcessorOptimizationFlags` | src/gpu/GrFragmentProcessor.h:380-382 | a missing processor promises every optimization; a present one promises its own |
| `FragmentProcessors.DirectUseIsUse` | src/gpu/GrFragmentProcessor.h:241-253 | `usesSampleCoords` holds exactly when the direct or the indirect bit is set, so direct use implies use |
| `FragmentProcessors.ConstantOutputFor` | src/gpu/GrFragmentProcessor.h:289-295 | a constant output is given exactly when bit 0x4 is set, and it is the subclass hook's answer |
| `FragmentProcessors.ConstantOutputForConstantInputOf` | src/gpu/GrFragmentProcessor.h:389-397 | a missing processor passes its input through; a present one must advertise the optimization and answers its constant output |
| `FragmentProcessors.SetUsesSampleCoordsDirectly` | src/gpu/GrFragmentProcessor.h:421-423 | sets the direct-use bit, so `usesSampleCoords` holds, and leaves every other bit and field as it was |
| `FragmentProcessors.SetWillReadDstColor` | src/gpu/GrFragmentProcessor.h:427-429 | sets the dst-read bit and leaves every other bit and field as it was |
| `FragmentProcessors.SetIsBlendFunction` | src/gpu/GrFragmentProcessor.h:433-435 | sets the blend-function bit and leaves every other bit and field as it was |
| `FragmentProcessors.SampleCoordsSetterTouchesOnlyItsQuery` | src/gpu/GrFragmentProcessor.h:421-423 | the other queries read the same afterwards, and setting twice is setting once |
| `FragmentProcessors.DstColorSetterTouchesOnlyItsQuery` | src/gpu/GrFragmentProcessor.h:427-429 | the other queries read the same afterwards, and setting twice is setting once |
| `FragmentProcessors.BlendFunctionSetterTouchesOnlyItsQuery` | src/gpu/GrFragmentProcessor.h:433-435 | the other queries read the same afterwards, and setting twice is setting once |
| `FragmentProcessors.MergeOptimizationFlags` | src/gpu/GrFragmentProcessor.h:437-440 | the optimization flags become their intersection with `f`; the class, key and children are untouched |
| `FragmentProcessors.MergeKeepsPrivateFlags` | src/gpu/GrFragmentProcessor.h:437-440 | merging never changes a private bit |
| `FragmentProcessors.MergeNeverSetsABit` | src/gpu/GrFragmentProcessor.h:437-440 | merging only clears bits |
| `FragmentProcessors.MergeIdempotent` | src/gpu/GrFragmentProcessor.h:437-440 | merging the same flags twice is merging them once |
| `FragmentProcessors.MergeComposes` | src/gpu/GrFragmentProcessor.h:437-440 | merging `f` then `g` is merging `f & g`, so the order does not matter |
| `FragmentProcessors.MergeMonotone` | src/gpu/GrFragmentProcessor.h:437-440 | merging fewer promises keeps a subset of the bits |
| `FragmentProcessors.MergeMissingChild` | src/gpu/GrFragmentProcessor.h:380-382 | merging the flags of a missing child changes nothing |
| `FragmentProcessors.NumChildProcessors` | src/gpu/GrFragmentProcessor.h:216 | every child slot is counted, including empty ones, so the count is at least the number of present children |
| `FragmentProcessors.AddToKey` | src/gpu/GrFragmentProcessor.h:207-214 | the key is the own keys of the tree's processors in pre-order: this node's first, then each present child's subtree in slot order |
| `FragmentProcessors.EmptySlotAddsNothing` | src/gpu/GrFragmentProcessor.h:207-216 | inserting an empty child slot raises the child count by one and leaves the descendants and the key unchanged |
| `FragmentProcessors.FPFailure` | src/gpu/GrFragmentProcessor.h:493-495 | a failure hands back the processor it was given, unchanged |
| `FragmentProcessors.FPSuccess` | src/gpu/GrFragmentProcessor.h:496-499 | a success requires a present processor and hands it back |

## Left out

- Float annotations in the dump, such as `(333.0)` or `(6.389921e-43)`, are not modelled. Immediates are modelled as 32-bit patterns only, and a float literal is taken to be its pattern.
- The per-lane semantics of the opcodes and the raster-pipeline interpreter are not modelled. They are not visible in the shown code.
- The builder's source is not part of this model, so its call-argument assertions are modelled as `requires` clauses read off the test. Examples: a pop no deeper than the stack, and swizzle components below the consumed width.
- `Programs.Finish`: the order in which `finish()` checks for problems is not visible. The model reports an unbalanced stack first, then an unbound label, then a slot outside the declared counts.
- `RasterBuilder.PushMask`: saved masks are placed on the current temporary stack, shown as `$` cells. The test cannot tell this apart from a separate mask counter, and both give the cells it expects.
- `RasterBuilder.ApplyBinary`: the test pins bitwise operations only at width 1. Wider ones are modelled like `bitwise_not`, split four at a time.
- Unsigned operation families are limited to div, min, max, cmplt and cmple, the only ones the test uses. Unsigned add, sub, mul, eq and ne share the int opcodes.
- `Precompile.NumCombinations`: the C++ counts are 32-bit `int`s. The model uses unbounded naturals, so a product that would overflow is not modelled.
- `Precompile.CreateKey`: the combination index is a natural below `numCombinations()`, which is what the source asserts. A negative index is not modelled.
- `Precompile.SelectOption`: `PrecompileBase::SelectOption` is not part of this model. It is modelled as a consecutive-segment lookup in which a null entry owns one index and any other entry owns as many indices as its `numCombinations()`.
- `Precompile.EveryBlenderReached`: the blend count adds `numChildCombinations()`, while the lookup weighs by `numCombinations()`. How the two relate is defined in `PrecompileBase`, which is not part of this model, so reaching every blender combination is proved only when they agree.
- `Precompile.EveryClipEntryReached`: for the same reason, reaching every clip combination is proved only when each clip shader's two counts agree.
- `Precompile.CreateKeyReachesEveryChoice`: it is stated over digits. That every blender and clip combination has a digit is proved only when the two counts agree, by `EveryBlenderReached` and `EveryClipEntryReached`.
- `Precompile.BlendFallbackOnlyWhenEmpty`: that the fallback happens only when there is nothing to choose is proved only when the blenders' two counts agree. Without that, the lemma states the exact fallback condition in terms of the lookup weights.
- The virtual hooks `numCombinations`, `numChildCombinations` and `isConstant`, and the caps-based `GetDstReadRequirement`, are parameters of an `Oracle` value.
- Key emission is not modelled: `addToKey` of the precompile objects, the `Blend`/`Compose` callbacks, paint-colour and dither blocks, and the clip-shader block.
- Image-filter combinations are not modelled. The source itself leaves a TODO about them.
- `Precompile.ShouldDither`: the `SK_IGNORE_GPU_DITHER` build switch around its use is not modelled.
- `FragmentProcessors.AddToKey`: each processor's `onAddToKey` words are a fixed `ownKey` field, and the shader caps argument is dropped.
- `numNonNullChildProcessors` is declared but not defined in the shown header, so it is not modelled.
- Cloning, `registerChild`, and how the indirect sample-coords and dst-read flags propagate to parents are not modelled. Their bodies are not in the shown header.
- `FragmentProcessors.ConstantOutputFor`: the colour type `SkPMColor4f` is a type parameter, and the subclass hook is a function parameter.
- Sample usages, proxies, program implementations and `isEqual` are not modelled.

# Verification of the runtime's memory engine and the compiler's exact rewrites

This project models, in Dafny, the two parts of the repository that promise byte-for-byte results, and proves those
promises for all inputs.

**The runtime.** Memory is one array of bytes. `memrefCopy` and the elementwise walk that checks it are both methods
proved to carry out one list of byte moves, whichever of the word, byte and `memcpy` paths is taken and however many
dimensions collapse into a run (`MemrefCopy`, over `Memory` and the odometer algebra of `Odometer`). The set of touched
buffers is a class around a growing open-addressing table proved to behave as a set over every history of calls
(`TouchedSet`). The word-parallel max-pool works on 64-bit words (`SwarWords`, `PoolSwar`), and the reference integer
softmax on 32-bit integers with its overflow bound derived exactly (`IntegerSoftmax`).

**The compiler.** Each rewrite is modelled by the method that decides and performs it, with the semantics of the
program before and after:

- index algebra: `Im2Col`, `BlockDiagonal`, `ChannelShuffle`, `PaddingFold`, `PaddingExact` and `ConvVerifier`,
  `Relayout`, `RelayoutBlock` and `RelayoutExact`, `BorderSlabs` and `BorderFill`, `GatherCopy`, `PackCopy`,
  `FillToMemset`;
- abstract evaluation: `BatchNorm` and `BatchNormRelayout`;
- tail recognition: `RequantizeTail` and `RequantizeForms`, `FixedPointBatchNorm`, `FixedPointTail` and `FixedPointSite`;
- buffer programs: `BufferPrograms` and `MatmulRuntime`, `FoldRequantize` and `RequantizeExact`, `ElideCopy`.

Where a rewrite is not right by itself, a theorem says exactly when it is; the modules named `...Exact` hold those of the
longer ones, with the contents and behaviours that show the other direction. And where a convolution, a pack or a copy
appears on both sides of an equation, a further theorem says element by element what it reads: `Im2Col.OneTapConvolves`,
`PaddingFold.OneTapOutput`, `ChannelShuffle.OneTapConvolves`, `Im2Col.PackTakes`, `GatherCopy.GatherTakes`.

`Arith`, `Sums`, `Rounding`, `RowMajor`, `Permutations` and `Wrappers` hold what they share. Float scales are exact reals, and rounding
is to nearest with ties to even. Integers are unbounded except where the source's 32 or 64 bits matter: the softmax, the
fixed-point batch norm and the words of the pool use bounded types, and the matmul accumulators wrap.

`dafny verify dfyconfig.toml` checks everything.

## What the proofs found

In these places the code does not by itself guarantee what its comments say. Each item names the theorem with the exact
condition, and the lemma with an input that the code's checks accept and that goes wrong.

- `FoldRequantizeIntoMatmul` looks for writes to the two matrices only, among operands only, by name only, and strictly
  between the two operations. A bias already on the matmul may be rewritten in between
  (`RequantizeExact.RefilledBias`), an operand may be written through a view or inside a region
  (`RequantizeExact.CapturedOperand`), and its memory may be freed under another name (`RequantizeExact.FreedOperand`).
  The requantization may go into a matrix of the matmul, which the folded operation then overwrites while it still reads
  it (`RequantizeExact.IntoOperand`). `RequantizeExact.FoldExact` gives the condition over what is computed element by
  element.
- `FoldPaddingIntoConv` accepts the fill after the copy (`PaddingExact.FilledLast`), and a source that is overwritten or
  freed before the call (`PaddingExact.SourceFreed`). It asks the call to have no input dilation only when it folds one,
  so a padding with a unit window stride is folded into a call that already dilates its input; its output then has
  another extent (`PaddingExact.DilatedAlready`). And the call's output may be the source, which the folded call reads in
  place (`PaddingExact.IntoSource`). `PaddingExact.FoldExact` gives the conditions as one equivalence over outputs. The
  source's layout is not looked at either: if its rows are wider than its pixel stride says, the operation's own verifier
  refuses what the fold leaves (`ConvVerifier.FoldedVerifies`).
- `convOutExtent` divides toward zero, so a window that reaches past its input by less than a stride is counted as fitting
  once, and the verifier accepts the operation (`ConvVerifier.WindowTooLarge`). `ConvVerifier.VerifyExactly` says what it
  accepts.
- `boxWrittenNext` asks of a slice only that it is of the filled memory. It does not check that the view it is taken of
  starts where the buffer does (`BorderFill.SliceOfView`), that its user runs (`BorderFill.CopyUnderCondition`) and
  writes all of it (`BorderFill.OneColumn`), or what stands between the slice and its user (`BorderFill.ReadInBetween`).
  `BorderFill.BorderExact` gives the condition over all that happens to the box, `BorderFill.CoversExactly` and
  `BorderFill.CopyCovers` what it asks of the view and of the writer's map.
- A relayout moves the producers' writes to before whatever else touches the destination. Nothing looks at the
  destination's users (`RelayoutExact.ZeroedOver`), at a producer that reads the destination
  (`RelayoutExact.InPlace`) or the element it writes, at empty reductions, at producers after the transpose, or at whether the
  transpose runs at all (`RelayoutExact.NotTransposed`). `RelayoutExact.BlockExact` gives the condition over runs of the
  block, and `Relayout.BodiesExact` over the producers alone.
- `relayoutOf` does not refuse a map that reads one iteration dimension twice (`BatchNormRelayout.DiagonalRead`) or that
  repeats a dimension of extent one (`BatchNormRelayout.RepeatedColumn`), and then the transpose it returns reads
  something else. `BatchNormRelayout.RelayoutExact` and, at given extents, `BatchNormRelayout.RelayoutExactAt` say when it
  is right.
- `channelShuffleOf` looks through any padding that spares the channel axis. Its comment says the padding is constant,
  which is not checked (`ChannelShuffle.TellingTells`). `ChannelShuffle.PadCommutesExactly` says what is needed.
- `byteRange` counts the magnitude of a negative stride forwards, so the window misses what lies below the first
  element (`GatherCopy.BackwardCollides`). `GatherCopy.WindowExact` shows that non-negative strides on dimensions that
  step are necessary and sufficient. It also takes different defining operations to be different allocations, which two
  operations that get one arena are not (`GatherCopy.TwoNamesCollide`). `GatherCopy.GatherIsCopy` and
  `GatherCopy.LegalExactly` are about the windows where they lie instead.
- The fixed-point batch norm drops a high clamp that never fires before the low one is applied. With the bounds out of
  order that changes the answer (`FixedPointBatchNorm.ClampLost`); `FixedPointBatchNorm.ClampsDrop` says when it does not.
- It compares both forms channel by channel, but not the maps the two coefficients are read through
  (`FixedPointSite.CrossedMaps`), and reads the byte buffer in place of the float one without asking what was written to
  either since (`FixedPointSite.StaleBytes`). `FixedPointSite.MoveExact` is the exact condition.
- Recognizing its body, it takes `select(v > 0, v, c)` for a relu whatever `c` is (`FixedPointTail.FiveForZero`), and a
  body without a lower bound for one that stops at -128 (`FixedPointTail.NoLowerBound`). `FixedPointTail.RecognitionExact`
  is the exact condition.
- The integer softmax squares before it discards, so its overflow bound is reached at a spread where the result is
  zero: `IntegerSoftmax.OverflowBound`.
- The guard on an upper bound in a tail refuses scaled bounds from 126.5 up to 127, which could be dropped:
  `RequantizeTail.UpperBoundDrops` is the exact condition and `RequantizeTail.UpperGuard` the sufficient one.

## Model

| member | source | states |
|---|---|---|
| MemrefCopy.Copy | runtime/gemmlir_rt.c:558-685 | for any rank up to 8, sizes, strides, offsets and element size with the operands disjoint, memory ends exactly as the elementwise walk leaves it, whichever path copies the runs; a larger rank is refused and changes nothing, and an empty dimension copies nothing |
| MemrefCopy.Naive | runtime/copycheck.c:24-39 | the elementwise odometer walk terminates and carries out the same list of byte moves |
| MemrefCopy.Compare | runtime/copycheck.c:41-87 | from equal memories the copy and the elementwise walk leave equal memories |
| MemrefCopy.CopyMeaning | runtime/gemmlir_rt.c:558-685 | every byte of every element arrives where its index says, and no other byte of memory changes |
| MemrefCopy.MovesMembers | runtime/copycheck.c:27-38 | the walk moves exactly the bytes of the elements of the index space, no more and no fewer |
| MemrefCopy.PackedSuffix | runtime/gemmlir_rt.c:592-605 | the run found is the product of a suffix of dimensions packed in both operands |
| MemrefCopy.PackedRun | runtime/gemmlir_rt.c:592-610 | the moves below a packed suffix are one contiguous block in address order |
| MemrefCopy.RowIsRuns | runtime/gemmlir_rt.c:636-670 | the innermost unpacked axis is a sequence of equal runs one step apart |
| MemrefCopy.RunsAreWords | runtime/gemmlir_rt.c:620-631 | word copying is chosen exactly when the run is at most 64 bytes of whole words and both bases and all steps are word aligned |
| MemrefCopy.DotAligned | runtime/gemmlir_rt.c:624-631 | with every step a whole number of words no run can drift off alignment |
| MemrefCopy.CopyWords | runtime/gemmlir_rt.c:530-556 | copying the words one by one leaves what moving the bytes of the run leaves, in each of the unrolled cases |
| MemrefCopy.CopyBytes | runtime/gemmlir_rt.c:655-661 | the byte loop leaves what the moves of the run leave |
| MemrefCopy.CopyRow | runtime/gemmlir_rt.c:649-668 | one row of runs carries out its moves by any of the three paths |
| MemrefCopy.NextRow | runtime/gemmlir_rt.c:671-683 | the carry keeps both byte offsets equal to the strided distance of the index, moves on to the next row, and says so when every wheel has wrapped |
| MemrefCopy.CopyRows | runtime/gemmlir_rt.c:612-685 | the outer walk terminates and carries out all the moves |
| MemrefCopy.NextIndex | runtime/copycheck.c:32-37 | the reference odometer steps to the next index in row-major order, or has come round |
| MemrefCopy.BumpTurn | runtime/gemmlir_rt.c:671-676 | a wheel that turns leaves exactly the later rows still to do, with both offsets in step |
| MemrefCopy.BumpCarry | runtime/gemmlir_rt.c:677-681 | a wheel that wraps and is rewound leaves the offsets of the outer index |
| Memory.ApplyPointwise | runtime/gemmlir_rt.c:558-685 | a list of moves that never reads what it writes leaves each destination its source byte and everything else alone |
| Memory.ApplyBlock | runtime/gemmlir_rt.c:607-610 | a block move between disjoint ranges lands as a whole, so one memcpy is the moves of its bytes |
| TouchedSet.Replay | runtime/gemmlir_rt.c:233-243 | over any history of calls a buffer is reported unseen exactly at the first appearance of a non-null pointer |
| TouchedSet.Touched.Unseen | runtime/gemmlir_rt.c:233-243 | answers whether the pointer is new and records it; the table stays well placed and three quarters full at most |
| TouchedSet.Touched.Room | runtime/gemmlir_rt.c:213-230 | growing keeps the stored set and leaves an empty slot |
| TouchedSet.Touched.FirstTouch | runtime/gemmlir_rt.c:245-250 | clears exactly the buffer the first time it is about to be written, and never again |
| TouchedSet.Touched.constructor | runtime/gemmlir_rt.c:202-203 | the table starts empty |
| TouchedSet.Slot | runtime/gemmlir_rt.c:205-211 | the probe terminates because a slot is empty, and stops at the pointer if it is stored and at an empty slot if not |
| TouchedSet.Rehash | runtime/gemmlir_rt.c:216-229 | moving into a larger table keeps the set, the count and every pointer reachable from its home slot without a gap |
| TouchedSet.Insert | runtime/gemmlir_rt.c:240-241 | storing at the empty slot a probe found keeps every stored pointer reachable without a gap |
| TouchedSet.NotStored | runtime/gemmlir_rt.c:205-211 | a probe that reaches an empty slot has proved the pointer absent |
| SwarWords.GeneralIsUnsignedMax | scripts/poolswar.c:49-57 | for every pair of words each byte is the unsigned maximum: no borrow crosses a byte |
| SwarWords.GeneralIsSignedMax | scripts/poolswar.c:46-57 | between sign flips each byte is the signed maximum |
| SwarWords.CompareLane | scripts/poolswar.c:50-54 | the comparison bit of a byte is set exactly when its left byte is at least its right one |
| SwarWords.CheapIsGeneral | scripts/poolswar.c:35-44 | where all bytes are below 0x80 the cheap formula is the general one |
| SwarWords.CheapKeepsLow | scripts/poolswar.c:40-44 | the cheap maximum stays in its domain |
| PoolSwar.PoolScalar | scripts/poolswar.c:21-33 | the scalar pool computes the windowed signed maximum of every output byte |
| PoolSwar.PoolGeneral | scripts/poolswar.c:61-75 | the word-parallel pool equals the scalar pool on every input |
| PoolSwar.PoolSwar | scripts/poolswar.c:77-90 | the cheap pool equals the scalar pool whenever every byte is below 0x80 |
| PoolSwar.MaxIsMax | scripts/poolswar.c:25-31 | the windowed maximum bounds every tap and is one of them, or the starting -128 |
| PoolSwar.PooledIsMaximum | scripts/poolswar.c:21-33 | byte (y, x, ch) of the row-major result is the greatest of the bytes of channel ch in the k rows from y and the k columns from x |
| PoolSwar.GeneralWindow | scripts/poolswar.c:65-72 | a word of channels pools like its eight bytes |
| PoolSwar.CheapWindow | scripts/poolswar.c:81-87 | the same for the cheap formula, which starts from zero |
| IntegerSoftmax.SoftmaxRow | runtime/gemmlir_rt_cpu.c:180-195 | with the spread within 46783 no 32-bit operation overflows, the row becomes its values and their sum is positive |
| IntegerSoftmax.Element | runtime/gemmlir_rt_cpu.c:187-193 | one element in 32-bit arithmetic equals its exact value: with q its distance to the maximum and z = -q*5041/65536 it is (q + 13*z + 27)^2 + 383 divided by 2^z and rounded down while z is at most 30, and zero from then on |
| IntegerSoftmax.RowMaximum | runtime/gemmlir_rt_cpu.c:180-183 | the maximum found is an element and bounds all of them |
| IntegerSoftmax.OverflowBound | runtime/gemmlir_rt_cpu.c:187-193 | the exact bound: nothing overflows if and only if the difference is at least -46783, and beyond it the square on line 192 does, even where its result is discarded |
| IntegerSoftmax.ValueMonotone | runtime/gemmlir_rt_cpu.c:188-193 | a larger input never gets a smaller value, across every jump of z |
| IntegerSoftmax.ValueLaw | runtime/gemmlir_rt_cpu.c:188-193 | the value written out as that quotient; within nine halvings of the maximum it is never zero, and from eleven on it always is |
| IntegerSoftmax.RowLaw | runtime/gemmlir_rt_cpu.c:180-195 | every element becomes the value of its distance to an element none exceeds, and the sum is over all of them |
| IntegerSoftmax.OutputIsShare | runtime/gemmlir_rt_cpu.c:196-198 | with exact floats an output is the value's share of the sum in 127ths, off by half a unit at most |
| IntegerSoftmax.ExponentMonotone | runtime/gemmlir_rt_cpu.c:188-190 | z falls as the input rises and stays within 0 and 32 |
| IntegerSoftmax.SoftmaxOrder | runtime/gemmlir_rt_cpu.c:180-198 | the sum is positive and the outputs keep the order of the inputs and lie within 0 and 127, for any monotone rounding of the float factor and product that leaves 0 and 1 alone |
| IntegerSoftmax.OutputOrder | runtime/gemmlir_rt_cpu.c:196-198 | the final scaling by the float 127 over the sum, its rounding to even and its saturation keep order and range, however the floats round |
| IntegerSoftmax.Constants | runtime/gemmlir_rt_cpu.c:173-178 | the integer constants are the truncations of the real ones |
| Rounding.Nearest | lib/Conversion/LinalgToGemmlir/LinalgToGemmlirPass.cpp:925-931 | the rounding is to nearest with ties to even (roundTiesToEven, section 4.3.1 of IEEE 754-2008) |
| Rounding.FixesIntegers | lib/Conversion/LinalgToGemmlir/LinalgToGemmlirPass.cpp:925-931 | rounding fixes integers |
| Rounding.Monotone | lib/Conversion/LinalgToGemmlir/LinalgToGemmlirPass.cpp:939-943 | rounding is monotone |
| Rounding.RoundsExtrema | lib/Conversion/LinalgToGemmlir/LinalgToGemmlirPass.cpp:939-943 | rounding commutes with minimum and maximum |
| RequantizeTail.RecognitionSound | lib/Conversion/LinalgToGemmlir/LinalgToGemmlirPass.cpp:944-1109 | every tail that is recognized computes, on every accumulator and bias, the clamp of the rounded scaled sum with one scale and one relu flag |
| RequantizeTail.MatchRequantize | lib/Conversion/LinalgToGemmlir/LinalgToGemmlirPass.cpp:979-1109 | the matcher returns for the body of a tail what the recognition finds, and what it returns is, on every accumulator and bias, what the body computes |
| RequantizeTail.StepBack | lib/Conversion/LinalgToGemmlir/LinalgToGemmlirPass.cpp:1010-1086 | a turn of the walk that goes on keeps the whole tail equal to what has been collected applied to what is left, from any tail and for either saturation |
| RequantizeTail.StepSound | lib/Conversion/LinalgToGemmlir/LinalgToGemmlirPass.cpp:1010-1086 | each step of the walk keeps the tail equal to what has been collected applied to what is left |
| RequantizeTail.WalkSound | lib/Conversion/LinalgToGemmlir/LinalgToGemmlirPass.cpp:1010-1086 | so does the whole walk, for any sequence of scalings, relus, bounds and zero additions |
| RequantizeForms.BuiltRecognized | lib/Conversion/LinalgToGemmlir/LinalgToGemmlirPass.cpp:925-1109 | every tail built around the accumulator from positive products and quotients, relus, bounds that lie beyond what is saturated, and zero additions, in all their spellings, is recognized, with the product of its factors as the scale |
| RequantizeForms.RecognizedBuilt | lib/Conversion/LinalgToGemmlir/LinalgToGemmlirPass.cpp:925-1109 | nothing else is: what is recognized has been built that way |
| RequantizeTail.ReluHoists | lib/Conversion/LinalgToGemmlir/LinalgToGemmlirPass.cpp:939-943 | a relu anywhere in a chain of positive scalings is a lower saturation at zero |
| RequantizeTail.UpperBoundDrops | lib/Conversion/LinalgToGemmlir/LinalgToGemmlirPass.cpp:1036-1050 | an upper bound can be dropped if and only if its scaled value rounds to at least 127 |
| RequantizeTail.LowerBoundDrops | lib/Conversion/LinalgToGemmlir/LinalgToGemmlirPass.cpp:1051-1061 | a lower bound can be dropped if and only if its scaled value rounds to no more than the saturation |
| RequantizeTail.UpperGuard | lib/Conversion/LinalgToGemmlir/LinalgToGemmlirPass.cpp:1046-1047 | the guard on an upper bound implies that it can be dropped; between 126.5 and 127 it is stricter than needed |
| RequantizeTail.LowerGuard | lib/Conversion/LinalgToGemmlir/LinalgToGemmlirPass.cpp:1057-1058 | the guard on a lower bound implies that it can be dropped |
| RequantizeTail.MatchUpperBound | lib/Conversion/LinalgToGemmlir/LinalgToGemmlirPass.cpp:787-838 | what is matched as an upper bound computes a minimum, however it is spelled |
| RequantizeTail.MatchLowerBound | lib/Conversion/LinalgToGemmlir/LinalgToGemmlirPass.cpp:840-890 | what is matched as a lower bound computes a maximum |
| RequantizeTail.MatchRelu | lib/Conversion/LinalgToGemmlir/LinalgToGemmlirPass.cpp:892-923 | what is matched as a relu computes the maximum with zero |
| RequantizeTail.MatchZeroAdd | lib/Conversion/LinalgToGemmlir/LinalgToGemmlirPass.cpp:1062-1084 | what is matched as an addition of zero changes nothing |
| RequantizeTail.MatchClamp | lib/Conversion/LinalgToGemmlir/LinalgToGemmlirPass.cpp:549-600 | what is matched as a clamp with ordered bounds computes one |
| FoldRequantize.Fold | lib/Conversion/LinalgToGemmlir/LinalgToGemmlirPass.cpp:1117-1219 | rewrites exactly the programs its checks accept, to exactly the folded program |
| FoldRequantize.FoldSound | lib/Conversion/LinalgToGemmlir/LinalgToGemmlirPass.cpp:1113-1220 | computed element by element and into memory that may be an operand's, an accepted fold leaves every buffer but the temporary with the same final contents, provided that nothing in between writes or frees the operands and the bias, that no region uses the temporary, and that neither result goes where operands are still to be read |
| RequantizeExact.FoldExact | lib/Conversion/LinalgToGemmlir/LinalgToGemmlirPass.cpp:1141-1217 | over all tails, contents, effects of the operations in between and remains of freed memory, the fold keeps its meaning if and only if no operation, region or deallocation in between can change an operand or the bias by any name, and neither result goes into the left matrix with more than one column, or into the right one or a repeated bias with more than one row |
| FoldRequantize.TailsAgree | lib/Conversion/LinalgToGemmlir/LinalgToGemmlirPass.cpp:1206-1215 | requantizing the accumulators of a matmul is the scaled matmul, with 32-bit wrap-around, on a bias of its own or the tail's |
| FoldRequantize.FoldPiece | lib/Conversion/LinalgToGemmlir/LinalgToGemmlirPass.cpp:1206-1217 | the piece of the program between the two operations has the same effect before and after |
| FoldRequantize.ClearMatMul | runtime/gemmlir_rt_cpu.c:53-66 | a matmul whose result does not go where operands are still to be read writes its accumulators, as though the result went elsewhere |
| RequantizeExact.UnstableBreaks | lib/Conversion/LinalgToGemmlir/LinalgToGemmlirPass.cpp:1141-1144 | under the plain tail an unstable program leaves a different first element, on contents and effects given outright |
| RequantizeExact.LeftBreaks | lib/Conversion/LinalgToGemmlir/LinalgToGemmlirPass.cpp:1155-1217 | a result put into the left matrix is read back for the second column: contents on which the two programs differ there |
| RequantizeExact.RightBreaks | lib/Conversion/LinalgToGemmlir/LinalgToGemmlirPass.cpp:1155-1217 | a result put into the right matrix is read back for the second row |
| RequantizeExact.BiasBreaks | lib/Conversion/LinalgToGemmlir/LinalgToGemmlirPass.cpp:1185-1192 | a result put into a repeated row of biases is added to the second row |
| RequantizeExact.RefilledBias | lib/Conversion/LinalgToGemmlir/LinalgToGemmlirPass.cpp:1141-1144 | a program the checks accept, with the bias refilled in between, whose result the fold changes |
| RequantizeExact.FreedOperand | lib/Conversion/LinalgToGemmlir/LinalgToGemmlirPass.cpp:193-205 | a program the checks accept, with the memory of a reshaped operand freed in between, whose result the fold changes |
| RequantizeExact.CapturedOperand | lib/Conversion/LinalgToGemmlir/LinalgToGemmlirPass.cpp:193-205 | a program the checks accept, with a region in between that writes the left matrix without having it as an operand, whose result the fold changes |
| RequantizeExact.IntoOperand | lib/Conversion/LinalgToGemmlir/LinalgToGemmlirPass.cpp:1155-1217 | a program the checks accept that requantizes into the left matrix itself: the fold changes its result |
| RequantizeExact.WrittenOperand | lib/Conversion/LinalgToGemmlir/LinalgToGemmlirPass.cpp:200-201 | a program with a known write of the left matrix in between is refused |
| RequantizeExact.ReadOperand | lib/Conversion/LinalgToGemmlir/LinalgToGemmlirPass.cpp:185-192 | one with a known read of it is accepted and stable |
| FoldRequantize.OnlyReshapes | lib/Conversion/LinalgToGemmlir/LinalgToGemmlirPass.cpp:134-145 | the checks refuse any window of the temporary made after the matmul, so from then on it is only reached by reshapes |
| FoldRequantize.NextUseOfBuffer | lib/Conversion/LinalgToGemmlir/LinalgToGemmlirPass.cpp:136-145 | finds the first operation naming the buffer by any of its reshapes, and there is none before it |
| FoldRequantize.UntouchedBetween | lib/Conversion/LinalgToGemmlir/LinalgToGemmlirPass.cpp:193-205 | true exactly when every operation in between leaves the values alone by name |
| FoldRequantize.AloneExactly | lib/Conversion/LinalgToGemmlir/LinalgToGemmlirPass.cpp:185-205 | for operations that name allocations only, the check for writes lets one pass exactly when it leaves the allocation as it was, whatever an opaque one does: reading is no reason to refuse |
| FoldRequantize.AcceptedExactly | lib/Conversion/LinalgToGemmlir/LinalgToGemmlirPass.cpp:1124-1202 | for such programs what is accepted is, without the checks' own terms, that between the two operations nothing names the temporary and both matrices are left as they were, and that afterwards it is only freed |
| FoldRequantize.PassedMeansKept | lib/Conversion/LinalgToGemmlir/LinalgToGemmlirPass.cpp:1141-1144 | such an accepted program leaves both matrices at the requantization what they were at the matmul, for every store and all effects |
| BufferPrograms.AvoidingRun | lib/Conversion/LinalgToGemmlir/LinalgToGemmlirPass.cpp:134-145 | operations that do not name the memory of a buffer neither change it nor depend on it |
| BufferPrograms.IgnoringRun | lib/Conversion/LinalgToGemmlir/LinalgToGemmlirPass.cpp:1194-1202 | operations that do not read a buffer, freeing it at most, cannot tell apart stores that differ only there |
| BufferPrograms.SparingRun | lib/Conversion/LinalgToGemmlir/LinalgToGemmlirPass.cpp:185-205 | operations that neither write nor free a buffer leave it as it was |
| BufferPrograms.ComputedAt | runtime/gemmlir_rt_cpu.c:53-66 | each element of a result is computed out of memory as the elements before it have left it |
| MatmulRuntime.FullMatmul | runtime/gemmlir_rt_cpu.c:53-66 | the three nested loops leave in row i and column j the wrapped sum of the bias and of the products of that row and column, with either matrix stored transposed, and leave the rest of the array |
| MatmulRuntime.MatMulIsFull | runtime/gemmlir_rt_cpu.c:53-66 | into memory of its own that is what a matmul of the programs writes |
| BufferPrograms.ReshapeBase | lib/Conversion/LinalgToGemmlir/LinalgToGemmlirPass.cpp:119-132 | stripping reshapes keeps the memory named |
| ElideCopy.Elide | lib/Conversion/LinalgToGemmlir/LinalgToGemmlirPass.cpp:1556-1602 | rewrites exactly the programs and operand types its checks accept, to exactly the program without the copy |
| ElideCopy.ElideSound | lib/Conversion/LinalgToGemmlir/LinalgToGemmlirPass.cpp:1543-1603 | if nothing is named after it is freed, the rewritten program leaves every buffer but the temporary with the same final contents |
| ElideCopy.ElidedFreesLast | lib/Conversion/LinalgToGemmlir/LinalgToGemmlirPass.cpp:1593-1600 | the rewritten program still names nothing after it is freed |
| ElideCopy.WriterRedirects | lib/Conversion/LinalgToGemmlir/LinalgToGemmlirPass.cpp:1595-1599 | an operation that only writes the temporary writes the same thing into the target instead |
| ElideCopy.FindWriter | lib/Conversion/LinalgToGemmlir/LinalgToGemmlirPass.cpp:1573-1585 | finds the sole writer of the source before the copy, or there is none |
| ElideCopy.CheckUnused | lib/Conversion/LinalgToGemmlir/LinalgToGemmlirPass.cpp:1586-1591 | true exactly when nothing but a deallocation uses the target before the copy |
| ElideCopy.NoAlias | lib/Conversion/LinalgToGemmlir/LinalgToGemmlirPass.cpp:1564-1583 | memory no view is made of is only ever named directly |
| ElideCopy.PlainAccepted | lib/Conversion/LinalgToGemmlir/LinalgToGemmlirPass.cpp:1554-1593 | where all is named by allocation, a copy whose source has one writer that does not read it, and otherwise only deallocations, is elided if nothing uses the target before it |
| PaddingFold.Fold | lib/Conversion/LinalgToGemmlir/LinalgToGemmlirPass.cpp:1390-1509 | folds exactly when the scan and the geometry allow it, into exactly that padding and input dilation |
| PaddingExact.FoldExact | lib/Conversion/LinalgToGemmlir/LinalgToGemmlirPass.cpp:1385-1510 | for every window and call the guards accept, dense or depthwise, every program the scan accepts, every sharing of the output's memory with the padded buffer or the source and every order in which the call computes: output extents and all outputs, for every filter, whatever is made of the accumulators and all contents, are kept if and only if the call had no input dilation of its own; the fill comes before the copy with the source neither written nor freed after it, or no output reads source data; and neither call reads what it has put a result over |
| PaddingFold.Scan | lib/Conversion/LinalgToGemmlir/LinalgToGemmlirPass.cpp:1401-1431 | finds one zero fill, one window with one use and one copy into it, with nothing else naming the buffer or the window, or there is no such triple |
| PaddingFold.AtTheCall | lib/Conversion/LinalgToGemmlir/LinalgToGemmlirPass.cpp:1401-1431 | what the padded buffer and the source hold at the call, in both orders of fill and copy, where any other use of the buffer, of the window or of a window with further uses may change it |
| PaddingFold.ScannedIs | lib/Conversion/LinalgToGemmlir/LinalgToGemmlirPass.cpp:1406-1429 | what the scan lets pass besides the three are writes and deallocations of the source and operations on other memory |
| PaddingFold.BorderedPlaces | lib/Conversion/LinalgToGemmlir/LinalgToGemmlirPass.cpp:1457-1463 | source element (n, y, x, ch) lies at (n, offset + y*spread, offset + x*spread, ch) of the padded buffer, and of what a padded and dilated call slides over |
| PaddingFold.BorderedElsewhere | lib/Conversion/LinalgToGemmlir/LinalgToGemmlirPass.cpp:1457-1463 | and whatever is not background there lies at the place of one |
| PaddingFold.OneTapOutput | lib/Gemmlir/GemmlirOps.cpp:142-147 | a single weight at row i and column j is multiplied for output (oy, ox) with position (oy*stride + i*dilation, ox*stride + j*dilation) |
| PaddingFold.OutExtentFits | lib/Gemmlir/GemmlirOps.cpp:142-147 | the output extent is the number of windows that fit: the last one does and the next would not |
| PaddingFold.SoundFold | lib/Conversion/LinalgToGemmlir/LinalgToGemmlirPass.cpp:1457-1463 | a sound program has the same output extents and, for every filter and at every output index, the same accumulator over the contents at the call |
| PaddingFold.SameExtents | lib/Gemmlir/GemmlirOps.cpp:142-147 | the output extent computed from the folded call is that of the padded one, unless the call had an input dilation of its own, and then it never is |
| PaddingFold.FieldsAt | lib/Conversion/LinalgToGemmlir/LinalgToGemmlirPass.cpp:1457-1475 | what the call slides over at every position, before the fold and after it |
| PaddingFold.UnsoundFold | lib/Conversion/LinalgToGemmlir/LinalgToGemmlirPass.cpp:1401-1431 | an unsound program changes the output whose window meets source data, for the filter with that tap alone |
| PaddingFold.FirstMeets | lib/Conversion/LinalgToGemmlir/LinalgToGemmlirPass.cpp:1485-1497 | since the padding is less than the kernel, the first output of a call without filter dilation reads source data |
| PaddingExact.FilledLast | lib/Conversion/LinalgToGemmlir/LinalgToGemmlirPass.cpp:1401-1431 | the fill after the copy passes the scan and the guards, and the fold changes the output, in whatever order it is computed |
| PaddingExact.SourceFreed | lib/Conversion/LinalgToGemmlir/LinalgToGemmlirPass.cpp:1401-1431 | a source freed between the copy and the call passes the scan and the guards, and the fold changes the output |
| PaddingExact.DilatedAlready | lib/Conversion/LinalgToGemmlir/LinalgToGemmlirPass.cpp:1466-1482 | a call that dilates its input already passes the guards when the window has unit stride, and the fold changes the output extents |
| PaddingExact.IntoSource | lib/Conversion/LinalgToGemmlir/LinalgToGemmlirPass.cpp:1499-1503 | a call whose output is the source of the copy passes the scan and the guards, and after the fold it reads what it has just written |
| PaddingExact.ChangeLost | lib/Conversion/LinalgToGemmlir/LinalgToGemmlirPass.cpp:1417-1427 | an operation that names the buffer or uses the window is refused for a reason: what it writes at a position an output reads is lost by the fold |
| PaddingExact.FirstChangeLost | lib/Conversion/LinalgToGemmlir/LinalgToGemmlirPass.cpp:1417-1427 | after the copy it always is, and between fill and copy whenever there is a border |
| PaddingExact.OpenWindowLost | lib/Conversion/LinalgToGemmlir/LinalgToGemmlirPass.cpp:1413-1415 | a window with another use is refused for a reason too: what that use writes is lost |
| ConvVerifier.FoldedVerifies | lib/Gemmlir/GemmlirOps.cpp:180-250 | an operation its verifier accepts is folded into one it accepts, if it did not dilate its input and the source's rows follow its pixel stride; without pooling only then |
| ConvVerifier.VerifyExactly | lib/Gemmlir/GemmlirOps.cpp:180-250 | without pooling the verifier accepts exactly the operations whose rows follow the pixel stride, whose attributes and shapes are as listed and whose output has as many rows and columns as windows fit -- or one, where none fits but by less than a stride |
| ConvVerifier.WindowTooLarge | lib/Gemmlir/GemmlirOps.cpp:142-147 | three taps at a stride of two over two rows and columns: accepted, though the window does not fit |
| ConvVerifier.RowsFollowMeans | lib/Gemmlir/GemmlirOps.cpp:167-178 | rows follow the stride exactly when every element lies where the runtime, told one stride between pixels, looks for it |
| PaddingExact.UntroubledAt | lib/Conversion/LinalgToGemmlir/LinalgToGemmlirPass.cpp:1499-1503 | where no output reads what an earlier one was put over, every accumulator is what it would be if the results went elsewhere |
| PaddingExact.TroubleShows | lib/Conversion/LinalgToGemmlir/LinalgToGemmlirPass.cpp:1499-1503 | where one does, it shows: contents, a filter and an output for which the accumulator differs |
| Im2Col.Im2ColIsConvolution | lib/Transforms/ConvToImg2Col/ConvToImg2ColPass.cpp:279-328 | for all shapes, strides and dilations packing, two collapses, the matmul and the final expand give at every output index the direct convolution sum plus its init |
| Im2Col.OneTapConvolves | lib/Transforms/ConvToImg2Col/ConvToImg2ColPass.cpp:279-328 | a filter with a single weight at row i, column j, from channel ch to channel k adds to output (y, x, k) that weight times the image element at (y*sh + i*dh, x*sw + j*dw, ch), and to other channels nothing |
| Im2Col.PackedAt | lib/Transforms/ConvToImg2Col/ConvToImg2ColPass.cpp:295-312 | each element of the six-index pack is the input element the tap reads |
| Im2Col.PackTakes | lib/Transforms/ConvToImg2Col/ConvToImg2ColPass.cpp:295-312 | element (0, y, x, i, j, ch) of the row-major pack is element (0, y*sh + i*dh, x*sw + j*dw, ch) of the row-major image, whenever the tap lies in it |
| Im2Col.ColumnEntry | lib/Transforms/ConvToImg2Col/ConvToImg2ColPass.cpp:314-317 | a row of the collapsed pack is the window of its output position |
| Im2Col.WindowSum | lib/Transforms/ConvToImg2Col/ConvToImg2ColPass.cpp:318-325 | the flat sum of the matmul is the nested sum of the convolution |
| BorderSlabs.Rewrite | lib/Transforms/FillOnlyTheBorder/FillOnlyTheBorderPass.cpp:125-196 | emits exactly the slabs of the complement, or nothing when the layout is not plain or the box is malformed, too small to pay or the whole buffer |
| BorderSlabs.SlabsCoverBorder | lib/Transforms/FillOnlyTheBorder/FillOnlyTheBorderPass.cpp:94-99 | for any rank, shape and in-bounds box the slabs hold every point outside the box exactly once and no point inside it |
| BorderSlabs.SlabsVolume | lib/Transforms/FillOnlyTheBorder/FillOnlyTheBorderPass.cpp:151-158 | the slabs' volumes and the box's sum to the buffer's |
| BorderFill.BorderExact | lib/Transforms/FillOnlyTheBorder/FillOnlyTheBorderPass.cpp:105-108 | the rewrite keeps the meaning on every initial buffer, whatever is written afterwards and whether or not the uncertain operations run, if and only if every point of the box is certain to be written again before anything reads it |
| BorderFill.BoxWrittenNext | lib/Transforms/FillOnlyTheBorder/FillOnlyTheBorderPass.cpp:44-85 | finds the first slice of the buffer that is written and not read back, with nothing before it naming the buffer |
| BorderFill.ScanSuffices | lib/Transforms/FillOnlyTheBorder/FillOnlyTheBorderPass.cpp:44-85 | after a successful scan, when nothing else writes the box, the meaning is kept if and only if the slice's user is certain to run, it covers the box where the box lies in the filled buffer, and neither it nor anything before it reads the box |
| BorderFill.ScanExactly | lib/Transforms/FillOnlyTheBorder/FillOnlyTheBorderPass.cpp:47-85 | a slice is settled for exactly when nothing its user may do reads the box, and an operation is passed over exactly when nothing it may do touches the buffer |
| BorderFill.FoundKeeps | lib/Transforms/FillOnlyTheBorder/FillOnlyTheBorderPass.cpp:44-85 | a slice that is found and whose user is certain to run and writes the box keeps the meaning, whatever the operations up to it may do and whatever follows |
| BorderFill.UncoveredBreaks | lib/Transforms/FillOnlyTheBorder/FillOnlyTheBorderPass.cpp:54-77 | a slice that is not settled for has a user that may read the box first, and then the fill is missed |
| BorderFill.NotPassedBreaks | lib/Transforms/FillOnlyTheBorder/FillOnlyTheBorderPass.cpp:79-83 | an operation that is not passed over may read the box first, and then the fill is missed |
| BorderFill.Accumulates | lib/Transforms/FillOnlyTheBorder/FillOnlyTheBorderPass.cpp:66-77 | an operation that accumulates into the slice is refused, and the fill it starts from is needed |
| BorderFill.CoversExactly | lib/Transforms/FillOnlyTheBorder/FillOnlyTheBorderPass.cpp:63-78 | through a view of the filled buffer that starts at some element of it, a writer with a map of dimensions and zeros covers the box if and only if the view starts where the buffer does, no iteration dimension is empty and every dimension of the slice longer than one has an iteration dimension to itself |
| BorderFill.CopyCovers | lib/Transforms/FillOnlyTheBorder/FillOnlyTheBorderPass.cpp:51-62 | a copy into the slice covers the box if and only if the view the slice is taken of starts where the filled buffer does |
| BorderFill.OneColumn | lib/Transforms/FillOnlyTheBorder/FillOnlyTheBorderPass.cpp:63-78 | a writer that fills one column of the slice is accepted, and the fill it needed is dropped |
| BorderFill.CopyUnderCondition | lib/Transforms/FillOnlyTheBorder/FillOnlyTheBorderPass.cpp:54-62 | a copy that may not run is accepted, and the fill it may have needed is dropped |
| BorderFill.ReadInBetween | lib/Transforms/FillOnlyTheBorder/FillOnlyTheBorderPass.cpp:51-62 | an operation between the slice and the copy into it is not looked at, and may read what is no longer filled |
| BorderFill.SliceOfView | lib/Transforms/FillOnlyTheBorder/FillOnlyTheBorderPass.cpp:51-52 | a slice of a view that starts further into the buffer is taken for a slice of the buffer: the fill leaves out the first rows and columns, and the copy writes others |
| Relayout.FindTiling | lib/Transforms/FoldRelayoutIntoProducers/FoldRelayoutIntoProducersPass.cpp:133-202 | an axis is found only if every index of it lies in exactly one slice, and with no empty dimension it is refused only if the slices tile no axis |
| Relayout.DifferingAxis | lib/Transforms/FoldRelayoutIntoProducers/FoldRelayoutIntoProducersPass.cpp:144-177 | accepts exactly static unit-stride slices that differ on at most one dimension, and names it |
| Relayout.SortByOffset | lib/Transforms/FoldRelayoutIntoProducers/FoldRelayoutIntoProducersPass.cpp:190-194 | the order lists every slice once, by ascending offset |
| Relayout.NextMeets | lib/Transforms/FoldRelayoutIntoProducers/FoldRelayoutIntoProducersPass.cpp:195-200 | in a tiling each slice in order starts where the one before it ended |
| Relayout.PackedTiles | lib/Transforms/FoldRelayoutIntoProducers/FoldRelayoutIntoProducersPass.cpp:187-202 | slices that start at zero, meet exactly and reach the extent tile the axis |
| Relayout.FoldRelayout | lib/Transforms/FoldRelayoutIntoProducers/FoldRelayoutIntoProducersPass.cpp:139-244 | rewrites every producer when the slices tile an axis and refuses otherwise |
| Relayout.RewriteProducer | lib/Transforms/FoldRelayoutIntoProducers/FoldRelayoutIntoProducersPass.cpp:214-241 | the new slice and the new output map are the old ones permuted |
| Relayout.RewrittenValid | lib/Transforms/FoldRelayoutIntoProducers/FoldRelayoutIntoProducersPass.cpp:230-236 | the permuted map fits the permuted slice |
| Relayout.PlaceRewritten | lib/Transforms/FoldRelayoutIntoProducers/FoldRelayoutIntoProducersPass.cpp:230-240 | an iteration of a rewritten producer writes where the transpose would have moved its element |
| Relayout.PlaceIs | lib/Transforms/FoldRelayoutIntoProducers/FoldRelayoutIntoProducersPass.cpp:95-119 | an iteration writes at its slice's offset plus the iteration dimensions the output map names |
| Relayout.TransposeIs | lib/Transforms/FoldRelayoutIntoProducers/FoldRelayoutIntoProducersPass.cpp:204-213 | dimension d of a transposed index is dimension perm[d] of the index |
| Relayout.RunTransposed | lib/Transforms/FoldRelayoutIntoProducers/FoldRelayoutIntoProducersPass.cpp:213-244 | run into the transposed buffer the producers do transposed whatever they did, reductions included |
| Relayout.RelayoutExact | lib/Transforms/FoldRelayoutIntoProducers/FoldRelayoutIntoProducersPass.cpp:204-249 | run back to back, the rewritten producers leave the destination as the transpose did, whatever both buffers held, exactly when what they leave in the source does not depend on what it held |
| Relayout.BodiesExact | lib/Transforms/FoldRelayoutIntoProducers/FoldRelayoutIntoProducersPass.cpp:95-119 | slices that tile an axis are relaid out exactly for all bodies if and only if no producer of a slice that is not empty uses the element it writes or reduces over nothing |
| RelayoutExact.BlockExact | lib/Transforms/FoldRelayoutIntoProducers/FoldRelayoutIntoProducersPass.cpp:67-249 | over all contents and all the producers and other operations may do, an accepted fold keeps every final content and every read if and only if no producer uses the element it writes or reduces over nothing; some transpose comes after every producer; the destination is read only before the first of them or after such a transpose; it is not written after a producer and before a transpose; and no producer reads it, but for one that comes first of all with a single iteration -- or else nothing happens at all |
| RelayoutBlock.RunInStep | lib/Transforms/FoldRelayoutIntoProducers/FoldRelayoutIntoProducersPass.cpp:204-249 | in such a run both programs agree at every point: what has been produced lies where the transpose takes it, and all else is the same, with producers that read the destination as it is at each iteration |
| RelayoutBlock.HarmlessKeeps | lib/Transforms/FoldRelayoutIntoProducers/FoldRelayoutIntoProducersPass.cpp:204-249 | a run that meets the conditions leaves the same destination and the same of all other memory, for all contents and behaviours |
| RelayoutExact.FreshRun | lib/Transforms/FoldRelayoutIntoProducers/FoldRelayoutIntoProducersPass.cpp:78-84 | between a producer and the next transpose the destination shows what was produced only after the fold |
| RelayoutExact.StaleRun | lib/Transforms/FoldRelayoutIntoProducers/FoldRelayoutIntoProducersPass.cpp:97-132 | before a producer has run the destination shows what the source held at first only if there was a transpose and no fold |
| RelayoutExact.NotedRun | lib/Transforms/FoldRelayoutIntoProducers/FoldRelayoutIntoProducersPass.cpp:78-84 | an operation that sees something else there notes something else |
| RelayoutExact.WriteRun | lib/Transforms/FoldRelayoutIntoProducers/FoldRelayoutIntoProducersPass.cpp:78-84 | what an operation writes into the destination in between is overwritten by the transpose and left by the fold |
| RelayoutExact.LateRun | lib/Transforms/FoldRelayoutIntoProducers/FoldRelayoutIntoProducersPass.cpp:97-132 | a producer after the transpose reaches the destination only after the fold |
| RelayoutExact.ZeroedOver | lib/Transforms/FoldRelayoutIntoProducers/FoldRelayoutIntoProducersPass.cpp:78-84 | produce, zero the destination, transpose: an accepted block that ends in what was produced before the fold and in zeros after it |
| RelayoutExact.InPlace | lib/Transforms/FoldRelayoutIntoProducers/FoldRelayoutIntoProducersPass.cpp:97-119 | a square producer that reads the destination, transposed back into it: accepted, and after the fold it reads elements it has already written |
| RelayoutExact.NotTransposed | lib/Transforms/FoldRelayoutIntoProducers/FoldRelayoutIntoProducersPass.cpp:204-249 | a transpose under a condition that does not hold: accepted, and the destination is written nevertheless |
| Relayout.WrittenByOne | lib/Transforms/FoldRelayoutIntoProducers/FoldRelayoutIntoProducersPass.cpp:139-202 | every element of the source is written by exactly one producer and nothing else is |
| Relayout.TilesRelay | lib/Transforms/FoldRelayoutIntoProducers/FoldRelayoutIntoProducersPass.cpp:139-249 | what the check accepts is exact for any permutation and unequal widths, for producers that make new elements |
| BatchNorm.Evaluate | lib/Transforms/FoldBatchNorm/FoldBatchNormPass.cpp:56-132 | the operation-by-operation evaluation is the abstract semantics the soundness result is about |
| BatchNorm.EvaluateSound | lib/Transforms/FoldBatchNorm/FoldBatchNormPass.cpp:50-132 | whenever it returns (a, b) the body is defined on every real x and computes a*x+b |
| BatchNorm.NormEvaluates | lib/Transforms/FoldBatchNorm/FoldBatchNormPass.cpp:50-132 | a batch norm in evaluation mode comes out as gamma / sqrt(var + eps) and beta - mean * gamma / sqrt(var + eps) |
| BatchNorm.CombineSound | lib/Transforms/FoldBatchNorm/FoldBatchNormPass.cpp:92-119 | each operation of the vocabulary acts on linear forms as it does on numbers |
| BatchNorm.EvaluateChannels | lib/Transforms/FoldBatchNorm/FoldBatchNormPass.cpp:250-259 | an affine for every channel, or some channel has none |
| BatchNorm.ScaleWeights | lib/Transforms/FoldBatchNorm/FoldBatchNormPass.cpp:267-287 | the flat rule multiplies every weight by the scale of its own channel, for any shape and axis |
| BatchNorm.TapChannel | lib/Transforms/FoldBatchNorm/FoldBatchNormPass.cpp:28-48 | each of the five contractions weighs a result element with weights of the element's own channel |
| BatchNorm.TapsAll | lib/Transforms/FoldBatchNorm/FoldBatchNormPass.cpp:28-48 | and with each of those weights in exactly one of its products |
| BatchNorm.ContractScaled | lib/Transforms/FoldBatchNorm/FoldBatchNormPass.cpp:177-183 | a contraction with scaled weights and start base*a+b is a*x+b of the original |
| BatchNorm.FoldSound | lib/Transforms/FoldBatchNorm/FoldBatchNormPass.cpp:184-394 | with weights and start so changed every element of the contraction is what the body made of the original |
| BatchNorm.FoldIntoWeights | lib/Transforms/FoldBatchNorm/FoldBatchNormPass.cpp:236-392 | makes new weights and a new start for exactly the sites whose constants, body, weights and start it accepts, and then every output element equals the body applied to the original contraction, for every input |
| BatchNorm.NormAccepted | lib/Transforms/FoldBatchNorm/FoldBatchNormPass.cpp:236-300 | after a matrix product on a fill it is folded unless its scale is one |
| BatchNorm.NewInit | lib/Transforms/FoldBatchNorm/FoldBatchNormPass.cpp:326-392 | the new start is base*a+b for every channel, as a fill when they are all the same |
| BatchNorm.BaseOf | lib/Transforms/FoldBatchNorm/FoldBatchNormPass.cpp:289-324 | what the contraction starts from on each channel, or the start is refused |
| RowMajor.CoordinateOfFlat | lib/Transforms/FoldBatchNorm/FoldBatchNormPass.cpp:276-284 | dividing a row-major position by the inner extent and taking the remainder by the channels is the channel coordinate |
| BatchNormRelayout.RelayoutOf | lib/Transforms/FoldBatchNorm/FoldBatchNormPass.cpp:134-175 | a permutation is found exactly for maps of dimensions and unit-extent zeros, and it inverts the reads |
| BatchNormRelayout.MatchReads | lib/Transforms/FoldBatchNorm/FoldBatchNormPass.cpp:146-167 | every constant gets an iteration dimension of its own, and there is always one left |
| BatchNormRelayout.RelayoutExact | lib/Transforms/FoldBatchNorm/FoldBatchNormPass.cpp:134-175 | over all extents the transpose put back reads what the map read if and only if no iteration dimension is read twice |
| BatchNormRelayout.RelayoutExactAt | lib/Transforms/FoldBatchNorm/FoldBatchNormPass.cpp:134-175 | at given extents the transpose reads what the map read if and only if every iteration dimension the map does not name has extent one and falls to a dimension of extent one |
| BatchNormRelayout.WholeSound | lib/Transforms/FoldBatchNorm/FoldBatchNormPass.cpp:188-421 | there the folded contraction followed by the transpose leaves at every element, for every input, what the removed operation with its read map left |
| BatchNormRelayout.FoldBatchNorm | lib/Transforms/FoldBatchNorm/FoldBatchNormPass.cpp:188-421 | the whole rewrite, read map included: made for exactly the sites it accepts, with a transpose exactly when the map does not read in order |
| BatchNormRelayout.InOrderSound | lib/Transforms/FoldBatchNorm/FoldBatchNormPass.cpp:406-410 | where the map reads in order the folded contraction alone leaves what the removed operation left, for every input |
| BatchNormRelayout.DiagonalRead | lib/Transforms/FoldBatchNorm/FoldBatchNormPass.cpp:141-175 | the diagonal of a square is recognized as an exchange of axes, which reads something else |
| BatchNormRelayout.RepeatedColumn | lib/Transforms/FoldBatchNorm/FoldBatchNormPass.cpp:141-175 | a column repeated along the rows is recognized as a transpose, which it is not |
| ChannelShuffle.ShuffleIsPermutation | lib/Transforms/FoldChannelShuffle/FoldChannelShufflePass.cpp:98-100 | split, swap and merge of an axis is the permutation of its indices, for any rank |
| ChannelShuffle.ShuffledInverse | lib/Transforms/FoldChannelShuffle/FoldChannelShufflePass.cpp:150-153 | the permutation is a bijection, undone by splitting the other way |
| ChannelShuffle.ShuffledInvolution | lib/Transforms/FoldChannelShuffle/FoldChannelShufflePass.cpp:208-214 | it undoes itself only when the groups are as many as their size, or there is nothing to shuffle |
| ChannelShuffle.BuildPermutation | lib/Transforms/FoldChannelShuffle/FoldChannelShufflePass.cpp:150-153 | the table built by the two loops is that permutation |
| ChannelShuffle.Invert | lib/Transforms/FoldChannelShuffle/FoldChannelShufflePass.cpp:215-217 | the inverted table is the inverse permutation |
| ChannelShuffle.PermuteAxis | lib/Transforms/FoldChannelShuffle/FoldChannelShufflePass.cpp:158-175 | each element of the permuted constant is the element with the permuted coordinate, for any rank and axis |
| ChannelShuffle.ShuffleFoldsIntoFilter | lib/Transforms/FoldChannelShuffle/FoldChannelShufflePass.cpp:177-180 | for both layouts a convolution of the shuffled input is the convolution of the original with the filter's input channels permuted by the inverse |
| ChannelShuffle.OneTapConvolves | lib/Transforms/FoldChannelShuffle/FoldChannelShufflePass.cpp:177-180 | in both layouts a filter with a single weight at row i and column j scales the one element of its channel at (y*sh + i*dh, x*sw + j*dw) |
| ChannelShuffle.FoldSound | lib/Transforms/FoldChannelShuffle/FoldChannelShufflePass.cpp:101-226 | the whole recognized chain, paddings included, can be bypassed: both convolutions agree at every output whose window lies in the padded input |
| ChannelShuffle.PadAllCommutes | lib/Transforms/FoldChannelShuffle/FoldChannelShufflePass.cpp:104-122 | paddings of the other axes that hold the same for every channel commute with the permutation |
| ChannelShuffle.PadCommutesExactly | lib/Transforms/FoldChannelShuffle/FoldChannelShufflePass.cpp:104-122 | one padding commutes with it on every tensor and at every element of the padded shape if and only if what it pads with does not distinguish permuted channels |
| ChannelShuffle.TellingTells | lib/Transforms/FoldChannelShuffle/FoldChannelShufflePass.cpp:104-122 | a recognized chain whose padding holds each channel's number, and does not commute |
| ChannelShuffle.ChannelShuffleOf | lib/Transforms/FoldChannelShuffle/FoldChannelShufflePass.cpp:101-156 | recognizes exactly the chains of single-use split, adjacent swap, merge and channel-sparing paddings |
| ChannelShuffle.SoleSplitAxis | lib/Transforms/FoldChannelShuffle/FoldChannelShufflePass.cpp:29-39 | finds the single group of two among groups of one, or there is none |
| ChannelShuffle.IsSwap | lib/Transforms/FoldChannelShuffle/FoldChannelShufflePass.cpp:43-51 | true exactly for the exchange of two adjacent axes |
| ChannelShuffle.FoldIntoFilter | lib/Transforms/FoldChannelShuffle/FoldChannelShufflePass.cpp:186-226 | the new filter is the old one with its input-channel axis permuted by the inverse, exactly when the chain is recognized and the channels match |
| BlockDiagonal.BuildFilters | lib/Transforms/DepthwiseAsBlockDiagonal/DepthwiseAsBlockDiagonalPass.cpp:125-138 | the scatter leaves each weight on the diagonal of its group and zero everywhere else, in the full groups and in the narrower one |
| BlockDiagonal.ScatterOne | lib/Transforms/DepthwiseAsBlockDiagonal/DepthwiseAsBlockDiagonalPass.cpp:129-137 | one weight goes to the place of its channel and disturbs no other |
| BlockDiagonal.DenseIsDepthwise | lib/Transforms/DepthwiseAsBlockDiagonal/DepthwiseAsBlockDiagonalPass.cpp:45-47 | off the diagonal nothing is added: every accumulator of a block is the depthwise accumulator of its channel |
| BlockDiagonal.BlockDiagonalExact | lib/Transforms/DepthwiseAsBlockDiagonal/DepthwiseAsBlockDiagonalPass.cpp:119-217 | the sequence of dense convolutions leaves every channel what the depthwise convolution left and touches nothing else, for any channel count above the lanes, kernel, bias and pooling |
| BlockDiagonal.WrittenOnce | lib/Transforms/DepthwiseAsBlockDiagonal/DepthwiseAsBlockDiagonalPass.cpp:166-180 | every output channel is written by exactly one of the convolutions |
| BlockDiagonal.Rewrite | lib/Transforms/DepthwiseAsBlockDiagonal/DepthwiseAsBlockDiagonalPass.cpp:79-219 | accepts exactly the packed constant-filter layers wider than one group, and emits one call a group |
| GatherCopy.Linearize | lib/Transforms/GatherToMemrefCopy/GatherToMemrefCopyPass.cpp:33-60 | succeeds exactly on linear expressions, and then adds to the strides and the constant scale times the expression at every index |
| GatherCopy.LinearizeAll | lib/Transforms/GatherToMemrefCopy/GatherToMemrefCopyPass.cpp:234-239 | the strides and offset accumulated over all results are the source offset the gather reads from |
| GatherCopy.ByteRange | lib/Transforms/GatherToMemrefCopy/GatherToMemrefCopyPass.cpp:62-139 | the window computed from the static layout and the view shifts |
| GatherCopy.WindowExact | lib/Transforms/GatherToMemrefCopy/GatherToMemrefCopyPass.cpp:88-96 | the window holds every byte of the view if and only if no dimension that steps has a negative stride |
| GatherCopy.InversePermutation | lib/Transforms/GatherToMemrefCopy/GatherToMemrefCopyPass.cpp:187-192 | inverts a permutation, and refuses exactly what is not one |
| GatherCopy.RelabelEval | lib/Transforms/GatherToMemrefCopy/GatherToMemrefCopyPass.cpp:180-196 | the relabelled read at the index written is the original read at the iteration that writes it |
| GatherCopy.GatherTakes | lib/Transforms/GatherToMemrefCopy/GatherToMemrefCopyPass.cpp:141-159 | an iteration moves the bytes of the source element at the index its read map gives to the destination element at the index its write map gives |
| GatherCopy.OperandsApart | lib/Transforms/GatherToMemrefCopy/GatherToMemrefCopyPass.cpp:199-220 | true exactly when elements and memory agree, no dimension is empty and windows of one allocation do not overlap |
| GatherCopy.RunLength | lib/Transforms/GatherToMemrefCopy/GatherToMemrefCopyPass.cpp:253-258 | the run is the product of the longest suffix packed on both sides |
| GatherCopy.GatherToCopy | lib/Transforms/GatherToMemrefCopy/GatherToMemrefCopyPass.cpp:160-278 | makes a view that reads what the gather reads, and refuses an eligible gather only for a run under eight bytes |
| GatherCopy.SameMoves | lib/Transforms/GatherToMemrefCopy/GatherToMemrefCopyPass.cpp:263-276 | the gather and the copy make the same byte moves, if not in the same order |
| GatherCopy.GatherIsCopy | lib/Transforms/GatherToMemrefCopy/GatherToMemrefCopyPass.cpp:141-279 | for accepted gathers with no negative stride whose windows are apart where they lie the copy is legal and leaves all of memory as the gather did, for any permutation on the write |
| GatherCopy.SameBaseApart | lib/Transforms/GatherToMemrefCopy/GatherToMemrefCopyPass.cpp:199-220 | for operands of one defining operation the check makes sure the windows are apart, wherever the allocation lies |
| GatherCopy.LegalExactly | lib/Transforms/GatherToMemrefCopy/GatherToMemrefCopyPass.cpp:199-220 | for views without gaps the copy reads nothing it writes if and only if the windows are apart where they lie |
| GatherCopy.TwoNamesCollide | lib/Transforms/GatherToMemrefCopy/GatherToMemrefCopyPass.cpp:131-134 | two defining operations of one arena: an accepted gather that writes an element before it reads it |
| GatherCopy.BackwardCollides | lib/Transforms/GatherToMemrefCopy/GatherToMemrefCopyPass.cpp:88-96 | a negative stride: an accepted gather within one allocation that writes an element before it reads it |
| GatherCopy.CopyIsMemrefCopy | lib/Transforms/GatherToMemrefCopy/GatherToMemrefCopyPass.cpp:274-276 | the copy is the one the runtime makes when handed the view and the destination |
| PackCopy.PackIsCopy | lib/Transforms/GatherToMemrefCopy/GatherToMemrefCopyPass.cpp:145-151 | for all shapes, strides and dilations whose windows fit the image, the im2col pack is eligible and leaves memory exactly as one copy from a view of overlapping windows |
| PackCopy.PackReads | lib/Transforms/ConvToImg2Col/ConvToImg2ColPass.cpp:298-312 | the view with strides sh, sw, dh, dw times the image's reads at every column index the element the gather reads |
| PackCopy.PackInside | lib/Transforms/ConvToImg2Col/ConvToImg2ColPass.cpp:298-303 | every tap of the packing lies in the image |
| PackCopy.PackedInjective | lib/Transforms/ConvToImg2Col/ConvToImg2ColPass.cpp:302-312 | a row-major destination has no two elements that share a byte |
| FillToMemset.RepeatedByte | lib/Transforms/FillToMemset/FillToMemsetPass.cpp:27-51 | a byte is returned exactly for constants of whole bytes, 64 bits at most, whose bytes are all that byte |
| FillToMemset.IsContiguous | lib/Transforms/FillToMemset/FillToMemsetPass.cpp:53-81 | accepts exactly layouts whose stepping dimensions are packed and whose elements are whole bytes |
| FillToMemset.ContiguousExact | lib/Transforms/FillToMemset/FillToMemsetPass.cpp:71-78 | a non-empty layout is accepted if and only if every index lies at its row-major position, whatever strides unit dimensions carry |
| FillToMemset.ContiguousIsInterval | lib/Transforms/FillToMemset/FillToMemsetPass.cpp:53-81 | the indices of an accepted view are in bijection with one interval of addresses |
| FillToMemset.ContiguousRun | lib/Transforms/FillToMemset/FillToMemsetPass.cpp:91-110 | finds the longest packed suffix and its element count |
| FillToMemset.MemsetEachRun | lib/Transforms/FillToMemset/FillToMemsetPass.cpp:112-164 | plans one memset per run exactly when a run reaches 64 bytes and some outer dimension steps |
| FillToMemset.NestMembers | lib/Transforms/FillToMemset/FillToMemsetPass.cpp:145-156 | the emitted loops run the memset at exactly the outer indices |
| FillToMemset.RunsAreTheView | lib/Transforms/FillToMemset/FillToMemsetPass.cpp:119-164 | the runs write exactly the view's addresses and no others |
| FillToMemset.MemsetIsFill | lib/Transforms/FillToMemset/FillToMemsetPass.cpp:268-288 | the memsets leave all of memory exactly as the fill did |
| FillToMemset.FillToMemset | lib/Transforms/FillToMemset/FillToMemsetPass.cpp:268-288 | a plan is made only for a repeated byte and fits the view; it is refused only for the reasons the pass gives |
| FixedPointBatchNorm.Rewrite | lib/Transforms/BatchNormInFixedPoint/BatchNormInFixedPointPass.cpp:234-287 | it refuses only if no shift from 24 down to 8 will do; otherwise the coefficients leave room in 32 bits, and every channel and byte gets the reference answer if and only if the bounds are in order, or the low one never fires, or the high one is kept |
| FixedPointBatchNorm.Search | lib/Transforms/BatchNormInFixedPoint/BatchNormInFixedPointPass.cpp:242-269 | the shift found is the largest admissible one |
| FixedPointBatchNorm.Coefficients | lib/Transforms/BatchNormInFixedPoint/BatchNormInFixedPointPass.cpp:247-259 | accepts a shift's coefficients exactly when every channel leaves room, and each is within a half of a*scale*2^k or (b + 1/2)*2^k |
| FixedPointBatchNorm.Compare | lib/Transforms/BatchNormInFixedPoint/BatchNormInFixedPointPass.cpp:260-264 | true exactly when both forms agree on every channel and every byte |
| FixedPointBatchNorm.Needs | lib/Transforms/BatchNormInFixedPoint/BatchNormInFixedPointPass.cpp:271-287 | a clamp is kept exactly when some channel and byte makes it fire |
| FixedPointBatchNorm.Body | lib/Transforms/BatchNormInFixedPoint/BatchNormInFixedPointPass.cpp:314-334 | the emitted multiply, add, shift and kept clamps never overflow 32 bits |
| FixedPointBatchNorm.NearReal | lib/Transforms/BatchNormInFixedPoint/BatchNormInFixedPointPass.cpp:247-287 | the integer before the clamps is within 1/2 + 64.5/2^k of a*scale*q + b |
| FixedPointBatchNorm.AnswerBetween | lib/Transforms/BatchNormInFixedPoint/BatchNormInFixedPointPass.cpp:48-60 | with the bounds in order the answer is that integer held between them, and not below zero under a relu |
| FixedPointBatchNorm.ClampsDrop | lib/Transforms/BatchNormInFixedPoint/BatchNormInFixedPointPass.cpp:271-287 | dropping the clamps that never fire is exact if and only if the bounds are in order, or the low one never fires, or the high one is kept |
| FixedPointBatchNorm.ClampLost | lib/Transforms/BatchNormInFixedPoint/BatchNormInFixedPointPass.cpp:271-287 | a site admissible at every shift whose kept clamp leaves the range, bounds out of order |
| FixedPointSite.MoveExact | lib/Transforms/BatchNormInFixedPoint/BatchNormInFixedPointPass.cpp:209-232 | whatever happened to the two buffers before, reading bytes keeps what every point of the output stores, for all contents, if and only if both forms agree on every pair of coefficients that the read maps bring together, and the dequantization was the last to write the floats with the bytes unchanged since, or else what is read does not matter |
| FixedPointSite.MoveToBytes | lib/Transforms/BatchNormInFixedPoint/BatchNormInFixedPointPass.cpp:209-336 | the pass on one site: when both coefficients are read at the same channel, and the clamps are in order, all pairs read together agree, in 32-bit arithmetic and truncated to a byte |
| FixedPointSite.RoomyMachine | lib/Transforms/BatchNormInFixedPoint/BatchNormInFixedPointPass.cpp:314-334 | with room for every byte the wrapping 32-bit body computes the integer body |
| FixedPointSite.CrossedAccepted | lib/Transforms/BatchNormInFixedPoint/BatchNormInFixedPointPass.cpp:236-287 | a site of two channels for which the pass takes shift 23 and keeps no clamp |
| FixedPointSite.CrossedMaps | lib/Transforms/BatchNormInFixedPoint/BatchNormInFixedPointPass.cpp:311-313 | read through different maps its coefficients give another byte |
| FixedPointSite.StaleBytes | lib/Transforms/BatchNormInFixedPoint/BatchNormInFixedPointPass.cpp:217-232 | bytes written after they were dequantized are read in the place of those that were |
| FixedPointTail.RecognitionExact | lib/Transforms/BatchNormInFixedPoint/BatchNormInFixedPointPass.cpp:115-207 | a recognized body yields the byte of the tail it is taken for on all values and coefficients if and only if it has a lower bound or a relu, and what its selection gives otherwise ends up as zero does |
| FixedPointTail.ConstantFalse | lib/Transforms/BatchNormInFixedPoint/BatchNormInFixedPointPass.cpp:156-168 | when a constant is selected, the condition is about that constant |
| FixedPointTail.FiveForZero | lib/Transforms/BatchNormInFixedPoint/BatchNormInFixedPointPass.cpp:156-168 | a selection of five where the value is not positive is recognized as a relu |
| FixedPointTail.NoLowerBound | lib/Transforms/BatchNormInFixedPoint/BatchNormInFixedPointPass.cpp:183-197 | a body without a lower bound is recognized as one that stops at the smallest byte |
| FixedPointBatchNorm.YieldsByte | lib/Transforms/BatchNormInFixedPoint/BatchNormInFixedPointPass.cpp:331-333 | with both bounds in a byte the final truncation loses nothing |

## Left out

- 64-bit overflow of addresses, offsets, strides and byte counts, and overflow of the 32-bit count and capacity of the touched set: addresses and counts are unbounded integers.
- Allocation failure in `gemmlir_touched_room`, cache eviction, fences, the page and replacement behaviour of the board, and everything in `gemmini.h`.
- The error message and exit on a rank above eight: the copy returns a status instead.
- Floating-point rounding of scales, weights and biases (the softmax apart), the narrowing of a scale to `float`, NaN and infinities, and the range of a float-to-integer conversion: scales are exact reals.
- The integer GELU of `scale_and_sat`, and `int_sqrt`: of `scale_and_sat` only the scaling and saturation that end the softmax are modelled, and layer norm is not.
- RequantizeTail.MatchRequantize: takes the tail's body; that the operation is elementwise over the whole accumulator, with a 32-bit bias per column and an 8-bit result, is what makes it the requantization of the model and is not a check in it.
- `LinalgScaledAddToGemmlir`, `FuseMultiplyAdd`, `ApproximateExp`, `CombineChannelAffine`, `CombineConstantScales` and `FoldScalesIntoBroadcast`, which promise equality only up to rounding.
- The batch form of the requantization fold, the concatenation folds and the max-pool fusion, which repeat the reasoning of the forms that are modelled.
- The cases of a convolution that im2col is chosen for, and the exclusions of single shapes: the rewrite is modelled, not the choice.
- Im2Col.Im2ColIsConvolution: batch one only, as the rewrite itself requires; sums are over integers, so it says nothing about the rounding of float convolutions.
- Types, memory spaces beyond their equality, symbols, use lists and insertion points: a pattern's preconditions on them appear as flags of the modelled site.
- ElideCopy.ElideSound: every view in the program is made before it is used, as single assignment guarantees, and nothing is named after it is freed.
- FoldRequantize.FoldSound: the tail's bias and its result are not the temporary itself, every view is made before it is used, no window of the temporary is made before the matmul and no region uses it afterwards. Elements are computed in row-major order, each after all it reads has been read, as the CPU runtime does; the accelerator's tiles are not modelled.
- RequantizeExact.FoldExact: what stands in between is opaque operations, regions, views and deallocations that leave the temporary alone; operations of known effect, such as a copy, keep the meaning when the program is stable but may also do so by chance when it is not. Views of one allocation count as the whole of it, so windows that do not overlap are taken to share memory.
- PaddingExact.FoldExact: image extents, batch and channels are positive, since on an empty image any padding is right, and taps beyond the buffer read zero; programs are straight-line, so a region that uses the padded buffer without naming it, which the scan does not see, is not captured; each result is stored once its last accumulator is there; filter and bias are apart from the output, and the class holds the attributes the fold changes.
- BorderFill.BorderExact: the box is within the buffer and not empty, as `BorderSlabs.Rewrite` checks; which data is written may depend on everything read before it, which is the same in both programs.
- Relayout.FindTiling: a buffer of rank zero is excluded, where the source would index its offsets with minus one; the use-list scan that collects slices and producers is not modelled.
- Relayout.TilesRelay: producers make new elements and reduce over something; that this is needed is `Relayout.BodiesExact`.
- RelayoutExact.BlockExact: no dimension is empty; every producer runs exactly once, so a block in which one is under a condition or in a loop of its own is not captured.
- BatchNorm.EvaluateSound: the square root is any function; its value enters both sides alike. That the per-channel operands are read at the activation's channel is part of the site.
- BatchNormRelayout.WholeSound: the permutation found is one, as `linalg.transpose` requires of it.
- ChannelShuffle.FoldSound: the swap is a transpose by a permutation, the form the generic is recognized as; padding amounts on the channel axis that are not attributes are refused, as in the source.
- ChannelShuffle.PermuteAxis: the constant is not empty, where the source would divide by zero.
- BlockDiagonal.BlockDiagonalExact: input and output do not share memory, and a pooled element depends only on accumulators of its own channel; the reuse of an existing global of the same name is not modelled.
- GatherCopy.GatherIsCopy: every iteration reads an element of the source and the destination's elements share no byte, as the dialect requires of the operation; the windows are apart where they lie, which the source checks for one defining operation only.
- GatherCopy.LegalExactly: the converse is for views that use every byte of their windows, since windows with gaps may interleave.
- BatchNorm.FoldIntoWeights: the refusal on the activation's read map is `BatchNormRelayout.FoldBatchNorm`, which calls it.
- FixedPointBatchNorm.Rewrite: compares every channel with its own two coefficients, as the search does; which coefficients the read maps bring together, and what was written to the buffers, is `FixedPointSite.MoveExact`.
- FixedPointSite.MoveExact: the buffers are written whole or left alone, and each point of the output is stored once; what dequantizing a byte gives is any function.
- MatmulRuntime.FullMatmul: row strides are the extents, and the output is an array of its own; a shared one is `FoldRequantize.ClearMatMul`.
- ConvVerifier.FoldedVerifies: with a fused pool two convolution extents may pool to the same one, so the converse is stated without.
- FixedPointTail.RecognitionExact: the body is a tree over reals, so that a value has a single use is not a check in it, and the float rounding of the affine part is left to the comparison of all bytes.
- FillToMemset.MemsetIsFill: the value has the width of an element; whether a later loop makes the fill worth keeping is a flag.
- Of the operations' verifiers only that of the convolutions is modelled, for the padding fold; the fused pool is not folded.
- BufferPrograms: an operation that writes an allocation leaves all of it as it makes it, so that part of a fresh buffer stays unwritten is not captured.
- The benchmark's fixed extents in `scripts/poolswar.c` are generalized to any for which windows fit and a pixel is whole words.

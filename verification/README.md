# Verified model of the combinator bridge

This project models the combinator bridge of the repository in Dafny and proves
what the bridge is for: that its compilers, evaluators, rewrites and program
assemblers keep the meaning of the terms they handle.

Terms are hash-consed DAG nodes, so structural equality is their identity.
Morphisms act on a bundle of wires: each consumes a prefix and puts its outputs
in front of what is left. The files build on each other in this order.

* `Terms`, `Morphisms`, `Constructors`, `Census`, `Evaluator`: terms and
  substitution; the nine morphism forms with arity, action and the frame law;
  the smart constructors; the size census; the measuring and running loops.
* `Traversal`, `Gather`, `Segments`, `Liveness`, `Compiler`, `Bridge`: the
  worklist traversals, the fan-out and queue-driven permutations of one op, the
  invariant of the live context, and the closed and open compilers with their
  round trip, substitution meaning and sharing account.
* `Unroll`, `Rewriting`, `LoopPropose`, `LoopRules`, `Saturation`: the spelled
  scan and the loop it stands for, subterm replacement, the proposing rule and
  its inverse, and the worklist search.
* `ConcatTree`, `Skeleton`, `Assembly`: the concat-tree emitter with its mutable
  bundle, the skeleton of an extracted program, and the assembler that glues
  several folds and verbatim blocks into one closed program.
* `Decay`, `Retention`, `ChunkedEquation`, `Bisection`, `Tensors`: the algebra of
  chunked retention over exact reals, the compensated walk, the chunkwise
  recurrence, the state bisection and the split laws at every rank.
* `RetnetProgram`, `Denotation`, `RetnetMeaning`, `LoopMeaning`: the hand-spelled
  step and fold program, a matrix reading of terms, and the proof that the
  synthesised step, the fold program and the assembled single-loop program all
  compute retention.
* `Abstraction`, `Reachability`, `Arena`: the parametric abstraction and when it
  can be undone, the two reachability traversals, and the flat arena.

Loops of the source are methods proved against functions or against the property
itself; objects the source mutates (the census, the emitter's bundle, the counter
cell, the memo table, the arena) are classes.

## Where the code and its description part

* An open compilation promises a morphism of arity (inputs, outputs). The code
  returns a smaller footprint exactly on a bundle of leaves that ends with the
  inputs in order (`Bridge.CompileWithInputs`).
* The assembled program expands to the rebuilt term only when no failed chain
  left an entry in the expansion table that differs from its block
  (`Assembly.Assemble`, `Assembly.LeakExample`).
* The split-over-product law is stated for any axis; with a non-negative axis
  and operands of different rank it is false wherever its guard can pass
  (`Tensors.SplitMulExactly`).
* A step that is an identity, or a product the smart constructor merges away, is
  not found inside its own spelling (`LoopRules.FoundExactly`).
* The arena spells a raw string leaf without the quotes the rendering gives it
  (`Arena.RoundTrip`).
* The emitter takes a lone leaf for the first wire, whatever position it names;
  its one caller only ever names the first (`ConcatTree.ConcatTreeMorph`).
* A root that repeats a block makes the scan order no permutation, so the
  assembled program is ill formed (`Assembly.Assemble`).
* A negative block count is not refused by the fold program
  (`RetnetProgram.RetnetFoldProgram`).
* Folding a scan of idle wires side by side can cost more than it saves
  (`LoopRules.LoopCheaper`).
* The raw leaves the assembler provides for never occur, since the blocks are the
  root's own (`Skeleton.SkeletonLeaves`).

## Model

| member | source | states |
|---|---|---|
| Bridge.DagToComb | lab/bridge/combinator.py:320-410 | compiling a DAG fails, with a type error, exactly when an op that becomes an arrow takes an argument outside the IR's classes; otherwise the morphism is closed, leaves exactly the root's outputs in front of any bundle, expands back to the root exactly when the root is no pack or an attribute-free pack of at least two outputs, and meets the sharing account; it is in normal form, no part of it idles, and its generators are the DAG's leaves, one each |
| Bridge.SharingAccount | lab/bridge/combinator.py:351-410 | summed over the diagonals, copies minus one is the argument occurrences plus one minus the DAG's size; no drop, no loop; one arrow per op; no diagonal at all exactly when nothing is an argument twice |
| Bridge.MintsExactly | lab/bridge/combinator.py:335-356 | the generators of a compiled DAG are its leaves that are no input, one each; no op is ever a generator |
| Bridge.ClosedAction | lab/bridge/combinator.py:418-475 | a compiled closed morphism turns any bundle into the outputs followed by that bundle, and its expansion is the root exactly on the roots that round-trip |
| Bridge.CompileWithInputs | lab/bridge/index_abstract.py:570-652 | over any distinct leaf inputs, dead ones included, the morphism rewires instantiated inputs into instantiated outputs and leaves the tail; its arity is the inputs exactly when the result is not a bare bundle of generators followed by the inputs; one drop per input the root never reads, no loop, one arrow per op, one generator per closed leaf and no other; in normal form, with no idle part |
| Bridge.OpenCompilationIsSubstitution | lab/bridge/form_propose.py:598-605 | on any wires and any tail, an open compilation computes the outputs with every input replaced by its wire, tail untouched |
| Bridge.BareExactly | lab/bridge/index_abstract.py:643-652 | the compiler's in-place close with no arrow happens exactly on the roots whose outputs are distinct leaves ending with the inputs |
| Bridge.CollectLeaves | lab/bridge/index_abstract.py:586-597 | the closed generators are the non-input leaves in order of first occurrence, each once |
| Bridge.CountsAreSubterms | lab/bridge/combinator.py:347-350 | the use counter mentions exactly the root's subterms, the root itself apart when it is a pack |
| Compiler.CompileJob | lab/bridge/combinator.py:351-410 | the context loop carries the inputs to the outputs, with exact arity unless the job is bare, and with the census of dups, drops, arrows and leaves accounted for |
| Compiler.EmitNode | lab/bridge/combinator.py:358-391 | one op keeps the invariant: the context is exactly the produced terms with uses remaining, the parts so far carry the inputs to it, and the sharing account holds |
| Compiler.CloseJob | lab/bridge/combinator.py:392-410 | the closing segment arranges the surviving context into the outputs, or is left out when it is the identity on it |
| Compiler.PlanNode | lab/bridge/combinator.py:362-374 | the per-wire maps and slots of one op: each wire fanned out to the arguments that take it and one more copy when it is used later |
| Compiler.PlanClose | lab/bridge/combinator.py:393-403 | the closing maps drop an unused wire and fan the others out to the outputs they feed |
| Liveness.Job.LiveStep | lab/bridge/combinator.py:375-391 | after an op the context is again exactly the produced terms that are still used, each once |
| Liveness.Job.LiveAtStart | lab/bridge/combinator.py:335-356 | before the first op the context is exactly the leaves and inputs, and the counter the whole use count |
| Liveness.Job.LiveAtEnd | lab/bridge/combinator.py:392-403 | after the last op only outputs and dead inputs survive |
| Gather.Arrange | lab/bridge/combinator.py:377-385 | the order drawn from the position queues is a permutation that serves every request with a slot of its name, then lists the live slots in order |
| Gather.ServeRequests | lab/bridge/combinator.py:377-383 | popping the queues serves the k-th request for a wire with its k-th slot |
| Gather.RewireApply | lab/bridge/combinator.py:362-386 | fanning out and permuting a context leaves the requested wires in request order, then the kept ones |
| Segments.SegmentRewires | lab/bridge/combinator.py:386-391 | a node's segment turns the context into the node followed by the wires kept alive |
| Traversal.Postorder | lab/bridge/combinator.py:300-317 | the worklist lists each op of the DAG once, children before parents, the root last |
| Traversal.DagSize | lab/bridge/combinator.py:526-537 | the stack loop counts the distinct subterms, leaves included |
| Traversal.ListOps | lab/bridge/index_abstract.py:136-152 | the stack loop lists each op subterm exactly once |
| Morphisms.Frame | lab/bridge/combinator.py:418-459 | wires beyond the arity pass through any well-formed morphism untouched |
| Morphisms.Apply | lab/bridge/combinator.py:418-459 | the evaluator is defined on every long-enough bundle and changes its length by exactly outputs minus inputs |
| Morphisms.ArityNonNegative | lab/bridge/combinator.py:199-235 | a well-formed morphism has non-negative footprint and output |
| Morphisms.SeqConcatArity | lab/bridge/combinator.py:211-223 | the demand of a concatenated composition is the larger of the first part's and what the second still needs |
| Morphisms.GroupsIsProduct | lab/bridge/combinator.py:233-234 | the linear count of a loop's wires is the product the arity is defined with |
| Evaluator.MeasureArity | lab/bridge/combinator.py:199-235 | the recursive measurement, with its running demand and delta, computes the arity |
| Evaluator.MeasureSeq | lab/bridge/combinator.py:211-223 | the running maximum of starved demand is the least bundle that never starves a part |
| Evaluator.Run | lab/bridge/combinator.py:418-459 | the evaluator with its cursor loops computes the action |
| Evaluator.RunPar | lab/bridge/combinator.py:438-445 | walking a cursor over the parts acts on contiguous segments and keeps the tail |
| Evaluator.RunLoop | lab/bridge/combinator.py:446-458 | the scan loop gives the final state, the outputs in step order, then the untouched wires |
| Constructors.MakeSeq | lab/bridge/combinator.py:243-252 | the accumulating loop builds the flattened composition |
| Constructors.MakePar | lab/bridge/combinator.py:255-270 | the accumulating loop builds the product with units elided and identities merged |
| Constructors.SeqOfLaw | lab/bridge/combinator.py:243-252 | flattening a composition keeps its arity |
| Constructors.SeqOfApply | lab/bridge/combinator.py:243-252 | flattening a composition keeps its action |
| Constructors.ParOfLaw | lab/bridge/combinator.py:255-270 | flattening a product and eliding or merging its identities keeps its arity |
| Constructors.ParOfApply | lab/bridge/combinator.py:255-270 | flattening a product and eliding or merging its identities keeps its action |
| Constructors.SeqOfNormal | lab/bridge/combinator.py:243-252 | parts in normal form compose to normal form: no nested composition, no composition of one part |
| Constructors.ParOfNormal | lab/bridge/combinator.py:255-270 | parts in normal form make a product in normal form: no nested product, no unit, two parts or more, and one wider identity when every part is wires |
| Constructors.PermOfApply | lab/bridge/combinator.py:273-277 | replacing an identity permutation by an identity keeps its action |
| Constructors.MuxApply | lab/bridge/combinator.py:280-287 | the feed maps every wire, then permutes what they produce, whatever it elides |
| Census.CombStats.Visit | lab/bridge/combinator.py:483-523 | one visit adds to every counter exactly the tally of the term |
| Census.ClassesPartition | lab/bridge/combinator.py:483-523 | every node is counted in exactly one class |
| Census.ParOfGates | lab/bridge/combinator.py:255-270 | the smart product changes no count of arrows, leaves, dups, drops or loops |
| Unroll.Unroll | lab/bridge/loop_propose.py:72-121 | the spelling is refused, with a value error, exactly for fewer than one iteration or a step without an input; otherwise it is the spelled scan |
| Unroll.UnrollRefinesLoop | lab/bridge/loop_propose.py:72-121 | for every step with a state, an input and any outputs, and every n, the spelled scan has the loop's arity and the loop's action on every long-enough bundle |
| Unroll.StepPartsAct | lab/bridge/loop_propose.py:98-108 | one spelled step brings its inputs next to the state, applies the step and leaves the rest, whatever is already emitted |
| Unroll.UnrolledIsSpread | lab/bridge/loop_propose.py:86-108 | after k spelled steps the bundle is the loop's state, its output blocks last first, and the untouched wires |
| Unroll.FixingApply | lab/bridge/loop_propose.py:109-120 | the closing permutation puts the reversed output blocks back into emission order |
| Rewriting.ListSubterms | lab/bridge/loop_propose.py:138-150 | the stack loop yields the subterm list |
| Rewriting.SubtermListLaw | lab/bridge/loop_propose.py:138-150 | that list holds every subterm exactly once |
| Rewriting.ReplaceSound | lab/bridge/loop_propose.py:153-163 | replacing a subterm by an equivalent one keeps arity and action of every enclosing term, through compositions, products and loops |
| Rewriting.ReplaceCost | lab/bridge/loop_propose.py:153-163 | replacing a subterm changes the node count of every enclosing term by the difference in size, once for each occurrence replaced, and there is one exactly when it occurs |
| Rewriting.ReplaceGone | lab/bridge/loop_propose.py:153-163 | when neither term occurs in the other, no occurrence of the replaced one is left |
| LoopPropose.FindFolds | lab/bridge/loop_propose.py:179-199 | the nested search yields the list of folds |
| LoopPropose.FoldsExactly | lab/bridge/loop_propose.py:179-199 | a triple is a fold exactly when its step and its spelling are both subterms, the step takes two wires or more, and 2 <= n <= the bound |
| LoopPropose.FindLoops | lab/bridge/loop_propose.py:239-245 | the scan over subterms yields the list of loops |
| LoopPropose.LoopsExactly | lab/bridge/loop_propose.py:239-245 | the loops found are exactly the loop subterms, with their step and count |
| LoopPropose.ApplyRule | lab/bridge/loop_propose.py:222-230 | a rule's application yields one rewrite per match that changes something, in match order |
| LoopPropose.RewriteSound | lab/bridge/loop_propose.py:208-230 | what a sound rule rewrites a well-formed term to means the same |
| LoopRules.StatelessSpelling | lab/bridge/loop_propose.py:86-108 | a step without an output spells an ill-formed term, so it never matches |
| LoopRules.SpelledCensus | lab/bridge/loop_propose.py:72-121 | a spelling of n steps has n times the arrows, generators, diagonals, drops and loops of its step |
| LoopRules.ProposeIsSound | lab/bridge/loop_propose.py:249-249 | folding a spelled scan is sound on every well-formed term |
| LoopRules.ExpandIsSound | lab/bridge/loop_propose.py:256-256 | respelling a loop is sound on every well-formed term |
| LoopRules.FoundExactly | lab/bridge/loop_propose.py:179-199 | a step is a subterm of its own spelling exactly when it is no identity and, if a product, has one output, at least two parts and a part that is no identity |
| LoopRules.FoldFound | lab/bridge/loop_propose.py:179-199 | the proposing rule matches a spelled scan exactly under that condition, for every n up to the bound |
| LoopRules.LoopCheaper | lab/bridge/loop_propose.py:264-266 | the loop has strictly fewer nodes than the spelling exactly when the step is no product of identities, or one of fewer than 2n - 1 parts |
| LoopRules.FoldShrinks | lab/bridge/loop_propose.py:153-163 | folding strictly lowers the node cost of an enclosing term exactly under that condition |
| Saturation.SaturateComb | lab/bridge/loop_propose.py:269-312 | for any rules and any cost: every term met is reachable from the seed, the best is the cheapest met, the best loop is the cheapest loop-headed term other than the seed, every term met but the seed is credited to a rule that rewrites a met term to it, each rule fired once per term credited to it, the seed stays best until something is cheaper, and when the bound was not hit every reachable term was met |
| Saturation.ReachesSound | lab/bridge/loop_propose.py:269-312 | sound rules reach only terms with the seed's arity and action |
| Saturation.ClosedHoldsAll | lab/bridge/loop_propose.py:286-301 | a set closed under the rules holds everything they reach |
| Saturation.SaturateLoops | lab/bridge/loop_propose.py:342-342 | with the two rules, every term met and the best among them mean what the seed means, at no higher cost; every fold and every respelling of the seed was met once the bound exceeds one term, and of every term met when the bound was not hit |
| Saturation.StepsExactly | lab/bridge/loop_propose.py:208-256 | on a well-formed term the two rules rewrite by folding a spelled scan inside it into its loop, or by spelling out a loop inside it, all of these and in no other way |
| Saturation.SaturateScan | lab/bridge/loop_propose.py:347-352 | started at a spelled scan of up to eight steps, the search returns an equivalent term no dearer than the loop, which is strictly cheaper than the spelling |
| ConcatTree.ConcatTreeMorph | lab/bridge/form_propose.py:637-674 | for every tree over distinct positions, the emitter turns n wires into the one concat term of the tree, dropping wires no leaf reads, despite reshuffling one bundle in place; the one exception, a lone leaf that is not the first position, yields the first wire instead |
| ConcatTree.Emitter.Emit | lab/bridge/form_propose.py:647-668 | emitting a tree takes its wires off the bundle, puts its item on, and keeps what every other item stands for |
| ConcatTree.Emitter.Join | lab/bridge/form_propose.py:650-668 | one node permutes its children to the front and replaces them by one concat |
| ConcatTree.EmitSkeleton | lab/bridge/form_propose.py:637-687 | the emitter on a relabelled skeleton evaluates that relabelled tree, with one arrow per concat node, no generator, no diagonal and no loop, in normal form |
| ConcatTree.EvaluatesInOrder | lab/bridge/form_propose.py:637-687 | the result is the concat term with the skeleton's shape and the wires at its leaves in left-to-right order; on a lone leaf the morphism is the empty composition |
| ConcatTree.Counter.Relabel | lab/bridge/form_propose.py:677-687 | the counter cell numbers the leaves depth first |
| ConcatTree.NumberedLeaves | lab/bridge/form_propose.py:677-687 | the relabelled leaves are consecutive positions in order |
| Skeleton.ListBlocks | lab/bridge/index_abstract.py:155-170 | the stack loop lists the leaves of the concat chain left to right |
| Skeleton.SkeletonLeaves | lab/bridge/form_propose.py:612-634 | the skeleton's leaves are, left to right, the first positions of the root's blocks, so no leaf is verbatim; they are the block indices in order exactly when no block is repeated |
| Skeleton.RebuildIsRoot | lab/bridge/form_propose.py:945-958 | the skeleton refilled with its own blocks is the root exactly when every concat carries the emitter's dimension |
| Skeleton.RebuildInjective | lab/bridge/form_propose.py:945-958 | two fillings rebuild the same term exactly when they agree on every block |
| Assembly.Assemble | lab/bridge/form_propose.py:804-958 | no program exactly when no chain verified; otherwise an expansion table holding every chain's outputs and a rebuilt term over it; the program is a morphism exactly when no block is repeated, and then closed over one output, expanding to the rebuilt term exactly when no failed chain's entry differs from its block; it is made of the folds: the step's arrows once per block of a verified chain plus one per concat, and as generators the verified chains' seeds and bound wires, the blocks outside them and the step's closed leaves, each exactly as often as listed |
| Assembly.GlueIsFaithful | lab/bridge/form_propose.py:845-958 | those clauses, for any compiled step, scan order and tree evaluator put together by the assembler |
| Assembly.GlueIsFolded | lab/bridge/form_propose.py:845-913 | the exact count of arrows, loops and of each generator in what the assembler glues |
| Assembly.GeneratorsAre | lab/bridge/form_propose.py:845-862 | every generator of a folded program is a verified chain's seed, a wire bound to one of its blocks, a block outside the verified chains, or a closed leaf of the step |
| Assembly.GlueIsIllFormed | lab/bridge/form_propose.py:887-913 | a repeated block is one wire read twice by the scan, which is then no permutation and makes the whole program ill formed |
| Assembly.GlueRuns | lab/bridge/form_propose.py:863-913 | pre, folds, drop segment, scan permutation and tree take the empty bundle to the one rebuilt output |
| Assembly.ExpandChain | lab/bridge/form_propose.py:816-836 | stepping through a chain records each block's output over the carried state and touches no other entry |
| Assembly.ExpandChains | lab/bridge/form_propose.py:804-843 | after all chains, failed ones included, the table holds every chain's outputs and nothing else |
| Assembly.PlaceWires | lab/bridge/form_propose.py:876-886 | the positions given to covered blocks and extras come out distinct and increasing |
| Assembly.ScanOrder | lab/bridge/form_propose.py:887-906 | the scan order inverts the order in which the kept wires arrive |
| Assembly.MidApply | lab/bridge/form_propose.py:869-874 | the folds side by side leave each chain's last state and outputs, then the extras |
| Assembly.LoopExpands | lab/bridge/form_propose.py:816-836 | the loop over a chain's wires computes the chain's step-by-step expansion by substitution |
| Assembly.LeakExactly | lab/bridge/form_propose.py:945-958 | what the wires carry and what the table says rebuild the same term exactly when nothing leaks |
| Assembly.AllVerified | lab/bridge/form_propose.py:804-843 | with every chain verified nothing leaks |
| Assembly.LeakExample | lab/bridge/form_propose.py:825-836 | a concrete assembly in which the program does not expand to the rebuilt term: the second block is the step's own output over one state, in a failed chain that carries another |
| Assembly.EmitSingleLoop | lab/bridge/state_reindex.py:820-893 | the single-loop assembler's program is a morphism exactly when no block is repeated, and then always expands to its rebuilt term, and is made of the one fold in the same sense |
| Assembly.StepSchemaValid | lab/bridge/form_propose.py:131-175 | the synthesised step is a two-output pack over nine distinct wires with a loop step's arity |
| Assembly.InstanceIs | lab/bridge/form_propose.py:131-175 | substituting wires into the synthesised step gives the update and the output spelled over those wires |
| Retention.OutputIsDirect | lab/bridge/form_propose.py:1072-1081 | at any carried normalisation, a read compensated for it gives the direct decayed sum over all positions up to each position |
| Retention.OutputIs | lab/bridge/form_propose.py:1072-1081 | any other read exponent is off by exactly that power minus one of what lies before the block |
| Retention.ReadExactly | lab/bridge/form_propose.py:1126-1147 | the compensated exponent is the only one right on all data |
| Retention.ScaleExactly | lab/bridge/form_propose.py:1131-1151 | the only read scale that is right on all data is the compensated one with an entry for every row; a shorter one broadcasts or has no product |
| Retention.AlignedStep | lab/bridge/form_propose.py:1198-1234 | when the update and key exponents agree, the state stays the accumulation at the new normalisation |
| Retention.StepKeepsExactly | lab/bridge/form_propose.py:1235-1241 | the block's own wires keep that form on all data exactly when the key offset is the carried one plus the weight's minus the start |
| Retention.WalkCarries | lab/bridge/form_propose.py:1124-1250 | along every run whose moves were harmless, the carried state is the absolute accumulation at the tracked normalisation |
| Retention.CompensatedWalk | lab/bridge/form_propose.py:1124-1251 | over any contiguous widths and any targets: a block is reported right exactly when the read scale it ends up with has an entry for every row and, with anything before the block, gives the direct sums on all carried data; every such block reached by harmless moves outputs the direct decayed sum |
| Retention.SteeredIsHarmless | lab/bridge/form_propose.py:1202-1234 | where every steering pair is available every move is harmless |
| Retention.MoveExactly | lab/bridge/form_propose.py:1198-1241 | where a steering pair is found the state goes over into the next family's normalisation, otherwise the block's own wires move it |
| ChunkedEquation.ChunkwiseRetention | lab/probes/retnet_baseline_probe.py:77-110 | the chunk loop, writing one slice at a time and updating one state, computes the direct decayed sum at every position; it refuses exactly a chunk width that does not tile the sequence |
| ChunkedEquation.ChunkStep | lab/probes/retnet_baseline_probe.py:107-109 | one chunk moves the state to the accumulation before the next chunk |
| ChunkedEquation.WriteChunk | lab/probes/retnet_baseline_probe.py:103-108 | writing one chunk's slice fills its rows with the direct decayed sums and leaves the rows before it alone |
| Bisection.ContractSplitExact | lab/bridge/state_reindex.py:131-172 | the law is refused exactly for fewer than two pieces or an empty piece; otherwise the left-nested sum of block products is the matrix product, for any partition of the contraction axis |
| Bisection.BuildSum | lab/bridge/state_reindex.py:153-163 | the accumulating loop nests the pieces to the left |
| Bisection.StateBisection | lab/bridge/state_reindex.py:308-401 | the coarse decayed state is the left-nested sum of the pieces with offsets lowered by where they start |
| Bisection.SignedSplit | lab/bridge/state_reindex.py:308-330 | a block of a decay vector of either sign is a decay vector with the derived offset |
| Bisection.EtaSlide | lab/bridge/state_reindex.py:553-588 | a decay scalar on a state contribution slides into its key offset |
| Bisection.Gather | lab/bridge/state_reindex.py:454-499 | two decay scalars merge by adding offsets, and the zeroth power does nothing |
| Bisection.ScaledBisection | lab/bridge/state_reindex.py:502-588 | scaling the bisected state slides into every piece's offset |
| Bisection.PiecesExtendState | lab/bridge/state_reindex.py:40-46 | a carried state plus the fine pieces at its normalisation is the accumulation after them |
| Bisection.BoundaryTiles | lab/bridge/state_reindex.py:691-734 | the measured partition exists exactly when the width is positive and at most the extent, tiles it with full pieces and one remainder, and has two pieces exactly when the extent is larger |
| Tensors.SplitUnsqueeze | lab/bridge/state_reindex.py:233-281 | at every rank and every signed axis, a split commutes with an inserted axis at the derived axis |
| Tensors.DerivesExactly | lab/bridge/state_reindex.py:233-262 | the law applies exactly where the split of the unsqueezed tensor is defined on an axis other than the inserted one |
| Tensors.SplitsTile | lab/bridge/state_reindex.py:233-281 | the blocks of an axis tile it: every entry stands in one of them, shifted by the blocks before |
| Tensors.UnsqueezeReads | lab/bridge/state_reindex.py:264-281 | the inserted axis has one entry, at which the tensor is unchanged |
| Tensors.MulReads | lab/bridge/state_reindex.py:180-229 | with no axis of extent one, a product reads its shorter operand at the trailing part of the index |
| Tensors.MulStretches | lab/bridge/state_reindex.py:180-229 | an axis of extent one is read at its only entry, wherever the index is |
| Tensors.SplitMulAligned | lab/bridge/state_reindex.py:180-229 | with a negative axis or equal ranks, a split distributes over a broadcasting product wherever the guard holds |
| Tensors.GuardExactly | lab/bridge/state_reindex.py:180-209 | the guard passes exactly when both operands can be split: at the axis itself when it is negative, at the axis as far from the end when it is not; an axis out of range is reduced into it |
| Tensors.SplitMulExactly | lab/bridge/state_reindex.py:180-229 | for every pair of ranks and every axis, the law holds on all operands exactly when the axis is negative, the ranks agree, or the guard can never pass |
| Tensors.MisalignedSplit | lab/bridge/state_reindex.py:195-208 | otherwise there are operands, in either order of rank, on which the guard passes and the law fails |
| Denotation.NextDenotes | lab/bridge/form_propose.py:163-168 | any spelling of the update half denotes the state weight times the state plus the block's decayed outer products |
| Denotation.OutDenotes | lab/bridge/form_propose.py:169-175 | any spelling of the output half denotes masked scores within the block plus the scaled read |
| Denotation.OmDecayedIs | lab/mint/atom_law_loop.py:185-191 | the decayed operator is elementwise mask then product |
| RetnetMeaning.StepTemplateMeans | lab/bridge/form_propose.py:154-175 | over any nine wires, the synthesised step denotes the block's update and output |
| RetnetMeaning.StepTemplateIsRetention | lab/bridge/form_propose.py:154-175 | on a carried state and under compensated exponents it outputs the direct decayed sums and keeps the accumulation |
| RetnetProgram.RetnetStepRuns | lab/bridge/combinator.py:555-622 | the hand-spelled step has arity (4, 2) and turns a state and a block's projections into the next state and output terms |
| RetnetProgram.RetnetStepCensus | lab/bridge/combinator.py:555-622 | the hand-spelled step has seventeen arrows, the base three times and the block decay and denominator once as generators, and no loop |
| RetnetProgram.RetnetFoldProgram | lab/bridge/combinator.py:625-660 | a zero block count fails with a division error, an unrepresentable input with a type error, and nothing else fails; a negative block count assembles a program that is no morphism; every positive one gives a closed program that expands to the concat of the blocks' outputs over the threaded state, with exactly one loop, and as generators the leaves of the projections and the step's constants |
| RetnetProgram.FoldLoop | lab/bridge/combinator.py:657-660 | the loop over the blocks' wires leaves the last state and the outputs |
| RetnetMeaning.FoldProgramIsRetention | lab/bridge/combinator.py:625-660 | for every block count, block size and nonzero base, with zero initial state and the block decay the base to the block size, that term denotes the direct decayed sum at every position over queries (X Wq^T + bq)/c, keys X Wk^T + bk and values X Wv^T + bv |
| RetnetMeaning.ProjectIs | lab/bridge/combinator.py:643-649 | a projection of the program denotes the input against the rows of the weight, plus the bias |
| RetnetMeaning.StackMeans | lab/bridge/combinator.py:659-660 | matrices that hold consecutive rows of one grid stack to those rows together |
| LoopMeaning.StatesMean | lab/bridge/form_propose.py:1124-1251 | in a chain bound along a clean walk, every state term denotes the accumulation so far at the normalisation the walk tracks |
| LoopMeaning.OutsMean | lab/bridge/form_propose.py:1124-1251 | every output term of such a chain denotes the direct decayed sums at its block's positions |
| LoopMeaning.TreeMeans | lab/bridge/form_propose.py:945-958 | a concat tree over leaves that hold consecutive rows denotes those rows together |
| LoopMeaning.EmitRetention | lab/bridge/state_reindex.py:820-893 | end to end: over contiguous blocks of any widths, with the exponents the compensated walk leaves bound and a seed denoting the carried state, the single-loop program expands to a term that denotes the direct decayed sum at every covered position and the other blocks elsewhere |
| Abstraction.Memo.AbstractBlock | lab/bridge/index_abstract.py:292-319 | the memoised recursion computes the abstraction, whatever the table already held |
| Abstraction.InstantiatesExactly | lab/bridge/index_abstract.py:292-319 | an instantiation of the fresh wires gives the block back exactly when it restores every wire the block uses |
| Abstraction.NothingLeft | lab/bridge/index_abstract.py:292-319 | no own split and no state is left anywhere in the abstraction |
| Abstraction.WiresExactly | lab/bridge/index_abstract.py:292-319 | the wires in the abstraction are those of the exposed splits, and the state wire exactly when the block reads its state |
| Abstraction.AbstractionInvertible | lab/bridge/index_abstract.py:292-319 | such an instantiation exists exactly when no wire carries two of the block's splits |
| Abstraction.SplitSlots | lab/bridge/index_abstract.py:264-284 | each block's own splits get the wire of their source's slot, and slots are numbered without gaps or repeats |
| Abstraction.SlottedInvertible | lab/bridge/index_abstract.py:264-319 | with those wires a block can be given back exactly when it exposes at most one split per source |
| Abstraction.InputVarInjective | lab/bridge/index_abstract.py:121-128 | different slots have different wires, none of them the state wire |
| Reachability.Reachable | lab/probes/coordination_probe.py:84-99 | the stack loop visits each reachable class exactly once, cycles included |
| Reachability.Descendants | lab/probes/coordination_probe.py:111-122 | the guarded recursion returns exactly what can be walked to without leaving a guarded class |
| Reachability.BothAgree | lab/probes/coordination_probe.py:84-122 | started with no guard the two give the same classes |
| Reachability.LeadsWithout | lab/probes/coordination_probe.py:117-121 | a walk can be cut after its last visit to its start, so guarding the start loses nothing |
| Arena.Buffer.Flatten | lab/audit/handl_differential.py:164-174 | appending a term children first keeps everything already there and makes the returned index decode to it |
| Arena.DecodeStable | lab/audit/handl_differential.py:177-184 | later entries never change what an index decodes to |
| Arena.ReadsAlike | lab/audit/handl_differential.py:164-184 | two terms read back alike exactly when they have the same ops over the same number of arguments, down to leaves of the same spelling |
| Arena.NamesApart | lab/audit/handl_differential.py:164-174 | a named leaf reads back under its name, and leaves of different names stay apart |
| Arena.SpelledIsRendered | lab/audit/handl_differential.py:120-129 | the arena's spelling and the rendering agree exactly on terms in which no foreign leaf's text differs from its source form |
| Arena.RoundTrip | lab/audit/handl_differential.py:120-184 | after any prefix, decoding the flattened term gives its rendering exactly under that condition |

## Left out

* The e-graph engine and everything read from it (extraction, e-class lookups,
  residency, cost models): extracted seeds, verdicts and residency are inputs.
* `Op.make` normalisation and validation; attributes are a map compared by
  spelling, and an arrow's attributes keep no order.
* Errors of the evaluator on short bundles or malformed morphisms: the action is
  modelled on well-formed morphisms and long-enough bundles.
- Bridge.CompileWithInputs: shares one core with the closed compiler, where the source writes the same loop twice; inputs are distinct non-op leaves, as its callers pass them.
- LoopPropose.FindFolds: a candidate that is not a morphism is not modelled, since the datatype has none.
- Assembly.Assemble: the scan's branch for raw leaves is not written, since none occurs; the position list is built in increasing order, so sorting it is the identity; what the evaluator does with an order that is no permutation is not modelled.
- Assembly.EmitSingleLoop: calls the same assembler with one chain, where the source repeats its lines.
- Retention.CompensatedWalk: every wire is assumed to be a decay vector with a known offset, so the case of an untracked normalisation is not modelled; verdicts taken from e-classes are not part of the model.
- ChunkedEquation.ChunkwiseRetention: one sequence of the batch; the projections and the score denominator are given; the tensor library's shape error is a value error.
- LoopMeaning.EmitRetention: takes a walk whose every move was harmless and whose every read could be compensated, and a root without an empty concat.
- RetnetProgram.RetnetFoldProgram: the score denominator is a given constant rather than a computed square root; the denotation needs the input to have block count times block size rows.
- Bisection.ContractSplitExact: matrices without batch axes.
- Denotation.OmDecayedIs: matrices without batch axes, over exact reals.
- Abstraction.SplitSlots: the order in which a block's splits are met is the listing order of its subterms and fixes only which number a slot gets.
* Floating-point tolerance and every numeric comparison.
* The choice of states and chains (`state_chains`, `factored_states`,
  `block_wires`, `_state_inputs`), template comparison (`templates_agree`), and
  name-keyed pattern recognition.
* The JSON exchange with the external rewriter around the arena.
* Reports, benchmarks, command line, plots and training scripts.

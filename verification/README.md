# Diffy, modelled and proved in Dafny

Diffy proves assertions of array programs for every size N.  It renames arrays so that each loop
writes its own version, removes accumulation loops that are nested, derives from the program of size
N-1 the code that is still missing to reach size N, encodes that code as constraints for an SMT
solver, and closes an induction on N.  This project models those steps and proves what each of them
promises.  Integers are unbounded, as in the constraints the tool builds; "unsatisfiable" is "no
valuation satisfies".

| files | what they model |
|---|---|
| `Terms`, `Ir` | solver terms and their meaning; the block-level program and how it runs |
| `EncoderSpec`, `BmcEncoder` | the constraint encoder as a function of its state, and as the object whose maps and vectors the translation updates |
| `EncoderFrame`, `EncoderKnown`, `EncoderMatch`, `EncoderSound` | a valuation of the constraints is a concrete run |
| `EncoderFits`, `EncoderComplete`, `EncoderStages`, `EncoderExact` | a concrete run is a valuation of the constraints |
| `EncoderVerdict` | both together: satisfiable exactly when some inputs fail |
| `Unroller` | loop unrolling as rewiring of indices, and the bijection between walks and paths |
| `DiffSpec`, `DiffGenerator` | differencing: the generated code and the pass |
| `DiffSound`, `DiffSums`, `DiffProgram`, `DiffExamples` | what one phase keeps, what that means for sums with signs, whole programs, and inputs on which it fails |
| `SsaSpec`, `SsaPass`, `SsaSound`, `SsaExamples` | array SSA |
| `NestSpec`, `NestPass`, `NestSound`, `NestSelf`, `NestScope`, `NestRaw`, `Benchmarks` | nested-loop elimination, what its scope test is worth, what it takes raw loops for, and three nested benchmarks in place on arrays |
| `PeelDeferral`, `PeelPass` | moving peeled iterations behind all loops |
| `PrevProgram` | the program of size N-1 |
| `Driver`, `FlattenPath` | the induction driver and the splitting of conjunctions into paths |
| `Tiles` | the interval formula for a loop's writes and the overlap check |

A class here is always an object whose methods update its fields (`Encoder`, `Segment`, `DiffPreds`,
`ArraySsa`); each method is tied to a specification function of the old state, and the theorems are
about those functions.  A run that satisfies a loop's, a block's or a program's preconditions is
described by the predicates named in the lemmas (`WellFormed`, `StaticOk`, `Tight`, `SafePhase`,
`Sound`, `Deferrable`, `Ready`).

## What holds only under a condition

Each of these fails for some input of the code as it stands.  The members named give such an input and the
condition under which the property holds, which is exact unless "one direction" is said.

* The encoder's last constraint asks that some assertion bit be true, whenever there is an assertion
  at all (`bmc_pass.cpp` line 784).  `unreachable` blocks are specifications but have no such bit.  So
  the constraints show a failure exactly when it is on a run that also arrives at an assertion, or the
  program has none: `EncoderVerdict.Verdict`, `EncoderVerdict.MissedFailure`.  Without `unreachable`
  blocks, or without assertions, they show every failure: `EncoderVerdict.StaticVerdict`.
* Differencing collects the loads of a stored value as if every operator were an addition
  (`llvmUtils.cpp` lines 1566-1596), so a subtracted or multiplied load is recorded, and added by the
  glue, with the wrong factor, and the expressions besides the loads are lost when both operands have one.
  `DiffSound.ArrStep` and `ScalarStep` say for any operators when a phase is right, `DiffSums.LinearRecorded`,
  `SignedRecorded` and `SignedMissed` as one equation for sums: `DiffExamples.SubtractingExact`,
  `SubtractionWrong`, `DerivedWrong`, `TwoRestsWrong`.
* A scalar read inside an accumulation contributes its recorded differences once, not N-1 times
  (`diff_preds.cpp` lines 234-241), and what moved without being recorded not at all:
  `DiffSums.SignedMissed`, `DiffExamples.ScalarAccumulationWrong`.
* A copy takes over only the last difference of its source (lines 406-411): `DiffSound.CopyStep`,
  `DiffExamples.CopyWrong`.
* A store to one cell outside loops is dropped and its difference recorded for every cell (lines 373-376):
  `DiffSound.CellStep`, `DiffExamples.FirstCellWrong`.
* The value an accumulator's own term has in the peeled iteration is put only into `const_aggr_map`,
  which nothing reads, and that of a scalar it reads nowhere (lines 307-322), so its record can be short
  of its movement, and then that of an array which reads it: `DiffSound.AccumMissing`,
  `DiffSums.AccumTracked`, `DiffProgram.RecordExact`, `DiffExamples.CounterMovesUnrecorded`.
* Array SSA sends a load at a constant index to the new version of an array the loop renames, because
  the solver finds a counter above the constant; it is right exactly from the iteration after that
  index on: `SsaSound.ReadExact`, `SsaExamples.ConstantReadWrong`.
* Outside loops every load goes to the current version, which for a scalar the block renames is right
  exactly once it has been stored there: `SsaSound.OuterReadExact`, `SsaExamples.OuterReadWrong`.
* Nested-loop elimination accepts inverted inner ranges, for which the multiple is negative, column
  ranges whose multiplicity is another one, and terms whose index changes its meaning when the inner
  counter is replaced by the outer one.  For every nest whose terms do not read the updated variable
  `NestSound.RowExact`, `ScalarExact` and `ColumnExact` say exactly when the loops agree;
  `AcceptedInverted`, `AcceptedStrictColumn`, `AcceptedOuterTerm` and `AcceptedInnerTerm` apply them, and
  `NestScope.AcceptedLateColumn` and `AcceptedUnitColumn`.
* It also accepts a term that reads the updated variable as part of a larger expression, since only a
  load standing alone is rejected (`simplify_nl.cpp` lines 141-145).  For a term that reads the cell it
  updates, linearly, the multiple must be a geometric sum: `NestSelf.SelfLinearExact`,
  `SelfLinearColumnExact`, `SelfLinearScalarExact`, and `AcceptedDoublingRow`, `AcceptedDoublingColumn`,
  `AcceptedDoublingScalar`.
* Its test of the term replaces the outcome of all tests before it (line 140).  So it accepts stores that
  accumulate nothing, one cell of an array taken for a column, and a cell that is subtracted:
  `NestRaw.AcceptedAnyway`, `AcceptedAssignment`, `AcceptedOneCell`, `AcceptedFlip`.
* In the driver the exit for a derived `false` is right exactly when the program of size 2 has no end:
  `Driver.DerivedFalseExact`, `Driver.DerivedFalseUnsound`.
* Strengthening each flattened path on its own is sound when each path keeps what the others
  strengthened, and not otherwise in general: `Driver.PathwiseSound` (one direction),
  `Driver.PathwiseUnsound`.
* Deferring peels is right when the cloned operands of a peel are no earlier peel's target
  (`PeelDeferral.DeferralCorrect`, one direction).  For a loop that fills an array behind loops which meet
  earlier peels rightly it is right exactly when the lags of its propagated loads cancel:
  `PeelDeferral.DeferralExact`, `PeelDeferral.ChainExact`, `PeelDeferral.ChainWrong`.

## Model

| member | source | states |
|---|---|---|
| Terms.MkAndMeaning | diffy/src/utils/z3Utils.cpp:673-683 | the helper conjunction is true exactly when all elements are, also for none and one |
| Terms.MkOrMeaning | diffy/src/utils/z3Utils.cpp:653-663 | the helper disjunction is true exactly when it is empty or some element is true |
| BmcEncoder.Encoder.GetIntTerm | diffy/src/utils/llvmUtils.cpp:3053-3082 | a constant gives its literal, a known register its term, an unknown one a fresh name that is then kept |
| BmcEncoder.Encoder.InitMemoryState | diffy/src/bmc/array_model.cpp:46-53 | fresh version names for the arrays and globals of the entry block |
| BmcEncoder.Encoder.InitParameters | diffy/src/bmc/bmc_pass.cpp:30-36 | every parameter gets a term |
| BmcEncoder.Encoder.ManyExitBits | diffy/src/bmc/bmc_pass.cpp:704-714 | with three or more successors: one fresh exit bit each and the constraint that one is taken |
| BmcEncoder.Encoder.InitPathExitBit | diffy/src/bmc/bmc_pass.cpp:685-724 | exit bits and a path bit for every block, the entry's path bit true |
| BmcEncoder.Encoder.ExtendPath | diffy/src/bmc/bmc_pass.cpp:740-744 | path bit of the predecessor and exit bit of the first matching successor |
| BmcEncoder.Encoder.IncomingPaths | diffy/src/bmc/bmc_pass.cpp:755-761 | the edge conditions of all predecessors, in order |
| BmcEncoder.Encoder.AllEqual | diffy/src/bmc/array_model.cpp:13-21 | decides whether all predecessors have the same name for version j |
| BmcEncoder.Encoder.JoinState | diffy/src/bmc/array_model.cpp:11-34 | the joined names, guarded equalities and next fresh name, version by version |
| BmcEncoder.Encoder.JoinArrayState | diffy/src/bmc/array_model.cpp:3-35 | the join's names become the block's array versions, its equalities one constraint |
| BmcEncoder.Encoder.JoinGlbState | diffy/src/bmc/glb_model.cpp:79-113 | the same for globals |
| BmcEncoder.Encoder.TranslatePhiInt | diffy/src/bmc/bmc_pass.cpp:109-142 | a fresh name, equal to each incoming value under that edge's condition |
| BmcEncoder.Encoder.AssumeToBmc | diffy/src/bmc/bmc_pass.cpp:147-155 | the block's path bit is replaced by a fresh one that also demands the condition |
| BmcEncoder.Encoder.AssertToSpec | diffy/src/bmc/bmc_pass.cpp:179-189 | "not on this path, or the condition" becomes a specification and the path bit an assertion bit |
| BmcEncoder.Encoder.ArrayWrite | diffy/src/bmc/array_model.cpp:72-82 | a fresh version that stores the value, put in the block's version vector |
| BmcEncoder.Encoder.GlbWrite | diffy/src/bmc/glb_model.cpp:48-63 | a fresh name equal to the value, put in the block's version vector |
| BmcEncoder.Encoder.TranslateInstr | diffy/src/bmc/bmc_pass.cpp:645-656 | each kind of instruction acts on the encoder as its specification function says |
| BmcEncoder.Encoder.TranslateSwitch | diffy/src/bmc/bmc_pass.cpp:502-516 | each case's exit bit is its comparison, the default bit the negation of all |
| BmcEncoder.Encoder.TranslateTerminator | diffy/src/bmc/bmc_pass.cpp:524-546 | branches, switches, returns and unreachable act as their specification functions say |
| BmcEncoder.Encoder.TranslateBlock | diffy/src/bmc/bmc_pass.cpp:642-656 | all instructions and the terminator of a block |
| BmcEncoder.Encoder.GlobalDefinitions | diffy/src/bmc/bmc.cpp:117-120 | one equation per initialised global, over its entry name |
| BmcEncoder.Encoder.DoBmc | diffy/src/bmc/bmc_pass.cpp:746-789 | the object ends in exactly the state `Encode` describes, about which the theorems below speak |
| BmcEncoder.Check | diffy/src/bmc/bmc_pass.cpp:746-789 | the vectors `do_bmc` leaves have a model breaking a specification exactly when some run shows a failure |
| EncoderFrame.BlocksSettle | diffy/src/bmc/bmc_pass.cpp:752-777 | later blocks change no earlier constraint, specification, path bit, version vector or term |
| EncoderKnown.BlocksKnow | diffy/src/bmc/bmc_pass.cpp:752-777 | after b blocks the term map knows exactly the parameters and the registers those blocks define, so no use is ever unknown |
| EncoderMatch.InstrMatch | diffy/src/bmc/bmc_pass.cpp:642-656 | under any valuation of what is emitted, one encoded instruction mirrors one executed one: registers, arrays, globals and path bit |
| EncoderMatch.AssumeMatch | diffy/src/bmc/bmc_pass.cpp:147-155 | the replaced path bit is true exactly when the block was entered and every assumption so far held |
| EncoderMatch.StoreMatch | diffy/src/bmc/bmc_pass.cpp:440-454 | after a store the version vector denotes the updated array and the untouched others |
| EncoderSound.JoinCorrect | diffy/src/bmc/array_model.cpp:11-34 | where predecessor i's condition is true, every version at the join equals that predecessor's, shared name or fresh |
| EncoderSound.JoinNames | diffy/src/bmc/array_model.cpp:11-34 | a version all predecessors share keeps its name, any other gets a fresh one of its own; where all are shared nothing is emitted |
| EncoderSound.JoinedMemory | diffy/src/bmc/bmc_pass.cpp:765-768 | at a join all arrays and globals denote what the predecessor control came from left behind |
| EncoderSound.SwitchConsMeaning | diffy/src/bmc/bmc_pass.cpp:502-516 | the switch constraints make exactly the bit of the chosen case true |
| EncoderSound.TermExits | diffy/src/bmc/bmc_pass.cpp:524-546 | after a visited block exactly the exit bit of the successor really taken is true |
| EncoderSound.ReturnMeans | diffy/src/bmc/bmc_pass.cpp:488-496 | the fresh name of a visited block's return is the value the run returns |
| EncoderSound.PathDown | diffy/src/bmc/bmc_pass.cpp:147-155 | inside a block path bits only get stronger |
| EncoderSound.EdgeEntered | diffy/src/bmc/bmc_pass.cpp:757-768 | following an edge whose condition is true enters the block in the concrete state |
| EncoderSound.BlocksSound | diffy/src/bmc/bmc_pass.cpp:746-777 | SOUNDNESS: every block whose path bit is true lies on the concrete run from the same inputs, with its terms equal to the concrete values |
| EncoderSound.SpecsSound | diffy/src/bmc/bmc_pass.cpp:179-189 | a specification false under the valuation is a real failing execution, a true assertion bit a real arrival at an assertion |
| EncoderComplete.JoinExtend | diffy/src/bmc/array_model.cpp:11-34 | a valuation with at most one true condition extends over the fresh names of a join |
| EncoderComplete.EnterExtend | diffy/src/bmc/bmc_pass.cpp:757-768 | it extends over everything emitted on entering a block, visited or not |
| EncoderComplete.InstrExtend | diffy/src/bmc/bmc_pass.cpp:642-656 | it extends over the fresh names of one instruction, with a nondet result of one's choice |
| EncoderComplete.TermExtend | diffy/src/bmc/bmc_pass.cpp:502-546 | it can be corrected on the block's own exit bits so that the terminator's constraints hold |
| EncoderStages.StagesFit | diffy/src/bmc/bmc_pass.cpp:685-777 | every emitted term mentions only names made before, so fresh names are fresh |
| EncoderExact.OnlyOneEdge | diffy/src/bmc/bmc_pass.cpp:757-761 | under the constraints two incoming edges of a block are never both true |
| EncoderExact.RunsDone | diffy/src/bmc/bmc_pass.cpp:746-777 | when the initial path bits say which blocks are visited, every visit of the run is described by the terms |
| EncoderExact.WitnessExists | diffy/src/bmc/bmc_pass.cpp:746-784 | COMPLETENESS: from any inputs there is a valuation of all names, those of unvisited blocks included, that satisfies every constraint |
| EncoderVerdict.FailShows | diffy/src/bmc/bmc_pass.cpp:179-189 | a failing assertion or unreachable block of the run makes a specification false in that valuation |
| EncoderVerdict.ArrivalShows | diffy/src/bmc/bmc_pass.cpp:188-188 | a run that arrives at an assertion makes an assertion bit true |
| EncoderVerdict.BitsMean | diffy/src/bmc/bmc_pass.cpp:784-784 | there are assertion bits exactly when the program has an assertion |
| EncoderVerdict.GlbDefsFit | diffy/src/bmc/bmc.cpp:117-120 | the definitions of the globals hold exactly for inputs that start them with their initial values |
| EncoderVerdict.VerdictForInputs | diffy/src/bmc/bmc_pass.cpp:746-789 | input by input: some model reads these inputs exactly when they fail and, if the program has assertions, arrive at one |
| EncoderVerdict.Verdict | diffy/src/bmc/bmc_pass.cpp:746-789 | EXACTNESS: the constraints with a broken specification are satisfiable exactly when some inputs fail that way |
| EncoderVerdict.StaticVerdict | diffy/src/bmc/bmc_pass.cpp:746-789 | with no `unreachable` block, or no assertion, the constraints with a broken specification are satisfiable exactly when some fitting inputs fail |
| EncoderVerdict.MissedFailure | diffy/src/bmc/bmc_pass.cpp:784-784 | a well-formed program that runs into `unreachable` and whose encoding has no model: the last constraint asks for a reached assertion |
| Unroller.Segment.WireCopies | diffy/src/bmc/bmc_ds.cpp:128-134 | one pass over the predecessor map adds, for every key it has by now, the predecessors moved by one copy |
| Unroller.Segment.ReplicateBlocks | diffy/src/bmc/bmc_ds.cpp:114-121 | the block vector becomes `times` copies of itself |
| Unroller.Segment.StitchCopy | diffy/src/bmc/bmc_ds.cpp:125-145 | one round: copied predecessors, the header wired to the previous latches, exits |
| Unroller.Segment.CopyAndStitch | diffy/src/bmc/bmc_ds.cpp:95-150 | the whole new state: blocks, predecessors of every index below times*size, exits of all copies, latches of the last; from three copies on a stray key beyond the end |
| Unroller.Source | diffy/src/bmc/bmc_ds.cpp:128-134 | below the headers a copied index takes its predecessors from its original block only, in one round, although the loop runs over keys added earlier |
| Unroller.Stitched | diffy/src/bmc/bmc_ds.cpp:146-149 | inserting the copies without overwriting leaves the unrolled predecessors |
| Unroller.ExitsReplicated | diffy/src/bmc/bmc_ds.cpp:141-144 | an exit of the unrolling is an exit of the original in some copy, and the other way round |
| Unroller.UnrolledSmaller | diffy/src/bmc/bmc_ds.cpp:125-149 | every predecessor index is smaller than its block |
| Unroller.WalkLifts | diffy/src/bmc/bmc_ds.cpp:95-150 | a walk of the loop with fewer than `times` back edges lifts to a path of the unrolling and is recovered from it |
| Unroller.PathProjects | diffy/src/bmc/bmc_ds.cpp:95-150 | a path of the unrolling projects to such a walk and is recovered from it: with `WalkLifts` a bijection |
| DiffGenerator.DiffPreds.CollectForArray | diffy/src/aggregation/diff_preds.cpp:229-257 | own and taken-over differences of an array store, load by load |
| DiffGenerator.DiffPreds.CollectForScalar | diffy/src/aggregation/diff_preds.cpp:229-257 | the glue load by load: the scalar's own term and array differences times N-1, other scalars' once; and what of it is recorded |
| DiffGenerator.DiffPreds.AdditionalRecord | diffy/src/aggregation/diff_preds.cpp:307-322 | a register for the peeled value of every array load |
| DiffGenerator.DiffPreds.PeelArrayLoop | diffy/src/aggregation/diff_preds.cpp:83-156 | code and recorded differences for a loop that writes an array, whatever the operators of the stored value |
| DiffGenerator.DiffPreds.PeelScalarLoop | diffy/src/aggregation/diff_preds.cpp:158-305 | glue, peel and recorded differences for a scalar written in a loop, whatever the operators of its value and wherever it reads itself |
| DiffGenerator.DiffPreds.PeelOuterSet | diffy/src/aggregation/diff_preds.cpp:341-387 | an N-dependent scalar is restored and moved by its difference, a constant store vanishes |
| DiffGenerator.DiffPreds.PeelOuterCopy | diffy/src/aggregation/diff_preds.cpp:388-448 | a copy takes over the last recorded difference of its source |
| DiffGenerator.DiffPreds.PeelOuterCell | diffy/src/aggregation/diff_preds.cpp:341-376 | a store of an expression of N to a cell outside loops is dropped and its difference recorded for the whole array |
| DiffGenerator.DiffPreds.PeelFunction | diffy/src/aggregation/diff_preds.cpp:68-79 | the pass ends in the state `GenUpTo` describes, and the code it emitted turns the state of size N-1 into the scalars and cells N-1 of size N for every program of the fragment whose values allow it |
| DiffSound.DiffMeans | diffy/src/aggregation/diff_preds.cpp:549-561 | the difference expression with the counter set to N is worth e(N) - e(N-1) there |
| DiffSound.PureMeans | diffy/src/utils/llvmUtils.cpp:657-674 | what is collected from a value without loads is worth what the value is worth |
| DiffSound.ResetMissing | diffy/src/aggregation/diff_preds.cpp:102-138 | a scalar set to a value without loads ends right if and only if nothing later moves it; its records are short of the change between the last iterations less the change at counter N less what was recorded before, so a reset to an expression of N is tracked exactly when the earlier records add up to 0 |
| DiffSums.PureExact | diffy/src/aggregation/diff_preds.cpp:102-116 | an array filled with a value without loads is recorded right if and only if its change at every counter is that at counter N |
| DiffSums.PureRecorded | diffy/src/aggregation/diff_preds.cpp:102-116 | so always where the change does not depend on the counter |
| DiffSound.ArrStep | diffy/src/aggregation/diff_preds.cpp:229-257 | an array loop keeps the relation between the sizes if and only if in every iteration the stored value moves by what is recorded: its own term's difference and those of all loads added up, whatever the operators; scalars and peeled cells stay right in any case |
| DiffSums.LinearRecorded | diffy/src/aggregation/diff_preds.cpp:229-301 | for sums, differences and constant multiples that is one equation |
| DiffSums.SignedRecorded | diffy/src/aggregation/diff_preds.cpp:229-301 | for sums and differences: the unrecorded movement is twice the recorded differences of the subtracted loads |
| DiffSound.ScalarStep | diffy/src/aggregation/diff_preds.cpp:158-305 | a loop that writes a scalar, whatever the operators, keeps the relation if and only if one iteration on the glued value gives what the scalar needs |
| DiffSound.AccumStep | diffy/src/aggregation/diff_preds.cpp:229-257 | an accumulation x = x + u, u + x or x - u keeps it if and only if the glue is how far the totals of the common iterations are apart |
| DiffSums.SignedMissed | diffy/src/aggregation/diff_preds.cpp:229-301 | for sums and differences, exactly what the glue misses: N-1 times the unrecorded movement less twice the subtracted loads' differences, and N-2 times the differences of the scalars read |
| DiffSums.GlueTotal | diffy/src/aggregation/diff_preds.cpp:229-275 | for any scalar loop the glue is its own term's difference N-1 times per load of itself, array differences N-1 times and scalar ones once |
| DiffSums.OwnCellExact | diffy/src/aggregation/diff_preds.cpp:243-257 | outside array SSA form: an array with recorded differences that is loaded and stored again has its peeled cell right if and only if it is not loaded or the differences add up to 0 |
| DiffSums.LastRecorded | diffy/src/aggregation/diff_preds.cpp:303-317 | the last difference of a scalar loop that reads arrays is the peeled value of its last array load, which is all a copy takes over |
| DiffSums.AccumTracked | diffy/src/aggregation/diff_preds.cpp:307-322 | a tracked accumulator whose glue misses nothing stays tracked if and only if what it adds in the peeled iteration is the sum of the array loads in it |
| DiffSound.AccumMissing | diffy/src/aggregation/diff_preds.cpp:307-322 | for any accumulator, how much its records are short of its movement afterwards |
| DiffSound.OuterStep | diffy/src/aggregation/diff_preds.cpp:341-387 | setting a scalar to an expression of N keeps the relation and is tracked |
| DiffSound.CopyStep | diffy/src/aggregation/diff_preds.cpp:388-448 | a copy keeps it, and is tracked, if and only if its source's last difference is how far the source moved |
| DiffSound.CellStep | diffy/src/aggregation/diff_preds.cpp:341-376 | a cell stored outside loops keeps it if and only if its value does not move with N, or there is no other cell |
| DiffProgram.DifferencingCorrect | diffy/src/aggregation/diff_preds.cpp:68-79 | after the generated code every scalar and every array's cell N-1 is as at size N, all other cells as at size N-1, and cells below N-1 differ between the sizes by the recorded differences |
| DiffProgram.DifferencingExact | diffy/src/aggregation/diff_preds.cpp:229-257 | the scalar written by the first phase whose values do not allow it, and by none after it, ends up right if and only if they do |
| DiffProgram.RecordExact | diffy/src/aggregation/diff_preds.cpp:307-322 | the array written by the first phase whose values do not allow it, and by none after it, moves by its recorded differences if and only if they do |
| DiffProgram.StaticallyCorrect | diffy/src/aggregation/diff_preds.cpp:68-79 | correct at every size from 2 on when values are sums with at most one part without loads, of any operators, whose subtracted loads have no differences, or do not move at all, no phase reads a scalar that records less than it moves, accumulations read only scalars without differences, copies ones with at most one, a scalar set to a value without loads is not written again, and cells stored outside loops do not depend on N |
| DiffExamples.Awns4Sum | diffy/additional-bench/safe/awns4.c:28-50 | the array-to-scalar-to-array-to-scalar chain sums to 2*N*N at every size |
| DiffExamples.Awns4Differenced | diffy/additional-bench/safe/awns4.c:28-50 | the code generated for it turns the state at N-1 into that sum at N |
| DiffExamples.ResetChainDifferenced | diffy/src/aggregation/diff_preds.cpp:102-138 | x = N in a loop; a[i] = x; y += a[i]: the generated code ends in N*N |
| DiffExamples.SquaresDifferenced | diffy/src/aggregation/diff_preds.cpp:102-116 | a[i] = N*N; y += a[i]: the generated code ends in N*N*N |
| DiffExamples.ScalarAccumulationWrong | diffy/src/aggregation/diff_preds.cpp:234-241 | x = N; y += x: the generated code is right at size 2 and wrong at every larger size |
| DiffExamples.SubtractingExact | diffy/src/aggregation/diff_preds.cpp:229-301 | a[i] = e; x = 0; x -= a[i]: right if and only if e does not move with N |
| DiffExamples.SubtractionWrong | diffy/src/aggregation/diff_preds.cpp:229-301 | so wrong at every size for an array filled with N, right for one filled with a constant |
| DiffExamples.DerivedWrong | diffy/src/utils/llvmUtils.cpp:1566-1596 | a[i] = N; b[i] = a[i] - a[i] or 2 * a[i]: the record of b is wrong at every size |
| DiffExamples.TwoRestsWrong | diffy/src/utils/llvmUtils.cpp:1566-1596 | b[i] = (a[i] + 1) + (a[i] + N): both operands have a rest, none is recorded, and the record of b is wrong at every size |
| DiffExamples.FirstCellWrong | diffy/src/aggregation/diff_preds.cpp:341-376 | a[0] = N outside loops: the record of a is right at size 2 only |
| DiffExamples.CopyWrong | diffy/src/aggregation/diff_preds.cpp:406-427 | a copied sum over a moving array is wrong at every size |
| DiffExamples.CounterMovesUnrecorded | diffy/src/aggregation/diff_preds.cpp:319-322 | x += 1; a[i] = x: at every size the cells of a do not move by the differences recorded for it |
| DiffExamples.CounterMissing | diffy/src/aggregation/diff_preds.cpp:319-322 | because the record of x is one short at every size |
| SsaPass.ArraySsa.constructor | diffy/src/aggregation/array_ssa.cpp:160-167 | every variable is its own previous and current version |
| SsaPass.ArraySsa.CreateNewNames | diffy/src/aggregation/array_ssa.cpp:96-113 | a fresh version for each written variable that was updated before, arrays in outer blocks excepted |
| SsaPass.ArraySsa.RenameInBlock | diffy/src/aggregation/array_ssa.cpp:115-158 | stores go to the current version, loads by comparing index and counter, and scalar stores in loops get a preheader copy |
| SsaPass.ArraySsa.ProcessSubLoop | diffy/src/aggregation/array_ssa.cpp:64-80 | names, renaming, and synchronised maps for a loop |
| SsaPass.ArraySsa.ProcessOuterBlock | diffy/src/aggregation/array_ssa.cpp:82-90 | names and renaming for an outer block |
| SsaPass.ArraySsa.ConvertToSsa | diffy/src/aggregation/array_ssa.cpp:36-56 | the pass ends in the state `Convert` describes, and the phases it produced end with the current versions equal to the variables at every size the program is safe for |
| SsaSound.NewNamesNamed | diffy/src/aggregation/array_ssa.cpp:96-113 | renamed variables get distinct fresh versions and keep their current one as the previous |
| SsaSound.CopiesCopied | diffy/src/aggregation/array_ssa.cpp:129-135 | the preheader copies give each written scalar's new version the previous one's value and touch nothing else |
| SsaSound.LoopRight | diffy/src/aggregation/array_ssa.cpp:64-158 | at iteration i the new version agrees with the source array below i and the previous version from i upward |
| SsaSound.LoopPhaseRight | diffy/src/aggregation/array_ssa.cpp:64-80 | a whole loop keeps current versions equal to the source variables |
| SsaSound.OuterPhaseRight | diffy/src/aggregation/array_ssa.cpp:82-90 | so does an outer block |
| SsaSound.ConversionCorrect | diffy/src/aggregation/array_ssa.cpp:36-56 | after all phases the current version of every array equals the source array on 0..N-1 and every scalar its variable, whatever fresh versions held |
| SsaSound.ReadExact | diffy/src/aggregation/array_ssa.cpp:148-154 | a read of a renamed array is redirected right in all memories related by the loop invariant if and only if it is at or above the counter and not yet stored, or below the counter |
| SsaSound.OuterReadExact | diffy/src/aggregation/array_ssa.cpp:151-154 | a read of a scalar in an outer block is sent right in all memories related by the block's invariant if and only if the block does not rename the scalar or has stored it already |
| SsaExamples.ConstantReadWrong | diffy/src/aggregation/array_ssa.cpp:148-154 | a[i] = a[0] + 1 in a second loop reads the new version before it is stored |
| SsaExamples.OuterReadWrong | diffy/src/aggregation/array_ssa.cpp:148-154 | x = x + 1 outside loops reads the new version of x, which by `OuterReadExact` is not right, and ends with whatever that held plus 1 |
| NestPass.ProcessNl | diffy/src/aggregation/simplify_nl.cpp:41-290 | gives up or returns the accumulation it takes the loops for and the multiple, exactly as the tests in the tool's order say; loops that are such an accumulation equal the new loop exactly when the condition of their shape holds, and over constant arrays exactly when the term is zero or the multiple counts its updates |
| NestPass.FindTerm | diffy/src/aggregation/simplify_nl.cpp:100-139 | which operand is the stored cell and which is the term, the left one looked at first |
| NestPass.EarlyTests | diffy/src/aggregation/simplify_nl.cpp:53-98 | the tests of the loop structure and the indices |
| NestPass.Multiple | diffy/src/aggregation/simplify_nl.cpp:233-264 | the multiple from the kind of store and the inner bounds |
| NestRaw.UnderstoodExact | diffy/src/aggregation/simplify_nl.cpp:100-142 | loops whose stores accumulate are replaced rightly exactly when the nest they are taken for is |
| NestRaw.RawOfPasses | diffy/src/aggregation/simplify_nl.cpp:41-290 | a nest written out with the cell as left operand is taken for itself, and accepted exactly as all scope tests together say |
| NestRaw.AcceptedAnyway | diffy/src/aggregation/simplify_nl.cpp:140 | an assignment and a store to one cell of an array pass whatever the structure, because the test of the term replaces the outcome of the earlier ones |
| NestRaw.AcceptedAssignment | diffy/src/aggregation/simplify_nl.cpp:107-140 | a[i] = c[i] + 1 is replaced by an accumulation, right only where each c[x] + 1 happens to be a[x] + N |
| NestRaw.AcceptedOneCell | diffy/src/aggregation/simplify_nl.cpp:94-98 | a[0] += 1 for an array is replaced by updates of all cells, right up to size 1 only |
| NestRaw.AcceptedFlip | diffy/src/aggregation/simplify_nl.cpp:122-136 | a[i] = 1 - a[i] is replaced by a[i] - N, right at odd sizes only, on cells that hold (N + 1) / 2, and at size 0 |
| NestScope.StaticScope | diffy/src/aggregation/simplify_nl.cpp:338-354 | a term over scalars is in scope if and only if no loop counter occurs in it |
| NestScope.ArrayScope | diffy/src/aggregation/simplify_nl.cpp:355-371 | a load of an array is in scope if and only if the other loops listed behind fill the array with terms in scope; one that none fills is, one filled with a counter is not |
| NestScope.ScopeConstant | diffy/src/aggregation/simplify_nl.cpp:338-373 | a term in scope over constant arrays has one value, whatever the counters |
| NestScope.InScopeExact | diffy/src/aggregation/simplify_nl.cpp:140-325 | over constant arrays a nest of a term in scope is eliminated rightly if and only if the term is zero or the multiple counts its updates |
| NestPass.EliminationSound | diffy/src/aggregation/simplify_nl.cpp:41-325 | for separate terms, rows and scalars over ranges never inverted and columns over the three good ranges, the single loop equals the nest |
| NestPass.EliminationExact | diffy/src/aggregation/simplify_nl.cpp:212-325 | for every nest whose terms do not read the updated variable: equal to the single loop if and only if the condition of its shape holds |
| NestPass.SelfExact | diffy/src/aggregation/simplify_nl.cpp:212-325 | the same for nests whose term reads the cell it updates, linearly |
| NestSound.InnerAt | diffy/src/aggregation/simplify_nl.cpp:212-325 | what the inner loop adds to each cell |
| NestSound.RowExact | diffy/src/aggregation/simplify_nl.cpp:237-246 | ROWS, exactly: equal to the single loop if and only if in every iteration the inner loop's sum of terms is the multiple of the one term evaluated at the outer counter |
| NestSound.RowCounts | diffy/src/aggregation/simplify_nl.cpp:237-246 | for a term that does not look at the inner counter: if and only if in every iteration the term is zero or the multiple is the trip count |
| NestSound.ScalarExact | diffy/src/aggregation/simplify_nl.cpp:237-246 | SCALARS, exactly: if and only if all inner sums together are all multiples together |
| NestSound.ColumnExact | diffy/src/aggregation/simplify_nl.cpp:247-264 | COLUMNS, exactly: if and only if in each cell the terms of the iterations that visit it add up to the multiple of the one term evaluated there |
| NestSound.ColumnCounted | diffy/src/aggregation/simplify_nl.cpp:247-264 | for a term that does not look at the outer counter: if and only if each cell with a non-zero term is visited as often as its multiple says |
| NestSound.RowMultiple | diffy/src/aggregation/simplify_nl.cpp:237-246 | the chosen multiple is the trip count exactly when the range is not inverted and a constant start not negative |
| NestSound.ColumnElimination | diffy/src/aggregation/simplify_nl.cpp:247-264 | ranges [0,N), [i,N), [0,i+1): multiplicities N, i+1, N-i preserve any initial array |
| NestSound.RowElimination | diffy/src/aggregation/simplify_nl.cpp:237-246 | rows and scalars, with empty inner loops and a trailing update |
| NestSound.AcceptedInverted | diffy/src/aggregation/simplify_nl.cpp:237-246 | an accepted nest with an inverted range is wrong at every size but 0 |
| NestSound.AcceptedStrictColumn | diffy/src/aggregation/simplify_nl.cpp:258-264 | an accepted column over [0,i) is wrong at every size but 0 |
| NestSound.AcceptedOuterTerm | diffy/src/aggregation/simplify_nl.cpp:345-375 | a[j] += c[i] is accepted, and right at size n if and only if n * c[x] is the sum of c for every x below n |
| NestSound.AcceptedInnerTerm | diffy/src/aggregation/simplify_nl.cpp:345-375 | a[i] += c[j] is accepted, and right under the same condition only |
| NestScope.RejectedInnerCounter | diffy/src/aggregation/simplify_nl.cpp:342-343 | a[i] += j is rejected whatever the other loops store, and its multiple would be right up to size 1 only |
| NestScope.RejectedOuterColumn | diffy/src/aggregation/simplify_nl.cpp:248 | a[j] += i is rejected, under the same condition |
| NestScope.AcceptedLateColumn | diffy/src/aggregation/simplify_nl.cpp:256-257 | a column that starts at c > 0 gets the multiple N - c, right at sizes 0 and c only |
| NestScope.AcceptedUnitColumn | diffy/src/aggregation/simplify_nl.cpp:250-254 | a column over [i,i+1) gets the multiple i, right at size 0 only |
| NestSelf.RejectedSelfLoad | diffy/src/aggregation/simplify_nl.cpp:141-145 | a[i] += a[i] is rejected, and its multiple would be right up to size 1 and on zero cells only |
| NestSelf.SelfLinearExact | diffy/src/aggregation/simplify_nl.cpp:138-145 | ROWS that read their own cell linearly, exactly: in every row the term is zero or the geometric sum of its factor over the inner iterations is the multiple |
| NestSelf.SelfLinearColumnExact | diffy/src/aggregation/simplify_nl.cpp:138-145 | COLUMNS, exactly: in every cell the term is zero or the geometric sum over the visits is the multiple |
| NestSelf.SelfLinearScalarExact | diffy/src/aggregation/simplify_nl.cpp:138-145 | SCALARS, exactly: the gap between the two chains of updates, given by a recurrence, closes; in particular when each multiple is the geometric sum |
| NestSelf.SelfRowExact | diffy/src/aggregation/simplify_nl.cpp:138-145 | any term that reads its own cell: repeated updates of a row give what one update by the multiple gives |
| NestSelf.SelfColumnExact | diffy/src/aggregation/simplify_nl.cpp:138-145 | the same for columns, one update per visiting iteration, cells outside untouched |
| NestSelf.SelfScalarExact | diffy/src/aggregation/simplify_nl.cpp:138-145 | the same for scalars |
| NestSelf.AcceptedDoublingRow | diffy/src/aggregation/simplify_nl.cpp:138-145 | a[i] += a[i] + 1 is accepted, and right exactly up to size 1 and where every cell is -1 |
| NestSelf.AcceptedDoublingColumn | diffy/src/aggregation/simplify_nl.cpp:138-145 | so is a[j] += a[j] + 1, under the same condition |
| NestSelf.AcceptedDoublingScalar | diffy/src/aggregation/simplify_nl.cpp:138-145 | and s += s + 1 |
| Benchmarks.WeightedTriangle | diffy/cav21-bench/safe/nested-nlj1.c:29-40 | the triangular nest adding i+1 leaves (N*(N+1) - k*(k+1))/2 in a[k] |
| Benchmarks.ColumnOfTerms | diffy/cav21-bench/safe/nested-unb1.c:24-40 | the column nest leaves (N-k)*a[k] + 1 in b[k] |
| Benchmarks.RowWithTrailingUpdate | diffy/cav21-bench/safe/nested-as1.c:25-56 | the row nest with a trailing update leaves 2*N |
| Driver.StepValid | diffy/src/bmc/bmc_llvm_aggr.cpp:481-494 | a base case and a closed step make the postcondition valid at every size |
| Driver.StrengtheningValid | diffy/src/bmc/bmc_llvm_aggr.cpp:501-537 | if the shifted precondition is valid at every size, so is the postcondition it was computed for |
| Driver.KeptMeans | diffy/src/bmc/bmc_llvm_aggr.cpp:505-520 | the strengthening demands what the conjuncts that read an array demand, and there is none if and only if no conjunct reads one |
| Driver.OneEnd | diffy/src/bmc/bmc_llvm_aggr.cpp:483-559 | the ends exclude each other, so the outcome and its round are determined, and the tool answers true if and only if some round within the bound closes or derives `false` |
| Driver.DerivedFalseExact | diffy/src/bmc/bmc_llvm_aggr.cpp:508-514 | where hypothesis, body and postcondition contradict each other the postcondition is valid if and only if the program of size 2 has no end |
| Driver.PathwiseSound | diffy/src/bmc/bmc_llvm_aggr.cpp:467-473 | when every path closes, after its own strengthenings, and each keeps what the others strengthened, the postcondition is valid |
| Driver.VerifyPost | diffy/src/bmc/bmc_llvm_aggr.cpp:481-559 | ends exactly as `EndsWith` says: closed or derived false in the first round that does so after rounds that all strengthen, failed or unknown where strengthening stops, unknown when the bound is reached; closing, in whatever round, makes the original postcondition valid, a derived `false` makes that round's valid if and only if the program of size 2 has no end |
| Driver.VerifySpec | diffy/src/bmc/bmc_llvm_aggr.cpp:410-479 | answers true if and only if the base case holds and every path answers true within the bound; that is sound when every path closes and keeps what the others strengthened, in particular for one path and when every path closes in its first round; a failed base case is a real violation |
| Driver.DerivedFalseUnsound | diffy/src/bmc/bmc_llvm_aggr.cpp:508-514 | for "the counter is 0" on a program counting up, hypothesis, body and postcondition contradict each other, `false` is derived and the tool answers true whatever the bound, but it fails at size 2 |
| Driver.PathwiseUnsound | diffy/src/bmc/bmc_llvm_aggr.cpp:467-473 | two paths that close in rounds 1 and 2 for every bound from 2 on, the first not keeping the strengthening of the second, with an invalid postcondition |
| FlattenPath.FlattenForDriver | diffy/src/bmc/bmc_llvm_aggr.cpp:258-307 | the surviving paths are those of all choices of one disjunct for every disjunction, in their order, less the refuted ones; in range, the conjunction holds exactly when one of them does; where disjunctions stand at the top level only, none is left |
| FlattenPath.FlattenForSolver | diffy/src/aggregation/aggregation.cpp:8-59 | one path for every choice, in their order: whole unless a refuted disjunct is chosen, then marked and perhaps without formulas behind it; for N > 0 the conjunction holds exactly when one of them does; where disjunctions stand at the top level only, none is left |
| FlattenPath.FlatMeans | diffy/src/bmc/bmc_llvm_aggr.cpp:265-297 | before pruning, under every valuation, the conjunction holds exactly when a path does |
| FlattenPath.AllChoices | diffy/src/bmc/bmc_llvm_aggr.cpp:266-289 | the blocks lay out every choice of disjuncts, and nothing else |
| FlattenPath.ChoicesDiffer | diffy/src/bmc/bmc_llvm_aggr.cpp:266-289 | and none of them twice |
| FlattenPath.FlatPicked | diffy/src/bmc/bmc_llvm_aggr.cpp:265-297 | before pruning each position holds the chosen disjuncts, conjunctions among them opened, and all other formulas, in the order of the conjunction |
| FlattenPath.DriverPaths | diffy/src/bmc/bmc_llvm_aggr.cpp:265-307 | a path is returned if and only if it is that of a choice and not refuted |
| FlattenPath.Prune | diffy/src/bmc/bmc_llvm_aggr.cpp:299-306 | erasing in place leaves the paths that are not refuted, in their order |
| FlattenPath.FourPaths | diffy/src/bmc/bmc_llvm_aggr.cpp:265-297 | two disjunctions around a conjunction: the four paths, in order |
| FlattenPath.SolverPaths | diffy/src/aggregation/aggregation.cpp:16-57 | the path of a choice without refuted disjuncts is whole; the others are marked and drop formulas only behind a refuted disjunct |
| FlattenPath.StillDead | diffy/src/aggregation/aggregation.cpp:26-48 | skipped positions stay positions of dead paths through later disjunctions |
| PeelPass.PropagatePeelEffects | diffy/src/aggregation/create_qnm1.cpp:436-483 | each loop's store gets its loads of peeled scalars replaced |
| PeelPass.PushPeels | diffy/src/aggregation/create_qnm1.cpp:485-535 | relinking leaves control going through all loops and then all peels in order |
| PeelDeferral.PropagateEval | diffy/src/aggregation/create_qnm1.cpp:450-470 | a propagated expression is worth in the deferred memory what the original is worth in place |
| PeelDeferral.LoopLags | diffy/src/aggregation/create_qnm1.cpp:436-483 | without its peel a loop keeps the deferred memory equal off the peels' targets |
| PeelDeferral.OperandRight | diffy/src/aggregation/create_qnm1.cpp:485-535 | each operand of a deferred peel has the value it had where the peel stood |
| PeelDeferral.DeferralCorrect | diffy/src/aggregation/create_qnm1.cpp:436-535 | all loops and then all peels end in the memory of running each peel after its loop |
| PeelDeferral.ChainWrong | diffy/src/aggregation/create_qnm1.cpp:450-470 | a[i] = 1; x += a[i]; b[i] = x: from zeros the deferred program leaves b wrong at every size from 2 on |
| PeelDeferral.PropagatedShort | diffy/src/aggregation/create_qnm1.cpp:450-470 | a value cloned from a peel is short of what the peel stored in place by exactly the lags of its operands in the two runs |
| PeelDeferral.ArrayOperandLag | diffy/src/aggregation/create_qnm1.cpp:450-470 | an array cell among those operands lags by what its peel stored over the cell's initial value |
| PeelDeferral.DeferralExact | diffy/src/aggregation/create_qnm1.cpp:436-535 | behind loops that meet earlier peels rightly, the array a loop fills is right in the deferred program if and only if in every iteration the lags of its propagated loads cancel |
| PeelDeferral.ChainExact | diffy/src/aggregation/create_qnm1.cpp:450-470 | the chain is right at size N exactly when a[N-1] held 1 beforehand |
| PrevProgram.TransformNUses | diffy/src/aggregation/create_pnm1.cpp:52-66 | every operand that is the size register becomes the new one, the two size instructions excepted, in place |
| PrevProgram.StepInStep | diffy/src/aggregation/create_pnm1.cpp:52-66 | one step of the transformed program at size n is one step of the original at n-1 |
| PrevProgram.RunsInStep | diffy/src/aggregation/create_pnm1.cpp:52-66 | after any number of steps, through all loops, the two are at the same point with the same memory and registers |
| PrevProgram.SameFinalState | diffy/src/aggregation/create_pnm1.cpp:52-66 | they stop after the same number of steps in the same memory |
| Tiles.TileExpr | diffy/src/daikon-inst/collect_loopdata.cpp:546-586 | the formula holds exactly when lb and ub are the minimum and maximum of the indices and the position lies between |
| Tiles.QueryMeans | diffy/src/daikon-inst/collect_loopdata.cpp:707-744 | the overlap query asks for a position shared by two tiles a step apart |
| Tiles.NoOverlapApart | diffy/src/daikon-inst/collect_loopdata.cpp:707-744 | no overlap: iterations a step apart write different cells |
| Tiles.NonPositiveStep | diffy/src/daikon-inst/collect_loopdata.cpp:707-744 | with a step of zero or less the query is always satisfiable |
| Tiles.LoopInAnyOrder | diffy/src/daikon-inst/collect_loopdata.cpp:457-457 | without overlap every order of the iterations leaves the same array |

## Left out

- BmcEncoder.Encoder.TranslateInstr: casts, division, remainder, bitwise and floating-point operators,
  debug and memory intrinsics, and property comments are left out: single-operator translations without
  structure.
- BmcEncoder.Encoder.TranslateBlock: the same kinds of instruction.
* `quant_elim_vars`, quantifier elimination, `simplify()` of specifications, and printing: no effect on
  which valuations satisfy the constraints, or calls into the solver.
* Blocks that occur several times in the block vector, and the per-copy versions of a register in the
  term map: in the encoder each block stands once, so `get_earlier_term` has one version to return.
* Mutable aliasing of the block vector, the term map and the version vectors between several encoder
  objects (`import_expr_map`, stacked calls with `processed_bidx`).
* Resolving a predecessor block to its index by search (`find_block_idx`): the encoder reads the
  predecessor indices directly.
* `Ir.WellFormed` takes the registers that dominate each block as an annotation; computing dominators
  is not part of this model.
- DiffProgram.DifferencingCorrect: covers loops with one store of a value built from loads at the counter,
  loads of scalars and expressions of N and the counter with addition, subtraction and multiplication, and
  outside loops scalars set to an expression of N, a constant or another scalar, and cells set to an
  expression of N; remainders, on which collecting stops, and cells set to a scalar are not modelled.
- DiffGenerator.DiffPreds.PeelArrayLoop: one store per loop, as in every loop of this part of the model;
  with several stores a value can read what the same iteration wrote, which the relation between the sizes
  does not describe.
- SsaSound.ConversionCorrect: each loop covers 0..N-1 and a renamed array is stored at the counter in
  every iteration, because with a conditional store the new version has cells nobody wrote.
- NestPass.ProcessNl: multiplication, division, descending and non-unit loops are not modelled, nor are
  indices other than a counter or a constant; of loops with several stores or a conditional only the
  verdict is, not what they compute.
- NestSound.RowExact: terms that read the updated variable are left to `NestSelf`, which covers terms
  reading the cell they update; a term that reads other cells of the updated array depends on the order of
  the updates and has no condition here.  The same holds for `ScalarExact` and `ColumnExact`.
- Driver.VerifyPost: the two solver questions are taken to be answered exactly, and `compute_pre` to
  meet its contract on the conjuncts that are kept; postconditions with existential quantifiers, for
  which the source returns early, are not modelled.  An empty precondition, after which the source shifts
  the postcondition itself, meets that contract only where the step closes anyway (`Driver.EmptyPre`).
- FlattenPath.FlattenForSolver: disjunctions are not empty, as the solver never builds empty ones.
- PeelDeferral.DeferralCorrect: one store per loop and one loop per variable, no conditionals; which
  loads are affected (`computeAffected`) is taken from the program instead of computed, because the
  source skips scalar stores outside peels.
- PeelDeferral.DeferralExact: about arrays, whose cells before the last are stored once; a scalar that
  accumulates propagated loads mixes their lags over the iterations.
- PeelPass.PropagatePeelEffects: replaces loads of peeled scalars only, and finds them in the program
  instead of through the sets of affected values.
- PeelPass.PushPeels: loops without sub-loops; for nested loops the source stops with an error.
- PrevProgram.RunsInStep: the instruction that computes N-1 is already in place, and the size is read
  by one instruction only.
- Tiles.LoopInAnyOrder: the stored values do not read the written array.
* `array_model_fixed_len`, `array_model_partition`, witness output, options, name maps, the nested gap
  wiring of `bmc_loop_pass.cpp`, swap detection and `property_subtraction`: stubs, input and output, or
  heuristics whose result is checked again by the solver.

# Verified models of OrtaVM

OrtaVM is a stack machine (`src/orta.h`) with an assembler (`src/asm.h`), a small compiler for the language Nyva
(`src/nyva.c`), a binary program format, and support libraries (`src/libs/`). The modules here model its hardest parts in
Dafny, with the branches, limits and oddities the C code has, and prove what these parts are for:

- **Compiler correctness** (`Words`, `Machine`, `Nyva`, `CodeGen`, `ExprProof`, `StmtProof`, `ProgramProof`,
  `NyvaTypes`): compiled Nyva bodies do on the machine what Nyva statements mean, and halt exactly when these end;
  well-typed bodies always have a meaning. `Generator` and `Vm` are the generator and the machine as the C code has them,
  objects with fields updated in place, proved against these functions. `Compiler` runs all of it from source body to
  halted machine. `Instructions` says what each instruction leaves behind, `Calls` is about `call` and `ret` over whole
  runs.
- **The xbin format** (`Bytes`, `Xbin`, `XbinOperands`, `XbinFlags`, `XbinProof`, `XbinFiles`): one writer, two loaders,
  which operands and flags stand in a file, and exactly which programs survive a trip.
- **Threads** (`RecursiveMutex`, `MutexProgress`; `CallOnce`, `OnceProgress`): the Windows branches of the recursive timed
  mutex and of `call_once`, one atomic access to a step, any number of threads, all interleavings: what never goes wrong,
  what calls answer, and that they come to an end.
- **Memory** (`ArenaLayout`, `Masks`, `Regions`, `Arena`, `Pool`): the arena with its headers, guards, regions and
  subregions; which of their pointers are aligned; the block pool with the free list kept in the blocks.
- **Assembler text** (`Text`, `AsmLexer`, `Preprocessor`, `Expansion`, `PreprocessorProof`, `Definitions`, `LocalLabels`,
  `PreprocessorRun`): what preprocessing does to the tokens, definitions included, when a second pass changes none, and
  which local labels are one label.
- **Readers and writers** (`NyvaParser`, `NyvaGrammar`, `NyvaSentences`, `NyvaPrinter`, `NyvaRoundTrip`, `ParserRun`;
  `HexDump`, `HexText`, `HexDumpRun`; `Evaluator`, `SpacedText`, `SignedText`, `EvaluatorRun`; `Base64`): the language the
  Nyva parser accepts, and round trips of the parser, the hex dump, the in-place evaluator and base64.

Where the C code updates something step by step there is a class or a method with a loop, and its `ensures` ties the new
state to a function of the old one; the properties are lemmas about these functions. Numbers are unbounded, with 32-bit
wrap-around, truncating division and field widths written out where the code has them. `dafny verify dfyconfig.toml`
checks everything.

`Common` holds what several of them share. Results that go against what the code or its documentation suggests are stated
with an input or with the condition that decides them:

- `break` in an else-branch gives no code (`StrippedSameCode`), so a concrete loop that is left that way in the source
  never halts when compiled (`ElseBreakIsLost`); a body without such breaks compiles to what it means (`ArmedCorrect`).
- The sum of two integer variables is compiled to `merge`, which takes both away and leaves nothing
  (`SumOfVariablesLost`); `+` adds if and only if one of its operands is neither a variable nor a text (`Sums`).
- `<` and `>` in a condition let the body run when the comparison is false (`ConditionsMean`).
- With 1024 frames saved, `call` saves nothing and the `ret` that matches it leaves an older frame
  (`FullCallStackForgets`); 1025 nested calls of a three-instruction program get there (`DescentForgets`).
- Three ranges of numbers change on the way through a file (`ExactSurvivors`), and the two loaders disagree on one kind
  of field (`LoadersDifferBy`).
- An arena allocation can end past the capacity: by at most 30 bytes for any marker released to (`StaysInside`), by at
  most 8 or 16 for sizes that are whole words (`OverrunInWords`), and by exactly that in a case each (`EndsPastCapacity`).
- In a run of plain requests, subregions and markers that are whole units, a region's pointers are aligned if and only if
  the arena's end was when the region was made (`PointersAligned`), which behind an arena block it never is
  (`RegionsStartMisaligned`); a granted aligned request moves the region onto its alignment (`RealignedRun`). An aligned
  arena allocation aligns its header instead of its payload, which is right if and only if the alignment is at most 16
  (`AlignmentMet`).
- Freeing a block that is free already, and nothing else, makes the pool's free list endless (`APool.Free`).
- A second preprocessing pass can change tokens: after `#define L .f`, the first pass leaves a dot name that the second
  one resolves (`DottedChanges`). As long as expansions end where their text ends and the results fit, it changes none if
  and only if no expansion has a dot name or a stray character in it (`PreprocessingTwice`).
- A local label longer than 63 characters is never recognised again (`RecognisedWhenItFits`). When no name is cut, local
  labels are one label if and only if they stand under equal global labels and are, since their label, the same in the
  order of first appearance (`SameRankSameLabel`); so a global label used twice makes different local labels one
  (`RepeatedLabelClashes`).
- `base64_encode` never pads: its tests for `=` cannot hold (`EncoderAgrees`, `EncoderReadsBack`).
- The evaluator has no precedence (`NoPrecedence`) and gives the conventional value where products come first
  (`AgreesWithPrecedence`). Blanks change nothing (`OtherBlanks`) but at two places: at the end of the text, which then
  has no defined value if and only if it has none without them or its terms are taken to their end, no zero divisor
  stopping them (`TrailingBlanks`); and in front of a closing parenthesis, where they make what stands behind the group
  count twice (`SpacedText.BlanksInGroup`). Of several signs in a row only the last counts (`LastSignCounts`); behind `*`
  a sign makes the product 0 and begins a new term, behind `/` it ends the evaluation with 0 (`SignBehindProduct`).

## Model

| member | source | states |
|---|---|---|
| ProgramProof.CompilerCorrect | src/nyva.c:1089-1221 | compiler correctness: for every call-free body with well placed breaks and every bound on loop turns, if the source evaluation of the body without its dropped breaks (those of `StrippedSameCode`) ends, the compiled program run from its entry label halts with the variables and printed words of that evaluation, its stack as at the start; while that evaluation has not ended the machine is still running |
| ProgramProof.ArmedCorrect | src/nyva.c:1089-1221 | compiler correctness for the body itself when none of its breaks is dropped |
| ProgramProof.HaltsIffEnds | src/nyva.c:1137-1179 | a body that, without its dropped breaks, has a meaning under every bound ends if and only if its compiled program halts |
| NyvaTypes.TypedHaltsIffEnds | src/nyva.c:1089-1221 | a body on integers, variables set before they are read, no sum of two variables, only safe literals as divisors, ends if and only if its compiled program halts; no meaning has to be assumed |
| NyvaTypes.TypedMeans | src/nyva.c:1225-1262 | well-typed statements do not go wrong: they have a meaning under every bound, and known variables stay integers |
| NyvaTypes.Sums | src/nyva.c:1005-1015 | `+` joins if both operands are variables or texts, and adds otherwise; on other words than that it has no meaning |
| NyvaTypes.SumOfVariablesLost | src/nyva.c:1005-1015 | the code for the sum of two integer variables leaves the stack as it was |
| ProgramProof.RefusesMisplaced | src/nyva.c:1264-1274 | the generator fails on a call-free statement if and only if one of its breaks that become jumps, those not directly in an else-branch or the function body, stands outside a loop or behind a loop closed earlier in the same body |
| ProgramProof.StrippedSameCode | src/nyva.c:1225-1262 | breaks directly in an else-branch or in the function body leave no trace in the code: the code is that of the program without them |
| ProgramProof.ElseBreakIsLost | src/nyva.c:1108-1131 | a concrete loop left by a break in its else-branch ends in the source and never halts when compiled |
| ProgramProof.ProgramLabels | src/nyva.c:950-954 | all labels of a generated program are distinct |
| ProgramProof.AssembledInPlace | src/orta.h:369-398 | with distinct labels every label is found at the index of its own no-op, and every instruction stands at its own index |
| ProgramProof.ConditionsMean | src/nyva.c:1024-1039 | a compiled condition lets the body run on `==` and `!=` as written and on `<` and `>` in the opposite sense |
| ProgramProof.MoreFuelLoop | src/nyva.c:1207-1221 | the source meaning does not depend on the bound on loop turns once it has ended |
| StmtProof.StmtRuns | src/nyva.c:1225-1262 | a compiled statement, from any state with room on the stack, ends where its code ends or at the label of its loop's end, with the source's variables and output, no word below the stack's starting height touched |
| StmtProof.LoopRuns | src/nyva.c:1207-1221 | the same for the code of a loop, turn by turn, a break in any turn going to the loop's end label |
| StmtProof.ForRuns | src/nyva.c:1189-1205 | a compiled `for` runs its first statement once, its update after each turn, and leaves at a break without the update |
| ExprProof.ExprRuns | src/nyva.c:995-1043 | a compiled expression leaves its source value one word higher, touches no word below, and its highest stack is exactly need(e) above the start, with need(leaf) = 1 and need(l op r) = max(need(l), 1 + need(r)) |
| Words.DivisionTruncates | src/orta.h:1204-1235 | division and remainder are C's: the remainder is smaller than the divisor and has the dividend's sign |
| Words.QuotientFits | src/orta.h:1204-1220 | INT_MIN / -1 is the only 32-bit quotient that does not fit |
| Text.NumeralReadsBack | src/nyva.c:950-954 | a number printed behind a text that ends in no digit can be read back, and so can the text: generated names with different numbers differ |
| Generator.CodeGenerator.GenerateExpression | src/nyva.c:995-1043 | the emitting recursion appends exactly the code that the expression theorem is about |
| Generator.CodeGenerator.GenerateIf | src/nyva.c:1108-1131 | labels, jumps and both branches are emitted in place, counter and current break label as the code leaves them |
| Generator.CodeGenerator.GenerateWhile | src/nyva.c:1207-1221 | as above; the break label is set at the loop and not restored |
| Generator.CodeGenerator.GenerateFor | src/nyva.c:1189-1205 | as above, first statement and update included |
| Generator.CodeGenerator.GenerateEntryProgram | src/nyva.c:1137-1290 | the whole program's item list, from the entry label to the error handler, is the one the theorem is about |
| Generator.AssembleAll | src/orta.h:360-398 | the loop that turns labels into no-ops and a label table gives the program the theorem runs |
| Vm.XStack.Push | src/orta.h:168-172 | pushes while there is room, else changes nothing and reports it |
| Vm.XStack.Pop | src/orta.h:174-180 | takes the top word, a null pointer from an empty stack |
| Vm.OrtaVM.ExecuteInstruction | src/orta.h:938-2593 | the state update in place agrees with the machine's step function on every modelled instruction |
| Vm.OrtaVM.ExecuteProgram | src/orta.h:3270-3285 | the execution loop, bounded by any n, agrees with n steps of the machine from the entry label |
| Vm.OrtaVM.RunProgram | src/orta.h:3270-3285 | the unbounded loop: when the machine halts or faults within some number of steps, the loop ends in that state |
| Compiler.CompileAndRun | src/nyva.c:1276-1290 | generating, assembling and running a body whose evaluation, without dropped breaks, ends gives a halted machine with the variables and output of that evaluation |
| Vm.FirstEntryStores | src/orta.h:752-783 | updating the first entry of a scope vector with a name is updating the variable of that name |
| Calls.RunSound | src/orta.h:1448-1490 | in every state of every run each saved return address is the index of a call instruction and both stacks are within capacity |
| Calls.FramesKept | src/orta.h:1448-1490 | while the call depth stays at least d, the d oldest frames do not change |
| Calls.MatchingReturn | src/orta.h:1448-1512 | the `ret` that matches a call resumes at the instruction right after it, the call stack as before the call |
| Calls.FullCallStackForgets | src/orta.h:1448-1512 | with 1024 frames saved, a call and the `ret` that matches it, any number of steps later, leave the 1024th frame and resume behind that older call |
| Calls.DescentForgets | src/orta.h:1448-1512 | a program that calls itself 1025 times from an empty call stack has 1024 frames, and its first `ret` leaves the frame of the 1024th call |
| Instructions.Comparisons | src/orta.h:1296-1418 | after two integers have been pushed, `eq`, `ne`, `lt`, `gt`, `le` and `ge` leave 1 if the relation, first operand first, holds, and else 0 |
| Instructions.Opposites | src/orta.h:1296-1418 | on integers, what `le`, `ge` and `ne` leave is the negation of what `gt`, `lt` and `eq` leave |
| Instructions.Arithmetic | src/orta.h:1170-1202 | `add`, `sub` and `mul` leave sum, second less first, and product, in 32 bits |
| Instructions.Divisions | src/orta.h:1204-1234 | `div` and `mod` leave first by second; a divisor of 0 or INT_MIN takes both away from `div`, a zero one stops `mod` |
| Instructions.Strings | src/orta.h:1296-1418 | strings are compared for equality alone; ordering and arithmetic on them stop the machine |
| Instructions.MixedTypes | src/orta.h:1204-1418 | a number and a string differ and neither is below the other; arithmetic on them stops the machine, a zero divisor aside |
| Instructions.Merges | src/orta.h:1732-1748 | `merge` joins two strings with a space and takes other words away |
| Instructions.NotLeaves | src/orta.h:1280-1294 | `not` leaves 1 of 0 and 0 of another integer |
| Instructions.Swaps | src/orta.h:1552-1558 | `swap` exchanges two words, and twice it changes nothing |
| Instructions.Copies | src/orta.h:1537-1563 | `dup` copies the top word, and `drop` takes the copy away again |
| Instructions.PushDrop | src/orta.h:953-977 | `drop` behind a push restores the stack |
| Instructions.SetThenGet | src/orta.h:2317-2345 | a variable set is read back; other variables and scopes are kept |
| Instructions.Declares | src/orta.h:2303-2345 | a variable not there leaves nothing, and declaring one again changes no value |
| Instructions.Jumps | src/orta.h:1420-1447 | `jmp` goes to its label, `jmpif` only on the integer 1; a name without a label is address 0, an address outside the program stops the machine |
| Instructions.Halts | src/orta.h:2581-2587 | `halt` stops the machine with the exit code given, and it stays stopped |
| XbinProof.SavedLoads | src/orta.h:2640-3011 | loading any saved program gives its normal form (registers in table spelling, numbers shifted, lines modulo 2^32, labels and metadata kept) and takes exactly the bytes written |
| XbinProof.ExactSurvivors | src/orta.h:2595-2617 | the numbers changed by the file loader are exactly 128..255, 32768..65535 and -2^31..-32769, by -2^8, -2^16 and +2^32; a second trip changes none |
| XbinProof.LoadersDifferBy | src/orta.h:2882-2920 | the loaders' numbers are equal if and only if the field is not a 4-byte one with its top bit set, and then differ by exactly 2^32 |
| XbinProof.LoadersAgree | src/orta.h:3121-3171 | on every saved file the two loaders give the same program, operand by operand, but for these numbers |
| XbinProof.NumberReadsBack | src/orta.h:2882-2920 | writing a number in the width chosen for it and reading it back shifts it as stated |
| XbinProof.SecondTripSettled | src/orta.h:2620-2772 | after one trip a program is storable and a second trip through the same loader changes nothing |
| XbinProof.PrefixRejected | src/orta.h:2792-3011 | every proper prefix of a saved file is rejected |
| XbinProof.LoadExtends | src/orta.h:3013-3268 | what a loader finds in a byte string does not depend on bytes behind it |
| XbinProof.FlagsOnce | src/orta.h:2620-2638 | the flags added on saving are complete: another save adds none |
| XbinFlags.SavedFlags | src/orta.h:2620-2638 | a saved file has the stack flag if and only if it had it before or some instruction is a push or a pop, the memory flag with an allocation or an access to memory, the flag of foreign calls with one; earlier flags keep their places |
| XbinFlags.FlagsInOrder | src/orta.h:2620-2638 | flags are added in the order in which instructions first ask for them |
| XbinOperands.RegisterNames | src/orta.h:139-152 | registers are the names of the table in any mixture of letter cases, numbered by their place in it |
| XbinOperands.SpeltIsNumber | src/orta.h:504-508 | white space, a sign or none and digits are a number, of the value spelled within 64 bits |
| XbinOperands.NumbersAreSpelt | src/orta.h:504-508 | no other text but the empty one is a number |
| XbinOperands.NumberExample | src/orta.h:2690-2730 | the operand 300 becomes the bytes N, 2, 44, 1 |
| XbinProof.DecimalIsNumber | src/orta.h:504-508 | the decimal text a loader makes is again a number operand, of the same value |
| XbinFiles.OutputFile.CreateXbin | src/orta.h:2640-2772 | the writer's loops produce the format's bytes |
| XbinFiles.Input.LoadProgram | src/orta.h:2792-3268 | either loader's moving cursor ends where the format says, within the data, or rejects |
| RecursiveMutex.OneOwner | src/libs/xthread.c:91-119 | in every run at most one thread has a positive lock depth |
| RecursiveMutex.OwnerReadIsTrue | src/libs/xthread.c:96-98 | the unguarded test `owner == self` is true only for the thread that holds the kernel mutex, exactly then at the start of a lock call, and that thread never waits |
| RecursiveMutex.CountIsDepth | src/libs/xthread.c:91-105 | between calls a thread holds the kernel mutex if and only if its depth is positive, and `count` is that depth |
| RecursiveMutex.ReleasedAtZero | src/libs/xthread.c:241-253 | the kernel mutex is released exactly by an unlock that brings the depth to zero, and each such unlock goes on to release it |
| RecursiveMutex.Refines | src/libs/xthread.c:204-253 | every atomic access is, to callers, one lock, one unlock or nothing of an abstract recursive mutex |
| MutexProgress.WaitAnswers | src/libs/xthread.c:91-253 | from a wait, a free mutex is taken, by trylock always; without it, lock does not return, and trylock returns only while another thread has it |
| MutexProgress.LockAnswers | src/libs/xthread.c:91-253 | a call ends with the depth it began with, or with one more and the mutex held |
| MutexProgress.BlockedOnlyInLock | src/libs/xthread.c:91-253 | in every reachable state a thread can make its next access unless it waits in lock for a mutex that another thread has |
| MutexProgress.FreeIsTaken | src/libs/xthread.c:91-253 | every waiting call can take a free mutex |
| MutexProgress.FreeLockSucceeds | src/libs/xthread.c:91-220 | with the mutex free, lock and trylock of a thread alone succeed with their fourth access, depth one |
| MutexProgress.FreshIsTaken | src/libs/xthread.c:34-220 | a thread alone with a mutex as the initialisation leaves it reaches, by lock or trylock, the state in which it owns it with count one |
| MutexProgress.OwnLockSucceeds | src/libs/xthread.c:91-220 | with the mutex its own, any lock call of a thread alone succeeds with its second access, depth one higher |
| MutexProgress.UnlockEnds | src/libs/xthread.c:236-260 | an unlock of a thread alone ends with its first access, or with its third, the mutex free, when it was the last |
| MutexProgress.GoesOn | src/libs/xthread.c:91-253 | runs of a thread alone can be continued to any length, as long as no other thread has the mutex |
| CallOnce.RunsOnceBeforeReturn | src/libs/xthread.c:626-649 | in every run the function begins at most once, and a caller has returned only after it has ended |
| CallOnce.LockIsReady | src/libs/xthread.c:626-649 | whoever is inside the lock found it initialised, and is alone |
| CallOnce.EntersReadyLock | src/libs/xthread.c:626-649 | nobody is about to enter a lock that is not initialised |
| CallOnce.StatusRises | src/libs/xthread.c:626-649 | the status only rises, in steps of one, to at most 3 |
| CallOnce.NoDeadlock | src/libs/xthread.c:626-649 | a thread that cannot move waits for one inside the lock that can |
| OnceProgress.FirstCall | src/libs/xthread.c:626-649 | a thread that is alone from the start runs the function once and returns with its eleventh access |
| OnceProgress.DriverAdvances | src/libs/xthread.c:626-649 | until the status is 3, the thread whose exchange succeeded, any caller before that, is never stopped, and each of its accesses brings the end of the function one nearer |
| OnceProgress.Completes | src/libs/xthread.c:626-649 | so from every reachable state at most ten accesses lead to status 3, the function having run once |
| OnceProgress.CallerReturns | src/libs/xthread.c:626-649 | from then on each access of a caller brings its return one nearer, at most three, and only a thread inside the lock, which leaves with its next access, can stop one |
| ArenaLayout.LiveBlocksDisjoint | src/libs/allocator.h:38-69 | any two live blocks of the arena, its regions and subregions have no payload byte in common |
| ArenaLayout.BlockAppended | src/libs/allocator.h:38-69 | taking a block from the arena's end keeps blocks disjoint and regions nested or disjoint |
| ArenaLayout.RegionBlockAdded | src/libs/allocator.h:238-257 | so does taking a block from a region, however deeply nested |
| ArenaLayout.SubregionAdded | src/libs/allocator.h:321-334 | so does making a region in a region |
| ArenaLayout.ArenaReleased | src/libs/allocator.h:162-169 | so does going back to a marker, for all that lies below it |
| ArenaLayout.RegionReleased | src/libs/allocator.h:287-294 | so does going back to a marker of a region, for all that has no byte in what is taken back, and the regions around it |
| ArenaLayout.LastBlockResized | src/libs/allocator.h:121-146 | so does growing or shrinking the last block where it stands |
| Arena.AArena.Alloc | src/libs/allocator.h:38-69 | grants exactly the sizes its test admits; the block is new, aligned, behind the old end, with header and guard written and nothing else changed; no block is left with just a guard's width behind it |
| Arena.AArena.AllocAligned | src/libs/allocator.h:96-106 | granted exactly when padding, header and guard pass the test; the payload is a header behind the next multiple of 16 from where the mask aligns the arena's end, for every alignment, a power of two or not; refused, the size is the old one, with the padding when the first test passed |
| Arena.AArena.CheckMemory | src/libs/allocator.h:71-88 | true if and only if canary and guard are in place, in any buffer, damaged or not |
| Arena.AArena.LivePasses | src/libs/allocator.h:71-88 | which they are for every live arena block, whatever was allocated, released and written inside payloads before |
| Arena.DamageFound | src/libs/allocator.h:71-88 | with the size in the header intact, the check passes if and only if every byte of canary and guard is as it was |
| Arena.AArena.ClientWrite | src/libs/allocator.h:71-88 | a write inside a live payload keeps every header and guard and all of the layout |
| Arena.AArena.Realloc | src/libs/allocator.h:115-154 | keeps the first min(old, new) bytes and every other block's payload; in place exactly when only a guard's width follows the block, granted then exactly when the growth fits, else copied to a new block exactly when the allocation is granted |
| Arena.AArena.CreateRegion | src/libs/allocator.h:223-236 | the region's bytes are new and start at the arena's end, or the region is null and the size as before |
| Arena.AArena.RegionAlloc | src/libs/allocator.h:238-257 | grants exactly what fits the region, at the address it hands out next, as a new block; its state moves on as the run theorems of `Regions` have it |
| Arena.AArena.RegionAllocAligned | src/libs/allocator.h:259-272 | in the region's state, gives what `Regions.GivenAligned` says, a block that is none of the live ones; refused, nothing changes |
| Arena.AArena.CreateSubregion | src/libs/allocator.h:321-334 | the subregion lies in bytes the parent has not handed out, which the parent then has |
| Arena.AArena.FreeTo | src/libs/allocator.h:156-169 | keeps exactly the blocks and regions below the marker |
| Arena.AArena.RegionFreeTo | src/libs/allocator.h:281-294 | keeps exactly what has no byte in the part taken back |
| Arena.StaysInside | src/libs/allocator.h:38-49 | an accepted block ends at most 30 bytes past the capacity, and within it if and only if padding and rounding fit too |
| Arena.OverrunInWords | src/libs/allocator.h:38-49 | with the size in whole words, as allocations leave it, a block ends at most 8 bytes past the capacity in a buffer aligned to 16, at most 16 in one aligned to 8 |
| Arena.EndsPastCapacity | src/libs/allocator.h:38-49 | at sizes that allocations reach, granted requests of 16 and 8 bytes that end exactly 8 and 16 bytes past the capacity |
| Arena.AlignmentMet | src/libs/allocator.h:96-106 | for a power of two, the payload granted has the alignment asked for if and only if it is at most 16 |
| Arena.RegionsStartMisaligned | src/libs/allocator.h:223-257 | behind an arena block, whose end is 8 bytes off the alignment, a new region hands out no aligned pointer in any run of plain requests, subregions and markers that are whole units |
| Masks.MaskClears | src/libs/allocator.h:96-99 | masking with a power of two less one is rounding down to a multiple of it |
| Masks.AlignedIsMultiple | src/libs/allocator.h:96-99 | so the address aligned that way is a multiple of the alignment |
| Masks.OtherAlignments | src/libs/allocator.h:96-99 | for an alignment of 3 the mask leaves address 5 as it is |
| Regions.GivenAligned | src/libs/allocator.h:259-272 | an aligned request is granted if and only if padding and rounded request fit; it gives the address the mask makes of the next one, a multiple of the alignment when that is a power of two, and its bytes lie in what the region had not handed out |
| Regions.PointersAligned | src/libs/allocator.h:223-334 | after any run of plain requests, subregions and markers that are whole units, the address a region hands out next is aligned if and only if the region starts aligned |
| Regions.RealignedRun | src/libs/allocator.h:259-272 | after a granted request for a power of two of at least 16 as alignment, and any plain requests and subregions, it is aligned wherever the region starts |
| Regions.RealignedBehindABlock | src/libs/allocator.h:238-272 | in a region that starts 8 bytes off, the plain request behind one for 16 bytes at 16 gets an aligned address |
| Regions.ForwardRun | src/libs/allocator.h:238-334 | from any state, plain requests and subregions keep the address modulo 16 |
| Pool.APool.constructor | src/libs/allocator.h:415-440 | a new pool is valid: the free list is a duplicate-free chain of all blocks |
| Pool.APool.Alloc | src/libs/allocator.h:442-463 | gives the head of the free list, never a live block, cleared and aligned, and null exactly when the list is empty; nothing else changes |
| Pool.APool.Free | src/libs/allocator.h:465-487 | a live block goes to the head of the list, only its link bytes change; null, a pointer outside the pool and one inside a block are refused; a block that is free already is linked to the head again; the free list has an end afterwards if and only if the block was not free already |
| Pool.APool.AcceptsBlocks | src/libs/allocator.h:465-477 | the pointers accepted are exactly the addresses of the blocks |
| Pool.APool.RingClosed | src/libs/allocator.h:465-487 | a free block linked in front of the free list closes a ring: no finite list starts there |
| Pool.APool.Reset | src/libs/allocator.h:489-502 | every block is free again |
| Pool.APool.Conserved | src/libs/allocator.h:514-516 | used and free blocks always add up to the total |
| Pool.CountFree | src/libs/allocator.h:442-502 | a list that with the live blocks partitions the pool has exactly the blocks not live |
| Pool.APool.ClientWrite | src/libs/allocator.h:442-463 | a caller's write inside a live block changes no link |
| PreprocessorProof.RenderReads | src/asm.h:530-645 | preprocessing is renaming: when every expansion can be told from what follows it, lexing the printed form of a text's tokens gives these tokens, dot names resolved, defined names replaced by the tokens of their values, directives, comments and stray characters gone, on the same lines |
| PreprocessorProof.PreprocessedReads | src/asm.h:530-645 | the same of the real output when nothing overflowed its buffer; no directive or comment is left in it, and no dot name or stray character if and only if no expansion has one |
| PreprocessorProof.PassKeepsTokens | src/asm.h:530-645 | such a text keeps its tokens through preprocessing if and only if it has no directive, comment, stray character or dot name |
| PreprocessorProof.ResolvedDone | src/asm.h:599-623 | the tokens the preprocessor writes have no directive among them, and none that it would rename or drop again if and only if no expansion has one |
| PreprocessorProof.SecondPassKeepsTokens | src/asm.h:675-693 | whatever text was preprocessed, a second pass that finds no directive and whose result fits keeps the tokens if and only if the first result has no comment, stray character or dot name |
| PreprocessorProof.PreprocessingTwice | src/asm.h:675-693 | for a text whose expansions can be told apart and whose results fit, preprocessing the result again changes no token if and only if no expansion has a stray character or dot name in it |
| PreprocessorProof.UndirectedTwice | src/asm.h:675-693 | for a text without directives whose result fits, preprocessing the result again changes no token |
| PreprocessorProof.DefinedNameReads | src/asm.h:470-512 | a defined name standing alone is read back as the tokens of the value it was first given; later definitions of it do not count |
| Definitions.DefinesValue | src/asm.h:557-559 | a definition's line says name and value, white space between them, a value being cut at 255 characters |
| Definitions.DefinesOne | src/asm.h:560-562 | a name alone is defined as 1 |
| Definitions.DirectiveDefines | src/asm.h:554-580 | a definition is put behind the earlier ones, and other directives define nothing |
| Definitions.DefinitionUsed | src/asm.h:470-645 | the name on the line behind its definition becomes the value |
| Definitions.NameAloneIsOne | src/asm.h:470-645 | for every word of at most 63 characters, `#define` without a value makes the word on the next line the number 1 |
| Definitions.ValueTakesPlace | src/asm.h:470-645 | and `#define` with a value that ends where its text ends makes it that value |
| Definitions.DottedChanges | src/asm.h:470-645 | after `#define L .f`, a line `L` becomes `.f` in the first pass and another token in the second |
| Expansion.ClosedReads | src/asm.h:250-319 | a text whose tokens do not reach for what follows is read by itself in front of a space or a line end |
| Expansion.ExpandKeepsLines | src/asm.h:470-512 | an expansion that is not cut short has the line ends of what it replaces |
| Preprocessor.ExpandUntouched | src/asm.h:470-512 | text in which no defined name stands is left alone |
| Preprocessor.NothingDropped | src/asm.h:545-640 | the result is the whole rendering when that fits the buffer |
| AsmLexer.NumberAgain | src/asm.h:171-192 | a number token's text followed by a separator is read as the same number token |
| AsmLexer.BodyAgain | src/asm.h:194-220 | a string token's text, escapes and a cut-off end included, is read as the same string |
| LocalLabels.SameNameSameLabel | src/asm.h:438-468 | with distinct global labels and no name cut, two dot names get the same global name if and only if they are the same name under the same global label |
| LocalLabels.SameRankSameLabel | src/asm.h:438-468 | when no name is cut, two dot names get the same global name if and only if they stand under equal global labels with equal rank, the number of different names that stand between the label and their own first appearance behind it |
| LocalLabels.IndexIsRank | src/asm.h:438-460 | when no local name is longer than 63 characters, the number a name gets from the table is that rank |
| LocalLabels.RecognisedWhenItFits | src/asm.h:438-460 | a local name met again gets its label again if and only if it has at most 63 characters |
| LocalLabels.RepeatedLabelClashes | src/asm.h:462-468 | whenever a label is used twice, the dot names directly behind its two uses get one global name, whatever names they are |
| LocalLabels.ResolvedGrows | src/asm.h:599-623 | the names in the theorem are those the output has |
| PreprocessorRun.Lexer.NextToken | src/asm.h:250-319 | the cursor-moving lexer takes exactly the first token of what is left and advances the line by its newlines |
| PreprocessorRun.Tokenize | src/asm.h:321-352 | the token loop gives the token list of the text |
| PreprocessorRun.Preprocessor.GetLocalLabelGlobalName | src/asm.h:438-460 | the table lookup gives the name the theorem is about and remembers a new one |
| PreprocessorRun.Preprocessor.ExpandDefines | src/asm.h:470-512 | the nested loops compute the expansion |
| PreprocessorRun.PreprocessFile | src/asm.h:530-645 | lexing and the token loop give the preprocessed text of a file |
| NyvaParser.ParseProgram | src/nyva.c:917-928 | on every token list ending in its only end token the parser terminates, fails or ends on the end token, and never reads past it |
| NyvaSentences.LanguageAccepted | src/nyva.c:541-933 | a token list is accepted if and only if the grammar spells it, sentence by sentence with any redundant parentheses, and gives the tree of what is spelt; every other list fails |
| NyvaSentences.StatementFound | src/nyva.c:882-915 | what is parsed as a statement is spelt as one, token for token |
| NyvaSentences.StatementRuns | src/nyva.c:882-915 | what is spelt as a statement is parsed as it, no else behind an if without one |
| NyvaGrammar.ExpressionFound | src/nyva.c:590-657 | what is parsed as an expression is spelt as one: products of factors, sums of products |
| NyvaGrammar.SumRuns | src/nyva.c:590-657 | an expression as it is spelt, redundant parentheses included, is parsed to its tree |
| NyvaRoundTrip.ProgramRoundTrip | src/nyva.c:541-933 | parsing the printed tokens of any grammar-shaped program gives that program |
| NyvaRoundTrip.StatementParses | src/nyva.c:882-915 | the same for each statement inside any context it can stand in |
| NyvaPrinter.ExpressionParses | src/nyva.c:590-657 | the same for expressions, with left association and precedence kept |
| ParserRun.Parser.Expression | src/nyva.c:642-657 | the loop over signs computes the parse of an expression |
| ParserRun.Parser.Statement | src/nyva.c:882-915 | the parser that moves its position computes the parse of a statement |
| ParserRun.Parser.Program | src/nyva.c:917-928 | and of a program |
| HexDump.DumpReversed | src/libs/xhex.h:89-209 | reversing a plain dump gives exactly the dumped slice, for every column count, group size, case, header and text setting whose lines fit the line buffer |
| HexDump.SettingsReversed | src/libs/xhex.h:89-209 | reversing a plain dump gives exactly the dumped slice for all settings whose longest line, a sum of column count, groups, header and text, fits the line buffer, and offsets up to 2^32 |
| HexDump.SettingsFit | src/libs/xhex.h:104-147 | that bound on the settings makes all lines fit, and with a full row it is necessary |
| HexDump.RowLength | src/libs/xhex.h:104-147 | how long a line is, so which settings fit |
| HexDump.CellsScanned | src/libs/xhex.h:111-135 | scanning a row's cells gives the row's bytes |
| HexDump.ByteReadsBack | src/libs/xhex.h:46-79 | two hexadecimal characters of either case stand for their byte |
| HexText.LineShows | src/libs/xhex.h:95-157 | the i-th line of a dump shows the i-th row of the input, at the offset of its first byte |
| HexText.OffsetReadsBack | src/libs/xhex.h:104-108 | the offset is the hexadecimal number in small letters, zeros in front up to eight digits |
| HexText.TextShows | src/libs/xhex.h:136-147 | a byte is shown as its character if that is a printable one, else as a dot |
| HexText.TextColumn | src/libs/xhex.h:136-147 | the text column stands at the end of its line between two bars |
| HexText.CaseChosen | src/libs/xhex.h:46-58 | letters are of the case asked for |
| HexText.Example | src/libs/xhex.h:104-147 | a line, character by character |
| HexDumpRun.PrintHexDump | src/libs/xhex.h:89-157 | the reading loop dumps exactly the slice that offset and length select |
| HexDumpRun.ReverseHexDump | src/libs/xhex.h:165-209 | the line loop with its buffered output computes the reverse |
| HexDumpRun.ByteOfPair | src/libs/xhex.h:60-79 | the value of two hexadecimal characters, -1 for anything else |
| Evaluator.EvalShows | src/orta.h:604-692 | every well-formed blank-free text evaluates to the left-to-right fold of its operands, groups first, a zero divisor making its group 0, with one place on the operator stack enough at every depth |
| Evaluator.ClosingExpression | src/orta.h:638-645 | the parenthesis found for a group is its own |
| Evaluator.NumeralValue | src/orta.h:616-617 | the digit loop computes the number spelled, reduced to 32 bits |
| Evaluator.AgreesWithPrecedence | src/orta.h:613-660 | the value is that of the usual precedence whenever, at every depth, no product or quotient comes behind a sum or difference |
| Evaluator.NoPrecedence | src/orta.h:613-660 | 1+2*3, which precedence makes 7 and whose product is not first, is 9 |
| Evaluator.TrailingBlanks | src/orta.h:604-692 | a well-formed text with blanks behind it has no defined value if and only if it has none without them or its terms are taken to their end, no zero divisor stopping them; stopped, the value is that without blanks |
| SpacedText.SpacedShows | src/orta.h:604-692 | every well-formed text with blanks in any place has the value that a recursion over its structure gives it, in which groups with blanks in front of their closing parenthesis see what stands behind them |
| SpacedText.OtherBlanks | src/orta.h:604-692 | blanks anywhere but at the end of the text or in front of a closing parenthesis do not change its value |
| SpacedText.BlanksInGroup | src/orta.h:663-690 | of a group at any place and depth: blanks in front of its closing parenthesis let its evaluation run on over the terminator put there, so its value is that of what stands behind it taken from its own value on, all of which is then taken once more, unless a zero divisor stops the group first |
| SpacedText.TakenTwice | src/orta.h:663-690 | `(1 )*2` is 4 |
| SignedText.LastSignCounts | src/orta.h:613-660 | of several signs in a row only the last counts, as long as what follows needs no operator from further down the stack |
| SignedText.SignsInFront | src/orta.h:604-660 | a text that starts with signs has the value of the last of them applied to 0 |
| SignedText.SignBehindProduct | src/orta.h:632-660 | behind `*` a sign makes the product 0 and begins a new term; behind `/` it ends the evaluation with 0 |
| SignedText.EvalMore | src/orta.h:604-692 | more room on the operator stack changes no value |
| EvaluatorRun.Eval | src/orta.h:604-692 | terminates on every terminated text, computes its value, blanks before a planted terminator included, and hands back the buffer unchanged at every depth |
| EvaluatorRun.EvaluateGroup | src/orta.h:663-675 | the terminator put into the buffer for a group is taken away again |
| Base64.DecodeInvertsRfc | src/libs/str.h:174-202 | decoding inverts the encoding of section 4 of RFC 4648 for every nonempty byte string |
| Base64.RfcInvertsDecode | src/libs/str.h:174-202 | every text of characters of the table without padding is the encoding of what it is decoded to |
| Base64.DecodeRefuses | src/libs/str.h:174-202 | a length that is no multiple of four is refused, and no other; four characters give three bytes, less one for each `=` among the last two |
| Base64.EncoderAgrees | src/libs/str.h:152-172 | the encoder agrees with that section if and only if the length is divisible by three |
| Base64.EncoderReadsBack | src/libs/str.h:152-202 | decoding its output gives the input with zero bytes up to a multiple of three, the input itself if and only if the length is a multiple of three |
| Base64.Encode | src/libs/str.h:152-172 | the loop writes the encoding of the input with zero bytes behind it |
| Base64.DecodeText | src/libs/str.h:174-202 | the loop computes the decoding, nothing written behind the output's end |

## Left out

- Nyva function calls with parameters, `return`, imports and `@inline`: the generated prologue leaves a word where the last
  parameter is read (`src/nyva.c:1141-1154`), so no preservation theorem holds for them; other built-in functions are
  refused by the model's generator.
- Join at instruction lists: the generator's text is not lexed, because the assembler drops `-`, `@` and `$`
  (`src/asm.h:317-318`).
- Machine instructions on raw memory, foreign calls, registers, floats, characters, files, `sprintf`, casts and other
  pointers; an instruction outside the model faults.
- Signed overflow is two's complement wrap-around, where C leaves it undefined; INT_MIN / -1, a remainder by -1 of INT_MIN
  and a string divisor fault.
- The scope switch never closes a scope (`src/orta.h:2348-2356`), so a finished program has one more, empty, scope.
- A break behind a loop closed in the same body uses a freed label in C; the model's generator fails there.
- Vm.OrtaVM.ExecuteProgram: bounded by a number of instructions, because the C loop need not end; where it does,
  `RunProgram` runs it to the end.
- XbinFiles.Input.LoadProgram: lengths are added without wrap-around, `atoll` saturates, a loader's uninitialised upper
  opcode bytes and failed allocations are not modelled, and where a rejected program leaves the cursor is not stated.
- RecursiveMutex.OneOwner: wait errors, abandoned mutexes, thread exit and the clock are not modelled; `count` is
  unbounded; a thread unlocks only what it holds.
- CallOnce.NoDeadlock: the function called does not use the same flag again.
- Arena.AArena.Alloc: bytes behind ARENA_CAPACITY are the arena's other fields in C; the model's buffer is longer, and
  `StaysInside` and `OverrunInWords` say when and how far a block reaches them. Sizes do not wrap around, and an
  alignment of 0 is not modelled.
- Arena and region statistics other than failed allocations, `get_next_ptr`, `calloc`, `strdup`, `memdup`.
- Pool.APool.Alloc: called on a valid pool; what it gives after a block has been freed twice is not stated.
- PreprocessorProof.PreprocessedReads: not stated for an expansion that is cut short or reaches for what follows it, as
  one with a comment or an open string does, nor for a directive that fills the lexer's buffer before its line ends.
  `#include` is not part of this model. Token columns are left out.
- PreprocessorProof.UndirectedTwice: with definitions a second result can be longer than the first, so that it fits is a
  condition of `PreprocessingTwice`.
- Strings of 512 characters overrun the lexer's buffer by their terminator; the model keeps the token whole.
- NyvaParser.ParseProgram: the fixed-size arrays of arguments and statements are not modelled.
- HexDump.DumpReversed: the C-array style is left out, and offsets do not wrap around.
- SpacedText.SpacedShows: signs in front of operands are covered by `SignedText`; unknown characters are modelled but not
  part of a theorem.
- Base64.DecodeText: undefined for the empty text and for characters outside the table.
- POSIX branches, condition variables, sleeping, command-line programs, vectors, string builders and all of `v1/`.

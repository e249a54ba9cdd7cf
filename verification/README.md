# Verified models of the real-time and document parts of SuperCollider

This project models, and proves properties of, seven components:

- the real-time memory allocator `AllocPool`, which splits and joins chunks with boundary tags and keeps them in 128 size
  bins (`SizeClasses`, `ChunkMemory`, `ChunkTiling`, `FreeBins`, `PoolInvariant`, `AllocPool`, `PoolFailures`);
- the lock-free triple buffer `scope_buffer` between one writer and one reader (`ScopeBuffer`);
- the in-place Fourier transforms `ffts`, `iffts`, `rffts` and `riffts` (`BitReversal`, `FirstStage`, `MirrorExchange`,
  `BitrevStage`, `Butterflies`, `FftPasses`, `FftLoops`, `RealFft`), and what they compute (`Dft`, `FftCells`, `FftIsDft`,
  `FftInverse`, `RealTransform`, `RealDft`);
- the scanner of help documents, matching in a buffer that is refilled while a token is read (`LongestMatch`, `Scanner`);
- the parser of help documents: shifting and reducing on three stacks that grow together (`LrTables`, `LrMachine`,
  `LrParser`), the grammar with all its rules (`DocGrammar`), what the semantic actions make of the nodes in memory
  (`DocMeaning`, `DocActions`, `DocParser`, `DocLists`, `DocReading`, `DocTags`), and which documents are accepted
  (`DocKinds`, `DocRun`);
- the tidying of parsed documents, on tree values and on nodes in the heap (`DocTree`, `DocNodes`);
- the conversion of decimal text `sc_strtod` (`Strtod`) and the semaphore made of a mutex and a condition variable
  (`Semaphore`).

`dafny verify dfyconfig.toml` checks everything. Arithmetic on floating-point numbers is arithmetic on exact reals.

The allocator is a class over a memory of 32-byte cells. Its ghost field `g` says what the words stand for: the chunks by
address, the areas, the members of each bin and the raw blocks held. `Valid()` is what the pool's own checks assert, for all
chunks, bins and areas at once, and a little more; every method keeps it and says what the new chunks are. The transforms
are methods over an array, each loop proved equal to a function on sequences; the theorems about the transform are about
these functions. The scanner and the parser are proved for all tables that meet stated conditions: `TablesOk` says that what
the tables do fits the grammar, and is enough for all that is accepted; `Complete` says that they have an entry wherever the
grammar asks for one, as tables of a grammar without conflicts have, and with it all sentences are accepted. The grammar of
help documents is there rule by rule. Its actions are proved about nodes in memory, with the tree that a node stands for and
the set of nodes that make it up: an accepted document leaves the nodes of its tree and no others. The triple buffer and the
semaphore are state machines, one step for each access to shared memory or each move of a thread; theorems hold in every
state of every run.

## Findings

Two promises of the allocator hold on all inputs but one family each. The condition can be checked before the call, the
contracts say what happens on either side of it, and a method with concrete arguments shows the failure.

- `Alloc` splits a new area without looking whether enough is left for a chunk (`SC_AllocPool.cpp:401-415`). The pool is in
  order afterwards if and only if not `ShortSplit(size)`: no free chunk fits, the area is not made to measure, and it exceeds
  the size by less than the least chunk. `PoolFailures.SplitsTheEndMarker` asks a pool that grows by 256 bytes for 200.
- `Realloc` writes the header of a remainder before it moves the contents back (`SC_AllocPool.cpp:509-528`). The contents come
  along unless `Clobbers`: the block goes backwards, a remainder is split off, and its header falls inside the old block. Then
  one cell is overwritten and all others come along. `PoolFailures.OverwritesPayload` shows it with blocks of 256 and 512 bytes.

`LargestFreeChunk` computes the index of the highest bin that is marked (`SC_AllocPool.cpp:264-276`). The index is -1, in front
of the array of bins, if and only if no chunk is free: `AllocPools.AllocPool.HighestFullBin`.

Tidying a document twice is not always tidying it once: a list that ends with two line breaks loses one at each pass.
`DocTree.TwiceIsOnce` gives the exact condition. In `scope_buffer.hpp` the comments beside `_in` and `_out` (lines 88-89) name
the other side than the code does; the model follows the code.

## Model

| member | source | states |
|---|---|---|
| `SizeClasses.RequestToSize` | include/common/SC_AllocPool.h:174-179 | the least aligned chunk size that holds the request and a header |
| `SizeClasses.BinIndexIsTable` | include/common/SC_AllocPool.h:184-204 | the bin found by counting leading zeroes is the one in the table of thresholds, for every size |
| `SizeClasses.BinIndexMonotone` | include/common/SC_AllocPool.h:198-204 | a larger size never lies in a lower bin |
| `SizeClasses.SmallBinHoldsOneSize` | common/SC_AllocPool.cpp:331-334 | a small bin holds one size, and the next bin is empty, up to the last small bin |
| `ChunkTiling.FreeIffGap` | common/SC_AllocPool.cpp:156-196 | the free chunks are exactly the maximal gaps between the live chunks of each area |
| `ChunkTiling.HistoryIndependent` | common/SC_AllocPool.cpp:156-196 | areas and live chunks determine all chunks, whatever calls led to them |
| `ChunkTiling.Conservation` | common/SC_AllocPool.cpp:250-262 | free and live bytes together are the bytes of the areas |
| `PoolInvariant.ShortRemainderBreaks` | common/SC_AllocPool.cpp:401-415 | headers that a split leaves with less than a least chunk fit no pool whatever |
| `PoolInvariant.MovedBackWell` | common/SC_AllocPool.cpp:509-528 | what moving a block back carries along, with the cell that is lost if the remainder's header fell on it |
| `AllocPools.AllocPool.constructor` | common/SC_AllocPool.cpp:69-105 | a pool in order, with its first area if it wants one |
| `AllocPools.AllocPool.FreeAll` | common/SC_AllocPool.cpp:112-127 | every raw block held is given back once, and nothing is left |
| `AllocPools.AllocPool.FreeAllInternal` | common/SC_AllocPool.cpp:129-148 | all areas stay and nothing is in use |
| `AllocPools.AllocPool.Reinit` | common/SC_AllocPool.cpp:150-154 | all areas are given back and the first one is opened anew |
| `AllocPools.AllocPool.Free` | common/SC_AllocPool.cpp:156-196 | the block alone leaves the live chunks; an area is given back exactly when a growable pool has nothing live in it; no payload changes |
| `AllocPools.AllocPool.TotalFree` | common/SC_AllocPool.cpp:250-262 | the bytes in free chunks, which with the live ones make up the areas |
| `AllocPools.AllocPool.HighestFullBin` | common/SC_AllocPool.cpp:264-276 | the highest bin that holds a chunk, or -1 if and only if no chunk is free |
| `AllocPools.AllocPool.LargestFreeChunk` | common/SC_AllocPool.cpp:264-295 | the true maximum, found in the highest marked bin only |
| `AllocPools.AllocPool.FindFit` | common/SC_AllocPool.cpp:305-369 | the search through the bins finds a smallest free chunk that fits, and nothing only if none fits |
| `AllocPools.AllocPool.Alloc` | common/SC_AllocPool.cpp:297-428 | best fit with less than a least chunk of excess; failure exactly when no free chunk fits and no area is to be had, with nothing changed; a new area has the first size if it is to be the only one, and else the least that holds the block and the growth; no live payload changes; order is kept if and only if not `ShortSplit` |
| `AllocPools.AllocPool.AllocThenFree` | common/SC_AllocPool.cpp:156-196 | freeing a block just taken from a bin brings back the chunks there were |
| `AllocPools.AllocPool.CopyUntilFree` | common/SC_AllocPool.cpp:493-505 | the new block, anywhere, has the contents of the old one, and no live block has lost any, also when a new area was split too closely |
| `PoolInvariant.WayMeans` | common/SC_AllocPool.cpp:446-507 | the way that the headers around a block make `Realloc` take, by the free chunks before and behind it |
| `AllocPools.AllocPool.Realloc` | common/SC_AllocPool.cpp:431-533 | the block stays if it and a free chunk behind it have room, else moves to a free chunk before it if all have room, and is refused exactly if they have not, no free chunk has and no area is to be had; its new size; contents come along on every way, except for the one cell of `Clobbers`; all other live blocks keep theirs |
| `AllocPools.AllocPool.LinkFree` | common/SC_AllocPool.cpp:535-550 | the chunk enters its bin in order of size and the bin is marked |
| `AllocPools.AllocPool.UnlinkFree` | include/common/SC_AllocPool.h:261-268 | the chunk leaves its bin and the mark goes with the last one |
| `AllocPools.AllocPool.NextFullBin` | include/common/SC_AllocPool.h:222-240 | the first marked bin from a bin on, or none |
| `AllocPools.AllocPool.NewArea` | common/SC_AllocPool.cpp:200-232 | the area enters the ring with one free chunk and its end marker |
| `AllocPools.AllocPool.FreeArea` | common/SC_AllocPool.cpp:234-248 | the area leaves the ring and its raw block is given back |
| `AllocPools.AllocPool.DoCheckPool` | common/SC_AllocPool.cpp:552-663 | all assertions of the pool's own checks hold of every pool in order |
| `PoolFailures.SplitsTheEndMarker` | common/SC_AllocPool.cpp:401-415 | an input on which `Alloc` leaves the pool in disorder |
| `PoolFailures.OverwritesPayload` | common/SC_AllocPool.cpp:509-528 | an input on which `Realloc` loses a cell of the contents |
| `ScopeBuffers.RunShape` | common/scope_buffer.hpp:84-109 | in every state of every run the three indices are distinct and the flag of the stage says whether it holds an unread push |
| `ScopeBuffers.ExchangeObtainsLatest` | common/scope_buffer.hpp:174-186 | an exchange of the reader obtains the most recent completed push, even if the writer swapped since the flag was read |
| `ScopeBuffers.NumbersIncrease` | common/scope_buffer.hpp:174-186 | the numbers of the pushes obtained strictly increase |
| `ScopeBuffers.ReaderUndisturbed` | common/scope_buffer.hpp:158-186 | between its exchanges the reader keeps one complete push that the writer does not touch |
| `ScopeBuffers.PullIsAtomic` | common/scope_buffer.hpp:174-186 | each pull shows what was the latest complete push at some instant between its start and its return |
| `ScopeBuffers.PullShowsLast` | common/scope_buffer.hpp:174-186 | when the writer has stopped, one further pull shows its last push |
| `ScopeBuffers.PushAsOffered` | common/scope_buffer.hpp:156-163 | a completed push holds the number that `push` was called with, and at each index the sample written there last |
| `ScopeBuffers.PullShowsOffered` | common/scope_buffer.hpp:156-186 | a pull shows the frames and samples that the steps of one push stored, which was the latest at some instant of the pull |
| `ScopeBuffers.PushedInSteps` | common/scope_buffer.hpp:158-163 | `push` is the steps of the writer in the state machine |
| `ScopeBuffers.PulledInSteps` | common/scope_buffer.hpp:174-186 | `pull` is the steps of the reader in the state machine |
| `ScopeBuffers.ScopeBuffer.Push` | common/scope_buffer.hpp:158-163 | the accesses of a push, in place |
| `ScopeBuffers.ScopeBuffer.Pull` | common/scope_buffer.hpp:174-186 | the accesses of a pull, in place |
| `ScopeBuffers.WritePushPull` | common/scope_buffer.hpp:156-186 | a sample written, pushed and pulled without disturbance: the reader gets the number pushed, and the sample at its index |
| `BitReversal.TableIsReversal` | common/fftlib.c:19-41 | entry `i` of `BRcnt` is `i` with its eight bits reversed |
| `BitrevStage.BitrevR2` | common/fftlib.c:157-261 | for odd and even `M`, every pair of elements becomes sum and difference of the elements at bit-reversed places, in place, and nothing else changes |
| `FftLoops.InverseByConjugation` | common/fftlib.c:826-1562 | on a row, `iffts` of the conjugates is the conjugate of `ffts` divided by the size, for every row and every table |
| `FftLoops.InverseOfAll` | common/fftlib.c:826-1562 | the same for all rows, as `iffts` = conjugate, `ffts`, conjugate, divide. The loops of the two procedures are the same, line by line, and are modelled once; the lemma is about the signs and the scale |
| `FftLoops.Transform` | common/fftlib.c:88-824 | the loops over rows, stages, offsets and groups do in place what the functions on sequences say, for all four procedures; each row is transformed for itself, and what lies behind the rows stays |
| `FftLoops.RowsAre` | common/fftlib.c:88-824 | row by row, what the function on arrays does |
| `FftLoops.InverseByForward` | common/fftlib.c:826-1562 | conjugating, `ffts`, conjugating and dividing leave the array as `iffts` does |
| `Dft.PartIsSum` | common/fftlib.c:540-640 | every element of a block of the halved sum is a sum over its own part of the input |
| `FftIsDft.Fly8Steps` | common/fftlib.c:557-640 | with the right table entries, the radix-8 butterfly takes eight elements three levels up |
| `FftIsDft.TurnsAreRight` | common/fftlib.c:483-818 | the pointers up and down the quarter-wave table read the powers of the root that each offset needs |
| `FftIsDft.StageRises` | common/fftlib.c:505-818 | a radix-8 stage turns blocks of one size into blocks eight times as large |
| `FftIsDft.ForwardIsDft` | common/fftlib.c:88-824 | what `ffts` makes of a row is its discrete Fourier transform, for every size and every table of cosines |
| `FftInverse.InverseIsDft` | common/fftlib.c:826-1562 | what `iffts` makes of a row is the inverse transform |
| `FftInverse.Orthogonal` | common/fftlib.c:826-1562 | powers of the root add up to the size over whole turns and to zero otherwise |
| `FftInverse.InverseUndoes` | common/fftlib.c:826-1562 | `iffts` gives back the row that `ffts` transformed |
| `FftInverse.ThereAndBack` | common/fftlib.c:88-1562 | both procedures in place, one after the other, leave the array as it was |
| `RealFft.RoundTrip` | common/fftlib.c:2312-2429 | `Finish RFFT` and then `Start RIFFT` multiply every element by four, if mirrored table entries lie on the unit circle |
| `RealFft.PassRow` | common/fftlib.c:2510-2638 | either pass in place: every slot is read before it is written, and all are written once |
| `RealFft.FinishThenStart` | common/fftlib.c:2312-2638 | both passes in place, one after the other |
| `RealTransform.RealUndoes` | common/fftlib.c:2435-3306 | `riffts` gives back the row that `rffts` transformed |
| `RealTransform.RealThereAndBack` | common/fftlib.c:1571-3306 | the same in place, for all rows |
| `RealDft.RealIsDft` | common/fftlib.c:1571-2433 | slot by slot, what `rffts` leaves in a row is the discrete Fourier transform of the real numbers in it, in the order that its comment gives |
| `RealDft.RestMirrored` | common/fftlib.c:1571-1583 | the elements that have no slot are the conjugates of those that have |
| `LongestMatch.LongestExists` | SCDoc/lex_scdoc.cpp:2096-2115 | every text has a longest token |
| `LongestMatch.NothingLost` | SCDoc/lex_scdoc.cpp:2083-2142 | the tokens of a text make up the text |
| `LongestMatch.SmallTablesOk` | SCDoc/lex_scdoc.cpp:417-1340 | there are tables that meet the conditions, laid out like the generator's: state 0 unused and its own default, a template without an entry in `yy_accept` |
| `Scanners.NextState` | SCDoc/lex_scdoc.cpp:2099-2111 | following the chain of defaults in the compressed tables gives the transition of the automaton |
| `LongestMatch.ChaseIsEntry` | SCDoc/lex_scdoc.cpp:2099-2111 | the transition is the entry at the end of the chain of defaults, with the meta class from the template on |
| `Scanners.Match` | SCDoc/lex_scdoc.cpp:2096-2115 | the match loop ends at the last accepting position, or behind the end of the buffer |
| `Scanners.PreviousState` | SCDoc/lex_scdoc.cpp:2984-3010 | running over the kept text again restores state and last accepting position |
| `Scanners.GetNextBuffer` | SCDoc/lex_scdoc.cpp:2851-2982 | a refill keeps the partial token, loses nothing, leaves room for two end markers, and tells the three outcomes apart |
| `Scanners.Scanner.NextToken` | SCDoc/lex_scdoc.cpp:2083-2835 | the longest token of all text still to come, or the end, however the reads cut the text |
| `Scanners.Scanner.ScanAll` | SCDoc/lex_scdoc.cpp:2083-2835 | the tokens of the whole input are those of longest match |
| `Scanners.SameTokens` | SCDoc/lex_scdoc.cpp:2851-2982 | size of the buffer and cuts of the reads have no say in the tokens |
| `LrTables.HandleOnTop` | SCDoc/SCDoc.tab.cpp:2190-2216 | at each reduction the symbols on the stack spell the right hand side |
| `LrTables.ShiftKeeps` | SCDoc/SCDoc.tab.cpp:2168-2185 | a shift keeps the parse trees, their tokens and their values |
| `LrTables.ReduceKeeps` | SCDoc/SCDoc.tab.cpp:3046-3065 | so does a reduction with its goto |
| `LrTables.FinalIsSentence` | SCDoc/SCDoc.tab.cpp:2114-2120 | in the final state all tokens before the end are a sentence, and the actions have evaluated its tree |
| `LrTables.SmallTablesOk` | SCDoc/SCDoc.tab.cpp:666-900 | there are tables that meet the conditions |
| `LrParser.Parser.Grow` | SCDoc/SCDoc.tab.cpp:2081-2112 | the three stacks grow together and keep what is on them |
| `LrParser.Parser.EnterState` | SCDoc/SCDoc.tab.cpp:2041-2112 | at every new state the three stacks are equally high |
| `LrParser.Parser.ReduceRule` | SCDoc/SCDoc.tab.cpp:2190-2216 | a reduction replaces the right hand side on all three stacks and enters the state that the tables give |
| `LrMachine.AcceptedIsSentence` | SCDoc/SCDoc.tab.cpp:2114-3065 | what the tables make the parser accept is a sentence on which no action raises an error |
| `LrMachine.SentenceAccepted` | SCDoc/SCDoc.tab.cpp:2114-3065 | with complete tables every such sentence is accepted with its own parse tree, in as many turns as the tree has nodes and two more, unless it is too tall for the stacks |
| `LrMachine.VerdictIsRight` | SCDoc/SCDoc.tab.cpp:2114-3065 | with complete tables an error means that there is no such sentence, and an accepted one has a single parse tree |
| `LrMachine.SmallTablesComplete` | SCDoc/SCDoc.tab.cpp:666-900 | there are complete tables |
| `LrParser.Parser.Decide` | SCDoc/SCDoc.tab.cpp:2124-2190 | the decision is the one that the tables give for the state on top and the next token; an error is decided only where they have neither entry nor default |
| `LrParser.Parser.Step` | SCDoc/SCDoc.tab.cpp:2120-3065 | one turn on the stacks is the turn that the tables ask for, whether it goes on, fails, raises an error or finds the stacks full |
| `LrParser.Parser.Parse` | SCDoc/SCDoc.tab.cpp:2041-3065 | the outcome is the one that the tables lead to; a run that accepts has read a sentence of the grammar and has run the actions over its parse tree; a syntax error is reported only where the tables have no entry for the next token |
| `DocGrammar.RulesOk` | SCDoc/SCDoc.y:107-402 | every rule of the grammar uses each node and each text of its right hand side once and in order, or gives it up, and makes a value of the kind its left hand side has |
| `DocMeaning.DoFits` | SCDoc/SCDoc.y:53-96 | an action that is given values of the right kinds gives one of the right kind: text and nodes are missing only where the grammar allows it |
| `DocActions.DoHolds` | SCDoc/SCDoc.tab.cpp:2216-3030 | every action, changing nodes in place, does to the trees in memory what it does to tree values; its operands' nodes make way for those of its value, none is shared or lost, and no other node changes |
| `DocActions.FreeTreeFrees` | SCDoc/SCDoc.cpp:112-121 | the nodes of the tree are freed, and these alone |
| `DocParser.EvalMeans` | SCDoc/SCDoc.y:107-402 | the actions over a whole parse tree bring exactly the nodes of the tree it means into memory |
| `DocParser.DocumentMeans` | SCDoc/SCDoc.y:107-109 | in the final state `topnode` is the root of the tree that the document means, and nothing else is left over in memory |
| `DocRun.ParseRun` | SCDoc/SCDoc.y:406-426 | there is a node if and only if the document was accepted; it holds the tree of what was read, in the shape that tidying asks for. With complete tables an error means that the tokens are no document, and a document is accepted if steps and stacks suffice |
| `DocKinds.KindFollows` | SCDoc/SCDoc.y:142-164 | the kind of methods (`method_type`) behind a part of a document is what the last section heading among its tokens says |
| `DocKinds.QuietIffInPlace` | SCDoc/SCDoc.y:205-217 | no action raises an error if and only if no argument string stands behind a heading for class or instance methods without another heading between |
| `DocKinds.MethodNamed` | SCDoc/SCDoc.y:188-204 | what a method, a copied and a private method are called, by the last section heading before them |
| `DocKinds.MethodNamesFirst` | SCDoc/SCDoc.y:188-194 | the first child of a method is the node of its names |
| `DocTags.TagNames` | SCDoc/SCDoc.y:47-72 | a node that begins with a tag has the name of the tag for its id, and a class is a title |
| `DocLists.ListInOrder` | SCDoc/SCDoc.y:133-402 | a list's children are those it began with and then the nodes of its items in the order of the source, wrapped or labelled as the grammar says; separators and missing nodes add none |
| `DocLists.ListInMemory` | SCDoc/SCDoc.cpp:65-72 | so do the nodes in memory to which the list's node points |
| `DocLists.AddedIs` | SCDoc/SCDoc.y:133-402 | what an item adds to a list: its node, the node under another id, or a new one with its children or its text |
| `DocReading.ReadsAsSaid` | SCDoc/SCDoc.y:107-402 | the texts in the tree, from left to right, are the texts of the tokens in the order of the source, but for commas between names, an underscore behind a method's name, and line breaks |
| `DocReading.DocumentRead` | SCDoc/SCDoc.y:406-426 | the same of the tree that an accepted document leaves in memory |
| `DocTree.StrippedOnlySpace` | SCDoc/SCDoc.cpp:47-53 | only trailing white space goes, and the first character stays |
| `DocTree.FixedTidied` | SCDoc/SCDoc.cpp:123-159 | nowhere is a text followed by a text or a line break |
| `DocTree.FixedSays` | SCDoc/SCDoc.cpp:123-159 | ids stay; texts lose trailing white space only, and texts of prose nothing; the children have the same letters and nodes in the same order, with a line break after a text read as a space, but for one line break at the end of each list |
| `DocTree.TwiceIsOnce` | SCDoc/SCDoc.cpp:123-159 | tidying twice is tidying once if and only if no node's children end with a double break |
| `DocTree.TwiceIsNotOnce` | SCDoc/SCDoc.cpp:123-159 | a tree for which it is not |
| `DocNodes.DocNode.AddChild` | SCDoc/SCDoc.cpp:65-72 | the child comes last; no child changes nothing |
| `DocNodes.DocNode.MoveChildren` | SCDoc/SCDoc.cpp:87-97 | the children of the other node replace those of this one |
| `DocNodes.Compact` | SCDoc/SCDoc.cpp:151-157 | gaps close and the order stays |
| `DocNodes.FixupTree` | SCDoc/SCDoc.cpp:123-159 | the nodes in the heap end as the function on tree values says, tidied and saying what they said |
| `Strtod.ReadBack` | common/strtod.c:79-233 | a text has one reading as a literal |
| `Strtod.LeadBelow` | common/strtod.c:139-203 | the digits that are used fall short of the mantissa by less than a unit of the last one, and not at all up to eighteen |
| `Strtod.PowerOf` | common/strtod.c:237-252 | repeated squaring over the table of powers gives the power of ten |
| `Strtod.ScStrtod` | common/strtod.c:79-260 | value, end of the text and range flag of every reading: the first eighteen digits count, the value is exact if there are no more and low by less than a unit of the last one otherwise, and combined exponents beyond 511 are cut off |
| `Semaphores.CountConserved` | common/SC_Sem.cpp:37-55 | with the mutex free the count is the initial one plus releases less acquires |
| `Semaphores.CountBounded` | common/SC_Sem.cpp:37-55 | the count never falls below zero, or below where it started if that is less |
| `Semaphores.NoLostWakeup` | common/SC_Sem.cpp:37-55 | while threads sleep and the mutex is free, at least as many woken threads as permits are on their way |
| `Semaphores.SleepersHaveNoPermit` | common/SC_Sem.cpp:37-55 | threads that sleep while nobody is about to run have no permit to sleep through |
| `Semaphores.AcquireTakes` | common/SC_Sem.cpp:37-46 | a call of `Acquire` that returns has lowered a count of at least one by one, and is counted |
| `Semaphores.PermitReached` | common/SC_Sem.cpp:37-46 | a woken or new thread that finds the mutex free and a permit there gets it, if nobody comes between |
| `Semaphores.HolderGoesOn` | common/SC_Sem.cpp:37-55 | whoever holds the mutex has a step to take |

## Left out

- Alloc: after a new area was split too closely the contract says that the pool is out of order and where the block is, not
  what further calls would do.
- Realloc: when a block is copied into a new area that was split too closely, `CopyUntilFree` says that its contents are in the
  new block and that no other block lost any; freeing the old block in a pool that is out of order is not described.
- LargestFreeChunk: with no free chunk at all the source reads in front of the bins (see Findings), so there is no result.
- constructor: the sizes of first and further areas are 0 or aligned and at least one least chunk, and fit a 32-bit integer.
  The source takes any size; rounding up is left to its caller. When the callback for the first area fails, the pool is
  described as empty, where the source raises an exception. `os` is the address that the callback for areas returns, and
  lies apart from the areas there are.
- The build without pools, the filling of freed memory with garbage, alignment of raw areas beyond rounding up, and requests
  that do not fit a 32-bit integer.
- `DoCheckAllocedChunk`, whose only caller is a debugging build.
- ScStrtod: texts whose written exponent overflows an `int`, or that have an exponent letter without digits, lie outside its
  input form. Rounding is not modelled, so results are those of exact arithmetic.
- Weak memory orders of the triple buffer: its accesses interleave, one at a time. A buffer that is allocated again after
  `release` keeps frames and flags of its former use, and the shared-memory pool is a parameter.
- The semaphore is modelled on values: its two methods run while other threads change the count, so a class with two methods
  would not capture them.
- Tables made by `FFTInit` and `rFFTInit`: theorems about the transform take any table that holds the cosines of the first
  quarter of a turn, that is, any root of unity `W` and its table. The literal for the square root of one half is part of it.
- `ffts`, `iffts`, `rffts` and `riffts` write the same loops four times; the model has them once, with signs, scale and passes
  by procedure. That `rffts` and `riffts` step twice as far through the table is modelled as a table of every second entry. In
  the radix-8 loops the last group of an offset is unrolled to read ahead for the next offset; the model has it in the loop.
- Transforms of fewer than eight points, which index the table of powers below its start, and of more than 2^19.
- The scanner's hold character and text pointers, NUL characters in the input, `scdocwrap` with further files, `yyunput`,
  counting of lines, start conditions beyond a mode, and buffer sizes that overflow an `int`. The buffer is a sequence.
- The contents of the scanner's tables, and of those tables of the parser that do not say what the rules are: theorems take any
  that meet the conditions. Actions of the scanner are a function from action and text to mode.
- The parser on nodes: a heap is a map from addresses to nodes and an action a function on it, so that `DocActions` states
  ownership where `DocNodes` has the class. Text is a value: `free` and `realloc` of strings and of arrays of children are not
  modelled, nor is a failing `malloc`. The scanner gives text with the tokens that have text; that it begins with
  the token for the mode of the parse (`scdoc_start_token`) is left to it.
- Error recovery of the parser and its messages: a run ends at the first error, be it in the syntax or raised by rule 45, and
  what the destructors free then is not described. A rule of length zero without an action would hand on an unused stack
  element. Failure of `malloc` while the stacks grow. `Parse` takes a number of turns, and that it needs no more than so many is
  claimed for sentences only. Locations of symbols are carried along, and nothing is said of them.
- Dumping of trees.
- All other parts of the repository: synthesis, language, file formats, networking and user interface.

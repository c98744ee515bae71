# A verified model of the e5r analysis core

e5r finds the functions of a binary, recovers their control flow, says which never
return, bounds the values handed to calls, assembles AArch64, caches what it found,
answers queries about it and runs code under an emulator. This project models those
algorithms in Dafny and proves what each is for: laws over every image, every path,
every valuation, every byte string or every sequence of calls, each between the code's
own loop and an independent description of what it should give.

Run `dafny verify dfyconfig.toml`.

## What is modelled

- **Walking a function** (`Image`, `Walk`, `Blocks`, `WalkTheorems`, `Tiling`,
  `Halting`, `Flows`, `Rewalk`, `Streaming`).
  Memory and decoding are a finite map from address to instruction (a length of at
  least one and a flow), the executable addresses a set, and jump-table recovery a map
  from an indirect branch to the targets it gives. `Job.Step` is the flow relation of
  one walk and `Job.Reachable` its closure. The capped worklist loop is a method; the
  laws compare its blocks with `Reachable`, and say when it completes. `Flows.Goes` says
  where each kind of instruction goes by itself, and the main laws are restated on it.
- **The shared block table** (`BlockIndex`, `Interner`). The open-addressing index over
  a chunked, append-only arena, with an arbitrary hash function. Its whole meaning is
  the list `Entries()`; every snapshot ever published is kept and stays a prefix.
- **Dominators, conditions and guards** (`Ssa`, `Dominators`, `Constraints`, `Paths`,
  `Guard`, `GuardTheorem`, `Carrying`, `GuardBound`, `Tight`). Executions are sequences of
  blocks with the values they leave. A bound is proved for every execution that reaches
  the call, and says all that the comparisons in the guarding branches allow it to say.
- **AArch64** (`Bits`, `BitMask`, `Aarch64`, `Aliases`, `Move`). The encoder's words are
  executed by a small interpreter written from the Arm Architecture Reference Manual
  for A-profile (DDI 0487), section C6.2 and its pseudocode `DecodeBitMasks`, and
  compared with the plain meaning of each alias.
- **The cache** (`Wire`, `Cursor`, `Codec`, `CodecTheorems`, `CodecInverse`,
  `CachedAnalysis`, `CacheTheorems`, `CacheWalks`, `CacheEntry`). The writer and reader are classes
  over byte sequences, each method tied to a function of the bytes; the laws are about
  those functions, and about the restored functions behind the shared block table.
- **The whole program** (`Ranges`, `DataMap`, `Gaps`, `NoReturn`, `CallChains`, `WaysOut`, `Discover`,
  `Stops`, `Refine`). Merged ranges, the data map, the sweep of gaps, the no-return rounds,
  the discovery rounds and the second walk. Discovery keeps the evidence each round began
  with as a ghost log, so that every function's walk is tied to what it was told to stop at.
- **Queries** (`QueryLex`, `Lexical`, `QueryLexTheorems`, `Query`, `Grammar`, `QueryPrint`,
  `QueryTheorems`). The lexer's and parser's loops are methods, tied to recursive
  functions. `Lexical.Lexed` and `Grammar.Asks` say by themselves what each spelling means,
  and the functions accept exactly those; a printer, which the repository does not have, is
  their inverse.
- **The emulator** (`Emulate`, `History`, `Kernel`, `KernelCalls`). The run loop over an
  arbitrary machine, told again as the history of what its operations did, and the
  system-call stubs over an arbitrary sequence of calls.

`Ordered` holds the ordered collections (`BTreeSet`, `BTreeMap` iteration, range
queries, `partition_point`); `Arith` powers of two and remainders.

## Where the code does not do what is said of it

Each of these is kept as the code has it, with a lemma that shows the case and another
that says exactly when the code is right.

- A walk loses a reachable instruction when reachable instructions overlap and a branch
  goes into the middle of one: it cuts the run the first is in
  (`OverlapLosesInstruction`). `TiledIff` and `AllTiledIff` say of the image alone what
  is kept and when everything is.
- `edge` tests whether a block dominates, not whether an edge does. When the chosen
  successor is also a join the side is wrong (`JoinMisleads`) and so is the bound
  (`JoinMisbounds`); `LastEdgeExact` is the exact condition.
- `dominators` lists, for a block no path from the entry reaches, what its own roots
  give; it is exact if and only if only the entry is a root (`ExactIffOneRoot`).
- An unsigned comparison reads its constant as signed. One comparison is sound if and
  only if the constant is not negative at its width or nothing is drawn
  (`UnsignedSoundIff`).
- A bound is carried unchanged through a zero extension and through taking the low
  part. The comment says a truncation cannot raise it; it can (`TruncationMisleads`),
  and so can a zero extension when the bound allows negative numbers
  (`WideningRaises`). `StepSoundIff` says exactly which ranges may be carried.
- `bitfield` cuts the width to 32 bits before it checks it, so 2^32 + 1 is taken for 1
  (`CutWidthAccepted`, `BitfieldLegalIff`). At 2^32 the extracting aliases insert the
  low bits at the top instead (`NoWidthInserts`), so `ubfx` is a left shift
  (`NoWidthIsShift`).
- `mov` to register 31 means the zero register in MOVZ and MOVN and the stack pointer in
  ORR (`Register31Iff`). The other aliases take the stack pointer for the zero register
  (`StackTakenForZero`).
- `MIN_BLOCK` is 30, but a block with no successors is written in 26 bytes: a lone
  function of five blocks that lead nowhere is refused (`LeavesRefused`).
  `ListingReads` is exact, and `WalkAccepted` shows that no walk leaves a graph that is
  refused.
- The no-return fixpoint stops after eight rounds, each in address order: of a ladder of
  nine tail calls only the top eight are found (`LadderMissed`). `FoundIff` says exactly
  what any number of rounds finds and `LeastIff` when that is everything.
- The comment on `compute` says every terminating block ends in a call to something in
  the set. The code accepts any tail call once one call anywhere in the function is in
  the set (`TailMisjudged`), and does not look at conditional branches out
  (`TestedTailMisjudged`). `ReportedRightIff` says when what is reported is right.
- The comment on `refine_noreturn` says a second walk only shortens a function. It does
  whenever the first walk was complete and tore nothing off (`RefiningShortens`). One
  that tore an instruction off may gain it (`TornMayGrow`), and so may one that was cut
  off at data, or by a cap (`SweptMayGrow`, `CappedMayGrow`). `GainedIff` says of two
  complete walks exactly which instructions the second gains.
- An `mmap` length within a page of 2^64 rounds up to nothing and is granted no bytes,
  in a build that does not check overflow, as the release profile does not
  (`WrappedRequestGranted`, `PageUpIff`, `GrantCoversIff`).

## Model

| member | source | states |
|---|---|---|
| `Walk.Run` | crates/e5r-analysis/src/cfg.rs:542-656 | one run decodes straight on from its start and ends where a known start is reached, at an instruction that does not fall through with exactly its exits as successors (what those are of each kind of instruction is `Flows.StepIff` and `Flows.BlockSays`), or cut off; it passes no known start, spends exactly its length of the budget, and collects exactly its call targets; `halt` changes exactly when the run is cut off, to the instruction cap if nothing is left to spend and otherwise to undecodable |
| `Walk.Descend` | crates/e5r-analysis/src/cfg.rs:532-669 | the worklist ends: every start walked has a run that is right for it, every start is a place reachable control lands, a complete walk is closed under executable successors, the calls and the indirect flag are those of the runs, both caps hold, and `halt` is other than complete only for its reason: a run cut off where nothing decodes, the budget spent, or as many starts as blocks are allowed with one more to walk |
| `Walk.Push` | crates/e5r-analysis/src/cfg.rs:664-668 | exactly the executable successors not seen yet are queued |
| `Walk.RunReachable` | crates/e5r-analysis/src/cfg.rs:556-656 | every instruction of a run whose start is reachable is reachable |
| `Image.StepAntitone` | crates/e5r-analysis/src/cfg.rs:567-655 | a larger no-return set, stop set or data map only removes flow steps |
| `Image.ReachAntitone` | crates/e5r-analysis/src/cfg.rs:593-655 | so it only removes reachable instructions |
| `Flows.StepIff` | crates/e5r-analysis/src/cfg.rs:593-655 | the steps a walk takes are exactly where each kind of instruction goes: what does not branch, a call that may return and a system call to the next instruction, a branch to its target when that is executable and no other function, a switch to the executable entries of its table, a return and a trap nowhere |
| `Blocks.CountInsns` | crates/e5r-analysis/src/cfg.rs:770-784 | counts exactly the instructions decoded from start to end |
| `Blocks.SplitRun` | crates/e5r-analysis/src/cfg.rs:676-709 | a run is cut at the first start inside it, falls through to that start, and is recounted |
| `Blocks.Split` | crates/e5r-analysis/src/cfg.rs:671-716 | one block for each run that is not empty, in address order |
| `Blocks.BuildRaw` | crates/e5r-analysis/src/cfg.rs:503-727 | what a walk leaves is the blocks of its runs, with the laws of `Descend`, its reasons for stopping included; what the blocks then say of the instructions is in `Flows` |
| `WalkTheorems.BlocksDisjoint` | crates/e5r-analysis/src/cfg.rs:671-717 | blocks are not empty, come in address order, do not meet, and count exactly the instructions they stream, however the walk stopped |
| `WalkTheorems.TilesExactly` | crates/e5r-analysis/src/cfg.rs:671-717 | in terms of the runs a walk made, however it stopped: the instructions in blocks are the decoded ones no later start cuts off |
| `Tiling.StartsAreLandings` | crates/e5r-analysis/src/cfg.rs:519-669 | a finished walk starts blocks exactly at the entry and at the executable addresses some reachable instruction that does not fall through goes to |
| `Tiling.TiledIff` | crates/e5r-analysis/src/cfg.rs:503-727 | in terms of the image alone: after a finished walk an instruction is in a block if and only if the last place a block may start at or below it leads to it by falling through |
| `Tiling.AllTiledIff` | crates/e5r-analysis/src/cfg.rs:503-727 | every reachable instruction is in a block if and only if that holds of every reachable instruction |
| `Tiling.NoOverlapUntorn` | crates/e5r-analysis/src/cfg.rs:676-693 | where no two reachable instructions overlap, it does hold of every one |
| `WalkTheorems.TilesOnlyReachable` | crates/e5r-analysis/src/cfg.rs:503-727 | no block ever holds an instruction control cannot reach |
| `WalkTheorems.CompleteDecodesReachable` | crates/e5r-analysis/src/cfg.rs:532-669 | a complete walk decodes exactly the reachable instructions, overlapping or not, and all of them decode |
| `WalkTheorems.CompleteTilesReachable` | crates/e5r-analysis/src/cfg.rs:503-727 | a complete walk of an image whose reachable instructions do not overlap tiles exactly the reachable instructions, in the terms the walk uses |
| `Flows.HoldsWhatArrives` | crates/e5r-analysis/src/cfg.rs:503-727 | the main law: said of the kinds of instructions alone, a complete walk of an image where no two instructions control comes to overlap holds in its blocks exactly the instructions control comes to |
| `Flows.BlockSays` | crates/e5r-analysis/src/cfg.rs:593-710 | however the walk stopped, a block that ends where its last instruction does has exactly the successors and the terminator that instruction's kind says, unless the walk was cut off there |
| `Flows.EveryBlockSays` | crates/e5r-analysis/src/cfg.rs:593-710 | after a complete walk without overlap every block does |
| `Flows.InnerGoesOn` | crates/e5r-analysis/src/cfg.rs:593-655 | every instruction of a block but the last goes on to the next |
| `Flows.CallsWhatArrives` | crates/e5r-analysis/src/cfg.rs:598-653 | the calls of a complete walk are exactly the direct calls, and the branches to other functions, of the instructions control comes to; it gave up on a branch exactly when control comes to an indirect one with no table |
| `WalkTheorems.SuccessorsAreBlocks` | crates/e5r-analysis/src/cfg.rs:664-710 | on a complete walk every executable successor of every block, split or not, is a block start |
| `WalkTheorems.EntryIsBlock` | crates/e5r-analysis/src/cfg.rs:519-540 | and so is the entry |
| `WalkTheorems.BlockIsEntered` | crates/e5r-analysis/src/cfg.rs:664-710 | every block but the entry's is a successor of some block |
| `WalkTheorems.CallsExact` | crates/e5r-analysis/src/cfg.rs:598-653 | the calls of a complete walk are those some reachable instruction makes, tail calls included |
| `WalkTheorems.WithinCaps` | crates/e5r-analysis/src/cfg.rs:536-561 | the instructions over all blocks and the number of blocks stay within the caps |
| `WalkTheorems.NoBlocksIff` | crates/e5r-analysis/src/cfg.rs:572-586 | with room for one block and one instruction, a walk gives no blocks exactly when its entry does not decode |
| `Halting.UndecodableReached` | crates/e5r-analysis/src/cfg.rs:563-586 | a walk that stops at what does not decode has reached an address that does not |
| `Halting.CompleteIff` | crates/e5r-analysis/src/cfg.rs:532-669 | below both caps a walk is complete if and only if every reachable address decodes |
| `Halting.AmpleCompletesIff` | crates/e5r-analysis/src/cfg.rs:532-586 | so it is for caps that are enough for the image: a block at every place one may start, and decoding all of it once from each |
| `Rewalk.GainedIff` | crates/e5r-analysis/src/cfg.rs:503-727 | of two complete walks of one image, the second gains an instruction if and only if the last place a block may start before it leads to it in the second and not in the first |
| `Rewalk.RewalkOnlyShortens` | crates/e5r-analysis/src/cfg.rs:593-656 | walking again under larger no-return and stop sets adds no instruction to a complete walk that tore none off |
| `Rewalk.TornMayGrow` | crates/e5r-analysis/src/cfg.rs:676-693 | it can add one to a complete walk that tore it off: both walks of a six-instruction image complete, and only the no-return set grows |
| `Rewalk.OverlapLosesInstruction` | crates/e5r-analysis/src/cfg.rs:676-693 | where instructions overlap, splitting can drop a reachable instruction, in a walk that completes |
| `Streaming.ForEachInstruction` | crates/e5r-analysis/src/cfg.rs:796-820 | hands out every block's instructions in turn and answers whether addresses never went down |
| `Streaming.StreamsInOrder` | crates/e5r-analysis/src/cfg.rs:786-843 | on the blocks of any walk the answer is always yes, and sorting the same instructions gives the same list |
| `BlockIndex.FindIsIndex` | crates/e5r-analysis/src/cfg.rs:82-86 | searching the chunk starts finds the entry an id names in the whole list, and nothing for an id past its end |
| `BlockIndex.EmptySlot` | crates/e5r-analysis/src/cfg.rs:256-271 | with fewer ids than slots there is an empty slot, so every probe ends |
| `BlockIndex.NotIndexed` | crates/e5r-analysis/src/cfg.rs:260-271 | a probe that meets only other entries before an empty slot proves the block is not held |
| `BlockIndex.IndexInsert` | crates/e5r-analysis/src/cfg.rs:272-276 | filling the slot a probe ended at leaves every id where its own probe finds it |
| `Interner.BlockInterner.constructor` | crates/e5r-analysis/src/cfg.rs:233-245 | a new table holds nothing |
| `Interner.BlockInterner.Lookup` | crates/e5r-analysis/src/cfg.rs:248-254 | the entry at that position of the list, sealed or open, or nothing |
| `Interner.BlockInterner.Probe` | crates/e5r-analysis/src/cfg.rs:260-271 | finds the block's id if it is held, and otherwise the slot where it belongs, with the block proved absent |
| `Interner.BlockInterner.Intern` | crates/e5r-analysis/src/cfg.rs:256-277 | the list is unchanged for a block that is held and grows by it otherwise; the id names that block; nothing published changes |
| `Interner.BlockInterner.Grow` | crates/e5r-analysis/src/cfg.rs:279-294 | the index doubles, every id keeps its entry, and a probe still finds it |
| `Interner.BlockInterner.Install` | crates/e5r-analysis/src/cfg.rs:298-315 | the ids given back name the function's blocks in order, and no earlier id changes meaning |
| `Interner.BlockInterner.Seal` | crates/e5r-analysis/src/cfg.rs:328-342 | the list stays, and the snapshot handed out holds all of it |
| `Interner.BlockInterner.Publish` | crates/e5r-analysis/src/cfg.rs:321-326 | every function gets a table in which its own ids name the blocks they named |
| `Interner.SameIdIffSame` | crates/e5r-analysis/src/cfg.rs:256-277 | two ids are equal exactly when address and block are |
| `Interner.SnapshotsAgree` | crates/e5r-analysis/src/cfg.rs:71-86 | every snapshot ever published answers, for each id it holds, the entry that id has now |
| `Interner.GetIsMapLookup` | crates/e5r-analysis/src/cfg.rs:127-133 | looking a block up by address is looking it up in the map its ids stand for |
| `Dominators.Merge` | crates/e5r-api/src/dataflow.rs:1332-1339 | what the sets of all listed predecessors have in common, or nothing when none is listed |
| `Dominators.Round` | crates/e5r-api/src/dataflow.rs:1325-1349 | one round in place keeps every block on every path, and either shrinks the total or changes nothing at all |
| `Dominators.Compute` | crates/e5r-api/src/dataflow.rs:1309-1352 | the loop ends; up to the block limit a block is listed exactly when it is on every path from a root, and above it every set is left at its start value |
| `Dominators.WeightDrops` | crates/e5r-api/src/dataflow.rs:1322-1350 | replacing one set by a smaller one lowers the measure, which is why the loop ends |
| `Dominators.UpdateDescends` | crates/e5r-api/src/dataflow.rs:1331-1345 | writing one block's meet back in place keeps the invariant of the iteration |
| `Dominators.FixedPointOnPaths` | crates/e5r-api/src/dataflow.rs:1325-1351 | at a fixed point a listed block is on every path |
| `Dominators.ListedDominates` | crates/e5r-api/src/dataflow.rs:1308-1352 | in any function a listed block is on every path from the entry |
| `Dominators.ExactIffOneRoot` | crates/e5r-api/src/dataflow.rs:1308-1352 | the sets are exactly the dominators if and only if no block but the entry lacks a predecessor |
| `Constraints.Signed` | crates/e5r-api/src/dataflow.rs:1298-1306 | the low bits of a constant read as a signed number of its own width |
| `Constraints.OrderingSound` | crates/e5r-api/src/dataflow.rs:957-979 | what an ordering that came out one way says of its operands is true of them, unsigned ones with constants that are not negative |
| `Constraints.EqualitySound` | crates/e5r-api/src/dataflow.rs:948-956 | so is what an equality or its negation says |
| `Constraints.JunctionSound` | crates/e5r-api/src/dataflow.rs:917-947 | conjunction meets and disjunction joins: what is kept is true when both, or either, side's facts are |
| `Constraints.DeriveSound` | crates/e5r-api/src/dataflow.rs:895-983 | for every valuation in which the condition comes out as said, every range drawn holds of its value, through copy, not, and, or and comparison, down to the depth limit |
| `Constraints.UnsignedSoundIff` | crates/e5r-api/src/dataflow.rs:957-979 | one unsigned comparison against a constant is sound for every valuation if and only if the constant is not negative at its width or nothing is drawn |
| `Tight.DrawnIff` | crates/e5r-api/src/dataflow.rs:895-983 | what is drawn from a condition about a value is there exactly when some comparison in it bounds the value, on both sides of a junction where either may hold, and is exactly the numbers that satisfy those comparisons |
| `Tight.ComparisonMeans` | crates/e5r-api/src/dataflow.rs:948-979 | a comparison with a constant comes out as it binds exactly when the value, read as signed, satisfies it, unsigned ones with constants that are not negative |
| `Tight.PlainMeans` | crates/e5r-api/src/dataflow.rs:895-983 | for every valuation: a condition made of copies, negations, junctions both of whose sides hold and comparisons that bind one value comes out as said if and only if the value is a number it allows |
| `Paths.NotAgain` | crates/e5r-api/src/dataflow.rs:818-885 | a dominator of the branch is not visited again after the last visit to the branch, so nothing it defined is redefined |
| `Paths.LastEdgeExact` | crates/e5r-api/src/dataflow.rs:861-878 | the last visit to a branch always leaves by the chosen successor exactly when no other successor reaches the call without coming back |
| `Paths.OnlyPredecessorLeaves` | crates/e5r-api/src/dataflow.rs:861-878 | it does when the chosen successor dominates the call, is not the entry and has no predecessor but the branch |
| `Guard.FoldFacts` | crates/e5r-api/src/dataflow.rs:844-856 | folding one branch's facts in leaves exactly the numbers every fact so far allows |
| `Guard.Bound` | crates/e5r-api/src/dataflow.rs:818-859 | the bound allows exactly the numbers every fact of every guarding branch about a carrier allows, and there is none above the block limit; `Tight.BoundIs` says what the facts are |
| `Guard.FactsFromMember` | crates/e5r-api/src/dataflow.rs:827-857 | the facts behind the bound are exactly those the guarding branches on every path to the call draw about carriers of the value |
| `Tight.GuardsIff` | crates/e5r-api/src/dataflow.rs:861-893 | the branches listened to are exactly those in other blocks on every path to the call, of whose two ways exactly one is on every path, and the side is that way, either one |
| `Tight.CarriersIff` | crates/e5r-api/src/dataflow.rs:798-815 | the values an operand carries are exactly those it is in at most the depth limit of copies, widenings and low parts |
| `Tight.BoundIs` | crates/e5r-api/src/dataflow.rs:817-859 | the bound is there exactly when some such branch bounds a value the operand carries, and allows exactly the numbers all of them allow, said of the function and its conditions alone |
| `Tight.ComparisonBounds` | crates/e5r-api/src/dataflow.rs:817-979 | so where such a branch compares a carried value with a constant and came out as the comparison binds, there is a bound, and every number in it satisfies the comparison or its negation as the side says |
| `GuardTheorem.DefinitionHolds` | crates/e5r-api/src/dataflow.rs:818-859 | a dominating definition's equation holds at every later moment its block dominates |
| `GuardTheorem.SideFromOnlyPredecessor` | crates/e5r-api/src/dataflow.rs:865-878 | the side `edge` picks is the side last taken when the chosen successor is not the entry and only the branch leads to it |
| `GuardTheorem.BranchCameOut` | crates/e5r-api/src/dataflow.rs:840-844 | in every execution that reaches the call the guarding branch last came out the way claimed |
| `GuardTheorem.FactTrueAtCall` | crates/e5r-api/src/dataflow.rs:844-856 | the value tested is the value passed: a fact from a settled guard is true at the call |
| `Carrying.StepMakes` | crates/e5r-api/src/dataflow.rs:804-808 | what a copy, a widening or taking the low part makes of its input, read signed at each width |
| `Carrying.StepSoundIff` | crates/e5r-api/src/dataflow.rs:785-808 | carrying a range through one step is right for every number of the input width if and only if: for a zero extension to a wider place, no negative number is in it or its top reaches every unsigned number; for taking the low part, nothing is in it, or what is fits the part, or it holds the whole part |
| `Carrying.StepExact` | crates/e5r-api/src/dataflow.rs:785-808 | for an input that is not a constant, the same over every valuation |
| `Carrying.TruncationMisleads` | crates/e5r-api/src/dataflow.rs:785-808 | a signed comparison that holds gives a bound of five on eight bytes, and the low four read outside it |
| `Carrying.WideningRaises` | crates/e5r-api/src/dataflow.rs:785-808 | a four-byte value of at most five zero-extends to nearly 2^32 |
| `Carrying.ZeroExtensionExact` | crates/e5r-api/src/dataflow.rs:804-808 | a zero extension to a wider location keeps exactly the values that are not negative |
| `Carrying.CarrySound` | crates/e5r-api/src/dataflow.rs:798-815 | a bound on a carrier is a bound on the operand when the range passes the check at every step between them |
| `Carrying.CopiesPass` | crates/e5r-api/src/dataflow.rs:798-815 | through copies and sign extensions every bound passes |
| `GuardBound.BoundSound` | crates/e5r-api/src/dataflow.rs:817-859 | the guard theorem: in every execution that reaches the call, the value handed over is inside the bound, when each branch that gives a fact about a carrier is on a settled side and the fact passes every step |
| `GuardBound.JoinMisleads` | crates/e5r-api/src/dataflow.rs:865-878 | when the chosen successor is also a join, `edge` claims a side the branch may not have taken last |
| `GuardBound.JoinMisbounds` | crates/e5r-api/src/dataflow.rs:818-878 | and the bound is wrong: it is below five, and an execution of the function, which is in single-assignment form, hands over a hundred at the call |
| `BitMask.RepeatsAt` | crates/e5r-asm/src/aarch64.rs:513-526 | comparing each stretch with the lowest one answers whether the word repeats at that size |
| `BitMask.ElementSize` | crates/e5r-asm/src/aarch64.rs:510-528 | halving while the word repeats finds its smallest power-of-two period |
| `BitMask.FindRotation` | crates/e5r-asm/src/aarch64.rs:534-545 | finds a rotation that gives the run of ones, or proves none does |
| `BitMask.EncodeBitmask` | crates/e5r-asm/src/aarch64.rs:490-549 | an exact inverse of `DecodeBitMasks`: what is found decodes to the value at the value's smallest period, and whenever any allocated fields decode to it, their canonical form is found |
| `BitMask.AllocatedReads` | crates/e5r-asm/src/aarch64.rs:490-549 | every allocated combination is one the encoder can write |
| `BitMask.RunPeriod` | crates/e5r-asm/src/aarch64.rs:507-533 | a rotated run repeats at its element size and no smaller one, and is neither all zeros nor all ones |
| `BitMask.RotationUnique` | crates/e5r-asm/src/aarch64.rs:534-545 | only one rotation puts the run at the bottom |
| `Aliases.ShiftMeans` | crates/e5r-asm/src/aarch64.rs:1464-1513 | lsl, lsr, asr and ror by a constant are accepted exactly below the register's width, and the word executes as the shift |
| `Aliases.BitfieldMeans` | crates/e5r-asm/src/aarch64.rs:1581-1620 | ubfx, sbfx, bfxil, ubfiz, sbfiz and bfi are accepted exactly for fields inside the register, for widths below 2^32, and the word executes as that move |
| `Aliases.BitfieldLegalIff` | crates/e5r-asm/src/aarch64.rs:1581-1620 | an accepted alias is a legal one if and only if its width is below 2^32, and a width that is not cut to nothing is taken for what is left of it |
| `Aliases.NoWidthInserts` | crates/e5r-asm/src/aarch64.rs:1581-1620 | a width cut to nothing is accepted by `ubfx`, `sbfx` and `bfxil` past position zero, and executes as the inserting alias that puts the low bits at the top of the register |
| `Aliases.NoWidthIsShift` | crates/e5r-asm/src/aarch64.rs:1599-1619 | so the word of such a `ubfx` is that of a shift to the left |
| `Aliases.CutWidthAccepted` | crates/e5r-asm/src/aarch64.rs:1581-1620 | a width of 2^32 + 1 is accepted |
| `Aliases.ExtendMeans` | crates/e5r-asm/src/aarch64.rs:1622-1643 | the sign and zero extensions are accepted exactly for the register widths they have, and the word executes as the extension |
| `Aliases.StackTakenForZero` | crates/e5r-asm/src/aarch64.rs:383-389 | shifts, bitfields and extends take the stack pointer for the zero register |
| `Aliases.StackShiftsToZero` | crates/e5r-asm/src/aarch64.rs:1475-1513 | so a shift of the stack pointer leaves zero in a general register, whatever the stack pointer holds |
| `Move.MoveImmediate` | crates/e5r-asm/src/aarch64.rs:899-944 | the word chosen moves exactly the value asked for, and it is refused exactly when no MOVZ, no MOVN and no logical immediate gives the value |
| `Move.MoveWritesValue` | crates/e5r-asm/src/aarch64.rs:899-944 | executing it writes the value to a general register and changes nothing else |
| `Move.Register31Iff` | crates/e5r-asm/src/aarch64.rs:899-944 | register 31 is right for the zero register exactly when a move-wide gives the value and for the stack pointer exactly when none does |
| `Move.ZeroSearched` | crates/e5r-asm/src/aarch64.rs:903-916 | looking at each quarter of the value misses no MOVZ |
| `Move.NotSearched` | crates/e5r-asm/src/aarch64.rs:917-927 | looking at each quarter of the complement misses no MOVN |
| `Cursor.Enc.U32` | crates/e5r-analysis/src/cache.rs:358-360 | appends four bytes, least significant first |
| `Cursor.Enc.Str` | crates/e5r-analysis/src/cache.rs:371-374 | appends the length and then the bytes |
| `Cursor.Enc.OptStr` | crates/e5r-analysis/src/cache.rs:377-385 | appends a flag and then the text if there is one |
| `Cursor.Dec.Take` | crates/e5r-analysis/src/cache.rs:413-418 | gives the next bytes and moves past them, or nothing when too few are left |
| `Cursor.Dec.Bool` | crates/e5r-analysis/src/cache.rs:436-443 | accepts 0 and 1 only |
| `Cursor.Dec.Str` | crates/e5r-analysis/src/cache.rs:445-449 | gives back a text only when its bytes are there and are UTF-8 |
| `Cursor.Dec.Count` | crates/e5r-analysis/src/cache.rs:459-465 | a count is accepted exactly when that many smallest elements fit in what is left |
| `Wire.StrReads` | crates/e5r-analysis/src/cache.rs:371-449 | a text shorter than 2^32 bytes reads back, ending where it was written to |
| `Wire.StrTook` | crates/e5r-analysis/src/cache.rs:371-449 | a text that was read was written so |
| `Wire.AllRead` | crates/e5r-analysis/src/cache.rs:340-465 | a list whose elements each read back reads back |
| `Wire.ManyTook` | crates/e5r-analysis/src/cache.rs:340-465 | a list that was read is the list that writes those bytes |
| `Codec.CodesInvert` | crates/e5r-analysis/src/codec.rs:312-431 | each numbering is a bijection onto the codes it accepts |
| `Codec.EncodeProvenance` | crates/e5r-analysis/src/codec.rs:110-116 | writes the strongest evidence, a count cut at 255, and that many corroborations |
| `Codec.DecodeProvenance` | crates/e5r-analysis/src/codec.rs:118-132 | reads them back, refusing unknown codes |
| `Codec.EncodeCfg` | crates/e5r-analysis/src/codec.rs:134-158 | writes a graph's blocks, calls, flag, tables and halt in order |
| `Codec.DecodeCfg` | crates/e5r-analysis/src/codec.rs:160-214 | reads a graph, refusing damaged ranges, codes and counts |
| `Codec.EncodeTable` | crates/e5r-analysis/src/codec.rs:216-228 | writes a jump table |
| `Codec.DecodeTable` | crates/e5r-analysis/src/codec.rs:230-253 | reads a jump table |
| `CodecTheorems.CountReads` | crates/e5r-analysis/src/cache.rs:459-465 | a written count reads back exactly when what follows is long enough for it |
| `CodecTheorems.CfgReads` | crates/e5r-analysis/src/codec.rs:134-214 | a graph that fits its fields reads back whole if and only if 30 bytes or more to a block follow its block count |
| `CodecTheorems.FunctionReads` | crates/e5r-analysis/src/codec.rs:39-101 | so does a function, with its corroborations cut at 255 |
| `CodecTheorems.BlocksTake` | crates/e5r-analysis/src/codec.rs:138-146 | blocks take 26 bytes each and 8 for each edge |
| `CodecTheorems.ListingReads` | crates/e5r-analysis/src/codec.rs:34-108 | a written entry reads back whole, with no byte left over, if and only if every function's block count holds; otherwise nothing reads back |
| `CodecInverse.ListingTook` | crates/e5r-analysis/src/codec.rs:73-108 | whatever is accepted is what writing its contents gives |
| `CodecInverse.AcceptedIff` | crates/e5r-analysis/src/codec.rs:34-108 | a file is accepted as a listing exactly when it is that listing written, it fits its fields and every block count holds |
| `CachedAnalysis.EncodeFunctions` | crates/e5r-analysis/src/codec.rs:34-69 | writes what a reader of the functions sees, in address order, whatever the ids in the shared table are |
| `CachedAnalysis.DecodeFunctions` | crates/e5r-analysis/src/codec.rs:73-108 | answers nothing exactly when the bytes are not accepted, and otherwise functions in a fresh shared table that a reader sees as they were read |
| `CacheTheorems.RoundTrip` | crates/e5r-analysis/src/codec.rs:34-108 | an analysis that fits its fields comes back as the same functions, no-return set and rounds if and only if every block count holds |
| `CacheTheorems.NothingTrimmed` | crates/e5r-analysis/src/codec.rs:110-116 | nothing at all is lost if and only if no function has more than 255 corroborations |
| `CacheTheorems.LooksUp` | crates/e5r-analysis/src/codec.rs:98-104 | a block is looked up in a restored function as in the stored one |
| `CacheTheorems.EnoughEdges` | crates/e5r-analysis/src/codec.rs:28-28 | at least blocks less one edges per function make every block count hold |
| `CacheTheorems.WalkHasEdges` | crates/e5r-analysis/src/codec.rs:28-28 | a complete walk of an image whose instructions do not overlap has that many edges |
| `CacheTheorems.LeavesRefused` | crates/e5r-analysis/src/codec.rs:28-28 | a lone function of blocks that lead nowhere is accepted up to four blocks and refused from five on |
| `CacheWalks.WalkAccepted` | crates/e5r-analysis/src/codec.rs:28-28 | the block count of any walked graph that lists its recovered tables holds, however the walk stopped and whether or not its instructions overlap |
| `CacheWalks.WalkedComesBack` | crates/e5r-analysis/src/codec.rs:34-108 | so an analysis whose functions were all walked reads back whole |
| `CacheWalks.NoWalkOfLeaves` | crates/e5r-analysis/src/codec.rs:28-28 | and no walk gives more than one block where none leads anywhere |
| `CacheEntry.Put` | crates/e5r-analysis/src/cache.rs:211-236 | the file is the header, the payload and the checksum of both |
| `CacheEntry.FoundUnderItsKeyOnly` | crates/e5r-analysis/src/cache.rs:211-290 | what was stored is a hit under its own part and key and a miss under any other |
| `CacheEntry.HitIff` | crates/e5r-analysis/src/cache.rs:249-290 | a file is a hit exactly when it is, byte for byte, what storing that payload under that key writes |
| `Ranges.MergeRanges` | crates/e5r-analysis/src/program.rs:780-796 | the runs are separated, in order, not empty, and cover exactly what the ranges did |
| `Ranges.RunsUnique` | crates/e5r-analysis/src/program.rs:780-796 | merged runs are a normal form: equal coverage means the same list |
| `Ranges.GapsIn` | crates/e5r-analysis/src/program.rs:800-823 | the gaps are runs that cover exactly what is in the span and not covered |
| `DataMap.Assemble` | crates/e5r-analysis/src/data.rs:188-213 | exactly the candidates that are not empty and meet no code are kept, sorted and once each; every candidate that is not kept is counted as refused; no marked byte is code |
| `DataMap.OverlapsIff` | crates/e5r-analysis/src/data.rs:217-220 | the one run the binary search looks at meets the range exactly when any does |
| `DataMap.RunAtFinds` | crates/e5r-analysis/src/data.rs:176-179 | the binary search finds the run that holds an address exactly when one does |
| `DataMap.ContainsIff` | crates/e5r-analysis/src/data.rs:143-145 | an address is data exactly when some region holds it |
| `DataMap.EndOfRunEnds` | crates/e5r-analysis/src/data.rs:157-159 | the end of the maximal run of marked bytes from an address, and nothing from any other |
| `DataMap.BytesCount` | crates/e5r-analysis/src/data.rs:162-174 | each marked byte is counted once, in all and inside a span |
| `Gaps.SweepGap` | crates/e5r-analysis/src/program.rs:750-769 | one gap is swept to its end on the step grid, skipping data a run at a time |
| `Gaps.SweepSpan` | crates/e5r-analysis/src/program.rs:749-770 | one segment's gaps are swept, each on its own grid |
| `Gaps.ScanGaps` | crates/e5r-analysis/src/program.rs:723-778 | nothing found is in a walked block or a data run; in aligned segments, below the cap, no prologue on the grid is missed |
| `NoReturn.NeverReturns` | crates/e5r-analysis/src/noreturn.rs:114-138 | answers whether the walk is complete with nothing indirect, has a block with no successors, and each such block is a dead end |
| `NoReturn.OnePass` | crates/e5r-analysis/src/noreturn.rs:97-106 | one pass in address order, each function judged by what is known so far, and whether it added anything |
| `NoReturn.Compute` | crates/e5r-analysis/src/noreturn.rs:84-112 | at most eight passes from the named set, stopping when one adds nothing |
| `NoReturn.OnlyForced` | crates/e5r-analysis/src/noreturn.rs:94-112 | whatever the rounds report is in every set that holds the named functions and is closed under the rule |
| `NoReturn.ReachesDepth` | crates/e5r-analysis/src/noreturn.rs:94-112 | everything derived in at most as many steps as there are rounds is found |
| `CallChains.FoundIff` | crates/e5r-analysis/src/noreturn.rs:94-112 | so many rounds find exactly the named functions and those with a chain of calls, through functions the rule accepts, down to a named one or one that needs no call, that goes up in memory to a function that was not named fewer times than there are rounds |
| `CallChains.ForcedIff` | crates/e5r-analysis/src/noreturn.rs:94-112 | a function is in every closed set over the named ones if and only if it has such a chain at all |
| `CallChains.LeastIff` | crates/e5r-analysis/src/noreturn.rs:84-112 | the rounds give the least set if and only if every function with a chain was named or has one that goes up fewer times than there are rounds |
| `NoReturn.SettledIsClosed` | crates/e5r-analysis/src/noreturn.rs:107-109 | rounds that add nothing have reached a closed set |
| `CallChains.LadderMissed` | crates/e5r-analysis/src/noreturn.rs:94-112 | of a ladder of nine or more tail calls up to an import exactly the top eight are found, and the result is not the least set |
| `WaysOut.StuckIff` | crates/e5r-analysis/src/noreturn.rs:114-138 | the rule on a complete walk's blocks says exactly that control ends somewhere and wherever it ends is a trap, a call that does not return, or a tail call beside some call in the set |
| `WaysOut.StuckNeverReturns` | crates/e5r-analysis/src/noreturn.rs:114-138 | a function the rule accepts reaches no return and no unfollowed branch, so control can only come back by a branch out of it |
| `WaysOut.ComesBackIff` | crates/e5r-analysis/src/noreturn.rs:78-112 | a reported function may come back if and only if branches out lead from it, through reported functions, to one that is not reported and may |
| `WaysOut.ReportedRightIff` | crates/e5r-analysis/src/noreturn.rs:78-112 | on complete walks, with what is reported given by the chains of the call graph: that condition for each reported function; none comes back through any number of functions if every branch out of a reported one, conditional ones included, goes to a reported one, and only if, when every function that is not reported may come back |
| `WaysOut.TailMisjudged` | crates/e5r-analysis/src/noreturn.rs:129-133 | one call into the set makes a tail call elsewhere in the function count as a dead end, in a walk that completes |
| `WaysOut.TestedTailMisjudged` | crates/e5r-analysis/src/noreturn.rs:125-128 | a conditional branch out of the function is not looked at, in a walk that completes |
| `Discover.WalkOne` | crates/e5r-analysis/src/program.rs:346-360 | one seed's walk, with no blocks exactly when nothing decodes there |
| `Discover.QueueCalls` | crates/e5r-analysis/src/program.rs:361-376 | exactly the executable call targets gain evidence, and exactly the new ones are queued |
| `Discover.WalkBatch` | crates/e5r-analysis/src/program.rs:346-396 | every function a batch adds is a walk of one of its seeds told to stop at exactly the evidence known when the round began; what gains evidence is exactly the executable calls of the functions it added; it keeps every address with evidence known, waiting or barren, and queues only what gained evidence |
| `Discover.Round` | crates/e5r-analysis/src/program.rs:329-396 | so does a round, and a round that leaves work has strictly more evidence, which is why discovery ends |
| `Discover.WalkPending` | crates/e5r-analysis/src/program.rs:469-527 | the sweep's walks add functions only at its seeds, each told to stop at all evidence and to keep out of the data, and change none; a seed outside the data that does not become a function decodes nowhere |
| `Discover.Discover` | crates/e5r-analysis/src/program.rs:295-447 | the rounds end, at most one for each executable address, and are counted; the first began with exactly the executable hints, each later one with what the one before had and exactly the executable calls of the functions new in it, and each function evidence led to is a walk told to stop at exactly what its round began with; the last evidence is settled and is nothing the hints and calls do not force; what the sweep adds are walks of what it found, told to stop at all evidence and all it found, and everything it found is a function or decodes nowhere; without a sweep nothing is added |
| `Discover.EvidenceIsLeast` | crates/e5r-analysis/src/program.rs:307-391 | what has evidence is exactly the least set that holds the executable hints and, when calls are followed, the executable calls of the functions found in it |
| `Discover.LedIff` | crates/e5r-analysis/src/program.rs:346-391 | the functions found by evidence are exactly the addresses with evidence that decode |
| `Discover.CallsAreFunctions` | crates/e5r-analysis/src/program.rs:361-391 | an executable address called by a function found by evidence is itself a function, or nothing decodes there |
| `Discover.HintsAreFunctions` | crates/e5r-analysis/src/program.rs:307-325 | so is every executable address a loader hinted at |
| `Stops.BranchesLeave` | crates/e5r-analysis/src/program.rs:329-376 | a direct branch that ends a block of a function, to an address with evidence when its round began that is not its own entry, is one of the function's calls and is not followed |
| `Stops.HintsAreCalls` | crates/e5r-analysis/src/program.rs:307-376 | an instruction of a function evidence led to that branches directly to an executable hint other than its entry makes that hint one of the function's calls |
| `Stops.HintsNotFollowed` | crates/e5r-analysis/src/program.rs:307-360 | and the block it ends leaves there: a tail call, or on to the next instruction alone when the branch is conditional |
| `Stops.SweepMissesNothing` | crates/e5r-analysis/src/program.rs:399-447 | on an aligned image whose segments do not overlap, a sweep within its cap leaves no prologue on the grid, outside code and proved data, that is neither a function nor decodes nowhere |
| `Discover.FunctionsReach` | crates/e5r-analysis/src/program.rs:295-447 | every instruction in any function's blocks is reachable from that function's entry |
| `Refine.RefineOne` | crates/e5r-analysis/src/program.rs:555-581 | a function that is not reported and calls a reported one is walked again under the set, and keeps its graph if that walk gives no blocks |
| `Refine.RefineNoReturn` | crates/e5r-analysis/src/program.rs:536-587 | the set is the one computed on the functions as they were, and every function is replaced by its second walk or kept |
| `Refine.WalkedAgain` | crates/e5r-analysis/src/program.rs:548-581 | a function that is not reported and calls a reported one becomes, with room for a block and an instruction, what a walk gives that stops at every known function and knows the reported ones |
| `Refine.NoneFallsThrough` | crates/e5r-analysis/src/program.rs:548-581 | in such a function, afterwards, a call to a reported one is the last instruction of its block, which goes nowhere: no call to a reported function falls through |
| `Refine.RefiningShortens` | crates/e5r-analysis/src/program.rs:529-581 | for any function, found by evidence or by the sweep, whose first walk was complete and tore nothing off, the second walk adds no instruction |
| `Refine.SweptMayGrow` | crates/e5r-analysis/src/program.rs:548-571 | a first walk that was cut off at data, so not complete, can gain instructions, because the second knows no data: with room enough the second completes |
| `Refine.CappedMayGrow` | crates/e5r-analysis/src/program.rs:548-571 | so can a first walk that the instruction cap cut off, although evidence led to the function: calls that do not return leave the cap to the rest, and the second completes |
| `QueryLex.LexOne` | crates/e5r-api/src/query.rs:1096-1180 | one token found by scanning is the token the text spells at that place |
| `QueryLex.Lex` | crates/e5r-api/src/query.rs:1093-1183 | the loop gives the tokens of the whole text, or fails where the text spells none |
| `Lexical.NumberIff` | crates/e5r-api/src/query.rs:1145-1161 | a number token is what its digits denote, most significant first, underscores left out, in hexadecimal after `0x` and in decimal otherwise, when that fits 64 bits |
| `Lexical.LexIff` | crates/e5r-api/src/query.rs:1093-1183 | the lexer gives tokens exactly when the text spells them: words, quoted texts, numbers, brackets and each spelling of each operator, as long as each can be, with white space anywhere between |
| `QueryLexTheorems.LexRender` | crates/e5r-api/src/query.rs:1093-1183 | lexing tokens spelled out gives the tokens back |
| `QueryLexTheorems.LexSpellable` | crates/e5r-api/src/query.rs:1093-1183 | whatever the lexer cuts out can be spelled |
| `Query.Parser.Next` | crates/e5r-api/src/query.rs:1191-1197 | gives the next token and moves past it, or nothing at the end |
| `Query.Parser.TakeReaching` | crates/e5r-api/src/query.rs:1227-1244 | reads which argument a call's values are asked about |
| `Query.Parser.TakeFact` | crates/e5r-api/src/query.rs:1251-1307 | reads a dataflow fact as the grammar does, `is not` included; what that means is `Grammar.ParsesIff` |
| `Query.Parser.TakeReads` | crates/e5r-api/src/query.rs:1310-1347 | reads an `any` or `every` argument question |
| `Query.Parser.TakeExpression` | crates/e5r-api/src/query.rs:1349-1362 | conjunctions joined by `or`, to the left |
| `Query.Parser.TakeConjunction` | crates/e5r-api/src/query.rs:1364-1375 | conditions joined by `and`, to the left |
| `Query.Parser.TakeUnary` | crates/e5r-api/src/query.rs:1377-1394 | `not`, brackets, a fact or a comparison |
| `Query.Parser.TakeComparison` | crates/e5r-api/src/query.rs:1396-1433 | a field, an operator and a value |
| `Query.Parse` | crates/e5r-api/src/query.rs:645-700 | the parser's loops compute the grammar function's answer for the text, which `Grammar.QueryIff` says outright |
| `Grammar.ParsesIff` | crates/e5r-api/src/query.rs:1185-1433 | tokens parse to a query if and only if they are that query in a grammar stated by itself: `is not` negates, `funcs`, `syms`, `arguments`, `calls` and a missing `a` read as their canonical words, a bare word as the quoted text, and the last `where` and `limit` count |
| `Grammar.QueryIff` | crates/e5r-api/src/query.rs:645-700 | a text parses to a query if and only if it spells tokens that are that query |
| `QueryPrint.TokensParse` | crates/e5r-api/src/query.rs:645-700 | parsing a query's tokens gives the query, however it is bracketed |
| `QueryTheorems.PrintParses` | crates/e5r-api/src/query.rs:645-1433 | printing any query that can be written and parsing the text gives the query back |
| `QueryTheorems.ParsedExpressible` | crates/e5r-api/src/query.rs:645-1433 | every query a text parses to can be written |
| `QueryTheorems.SpeltIff` | crates/e5r-api/src/query.rs:645-1433 | the queries some text spells are exactly those |
| `QueryTheorems.NormalForm` | crates/e5r-api/src/query.rs:645-1433 | printing what was parsed parses to the same query |
| `QueryTheorems.AndBindsTighter` | crates/e5r-api/src/query.rs:1349-1375 | without brackets `and` groups tighter than `or`, on either side |
| `QueryTheorems.ChainsGroupLeft` | crates/e5r-api/src/query.rs:1349-1375 | without brackets a chain of either word groups to the left |
| `Emulate.Walk` | crates/e5r-api/src/emulate.rs:380-530 | the loop ends for every machine and gives the ending and state of the whole run, which `History.RunIsTold` says from what its operations did |
| `Emulate.RunInsn` | crates/e5r-api/src/emulate.rs:405-528 | one instruction: its operations in order, then its gate into the kernel |
| `Emulate.TurnDecreases` | crates/e5r-api/src/emulate.rs:400-530 | each turn that goes on spends budget, or moves nearer the end of the code with the budget unspent |
| `Emulate.OpsBounded` | crates/e5r-api/src/emulate.rs:401-420 | operations run never exceed the budget less one plus the longest instruction |
| `Emulate.RunEndsWell` | crates/e5r-api/src/emulate.rs:422-481 | open frames stay within the depth, a run is finished only at frame zero, a call ends it only at the full depth, and it stops at the first transfer it was told to and at no other |
| `Emulate.RunIsBounded` | crates/e5r-api/src/emulate.rs:380-530 | both, of a run from its start |
| `History.RunIsTold` | crates/e5r-api/src/emulate.rs:380-530 | every run has a history, told by what each operation did: each instruction runs where the one before went, at the target of a transfer and otherwise at the next address, while budget is left; the run ends for the first reason to; open frames are calls less returns taken; operations, instructions, served gates, unlifted instructions and indirect transfers in order are those of the history |
| `History.EndingsTold` | crates/e5r-api/src/emulate.rs:422-481 | a run is finished exactly at a return with as many returns as calls before it, and ends in a call exactly at one with `depth` frames open that it was not told to stop at |
| `Kernel.Session.constructor` | crates/e5r-api/src/kernel.rs:159-170 | nothing taken, the break at the bottom of the arena, mappings from a quarter up |
| `Kernel.Session.TakeInput` | crates/e5r-api/src/kernel.rs:199-209 | hands over the next bytes of the input, never past its end, and writes them where asked |
| `Kernel.Session.CopyOut` | crates/e5r-api/src/kernel.rs:210-218 | records the bytes read from memory, at most the largest transfer |
| `Kernel.Session.Map` | crates/e5r-api/src/kernel.rs:221-238 | grants the rounded length at the next address, or refuses it and changes nothing |
| `Kernel.Session.Serve` | crates/e5r-api/src/kernel.rs:191-275 | answers each modelled call with exactly its effect on the session and memory, and refuses every other with no effect |
| `KernelCalls.NumbersIff` | crates/e5r-api/src/kernel.rs:306-343 | which call a number asks for, on each architecture |
| `KernelCalls.ReadDoes` | crates/e5r-api/src/kernel.rs:199-209 | a read leaves the next bytes of the input in its buffer, each in its place around the top of memory, changes no other byte, and answers how many: what was asked, the largest transfer or what is left |
| `KernelCalls.WriteDoes` | crates/e5r-api/src/kernel.rs:210-218 | a write records under its descriptor the bytes that lie in the buffer, up to the largest transfer, answers how many, and changes nothing else |
| `KernelCalls.BrkDoes` | crates/e5r-api/src/kernel.rs:243-251 | the break moves exactly when asked to a place in the lower quarter of the arena, and the answer is where it then is |
| `KernelCalls.MmapDoes` | crates/e5r-api/src/kernel.rs:221-238 | a mapping of a file is refused; any other is granted where the last ended, which alone changes, or refused for want of memory |
| `KernelCalls.MunmapDoes` | crates/e5r-api/src/kernel.rs:242-242 | unmapping answers zero and does nothing |
| `KernelCalls.ExitDoes` | crates/e5r-api/src/kernel.rs:252-252 | leaving answers the status it was given and does nothing |
| `KernelCalls.ClockDoes` | crates/e5r-api/src/kernel.rs:262-273 | the two clock calls answer zero and fill the structure they are given, if they are given one, with the fixed second and eight zero bytes |
| `KernelCalls.TimeDoes` | crates/e5r-api/src/kernel.rs:253-258 | the plain one answers the fixed second and writes it where it is asked to |
| `Kernel.AlwaysSound` | crates/e5r-api/src/kernel.rs:191-275 | over every sequence of calls the break stays in its quarter, the next mapping in the rest, and the input taken within the input |
| `Kernel.MappingsApart` | crates/e5r-api/src/kernel.rs:221-238 | over every sequence of calls the mappings do not overlap and lie in the upper three quarters of the arena |
| `Kernel.BreakNeverMeets` | crates/e5r-api/src/kernel.rs:243-251 | at every moment the break is at or below every mapping |
| `Kernel.ReadsArePrefix` | crates/e5r-api/src/kernel.rs:199-209 | what the reads hand over, end to end, is a prefix of the input |
| `Kernel.EndOfFileIff` | crates/e5r-api/src/kernel.rs:199-209 | a read gives nothing exactly when nothing was asked for or nothing is left |
| `Kernel.PageUpIff` | crates/e5r-api/src/kernel.rs:226-226 | rounding a length up gives at least the length if and only if it does not wrap |
| `Kernel.GrantCoversIff` | crates/e5r-api/src/kernel.rs:226-237 | a granted mapping is as long as was asked if and only if its length does not wrap |
| `Kernel.WrappedRequestGranted` | crates/e5r-api/src/kernel.rs:226-237 | a length within a page of 2^64 is always granted, with no bytes |
| `Kernel.GrantedIff` | crates/e5r-api/src/kernel.rs:226-237 | any other length is granted exactly when its pages fit in what is left |

## Left out

- Walk.Run: addresses are unbounded numbers, so nothing wraps near 2^64; Thumb's IT state, which the source carries from one decode to the next within a block, is not modelled, so decoding is a function of the address.
- Walk.Descend: jump-table recovery is an oracle from the branch's address to its targets. The instructions of up to three levels of predecessors the source hands it, and the list of recovered tables it keeps, are not modelled, so the oracle does not see the order of the walk.
- Blocks.BuildRaw: the section that bounds a jump table's targets belongs to recovery and is left out with it.
- Interner.BlockInterner.Intern: asks for fewer than 2^32 - 2 held blocks, where the source's 32-bit ids would run out without a check. Chunks are values, so sharing them by reference count is not modelled.
- Interner.BlockInterner.constructor: the table handed to a function before its own is published is not modelled apart from its ids.
- CachedAnalysis.DecodeFunctions: asks that the bytes are too few to hold that many blocks, for the same reason.
- Dominators.Compute: address order stands for the order of the map's keys.
- Constraints.DeriveSound: asks that operands of one comparison have one width and results fit their location, as the lifter makes them, and that unsigned constants are not negative at their width. Over a whole condition that is enough and not necessary: a junction may drop the one fact that is wrong.
- GuardBound.BoundSound: asks for single-assignment form, and that each branch that gives a fact about a carrier is on a settled side and its range passes each step. `LastEdgeExact` and `StepSoundIff` make each of these exact for one branch and one step; over a chain of steps passing all of them is enough, not necessary, since a later step can undo an earlier one.
- Guard.Bound: `judge`, which meets the bound with the one the width gives, is not modelled: a signed guard below zero on the input of a zero extension makes it wrong, as `WideningRaises` shows.
- Aliases.BitfieldMeans: a width cut to nothing that the lowering subtracts one from is an overflow; what a build without overflow checks emits there is not modelled.
- Aliases.ShiftMeans: registers carry no width here. The source takes the width from the destination alone, so it accepts mixed widths such as `lsl x0, w1, #3`, and the model does not tell them from `lsl x0, x1, #3`. Shifts by a register, and the raw `ubfm`, `sbfm` and `bfm` spellings, are not modelled.
- Move.MoveImmediate: moves between registers, which become ORR or ADD, are not modelled.
- CacheWalks.WalkAccepted: asks that the stored tables list at least as many targets as were recovered, since the walk itself keeps only the targets.
- Codec.EncodeProvenance: names are byte strings that are UTF-8; the tables they are interned in are not modelled.
- Codec.DecodeCfg: a 32-bit count that is too large for what follows is refused before anything is reserved, as in the source; the reservation itself is not modelled.
- Cross-reference and string entries of the cache: the same primitives in easier members.
- Reading and writing files, temporary names, the cache directory: only the bytes of an entry are modelled.
- CacheEntry.HitIff: the hash is any function, so nothing is said about which damage a checksum catches.
- Discover.Discover: names, merged provenance, progress reports, threads and the order of batches inside a round are not modelled; a batch's walks do not depend on each other.
- Gaps.ScanGaps: the prologue test is any predicate on addresses.
- DataMap.Assemble: where candidates come from (declared objects, jump tables, literal pools, pointer runs) is not modelled.
- NoReturn.Compute: which names never return is the set it starts from.
- WaysOut.ReportedRightIff: asks for complete walks of images whose reachable instructions do not overlap, and takes the named functions at their word.
- Refine.RefiningShortens: asks that the first walk tore nothing off, which cannot be dropped, as `TornMayGrow` shows; which walks of an image that did tear gain an instruction is said for two complete walks only (`GainedIff`).
- QueryLex.Lex: which characters are letters or spaces is any classification that agrees with ASCII.
- Query.Parse: the checks on field names and values after parsing, error text, and running the query are not modelled.
- QueryTheorems.PrintParses: the printer is the model's own; the repository has none.
- Emulate.Walk: decoding, lifting and the effect of one operation are any deterministic functions of the machine.
- Kernel.Session.Serve: memory is a map of bytes, and the argument registers are given; reads and writes through them are modelled, the register files are not. A stub's clock structure is written at the address modulo 2^64.
- `analyze`, the register trackers of `jumptable.rs` and `xref.rs`, class, vtable and signature recovery, `decompile.rs`, the ELF and PE loaders and the decoders are not part of this model.

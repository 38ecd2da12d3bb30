# R600 control-flow finalizer and the internalize pass, in Dafny

This project models two LLVM passes and proves properties of the models.

**The R600 control-flow finalizer** (`R600ControlFlowFinalizer`) runs late in
the R600 back end. It walks every basic block of a machine function once and
rewrites the block in place:

- it puts a `CF_TC` clause header in front of each run of fetch instructions
  (texture and vertex fetches, with `KILL` and `RETURN` allowed inside the run),
  at most `MaxFetchInst` fetches per clause;
- it replaces the structural pseudo instructions (`WHILELOOP`, `ENDLOOP`,
  `IF_PREDICATE_SET`, `ELSE`, `ENDIF`, `PREDICATED_BREAK`, `CONTINUE`) by native
  control-flow instructions;
- it numbers control-flow slots with `CfCount` and back-patches the address
  operand of loop and jump instructions once the target is known, using a loop
  stack of (start count, patch set) and an if/else stack;
- it tracks the hardware stack depth (`CurrentStack`, `MaxStack`) and puts
  `STACK_SIZE` with the depth reached so far at the front of each block.

**The internalize pass** (`InternalizePass`) gives internal linkage to every
function, global variable and alias that is defined in the module, is not
already internal, and is not in the set of preserved names. With no preserved
names it either does nothing or, in "all but main" mode, preserves `main` alone.

Files:

- `r600_isa.dfy` (module `R600Isa`): opcodes, instructions, the two opcode
  classifiers, and counting of control-flow slots.
- `r600_lowering.dfy` (module `R600Lowering`): what the finalizer computes,
  written as functions. This covers the fetch-clause scan, back-patching, one
  function per arm of the opcode switch, the walk over one block and the walk
  over all blocks. The precondition `WellNested` excludes the inputs on which
  the code pops an empty stack, which is undefined behaviour, or wraps
  `CurrentStack` around below zero.
- `r600_finalizer.dfy` (module `R600ControlFlowFinalizer`): the pass as the code
  runs it.
  - Methods with loops: `MakeFetchClause` and the set overload of
    `CounterPropagateAddr`.
  - Class `BlockLowering` holds the state of one block's walk: the block, the
    iterator, `CfCount`, both stacks and the stack counters. Each arm of the
    switch is a method that splices the block in place.
  - The block loop and the function loop.
  - Class `ControlFlowFinalizer` holds the cap chosen at construction and runs
    the pass on a `MachineFunction` object.

  Every method is proved to compute what `R600Lowering` defines.
- `r600_lowering_proofs.dfy` (module `R600LoweringProofs`): slot counting
  (`CfCount` against the slots emitted), the stack high-water mark, and the
  position of `STACK_SIZE` and `CF_CALL_FS`.
- `r600_backpatch.dfy` (module `R600BackPatch`): an invariant of the walk.
  Every pending index on either stack names a placeholder that is still
  unresolved, and no placeholder is pending twice. Under that invariant, the
  arms that close a construct resolve exactly that construct's placeholders and
  change nothing else.
- `r600_resolution.dfy` (module `R600Resolution`): the converse invariant.
  Every placeholder the walk emitted and has not yet resolved is pending on
  one of the stacks, so a block whose stacks end empty has no placeholder
  left unresolved.
- `internalize.dfy` (module `Internalize`): the internalize pass.
  - `RunOnModuleSpec` is its effect on values; the properties are proved about it.
  - `InternalizeList` implements one of the three loops.
  - Class `InternalizePass` has the two constructors and `RunOnModule`.
    `RunOnModule` updates a `Module` object in place and is proved to equal
    `RunOnModuleSpec`.

Three behaviours of the pass that are easy to misread:

- When the fetch cap trips, the clause COUNT is `MaxFetchInst + 1`. The
  tripping fetch is counted, but it is not spanned; the next clause starts
  there. So 20 fetches with a cap of 16 give clauses with counts 17 and 4, not
  16 and 4 (`ScanFetchRunSpec`).
- `CurrentStack` and `MaxStack` belong to the function, not to the block. They
  are carried from one block to the next, and each `STACK_SIZE` is the maximum
  so far over the whole function (`FunctionStackSizes`).
- `IF_PREDICATE_SET` does not change `CurrentStack`, but `ENDIF` decrements it.
  So `CurrentStack` need not return to 0 at the end of a block.

## Model

| member | source | states |
|---|---|---|
| `R600Isa.IsFetchListed` | lib/Target/R600/R600ControlFlowFinalizer.cpp:37-61 | `IsFetch` holds of an opcode exactly when it is one of the eighteen TEX_*/TXD opcodes listed in `FetchOpcodes` |
| `R600Isa.IsTrivialInst` | lib/Target/R600/R600ControlFlowFinalizer.cpp:63-71 | true exactly for KILL and RETURN |
| `R600Isa.FetchAndTrivialDisjoint` | lib/Target/R600/R600ControlFlowFinalizer.cpp:37-71 | no opcode is both a fetch and trivial |
| `R600Lowering.MaxFetchInstFor` | lib/Target/R600/R600ControlFlowFinalizer.cpp:105-113 | the cap is 8 or 16, and it is 8 exactly when the generation is at most HD4XXX |
| `R600Lowering.ScanFetchRun` | lib/Target/R600/R600ControlFlowFinalizer.cpp:78-88 | the scan spans at most the rest of the block, and a leading fetch below the cap is always spanned |
| `R600Lowering.ScanFetchRunSpec` | lib/Target/R600/R600ControlFlowFinalizer.cpp:74-92 | spanned instructions are fetch or trivial; the scan stops at the end, at an instruction that is neither, or at the fetch that trips the cap; COUNT is the spanned fetches (trivial ones not counted) plus the tripping fetch; COUNT is at most MaxFetchInst+1, and equals it exactly when the cap tripped |
| `R600Lowering.FetchClauseLayout` | lib/Target/R600/R600ControlFlowFinalizer.cpp:131-136 | `LowerFetchClause` keeps everything emitted before, appends CF_TC with the scan's COUNT and then the spanned run unchanged, adds 1 to CfCount and changes nothing else; from a fetch the run is non-empty and holds only fetch and trivial instructions |
| `R600Lowering.AdmitsExactly` | lib/Target/R600/R600ControlFlowFinalizer.cpp:142-238 | `Admits` holds exactly when ENDLOOP, PREDICATED_BREAK and CONTINUE find a loop frame, ELSE and ENDIF find an if/else entry, and ENDLOOP, ENDIF and PREDICATED_BREAK find CurrentStack above 0 |
| `R600Lowering.NextEffect` | lib/Target/R600/R600ControlFlowFinalizer.cpp:142-238 | `Next`: WHILELOOP pushes a loop frame and ENDLOOP pops one; IF_PREDICATE_SET pushes an if/else entry and ENDIF pops one; CF_ALU_PUSH_BEFORE and WHILELOOP add 1 to CurrentStack; ENDLOOP, ENDIF and PREDICATED_BREAK subtract 1; nothing else moves |
| `R600Lowering.ScanSpansFetchRun` | lib/Target/R600/R600ControlFlowFinalizer.cpp:131-136 | a clause started at a fetch spans at least that fetch and only fetch or trivial instructions |
| `R600Lowering.Propagated` | lib/Target/R600/R600ControlFlowFinalizer.cpp:93-95 | operand 0 becomes Addr plus its old value; the opcode and every other operand are unchanged |
| `R600Lowering.PropagatedAll` | lib/Target/R600/R600ControlFlowFinalizer.cpp:96-103 | every member of the set is patched exactly once, every other instruction is unchanged, no opcode changes |
| `R600Lowering.WhileLoopArm` | lib/Target/R600/R600ControlFlowFinalizer.cpp:149-162 | pending indices stay valid; one more loop frame; CurrentStack + 1 |
| `R600Lowering.EndLoopArm` | lib/Target/R600/R600ControlFlowFinalizer.cpp:163-174 | pending indices stay valid; one loop frame fewer; CurrentStack - 1 |
| `R600Lowering.IfArm` | lib/Target/R600/R600ControlFlowFinalizer.cpp:175-185 | pending indices stay valid; one more if/else entry; CurrentStack unchanged |
| `R600Lowering.ElseArm` | lib/Target/R600/R600ControlFlowFinalizer.cpp:186-199 | pending indices stay valid; stack depths and CurrentStack unchanged |
| `R600Lowering.EndIfArm` | lib/Target/R600/R600ControlFlowFinalizer.cpp:200-213 | pending indices stay valid; one if/else entry fewer; CurrentStack - 1 |
| `R600Lowering.BreakArm` | lib/Target/R600/R600ControlFlowFinalizer.cpp:214-229 | pending indices stay valid; stacks unchanged in depth; CurrentStack - 1 |
| `R600Lowering.ContinueArm` | lib/Target/R600/R600ControlFlowFinalizer.cpp:230-238 | pending indices stay valid; stacks and CurrentStack unchanged in depth |
| `R600Lowering.LowerInst` | lib/Target/R600/R600ControlFlowFinalizer.cpp:139-241 | the switch keeps pending indices valid and moves the stack depths and CurrentStack as that opcode's arm prescribes |
| `R600Lowering.LowerRest` | lib/Target/R600/R600ControlFlowFinalizer.cpp:130-242 | the walk over the rest of a block keeps pending indices valid and ends in the shape the markers prescribe |
| `R600Lowering.LowerBlock` | lib/Target/R600/R600ControlFlowFinalizer.cpp:120-242 | CurrentStack at the end of a block is the depth the block's markers lead to from the depth on entry |
| `R600Lowering.FinalizedBlock` | lib/Target/R600/R600ControlFlowFinalizer.cpp:120-245 | the CurrentStack handed to the next block is that depth |
| `R600Lowering.FinalizedFunction` | lib/Target/R600/R600ControlFlowFinalizer.cpp:115-249 | one finalized block per input block |
| `R600ControlFlowFinalizer.MakeFetchClause` | lib/Target/R600/R600ControlFlowFinalizer.cpp:73-92 | exactly one CF_TC(CfAddress, COUNT) is inserted right before the starting fetch; every scanned instruction is unchanged; the returned index is the first instruction after the spanned run |
| `R600ControlFlowFinalizer.CounterPropagateAddr` | lib/Target/R600/R600ControlFlowFinalizer.cpp:93-95 | only the instruction at the index changes, as `Propagated` says |
| `R600ControlFlowFinalizer.CounterPropagateAddrSet` | lib/Target/R600/R600ControlFlowFinalizer.cpp:96-103 | the loop over the set, in any order, gives `PropagatedAll` |
| `R600ControlFlowFinalizer.BlockLowering.constructor` | lib/Target/R600/R600ControlFlowFinalizer.cpp:121-129 | CfCount 0 and empty stacks; CF_CALL_FS is inserted and counted when the shader type is 1 |
| `R600ControlFlowFinalizer.BlockLowering.Visit` | lib/Target/R600/R600ControlFlowFinalizer.cpp:130-141 | one turn of the block loop (a fetch clause and CfCount + 1, or the switch) moves the walk one step on without changing its outcome |
| `R600ControlFlowFinalizer.BlockLowering.LowerMarker` | lib/Target/R600/R600ControlFlowFinalizer.cpp:139-241 | the switch on the instruction under the iterator takes the walk's state to `LowerInst` of it |
| `R600ControlFlowFinalizer.BlockLowering.LowerWhileLoop` | lib/Target/R600/R600ControlFlowFinalizer.cpp:149-162 | the new state is `WhileLoopArm` of the old one |
| `R600ControlFlowFinalizer.BlockLowering.LowerEndLoop` | lib/Target/R600/R600ControlFlowFinalizer.cpp:163-174 | the new state is `EndLoopArm` of the old one |
| `R600ControlFlowFinalizer.BlockLowering.LowerIfPredicateSet` | lib/Target/R600/R600ControlFlowFinalizer.cpp:175-185 | the new state is `IfArm` of the old one |
| `R600ControlFlowFinalizer.BlockLowering.LowerElse` | lib/Target/R600/R600ControlFlowFinalizer.cpp:186-199 | the new state is `ElseArm` of the old one |
| `R600ControlFlowFinalizer.BlockLowering.LowerEndIf` | lib/Target/R600/R600ControlFlowFinalizer.cpp:200-213 | the new state is `EndIfArm` of the old one |
| `R600ControlFlowFinalizer.BlockLowering.LowerPredicatedBreak` | lib/Target/R600/R600ControlFlowFinalizer.cpp:214-229 | the new state is `BreakArm` of the old one |
| `R600ControlFlowFinalizer.BlockLowering.LowerContinue` | lib/Target/R600/R600ControlFlowFinalizer.cpp:230-238 | the new state is `ContinueArm` of the old one |
| `R600ControlFlowFinalizer.FinalizeBlock` | lib/Target/R600/R600ControlFlowFinalizer.cpp:120-245 | the block loop followed by the STACK_SIZE insertion gives `FinalizedBlock` |
| `R600ControlFlowFinalizer.FinalizeBlocks` | lib/Target/R600/R600ControlFlowFinalizer.cpp:115-247 | the loop over the blocks, with CurrentStack and MaxStack starting at 0 and carried along, gives `FinalizedFunction` |
| `R600ControlFlowFinalizer.ControlFlowFinalizer.constructor` | lib/Target/R600/R600ControlFlowFinalizer.cpp:105-113 | MaxFetchInst is chosen from the generation |
| `R600ControlFlowFinalizer.ControlFlowFinalizer.RunOnMachineFunction` | lib/Target/R600/R600ControlFlowFinalizer.cpp:115-249 | the function's blocks become `FinalizedFunction` of the old ones, and the result is false |
| `R600LoweringProofs.InstOps` | lib/Target/R600/R600ControlFlowFinalizer.cpp:139-241 | each arm keeps the opcodes already emitted and appends its native opcodes; CfCount grows by 1 for CF_ALU, CF_ALU_PUSH_BEFORE, WHILELOOP, ENDLOOP, IF_PREDICATE_SET, ELSE, ENDIF and CONTINUE, by 3 for PREDICATED_BREAK, and by 0 otherwise |
| `R600LoweringProofs.FetchClauseSlots` | lib/Target/R600/R600ControlFlowFinalizer.cpp:131-136 | a fetch clause adds one slot and CfCount + 1 |
| `R600LoweringProofs.RestSlots` | lib/Target/R600/R600ControlFlowFinalizer.cpp:130-242 | over a walk, the slots emitted grow by the CfCount growth plus the native control-flow instructions met in the input |
| `R600LoweringProofs.BlockSlots` | lib/Target/R600/R600ControlFlowFinalizer.cpp:121-242 | in a block with no native control-flow instruction of its own, the final CfCount is the number of slots emitted, CF_CALL_FS included |
| `R600LoweringProofs.InstStack` | lib/Target/R600/R600ControlFlowFinalizer.cpp:142-229 | after each arm, MaxStack is the larger of its old value and the new CurrentStack, so it never decreases and stays at or above CurrentStack |
| `R600LoweringProofs.RestStack` | lib/Target/R600/R600ControlFlowFinalizer.cpp:130-242 | over a walk, MaxStack ends as the larger of its start and the high-water mark of CurrentStack |
| `R600LoweringProofs.BlockStack` | lib/Target/R600/R600ControlFlowFinalizer.cpp:116-245 | a block's STACK_SIZE is the larger of MaxStack on entry and the block's high-water mark |
| `R600LoweringProofs.RestOpsPrefix` | lib/Target/R600/R600ControlFlowFinalizer.cpp:130-242 | the walk never changes the opcode of an instruction already emitted |
| `R600LoweringProofs.BlockLayout` | lib/Target/R600/R600ControlFlowFinalizer.cpp:125-245 | STACK_SIZE is the first instruction of a finished block, and CF_CALL_FS comes right after it for shader type 1 |
| `R600LoweringProofs.FunctionStackSizes` | lib/Target/R600/R600ControlFlowFinalizer.cpp:115-247 | block k starts with STACK_SIZE carrying MaxStack so far over blocks 0 to k of the function |
| `R600LoweringProofs.StackSizesNondecreasing` | lib/Target/R600/R600ControlFlowFinalizer.cpp:115-247 | STACK_SIZE never decreases from one block to the next |
| `R600BackPatch.StartCoherent` | lib/Target/R600/R600ControlFlowFinalizer.cpp:121-123 | a block's walk starts with no pending placeholder |
| `R600BackPatch.WhileLoopOpens` | lib/Target/R600/R600ControlFlowFinalizer.cpp:149-162 | WHILE_LOOP 2 is appended, and it is the only member of the new frame's patch set |
| `R600BackPatch.IfOpens` | lib/Target/R600/R600ControlFlowFinalizer.cpp:175-185 | CF_JUMP 0 0 is appended and pushed on the if/else stack |
| `R600BackPatch.BreakEmits` | lib/Target/R600/R600ControlFlowFinalizer.cpp:214-229 | at CfCount c: CF_JUMP c+3 1, LOOP_BREAK 0, POP c+3 1 in that order; CfCount c+3; the LOOP_BREAK joins the innermost loop's patch set |
| `R600BackPatch.ContinueRegisters` | lib/Target/R600/R600ControlFlowFinalizer.cpp:230-238 | CF_CONTINUE 0 is appended and joins the innermost loop's patch set |
| `R600BackPatch.EndLoopResolves` | lib/Target/R600/R600ControlFlowFinalizer.cpp:163-174 | ENDLOOP at CfCount c: the loop's WHILE_LOOP becomes c+2, its LOOP_BREAKs and CF_CONTINUEs become c, END_LOOP carries the loop's start + 1, nothing else changes, and the frame is popped |
| `R600BackPatch.ResolveEntry` | lib/Target/R600/R600ControlFlowFinalizer.cpp:93-95 | CounterPropagateAddr on a pending loop placeholder gives WHILE_LOOP c+2, LOOP_BREAK c or CF_CONTINUE c |
| `R600BackPatch.ResolveFrame` | lib/Target/R600/R600ControlFlowFinalizer.cpp:96-103 | patching a frame resolves exactly its members |
| `R600BackPatch.ElseResolves` | lib/Target/R600/R600ControlFlowFinalizer.cpp:186-199 | ELSE at CfCount c: the pending CF_JUMP becomes CF_JUMP c 0 (a pending CF_ELSE becomes CF_ELSE c 1); CF_ELSE 0 1 is appended and replaces it on the stack; nothing else changes |
| `R600BackPatch.EndIfResolves` | lib/Target/R600/R600ControlFlowFinalizer.cpp:200-213 | ENDIF at CfCount c: the pending CF_JUMP or CF_ELSE gets c; POP c+1 1 is appended; the entry is popped; nothing else changes |
| `R600BackPatch.InstCoherent` | lib/Target/R600/R600ControlFlowFinalizer.cpp:139-241 | every arm of the switch keeps each pending index on an unresolved placeholder, with none pending twice |
| `R600BackPatch.RestCoherent` | lib/Target/R600/R600ControlFlowFinalizer.cpp:130-242 | that invariant holds all along the walk, so each closing arm resolves as stated above |
| `R600BackPatch.BlockCoherent` | lib/Target/R600/R600ControlFlowFinalizer.cpp:120-242 | a whole block's walk ends with the invariant |
| `R600Resolution.RestTracked` | lib/Target/R600/R600ControlFlowFinalizer.cpp:130-242 | along the walk, every placeholder emitted so far lies in the block, every pending index is one of them, and every one of them still unresolved is pending |
| `R600Resolution.UnresolvedArePending` | lib/Target/R600/R600ControlFlowFinalizer.cpp:139-241 | together with the back-patch invariant: the placeholders emitted and not yet resolved are exactly the union of the loop patch sets and the if/else stack |
| `R600Resolution.BlockResolved` | lib/Target/R600/R600ControlFlowFinalizer.cpp:120-242 | at the end of a block, the unresolved placeholders are exactly the pending ones; when the block's markers leave both stacks empty, every placeholder has been resolved |
| `Internalize.ShouldInternalizeCases` | lib/Transforms/IPO/Internalize.cpp:125-127 | `ShouldInternalize` rejects a declaration, a symbol already internal and a symbol with a preserved name, and accepts every other symbol |
| `Internalize.Internalized` | lib/Transforms/IPO/Internalize.cpp:124-134 | a symbol's linkage changes exactly when it is defined, not internal and not preserved, and then it becomes internal; name and declaration never change |
| `Internalize.InternalizedAll` | lib/Transforms/IPO/Internalize.cpp:124-134 | the list keeps its length and order, and each symbol gets that test |
| `Internalize.GetFunction` | lib/Transforms/IPO/Internalize.cpp:113 | the lookup finds the first function with the name, and fails exactly when there is none |
| `Internalize.RunOnModuleSpec` | lib/Transforms/IPO/Internalize.cpp:101-174 | the preserved set only grows |
| `Internalize.NoNamesNoChange` | lib/Transforms/IPO/Internalize.cpp:105-108 | no preserved names and not "all but main": false, nothing changes |
| `Internalize.NoMainNoChange` | lib/Transforms/IPO/Internalize.cpp:109-115 | "all but main" with no preserved names, and main absent or only declared: false, nothing changes |
| `Internalize.MainPreserved` | lib/Transforms/IPO/Internalize.cpp:113-118 | "all but main" with main defined: main keeps its linkage and becomes the preserved name, along with the reserved names |
| `Internalize.FunctionRule` | lib/Transforms/IPO/Internalize.cpp:123-134 | a function becomes internal exactly when the pass proceeds and the function is defined, not internal, and not preserved before the reserved names are added; every other function is left as it was |
| `Internalize.GlobalRule` | lib/Transforms/IPO/Internalize.cpp:136-160 | global variables follow the same rule against the preserved set plus the eight reserved names, so a reserved name keeps its global |
| `Internalize.AliasRule` | lib/Transforms/IPO/Internalize.cpp:162-171 | aliases follow the same rule as global variables |
| `Internalize.ChangedIff` | lib/Transforms/IPO/Internalize.cpp:121-173 | the result is true exactly when some function, global or alias changed linkage |
| `Internalize.SecondRunNoChange` | lib/Transforms/IPO/Internalize.cpp:101-174 | running the pass again on its own output and preserved set changes nothing and returns false |
| `Internalize.LlvmUsedFunctionVsGlobal` | lib/Transforms/IPO/Internalize.cpp:123-160 | with "foo" preserved, a defined function named llvm.used is internalized, and in a second module a global variable of that name is not |
| `Internalize.InternalizeList` | lib/Transforms/IPO/Internalize.cpp:124-134 | the loop gives `InternalizedAll`, and its flag is true exactly when some symbol passed the test |
| `Internalize.InternalizePass.constructor` | lib/Transforms/IPO/Internalize.cpp:69-75 | the mode as given; the preserved set is exactly the API list |
| `Internalize.InternalizePass.FromExportList` | lib/Transforms/IPO/Internalize.cpp:77-83 | not "all but main"; the preserved set is exactly the export list |
| `Internalize.InternalizePass.RunOnModule` | lib/Transforms/IPO/Internalize.cpp:101-174 | the module, the preserved set and the result become those of `RunOnModuleSpec` |

## Left out

- LLVM's instruction-list API (`BuildMI`, `findDebugLoc`, `TII->get`, `eraseFromParent`, block iterators) is modelled as splices of a sequence of instructions. An iterator is an index, and a `MachineInstr *` held on a stack is the index of that instruction in the emitted part of the block.
- The subtarget query is not modelled: the constructor takes the device generation as an integer, with HD4XXX as ordinal 0 and later generations larger.
- `R600MachineFunctionInfo` is reduced to its shader type, a field of `MachineFunction`.
- `DEBUG`/`dbgs()`/`dump`, `DOUT` and the `STATISTIC` counters are left out; they only log.
- Pass registration, `getPassName`, `getAnalysisUsage` and the `create*` factories are left out; they are boilerplate.
- Popping an empty loop or if/else stack is undefined behaviour in the code. It is excluded by the precondition `WellNested` (and `FunctionWellNested` for a whole function), not modelled.
- `CurrentStack` is `unsigned`, so decrementing it below zero wraps around modulo 2^32. That is defined behaviour, but it is not modelled: `WellNested` also excludes it. For example, IF_PREDICATE_SET, ENDIF, IF_PREDICATE_SET, ENDIF, CF_ALU_PUSH_BEFORE would give STACK_SIZE 4294967295 in the code.
- Integers are unbounded. `CfCount` and `MaxStack` are `unsigned` and immediates are 64-bit in the code. Their wrap-around is not modelled; counting up past 2^32 takes more than a billion instructions in one function.
- `CounterPropagateAddrSet` iterates a `std::set` of pointers in address order. The model takes the members in any order; the result is the same, since each member is patched once.
- `R600LoweringProofs.BlockSlots`: the slot count equals `CfCount` only for blocks that contain no native control-flow instruction of their own. The pass keeps such instructions without counting them, which `RestSlots` states in general.
- `CurrentStack` need not be 0 at the end of a block, because `IF_PREDICATE_SET` does not increment it while `ENDIF` decrements it.
- `InternalizePass::LoadFile` and the `internalize-public-api-file` option are left out; they are file I/O. The default constructor takes the contents of `internalize-public-api-list` as a parameter. Its `AllButMain` argument defaults to true (lib/Transforms/IPO/Internalize.cpp:53); the model takes it as an explicit parameter.
- The removal of call-graph edges (`removeOneAbstractEdgeTo`) is left out; it calls into an analysis that is not part of this model.
- `Internalize.GetFunction`: `Module::getFunction` is modelled as the first function with the name. LLVM keeps symbol names unique within a module, so this is the only one.
- `Internalize.InternalizePass.RunOnModule` inserts the eight reserved names as one set union rather than eight inserts; the resulting set is the same.

# Verification of the SML/NJ code generator and of tools in llvm/utils

This project models, in Dafny, the SML/NJ code generator (`smlnj/`) and a number of self-contained
algorithms from the Python tools in `llvm/utils`, and proves properties of the model. All files are
checked together: `dafny verify dfyconfig.toml`.

## The code generator

A cluster of CPS fragments is compiled to one function in SSA form.

- `machine.dfy`, `cfg.dfy`: target layouts (which of the five CMachine registers live in hardware and
  which in the stack frame), words, memory, and the CFG with its meaning: one mutable register file, one
  memory, an environment for each fragment.
- `ir.dfy`: blocks, phi nodes, instructions, terminators, and what executing them does. Phi nodes are
  parallel copies on an edge; reading a temporary that was never set is an error, not a value. The operators
  themselves are shared with the CFG and not looked into.
- `codegen.dfy`: what every step of code generation appends, as functions on the generator's state.
- `context.dfy`, `registers.dfy`, `build.dfy`: the generator as it is written, with a context, register
  tables and register states that are updated in place. Every method is proved to change the state as the
  functions prescribe; `CodegenCluster` produces the function `GenCluster`.
- `straight.dfy`, `effects.dfy`, `invariants.dfy`, `structure.dfy`, `simulate.dfy`, `preserve.dfy`,
  `meaning.dfy`, `fragments.dfy`, `cluster.dfy`, `overflow.dfy`, `preservation.dfy`: the structural invariant of the
  function under construction, and the simulation up to the main theorems, `GenClusterValid`,
  `OneRaises` and `MeaningPreserved`.
- `program.dfy`: clusters that call one another; `ProgramPreserved` composes the meaning of whole runs.
- `types.dfy`, `emission.dfy`, `flow.dfy`, `typing.dfy`: the types of phi nodes and refused conversions. A pass
  over the source says exactly when all values passed to phi nodes fit, and when no conversion is refused.
- `ssa.dfy`, `dominance.dfy`, `ssaform.dfy`: the function is in SSA form: each temporary is set in one place, which
  is on every path to its uses.
- `alloc.dfy`: the heap discipline between two collections: bump allocation, the limit test, alignment by
  a bitwise or, and the store list. `heap.dfy` shows that this is what fragments do between collections.

The theorems hold for clusters that are `WellFormed`: variables are bound once in a fragment, uses are in
scope, labels exist, jumps and calls have the arity of their target, and what is thrown to is a continuation.
The code generator asserts some of this and relies on all of it; `RebindingDiffers` shows what happens otherwise.

What the code does and one might not expect is kept as it is. The allocation pointer moves
past a raw record by as many words as its fields have bytes, because the offset is passed to an overload of
`createGEP` that counts words (`smlnj/lib-codegen/cfg-prim-codegen.cpp:106` and
`smlnj/include/context.hpp:718-721`); `RawRecordBump` says exactly when the bump is right. The second loop
over `_hwRegs` (`smlnj/lib-codegen/cm-registers.cpp:60-62`) is never entered, so that entries past the last
hardware register are not set. The heap-limit test adds without regard to the end of the address space;
`LimitExact` says exactly when it is right all the same. An overflow check passes registers on without
converting them; `PhiTypes` says exactly when their types are right. Only pointers and integers are converted to
each other; at any other conversion, such as between integers of different sizes, the original stops with a
failing assertion (`smlnj/lib-codegen/context.cpp:651-668`, `smlnj/include/context.hpp:233-248`). The model marks
such a conversion and goes on with the value as it is, so that preservation holds for these clusters as well, in
which the original has no meaning to preserve; `NothingRefusedIff` says exactly for which clusters none is refused.
The length of a raw object is not rounded to whole words, so that later objects can miss their alignment;
`AlignedIffPhase` says exactly which.

## The object file, pickles, and the tools

- `sections.dfy`: the section allocator of the in-memory object file. Requests up to the alignment of the
  base are not always aligned; `AlignedIff` gives the exact condition, `Misaligned` an example.
- `integer.dfy`, `asdl.dfy`: pickled integers and strings. The conversion to 32 bits fails for integers
  with leading zero digits even if they fit; `FitsButRejected` says exactly when, `LeadingZeros` gives an example.
- `pipeline.dfy`, `reduce.dfy`: the pipeline parser, printer and tree operations, and the reducer over an
  oracle for `opt`. Elements without a kind count as passes, whatever is inside; only the printer fails on them.
- `casefold.dfy`: the generator of the case folding function (section 3.13 of the Unicode Standard), with the
  meaning of the C++ statements that it emits.
- `deps.dfy`, `abtest.dfy`, `demangle.dfy`, `mca.dfy`: topological sorting and ancestors, the two searches
  for bad choices, chunked processing of directories, and the alignment of matching blocks. `Go` says exactly
  when the run over directories is cut short by a missing key, `CurrentDirectory` gives an example.
- `arith.dfy`: facts about division, powers of two and shifts.

## Model

Methods state what they compute or how they change the state by way of specification functions of the same
module; the lemmas state what these functions mean. Members of several modules are qualified by the module.

| member | source | states |
|---|---|---|
| `Preservation.MeaningPreserved` | smlnj/lib-codegen/cfg-codegen.cpp:126-463 | For every well-formed cluster, every register layout and every call, the generated function finishes exactly when the CFG does, with the same callee, arguments, register file and memory (or the same overflow or impossible switch), and no execution ever reads a temporary that was not set or follows an edge without phi values |
| `Preservation.PairedAll` | smlnj/lib-codegen/cfg-codegen.cpp:273-305 | After any number of fragments the generated function has kept pace: it is about to execute the same fragment with the same arguments, registers and memory, or has finished alike |
| `Preservation.FragOK` | smlnj/lib-codegen/cfg-codegen.cpp:426-441 | Executing the blocks of one fragment does what its body does, from an entry with the right phi nodes on |
| `Preservation.FragSim` | smlnj/lib-codegen/context.cpp:366-457 | At the start of each fragment the arguments or phi nodes represent the register file and the parameters |
| `Preservation.RebindingDiffers` | smlnj/include/context.hpp:369-373 | A call of a function that binds a variable twice: the CFG ends with the second value as argument, the generated function with the first; so preservation needs unique binding |
| `Programs.LinksAgree` | smlnj/lib-codegen/cfg-codegen.cpp:171-271 | In the CFG, a call of one cluster ends with a call of another if and only if the generated function does, with the same registers, unused values, arguments and memory |
| `Programs.NextCallUnique` | smlnj/lib-codegen/cfg-codegen.cpp:171-271 | The generated code determines which cluster of the program is called next, and with what |
| `Programs.TracesAgree` | smlnj/lib-codegen/cfg-codegen.cpp:171-271 | A sequence of calls, of any length, is one that the CFG makes if and only if the generated code makes it |
| `Programs.ProgramPreserved` | smlnj/lib-codegen/cfg-codegen.cpp:446-463 | Over any number of calls, the generated code of a program passes through the same calls as the CFG, ends with the same outcome after the same calls, and never gets stuck |
| `Programs.DirectCallPasses` | smlnj/lib-codegen/cfg-codegen.cpp:171-271 | APPLY and THROW to a label reach the entry of the labelled cluster, under its own calling convention and with as many arguments as it has parameters |
| `Typing.PhiTypes` | smlnj/lib-codegen/overflow.cpp:27-76 | In the blocks that do not raise Overflow, all incoming values have the types of their phi nodes if and only if every jump, along any path through a fragment, passes values that can be converted; in the overflow block, if and only if every overflow check finds pointers in the hardware registers; both conditions are read off the source |
| `Typing.NothingRefusedIff` | smlnj/lib-codegen/context.cpp:651-668 | The code generator gets through without a refused conversion if and only if every conversion that the source asks for, at jumps, calls or uses as a pointer, along any path through a fragment, is between pointers and integers or equal types |
| `Typing.UnrefusedTyped` | smlnj/lib-codegen/cfg-codegen.cpp:288-300 | Where no conversion is refused, all values have the types of their phi nodes if and only if the overflow checks find pointers |
| `Typing.GenStmTypes` | smlnj/lib-codegen/cfg-codegen.cpp:126-416 | The types of generated values, whether all phi nodes are typed, and whether a conversion was refused, are what a pass over the statement computes |
| `Typing.GotoTypes` | smlnj/lib-codegen/cfg-codegen.cpp:288-300 | The values that a GOTO passes have the types of the phi nodes, and no conversion of them is refused, if and only if each has the type already, is an integer for a pointer, or a pointer for an integer |
| `Typing.WideJumpRefused` | smlnj/lib-codegen/context.cpp:651-668 | A well-formed cluster without overflow checks that passes an integer of sz bits to a parameter of 64: a conversion is refused, and the types are wrong, if and only if sz is not 64 |
| `Typing.IntegerHandler` | smlnj/lib-codegen/cfg-prim-codegen.cpp:516-520 | An integer as exception handler, followed by an overflow check: the cluster is well-formed and no conversion is refused, but the generated function is not typed; with a label as handler it is |
| `SSAForm.SingleAssignment` | smlnj/lib-codegen/cfg-codegen.cpp:446-463 | Every temporary of the generated function is set by one phi node or instruction only |
| `SSAForm.DefinitionsDominate` | smlnj/lib-codegen/cfg-codegen.cpp:446-463 | Along every path from the entry a block uses only temporaries that were set in an earlier block of the path or earlier in the block itself, and what comes into its phi nodes was set on the path before |
| `SSAForm.GenStmSound` | smlnj/lib-codegen/cfg-codegen.cpp:126-416 | Generating a statement keeps both: each temporary is set once, and what is known at the start of each block is supplied by every edge into it, after any nesting of arms, which share one variable map |
| `Emission.ExpGoes` | smlnj/lib-codegen/cfg-codegen.cpp:62-122 | The code of an expression uses only temporaries that are known, sets new ones in ascending order, and refuses a conversion if and only if the source asks for a wrong one |
| `ClusterGen.GenClusterValid` | smlnj/lib-codegen/cfg-codegen.cpp:446-463 | In the generated function every block ends, every jump has a target, and every phi node has exactly one value for each edge into its block and no other |
| `SharedOverflow.OneRaises` | smlnj/lib-codegen/overflow.cpp:27-76 | All overflow checks of a cluster share one block: any block that raises Overflow is that block, which has a phi node for each hardware register, passes these on and does nothing else |
| `SharedOverflow.GenStmOnce` | smlnj/lib-codegen/overflow.cpp:32-66 | Generating a statement, with any number of checked operators in it, makes at most one overflow block |
| `ClusterGen.OneOverflowBlock` | smlnj/lib-codegen/overflow.cpp:32-66 | The remembered overflow block has the form just described |
| `ClusterGen.GenFragsInv` | smlnj/lib-codegen/cfg-init.cpp:118-157 | Before each fragment its blocks are as initialisation left them up to incoming phi values, and all blocks of earlier fragments have ended |
| `Fragments.GenStmOK` | smlnj/lib-codegen/cfg-codegen.cpp:126-416 | From a state that represents a CFG state, the code of a statement ends as executing the statement does, after any nesting of branches and switches |
| `Structure.GenStmInv` | smlnj/lib-codegen/cfg-codegen.cpp:126-416 | Generating a statement keeps the structural invariant: it ends exactly the open block and the blocks numbered for its arms, and keeps one phi value for each edge |
| `Structure.InitStmKeeps` | smlnj/lib-codegen/cfg-init.cpp:37-110 | Numbering the blocks of a statement's arms does not change what the statement does |
| `Meaning.CheckedOK` | smlnj/lib-codegen/cfg-prim-codegen.cpp:154-203 | A checked operator goes on with the result when there is no overflow, and otherwise reaches the overflow block with the registers that are current at that site |
| `Meaning.OverflowBlockOK` | smlnj/lib-codegen/overflow.cpp:27-76 | Whatever site jumps to it, the overflow block raises Overflow with the register file of that site |
| `Preserve.GotoOK` | smlnj/lib-codegen/cfg-codegen.cpp:273-305 | A GOTO enters its target with the current hardware registers and the evaluated arguments in the phi nodes, although casts come in between |
| `Preserve.SwitchOK` | smlnj/lib-codegen/cfg-codegen.cpp:307-331 | A SWITCH enters the arm that the low 32 bits of its argument select, and the unreachable block when there is none |
| `Preserve.CallOK` | smlnj/lib-codegen/cfg-codegen.cpp:149-221 | APPLY and THROW call with hardware registers, unused registers and arguments in their positions |
| `Preserve.GCStmOK` | smlnj/lib-codegen/context.cpp:599-634 | After a collection all registers, in hardware or on the stack, and all roots have the collector's new values |
| `Effects.GenAllocOK` | smlnj/lib-codegen/cfg-prim-codegen.cpp:39-149 | The emitted code for each kind of allocation leaves the object, allocation pointer and memory that the CFG prescribes |
| `Effects.GenSetterOK` | smlnj/lib-codegen/cfg-prim-codegen.cpp:439-526 | The emitted code for each assignment leaves the memory, store list and registers that the CFG prescribes |
| `Effects.LimitOK` | smlnj/lib-codegen/cfg-prim-codegen.cpp:604-620 | The emitted heap-limit test computes whether the limit is reached |
| `Straight.GenExpOK` | smlnj/lib-codegen/cfg-codegen.cpp:62-122 | The code of an expression yields its value and changes no register, no memory and no block but its own |
| `Machine.GatherSplit` | smlnj/lib-codegen/cm-registers.cpp:33-65 | Splitting a register file into hardware arguments and stack slots, and putting these together again, loses nothing, for every layout |
| `Machine.HwIndexed` | smlnj/lib-codegen/cm-registers.cpp:52-63 | Counting hardware registers while scanning all registers finds the same position as the table of hardware registers |
| `Machine.StackStore` | smlnj/lib-codegen/context.cpp:558-568 | Storing into the slot of a stack register assigns that register and no other |
| `Registers.CMRegs.constructor` | smlnj/lib-codegen/cm-registers.cpp:33-65 | The loops fill the register tables as the target says |
| `Registers.CMRegState.CopyFrom` | smlnj/lib-codegen/cm-registers.cpp:78-85 | The copy holds the same values, element by element |
| `Contexts.Context.constructor` | smlnj/lib-codegen/cm-registers.cpp:69-76 | At first no block exists, no variable is bound and no register has a value |
| `Contexts.Context.GetReg` | smlnj/include/context.hpp:142-150 | Reads the symbolic value of a register, or emits a load of its stack slot when it has none |
| `Contexts.Context.SetReg` | smlnj/include/context.hpp:153-161 | Changes the symbolic value, or emits a store to the stack slot; nothing else changes |
| `Contexts.Context.Insert` | smlnj/include/context.hpp:369-373 | Adds a binding unless the variable has one already |
| `Contexts.Context.CastTy` | smlnj/lib-codegen/context.cpp:651-668 | Emits a conversion of an integer to a pointer or of a pointer to an integer, and marks any other one as refused |
| `Contexts.Context.CodegenExp` | smlnj/lib-codegen/cfg-codegen.cpp:62-122 | Emits the code that GenExp prescribes into the current block, and leaves everything else alone |
| `Contexts.Context.CreateRecord` | smlnj/lib-codegen/context.cpp:572-597 | Emits the code of AllocRecord: descriptor, fields, object, bump |
| `Contexts.Context.CreateRawRecord` | smlnj/lib-codegen/cfg-prim-codegen.cpp:54-110 | Emits the stores of all fields at their aligned byte offsets, and the bump, which counts words |
| `Contexts.Context.CreateRaw` | smlnj/lib-codegen/cfg-prim-codegen.cpp:112-149 | Emits the alignment, the tag if there is one, the object and the bump |
| `Contexts.Context.RecordStorePtr` | smlnj/lib-codegen/cfg-prim-codegen.cpp:439-453 | Emits the push onto the store list |
| `Contexts.Context.CodegenSetter` | smlnj/lib-codegen/cfg-prim-codegen.cpp:455-526 | Emits the code that GenSetter prescribes for each assignment |
| `Contexts.Context.CodegenLimit` | smlnj/lib-codegen/cfg-prim-codegen.cpp:604-620 | Emits the comparison with the limit, with the excess over the slop added first |
| `Contexts.Context.GetOverflowBB` | smlnj/lib-codegen/overflow.cpp:27-76 | Makes the overflow block on first use, restores the insertion point, and adds the current registers to its phi nodes |
| `Contexts.Context.CodegenArith` | smlnj/lib-codegen/cfg-prim-codegen.cpp:154-203 | Emits the operation, the branch to the shared overflow block and the block that goes on |
| `Contexts.Context.CallGC` | smlnj/lib-codegen/context.cpp:599-634 | Emits the call, restores the registers from its results and binds the new roots |
| `Contexts.Context.CodegenGoto` | smlnj/lib-codegen/cfg-codegen.cpp:273-305 | Evaluates the arguments, adds each to its phi node, with a cast in the source block where types differ, one that castTy refuses being marked, and ends the block |
| `Contexts.Context.CodegenSwitch` | smlnj/lib-codegen/cfg-codegen.cpp:307-331 | Emits the truncation and the switch, whose default is a block marked unreachable |
| `Contexts.Context.CodegenArms` | smlnj/lib-codegen/cfg-codegen.cpp:333-340 | Generates every arm from the register state saved at the switch |
| `Contexts.Context.CodegenBranch` | smlnj/lib-codegen/cfg-codegen.cpp:344-375 | Generates both arms from the register state at the split, although the first changes it in place |
| `Contexts.Context.CodegenApply` | smlnj/lib-codegen/cfg-codegen.cpp:171-221 | Ends the block with the call that GenApply prescribes |
| `Contexts.Context.CodegenThrow` | smlnj/lib-codegen/cfg-codegen.cpp:223-271 | Ends the block with the call that GenThrow prescribes |
| `Contexts.Context.CodegenStm` | smlnj/lib-codegen/cfg-codegen.cpp:126-416 | The whole new state of the context is what GenStm prescribes |
| `ClusterCodegen.InitializeStm` | smlnj/lib-codegen/cfg-init.cpp:16-110 | Makes one block for each arm, in the order of the text, and records their numbers |
| `ClusterCodegen.InitializeFrag` | smlnj/lib-codegen/cfg-init.cpp:120-157 | Enters the fragment into the map (the first of a label wins), and makes its blocks and phi nodes |
| `ClusterCodegen.SetupStdEntry` | smlnj/lib-codegen/context.cpp:366-432 | Makes registers and parameters of the first fragment arguments of the function, past the unused ones |
| `ClusterCodegen.SetupFragEntry` | smlnj/lib-codegen/context.cpp:434-457 | Makes hardware registers and parameters of any other fragment its phi nodes |
| `ClusterCodegen.CodegenFrag` | smlnj/lib-codegen/cfg-codegen.cpp:426-441 | Takes the context from the state before the k-th fragment to the state before the next |
| `ClusterCodegen.CodegenCluster` | smlnj/lib-codegen/cfg-codegen.cpp:446-463 | Whatever was generated before, the blocks in the end are the function of the cluster, and a valid function |
| `Allocation.HeapSafe` | smlnj/lib-codegen/cfg-prim-codegen.cpp:604-620 | When the limit test for amt is negative and its sum meaningful, operations that allocate amt bytes in all stay below the limit plus the slop, and nothing changes but what they allocate and assign to |
| `Allocation.LimitExact` | smlnj/lib-codegen/cfg-prim-codegen.cpp:604-620 | The test passes exactly the requests that fit, that is end within the slop past the limit (a request below the slop counts as the slop), if and only if its sum does not wrap around, or wraps around to more than the limit |
| `Allocation.LimitWraps` | smlnj/lib-codegen/cfg-prim-codegen.cpp:608-613 | Aligned pointer and limit in the last words of the address space, and a request of a word more than the slop: the sum wraps around and the test passes although the request does not fit |
| `Allocation.ObjectsDisjoint` | smlnj/lib-codegen/context.cpp:572-597 | What any two operations of a run allocate is disjoint, and in the order of their addresses |
| `Allocation.ContentsSurvive` | smlnj/lib-codegen/context.cpp:572-597 | What an operation has put into its object stays until something is assigned there |
| `Allocation.NewInitialised` | smlnj/lib-codegen/cfg-prim-codegen.cpp:39-149 | A new object holds its descriptor and every field at its offset |
| `Allocation.StepFrame` | smlnj/lib-codegen/cfg-prim-codegen.cpp:39-149 | An operation moves the allocation pointer by its bump and touches nothing but its own memory and the address it assigns to |
| `Allocation.OffsetsAscend` | smlnj/lib-codegen/cfg-prim-codegen.cpp:74-104 | Every field of a raw record is aligned to its size and lies behind the fields before it |
| `Allocation.RawRecordBump` | smlnj/lib-codegen/cfg-prim-codegen.cpp:105-106 | The bump of a raw record is exact if and only if it has no fields; otherwise it leaves a gap of one byte less than a word for each byte of fields |
| `Allocation.RawRecordExample` | smlnj/lib-codegen/cfg-prim-codegen.cpp:105-106 | A record of one 64-bit number takes 64 bytes of fields instead of 8 |
| `Allocation.AlignedObject` | smlnj/lib-codegen/cfg-prim-codegen.cpp:118-125 | For a power of two above the word size, the bitwise or puts the object on such a boundary if and only if the allocation pointer was a multiple of the word, and then on the first at which it fits |
| `Allocation.AlignedIffPhase` | smlnj/lib-codegen/cfg-prim-codegen.cpp:112-149 | Wherever in a run it is allocated, an object that asks for an alignment gets it if and only if the operations before left the allocation pointer on a multiple of the word, starting from any remainder |
| `Allocation.ApPhase` | smlnj/lib-codegen/cfg-prim-codegen.cpp:139-149 | The allocation pointer modulo the word, after any operations, is its start changed only by raw objects: by their length, which is not rounded, and by the bits that an alignment sets |
| `Allocation.AlignedIffWholeWords` | smlnj/lib-codegen/cfg-prim-codegen.cpp:112-149 | For alignments by multiples of the word that is: if and only if the start and the lengths of all raw objects before add up to whole words |
| `Allocation.NineBytes` | smlnj/lib-codegen/cfg-prim-codegen.cpp:112-149 | A tagless object of 9 bytes makes the next object miss its boundary of 16, from every start on a multiple of the word |
| `Allocation.ObjectsAligned` | smlnj/lib-codegen/cfg-prim-codegen.cpp:118-125 | So where raw objects have whole words, every object that asks for an alignment is on the first such boundary at which it fits |
| `Allocation.OrMask` | smlnj/lib-codegen/cfg-prim-codegen.cpp:118-125 | Or-ing bits j to k - 1 into a multiple of 2^j |
| `Allocation.StoreListComplete` | smlnj/lib-codegen/cfg-prim-codegen.cpp:439-486 | Walking the list from the store pointer yields exactly the addresses of all logged assignments, newest first, in front of the list from before |
| `Allocation.CellsKept` | smlnj/lib-codegen/cfg-prim-codegen.cpp:439-486 | No allocation and no assignment to an object changes a cell of the list |
| `Allocation.ObjectsAreNotCells` | smlnj/lib-codegen/cfg-prim-codegen.cpp:439-453 | No list cell is part of an object |
| `FragmentHeap.AdvanceOK` | smlnj/lib-codegen/cfg-codegen.cpp:126-416 | Executing a fragment's body up to the next collection or its end does to registers and memory what its allocations and assignments do in the order of the executed path, and the rest of the execution follows from there |
| `FragmentHeap.CheckedPieceSafe` | smlnj/lib-codegen/cfg-codegen.cpp:344-375 | Behind a heap-limit branch that is not taken, what the fragment does up to the next collection stays below the limit plus the slop, if it allocates no more than was checked for |
| `FragmentHeap.PieceLogged` | smlnj/lib-codegen/cfg-prim-codegen.cpp:439-486 | When the collector is called, or the fragment ends, the store list has exactly the addresses of the assignments logged since, newest first |
| `Pipelines.Parse` | llvm/utils/pipeline.py:5-33 | The stack machine computes FromStr; a closing parenthesis without an opening one is an error |
| `Pipelines.Print` | llvm/utils/pipeline.py:36-49 | The recursive printer computes ToStr; it fails if and only if something without a kind is not a name |
| `Pipelines.ReadBack` | llvm/utils/pipeline.py:5-49 | Reading back what was printed gives the same pipeline, empty managers included |
| `Pipelines.PrintedExactly` | llvm/utils/pipeline.py:5-49 | Exactly the strings that are balanced and have no forbidden pair of adjacent characters survive reading and printing |
| `Pipelines.ReadNamed` | llvm/utils/pipeline.py:5-49 | What was read can be printed if and only if all names in it are nonempty and without delimiters |
| `Pipelines.CountPasses` | llvm/utils/pipeline.py:52-60 | The loop computes Count |
| `Pipelines.CountLeaves` | llvm/utils/pipeline.py:52-60 | The count is the number of passes, managers excluded |
| `Pipelines.Split` | llvm/utils/pipeline.py:63-85 | Returns the halves that SplitFrom prescribes |
| `Pipelines.SplitLeaves` | llvm/utils/pipeline.py:63-85 | The halves have the first min(i + 1, count) passes and the rest, each pass inside the same managers, and both keep all managers; elements without a kind count as passes |
| `Pipelines.Remove` | llvm/utils/pipeline.py:88-105 | Returns what RemoveFrom prescribes |
| `Pipelines.RemoveLeaves` | llvm/utils/pipeline.py:88-105 | Exactly pass i goes, if there is one, and no manager does |
| `Pipelines.Copy` | llvm/utils/pipeline.py:108-122 | Returns what Copied prescribes |
| `Pipelines.CopySame` | llvm/utils/pipeline.py:108-122 | A copy has the same passes and managers, and is equal if and only if no empty kind is visible, which a copy turns into no kind |
| `Pipelines.Prune` | llvm/utils/pipeline.py:125-140 | Returns what Pruned prescribes |
| `Pipelines.PruneLeaves` | llvm/utils/pipeline.py:125-140 | Pruning keeps all passes and their managers, and leaves no empty manager |
| `Pipelines.PruneFixed` | llvm/utils/pipeline.py:125-140 | Exactly the pipelines without empty managers and empty kinds are left as they are, and pruning is idempotent |
| `Reducer.SplitFront` | llvm/utils/reduce_pipeline.py:115-155 | The remaining pipeline reproduces the error on the intermediate file that is kept, because the two files alternate |
| `Reducer.DropBack` | llvm/utils/reduce_pipeline.py:160-180 | The remaining pipeline reproduces the error |
| `Reducer.Sweep` | llvm/utils/reduce_pipeline.py:186-207 | Sweeps terminate in spite of stale indices, the result reproduces the error, and no single pass can be removed from it |
| `Reducer.Reduce` | llvm/utils/reduce_pipeline.py:85-207 | Gives up exactly when the pipeline cannot be printed or the input does not crash; otherwise the result reproduces the same error, its passes are among the original ones in order and inside the same managers, and it is 1-minimal |
| `Reducer.CandidateReduced` | llvm/utils/reduce_pipeline.py:189-192 | A candidate has one pass less, unless its index is out of range |
| `CaseFold.Generate` | llvm/utils/unicode-case-fold.py:31-131 | For every C the generated statements return the table's image of C, or C itself; there is no result exactly for an empty or unsorted table |
| `CaseFold.DumpBlock` | llvm/utils/unicode-case-fold.py:69-104 | Appends the statements for one block, in one of the four forms |
| `CaseFold.BlockCovers` | llvm/utils/unicode-case-fold.py:69-104 | The statements for a block map its entries as the table says, catch nothing above it, and map anything else they catch to itself |
| `CaseFold.CoversConcat` | llvm/utils/unicode-case-fold.py:107-131 | Statements of consecutive blocks work together, single-entry blocks without a guard included |
| `CaseFold.RangeIsEntry` | llvm/utils/unicode-case-fold.py:82-104 | Every C in the range of a block with the right remainder is one of its entries |
| `Deps.Toposort` | llvm/utils/check_ninja_deps.py:62-90 | On any graph the loop terminates, outputs each vertex at most once and after all its predecessors, and leaves over only vertices with a predecessor left over |
| `Deps.Release` | llvm/utils/check_ninja_deps.py:81-90 | Counting down the successors of a vertex keeps the counters and the set of ready vertices right |
| `Deps.Complete` | llvm/utils/check_ninja_deps.py:62-90 | Exactly the vertices that are not on, or reachable from, a cycle are output; all are, if and only if the graph is acyclic |
| `Deps.Ancestors` | llvm/utils/check_ninja_deps.py:93-118 | For each vertex that is output: its label, and exactly the labels of the vertices with a nonempty path to it, less its own label |
| `ABTest.CheckSequentially` | llvm/utils/abtest.py:112-124 | Every name left out was tested alone and failed, every other one passed; when a run passes exactly if no bad name is picked, all other names are returned |
| `ABTest.CheckBisect` | llvm/utils/abtest.py:127-174 | For any test: every name left out was tested alone and failed, every other was in a set that passed, and from each test on there are at most as many tests as announced; when a run passes exactly if no bad name is picked, all other names are returned |
| `ABTest.TestPartition` | llvm/utils/abtest.py:135-154 | Runs one test, whose announced bound is large enough for everything that can follow |
| `ABTest.SameAnswer` | llvm/utils/abtest.py:112-174 | When a run passes exactly if no bad name is picked, both searches return all other names |
| `AsdlIntegers.ReadGroups` | smlnj/lib-codegen/asdl-integer.cpp:73-80 | Reads exactly the bytes up to the first without a continuation bit |
| `AsdlIntegers.Repack` | smlnj/lib-codegen/asdl-integer.cpp:82-132 | The 32-bit digits denote the same number as the 7-bit groups, are ceil(nbits / 32) many, and have no leading zero when the first group is not zero |
| `AsdlIntegers.PackRest` | smlnj/lib-codegen/asdl-integer.cpp:114-131 | Adds all groups after the first, and in the end no bit of the current digit is left over |
| `AsdlIntegers.ReadInteger` | smlnj/lib-codegen/asdl-integer.cpp:69-135 | Sign and magnitude of the integer are those of the bytes, and it has ceil(nbits / 32) digits, where nbits counts seven bits for each group but only the significant ones for the first |
| `AsdlIntegers.ToInt32` | smlnj/lib-codegen/asdl-integer.cpp:149-175 | Succeeds exactly for values of 32 bits with at most one digit, and returns the value |
| `AsdlIntegers.ToInt64` | smlnj/lib-codegen/asdl-integer.cpp:177-208 | Succeeds exactly for values of 64 bits with at most two digits, and returns the value |
| `AsdlIntegers.FitsShort` | smlnj/lib-codegen/asdl-integer.cpp:149-208 | Without a leading zero digit, every value that fits has few enough digits |
| `AsdlIntegers.FitsButRejected` | smlnj/lib-codegen/asdl-integer.cpp:93-208 | An integer that was read and whose value fits has too many digits for the conversion to 32 bits, if and only if its first group is zero and it has at least six bytes; for 64 bits, eleven |
| `AsdlIntegers.LeadingZeros` | smlnj/lib-codegen/asdl-integer.cpp:69-175 | Reading the bytes 80 80 80 80 80 05 and converting the integer to 32 bits fails, although its value is 5 |
| `AsdlIntegers.ToUInt32` | smlnj/lib-codegen/asdl-integer.cpp:222-235 | Succeeds exactly for at most one digit, with the magnitude; that is the value only if the sign is not set |
| `Asdl.WriteInt` | smlnj/lib-codegen/asdl.cpp:70-100 | Puts the bytes of IntBytes on the stream |
| `Asdl.WriteUInt` | smlnj/lib-codegen/asdl.cpp:102-123 | Puts the bytes of UIntBytes on the stream |
| `Asdl.WriteString` | smlnj/lib-codegen/asdl.cpp:125-131 | Puts the length and the characters on the stream |
| `Asdl.ReadInt` | smlnj/lib-codegen/asdl.cpp:133-150 | Reads what ParseInt prescribes and leaves the rest |
| `Asdl.ReadUInt` | smlnj/lib-codegen/asdl.cpp:152-164 | Reads what ParseUInt prescribes and leaves the rest |
| `Asdl.ReadString` | smlnj/lib-codegen/asdl.cpp:166-175 | Reads what ParseString prescribes and leaves the rest |
| `Asdl.IntBack` | smlnj/lib-codegen/asdl.cpp:70-150 | Every int of 30 bits reads back, with the bytes that follow untouched |
| `Asdl.UIntBack` | smlnj/lib-codegen/asdl.cpp:102-164 | Every unsigned number of 30 bits reads back |
| `Asdl.StringBack` | smlnj/lib-codegen/asdl.cpp:125-175 | Every string shorter than 2^30 reads back |
| `Asdl.ItemsBack` | smlnj/lib-codegen/asdl.cpp:70-175 | Any sequence of ints, unsigned numbers and strings reads back as the same sequence, with the bytes that follow untouched |
| `Demangle.MapContext.TakeObjs` | llvm/utils/demangle_tree.py:98-129 | Takes as many files as the chunk holds, from as many directories as needed, of which only the last can be incomplete |
| `Demangle.MapContext.AddAll` | llvm/utils/demangle_tree.py:131-137 | Every directory of the chunk ends up with the total of all its files so far; a key is missing if and only if a file of the chunk is in the current directory |
| `Demangle.MapContext.Finish` | llvm/utils/demangle_tree.py:139-149 | Reports the complete directories, adds them to the cumulative result, and keeps the incomplete one |
| `Demangle.MapContext.ProcessOneChunk` | llvm/utils/demangle_tree.py:97-149 | Keeps the invariant: the counter is the number of pending files, and all results are those of the files processed; exactly the next files in order are processed; on a missing key nothing is reported or added up |
| `Demangle.MapContext.AddDirectory` | llvm/utils/demangle_tree.py:167-191 | Hands over a directory and drains until less than a chunk is pending |
| `Demangle.Go` | llvm/utils/demangle_tree.py:157-199 | The run is cut short if and only if there are object files in the current directory itself, which then get no row; otherwise every file is processed exactly once and in order, every directory is reported once with its whole total, and the cumulative result is that of all files |
| `Demangle.CurrentDirectory` | llvm/utils/demangle_tree.py:131-137 | A single file in the current directory cuts the run short |
| `Sections.AlignByLeast` | smlnj/lib-codegen/object-file.cpp:24-31 | The mask expression gives the least multiple of the power of two |
| `Sections.Section.Alloc` | smlnj/lib-codegen/object-file.cpp:140-160 | Accepts exactly what fits; the block follows all earlier ones and is aligned relative to the section |
| `Sections.MemManager.ReserveAllocationSpace` | smlnj/lib-codegen/object-file.cpp:172-233 | The sections follow one another in the owned memory, from an aligned base on, padded to the greatest alignment |
| `Sections.MemManager.AllocateCodeSection` | smlnj/lib-codegen/object-file.cpp:235-250 | Accepts exactly what fits into the code section, behind all earlier blocks and aligned relative to the section |
| `Sections.MemManager.AllocateDataSection` | smlnj/lib-codegen/object-file.cpp:252-273 | Accepts exactly what fits into the read-only or the read-write section, and leaves the other one alone |
| `Sections.MemManager.BlocksDisjoint` | smlnj/lib-codegen/object-file.cpp:140-273 | After any sequence of requests all blocks are pairwise disjoint, inside their section and inside the owned memory |
| `Sections.MemManager.AlignedIff` | smlnj/lib-codegen/object-file.cpp:200-223 | For an alignment up to that of the base, blocks are aligned absolutely if and only if the sizes of the sections before theirs add up to a multiple of it |
| `Sections.MemManager.AlignedUpToReserved` | smlnj/lib-codegen/object-file.cpp:188-223 | That holds for all alignments up to the greatest one that space was reserved with |
| `Sections.Misaligned` | smlnj/lib-codegen/object-file.cpp:188-273 | Reserving eight bytes of code and 64 of read-only data with a base aligned by 16, and then requesting 16 bytes aligned by 16: the request is accepted at an odd multiple of 8 |
| `McaBlocks.Aligner.FindFarthest` | llvm/utils/update_mca_test_checks.py:209-221 | No first index of a block is beyond the recorded one |
| `McaBlocks.Aligner.AlignMatchingBlocks` | llvm/utils/update_mca_test_checks.py:186-245 | A change keeps every list's nonempty blocks in order and separates exactly one pair of adjacent ones; without a change no block can be moved |
| `McaBlocks.Aligner.MoveTo` | llvm/utils/update_mca_test_checks.py:234-238 | Inserts empty blocks until the block is at the recorded index |
| `McaBlocks.Aligner.AlignAll` | llvm/utils/update_mca_test_checks.py:299-302 | Repeating the alignment terminates, with the same nonempty blocks in the same order in every list |
| `McaBlocks.Settled` | llvm/utils/update_mca_test_checks.py:186-245 | In the end a block that directly follows a nonempty one is in no other list first found further behind |

## Left out

- LLVM itself: optimisation, instruction selection, calling conventions beyond the order of arguments, metadata and branch weights.
- RCC statements, which the code generator does not implement; floating-point operators beyond being operators; traps of division, which the hardware raises.
- The individual arithmetic and comparison operators and their tables of predicates: they are parameters shared by CFG and generated code.
- Targets without PC-relative addressing, where a base pointer is threaded through the fragments.
- Conversions between pointers and integers keep the value; truncation by a conversion to a narrower integer type is not modelled.
- Memory holds one datum for each address; that a store covers several bytes is modelled by the extents of objects, not in memory itself. A field of a raw record is taken to have the size that its type says.
- The addresses of runtime entries (collector, overflow handler) are not loaded from the stack frame; calling them is an instruction or terminator of its own.
- Names of values and blocks, debug output, and assertions on the number of argument registers.
- The initialisation of a statement returns a copy in which the arms are numbered, where the original sets a field.
- Initialisation of clusters, modules and compilation units, and the unpickler of the CFG.
- Aliasing of context and registers: a context owns its register state.
- Allocation.HeapSafe: requires the condition under which Allocation.LimitExact proves the test right, and that the limit plus the slop lies in the address space.
- FragmentHeap.CheckedPieceSafe: that a fragment allocates no more than it checked for is up to the compiler before, and assumed.
- Programs: a transfer to an address outside of the program ends it; what the runtime system does between calls is not modelled.
- Typing: the types of phi nodes and the conversions; the other typing rules of LLVM, and the assertions on the types of operands that are not converted (such as `smlnj/lib-codegen/cfg-prim-codegen.cpp:91-97`), are not modelled.
- Allocation: a tagless raw object with another alignment than the word, on which the original asserts, is allocated as if it had none.
- Allocation.StoreListComplete: assignments are assumed to go to objects or outside of the memory allocated since the last collection.
- Sections: addresses and sizes are unbounded; alignments are powers of two, given by their logarithm. With assertions disabled the original would hand out blocks that do not fit; here these requests are refused.
- AsdlIntegers: the end of the input, where the program exits, is a result of its own; writing integers is not implemented in the original.
- Signed overflow in the negation of the least integer is modelled as wrapping around.
- Pipelines: a kind together with a name instead of elements inside, which no operation produces, is not modelled, nor is the sharing of lists between a pipeline and its copies.
- Reducer: the expansion of the pipeline by `opt` before the reduction, command lines and temporary directories. `opt` is deterministic.
- CaseFold: the text of the database and of the generated program; entries and statements are data.
- Deps: Graphviz and ninja; only the algorithms on graphs are modelled. An edge that occurs twice counts twice, as a predecessor and as a successor.
- ABTest: the sanity checks, the replacement of functions and the running of tests, which are an oracle.
- Demangle: the demangler is an oracle. Directories come normalised and without repetition, as the walk over the tree gives them, with the names of their object files; the percentages of the summary are left out.
- McaBlocks: the tool runs, the splitting into blocks and everything after the alignment.

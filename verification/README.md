# Wasmp, verified

Wasmp! builds WebAssembly modules in one pass: types are interned, entities declared, bodies emitted call
by call into byte buffers, optionally checked by a type-stack validator, and the module is assembled into
bytes. This project models that library in Dafny and proves what it promises.

The model has three layers. Specifications are functions and relations on values: the validation rules of
the WebAssembly Core Specification 2.0 with its bottom type (sections 3.1, 3.3 and 3.4), a typing relation
over value types for what the library checks, a stack machine (section 4.4), the binary grammar as decoders
(section 5), linear search for the interner, a byte sequence for the buffer. The library's objects are
classes with the library's own fields, loops and branches, each method proved against those functions. The
theorems connect the two ends.

| file | models |
|---|---|
| `Ints`, `Syntax` | integer widths; types, instructions, trees and the emitter calls that spell them |
| `Typing` | what the library checks, as a typing relation over value types |
| `Machine`, `Exactness`, `Soundness`, `Acceptance` | the checking algorithm on frames as segments, and that it is sound, complete and exact for the relation |
| `Contexts`, `Specification`, `OperandRules`, `TreeCheck`, `Conformance` | the conditions on immediates and the specification's rules with bottom; exactly when an accepted body is valid by them |
| `Execution`, `Liveness`, `LiveTyping`, `Safety` | a stack machine with tables that checks every operand, label, index and callee; where control can get to; exactly when an accepted body is safe |
| `Departures` | a body for each rule the library does not check in full, and which of them go wrong |
| `Validator` | the validator object: one flat operand stack, one stack of control records |
| `Leb128`, `CodeBuffer` | the integer encoders as loops over an array; the growable buffer with its costs |
| `Codec`, `Encoding`, `Body`, `Reading` | vectors and chunks; instructions and block types; structured bodies; their decoders, on the bytes of any calls |
| `Nesting`, `Growth` | which block a branch means; what more declarations change |
| `Emitters`, `FunctionEmitter` | the cursor writers and the emitter with its control-frame handles |
| `Interner`, `IndexSpaces`, `Interleaving` | the open-addressing type table; index spaces, handles and definitions; several emitters at once |
| `Binary`, `Names`, `ModuleFormat`, `DataCount` | the module format, its decoder and the round trip; the condition that joins its code and its data |
| `Writers`, `NameWriter`, `SectionWriter`, `Output`, `Assembler` | the module object and the assembler's loops |
| `ModuleValidity`, `EndToEnd` | the environment a module gives its bodies; from the calls of bodies to the decoded, valid module |

Every property holds for all inputs of the stated kind; the instruction table and the hash function are
parameters, so the results hold for every table with distinct opcodes and for every hash.

Where the code departs from the specification, the code is modelled and the exact condition is proved:

- Five validation rules are looser than the specification's. `OnBrTable` compares arities only; untyped
  `select` takes references; `ref.is_null` takes numbers; `ref.func` takes functions the module declares no
  reference to; `call_indirect` goes through any table. And the immediates of rows are not looked at: the
  memories, tables, data and element segments they name, the element types that `table.init` and
  `table.copy` bring together, lanes, alignments, and offsets, which are 64-bit integers though a 32-bit
  memory's are below 2^32. `OperandRules.OpConforms` gives the condition for each
  instruction and `Conformance.ValidIffPermitted` for whole bodies, both if and only if; `Departures` has a
  body for each rule, and one for every row and immediates, that is accepted and not valid.
- A run goes wrong at some of these only: an accepted body is safe if and only if every instruction that
  can be reached is guarded (`Safety.AcceptedRunsSafely`). Alignment, offsets, `select` between references
  and undeclared `ref.func` are not among the guards.
- A memory argument is readable back exactly when its alignment is below 64 and its offset has the width of
  addresses (`Encoding.MemArgRoundTrip`); limits exactly when their bounds fit a u32 or the 64-bit flag is
  set (`Binary.LimitsRoundTrip`); a name exactly when its bytes are UTF-8 (`Codec.NameRoundTrip`); a name
  section exactly when nothing is named twice (`Names.NamesRoundTrip`); a body exactly when it has fewer than
  2^32 locals (`Body.BodyRoundTrip`).
- The data count section is written if some data segment is passive, and is required if a body names a data
  segment. Assembled bytes are a module exactly when one is or none does (`DataCount.WholeModuleIff`,
  `EndToEnd.AssembleChecked`); `EndToEnd.DropWithoutCount` has the input that fails.
- Passive element segments are always written as function references (`Binary.ElemRoundTrip`).
- After its one reservation the assembler may grow its buffer once more, exactly when
  `Output.Tight` holds (`Output.PutSections`).

## Model

| member | source | states |
|---|---|---|
| `Exactness.EffectExact` | include/wasmp/validator.hpp:293-318 | A segment with unknowns stands for a set of concrete stacks. For every effect, the polymorphic step succeeds exactly when some represented stack passes the plain non-polymorphic check, and its result represents exactly the stacks that check can leave |
| `Exactness.EffectComplete` | include/wasmp/validator.hpp:180-204 | No represented stack that passes the plain check is rejected, and its result is represented |
| `Exactness.EffectSound` | include/wasmp/validator.hpp:180-204 | Every stack the result represents comes from a represented stack by a typed step; the witness is returned |
| `Soundness.CodeComplete` | include/wasmp/validator.hpp:229-344 | Completeness by induction over trees: a body typable from a represented stack runs through the hooks in emission order without Fail and reaches every stack its typing allows |
| `Soundness.CodeSound` | include/wasmp/validator.hpp:229-344 | Soundness by induction over trees: every stack represented after the hooks ran over a body comes from a represented stack by a typing derivation of that body |
| `Soundness.CodeExact` | include/wasmp/validator.hpp:293-336 | For whole bodies: the hooks fail exactly when no represented stack has a typing, and otherwise leave exactly the set of all stacks the body can produce, with all other frames unchanged |
| `Acceptance.AcceptedIsBody` | include/wasmp/validator.hpp:229-249 | Every call sequence accepted from Init through OnFunctionEnd is the flattening of a structured instruction tree: else and end are balanced and attached to the right if |
| `Acceptance.AcceptsIffTyped` | include/wasmp/validator.hpp:98-344 | The hooks accept a body in emission order if and only if it is declaratively typable as [] -> results, with the branch-table rule the code applies (equal arity) |
| `Acceptance.AcceptsIffTypable` | include/wasmp/validator.hpp:98-344 | The same over all call sequences: accepted if and only if the sequence spells some typable tree |
| `Acceptance.AcceptsIffStrictlyTyped` | include/wasmp/validator.hpp:263-272 | Under a rule that all targets of a branch table carry the default's types (tighter than the library's, and than the specification's in dead code): a body is typable if and only if it is accepted and each of its tables is uniform, a condition decided by looking at the body |
| `Typing.StrictIffUniform` | include/wasmp/validator.hpp:263-272 | Typing with equal arities and typing with equal types at every table differ exactly by uniformity of the tables, for every body, label stack and pair of operand stacks |
| `Acceptance.RunInv` | include/wasmp/validator.hpp:285-344 | In every reachable state the bottom frame is the function frame, no other frame is one, and an unknown operand occurs only in a frame marked unreachable |
| `Acceptance.RunKeepsOuter` | include/wasmp/validator.hpp:293-318 | As long as a run stays at depth d or deeper, no operand and no frame below changes |
| `Acceptance.LocalsOnTheWay` | include/wasmp/validator.hpp:134-136 | Declaring locals between instructions gives the verdict and the state of declaring them all first, exactly when no local is used before its declaration |
| `Execution.CodeSafe` | include/wasmp/validator.hpp:238-344 | For open bodies whose reachable instructions are guarded, from tables that hold elements of their own types: every outcome of a run on a checking stack machine, which has its own account of what each instruction takes and leaves, is fine for the labels and the stack the typing promises, every table still holds elements of its own type, and control leaves only where the text says it can |
| `Execution.CodeKeeps` | include/wasmp/validator.hpp:238-344 | No run takes an element out of a table, whatever body it runs |
| `Execution.ArityIsNotEnough` | include/wasmp/validator.hpp:263-272 | A concrete body that the code accepts and whose run gets stuck: its table can be reached and its targets differ in type |
| `Safety.FallsRun` | include/wasmp/validator.hpp:238-344 | Every instruction sequence that the text lets fall through does so for some list of choices, with the stack its typing promises and the tables as they were |
| `Safety.JumpsRun` | include/wasmp/validator.hpp:238-344 | Every jump out of a sequence that the text allows happens for some list of choices, with the types of its label |
| `Safety.GoesWrong` | include/wasmp/validator.hpp:238-344 | A typed body with a reachable instruction that is not guarded goes wrong for some list of choices, which is returned: it gets stuck, or leaves an element of another type in a table |
| `Safety.ForeignElement` | include/wasmp/module.hpp:749-754 | What an element of another type does, in any table on any stack: some choice of what is found leaves it where the typing promises an element of the table's type, and a call through a table of functions gets stuck on it |
| `Safety.AcceptedRunsSafely` | include/wasmp/validator.hpp:238-344 | The exact condition: every run of an accepted body, under any branch outcomes and any number of loop iterations, from tables with any elements of their own types, keeps to its types (no underflow, no operand of the wrong type, every branch with its label's types, no call of anything but a function, every table left with elements of its own type, the declared results at the end) if and only if every instruction that can be reached, which is decided by looking at the body, is guarded: ref.is_null has a reference, call_indirect a table of functions, br_table the operands of each target, and a row's immediates name what is there, with elements of the table's type. The machine does not test the guard on elements: it moves and finds elements of any type |
| `Safety.GuardedIsUniform` | include/wasmp/validator.hpp:263-272 | For branch tables the guard means that every reachable table names labels of one type |
| `LiveTyping.FallsHolding` | include/wasmp/validator.hpp:293-318 | Where control falls through typed code, the library's check has exactly the operands of the typing, none unknown and no more below |
| `LiveTyping.CheckComplete` | include/wasmp/validator.hpp:293-318 | Typed code passes the check of its tree from any segment that stands for its operands, and its result is represented |
| `TreeCheck.RunIsCheck` | include/wasmp/validator.hpp:229-344 | On the calls of a tree the machine computes one segment from another, checking the inside of each block on its own, and fails exactly when the tree's own check fails |
| `OperandRules.SpecOpIs` | include/wasmp/validator.hpp:139-272 | For every instruction, the operands the library pops and pushes are those of the specification's rule, which is written out instruction by instruction without them: a call the parameters and results of the callee's type, local.tee its operand and the same again, an access an address as wide as memories |
| `OperandRules.ScopeIs` | include/wasmp/module.hpp:731-747 | The rule of a block, loop or if without else, written out with the block's type, an i32 condition over the parameters and the label's types, is what the library pops, pushes and labels |
| `OperandRules.IfElseIs` | include/wasmp/validator.hpp:230-244 | The same for an if with both arms |
| `OperandRules.OpConforms` | include/wasmp/validator.hpp:139-272 | For every instruction and segment: some represented operands, bottom allowed, take a step that is valid by the specification if and only if the library's step succeeds and the instruction is permitted. The conditions: select on slots that are not known references, ref.is_null on a slot that is not a known number, ref.func of a declared reference, call_indirect through a funcref table, br_table whose every target's types can be popped, and for rows that memories, tables, data and element segments exist, that table.init and table.copy keep to one element type, that lanes exist, that no alignment exceeds the width and that offsets into 32-bit memories are below 2^32 |
| `Conformance.ValidIffPermitted` | include/wasmp/validator.hpp:98-344 | A body is valid by the rules of the specification, bottom type included, if and only if the library accepts it and every instruction it checked is permitted by those conditions |
| `Conformance.PermittedIsGuarded` | include/wasmp/validator.hpp:98-344 | What is permitted at every instruction is guarded wherever a run gets to |
| `Conformance.LiveIsKnown` | include/wasmp/validator.hpp:314-318 | In a sequence that is valid by the specification no operand is bottom where a run can get to, and the tables there are uniform |
| `Conformance.ValidRunsSafely` | include/wasmp/validator.hpp:98-344 | A body that is valid by the specification keeps to its types on every run |
| `Departures.ExternTable` | include/wasmp/module.hpp:749-754 | call_indirect through a table of external references: accepted, not valid, and some run of it goes wrong |
| `Departures.NullTestOfNumber` | include/wasmp/validator.hpp:201 | ref.is_null on a number: accepted, not valid, and goes wrong |
| `Departures.UndeclaredReference` | include/wasmp/module.hpp:711-713 | ref.func of a function the module declares no reference to: accepted, not valid, and safe on every run |
| `Departures.SelectOfReferences` | include/wasmp/validator.hpp:189-195 | Untyped select between references: accepted, not valid, and safe on every run |
| `Departures.MixedTable` | include/wasmp/validator.hpp:263-272 | A reachable branch table of differing types: accepted, not valid, and goes wrong |
| `Departures.RowUnchecked` | include/wasmp/function_emitter.hpp:283-359 | For every row and every immediates that break a condition of the specification (a memory, table, segment or lane that does not exist, elements of another type, too much alignment, an offset of 2^32 or more into a 32-bit memory) there is a body that is accepted and not valid |
| `Departures.CopyAcross` | include/wasmp/function_emitter.hpp:353-356 | table.copy between any two tables of different types: accepted, not valid, and some run of it leaves a table with an element of another type |
| `Departures.DropIsFine` | include/wasmp/instructions.inc:305-306 | data.drop of any data segment there is, active or passive, is accepted and valid by the specification |
| `Departures.DeadTableIsFine` | include/wasmp/validator.hpp:263-272 | The same table behind unreachable: valid, accepted and safe, though not uniform |
| `Validation.HeightsMonotone` | include/wasmp/validator.hpp:285-291 | Frame heights never decrease from the bottom frame to the innermost one and never exceed the operand stack |
| `Validation.ChangeTop` | include/wasmp/validator.hpp:293-318 | Replacing what lies above the innermost height changes the innermost frame of the cut-up stack and no other |
| `Validation.Validator.Init` | include/wasmp/validator.hpp:100-111 | The state after Init is the initial one: one function frame at height 0 over an empty stack |
| `Validation.Validator.AddLocals` | include/wasmp/validator.hpp:134-136 | Appends count locals of the type and keeps the earlier ones |
| `Validation.Validator.PopVal` | include/wasmp/validator.hpp:294-303 | Succeeds unless a reachable frame is empty, gives the top operand or Unknown, and changes only the innermost frame |
| `Validation.Validator.PopExpect` | include/wasmp/validator.hpp:304-308 | Succeeds exactly when the popped operand is compatible with the expected one |
| `Validation.Validator.PopVals` | include/wasmp/validator.hpp:310-312 | The loop pops a whole list, succeeding exactly when the list can be popped |
| `Validation.Validator.PushVals` | include/wasmp/validator.hpp:309 | The loop pushes the list on the innermost frame only |
| `Validation.Validator.Unreachable` | include/wasmp/validator.hpp:314-318 | The innermost frame becomes the polymorphic empty segment; the others stay |
| `Validation.Validator.PushCtrl` | include/wasmp/validator.hpp:320-328 | A new innermost frame with its parameters on top of the unchanged ones |
| `Validation.Validator.PopCtrl` | include/wasmp/validator.hpp:329-336 | Succeeds exactly when the innermost frame can be closed with exactly its results; returns its record and leaves the outer frames |
| `Validation.Validator.OnFixed` | include/wasmp/validator.hpp:139-144 | Applies the row's arrow to the innermost frame, or fails exactly when it cannot be applied |
| `Validation.Validator.OnMemArg` | include/wasmp/validator.hpp:149-157 | The same with the address operand widened under memory64 and a non-zero memory index gated |
| `Validation.Validator.OnNone` | include/wasmp/validator.hpp:180-204 | Drop, select, return, unreachable and ref.is_null take exactly their polymorphic steps |
| `Validation.Validator.OnLocal` | include/wasmp/validator.hpp:207-217 | local.get, set and tee take exactly their steps; an index out of range fails |
| `Validation.Validator.OnSelectT` | include/wasmp/validator.hpp:222-227 | Typed select takes exactly its step |
| `Validation.Validator.OnGlobal` | include/wasmp/module.hpp:693-702 | global.get and set take exactly their steps; range and mutability errors fail |
| `Validation.Validator.OnFuncIdx` | include/wasmp/module.hpp:704-714 | call and ref.func take exactly their steps over the declared signature |
| `Validation.Validator.OnTable` | include/wasmp/module.hpp:716-729 | The five table instructions take exactly their steps over the declared element type |
| `Validation.Validator.OnCallIndirect` | include/wasmp/module.hpp:749-754 | call_indirect takes exactly its step; unknown tables and types fail |
| `Validation.Validator.FrameAt` | include/wasmp/validator.hpp:337-344 | Succeeds exactly for depths of open frames and gives the frame whose label the relative depth names |
| `Validation.Validator.OnBr` | include/wasmp/validator.hpp:251-255 | Takes exactly the step of a branch to the label |
| `Validation.Validator.OnBrIf` | include/wasmp/validator.hpp:256-262 | Takes exactly the step of a conditional branch |
| `Validation.Validator.CheckTargets` | include/wasmp/validator.hpp:266-269 | The loop over the targets passes exactly when every target exists and has the default's arity |
| `Validation.Validator.OnBrTable` | include/wasmp/validator.hpp:263-272 | Takes exactly the step of a branch table under the arity rule |
| `Validation.Validator.OnOp` | include/wasmp/validator.hpp:139-272 | Every instruction hook refines the machine: it takes its step, or fails exactly when the step is undefined, and keeps locals and declarations |
| `Validation.Validator.OnCtrlStart` | include/wasmp/module.hpp:731-747 | Opening a block, loop or if takes exactly the machine's step |
| `Validation.Validator.OnElse` | include/wasmp/validator.hpp:230-236 | Else takes exactly the machine's step; a second else and an else without if fail |
| `Validation.Validator.OnEnd` | include/wasmp/validator.hpp:238-244 | On a block it takes exactly the machine's step; an if without else must have equal parameters and results. On the function frame it closes exactly when the results are there, and leaves them on a stack without frames |
| `Validation.Validator.OnFunctionEnd` | include/wasmp/validator.hpp:246-249 | Succeeds exactly when only the function frame is open and it closes with the results |
| `Leb128.RoundTripU` | include/wasmp/leb128.hpp:50-62 | Decoding n-bit unsigned LEB128 returns the value and stops at the end of its encoding, whatever follows: prefix-freedom for every value and width |
| `Leb128.TooWideU` | include/wasmp/leb128.hpp:50-62 | The encoding of a value of more than n bits is no n-bit integer, whatever follows: the two together say exactly which decoders read it |
| `Leb128.RoundTripS` | include/wasmp/leb128.hpp:65-80 | The same for signed values of every width |
| `Leb128.LengthU` | include/wasmp/leb128.hpp:41-46 | An n-bit unsigned value takes at most ceil(n/7) bytes |
| `Leb128.LengthS` | include/wasmp/leb128.hpp:41-46 | An n-bit signed value takes at most ceil(n/7) bytes |
| `Leb128.ShortestU` | include/wasmp/leb128.hpp:50-62 | No byte sequence that decodes to the value is shorter than its encoding |
| `Leb128.ShortestS` | include/wasmp/leb128.hpp:65-80 | The same for signed values |
| `Leb128.FitsU32` | include/wasmp/leb128.hpp:42 | Every u32 fits 5 bytes |
| `Leb128.FitsU64` | include/wasmp/leb128.hpp:43 | Every u64 fits 10 bytes |
| `Leb128.FitsI32` | include/wasmp/leb128.hpp:44 | Every i32 fits 5 bytes |
| `Leb128.FitsI64` | include/wasmp/leb128.hpp:45 | Every i64 fits 10 bytes |
| `Leb128.FitsIndexS33` | include/wasmp/leb128.hpp:46 | Every u32 written as a signed value fits 5 bytes |
| `Leb128.PutULEB` | include/wasmp/leb128.hpp:50-62 | The loop with its one-byte fast path writes exactly the encoding at the cursor and touches nothing else |
| `Leb128.PutSLEB` | include/wasmp/leb128.hpp:65-80 | The same for the signed encoder |
| `Leb128.SizeULEB` | include/wasmp/leb128.hpp:91-95 | The counting loop gives the length of the encoding |
| `Leb128.SizeSLEB` | include/wasmp/leb128.hpp:97-107 | The same for signed values |
| `Buffers.CodeBuffer.GrowTo` | include/wasmp/code_buffer.hpp:143-150 | Contents kept, capacity at least doubled and at least the request; its invariant keeps capacity at most max(64, 2 x the largest request) and all bytes ever moved below the capacity |
| `Buffers.CodeBuffer.Reserve` | include/wasmp/code_buffer.hpp:57-59 | Room for n bytes with the contents kept, growing once exactly when n exceeds the capacity |
| `Buffers.CodeBuffer.Ensure` | include/wasmp/code_buffer.hpp:65-67 | Room for n more bytes with the contents kept |
| `Buffers.CodeBuffer.Reset` | include/wasmp/code_buffer.hpp:62 | Empty contents, same allocation, same accounts |
| `Buffers.CodeBuffer.CursorEnsure` | include/wasmp/code_buffer.hpp:126-129 | A cursor at the end of the contents with n writable bytes behind it |
| `Buffers.CodeBuffer.SetEnd` | include/wasmp/code_buffer.hpp:130-132 | The contents become everything before the cursor |
| `Buffers.CodeBuffer.PutULEB` | include/wasmp/code_buffer.hpp:84-87 | Appends exactly the encoding, charging for ten bytes |
| `Buffers.CodeBuffer.PutSLEB33` | include/wasmp/code_buffer.hpp:94-97 | Appends the signed encoding of an index, charging for five bytes |
| `Buffers.CodeBuffer.PutF32` | include/wasmp/code_buffer.hpp:101-108 | Appends the four bytes of the pattern, least significant first |
| `Buffers.CodeBuffer.PutF64` | include/wasmp/code_buffer.hpp:110-115 | Appends the eight bytes of the pattern by the loop, least significant first |
| `Buffers.CodeBuffer.PutBytes` | include/wasmp/code_buffer.hpp:117-120 | Appends exactly the bytes |
| `Encoding.BlockTypeRoundTrip` | include/wasmp/function_emitter.hpp:79-91 | A block type is read back from any following bytes; an s33 index is never confused with 0x40 or a value-type byte |
| `Encoding.MemArgRoundTrip` | include/wasmp/function_emitter.hpp:65-77 | A memory argument is read back if and only if its alignment exponent is below 64, where the multi-memory flag bit is free, and its offset is a u32 or addresses are 64-bit |
| `Codec.AddrRoundTrip` | include/wasmp/function_emitter.hpp:65-77 | An offset is read, as a u32 or with 64-bit addresses as a u64, if and only if it fits that width, and to nothing at all otherwise |
| `Encoding.OpcodeRoundTrip` | include/wasmp/function_emitter.hpp:53-60 | A one-byte or prefixed opcode is read back |
| `Encoding.ImmRoundTrip` | include/wasmp/function_emitter.hpp:286-359 | Every immediate shape of the table is read back from any following bytes, with offsets of the memory's width |
| `Encoding.EventRoundTrip` | include/wasmp/function_emitter.hpp:212-359 | Every emitter call is read back from its bytes, for every instruction table whose opcodes are distinct |
| `Body.CodeReads` | include/wasmp/function_emitter.hpp:212-240 | Reading the bytes of a tree and going on equals having read the tree, for every tree and every continuation |
| `Body.BodyRoundTrip` | include/wasmp/function_emitter.hpp:472-483 | Decoding the local declarations and code of a finished body returns exactly its runs and its tree and consumes every byte if there are fewer than 2^32 locals in all, and fails otherwise |
| `Body.FlattenInjective` | include/wasmp/function_emitter.hpp:509-535 | Two different trees are never emitted by the same calls |
| `Emitters.ReservationSuffices` | include/wasmp/function_emitter.hpp:233-240 | For every instruction the bytes written are at most the bytes reserved; for a branch table of any 64-bit length too, its ten-byte count included |
| `Emitters.StartFits` | include/wasmp/function_emitter.hpp:509-514 | The same for the start of a block |
| `Emitters.PutMemArg` | include/wasmp/function_emitter.hpp:65-77 | With the alignment 0xFF it writes the natural alignment with the given offset and memory, and with any other alignment exactly the argument given, inside its reservation |
| `Emitters.PutBlockType` | include/wasmp/function_emitter.hpp:79-91 | The writer writes exactly the block type inside its reservation |
| `Emitters.PutImm` | include/wasmp/function_emitter.hpp:286-359 | Each shape's writer writes exactly the immediate inside its reservation |
| `Emission.WriteOp` | include/wasmp/function_emitter.hpp:286-359 | One reservation, then exactly the instruction's bytes are appended |
| `Emission.WriteAccess` | include/wasmp/function_emitter.hpp:326-329 | One reservation, then the opcode and the memory argument: the one given, or with alignment 0xFF the one with the natural alignment |
| `Emission.WriteLaneAccess` | include/wasmp/function_emitter.hpp:340-343 | The same for a lane access, with the lane behind it |
| `Emission.FunctionEmitter.Access` | include/wasmp/function_emitter.hpp:326-329 | A memory access, with its natural alignment for 0xFF, is accepted exactly when the machine has a step, and its bytes are appended and logged in lockstep |
| `Emission.FunctionEmitter.LaneAccess` | include/wasmp/function_emitter.hpp:340-343 | The same for a lane access |
| `Emission.AddRunExpands` | include/wasmp/function_emitter.hpp:200-206 | Extending the last run or starting a new one declares exactly the new locals after the old ones |
| `Emission.AddRunMerges` | include/wasmp/function_emitter.hpp:202-205 | Neighbouring runs always differ in type |
| `Nesting.OpenIsAround` | include/wasmp/function_emitter.hpp:509-535 | At every call of every tree, the blocks left open by the calls before it are exactly the scopes around that place in the tree, each with the call that opened it |
| `Nesting.BranchMeansBlock` | include/wasmp/function_emitter.hpp:216-240 | In the tree the calls spell, a branch at call p whose relative depth finds a block among the open ones targets the scope opened by that block's Start call, whatever calls follow |
| `Nesting.RunMatches` | include/wasmp/validator.hpp:320-336 | After any accepted calls the validator has one frame for each open block, above the body's own, of the block's kind and expanded type |
| `Nesting.LabelMeansBlock` | include/wasmp/validator.hpp:337-344 | The label found at a relative depth is the one of the block that depth means |
| `Emission.FunctionEmitter.RelDepth` | include/wasmp/function_emitter.hpp:537-539 | In 32 bits, wrap-around included: a depth that is in use is found from the inside at exactly that block, for an open handle the block it opened; a depth that is not lies outside all open blocks |
| `Emission.FunctionEmitter.HandleMeansBlock` | include/wasmp/function_emitter.hpp:537-539 | For every log, checked or not: the relative depth of a handle on an open block finds in the log the Start call with which PushFrame made that handle; with validation the validator finds there the label of that call's kind and block type |
| `Emission.FunctionEmitter.HandleMeans` | include/wasmp/function_emitter.hpp:537-539 | For every handle, stale or another emitter's too: the branch means the block open at its depth, in the log and in the validator; if none is open there, the validator finds no label |
| `Emission.FunctionEmitter.FramesMirror` | include/wasmp/function_emitter.hpp:509-527 | With validation there is one frame more than there are open blocks, of matching kinds |
| `Emission.FunctionEmitter.constructor` | include/wasmp/module.hpp:670-676 | A fresh emitter is in lockstep with a freshly initialised validator |
| `Emission.FunctionEmitter.Instruction` | include/wasmp/function_emitter.hpp:283-359 | Accepts exactly when the machine has a step (always, without validation), and keeps the lockstep: bytes are the encoding of the calls, and the validator is in the state its machine reaches on them |
| `Emission.FunctionEmitter.DeclareLocals` | include/wasmp/function_emitter.hpp:200-209 | The handle is the index of the first new local, the new locals follow all earlier ones, the lockstep is kept |
| `Emission.FunctionEmitter.PushFrame` | include/wasmp/function_emitter.hpp:509-518 | Opens a frame in lockstep and returns a live handle that holds its depth and stands for the call just logged |
| `Emission.FunctionEmitter.FrameEnd` | include/wasmp/function_emitter.hpp:520-527 | Closes the innermost frame in lockstep |
| `Emission.FunctionEmitter.FrameElse` | include/wasmp/function_emitter.hpp:529-535 | Turns to the else arm in lockstep |
| `Emission.FunctionEmitter.Br` | include/wasmp/function_emitter.hpp:216-220 | Emits a branch, accepted exactly when the machine accepts it, that means the block open at the handle's depth: for an open handle the block it opened, with that block's label in the validator |
| `Emission.FunctionEmitter.BrIf` | include/wasmp/function_emitter.hpp:221-225 | The same for a conditional branch |
| `Emission.FunctionEmitter.BrTable` | include/wasmp/function_emitter.hpp:226-240 | The same for a table of handles, by the loops over them |
| `Emission.FunctionEmitter.WriteLocals` | include/wasmp/function_emitter.hpp:476-481 | The loop writes exactly the vector of runs |
| `Emission.FunctionEmitter.Finish` | include/wasmp/function_emitter.hpp:472-483 | Validating, it lets through exactly the logs whose calls spell a typable body; its two buffers are functions of the calls alone, so a validating emitter that does not fail and a trusting one give the same bytes |
| `Emission.FunctionEmitter.Reset` | include/wasmp/function_emitter.hpp:485-491 | Empty log, runs and control stack, same signature, validator re-initialised, allocation kept |
| `Emission.FunctionEmitter.SetSignature` | include/wasmp/module.hpp:684-688 | Rebinds the signature and starts over |
| `Growth.AcceptsGrows` | include/wasmp/module.hpp:85-108 | Declaring more, at the end of the index spaces, never takes back an acceptance |
| `Growth.CallsGrow` | include/wasmp/module.hpp:85-108 | The same for an unfinished log: the machine goes through the same frames |
| `Emission.FunctionEmitter.Refresh` | include/wasmp/module.hpp:85-108 | The validator goes on against the module as it is now; the log, the frames and everything accepted so far stand |
| `Emission.ControlFrame.End` | include/wasmp/function_emitter.hpp:121-126 | Closes the handle's frame once; closing again changes nothing |
| `Emission.ControlFrame.Else` | include/wasmp/function_emitter.hpp:125 | Turns the handle's if to its else arm |
| `Emission.FinishedBodyDecodes` | include/wasmp/function_emitter.hpp:472-483 | The two buffers of a finished body of fewer than 2^32 locals, one after the other, are the encoding of its runs and its tree and decode to them |
| `Interning.InternAllFacts` | include/wasmp/module.hpp:112-131 | For any sequence of requests the table only grows at its end and lists exactly the requested signatures, each once |
| `Interning.IndexIsStable` | include/wasmp/module.hpp:112-131 | The index given for a request names that signature in every later table and is what every later equal request gets |
| `Interning.FreeSlot` | include/wasmp/module.hpp:339 | Fewer types than slots leaves a free slot |
| `Interning.ProbeIsComplete` | include/wasmp/module.hpp:118-130 | For any hash function: an empty slot met on the way from home proves the signature is not stored |
| `Interning.PlaceOne` | include/wasmp/module.hpp:343-347 | Filling the first empty slot from home keeps every stored entry reachable with no gap |
| `Interning.Interner.Probe` | include/wasmp/module.hpp:116-130 | The probing loop ends, by the cyclic distance to a free slot, at the slot of the signature or at the first empty one |
| `Interning.Interner.EnsureSlots` | include/wasmp/module.hpp:335-349 | Afterwards there is room for one more at a load of at most 3/4 in a power-of-two table; rehashing keeps every entry reachable |
| `Interning.Interner.FindEmpty` | include/wasmp/module.hpp:345 | The rehash loop ends at the first empty slot from home |
| `Interning.Interner.GetIndex` | include/wasmp/module.hpp:112-131 | Refines linear search: the result is the first index of the signature or the next fresh one, for any hash function |
| `IndexSpaces.HandleKeepsItsMeaning` | include/wasmp/module.hpp:142-207 | For every sequence of declarations, the handle returned for the k-th one denotes that entity in the final index space of its kind |
| `IndexSpaces.IndexIsAHandle` | include/wasmp/module.hpp:142-207 | Every index of a space was returned for exactly one declaration |
| `IndexSpaces.OfKindPrefix` | include/wasmp/module.hpp:352-357 | Later declarations only extend an index space at its end |
| `IndexSpaces.LateImportShifts` | include/wasmp/module.hpp:142-185 | Why imports must come first: an import behind definitions leaves every handle its meaning if and only if all the definitions of its kind are just like it |
| `IndexSpaces.DefinedAt` | include/wasmp/module.hpp:249-255 | After any sequence of definitions of distinct functions each function has its own body and its own signature |
| `IndexSpaces.DefinitionsCommute` | include/wasmp/module.hpp:249-255 | Definitions of distinct functions give the same functions in any order |
| `Interleaving.InterleavingIsInvisible` | include/wasmp/module.hpp:514-525 | For any two schedules that mix the calls of any number of emitters and the handing in of their bodies: if each emitter by itself is told the same and no function is defined twice, the functions and the assembled bytes are the same |
| `Assembly.Module.constructor` | include/wasmp/module.hpp:69-70 | An empty module meets the module invariant |
| `Assembly.Module.ImportFunction` | include/wasmp/module.hpp:142-151 | The handle is the next function index, its space grows by the import, no other space changes, and each space stays all declarations of its kind in order, whatever type handle is given; every function's type stays interned if and only if this one's is |
| `Assembly.Module.ImportTable` | include/wasmp/module.hpp:152-163 | The same for tables |
| `Assembly.Module.ImportMemory` | include/wasmp/module.hpp:164-173 | The same for memories |
| `Assembly.Module.ImportGlobal` | include/wasmp/module.hpp:174-185 | The same for globals |
| `Assembly.Module.DeclareFunction` | include/wasmp/module.hpp:187-192 | The handle is the next function index after all imports and definitions; no other space changes; every function's type stays interned if and only if this one's is |
| `Assembly.Module.Table` | include/wasmp/module.hpp:193-197 | The same for tables |
| `Assembly.Module.Memory` | include/wasmp/module.hpp:198-202 | The same for memories |
| `Assembly.Module.Global` | include/wasmp/module.hpp:203-207 | The same for globals |
| `Assembly.Module.NthImport` | include/wasmp/module.hpp:352-357 | The counting loop finds an import exactly for n below the number of imports of the kind, and then the n-th one |
| `Assembly.Module.FuncSig` | include/wasmp/module.hpp:93-96 | Agrees with indexing the function space, imports then definitions |
| `Assembly.Module.GlobalValType` | include/wasmp/module.hpp:97-100 | Agrees with indexing the global space |
| `Assembly.Module.GlobalMut` | include/wasmp/module.hpp:101-104 | Agrees with indexing the global space |
| `Assembly.Module.TableElem` | include/wasmp/module.hpp:105-108 | Agrees with indexing the table space |
| `Assembly.Module.FuncCount` | include/wasmp/module.hpp:89 | Counter plus definitions is the size of the function space |
| `Assembly.Module.GlobalCount` | include/wasmp/module.hpp:90 | The same for globals |
| `Assembly.Module.TableCount` | include/wasmp/module.hpp:91 | The same for tables |
| `Assembly.Module.Declared` | include/wasmp/module.hpp:85-108 | What the validator reads of the module is, entry by entry, what the queries answer |
| `Assembly.Module.NewEmitter` | include/wasmp/module.hpp:670-681 | An emitter for an interned signature, valid, checking against the module's own index spaces |
| `Assembly.Module.InternType` | include/wasmp/module.hpp:112-131 | The module's handle names the signature, earlier handles keep theirs, and everything declared with a type stays well-formed |
| `Assembly.Module.DefineFunction` | include/wasmp/module.hpp:249-255 | Sets the body of that function alone and keeps every index space |
| `Assembly.Module.FindError` | include/wasmp/module.hpp:359-363 | Reports a function exactly when some declared function has no body |
| `Binary.LimitsRoundTrip` | include/wasmp/module.hpp:40-49 | Limits are read back with all three flags if and only if their bounds fit a u32 or the 64-bit flag is set |
| `Codec.NameRoundTrip` | include/wasmp/module.hpp:35-38 | A name is read back if and only if its bytes are UTF-8, and is not read at all otherwise |
| `Binary.InitRoundTrip` | include/wasmp/module.hpp:51-63 | Every constant expression is read back |
| `Binary.FuncTypeRoundTrip` | include/wasmp/module.hpp:386-392 | Function types are read back |
| `Binary.ImportRoundTrip` | include/wasmp/module.hpp:400-418 | An import of any of the four kinds is read back if and only if its names are UTF-8 and its limits fit their width |
| `Binary.GlobalRoundTrip` | include/wasmp/module.hpp:453-457 | Globals are read back |
| `Binary.ExportRoundTrip` | include/wasmp/module.hpp:465-469 | An export is read back if and only if its name is UTF-8 |
| `Binary.ElemRoundTrip` | include/wasmp/module.hpp:484-503 | An element segment is read back if and only if it is not a passive segment of another type than function references |
| `Binary.DataRoundTrip` | include/wasmp/module.hpp:531-548 | Data segments are read back |
| `Names.SortFacts` | include/wasmp/module.hpp:576-577 | Sorting orders by key and neither adds nor loses entries |
| `Names.SortIsUnique` | include/wasmp/module.hpp:576-577 | With distinct keys every correct sort gives the same sequence |
| `Names.SortedIffOnce` | include/wasmp/module.hpp:576-583 | The map written is ascending by index, and strictly so, as a name map must be, if and only if no index has two names |
| `Names.GroupsSortedIffOnce` | include/wasmp/module.hpp:606-633 | The groups of local names are in strictly increasing order of functions, with strictly increasing locals in each, if and only if no local has two names |
| `Names.SortedKeeps` | include/wasmp/module.hpp:590-644 | What is written has the names that were given, each as often |
| `Names.GroupsRoundTrip` | include/wasmp/module.hpp:613-631 | Grouping rows by function loses nothing |
| `Names.NamesRoundTrip` | include/wasmp/module.hpp:590-644 | Reading the name section back gives every name if nothing is named twice, and fails otherwise: the decoder asks for strictly increasing indices in every map and strictly increasing functions over the maps of locals |
| `Codec.ChunksRoundTrip` | include/wasmp/module.hpp:561-572 | A sequence of sized chunks is read back exactly |
| `ModuleFormat.SectionsInOrder` | include/wasmp/module.hpp:378-559 | The sections come in the order 1-9, 12, 10, 11 with custom sections last, each at most once |
| `ModuleFormat.HasPreamble` | include/wasmp/module.hpp:561-567 | Every module starts with 00 61 73 6D 01 00 00 00, the eight bytes the decoder asks for |
| `ModuleFormat.ModuleRoundTrip` | include/wasmp/module.hpp:378-573 | Decoding an assembled module section by section recovers the contents of every section, for every module whose passive segments are function references, whose limits fit their width, whose names are UTF-8 and given once, and which has no user section called "name" |
| `DataCount.CountedIffPassive` | include/wasmp/module.hpp:507-512 | The assembled bytes say how many data segments there are if and only if some data segment is passive, the segments looked at one by one |
| `DataCount.WholeModuleIff` | include/wasmp/module.hpp:507-526 | By the whole grammar of section 5.5.16, which reads every body and asks for a data count section when a body names a data segment, the assembled bytes are a module if and only if every body is one, and some data segment is passive or no body names a data segment |
| `DataCount.NamesDataIffCalled` | include/wasmp/instructions.inc:305-306 | Whether the bytes of a body name a data segment is a question about the calls that made it: one of them is memory.init or data.drop |
| `Writers.PutLimits` | include/wasmp/module.hpp:40-49 | The flag arithmetic and the writes append exactly the encoding of the limits |
| `Writers.PutConstExpr` | include/wasmp/module.hpp:51-63 | Appends exactly the encoding of the expression |
| `Writers.PutElem` | include/wasmp/module.hpp:484-503 | Each of the three branches appends exactly the encoding of its kind of segment |
| `Writers.PutData` | include/wasmp/module.hpp:531-548 | The same for data segments |
| `Writers.PutImport` | include/wasmp/module.hpp:400-418 | Appends exactly the encoding of the import |
| `Writers.PutTypeVec` | include/wasmp/module.hpp:383-394 | The loop appends exactly the vector of types |
| `Writers.PutImportVec` | include/wasmp/module.hpp:397-420 | The loop appends exactly the vector of imports |
| `Writers.PutTableVec` | include/wasmp/module.hpp:431-439 | The loop appends exactly the vector of tables |
| `Writers.PutMemVec` | include/wasmp/module.hpp:442-447 | The loop appends exactly the vector of memories |
| `Writers.PutGlobalVec` | include/wasmp/module.hpp:450-459 | The loop appends exactly the vector of globals |
| `Writers.PutExportVec` | include/wasmp/module.hpp:462-471 | The loop appends exactly the vector of exports |
| `Writers.PutElemVec` | include/wasmp/module.hpp:481-505 | The loop appends exactly the vector of element segments |
| `Writers.PutDataVec` | include/wasmp/module.hpp:528-550 | The loop appends exactly the vector of data segments |
| `NameWriter.CountGroups` | include/wasmp/module.hpp:613-618 | The first pass counts the groups |
| `NameWriter.PutLocalNames` | include/wasmp/module.hpp:606-633 | Sorting, counting and the second pass append exactly the indirect name map of the grouped rows, sorted as the format asks if and only if no local has two names |
| `NameWriter.PutNameMap` | include/wasmp/module.hpp:576-583 | Appends exactly the name map, ascending by index, and strictly if and only if no index has two names |
| `NameWriter.WriteNames` | include/wasmp/module.hpp:590-638 | The subsections built apart and appended with their sizes are exactly the name section's chunks, and read back to the names if and only if nothing is named twice |
| `SectionWriter.PutBodyVec` | include/wasmp/module.hpp:515-525 | The loop appends each body behind its size |
| `SectionWriter.HasPassiveData` | include/wasmp/module.hpp:373-376 | The loop decides whether some data segment is passive, that is whether an index of a passive one exists |
| `SectionWriter.AddNames` | include/wasmp/module.hpp:590-644 | Adds one custom section called "name", exactly when there is something to name |
| `SectionWriter.AddCustoms` | include/wasmp/module.hpp:554-559 | The loop adds the user's custom sections in order |
| `Output.TotalSize` | include/wasmp/module.hpp:563-565 | The summed size equals the length of the whole output for every list of sections |
| `Output.PutSections` | include/wasmp/module.hpp:567-572 | After the reservation the buffer grows once more if and only if some section starts so late that the ten bytes asked for its size do not fit, and never twice |
| `Output.WriteModule` | include/wasmp/module.hpp:561-572 | The output is the bytes 00 61 73 6D 01 00 00 00 and the sections, and the number of growths is exactly the reservation's plus at most that one |
| `Assembly.Module.Head` | include/wasmp/module.hpp:378-459 | The branches for sections 1 to 6 build exactly those sections of the module |
| `Assembly.Module.Tail` | include/wasmp/module.hpp:461-550 | The branches for sections 7 to 11 and 12 build exactly those sections, data count before code |
| `Assembly.Module.AssembleInto` | include/wasmp/module.hpp:378-573 | The bytes written are the encoding of the module's state, after the magic number and version 1, with at most two growths |
| `Assembly.Module.TryAssemble` | include/wasmp/module.hpp:278-289 | Gives the encoding of the module exactly when every declared function was defined; it starts with the magic number and version 1, and reads back to the module's own types, imports, signatures and bodies, tables, memories, globals, exports, start function, segments, names and custom sections |
| `Assembly.Module.ReadsBack` | include/wasmp/module.hpp:378-573 | The encoding of a module that the format can carry decodes to each of the module's own lists, field by field, with both buffers of every body and with the given names, each as often |
| `Reading.DecodesIffSpelt` | include/wasmp/function_emitter.hpp:472-483 | The bytes of any log, checked or not, decode to a body with nothing left over if and only if its calls spell that body: the decoder cannot make sense of anything else |
| `ModuleValidity.ValidIffAccepted` | include/wasmp/module.hpp:514-525 | The bytes any emitter wrote for function k, trusting or validating, are a valid body in the module if and only if the validator accepts the calls in the environment read off the module: its types, its index spaces, k's parameters and the locals of the decoded runs, k's results |
| `ModuleValidity.CheckedStays` | include/wasmp/module.hpp:85-108 | A body that was checked against the module stays checked while the module declares more |
| `EndToEnd.DeclaredIsSnapshot` | include/wasmp/module.hpp:85-108 | In every state in which functions have interned types, what emitters are told of the module is what its bytes will say |
| `EndToEnd.DefineFinished` | README.md:30 | Finishing a body and defining a function with it: with validation it is let through if and only if its calls are accepted in the environment that the module's bytes give the function; the function's body then is what the emitter wrote, and no other function changes |
| `EndToEnd.ChecksStay` | include/wasmp/module.hpp:142-207 | Whatever is declared between two definitions, every body checked so far stays checked against the module as it has become |
| `EndToEnd.DefineChecked` | README.md:30 | With a validating emitter in a module of checked bodies, all bodies are checked afterwards, against the module as it is then |
| `EndToEnd.AssembledModuleIsValid` | include/wasmp/module.hpp:378-573 | A module of emitted bodies decodes section by section, and in the decoded module every body is valid if and only if the validator accepts the calls that made it. By the whole grammar it decodes if and only if each body is one, and some data segment is passive or no body names a data segment |
| `EndToEnd.AssembleChecked` | include/wasmp/module.hpp:278-289 | A module every function of which was defined through a validating emitter assembles, and the bytes are, by the whole grammar, a module in which every body is valid if and only if some data segment is passive or no body names a data segment |
| `EndToEnd.DropWithoutCount` | include/wasmp/module.hpp:507-512 | The failing input: whenever all data segments are active and the body of some function without results is data.drop of one of them, that body is checked and valid by the specification, each section reads back, and the bytes are no module |
| `EndToEnd.ValidBodyRuns` | include/wasmp/module.hpp:378-573 | A body that is valid in a decoded module runs safely exactly if its reachable instructions are guarded, and is valid by the specification exactly if its instructions are permitted, both with the references, segments, memories and tables of that module |

## Left out

- Tail calls: `return_call` and `return_call_indirect` do not compare the callee's results with the caller's, so acceptance says nothing about them.
- The instruction table: rows are data, `Fixed(pops, pushes)` with an opcode and an immediate shape; the parsing of effect strings is not modelled.
- `OnMemBulk`: which operands of the whole-memory instructions widen under memory64 is part of the row here.
- Feature gates (`CheckFeature`): one branch in front of a hook.
- Conditions on immediates are those of rows of the WebAssembly Core Specification 2.0; rows of later proposals (the atomic accesses, whose alignment must be exact) have none in `Contexts.Aligned` beyond the memory being there.
- The validity of modules outside their bodies (section 3.4: constant expressions, limits, export names, segments, the start function) is not modelled.
- `Validation.Validator.OnCtrlStart`: requires a block type's index to be an interned type, which the library indexes without a check.
- `Assembly.Module.Declared` and `Assembly.Module.NewEmitter`: require every function's type to be interned, where the library indexes with a handle unchecked.
- `Acceptance.AcceptsIffTyped`: typing is over concrete value types; derivations that leave a type open in dead code are covered by quantifying over all of them.
- `Safety.AcceptedRunsSafely`: values are represented by their types, tables by the types of the elements they may hold, whatever the index, and calls return at once with the callee's results, leaving tables with elements of their own types, which every body is held to. Numeric meaning, memory contents, traps on operands and recursion depth are not modelled; nontermination is covered as runs that consume any finite number of choices.
- `Machine.Step` has no step for an end on the function's own frame, which the emitter's assertion keeps from happening (`include/wasmp/function_emitter.hpp:521`); what the validator alone would do is in the contract of `OnEnd`.
- The signature hash: any function of the signature is allowed in its place.
- Float values are their 32- and 64-bit patterns.
- `std::sort` is modelled by a functional sort on a copy; `Names.SortIsUnique` says that with distinct keys it does not matter which sort is used.
- `Names.NamesRoundTrip`: for what is named twice the library's sort leaves the order open, and the model fixes one; the section is no name section either way.
- Section buffers are kept in the section list as their bytes, and a finished body is kept by the module as the bytes of its two buffers; moving buffers is not modelled.
- `SectionWriter.SizesFit`: lengths are assumed to fit 64 bits, as they do in memory.
- `Assembly.Module.ImportMemory`: the memory64 flag, which is constant, is recorded with the limits when they are declared instead of read when they are written.
- `EmitRaw`, which puts arbitrary bytes into a body.
- `Emission.FunctionEmitter.HandleMeans`: a handle kept after its block was closed, or taken to another emitter, branches to whatever block has its depth there, as in the library.
- `Emission.FunctionEmitter.Refresh`: the library's validator reads the module at every call; here the emitter is handed the declarations again when the module has grown.
- The features a module is built for are not in its bytes; `AssembledModuleIsValid` takes them as a parameter.
- `EndToEnd.DefineFinished`: requires operations the instruction table can describe and the format can carry (`Encoding.OpOk`: alignments below 64, offsets of the memory's width), as `MemArgRoundTrip` says exactly when the latter are.
- Moving emitters and handles, destructors that close frames, and more than one owner of a handle.
- Error texts, abort versus throw, allocation failure and overflow of sizes: a failure is a rejected call after which nothing is promised.
- `Assembly.Module.Assemble`: a module with an undefined function is excluded where the library reports an error; `TryAssemble` has both outcomes.
- Shifts and masks are written as division, remainder and, for power-of-two slot counts, remainder by the count.

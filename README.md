# MIPS back end of the Crux compiler, in Dafny

This project models the back end of an educational compiler for the Crux
language. The back end lowers a type-annotated syntax tree into MIPS assembly.
It has two parts.

- **The frame model** (`ActivationRecord`, `GlobalFrame`). It computes storage
  sizes (`numBytes`) and gives each argument and scalar local of a function an
  offset from the frame pointer. To resolve the address of a symbol it walks
  the chain of enclosing frames out to the global frame. The global frame
  places symbols in the data segment under `cruxdata.` labels.
- **The code generator** (`CodeGen`). It is a visitor that appends
  instructions to one `Program` while keeping the current activation record,
  the pending return label (`function_return`) and an error buffer.
  Expressions follow an evaluation-stack protocol; the node's type chooses
  between integer and float instructions; if/else and while take fresh labels;
  a function's prologue is inserted after its body is lowered; an error node
  aborts the visit.

Instructions are an abstract datatype (`Instructions.Instr`), not text; the
text the source writes differs from valid MIPS in two places, listed under
"Left out". The type checker is a given function from node to type (`Ast.TypeOracle`).

The model has two layers.

- `Lowering.Lower(n, tc, st)` is a pure function. It says what visiting node
  `n` does to the generator state: the program lines, the label counter, the
  frame chain, `function_return` and the error buffer. It also says how the
  visit ends: normally, with a `CodeGenException`, or with the exception
  `numBytes` raises for a type it has no size for.
- `CodeGenerator.CodeGen` is a class with the Java fields. `Programs.Program`
  and `ActivationRecords.ActivationRecord` are classes too. Each visit method
  changes these objects in place, and its contract ties the new state to
  `Lower`: `Step(outcome, State()) == Lower(n, tc, old(State()))`.

The properties are proved about `Lower`:

- label discipline (`LabelDiscipline`);
- net evaluation-stack effect (`StackEffect`);
- frame layout (`FrameLayout`);
- what the straight-line code of an expression computes, on a symbolic
  machine (`ExpressionValues`).

Files:

| file | module | contents |
|---|---|---|
| types.dfy | Types | the `Type` datatype, `numBytes` |
| ast.dfy | Ast | symbols, syntax tree, type oracle |
| instructions.dfy | Instructions | registers, labels, instructions, label and stack bookkeeping |
| program.dfy | Programs | the `Program` instruction buffer |
| activation.dfy | ActivationRecords | frames, offset tables, address resolution |
| lowering.dfy | Lowering | the visit of every node kind as a function, and `generate` |
| codegen.dfy | CodeGenerator | the `CodeGen` class |
| labels.dfy | LabelDiscipline | fresh labels are defined exactly once |
| stack.dfy | StackEffect | evaluation-stack effect of expressions and statements |
| frames.dfy | FrameLayout | locals recorded per frame, function prologue and epilogue sizes |
| values.dfy | ExpressionValues | symbolic execution of expression code |

`Program.java` is not part of this model. Its interface is modelled from the
way `CodeGen.java` uses it:

- `newLabel` returns a fresh label and emits nothing;
- `appendInstruction` returns the index of the appended line;
- `insertPrologue(pos, n)` inserts into the sequence at `pos`;
- push, pop, prologue, epilogue and exit are one abstract instruction each.

Those rows below cite the `CodeGen.java` lines that call them.

## Model

| member | source | states |
|---|---|---|
| Types.NumBytesIsWordsPerCell | 10447610_6/mips/ActivationRecord.java:22-35 | The size of every sized type is 4 bytes per scalar cell it holds, against an independent cell count, so it is a whole number of words. |
| Types.NumBytes | 10447610_6/mips/ActivationRecord.java:22-35 | Defined exactly on the types `numBytes` knows a size for, and the size is always a whole number of words (a multiple of 4). |
| ActivationRecords.MangleDataname | 10447610_6/mips/ActivationRecord.java:108-111 | A data label is `cruxdata.` followed by the symbol's name, so the name can be read back from the label. |
| ActivationRecords.MangleDatanameInjective | 10447610_6/mips/ActivationRecord.java:108-111 | Two global names get the same `cruxdata.` label exactly when they are equal. |
| ActivationRecords.ArgumentTable | 10447610_6/mips/ActivationRecord.java:54-60 | Every argument's slot, from its offset to its offset plus its size, lies within the total size of the arguments. |
| ActivationRecords.AddScalar | 10447610_6/mips/ActivationRecord.java:78-82 | The frame grows by the local's size, the local is recorded at the new frame size, and every other local, the arguments and the frame kind are unchanged. |
| ActivationRecords.ArgumentTableKeys | 10447610_6/mips/ActivationRecord.java:54-60 | The constructor's table has an offset for exactly the function's arguments. |
| ActivationRecords.ArgumentOffsets | 10447610_6/mips/ActivationRecord.java:55-60 | With distinct arguments, each argument's offset is the total size of the arguments declared after it. |
| ActivationRecords.ArgumentOffsetsDecrease | 10447610_6/mips/ActivationRecord.java:55-60 | An earlier argument lies at least the later one's size above it, and the last argument is at offset 0. |
| ActivationRecords.LocalOffsets | 10447610_6/mips/ActivationRecord.java:78-82 | After scalar `add`s of distinct symbols in order: the frame size grew by their total size; each symbol's offset is the prefix sum up to and including itself; earlier locals, the arguments and the global flag are unchanged. |
| ActivationRecords.LocalOffsetsIncrease | 10447610_6/mips/ActivationRecord.java:80-81 | Local offsets strictly increase in declaration order. |
| ActivationRecords.FrameAddress | 10447610_6/mips/ActivationRecord.java:90-129 | The global frame gives `la reg, cruxdata.<name>`; a function frame gives an `addi reg, $fp` with a negative offset for a local and a non-negative one for an argument. |
| ActivationRecords.ResolveIn | 10447610_6/mips/ActivationRecord.java:90-99 | Resolving along a chain emits at most one instruction, and it writes the requested register from a data label or from `$fp`. |
| ActivationRecords.ResolveInnermost | 10447610_6/mips/ActivationRecord.java:90-99 | Resolution emits exactly the instruction of the innermost frame holding the symbol: locals first, then arguments, then the parent. |
| ActivationRecords.ResolveMiss | 10447610_6/mips/ActivationRecord.java:92-98 | If no frame on the chain holds the symbol, nothing is emitted. |
| ActivationRecords.ResolveAtGlobal | 10447610_6/mips/ActivationRecord.java:90-129 | On a chain ending in the global frame, exactly one instruction is emitted; it is `la reg, cruxdata.<name>` when no function frame holds the symbol. |
| ActivationRecords.ActivationRecord.Global | 10447610_6/mips/ActivationRecord.java:17-20 | `newGlobalFrame` yields a parentless global frame with size 0 and no tables. |
| ActivationRecords.ActivationRecord.constructor | 10447610_6/mips/ActivationRecord.java:46-61 | The backward loop builds `NewFrame(args)`: frame size 0, empty locals, the argument table above, and the given parent. |
| ActivationRecords.ActivationRecord.AddVariable | 10447610_6/mips/ActivationRecord.java:78-117 | On a function frame, the size grows by `numBytes`, the symbol maps to the new size, and nothing is emitted. On the global frame, exactly one `cruxdata.<name> : .space numBytes` line is appended and the frame is unchanged. Either way the parent chain is unchanged. |
| ActivationRecords.ActivationRecord.AddArray | 10447610_6/mips/ActivationRecord.java:84-123 | On a function frame, nothing changes and nothing is emitted. On the global frame, exactly one `.space` line sized by `numBytes` is appended. |
| ActivationRecords.ActivationRecord.GetAddress | 10447610_6/mips/ActivationRecord.java:90-129 | The recursive walk, with the global frame's override, appends exactly `ResolveIn` of the record's chain: the innermost holding frame's address instruction, or `la reg, cruxdata.<name>` at the global frame. |
| Programs.Program.NewLabel | 10447610_6/mips/CodeGen.java:407-408 | Returns the next generated label, which no line mentions yet; the code is unchanged and the counter grows by one. |
| Programs.Program.AppendInstruction | 10447610_6/mips/CodeGen.java:128 | Appends one line and returns its index. |
| Programs.Program.InsertPrologue | 10447610_6/mips/CodeGen.java:131 | Inserts the prologue at the given position, keeping every other line in order. |
| Lowering.ArgumentCheck | 10447610_6/mips/ActivationRecord.java:56-59 | The constructor's loop ends normally exactly when every argument has a size; otherwise `numBytes` raises. |
| Lowering.ArgumentCheckReportsLast | 10447610_6/mips/ActivationRecord.java:56-59 | The type raised on is the type of the last unsized argument, because the loop runs backwards. |
| Lowering.ArgumentBytesStops | 10447610_6/mips/CodeGen.java:389-392 | Once the `argument_bytes` loop meets an unsized type, the remaining arguments do not change the result. |
| Lowering.Lower | 10447610_6/mips/CodeGen.java:57-472 | Every visit only extends the code, never lowers the label counter, and ends with as many frames as it started with if it ends normally (more only after an abort inside a nested function). The error buffer gains text only on a `CodeGenException`, and then exactly its non-empty message. |
| Lowering.LowerVariableDeclaration | 10447610_6/mips/CodeGen.java:105-108 | The declaration ends normally exactly when the type has a size, and otherwise raises with nothing changed. On the global frame it appends the one data line; on a function frame it emits nothing and grows the frame by `numBytes`. Enclosing frames, labels, `function_return` and errors are unchanged. |
| Lowering.LowerIfElse | 10447610_6/mips/CodeGen.java:403-429 | Besides what every visit keeps, an if/else that ends normally has taken at least two fresh labels. |
| Lowering.LowerWhile | 10447610_6/mips/CodeGen.java:431-449 | A loop that ends normally has taken at least two labels. Its code starts with the definition of the first label and ends with the definition of the second. |
| Lowering.LowerFunction | 10447610_6/mips/CodeGen.java:115-150 | An unsized argument raises before anything changes. Otherwise the function's code starts with its entry label, however the body ends. |
| Lowering.LowerReturn | 10447610_6/mips/CodeGen.java:451-465 | A return that ends normally ends with a jump to the label `function_return` holds at that point. |
| Lowering.LowerError | 10447610_6/mips/CodeGen.java:467-472 | The error node always aborts with a non-empty message; the message is appended to the error buffer and nothing else changes. |
| Lowering.LowerListStops | 10447610_6/mips/CodeGen.java:57-76 | Once an item of a list aborts, the items after it are not visited. |
| Lowering.LowerCallTail | 10447610_6/mips/CodeGen.java:385-400 | The call proper keeps the frames, the labels and the error buffer, and only appends code. |
| Lowering.LowerFunctionBody | 10447610_6/mips/CodeGen.java:129-148 | The body, prologue insertion and exit keep everything up to the entry label and pop one frame when they end normally. |
| Lowering.GenerationVerdict | 10447610_6/mips/CodeGen.java:41-50 | From an empty buffer, `generate` returns true exactly when the buffer stays empty and false exactly when an error node was reached. Only the exception of `numBytes` escapes, and then the buffer is empty. |
| CodeGenerator.CodeGen.constructor | 10447610_6/mips/CodeGen.java:17-21 | A fresh generator has an empty program, no labels handed out and an empty error buffer. |
| CodeGenerator.CodeGen.ErrorReport | 10447610_6/mips/CodeGen.java:28-31 | Returns the error buffer. |
| CodeGenerator.CodeGen.Generate | 10447610_6/mips/CodeGen.java:41-50 | The result and the final state are `Generation` of the tree from a fresh global frame. For a tree without nested definitions from an empty program, a true result means every generated label the code mentions is defined exactly once. |
| CodeGenerator.CodeGen.Visit | 10447610_6/mips/CodeGen.java:57-472 | Dispatching on the node's class does exactly what `Lower` says. |
| CodeGenerator.CodeGen.VisitList | 10447610_6/mips/CodeGen.java:57-76 | The loop over the children follows `LowerList`: each item in order, stopping at the first abort. |
| CodeGenerator.CodeGen.VisitOperands | 10447610_6/mips/CodeGen.java:154-155 | Left operand, then right operand, as `LowerOperands`. |
| CodeGenerator.CodeGen.VisitAddressOf | 10447610_6/mips/CodeGen.java:78-84 | Resolves the address into `$t0` and pushes it, as `Lower`. |
| CodeGenerator.CodeGen.VisitLiteralBool | 10447610_6/mips/CodeGen.java:86-91 | Loads the ordinal into `$t0` and pushes it as an int, as `Lower`. |
| CodeGenerator.CodeGen.VisitLiteralFloat | 10447610_6/mips/CodeGen.java:93-97 | `li.s $f0` and a float push, as `Lower`. |
| CodeGenerator.CodeGen.VisitLiteralInt | 10447610_6/mips/CodeGen.java:99-103 | Loads the value into `$t0` and pushes it as an int, as `Lower`. |
| CodeGenerator.CodeGen.VisitVariableDeclaration | 10447610_6/mips/CodeGen.java:105-108 | The current frame's `add` of a scalar, as `Lower`, including the `numBytes` exception. |
| CodeGenerator.CodeGen.VisitArrayDeclaration | 10447610_6/mips/CodeGen.java:110-113 | The current frame's `add` of an array, as `Lower`. |
| CodeGenerator.CodeGen.VisitFunctionDefinition | 10447610_6/mips/CodeGen.java:115-150 | New frame, fresh `function_return`, entry label, body, prologue, exit and the restored parent frame, as `Lower`. |
| CodeGenerator.CodeGen.EnterFrame | 10447610_6/mips/CodeGen.java:117 | The new current record is a fresh frame for the arguments whose parent is the old current frame. |
| CodeGenerator.CodeGen.VisitFunctionBody | 10447610_6/mips/CodeGen.java:129-148 | Follows `LowerFunctionBody`, and on a normal end the parent is current again. |
| CodeGenerator.CodeGen.VisitArithmetic | 10447610_6/mips/CodeGen.java:152-247 | Both operands, then the integer or float tail chosen by the node's type, as `Lower`. |
| CodeGenerator.CodeGen.VisitLogicalAnd | 10447610_6/mips/CodeGen.java:249-263 | Both operands, then the `and` tail only on a bool node, as `Lower`. |
| CodeGenerator.CodeGen.VisitLogicalOr | 10447610_6/mips/CodeGen.java:265-279 | Both operands, then the `or` tail only on a bool node, as `Lower`. |
| CodeGenerator.CodeGen.VisitLogicalNot | 10447610_6/mips/CodeGen.java:281-294 | The operand, then the `xor` with all ones only on a bool node, as `Lower`. |
| CodeGenerator.CodeGen.VisitComparison | 10447610_6/mips/CodeGen.java:296-317 | Both operands, then `FloatCompare` (the source's `c.<op>.s` text) for a float node or `s<op>` and a push otherwise, as `Lower`. |
| CodeGenerator.CodeGen.VisitDereference | 10447610_6/mips/CodeGen.java:319-336 | The address, then `LoadWord` and an int push for an int node, otherwise `LoadWordFloat` and a float push, as `Lower` (the source writes these as `lw, …` and `lwc1, …`). |
| CodeGenerator.CodeGen.VisitIndex | 10447610_6/mips/CodeGen.java:338-359 | Base and amount, two pops, then the scaling by the element size, or the `numBytes` exception, as `Lower`. |
| CodeGenerator.CodeGen.VisitAssignment | 10447610_6/mips/CodeGen.java:361-379 | Destination and source, then `swc1` for a float node and `sw` otherwise, as `Lower`. |
| CodeGenerator.CodeGen.ArgumentBytesOf | 10447610_6/mips/CodeGen.java:388-392 | The loop's sum is `ArgumentBytes`: the sizes of the argument types in order, or the first unsized type. |
| CodeGenerator.CodeGen.VisitCall | 10447610_6/mips/CodeGen.java:381-401 | The arguments, then the call proper, as `Lower`. |
| CodeGenerator.CodeGen.EmitCall | 10447610_6/mips/CodeGen.java:385-400 | `jal`, then `addi $sp` by the argument bytes only when there are arguments, then the pushed result of a non-void function, as `LowerCallTail`. |
| CodeGenerator.CodeGen.VisitIfElseBranch | 10447610_6/mips/CodeGen.java:403-429 | Condition, two fresh labels, the exit test chosen by the condition's type, then the branches, as `Lower`. |
| CodeGenerator.CodeGen.VisitBranches | 10447610_6/mips/CodeGen.java:420-427 | Then block, `j done`, `else:`, else block, `done:`, as `LowerBranches`. |
| CodeGenerator.CodeGen.VisitWhileLoop | 10447610_6/mips/CodeGen.java:431-449 | Two fresh labels, `loop:`, the condition, an integer pop and `beq` to the end, then the body, as `Lower`. |
| CodeGenerator.CodeGen.VisitLoopBody | 10447610_6/mips/CodeGen.java:445-448 | Body, `j loop`, `end:`, as `LowerLoopBody`. |
| CodeGenerator.CodeGen.VisitReturn | 10447610_6/mips/CodeGen.java:451-465 | The argument, then a jump to the label `function_return` holds after it, as `Lower`. |
| CodeGenerator.CodeGen.VisitError | 10447610_6/mips/CodeGen.java:467-472 | The message is appended to the buffer and the visit aborts with it, as `Lower`. |
| LabelDiscipline.LabelsFresh | 10447610_6/mips/CodeGen.java:403-449 | For a tree without nested definitions, a visit that ends normally defines each label it handed out exactly once and no other generated label. A tree without definitions leaves `function_return` unchanged. |
| LabelDiscipline.IfElseFresh | 10447610_6/mips/CodeGen.java:403-429 | The if/else defines its else and done labels once each, and defines nothing else beyond what its parts hand out. |
| LabelDiscipline.WhileFresh | 10447610_6/mips/CodeGen.java:431-449 | The loop defines its loop and end labels once each, and defines nothing else beyond what its parts hand out. |
| LabelDiscipline.FunctionFresh | 10447610_6/mips/CodeGen.java:115-150 | A function definition defines its return label once, and labels from its body once each. |
| LabelDiscipline.GeneratedLabelsDefinedOnce | 10447610_6/mips/CodeGen.java:41-50 | When `generate` returns true on such a tree from an empty program, each label handed out is defined exactly once and no other generated label is defined. |
| LabelDiscipline.TargetsDefinedOnce | 10447610_6/mips/CodeGen.java:413-448 | Hence every generated label a jump or branch targets is defined exactly once. |
| LabelDiscipline.FunctionLeavesOwnReturn | 10447610_6/mips/CodeGen.java:120-148 | After a function definition, `function_return` still holds that function's own return label: it is not restored. |
| LabelDiscipline.NestedDefinitionMisplacesReturn | 10447610_6/mips/CodeGen.java:115-150 | A definition directly inside another leaves the outer return label never defined and the inner one defined twice. |
| StackEffect.ArithTailEffect | 10447610_6/mips/CodeGen.java:152-247 | Each arithmetic tail takes one word off the stack net: two pops and one push, integer or float. |
| StackEffect.ComparisonTailEffect | 10447610_6/mips/CodeGen.java:303-316 | A float comparison pops two words and pushes none; an integer comparison pops two and pushes one. |
| StackEffect.LogicTailEffects | 10447610_6/mips/CodeGen.java:256-293 | `and` and `or` take one word net; `not` leaves the depth unchanged. |
| StackEffect.MemoryTailEffects | 10447610_6/mips/CodeGen.java:319-379 | A load leaves the depth unchanged; indexing takes one word net; a store takes two. |
| StackEffect.ControlEffects | 10447610_6/mips/CodeGen.java:412-448 | The float exit test moves nothing; the integer one pops a word; jumps and labels move nothing. |
| StackEffect.ResolveEffect | 10447610_6/mips/ActivationRecord.java:90-99 | Address resolution leaves the stack alone. |
| StackEffect.ScalarArgumentBytes | 10447610_6/mips/CodeGen.java:389-392 | For scalar arguments, `argument_bytes` is 4 per argument. |
| StackEffect.ValuePushesWord | 10447610_6/mips/CodeGen.java:78-401 | The visit of a value expression that ends normally leaves exactly one more word on the stack. |
| StackEffect.CallEffect | 10447610_6/mips/CodeGen.java:381-401 | A call with scalar arguments reclaims exactly the words its arguments pushed, then pushes one word for a non-void function. |
| StackEffect.FlagLeavesStack | 10447610_6/mips/CodeGen.java:303-309 | A float comparison of two values leaves the depth as it was. |
| StackEffect.StatementBalanced | 10447610_6/mips/CodeGen.java:361-449 | Declarations, assignments, void calls, if/else and while leave the depth as they found it. |
| StackEffect.IfElseBalanced | 10447610_6/mips/CodeGen.java:403-429 | The exit test takes back what the condition pushed, or reads the flag a float comparison set. |
| StackEffect.WhileBalanced | 10447610_6/mips/CodeGen.java:431-449 | A loop with a value condition leaves the depth as it found it. |
| StackEffect.WhileFloatConditionUnderflows | 10447610_6/mips/CodeGen.java:437-443 | A loop whose condition is a float comparison takes one word more off the stack than it put on, because the condition is always popped as an int. |
| FrameLayout.AddAllSize | 10447610_6/mips/ActivationRecord.java:80 | Adding scalars grows the frame by their total size and keeps the arguments and the global flag. |
| FrameLayout.FramesTrack | 10447610_6/mips/CodeGen.java:105-113 | A visit that ends normally has added exactly the scalar locals the tree declares, in order, to the current function frame, and left every enclosing frame alone. |
| FrameLayout.FunctionLayout | 10447610_6/mips/CodeGen.java:115-150 | A function that ends normally restores the frames. After the entry label come the prologue, the body, the return label, the result and the teardown. Prologue and epilogue are both sized by the total storage of the scalar locals the body declares. |
| ExpressionValues.Signed32 | 10447610_6/mips/CodeGen.java:289 | The 32-bit register value is the two's-complement range representative, congruent mod 2^32. |
| ExpressionValues.AllOnes | 10447610_6/mips/CodeGen.java:289-290 | `lui 0xFFFF` gives -65536, and the arithmetic shift by 16 gives -1. |
| ExpressionValues.ValueOf | 10447610_6/mips/CodeGen.java:78-359 | From any machine state, the code of an evaluable expression leaves exactly the term it denotes on top of the stack. Nothing is stored, and the frames, flag and frame pointer are kept. |
| ExpressionValues.LiteralValue | 10447610_6/mips/CodeGen.java:86-103 | A literal pushes its value: a bool as its ordinal and an int as itself, through `$t0`; a float through `$f0`. |
| ExpressionValues.AddressValue | 10447610_6/mips/ActivationRecord.java:90-129 | The emitted address instruction and push leave the symbol's location: a data label in the global frame; otherwise an offset from `$fp`, below it past the fixed frame for a local, above it for an argument. |
| ExpressionValues.ArithTailValue | 10447610_6/mips/CodeGen.java:159-173 | The arithmetic tail replaces the top two terms with their sum, difference, product or quotient, left operand first for `-` and `/`, in the family the node's type picks. |
| ExpressionValues.ArithValue | 10447610_6/mips/CodeGen.java:152-247 | Arithmetic pushes `left op right` of its operands' values. |
| ExpressionValues.ComparisonTailValue | 10447610_6/mips/CodeGen.java:311-315 | An integer comparison pushes the relation of the left operand to the right one. |
| ExpressionValues.OrTailValue | 10447610_6/mips/CodeGen.java:272-277 | The float pops and push of `or` still move the same words, so the bitwise or is pushed. |
| ExpressionValues.LogicValue | 10447610_6/mips/CodeGen.java:249-317 | An integer comparison, or a bool `and` or `or`, pushes the relation or the bitwise combination of its operands. |
| ExpressionValues.NotTailValue | 10447610_6/mips/CodeGen.java:287-293 | `not` pushes the exclusive or of its operand with all ones. |
| ExpressionValues.DereferenceTailValue | 10447610_6/mips/CodeGen.java:326-334 | A dereference pushes the word loaded from the popped address: an integer load for an int node, a float load otherwise. |
| ExpressionValues.UnaryValue | 10447610_6/mips/CodeGen.java:281-336 | `not` and dereference push those same terms of their operand's value. |
| ExpressionValues.IndexTailValue | 10447610_6/mips/CodeGen.java:343-358 | The index tail pushes `amount * elementBytes + base`, with the amount popped first. |
| ExpressionValues.IndexValue | 10447610_6/mips/CodeGen.java:338-359 | Indexing pushes the base plus the amount scaled by the size of the element type the node's type names; it needs that element type to have a size. |
| ExpressionValues.FloatComparisonSetsFlag | 10447610_6/mips/CodeGen.java:303-309 | A float comparison leaves the stack as it was and stores nothing. It sets the condition flag to the relation of the left operand to the right one. |
| ExpressionValues.AssignmentTailValue | 10447610_6/mips/CodeGen.java:368-378 | The store pops the source, then the address, and stores the source at the address: `swc1` for float, `sw` otherwise. |
| ExpressionValues.AssignmentStores | 10447610_6/mips/CodeGen.java:361-379 | An assignment of two evaluable operands leaves the stack as it found it, and records one store: the source's value at the destination's address. |

## Left out

- Instruction text is not modelled: each `Instr` stands for the line the source appends, and the model gives it the meaning the generator evidently intends. Two consequences:
  - `LoadWord` and `LoadWordFloat` stand for the lines `lw, $t1, 0($t0)` and `lwc1, $f0, 0($t0)` (CodeGen.java:329 and 332). The comma after the mnemonic makes both lines malformed assembly.
  - `FloatCompare(op, …)` stands for `c.<op>.s` for all six comparisons (CodeGen.java:309). MIPS has single-precision compares only for `eq`, `lt` and `le`, so `c.ne.s`, `c.gt.s` and `c.ge.s` are not instructions. `ExpressionValues.Exec` and `ExpressionValues.FloatComparisonSetsFlag` still give `NE`, `GT` and `GE` the flag-setting meaning of their names.
- `Compiler.java` is not part of this model. It is driver glue: file input and output, the scanner, parser and type checker calls, and the external simulator process.
- The type checker's internals are not modelled. `TypeChecker.getType` is a given function from node to type, and `Type.equivalent` is `==` on the `Type` datatype. The oracle is keyed by the node's structure, not by object identity.
- `Program`'s internals and its text format are not modelled, including `Program.print` and the instruction sequences behind push, pop, prologue, epilogue and exit.
- The generated code is never run as a whole. `ExpressionValues` runs only the straight-line code of expressions on a symbolic machine whose words are terms. It covers no calls, jumps or labels, no 32-bit arithmetic and no float semantics.
- Float literal values are uninterpreted: `floatValue()` is kept as an opaque constant.
- Java mechanics: visitor double dispatch is a `match`, `CodeGenException` is an `Outcome`, and `HashMap` is a Dafny `map` keyed by a symbol with an identity.
- `function_return` holds Java `null` before the first function definition. It is modelled as a named label with the text `null`, which is what string concatenation would print.
- These quirks are kept as written, not fixed:
  - `LogicalAnd`, `LogicalOr` and `LogicalNot` push nothing on a node that is not bool;
  - `LogicalOr` pops and pushes with the float operations on `$t` registers;
  - the while loop always pops its condition as an int;
  - a function frame does not allocate local arrays;
  - a call's result is pushed with a raw `subu`/`sw`;
  - `function_return` is never restored after a function definition;
  - a nested function's code is emitted inline inside the outer one's.
- An `AddressOf` of a variable of an enclosing function is resolved from the current `$fp`, as the source does. The model records this offset; it does not claim it names the right memory.
- Types.NumBytes: sizes are unbounded integers. The source computes them in 32-bit Java `int`, where for example an array of 2^30 ints has size 0. This model assumes every size fits in a Java `int`.
- ActivationRecords.SumBytes, ActivationRecords.ArgumentTable and ActivationRecords.AddScalar: frame sizes and offsets are unbounded too. The source's `stackSize` and argument `offset` are Java `int` and would wrap past 2^31 - 1. The `.space` sizes, offsets and prologue and epilogue sizes agree with the source only while they fit.
- Lowering.ArgumentBytes: the `argument_bytes` sum is unbounded, not 32-bit, so the `addi $sp` amount agrees with the source only while it fits in a Java `int`.
- CodeGenerator.CodeGen.constructor: the model installs the global frame at construction. The source leaves `currentFunction` null until `generate` sets it, so there a visit before `generate` throws a `NullPointerException`; the model has no such exception.
- LabelDiscipline.GeneratedLabelsDefinedOnce: stated only for trees without nested function definitions. With nested definitions the property is false: see `LabelDiscipline.NestedDefinitionMisplacesReturn`.
- ExpressionValues.ValueOf: covers expressions whose code is straight-line and pushes one value. Calls are not covered, nor nodes typed outside the cases the source handles: a float comparison is covered separately by `FloatComparisonSetsFlag`, and the logical operators are covered only on bool nodes. It assumes a frame chain that ends in the global frame, as `generate` always builds.
- StackEffect.ValuePushesWord: the net byte count of the appended code is a static sum along the code. It does not follow jumps.
- `CodeGen.hasError` is modelled by `CodeGenerator.CodeGen.HasError`. Its meaning is stated by `Lowering.GenerationVerdict`.

/** The code generator as a function of its state: `Lower(n, tc, st)` is what
    visiting node `n` does to the program, the frame stack, the pending return
    label and the error buffer, and how the visit ends (normally, with a
    `CodeGenException`, or with the `RuntimeException` of `numBytes`). The
    `CodeGen` class is proved to follow it step for step. */
module Lowering {
  import opened Types
  import opened Ast
  import opened Instructions
  import opened ActivationRecords

  /** How a visit ends. `NoSizeKnown(t)` is `numBytes(t)` raising its
      exception; `CodeGenFailure(m)` is a `CodeGenException` with message m. */
  datatype Outcome = Done | CodeGenFailure(message: string) | NoSizeKnown(t: Type)

  /** The generator's state: the program lines, the label counter, the frame
      chain from `currentFunction` outward, `function_return` and the text of
      the error buffer. */
  datatype GenState = GenState(
    code: seq<Instr>,
    labelCount: nat,
    frames: seq<FrameView>,
    functionReturn: Label,
    errors: string)

  datatype Step = Step(outcome: Outcome, state: GenState)

  /** The result of `generate`: it returns a boolean, or `numBytes`'s
      exception escapes it. */
  datatype GenerateResult = Returned(ok: bool) | Raised(noSizeFor: Type)

  /** The size `numBytes` would compute, or the type it raises on. */
  datatype Sized = Sized(bytes: nat) | Unsized(t: Type)

  /** `function_return` before the first function definition: Java's `null`,
      which string concatenation prints as "null". */
  const InitialReturn: Label := Named("null")

  function Emit(st: GenState, instrs: seq<Instr>): GenState {
    st.(code := st.code + instrs)
  }

  /** Continues with `instrs` after a step that ended normally. */
  function Then(r: Step, instrs: seq<Instr>): Step {
    if r.outcome.Done? then Step(Done, Emit(r.state, instrs)) else r
  }

  /** The label a function definition starts with. */
  function EntryLabel(f: Symbol): Label {
    if f.name == "main" then Named("main") else Named("crxfunction." + f.name)
  }

  /** The label a call jumps to; `main` is not special here. */
  function CallTarget(f: Symbol): Label {
    Named("crxfunction." + f.name)
  }

  /** The message of the error sentinel's exception. */
  function ErrorMessage(text: string): string {
    "CodeGen cannot compile a " + text
  }

  /** The element type used to scale an index: one address level is stripped. */
  function ElementType(t: Type): Type {
    if t.AddressType? then t.base else t
  }

  /** How the frame constructor's backward loop over the arguments ends:
      normally when every argument has a size, and otherwise with the first
      unsized type it meets. */
  function ArgumentCheck(args: seq<Symbol>): (o: Outcome)
    ensures o.Done? || o.NoSizeKnown?
    ensures o.Done? <==> forall k :: 0 <= k < |args| ==> Storable(args[k].typ)
  {
    if args == [] then Done
    else if !Storable(args[|args| - 1].typ) then NoSizeKnown(args[|args| - 1].typ)
    else
      var o := ArgumentCheck(args[..|args| - 1]);
      assert forall k :: 0 <= k < |args| - 1 ==> args[..|args| - 1][k] == args[k];
      o
  }

  /** Argument `k` is unsized, has type `t`, and every argument after it is sized. */
  predicate LastUnsized(args: seq<Symbol>, k: nat, t: Type) {
    k < |args| && t == args[k].typ && !Storable(t) && forall j :: k < j < |args| ==> Storable(args[j].typ)
  }

  /** The loop runs from the last argument to the first, so the type it
      raises on is that of the last unsized argument. */
  lemma {:induction false} ArgumentCheckReportsLast(args: seq<Symbol>)
    requires ArgumentCheck(args).NoSizeKnown?
    ensures exists k :: LastUnsized(args, k, ArgumentCheck(args).t)
  {
    var last := |args| - 1;
    if Storable(args[last].typ) {
      var init := args[..last];
      assert ArgumentCheck(args) == ArgumentCheck(init);
      ArgumentCheckReportsLast(init);
      var k :| LastUnsized(init, k, ArgumentCheck(init).t);
      ExtendLastUnsized(args, k, ArgumentCheck(init).t);
    } else {
      assert LastUnsized(args, last, ArgumentCheck(args).t);
    }
  }

  /** A last unsized argument of all but the final, sized, argument stays the last one. */
  lemma ExtendLastUnsized(args: seq<Symbol>, k: nat, t: Type)
    requires args != [] && Storable(args[|args| - 1].typ)
    requires LastUnsized(args[..|args| - 1], k, t)
    ensures LastUnsized(args, k, t)
  {
    var init := args[..|args| - 1];
    assert forall j :: k < j < |init| ==> init[j] == args[j];
  }

  /** `argument_bytes` of a call: the sizes of the argument nodes' types,
      summed in order, or the first type `numBytes` raises on. */
  function ArgumentBytes(args: seq<Command>, tc: TypeOracle): Sized {
    if args == [] then Sized(0)
    else
      match ArgumentBytes(args[..|args| - 1], tc)
      case Unsized(t) => Unsized(t)
      case Sized(b) =>
        var t := tc(args[|args| - 1]);
        if Storable(t) then Sized(b + NumBytes(t)) else Unsized(t)
  }

  /** Once the running sum meets an unsized type, the rest of the arguments
      do not matter. */
  lemma {:induction false} ArgumentBytesStops(args: seq<Command>, tc: TypeOracle, i: nat)
    requires i <= |args| && ArgumentBytes(args[..i], tc).Unsized?
    ensures ArgumentBytes(args, tc) == ArgumentBytes(args[..i], tc)
    decreases |args| - i
  {
    if i < |args| {
      assert args[..i + 1][..i] == args[..i];
      ArgumentBytesStops(args, tc, i + 1);
    } else {
      assert args[..i] == args;
    }
  }

  /** The instructions after the operands of `+ - * /`. The first pop is the
      right operand, so subtraction and division name the left one first. */
  function ArithTail(op: ArithOp, float: bool): seq<Instr> {
    var reversed := op == Sub || op == Div;
    if float then
      [PopFloat(F0), PopFloat(F2),
       if reversed then FloatArith(op, F4, F2, F0) else FloatArith(op, F4, F0, F2),
       PushFloat(F4)]
    else
      [PopInt(T0), PopInt(T1),
       if reversed then IntArith(op, T2, T1, T0) else IntArith(op, T2, T0, T1),
       PushInt(T2)]
  }

  function ComparisonTail(cmp: Operation, float: bool): seq<Instr> {
    if float then [PopFloat(F0), PopFloat(F2), FloatCompare(cmp, F2, F0)]
    else [PopInt(T0), PopInt(T1), SetCompare(cmp, T2, T1, T0), PushInt(T2)]
  }

  /** The instructions after both operands of a logical and; none unless the
      node is boolean. */
  function AndTail(boolean: bool): seq<Instr> {
    if boolean then [PopInt(T0), PopInt(T1), And(T2, T0, T1), PushInt(T2)] else []
  }

  /** The logical or pops and pushes with the float operations, on integer
      registers. */
  function OrTail(boolean: bool): seq<Instr> {
    if boolean then [PopFloat(T0), PopFloat(T1), Or(T2, T0, T1), PushFloat(T2)] else []
  }

  /** Not: xor with all ones, built by `lui` and an arithmetic shift. */
  function NotTail(boolean: bool): seq<Instr> {
    if boolean then [PopInt(T0), LoadUpper(T1, 0xFFFF), ShiftRightArith(T1, T1, 16), Xor(T2, T1, T0), PushInt(T2)]
    else []
  }

  function DereferenceTail(integer: bool): seq<Instr> {
    [PopInt(T0)] + if integer then [LoadWord(T1, T0), PushInt(T1)] else [LoadWordFloat(F0, T0), PushFloat(F0)]
  }

  function AssignmentTail(float: bool): seq<Instr> {
    if float then [PopFloat(F2), PopInt(T0), StoreWordFloat(F2, T0)]
    else [PopInt(T1), PopInt(T0), StoreWord(T1, T0)]
  }

  /** Scale the popped index by the element size and add the popped base. */
  function IndexTail(elementBytes: nat): seq<Instr> {
    [AddImm(T2, Zero, elementBytes), IntArith(Mul, T0, T0, T2), IntArith(Add, T0, T0, T1), PushInt(T0)]
  }

  /** The value a non-void call leaves in `$v0`, pushed with a raw `subu`/`sw`. */
  function CallResult(f: Symbol): seq<Instr> {
    if f.typ != VoidType then [SubImmUnsigned(SP, SP, 4), StoreWord(V0, SP)] else []
  }

  /** The pop of a function's result into `$v0` at its return label. */
  function ReturnValue(f: Symbol): seq<Instr> {
    if f.typ == VoidType then []
    else if f.typ == FloatType then [PopFloat(V0)]
    else [PopInt(V0)]
  }

  /** Leave to `target` when the value just computed is false: a float
      comparison sets the condition flag, anything else is popped and
      compared with zero. */
  function BranchIfFalse(float: bool, target: Label): seq<Instr> {
    if float then [BranchFloatFalse(target)] else [PopInt(T0), BranchEqual(T0, Zero, target)]
  }

  /** The return label, the result moved to `$v0`, and the frame teardown. */
  function FunctionEnd(f: Symbol, returnLabel: Label, frameSize: nat): seq<Instr> {
    [DefineLabel(returnLabel)] + ReturnValue(f) + [FunctionExit(f, frameSize)]
  }

  function FunctionExit(f: Symbol, frameSize: nat): Instr {
    if f.name == "main" then Exit else Epilogue(frameSize)
  }

  /** `frames` is never empty and only grows on an abort inside a nested
      function; the code is only ever extended; the error buffer gains text
      only on a `CodeGenException`, and then exactly its message. */
  predicate Extends(st: GenState, r: Step) {
    && |r.state.frames| >= |st.frames|
    && (r.outcome.Done? ==> |r.state.frames| == |st.frames|)
    && st.code <= r.state.code
    && st.labelCount <= r.state.labelCount
    && r.state.errors == st.errors + Reported(r.outcome)
    && (r.outcome.CodeGenFailure? ==> r.outcome.message != "")
  }

  /** The text a visit that ends this way has added to the error buffer. */
  function Reported(o: Outcome): string {
    if o.CodeGenFailure? then o.message else ""
  }

  /** `accept`: the lowering of the node's class. */
  function Lower(n: Command, tc: TypeOracle, st: GenState): (r: Step)
    requires st.frames != []
    ensures Extends(st, r)
    decreases n, 2
  {
    match n
    case ExpressionList(items) => LowerList(items, n, tc, st)
    case DeclarationList(items) => LowerList(items, n, tc, st)
    case StatementList(items) => LowerList(items, n, tc, st)
    case AddressOf(_) => LowerAddressOf(n, st)
    case LiteralBool(_) => LowerLiteralBool(n, st)
    case LiteralFloat(_) => LowerLiteralFloat(n, st)
    case LiteralInt(_) => LowerLiteralInt(n, st)
    case VariableDeclaration(_) => LowerVariableDeclaration(n, st)
    case ArrayDeclaration(_) => LowerArrayDeclaration(n, st)
    case FunctionDefinition(_, _, _) => LowerFunction(n, tc, st)
    case Addition(_, _) => LowerArithmetic(n, Add, tc, st)
    case Subtraction(_, _) => LowerArithmetic(n, Sub, tc, st)
    case Multiplication(_, _) => LowerArithmetic(n, Mul, tc, st)
    case Division(_, _) => LowerArithmetic(n, Div, tc, st)
    case LogicalAnd(_, _) => LowerLogicalAnd(n, tc, st)
    case LogicalOr(_, _) => LowerLogicalOr(n, tc, st)
    case LogicalNot(_) => LowerLogicalNot(n, tc, st)
    case Comparison(_, _, _) => LowerComparison(n, tc, st)
    case Dereference(_) => LowerDereference(n, tc, st)
    case Index(_, _) => LowerIndex(n, tc, st)
    case Assignment(_, _) => LowerAssignment(n, tc, st)
    case Call(_, _) => LowerCall(n, tc, st)
    case IfElseBranch(_, _, _) => LowerIfElse(n, tc, st)
    case WhileLoop(_, _) => LowerWhile(n, tc, st)
    case Return(_) => LowerReturn(n, tc, st)
    case Error(_) => LowerError(n, st)
  }

  function LowerAddressOf(n: Command, st: GenState): Step
    requires n.AddressOf? && st.frames != []
  {
    Step(Done, Emit(st, ResolveIn(st.frames, T0, n.symbol) + [PushInt(T0)]))
  }

  function LowerLiteralBool(n: Command, st: GenState): Step
    requires n.LiteralBool?
  {
    Step(Done, Emit(st, [AddImm(T0, Zero, n.ordinal), PushInt(T0)]))
  }

  function LowerLiteralFloat(n: Command, st: GenState): Step
    requires n.LiteralFloat?
  {
    Step(Done, Emit(st, [LoadFloatImm(F0, n.floatValue), PushFloat(F0)]))
  }

  function LowerLiteralInt(n: Command, st: GenState): Step
    requires n.LiteralInt?
  {
    Step(Done, Emit(st, [AddImm(T0, Zero, n.intValue), PushInt(T0)]))
  }

  /** `add` of a scalar: `numBytes` raises first; a global frame reserves
      data space, a function frame grows by the scalar. */
  function LowerVariableDeclaration(n: Command, st: GenState): (r: Step)
    requires n.VariableDeclaration? && st.frames != []
    ensures r.outcome.Done? <==> Storable(n.symbol.typ)
    ensures !r.outcome.Done? ==> r == Step(NoSizeKnown(n.symbol.typ), st)
    ensures r.state.labelCount == st.labelCount && r.state.errors == st.errors
    ensures r.state.functionReturn == st.functionReturn
    ensures |r.state.frames| == |st.frames| && r.state.frames[1..] == st.frames[1..]
    ensures r.outcome.Done? && st.frames[0].global ==>
      r.state.frames == st.frames && r.state.code == st.code + [DataSpace(MangleDataname(n.symbol.name), NumBytes(n.symbol.typ))]
    ensures r.outcome.Done? && !st.frames[0].global ==>
      r.state.code == st.code && r.state.frames[0].stackSize == st.frames[0].stackSize + NumBytes(n.symbol.typ)
  {
    var sym := n.symbol;
    if !Storable(sym.typ) then Step(NoSizeKnown(sym.typ), st)
    else if st.frames[0].global then
      Step(Done, Emit(st, [DataSpace(MangleDataname(sym.name), NumBytes(sym.typ))]))
    else Step(Done, st.(frames := [AddScalar(st.frames[0], sym)] + st.frames[1..]))
  }

  /** `add` of an array: a function frame ignores it; a global frame sizes it. */
  function LowerArrayDeclaration(n: Command, st: GenState): Step
    requires n.ArrayDeclaration? && st.frames != []
  {
    var sym := n.symbol;
    if !st.frames[0].global then Step(Done, st)
    else if !Storable(sym.typ) then Step(NoSizeKnown(sym.typ), st)
    else Step(Done, Emit(st, [DataSpace(MangleDataname(sym.name), NumBytes(sym.typ))]))
  }

  function LowerArithmetic(n: Command, op: ArithOp, tc: TypeOracle, st: GenState): (r: Step)
    requires
      || (n.Addition? && op == Add) || (n.Subtraction? && op == Sub)
      || (n.Multiplication? && op == Mul) || (n.Division? && op == Div)
    requires st.frames != []
    ensures Extends(st, r)
    decreases n, 1, 0
  {
    Then(LowerOperands(n.leftSide, n.rightSide, n, tc, st), ArithTail(op, tc(n) == FloatType))
  }

  function LowerLogicalAnd(n: Command, tc: TypeOracle, st: GenState): (r: Step)
    requires n.LogicalAnd? && st.frames != []
    ensures Extends(st, r)
    decreases n, 1, 0
  {
    Then(LowerOperands(n.leftSide, n.rightSide, n, tc, st), AndTail(tc(n) == BoolType))
  }

  function LowerLogicalOr(n: Command, tc: TypeOracle, st: GenState): (r: Step)
    requires n.LogicalOr? && st.frames != []
    ensures Extends(st, r)
    decreases n, 1, 0
  {
    Then(LowerOperands(n.leftSide, n.rightSide, n, tc, st), OrTail(tc(n) == BoolType))
  }

  function LowerLogicalNot(n: Command, tc: TypeOracle, st: GenState): (r: Step)
    requires n.LogicalNot? && st.frames != []
    ensures Extends(st, r)
    decreases n, 1, 0
  {
    Then(Lower(n.expression, tc, st), NotTail(tc(n) == BoolType))
  }

  function LowerComparison(n: Command, tc: TypeOracle, st: GenState): (r: Step)
    requires n.Comparison? && st.frames != []
    ensures Extends(st, r)
    decreases n, 1, 0
  {
    Then(LowerOperands(n.leftSide, n.rightSide, n, tc, st), ComparisonTail(n.operation, tc(n) == FloatType))
  }

  function LowerDereference(n: Command, tc: TypeOracle, st: GenState): (r: Step)
    requires n.Dereference? && st.frames != []
    ensures Extends(st, r)
    decreases n, 1, 0
  {
    Then(Lower(n.expression, tc, st), DereferenceTail(tc(n) == IntType))
  }

  function LowerAssignment(n: Command, tc: TypeOracle, st: GenState): (r: Step)
    requires n.Assignment? && st.frames != []
    ensures Extends(st, r)
    decreases n, 1, 0
  {
    Then(LowerOperands(n.destination, n.source, n, tc, st), AssignmentTail(tc(n) == FloatType))
  }

  /** The jump reads `function_return` after the argument is visited. */
  function LowerReturn(n: Command, tc: TypeOracle, st: GenState): (r: Step)
    requires n.Return? && st.frames != []
    ensures Extends(st, r)
    ensures r.outcome.Done? ==>
      |st.code| < |r.state.code| && r.state.code[|r.state.code| - 1] == Jump(r.state.functionReturn)
    decreases n, 1, 0
  {
    var r := Lower(n.argument, tc, st);
    Then(r, [Jump(r.state.functionReturn)])
  }

  /** The error sentinel: its message is recorded, then the visit aborts. */
  function LowerError(n: Command, st: GenState): (r: Step)
    requires n.Error?
    ensures r.outcome.CodeGenFailure? && r.outcome.message != ""
    ensures r.state == st.(errors := st.errors + r.outcome.message)
  {
    Step(CodeGenFailure(ErrorMessage(n.text)), st.(errors := st.errors + ErrorMessage(n.text)))
  }

  /** The list visitors: each item in order, stopping at the first abort. */
  function LowerList(items: seq<Command>, ghost parent: Command, tc: TypeOracle, st: GenState): (r: Step)
    requires forall i :: 0 <= i < |items| ==> items[i] < parent
    requires st.frames != []
    ensures Extends(st, r)
    decreases parent, 0, |items|
  {
    if items == [] then Step(Done, st)
    else
      var r := LowerList(items[..|items| - 1], parent, tc, st);
      if !r.outcome.Done? then r else Lower(items[|items| - 1], tc, r.state)
  }

  /** A prefix that ends normally at `mid` continues with the next item from `mid`. */
  lemma LowerListNext(items: seq<Command>, parent: Command, tc: TypeOracle, st: GenState, i: nat, mid: GenState)
    requires forall k :: 0 <= k < |items| ==> items[k] < parent
    requires st.frames != [] && i < |items|
    requires LowerList(items[..i], parent, tc, st) == Step(Done, mid)
    ensures mid.frames != []
    ensures LowerList(items[..i + 1], parent, tc, st) == Lower(items[i], tc, mid)
  {
    assert items[..i + 1][..i] == items[..i];
  }

  /** Once a prefix of the list aborts, the rest of the list is not visited. */
  lemma {:induction false} LowerListStops(items: seq<Command>, parent: Command, tc: TypeOracle, st: GenState, i: nat)
    requires forall k :: 0 <= k < |items| ==> items[k] < parent
    requires st.frames != [] && i <= |items|
    requires !LowerList(items[..i], parent, tc, st).outcome.Done?
    ensures LowerList(items, parent, tc, st) == LowerList(items[..i], parent, tc, st)
    decreases |items| - i
  {
    if i < |items| {
      assert items[..i + 1][..i] == items[..i];
      LowerListStops(items, parent, tc, st, i + 1);
    } else {
      assert items[..i] == items;
    }
  }

  /** Two operands, left then right. */
  function LowerOperands(first: Command, second: Command, ghost parent: Command, tc: TypeOracle, st: GenState): (r: Step)
    requires first < parent && second < parent
    requires st.frames != []
    ensures Extends(st, r)
    decreases parent, 0
  {
    var r := Lower(first, tc, st);
    if !r.outcome.Done? then r else Lower(second, tc, r.state)
  }

  function LowerIndex(n: Command, tc: TypeOracle, st: GenState): (r: Step)
    requires n.Index? && st.frames != []
    ensures Extends(st, r)
    decreases n, 1, 0
  {
    var ops := LowerOperands(n.base, n.amount, n, tc, st);
    if !ops.outcome.Done? then ops
    else
      var popped := Emit(ops.state, [PopInt(T0), PopInt(T1)]);
      var element := ElementType(tc(n));
      if !Storable(element) then Step(NoSizeKnown(element), popped)
      else Step(Done, Emit(popped, IndexTail(NumBytes(element))))
  }

  function LowerCall(n: Command, tc: TypeOracle, st: GenState): (r: Step)
    requires n.Call? && st.frames != []
    ensures Extends(st, r)
    decreases n, 1, 0
  {
    var pushed := LowerList(n.args, n, tc, st);
    if !pushed.outcome.Done? then pushed
    else LowerCallTail(n, tc, pushed.state)
  }

  /** The call proper, once the arguments are on the stack: jump, reclaim the
      arguments' bytes, push the result. */
  function LowerCallTail(n: Command, tc: TypeOracle, st: GenState): (r: Step)
    requires n.Call?
    ensures r.state.frames == st.frames && r.state.labelCount == st.labelCount
    ensures st.code <= r.state.code
    ensures r.state.errors == st.errors && !r.outcome.CodeGenFailure?
  {
    var called := Emit(st, [JumpAndLink(CallTarget(n.func))]);
    if |n.args| == 0 then Step(Done, Emit(called, CallResult(n.func)))
    else
      match ArgumentBytes(n.args, tc)
      case Unsized(t) => Step(NoSizeKnown(t), called)
      case Sized(b) => Step(Done, Emit(called, [AddImm(SP, SP, b)] + CallResult(n.func)))
  }

  function LowerIfElse(n: Command, tc: TypeOracle, st: GenState): (r: Step)
    requires n.IfElseBranch? && st.frames != []
    ensures Extends(st, r)
    ensures r.outcome.Done? ==> st.labelCount + 2 <= r.state.labelCount
    decreases n, 1, 1
  {
    var cond := Lower(n.condition, tc, st);
    if !cond.outcome.Done? then cond else LowerIfElseTest(n, tc, cond.state)
  }

  /** Two fresh labels, the exit test to the else label, then the branches. */
  function LowerIfElseTest(n: Command, tc: TypeOracle, st: GenState): (r: Step)
    requires n.IfElseBranch? && st.frames != []
    ensures Extends(st, r)
    ensures r.outcome.Done? ==> st.labelCount + 2 <= r.state.labelCount
    decreases n, 1, 0
  {
    LowerBranches(n, Generated(st.labelCount), Generated(st.labelCount + 1), tc, Tested(n, tc, st))
  }

  /** The state after the exit test: two labels taken, the test branching to
      the first. */
  function Tested(n: Command, tc: TypeOracle, st: GenState): GenState
    requires n.IfElseBranch?
  {
    Emit(st.(labelCount := st.labelCount + 2), BranchIfFalse(tc(n.condition) == FloatType, Generated(st.labelCount)))
  }

  /** The then block, the jump over the else block, the else block. */
  function LowerBranches(n: Command, elseLabel: Label, doneLabel: Label, tc: TypeOracle, st: GenState): (r: Step)
    requires n.IfElseBranch? && st.frames != []
    ensures Extends(st, r)
    decreases n, 0
  {
    var thenPart := Lower(n.thenBlock, tc, st);
    if !thenPart.outcome.Done? then thenPart
    else
      var elsePart := Lower(n.elseBlock, tc, Emit(thenPart.state, [Jump(doneLabel), DefineLabel(elseLabel)]));
      Then(elsePart, [DefineLabel(doneLabel)])
  }

  function LowerWhile(n: Command, tc: TypeOracle, st: GenState): (r: Step)
    requires n.WhileLoop? && st.frames != []
    ensures Extends(st, r)
    ensures r.outcome.Done? ==> st.labelCount + 2 <= r.state.labelCount
    ensures r.outcome.Done? ==>
      && |st.code| + 1 < |r.state.code|
      && r.state.code[|st.code|] == DefineLabel(Generated(st.labelCount))
      && r.state.code[|r.state.code| - 1] == DefineLabel(Generated(st.labelCount + 1))
    decreases n, 1, 0
  {
    var loopLabel := Generated(st.labelCount);
    var endLabel := Generated(st.labelCount + 1);
    var cond := Lower(n.condition, tc, LoopTop(st));
    if !cond.outcome.Done? then cond
    else LowerLoopBody(n, loopLabel, endLabel, tc, Emit(cond.state, BranchIfFalse(false, endLabel)))
  }

  /** The state after the loop label: two labels taken, the first defined. */
  function LoopTop(st: GenState): GenState {
    Emit(st.(labelCount := st.labelCount + 2), [DefineLabel(Generated(st.labelCount))])
  }

  /** The loop body after the exit test, then the jump back and the exit label. */
  function LowerLoopBody(n: Command, loopLabel: Label, endLabel: Label, tc: TypeOracle, st: GenState): (r: Step)
    requires n.WhileLoop? && st.frames != []
    ensures Extends(st, r)
    decreases n, 0
  {
    Then(Lower(n.body, tc, st), [Jump(loopLabel), DefineLabel(endLabel)])
  }

  /** Inserting `x` right after position `|pre|` of `pre + [entry] + rest`. */
  lemma InsertAfterEntry(pre: seq<Instr>, entry: Instr, rest: seq<Instr>, x: Instr)
    ensures var code := pre + [entry] + rest;
      code[..|pre| + 1] + [x] + code[|pre| + 1..] == pre + [entry, x] + rest
  {
    var code := pre + [entry] + rest;
    assert code[..|pre| + 1] == pre + [entry];
    assert code[|pre| + 1..] == rest;
  }

  /** A frame for the arguments (raising on the last unsized one), a fresh
      `function_return`, the entry label, then the body and the exit. */
  function LowerFunction(n: Command, tc: TypeOracle, st: GenState): (r: Step)
    requires n.FunctionDefinition? && st.frames != []
    ensures Extends(st, r)
    ensures ArgumentCheck(n.arguments).NoSizeKnown? ==> r == Step(ArgumentCheck(n.arguments), st)
    ensures ArgumentCheck(n.arguments).Done? ==>
      |st.code| < |r.state.code| && r.state.code[|st.code|] == DefineLabel(EntryLabel(n.func))
    decreases n, 1, 1
  {
    var check := ArgumentCheck(n.arguments);
    if check.NoSizeKnown? then Step(check, st)
    else LowerFunctionBody(n, |st.code|, tc, Entered(n, st))
  }

  /** The state after the entry label: the argument frame pushed, one label
      taken and held in `function_return`. */
  function Entered(n: Command, st: GenState): GenState
    requires n.FunctionDefinition?
  {
    var entered := st.(frames := [NewFrame(n.arguments)] + st.frames,
                       labelCount := st.labelCount + 1,
                       functionReturn := Generated(st.labelCount));
    Emit(entered, [DefineLabel(EntryLabel(n.func))])
  }

  /** The body, then the prologue inserted after line `start` (the entry
      label) with the frame size the body reached, the label then held in
      `function_return`, the result and the teardown; the frame is popped. */
  function LowerFunctionBody(n: Command, start: nat, tc: TypeOracle, st: GenState): (r: Step)
    requires n.FunctionDefinition? && |st.frames| >= 2 && start < |st.code|
    ensures |r.state.frames| + 1 >= |st.frames|
    ensures r.outcome.Done? ==> |r.state.frames| + 1 == |st.frames|
    ensures st.code[..start + 1] <= r.state.code
    ensures st.labelCount <= r.state.labelCount
    ensures r.state.errors == st.errors + Reported(r.outcome)
    ensures r.outcome.CodeGenFailure? ==> r.outcome.message != ""
    decreases n, 1, 0
  {
    var body := Lower(n.body, tc, st);
    if !body.outcome.Done? then body
    else
      var size := body.state.frames[0].stackSize;
      var code := body.state.code;
      var withPrologue := code[..start + 1] + [Prologue(size)] + code[start + 1..];
      var exited := body.state.(code := withPrologue + FunctionEnd(n.func, body.state.functionReturn, size));
      Step(Done, exited.(frames := exited.frames[1..]))
  }

  /** `generate`: start from a fresh global frame, lower the whole tree, and
      report success exactly when no error was recorded. */
  function Generation(ast: Command, tc: TypeOracle, st: GenState): (GenerateResult, GenState) {
    var r := Lower(ast, tc, st.(frames := [GlobalView]));
    var result := match r.outcome
      case Done => Returned(|r.state.errors| == 0)
      case CodeGenFailure(_) => Returned(false)
      case NoSizeKnown(t) => Raised(t);
    (result, r.state)
  }

  /** `generate` catches the exception and returns false, and otherwise
      returns `!hasError()`; from an empty error buffer the two agree: the
      result is true exactly when the buffer is still empty, and false
      exactly when an error node was reached. Only `numBytes`'s exception
      escapes. */
  lemma GenerationVerdict(ast: Command, tc: TypeOracle, st: GenState)
    requires st.errors == ""
    ensures var (result, final) := Generation(ast, tc, st);
      var outcome := Lower(ast, tc, st.(frames := [GlobalView])).outcome;
      && (result.Returned? ==> (result.ok <==> final.errors == ""))
      && (result == Returned(false) <==> outcome.CodeGenFailure?)
      && (result.Raised? <==> outcome.NoSizeKnown?)
      && (result.Raised? ==> result.noSizeFor == outcome.t && final.errors == "")
  {
  }
}

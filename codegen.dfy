/** The code generator: a visitor that appends to one `Program` while it keeps
    the current activation record, the pending return label and an error
    buffer. Each visit method is proved to do exactly what `Lower` says. */
module CodeGenerator {
  import opened Types
  import opened Ast
  import opened Instructions
  import opened Programs
  import opened ActivationRecords
  import opened Lowering
  import opened LabelDiscipline

  class CodeGen {
    var errorBuffer: string
    const tc: TypeOracle
    const program: Program
    var currentFunction: ActivationRecord
    var functionReturn: Label

    ghost predicate Valid()
      reads this, program, currentFunction, currentFunction.Repr
    {
      && program.Valid()
      && currentFunction.Valid()
      && Below(functionReturn, program.labelCount)
    }

    ghost function State(): GenState
      reads this, program, currentFunction, currentFunction.Repr
      requires Valid()
    {
      GenState(program.code, program.labelCount, currentFunction.Chain(), functionReturn, errorBuffer)
    }

    /** A generator with an empty program and no errors. Before `generate`
        the current frame is a global frame. */
    constructor (tc: TypeOracle)
      ensures Valid() && this.tc == tc
      ensures State() == GenState([], 0, [GlobalView], InitialReturn, "")
    {
      this.tc := tc;
      program := new Program();
      currentFunction := new ActivationRecord.Global();
      functionReturn := InitialReturn;
      errorBuffer := "";
    }

    function HasError(): bool
      reads this
    {
      |errorBuffer| != 0
    }

    method ErrorReport() returns (report: string)
      ensures report == errorBuffer
    {
      report := errorBuffer;
    }

    /** `generate`: a fresh global frame, then the whole tree. */
    method Generate(ast: Command) returns (result: GenerateResult)
      requires Valid()
      modifies this, program
      ensures Valid()
      ensures (result, State()) == Generation(ast, tc, old(State()))
      ensures Flat(ast, false) && old(program.code) == [] && old(program.labelCount) == 0 && result == Returned(true) ==>
        forall k, l :: 0 <= k < |program.code| && l in Mentions(program.code[k]) && l.Generated? ==>
          Definitions(program.code, l.n) == 1
    {
      ghost var initial := State();
      EnterGlobalFrame();
      var outcome := Visit(ast);
      match outcome {
        case Done => result := Returned(!HasError());
        case CodeGenFailure(_) => result := Returned(false);
        case NoSizeKnown(t) => result := Raised(t);
      }
      if Flat(ast, false) && initial.code == [] && initial.labelCount == 0 && result == Returned(true) {
        assert Generation(ast, tc, initial).1.code == program.code;
        TargetsDefinedOnce(ast, tc, initial);
      }
    }

    /** A fresh global frame becomes the current one. */
    method EnterGlobalFrame()
      requires Valid()
      modifies this
      ensures Valid()
      ensures fresh(currentFunction)
      ensures State() == old(State()).(frames := [GlobalView])
    {
      currentFunction := new ActivationRecord.Global();
    }

    /** `accept`: the visit method of the node's class. */
    method Visit(n: Command) returns (outcome: Outcome)
      requires Valid()
      modifies this, program, currentFunction
      ensures Valid()
      ensures outcome.Done? ==> currentFunction == old(currentFunction)
      ensures Step(outcome, State()) == Lower(n, tc, old(State()))
      decreases n, 2
    {
      match n
      case ExpressionList(items) => outcome := VisitList(items, n);
      case DeclarationList(items) => outcome := VisitList(items, n);
      case StatementList(items) => outcome := VisitList(items, n);
      case AddressOf(_) => outcome := VisitAddressOf(n);
      case LiteralBool(_) => outcome := VisitLiteralBool(n);
      case LiteralFloat(_) => outcome := VisitLiteralFloat(n);
      case LiteralInt(_) => outcome := VisitLiteralInt(n);
      case VariableDeclaration(_) => outcome := VisitVariableDeclaration(n);
      case ArrayDeclaration(_) => outcome := VisitArrayDeclaration(n);
      case FunctionDefinition(_, _, _) => outcome := VisitFunctionDefinition(n);
      case Addition(_, _) => outcome := VisitArithmetic(n, Add);
      case Subtraction(_, _) => outcome := VisitArithmetic(n, Sub);
      case Multiplication(_, _) => outcome := VisitArithmetic(n, Mul);
      case Division(_, _) => outcome := VisitArithmetic(n, Div);
      case LogicalAnd(_, _) => outcome := VisitLogicalAnd(n);
      case LogicalOr(_, _) => outcome := VisitLogicalOr(n);
      case LogicalNot(_) => outcome := VisitLogicalNot(n);
      case Comparison(_, _, _) => outcome := VisitComparison(n);
      case Dereference(_) => outcome := VisitDereference(n);
      case Index(_, _) => outcome := VisitIndex(n);
      case Assignment(_, _) => outcome := VisitAssignment(n);
      case Call(_, _) => outcome := VisitCall(n);
      case IfElseBranch(_, _, _) => outcome := VisitIfElseBranch(n);
      case WhileLoop(_, _) => outcome := VisitWhileLoop(n);
      case Return(_) => outcome := VisitReturn(n);
      case Error(_) => outcome := VisitError(n);
    }

    /** The three list visitors: every item in order. */
    method VisitList(items: seq<Command>, ghost parent: Command) returns (outcome: Outcome)
      requires forall i :: 0 <= i < |items| ==> items[i] < parent
      requires Valid()
      modifies this, program, currentFunction
      ensures Valid()
      ensures outcome.Done? ==> currentFunction == old(currentFunction)
      ensures Step(outcome, State()) == LowerList(items, parent, tc, old(State()))
      decreases parent, 0
    {
      outcome := Done;
      var i := 0;
      while i < |items|
        invariant 0 <= i <= |items|
        invariant Valid() && currentFunction == old(currentFunction) && outcome == Done
        invariant Step(Done, State()) == LowerList(items[..i], parent, tc, old(State()))
      {
        LowerListNext(items, parent, tc, old(State()), i, State());
        outcome := Visit(items[i]);
        if !outcome.Done? {
          LowerListStops(items, parent, tc, old(State()), i + 1);
          return;
        }
        i := i + 1;
      }
      assert items[..|items|] == items;
    }

    /** Left operand, then right operand. */
    method VisitOperands(first: Command, second: Command, ghost parent: Command) returns (outcome: Outcome)
      requires first < parent && second < parent
      requires Valid()
      modifies this, program, currentFunction
      ensures Valid()
      ensures outcome.Done? ==> currentFunction == old(currentFunction)
      ensures Step(outcome, State()) == LowerOperands(first, second, parent, tc, old(State()))
      decreases parent, 0
    {
      ghost var st := State();
      outcome := Visit(first);
      if !outcome.Done? {
        assert LowerOperands(first, second, parent, tc, st) == Lower(first, tc, st);
        return;
      }
      ghost var mid := State();
      assert LowerOperands(first, second, parent, tc, st) == Lower(second, tc, mid);
      outcome := Visit(second);
    }

    method VisitAddressOf(n: Command) returns (outcome: Outcome)
      requires n.AddressOf? && Valid()
      modifies this, program, currentFunction
      ensures Valid()
      ensures outcome.Done? ==> currentFunction == old(currentFunction)
      ensures Step(outcome, State()) == Lower(n, tc, old(State()))
      decreases n, 1
    {
      currentFunction.GetAddress(program, T0, n.symbol);
      program.PushInt(T0);
      outcome := Done;
    }

    method VisitLiteralBool(n: Command) returns (outcome: Outcome)
      requires n.LiteralBool? && Valid()
      modifies this, program, currentFunction
      ensures Valid()
      ensures outcome.Done? ==> currentFunction == old(currentFunction)
      ensures Step(outcome, State()) == Lower(n, tc, old(State()))
      decreases n, 1
    {
      var _ := program.AppendInstruction(AddImm(T0, Zero, n.ordinal));
      program.PushInt(T0);
      outcome := Done;
    }

    method VisitLiteralFloat(n: Command) returns (outcome: Outcome)
      requires n.LiteralFloat? && Valid()
      modifies this, program, currentFunction
      ensures Valid()
      ensures outcome.Done? ==> currentFunction == old(currentFunction)
      ensures Step(outcome, State()) == Lower(n, tc, old(State()))
      decreases n, 1
    {
      var _ := program.AppendInstruction(LoadFloatImm(F0, n.floatValue));
      program.PushFloat(F0);
      outcome := Done;
    }

    method VisitLiteralInt(n: Command) returns (outcome: Outcome)
      requires n.LiteralInt? && Valid()
      modifies this, program, currentFunction
      ensures Valid()
      ensures outcome.Done? ==> currentFunction == old(currentFunction)
      ensures Step(outcome, State()) == Lower(n, tc, old(State()))
      decreases n, 1
    {
      var _ := program.AppendInstruction(AddImm(T0, Zero, n.intValue));
      program.PushInt(T0);
      outcome := Done;
    }

    /** `add` on the current frame; `numBytes` of the symbol's type raises
        before anything changes. */
    method VisitVariableDeclaration(n: Command) returns (outcome: Outcome)
      requires n.VariableDeclaration? && Valid()
      modifies this, program, currentFunction
      ensures Valid()
      ensures outcome.Done? ==> currentFunction == old(currentFunction)
      ensures Step(outcome, State()) == Lower(n, tc, old(State()))
      decreases n, 1
    {
      if !Storable(n.symbol.typ) {
        return NoSizeKnown(n.symbol.typ);
      }
      currentFunction.AddVariable(program, n.symbol);
      outcome := Done;
    }

    method VisitArrayDeclaration(n: Command) returns (outcome: Outcome)
      requires n.ArrayDeclaration? && Valid()
      modifies this, program, currentFunction
      ensures Valid()
      ensures outcome.Done? ==> currentFunction == old(currentFunction)
      ensures Step(outcome, State()) == Lower(n, tc, old(State()))
      decreases n, 1
    {
      if currentFunction.global && !Storable(n.symbol.typ) {
        return NoSizeKnown(n.symbol.typ);
      }
      currentFunction.AddArray(program, n.symbol);
      outcome := Done;
    }

    method VisitFunctionDefinition(n: Command) returns (outcome: Outcome)
      requires n.FunctionDefinition? && Valid()
      modifies this, program, currentFunction
      ensures Valid()
      ensures outcome.Done? ==> currentFunction == old(currentFunction)
      ensures Step(outcome, State()) == Lower(n, tc, old(State()))
      decreases n, 1, 1
    {
      var check := ArgumentCheck(n.arguments);
      if check.NoSizeKnown? {
        return check;
      }
      ghost var st := State();
      EnterFrame(n.arguments);
      var returnLabel, start := EmitFunctionHead(n.func);
      functionReturn := returnLabel;
      assert Lower(n, tc, st) == LowerFunctionBody(n, |st.code|, tc, State());
      outcome := VisitFunctionBody(n, start);
    }

    /** `currentFunction = new ActivationRecord(node, currentFunction)`. */
    method EnterFrame(args: seq<Symbol>)
      requires Valid() && forall k :: 0 <= k < |args| ==> Storable(args[k].typ)
      modifies this
      ensures Valid() && fresh(currentFunction) && currentFunction.parent == old(currentFunction)
      ensures State() == old(State()).(frames := [NewFrame(args)] + old(State()).frames)
    {
      var record := new ActivationRecord(args, currentFunction);
      currentFunction := record;
    }

    /** The body of the function whose frame is current, and its exit. */
    method VisitFunctionBody(n: Command, start: nat) returns (outcome: Outcome)
      requires n.FunctionDefinition? && Valid()
      requires currentFunction.parent != null && start < |program.code|
      modifies this, program, currentFunction
      ensures Valid()
      ensures outcome.Done? ==> currentFunction == old(currentFunction.parent)
      ensures Step(outcome, State()) == LowerFunctionBody(n, start, tc, old(State()))
      decreases n, 1, 0
    {
      outcome := Visit(n.body);
      if !outcome.Done? {
        return;
      }
      EmitFunctionTail(n.func, start, functionReturn, currentFunction.stackSize);
      currentFunction := currentFunction.parent;
    }

    /** Addition, subtraction, multiplication and division. */
    method VisitArithmetic(n: Command, op: ArithOp) returns (outcome: Outcome)
      requires
        || (n.Addition? && op == Add) || (n.Subtraction? && op == Sub)
        || (n.Multiplication? && op == Mul) || (n.Division? && op == Div)
      requires Valid()
      modifies this, program, currentFunction
      ensures Valid()
      ensures outcome.Done? ==> currentFunction == old(currentFunction)
      ensures Step(outcome, State()) == Lower(n, tc, old(State()))
      decreases n, 1
    {
      ghost var st := State();
      assert Lower(n, tc, st) == LowerArithmetic(n, op, tc, st);
      outcome := VisitOperands(n.leftSide, n.rightSide, n);
      if !outcome.Done? {
        return;
      }
      EmitArithmetic(op, tc(n) == FloatType);
    }

    method VisitLogicalAnd(n: Command) returns (outcome: Outcome)
      requires n.LogicalAnd? && Valid()
      modifies this, program, currentFunction
      ensures Valid()
      ensures outcome.Done? ==> currentFunction == old(currentFunction)
      ensures Step(outcome, State()) == Lower(n, tc, old(State()))
      decreases n, 1
    {
      ghost var st := State();
      outcome := VisitOperands(n.leftSide, n.rightSide, n);
      if !outcome.Done? {
        assert Lower(n, tc, st) == LowerOperands(n.leftSide, n.rightSide, n, tc, st);
        return;
      }
      assert Lower(n, tc, st) == Step(Done, Emit(State(), AndTail(tc(n) == BoolType)));
      EmitAnd(tc(n) == BoolType);
    }

    method VisitLogicalOr(n: Command) returns (outcome: Outcome)
      requires n.LogicalOr? && Valid()
      modifies this, program, currentFunction
      ensures Valid()
      ensures outcome.Done? ==> currentFunction == old(currentFunction)
      ensures Step(outcome, State()) == Lower(n, tc, old(State()))
      decreases n, 1
    {
      ghost var st := State();
      outcome := VisitOperands(n.leftSide, n.rightSide, n);
      if !outcome.Done? {
        assert Lower(n, tc, st) == LowerOperands(n.leftSide, n.rightSide, n, tc, st);
        return;
      }
      assert Lower(n, tc, st) == Step(Done, Emit(State(), OrTail(tc(n) == BoolType)));
      EmitOr(tc(n) == BoolType);
    }

    method VisitLogicalNot(n: Command) returns (outcome: Outcome)
      requires n.LogicalNot? && Valid()
      modifies this, program, currentFunction
      ensures Valid()
      ensures outcome.Done? ==> currentFunction == old(currentFunction)
      ensures Step(outcome, State()) == Lower(n, tc, old(State()))
      decreases n, 1
    {
      ghost var st := State();
      outcome := Visit(n.expression);
      if !outcome.Done? {
        assert Lower(n, tc, st) == Lower(n.expression, tc, st);
        return;
      }
      assert Lower(n, tc, st) == Step(Done, Emit(State(), NotTail(tc(n) == BoolType)));
      EmitNot(tc(n) == BoolType);
    }

    method VisitComparison(n: Command) returns (outcome: Outcome)
      requires n.Comparison? && Valid()
      modifies this, program, currentFunction
      ensures Valid()
      ensures outcome.Done? ==> currentFunction == old(currentFunction)
      ensures Step(outcome, State()) == Lower(n, tc, old(State()))
      decreases n, 1
    {
      ghost var st := State();
      outcome := VisitOperands(n.leftSide, n.rightSide, n);
      if !outcome.Done? {
        assert Lower(n, tc, st) == LowerOperands(n.leftSide, n.rightSide, n, tc, st);
        return;
      }
      assert Lower(n, tc, st) == Step(Done, Emit(State(), ComparisonTail(n.operation, tc(n) == FloatType)));
      EmitComparison(n.operation, tc(n) == FloatType);
    }

    method VisitDereference(n: Command) returns (outcome: Outcome)
      requires n.Dereference? && Valid()
      modifies this, program, currentFunction
      ensures Valid()
      ensures outcome.Done? ==> currentFunction == old(currentFunction)
      ensures Step(outcome, State()) == Lower(n, tc, old(State()))
      decreases n, 1
    {
      ghost var st := State();
      outcome := Visit(n.expression);
      if !outcome.Done? {
        assert Lower(n, tc, st) == Lower(n.expression, tc, st);
        return;
      }
      assert Lower(n, tc, st) == Step(Done, Emit(State(), DereferenceTail(tc(n) == IntType)));
      EmitDereference(tc(n) == IntType);
    }

    /** Both operands are popped before the element size is asked for, so an
        unsized element type leaves the pops behind. */
    method VisitIndex(n: Command) returns (outcome: Outcome)
      requires n.Index? && Valid()
      modifies this, program, currentFunction
      ensures Valid()
      ensures outcome.Done? ==> currentFunction == old(currentFunction)
      ensures Step(outcome, State()) == Lower(n, tc, old(State()))
      decreases n, 1
    {
      ghost var st := State();
      outcome := VisitOperands(n.base, n.amount, n);
      if !outcome.Done? {
        assert Lower(n, tc, st) == LowerOperands(n.base, n.amount, n, tc, st);
        return;
      }
      ghost var ops := State();
      assert Lower(n, tc, st) == LowerIndex(n, tc, st);
      EmitPops(T0, T1);
      var typeOfNode := if tc(n).AddressType? then tc(n).base else tc(n);
      if !Storable(typeOfNode) {
        return NoSizeKnown(typeOfNode);
      }
      EmitIndex(NumBytes(typeOfNode));
    }

    method VisitAssignment(n: Command) returns (outcome: Outcome)
      requires n.Assignment? && Valid()
      modifies this, program, currentFunction
      ensures Valid()
      ensures outcome.Done? ==> currentFunction == old(currentFunction)
      ensures Step(outcome, State()) == Lower(n, tc, old(State()))
      decreases n, 1
    {
      ghost var st := State();
      outcome := VisitOperands(n.destination, n.source, n);
      if !outcome.Done? {
        assert Lower(n, tc, st) == LowerOperands(n.destination, n.source, n, tc, st);
        return;
      }
      assert Lower(n, tc, st) == Step(Done, Emit(State(), AssignmentTail(tc(n) == FloatType)));
      EmitAssignment(tc(n) == FloatType);
    }

    /** The loop that sums `numBytes` of the argument types of a call. */
    method ArgumentBytesOf(args: seq<Command>) returns (size: Sized)
      ensures size == ArgumentBytes(args, tc)
    {
      var bytes: nat := 0;
      var i := 0;
      while i < |args|
        invariant 0 <= i <= |args|
        invariant ArgumentBytes(args[..i], tc) == Sized(bytes)
      {
        assert args[..i + 1][..i] == args[..i];
        var t := tc(args[i]);
        if !Storable(t) {
          ArgumentBytesStops(args, tc, i + 1);
          return Unsized(t);
        }
        bytes := bytes + NumBytes(t);
        i := i + 1;
      }
      assert args[..|args|] == args;
      size := Sized(bytes);
    }

    method VisitCall(n: Command) returns (outcome: Outcome)
      requires n.Call? && Valid()
      modifies this, program, currentFunction
      ensures Valid()
      ensures outcome.Done? ==> currentFunction == old(currentFunction)
      ensures Step(outcome, State()) == Lower(n, tc, old(State()))
      decreases n, 1
    {
      ghost var st := State();
      outcome := VisitList(n.args, n);
      if !outcome.Done? {
        assert Lower(n, tc, st) == LowerList(n.args, n, tc, st);
        return;
      }
      assert Lower(n, tc, st) == LowerCallTail(n, tc, State());
      outcome := EmitCall(n);
    }

    /** Jumps to the callee, drops the arguments and pushes the result. */
    method EmitCall(n: Command) returns (outcome: Outcome)
      requires n.Call? && Valid()
      modifies program
      ensures Valid()
      ensures Step(outcome, State()) == LowerCallTail(n, tc, old(State()))
    {
      var _ := program.AppendInstruction(JumpAndLink(CallTarget(n.func)));
      outcome := Done;
      if |n.args| != 0 {
        var size := ArgumentBytesOf(n.args);
        if size.Unsized? {
          return NoSizeKnown(size.t);
        }
        var _ := program.AppendInstruction(AddImm(SP, SP, size.bytes));
      }
      EmitCallResult(n.func);
    }

    method VisitIfElseBranch(n: Command) returns (outcome: Outcome)
      requires n.IfElseBranch? && Valid()
      modifies this, program, currentFunction
      ensures Valid()
      ensures outcome.Done? ==> currentFunction == old(currentFunction)
      ensures Step(outcome, State()) == Lower(n, tc, old(State()))
      decreases n, 1, 1
    {
      ghost var st := State();
      outcome := Visit(n.condition);
      if !outcome.Done? {
        assert Lower(n, tc, st) == Lower(n.condition, tc, st);
        return;
      }
      assert Lower(n, tc, st) == LowerIfElseTest(n, tc, State());
      ghost var tested := State();
      var elseBlock, doneBlock := EmitIfHead(tc(n.condition) == FloatType);
      assert LowerIfElseTest(n, tc, tested) == LowerBranches(n, elseBlock, doneBlock, tc, State());
      outcome := VisitBranches(n, elseBlock, doneBlock);
    }

    method VisitBranches(n: Command, elseBlock: Label, doneBlock: Label) returns (outcome: Outcome)
      requires n.IfElseBranch? && Valid()
      requires Below(elseBlock, program.labelCount) && Below(doneBlock, program.labelCount)
      modifies this, program, currentFunction
      ensures Valid()
      ensures outcome.Done? ==> currentFunction == old(currentFunction)
      ensures Step(outcome, State()) == LowerBranches(n, elseBlock, doneBlock, tc, old(State()))
      decreases n, 0
    {
      ghost var st := State();
      outcome := Visit(n.thenBlock);
      if !outcome.Done? {
        assert LowerBranches(n, elseBlock, doneBlock, tc, st) == Lower(n.thenBlock, tc, st);
        return;
      }
      EmitJumpAndLabel(doneBlock, elseBlock);
      assert LowerBranches(n, elseBlock, doneBlock, tc, st) == Then(Lower(n.elseBlock, tc, State()), [DefineLabel(doneBlock)]);
      outcome := Visit(n.elseBlock);
      if !outcome.Done? {
        return;
      }
      var _ := program.AppendInstruction(DefineLabel(doneBlock));
    }

    method VisitWhileLoop(n: Command) returns (outcome: Outcome)
      requires n.WhileLoop? && Valid()
      modifies this, program, currentFunction
      ensures Valid()
      ensures outcome.Done? ==> currentFunction == old(currentFunction)
      ensures Step(outcome, State()) == Lower(n, tc, old(State()))
      decreases n, 1, 0
    {
      ghost var st := State();
      var loop, endLoop := EmitLoopHead();
      ghost var top := State();
      assert Lower(n, tc, st) == LowerWhile(n, tc, st);
      outcome := Visit(n.condition);
      if !outcome.Done? {
        assert Lower(n, tc, st) == Lower(n.condition, tc, top);
        return;
      }
      EmitBranchIfFalse(false, endLoop);
      assert Lower(n, tc, st) == LowerLoopBody(n, loop, endLoop, tc, State());
      outcome := VisitLoopBody(n, loop, endLoop);
    }

    method VisitLoopBody(n: Command, loop: Label, endLoop: Label) returns (outcome: Outcome)
      requires n.WhileLoop? && Valid()
      requires Below(loop, program.labelCount) && Below(endLoop, program.labelCount)
      modifies this, program, currentFunction
      ensures Valid()
      ensures outcome.Done? ==> currentFunction == old(currentFunction)
      ensures Step(outcome, State()) == LowerLoopBody(n, loop, endLoop, tc, old(State()))
      decreases n, 0
    {
      outcome := Visit(n.body);
      if !outcome.Done? {
        return;
      }
      EmitJumpAndLabel(loop, endLoop);
    }

    method VisitReturn(n: Command) returns (outcome: Outcome)
      requires n.Return? && Valid()
      modifies this, program, currentFunction
      ensures Valid()
      ensures outcome.Done? ==> currentFunction == old(currentFunction)
      ensures Step(outcome, State()) == Lower(n, tc, old(State()))
      decreases n, 1
    {
      outcome := Visit(n.argument);
      if !outcome.Done? {
        return;
      }
      var _ := program.AppendInstruction(Jump(functionReturn));
    }

    /** The error sentinel: record the message and abort. */
    method VisitError(n: Command) returns (outcome: Outcome)
      requires n.Error? && Valid()
      modifies this, program, currentFunction
      ensures Valid()
      ensures outcome.Done? ==> currentFunction == old(currentFunction)
      ensures Step(outcome, State()) == Lower(n, tc, old(State()))
      decreases n, 1
    {
      var message := ErrorMessage(n.text);
      errorBuffer := errorBuffer + message;
      outcome := CodeGenFailure(message);
    }
    /* The straight runs of instructions between two visits. Each changes
       only the program and appends what the function of the same name in
       `Lowering` lists. */

    method EmitArithmetic(op: ArithOp, float: bool)
      requires program.Valid()
      modifies program
      ensures program.Valid() && program.labelCount == old(program.labelCount)
      ensures program.code == old(program.code) + ArithTail(op, float)
    {
      var reversed := op == Sub || op == Div;
      if float {
        program.PopFloat(F0);
        program.PopFloat(F2);
        var _ := program.AppendInstruction(if reversed then FloatArith(op, F4, F2, F0) else FloatArith(op, F4, F0, F2));
        program.PushFloat(F4);
      } else {
        program.PopInt(T0);
        program.PopInt(T1);
        var _ := program.AppendInstruction(if reversed then IntArith(op, T2, T1, T0) else IntArith(op, T2, T0, T1));
        program.PushInt(T2);
      }
    }

    method EmitAnd(boolean: bool)
      requires program.Valid()
      modifies program
      ensures program.Valid() && program.labelCount == old(program.labelCount)
      ensures program.code == old(program.code) + AndTail(boolean)
    {
      if boolean {
        program.PopInt(T0);
        program.PopInt(T1);
        var _ := program.AppendInstruction(And(T2, T0, T1));
        program.PushInt(T2);
      }
    }

    method EmitOr(boolean: bool)
      requires program.Valid()
      modifies program
      ensures program.Valid() && program.labelCount == old(program.labelCount)
      ensures program.code == old(program.code) + OrTail(boolean)
    {
      if boolean {
        program.PopFloat(T0);
        program.PopFloat(T1);
        var _ := program.AppendInstruction(Or(T2, T0, T1));
        program.PushFloat(T2);
      }
    }

    method EmitNot(boolean: bool)
      requires program.Valid()
      modifies program
      ensures program.Valid() && program.labelCount == old(program.labelCount)
      ensures program.code == old(program.code) + NotTail(boolean)
    {
      if boolean {
        program.PopInt(T0);
        var _ := program.AppendInstruction(LoadUpper(T1, 0xFFFF));
        var _ := program.AppendInstruction(ShiftRightArith(T1, T1, 16));
        var _ := program.AppendInstruction(Xor(T2, T1, T0));
        program.PushInt(T2);
      }
    }

    method EmitComparison(cmp: Operation, float: bool)
      requires program.Valid()
      modifies program
      ensures program.Valid() && program.labelCount == old(program.labelCount)
      ensures program.code == old(program.code) + ComparisonTail(cmp, float)
    {
      if float {
        program.PopFloat(F0);
        program.PopFloat(F2);
        var _ := program.AppendInstruction(FloatCompare(cmp, F2, F0));
      } else {
        program.PopInt(T0);
        program.PopInt(T1);
        var _ := program.AppendInstruction(SetCompare(cmp, T2, T1, T0));
        program.PushInt(T2);
      }
    }

    method EmitDereference(integer: bool)
      requires program.Valid()
      modifies program
      ensures program.Valid() && program.labelCount == old(program.labelCount)
      ensures program.code == old(program.code) + DereferenceTail(integer)
    {
      program.PopInt(T0);
      if integer {
        var _ := program.AppendInstruction(LoadWord(T1, T0));
        program.PushInt(T1);
      } else {
        var _ := program.AppendInstruction(LoadWordFloat(F0, T0));
        program.PushFloat(F0);
      }
    }

    method EmitPops(first: Reg, second: Reg)
      requires program.Valid()
      modifies program
      ensures program.Valid() && program.labelCount == old(program.labelCount)
      ensures program.code == old(program.code) + [PopInt(first), PopInt(second)]
    {
      program.PopInt(first);
      program.PopInt(second);
    }

    method EmitIndex(elementBytes: nat)
      requires program.Valid()
      modifies program
      ensures program.Valid() && program.labelCount == old(program.labelCount)
      ensures program.code == old(program.code) + IndexTail(elementBytes)
    {
      var _ := program.AppendInstruction(AddImm(T2, Zero, elementBytes));
      var _ := program.AppendInstruction(IntArith(Mul, T0, T0, T2));
      var _ := program.AppendInstruction(IntArith(Add, T0, T0, T1));
      program.PushInt(T0);
    }

    method EmitAssignment(float: bool)
      requires program.Valid()
      modifies program
      ensures program.Valid() && program.labelCount == old(program.labelCount)
      ensures program.code == old(program.code) + AssignmentTail(float)
    {
      if float {
        program.PopFloat(F2);
        program.PopInt(T0);
        var _ := program.AppendInstruction(StoreWordFloat(F2, T0));
      } else {
        program.PopInt(T1);
        program.PopInt(T0);
        var _ := program.AppendInstruction(StoreWord(T1, T0));
      }
    }

    method EmitCallResult(f: Symbol)
      requires program.Valid()
      modifies program
      ensures program.Valid() && program.labelCount == old(program.labelCount)
      ensures program.code == old(program.code) + CallResult(f)
    {
      if f.typ != VoidType {
        var _ := program.AppendInstruction(SubImmUnsigned(SP, SP, 4));
        var _ := program.AppendInstruction(StoreWord(V0, SP));
      }
    }

    method EmitBranchIfFalse(float: bool, target: Label)
      requires program.Valid() && Below(target, program.labelCount)
      modifies program
      ensures program.Valid() && program.labelCount == old(program.labelCount)
      ensures program.code == old(program.code) + BranchIfFalse(float, target)
    {
      if float {
        var _ := program.AppendInstruction(BranchFloatFalse(target));
      } else {
        program.PopInt(T0);
        var _ := program.AppendInstruction(BranchEqual(T0, Zero, target));
      }
    }

    /** Two fresh labels, the first defined here. */
    method EmitLoopHead() returns (loop: Label, endLoop: Label)
      requires program.Valid()
      modifies program
      ensures program.Valid() && program.labelCount == old(program.labelCount) + 2
      ensures loop == Generated(old(program.labelCount)) && endLoop == Generated(old(program.labelCount) + 1)
      ensures program.code == old(program.code) + [DefineLabel(loop)]
    {
      loop := program.NewLabel();
      endLoop := program.NewLabel();
      var _ := program.AppendInstruction(DefineLabel(loop));
    }

    /** Two fresh labels, and the branch to the first. */
    method EmitIfHead(float: bool) returns (elseBlock: Label, doneBlock: Label)
      requires program.Valid()
      modifies program
      ensures program.Valid() && program.labelCount == old(program.labelCount) + 2
      ensures elseBlock == Generated(old(program.labelCount)) && doneBlock == Generated(old(program.labelCount) + 1)
      ensures program.code == old(program.code) + BranchIfFalse(float, elseBlock)
    {
      elseBlock := program.NewLabel();
      doneBlock := program.NewLabel();
      EmitBranchIfFalse(float, elseBlock);
    }

    method EmitJumpAndLabel(jumpTo: Label, define: Label)
      requires program.Valid() && Below(jumpTo, program.labelCount) && Below(define, program.labelCount)
      modifies program
      ensures program.Valid() && program.labelCount == old(program.labelCount)
      ensures program.code == old(program.code) + [Jump(jumpTo), DefineLabel(define)]
    {
      var _ := program.AppendInstruction(Jump(jumpTo));
      var _ := program.AppendInstruction(DefineLabel(define));
    }

    /** The return label is handed out before the entry label is emitted;
        `start` is the entry label's line. */
    method EmitFunctionHead(f: Symbol) returns (returnLabel: Label, start: nat)
      requires program.Valid()
      modifies program
      ensures program.Valid() && program.labelCount == old(program.labelCount) + 1
      ensures returnLabel == Generated(old(program.labelCount)) && start == |old(program.code)|
      ensures program.code == old(program.code) + [DefineLabel(EntryLabel(f))]
    {
      returnLabel := program.NewLabel();
      var begin := EntryLabel(f);
      start := program.AppendInstruction(DefineLabel(begin));
    }

    /** The prologue goes in right after the entry label, once the body has
        fixed the frame size; then the return label and the teardown. */
    method EmitFunctionTail(f: Symbol, start: nat, returnLabel: Label, frameSize: nat)
      requires program.Valid() && start < |program.code| && Below(returnLabel, program.labelCount)
      modifies program
      ensures program.Valid() && program.labelCount == old(program.labelCount)
      ensures program.code ==
        old(program.code)[..start + 1] + [Prologue(frameSize)] + old(program.code)[start + 1..] +
        FunctionEnd(f, returnLabel, frameSize)
    {
      program.InsertPrologue(start + 1, frameSize);
      EmitFunctionEnd(f, returnLabel, frameSize);
    }

    method EmitFunctionEnd(f: Symbol, returnLabel: Label, frameSize: nat)
      requires program.Valid() && Below(returnLabel, program.labelCount)
      modifies program
      ensures program.Valid() && program.labelCount == old(program.labelCount)
      ensures program.code == old(program.code) + FunctionEnd(f, returnLabel, frameSize)
    {
      var _ := program.AppendInstruction(DefineLabel(returnLabel));
      if f.typ != VoidType {
        if f.typ == FloatType {
          program.PopFloat(V0);
        } else {
          program.PopInt(V0);
        }
      }
      if f.name == "main" {
        program.AppendExitSequence();
      } else {
        program.AppendEpilogue(frameSize);
      }
    }
  }
}

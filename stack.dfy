/** The evaluation-stack protocol: every value expression leaves exactly one
    word more on the runtime stack, a float comparison leaves its result in
    the condition flag instead, and a statement leaves the stack as it found
    it. Stated as the net `EvalBytes` of the code one node appends. */
module StackEffect {
  import opened Types
  import opened Ast
  import opened Instructions
  import opened ActivationRecords
  import opened Lowering

  /** The types a value on the evaluation stack has. */
  predicate Scalar(t: Type) {
    t == BoolType || t == IntType || t == FloatType
  }

  /** Expressions whose visit pushes exactly one value: literals, addresses,
      arithmetic, an integer comparison, the logical operators on a boolean
      node, loads, indexing and a call of a non-void function whose arguments
      are scalar values. */
  predicate PushesWord(n: Command, tc: TypeOracle) {
    match n
    case LiteralBool(_) => true
    case LiteralFloat(_) => true
    case LiteralInt(_) => true
    case AddressOf(_) => true
    case Addition(l, r) => PushesWord(l, tc) && PushesWord(r, tc)
    case Subtraction(l, r) => PushesWord(l, tc) && PushesWord(r, tc)
    case Multiplication(l, r) => PushesWord(l, tc) && PushesWord(r, tc)
    case Division(l, r) => PushesWord(l, tc) && PushesWord(r, tc)
    case Comparison(_, l, r) => tc(n) != FloatType && PushesWord(l, tc) && PushesWord(r, tc)
    case LogicalAnd(l, r) => tc(n) == BoolType && PushesWord(l, tc) && PushesWord(r, tc)
    case LogicalOr(l, r) => tc(n) == BoolType && PushesWord(l, tc) && PushesWord(r, tc)
    case LogicalNot(e) => tc(n) == BoolType && PushesWord(e, tc)
    case Dereference(e) => PushesWord(e, tc)
    case Index(b, a) => PushesWord(b, tc) && PushesWord(a, tc)
    case Call(f, args) => f.typ != VoidType && ScalarArguments(args, tc)
    case _ => false
  }

  /** Arguments that each push one scalar value. */
  predicate ScalarArguments(args: seq<Command>, tc: TypeOracle) {
    forall i :: 0 <= i < |args| ==> PushesWord(args[i], tc) && Scalar(tc(args[i]))
  }

  /** A float comparison: its result goes to the condition flag, not the stack. */
  predicate SetsFlag(n: Command, tc: TypeOracle) {
    n.Comparison? && tc(n) == FloatType && PushesWord(n.leftSide, tc) && PushesWord(n.rightSide, tc)
  }

  /** Statements that leave the evaluation stack as they found it. An if/else
      test must match the branch the generator picks by the condition's type:
      a flag for a float condition, a popped word otherwise. */
  predicate Balanced(n: Command, tc: TypeOracle) {
    match n
    case StatementList(items) => forall i :: 0 <= i < |items| ==> Balanced(items[i], tc)
    case DeclarationList(items) => forall i :: 0 <= i < |items| ==> Balanced(items[i], tc)
    case VariableDeclaration(_) => true
    case ArrayDeclaration(_) => true
    case Assignment(d, s) => PushesWord(d, tc) && PushesWord(s, tc)
    case Call(f, args) => f.typ == VoidType && ScalarArguments(args, tc)
    case IfElseBranch(c, t, e) =>
      ((PushesWord(c, tc) && tc(c) != FloatType) || SetsFlag(c, tc)) && Balanced(t, tc) && Balanced(e, tc)
    case WhileLoop(c, b) => PushesWord(c, tc) && Balanced(b, tc)
    case _ => false
  }

  /** The net stack effect of what a step appended after `st`'s code. */
  predicate Pushed(st: GenState, r: Step, bytes: int) {
    r.outcome.Done? ==> EvalBytes(r.state.code) == EvalBytes(st.code) + bytes
  }

  lemma EvalBytes1(a: Instr)
    ensures EvalBytes([a]) == EvalDelta(a)
  {
    assert [a][..0] == [];
  }

  lemma EvalBytes2(a: Instr, b: Instr)
    ensures EvalBytes([a, b]) == EvalDelta(a) + EvalDelta(b)
  {
    EvalBytes1(a);
    assert [a, b][..1] == [a];
  }

  lemma EvalBytes3(a: Instr, b: Instr, c: Instr)
    ensures EvalBytes([a, b, c]) == EvalDelta(a) + EvalDelta(b) + EvalDelta(c)
  {
    EvalBytes2(a, b);
    assert [a, b, c][..2] == [a, b];
  }

  lemma EvalBytes4(a: Instr, b: Instr, c: Instr, d: Instr)
    ensures EvalBytes([a, b, c, d]) == EvalDelta(a) + EvalDelta(b) + EvalDelta(c) + EvalDelta(d)
  {
    EvalBytes3(a, b, c);
    assert [a, b, c, d][..3] == [a, b, c];
  }

  lemma EvalBytes5(a: Instr, b: Instr, c: Instr, d: Instr, e: Instr)
    ensures EvalBytes([a, b, c, d, e]) ==
      EvalDelta(a) + EvalDelta(b) + EvalDelta(c) + EvalDelta(d) + EvalDelta(e)
  {
    EvalBytes4(a, b, c, d);
    assert [a, b, c, d, e][..4] == [a, b, c, d];
  }

  /** Continuing a step with `instrs` adds their effect. */
  lemma ThenEffect(st: GenState, r: Step, bytes: int, instrs: seq<Instr>)
    requires Pushed(st, r, bytes)
    ensures Pushed(st, Then(r, instrs), bytes + EvalBytes(instrs))
  {
    if r.outcome.Done? {
      EvalBytesAppend(r.state.code, instrs);
    }
  }

  /** Each operation pops its two operands and pushes one result: one word
      net per operation, by the float or the integer family alike. */
  lemma ArithTailEffect(op: ArithOp, float: bool)
    ensures EvalBytes(ArithTail(op, float)) == -4
  {
    var t := ArithTail(op, float);
    assert t == [t[0], t[1], t[2], t[3]];
    EvalBytes4(t[0], t[1], t[2], t[3]);
  }

  /** An integer comparison pops two and pushes one; a float comparison pops
      two and pushes nothing. */
  lemma ComparisonTailEffect(cmp: Operation, float: bool)
    ensures EvalBytes(ComparisonTail(cmp, float)) == if float then -8 else -4
  {
    if float {
      EvalBytes3(PopFloat(F0), PopFloat(F2), FloatCompare(cmp, F2, F0));
    } else {
      EvalBytes4(PopInt(T0), PopInt(T1), SetCompare(cmp, T2, T1, T0), PushInt(T2));
    }
  }

  lemma LogicTailEffects()
    ensures EvalBytes(AndTail(true)) == -4 && EvalBytes(OrTail(true)) == -4
    ensures EvalBytes(NotTail(true)) == 0
  {
    EvalBytes4(PopInt(T0), PopInt(T1), And(T2, T0, T1), PushInt(T2));
    EvalBytes4(PopFloat(T0), PopFloat(T1), Or(T2, T0, T1), PushFloat(T2));
    EvalBytes5(PopInt(T0), LoadUpper(T1, 0xFFFF), ShiftRightArith(T1, T1, 16), Xor(T2, T1, T0), PushInt(T2));
  }

  lemma MemoryTailEffects(integer: bool, float: bool, elementBytes: nat)
    ensures EvalBytes(DereferenceTail(integer)) == 0
    ensures EvalBytes([PopInt(T0), PopInt(T1)] + IndexTail(elementBytes)) == -4
    ensures EvalBytes(AssignmentTail(float)) == -8
  {
    var d := DereferenceTail(integer);
    assert d == [d[0], d[1], d[2]];
    EvalBytes3(d[0], d[1], d[2]);
    EvalBytes2(PopInt(T0), PopInt(T1));
    EvalBytes4(AddImm(T2, Zero, elementBytes), IntArith(Mul, T0, T0, T2), IntArith(Add, T0, T0, T1), PushInt(T0));
    EvalBytesAppend([PopInt(T0), PopInt(T1)], IndexTail(elementBytes));
    var a := AssignmentTail(float);
    assert a == [a[0], a[1], a[2]];
    EvalBytes3(a[0], a[1], a[2]);
  }

  /** The branches and labels of if/else and while. */
  lemma ControlEffects(float: bool, target: Label, other: Label)
    ensures EvalBytes(BranchIfFalse(float, target)) == if float then 0 else -4
    ensures EvalBytes([DefineLabel(target)]) == 0
    ensures EvalBytes([Jump(target), DefineLabel(other)]) == 0
  {
    EvalBytes1(BranchFloatFalse(target));
    EvalBytes2(PopInt(T0), BranchEqual(T0, Zero, target));
    EvalBytes1(DefineLabel(target));
    EvalBytes2(Jump(target), DefineLabel(other));
  }

  /** The address computation leaves the stack alone: it targets `$t0`. */
  lemma {:induction false} ResolveEffect(chain: seq<FrameView>, sym: Symbol)
    ensures EvalBytes(ResolveIn(chain, T0, sym)) == 0
    decreases |chain|
  {
    if chain != [] {
      if Holds(chain[0], sym) {
        EvalBytes1(FrameAddress(chain[0], T0, sym));
      } else {
        ResolveEffect(chain[1..], sym);
      }
    }
  }

  /** Scalar arguments take one word each. */
  lemma {:induction false} ScalarArgumentBytes(args: seq<Command>, tc: TypeOracle)
    requires forall i :: 0 <= i < |args| ==> Scalar(tc(args[i]))
    ensures ArgumentBytes(args, tc) == Sized(4 * |args|)
    decreases |args|
  {
    if args != [] {
      var init := args[..|args| - 1];
      assert forall i :: 0 <= i < |init| ==> init[i] == args[i];
      ScalarArgumentBytes(init, tc);
    }
  }

  /** A value expression leaves one word on the stack. */
  lemma {:induction false} ValuePushesWord(n: Command, tc: TypeOracle, st: GenState)
    requires PushesWord(n, tc) && st.frames != []
    ensures Pushed(st, Lower(n, tc, st), 4)
    decreases n, 2
  {
    match n
    case LiteralBool(b) =>
      EvalBytesAppend(st.code, [AddImm(T0, Zero, b), PushInt(T0)]);
      EvalBytes2(AddImm(T0, Zero, b), PushInt(T0));
    case LiteralFloat(v) =>
      EvalBytesAppend(st.code, [LoadFloatImm(F0, v), PushFloat(F0)]);
      EvalBytes2(LoadFloatImm(F0, v), PushFloat(F0));
    case LiteralInt(v) =>
      EvalBytesAppend(st.code, [AddImm(T0, Zero, v), PushInt(T0)]);
      EvalBytes2(AddImm(T0, Zero, v), PushInt(T0));
    case AddressOf(sym) =>
      var resolve := ResolveIn(st.frames, T0, sym);
      EvalBytesAppend(st.code, resolve + [PushInt(T0)]);
      EvalBytesAppend(resolve, [PushInt(T0)]);
      ResolveEffect(st.frames, sym);
      EvalBytes1(PushInt(T0));
    case Addition(l, r) => ArithPushesWord(n, Add, tc, st);
    case Subtraction(l, r) => ArithPushesWord(n, Sub, tc, st);
    case Multiplication(l, r) => ArithPushesWord(n, Mul, tc, st);
    case Division(l, r) => ArithPushesWord(n, Div, tc, st);
    case Comparison(cmp, l, r) =>
      OperandsPushTwo(l, r, n, tc, st);
      ComparisonTailEffect(cmp, false);
      ThenEffect(st, LowerOperands(l, r, n, tc, st), 8, ComparisonTail(cmp, false));
    case LogicalAnd(l, r) =>
      OperandsPushTwo(l, r, n, tc, st);
      LogicTailEffects();
      ThenEffect(st, LowerOperands(l, r, n, tc, st), 8, AndTail(true));
    case LogicalOr(l, r) =>
      OperandsPushTwo(l, r, n, tc, st);
      LogicTailEffects();
      ThenEffect(st, LowerOperands(l, r, n, tc, st), 8, OrTail(true));
    case LogicalNot(e) =>
      ValuePushesWord(e, tc, st);
      LogicTailEffects();
      ThenEffect(st, Lower(e, tc, st), 4, NotTail(true));
    case Dereference(e) =>
      ValuePushesWord(e, tc, st);
      MemoryTailEffects(tc(n) == IntType, false, 0);
      ThenEffect(st, Lower(e, tc, st), 4, DereferenceTail(tc(n) == IntType));
    case Index(b, a) =>
      OperandsPushTwo(b, a, n, tc, st);
      var ops := LowerOperands(b, a, n, tc, st);
      if ops.outcome.Done? && Storable(ElementType(tc(n))) {
        var bytes := NumBytes(ElementType(tc(n)));
        MemoryTailEffects(false, false, bytes);
        EvalBytesAppend(ops.state.code, [PopInt(T0), PopInt(T1)]);
        EvalBytesAppend(ops.state.code + [PopInt(T0), PopInt(T1)], IndexTail(bytes));
        EvalBytesAppend([PopInt(T0), PopInt(T1)], IndexTail(bytes));
      }
    case Call(f, args) => CallEffect(n, tc, st);
  }

  lemma {:induction false} ArithPushesWord(n: Command, op: ArithOp, tc: TypeOracle, st: GenState)
    requires
      || (n.Addition? && op == Add) || (n.Subtraction? && op == Sub)
      || (n.Multiplication? && op == Mul) || (n.Division? && op == Div)
    requires PushesWord(n.leftSide, tc) && PushesWord(n.rightSide, tc) && st.frames != []
    ensures Pushed(st, LowerArithmetic(n, op, tc, st), 4)
    decreases n, 1
  {
    OperandsPushTwo(n.leftSide, n.rightSide, n, tc, st);
    ArithTailEffect(op, tc(n) == FloatType);
    ThenEffect(st, LowerOperands(n.leftSide, n.rightSide, n, tc, st), 8, ArithTail(op, tc(n) == FloatType));
  }

  /** Two value operands leave two words. */
  lemma {:induction false} OperandsPushTwo(first: Command, second: Command, parent: Command, tc: TypeOracle, st: GenState)
    requires first < parent && second < parent
    requires PushesWord(first, tc) && PushesWord(second, tc) && st.frames != []
    ensures Pushed(st, LowerOperands(first, second, parent, tc, st), 8)
    decreases parent, 0
  {
    ValuePushesWord(first, tc, st);
    var r := Lower(first, tc, st);
    if r.outcome.Done? {
      ValuePushesWord(second, tc, r.state);
    }
  }

  /** The arguments of a call leave one word each. */
  lemma {:induction false} ArgumentsPushWords(items: seq<Command>, parent: Command, tc: TypeOracle, st: GenState)
    requires forall i :: 0 <= i < |items| ==> items[i] < parent
    requires ScalarArguments(items, tc) && st.frames != []
    ensures Pushed(st, LowerList(items, parent, tc, st), 4 * |items|)
    decreases parent, 0, |items|
  {
    if items != [] {
      var init := items[..|items| - 1];
      assert forall i :: 0 <= i < |init| ==> init[i] == items[i];
      ArgumentsPushWords(init, parent, tc, st);
      var r := LowerList(init, parent, tc, st);
      if r.outcome.Done? {
        ValuePushesWord(items[|items| - 1], tc, r.state);
      }
    }
  }

  /** A call with scalar arguments: the caller pops exactly the words the
      arguments pushed, then pushes the result of a non-void function. */
  lemma {:induction false} CallEffect(n: Command, tc: TypeOracle, st: GenState)
    requires n.Call? && ScalarArguments(n.args, tc) && st.frames != []
    ensures Pushed(st, Lower(n, tc, st), if n.func.typ == VoidType then 0 else 4)
    decreases n, 1
  {
    ArgumentsPushWords(n.args, n, tc, st);
    var pushed := LowerList(n.args, n, tc, st);
    if pushed.outcome.Done? {
      CallTailEffect(n, tc, pushed.state);
    }
  }

  lemma CallTailEffect(n: Command, tc: TypeOracle, st: GenState)
    requires n.Call? && ScalarArguments(n.args, tc)
    ensures Pushed(st, LowerCallTail(n, tc, st), (if n.func.typ == VoidType then 0 else 4) - 4 * |n.args|)
  {
    var called := Emit(st, [JumpAndLink(CallTarget(n.func))]);
    JumpEffect(st, CallTarget(n.func));
    if |n.args| == 0 {
      CallResultAfter(called.code, n.func);
      assert LowerCallTail(n, tc, st) == Step(Done, Emit(called, CallResult(n.func)));
    } else {
      ScalarArgumentBytes(n.args, tc);
      CallCleanupAfter(called.code, 4 * |n.args|, n.func);
      assert LowerCallTail(n, tc, st) ==
        Step(Done, Emit(called, [AddImm(SP, SP, 4 * |n.args|)] + CallResult(n.func)));
    }
  }

  /** The `jal` itself leaves the stack alone. */
  lemma JumpEffect(st: GenState, target: Label)
    ensures EvalBytes(Emit(st, [JumpAndLink(target)]).code) == EvalBytes(st.code)
  {
    EvalBytesAppend(st.code, [JumpAndLink(target)]);
    EvalBytes1(JumpAndLink(target));
  }

  lemma CallResultAfter(code: seq<Instr>, f: Symbol)
    ensures EvalBytes(code + CallResult(f)) == EvalBytes(code) + (if f.typ == VoidType then 0 else 4)
  {
    CallResultEffect(f);
    EvalBytesAppend(code, CallResult(f));
  }

  /** Reclaiming the arguments' bytes, then pushing the result. */
  lemma CallCleanupAfter(code: seq<Instr>, bytes: int, f: Symbol)
    ensures EvalBytes(code + ([AddImm(SP, SP, bytes)] + CallResult(f))) ==
      EvalBytes(code) - bytes + (if f.typ == VoidType then 0 else 4)
  {
    CallResultEffect(f);
    EvalBytes1(AddImm(SP, SP, bytes));
    EvalBytesAppend([AddImm(SP, SP, bytes)], CallResult(f));
    EvalBytesAppend(code, [AddImm(SP, SP, bytes)] + CallResult(f));
  }

  lemma CallResultEffect(f: Symbol)
    ensures EvalBytes(CallResult(f)) == if f.typ == VoidType then 0 else 4
  {
    if f.typ != VoidType {
      EvalBytes2(SubImmUnsigned(SP, SP, 4), StoreWord(V0, SP));
    }
  }

  /** A float comparison leaves the stack as it found it. */
  lemma FlagLeavesStack(n: Command, tc: TypeOracle, st: GenState)
    requires SetsFlag(n, tc) && st.frames != []
    ensures Pushed(st, Lower(n, tc, st), 0)
  {
    OperandsPushTwo(n.leftSide, n.rightSide, n, tc, st);
    ComparisonTailEffect(n.operation, true);
    ThenEffect(st, LowerOperands(n.leftSide, n.rightSide, n, tc, st), 8, ComparisonTail(n.operation, true));
  }

  /** A balanced statement leaves the stack as it found it. */
  lemma {:induction false} StatementBalanced(n: Command, tc: TypeOracle, st: GenState)
    requires Balanced(n, tc) && st.frames != []
    ensures Pushed(st, Lower(n, tc, st), 0)
    decreases n, 2
  {
    match n
    case StatementList(items) => ListBalanced(items, n, tc, st);
    case DeclarationList(items) => ListBalanced(items, n, tc, st);
    case VariableDeclaration(sym) =>
      if Storable(sym.typ) && st.frames[0].global {
        EvalBytesAppend(st.code, [DataSpace(MangleDataname(sym.name), NumBytes(sym.typ))]);
        EvalBytes1(DataSpace(MangleDataname(sym.name), NumBytes(sym.typ)));
      }
    case ArrayDeclaration(sym) =>
      if Storable(sym.typ) && st.frames[0].global {
        EvalBytesAppend(st.code, [DataSpace(MangleDataname(sym.name), NumBytes(sym.typ))]);
        EvalBytes1(DataSpace(MangleDataname(sym.name), NumBytes(sym.typ)));
      }
    case Assignment(d, s) =>
      OperandsPushTwo(d, s, n, tc, st);
      MemoryTailEffects(false, tc(n) == FloatType, 0);
      ThenEffect(st, LowerOperands(d, s, n, tc, st), 8, AssignmentTail(tc(n) == FloatType));
    case Call(f, args) => CallEffect(n, tc, st);
    case IfElseBranch(c, t, e) => IfElseBalanced(n, tc, st);
    case WhileLoop(c, b) => WhileBalanced(n, tc, st);
  }

  lemma {:induction false} ListBalanced(items: seq<Command>, parent: Command, tc: TypeOracle, st: GenState)
    requires forall i :: 0 <= i < |items| ==> items[i] < parent && Balanced(items[i], tc)
    requires st.frames != []
    ensures Pushed(st, LowerList(items, parent, tc, st), 0)
    decreases parent, 0, |items|
  {
    if items != [] {
      var init := items[..|items| - 1];
      assert forall i :: 0 <= i < |init| ==> init[i] == items[i];
      ListBalanced(init, parent, tc, st);
      var r := LowerList(init, parent, tc, st);
      if r.outcome.Done? {
        StatementBalanced(items[|items| - 1], tc, r.state);
      }
    }
  }

  /** The test pops what the condition pushed (or reads the flag a float
      comparison set); each branch is balanced. */
  lemma {:induction false} IfElseBalanced(n: Command, tc: TypeOracle, st: GenState)
    requires n.IfElseBranch? && Balanced(n, tc) && st.frames != []
    ensures Pushed(st, LowerIfElse(n, tc, st), 0)
    decreases n, 1
  {
    var cond := Lower(n.condition, tc, st);
    ConditionEffect(n.condition, tc, st);
    if cond.outcome.Done? {
      IfElseTestBalanced(n, tc, cond.state);
    }
  }

  /** After the condition: the test takes back what the condition pushed. */
  lemma {:induction false} IfElseTestBalanced(n: Command, tc: TypeOracle, st: GenState)
    requires n.IfElseBranch? && Balanced(n.thenBlock, tc) && Balanced(n.elseBlock, tc) && st.frames != []
    ensures Pushed(st, LowerIfElseTest(n, tc, st), if tc(n.condition) == FloatType then 0 else -4)
    decreases n, 0, 1
  {
    var float := tc(n.condition) == FloatType;
    var elseLabel := Generated(st.labelCount);
    var labelled := st.(labelCount := st.labelCount + 2);
    var tested := Emit(labelled, BranchIfFalse(float, elseLabel));
    TestEffect(labelled, float, elseLabel);
    assert EvalBytes(tested.code) == EvalBytes(st.code) + (if float then 0 else -4);
    BranchesBalanced(n, elseLabel, Generated(st.labelCount + 1), tc, tested);
    assert LowerIfElseTest(n, tc, st) == LowerBranches(n, elseLabel, Generated(st.labelCount + 1), tc, tested);
  }

  /** A condition pushes one word, or only sets the flag when it is a float
      comparison. */
  lemma {:induction false} ConditionEffect(c: Command, tc: TypeOracle, st: GenState)
    requires (PushesWord(c, tc) && tc(c) != FloatType) || SetsFlag(c, tc)
    requires st.frames != []
    ensures Pushed(st, Lower(c, tc, st), if tc(c) == FloatType then 0 else 4)
  {
    if tc(c) == FloatType {
      FlagLeavesStack(c, tc, st);
    } else {
      ValuePushesWord(c, tc, st);
    }
  }

  lemma {:induction false} BranchesBalanced(n: Command, elseLabel: Label, doneLabel: Label, tc: TypeOracle, st: GenState)
    requires n.IfElseBranch? && Balanced(n.thenBlock, tc) && Balanced(n.elseBlock, tc) && st.frames != []
    ensures Pushed(st, LowerBranches(n, elseLabel, doneLabel, tc, st), 0)
    decreases n, 0, 0
  {
    StatementBalanced(n.thenBlock, tc, st);
    var thenPart := Lower(n.thenBlock, tc, st);
    if thenPart.outcome.Done? {
      var between := Emit(thenPart.state, [Jump(doneLabel), DefineLabel(elseLabel)]);
      ControlEffects(false, doneLabel, elseLabel);
      EvalBytesAppend(thenPart.state.code, [Jump(doneLabel), DefineLabel(elseLabel)]);
      StatementBalanced(n.elseBlock, tc, between);
      ThenEffect(between, Lower(n.elseBlock, tc, between), 0, [DefineLabel(doneLabel)]);
    }
  }

  /** The loop test pops the condition's word; the body is balanced. */
  lemma {:induction false} WhileBalanced(n: Command, tc: TypeOracle, st: GenState)
    requires n.WhileLoop? && Balanced(n, tc) && st.frames != []
    ensures Pushed(st, LowerWhile(n, tc, st), 0)
    decreases n, 1
  {
    ValuePushesWord(n.condition, tc, LoopTop(st));
    WhileEffect(n, tc, st, 4);
  }

  /** Whatever the condition pushes, the loop pops one integer word after it. */
  lemma {:induction false} WhileEffect(n: Command, tc: TypeOracle, st: GenState, condBytes: int)
    requires n.WhileLoop? && Balanced(n.body, tc) && st.frames != []
    requires Pushed(LoopTop(st), Lower(n.condition, tc, LoopTop(st)), condBytes)
    ensures Pushed(st, LowerWhile(n, tc, st), condBytes - 4)
    decreases n, 0, 1
  {
    var loopLabel := Generated(st.labelCount);
    var endLabel := Generated(st.labelCount + 1);
    var cond := Lower(n.condition, tc, LoopTop(st));
    LoopTopEffect(st);
    if cond.outcome.Done? {
      var tested := Emit(cond.state, BranchIfFalse(false, endLabel));
      TestEffect(cond.state, false, endLabel);
      LoopBodyBalanced(n, loopLabel, endLabel, tc, tested);
      assert LowerWhile(n, tc, st) == LowerLoopBody(n, loopLabel, endLabel, tc, tested);
    } else {
      assert LowerWhile(n, tc, st) == cond;
    }
  }

  lemma LoopTopEffect(st: GenState)
    ensures EvalBytes(LoopTop(st).code) == EvalBytes(st.code)
  {
    EvalBytes1(DefineLabel(Generated(st.labelCount)));
    EvalBytesAppend(st.code, [DefineLabel(Generated(st.labelCount))]);
  }

  /** The test pops the integer it examines; a flag test pops nothing. */
  lemma TestEffect(st: GenState, float: bool, target: Label)
    ensures EvalBytes(Emit(st, BranchIfFalse(float, target)).code) ==
      EvalBytes(st.code) + (if float then 0 else -4)
  {
    ControlEffects(float, target, target);
    EvalBytesAppend(st.code, BranchIfFalse(float, target));
  }

  lemma {:induction false} LoopBodyBalanced(n: Command, loopLabel: Label, endLabel: Label, tc: TypeOracle, st: GenState)
    requires n.WhileLoop? && Balanced(n.body, tc) && st.frames != []
    ensures Pushed(st, LowerLoopBody(n, loopLabel, endLabel, tc, st), 0)
    decreases n, 0, 0
  {
    StatementBalanced(n.body, tc, st);
    ControlEffects(false, loopLabel, endLabel);
    ThenEffect(st, Lower(n.body, tc, st), 0, [Jump(loopLabel), DefineLabel(endLabel)]);
  }

  /** The loop always pops its condition as an integer word, so a float
      comparison as a condition, which pushes nothing, makes each pass take
      one word more off the stack than it put on. */
  lemma WhileFloatConditionUnderflows(n: Command, tc: TypeOracle, st: GenState)
    requires n.WhileLoop? && SetsFlag(n.condition, tc) && Balanced(n.body, tc) && st.frames != []
    ensures Pushed(st, Lower(n, tc, st), -4)
  {
    FlagLeavesStack(n.condition, tc, LoopTop(st));
    WhileEffect(n, tc, st, 0);
  }
}

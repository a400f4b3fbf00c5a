/** Label discipline: every label `newLabel` hands out while a tree is lowered
    is defined exactly once in the code the tree appends, provided no function
    definition sits inside another one. A nested definition breaks this,
    because the inner function overwrites `function_return` and nothing
    restores it: see `NestedDefinitionMisplacesReturn`. */
module LabelDiscipline {
  import opened Types
  import opened Ast
  import opened Instructions
  import opened ActivationRecords
  import opened Lowering

  /** Function definitions only outside function bodies: `inBody` says
      whether `n` itself lies inside a body, where no definition may occur. */
  predicate Flat(n: Command, inBody: bool) {
    match n
    case ExpressionList(items) => forall i :: 0 <= i < |items| ==> Flat(items[i], inBody)
    case DeclarationList(items) => forall i :: 0 <= i < |items| ==> Flat(items[i], inBody)
    case StatementList(items) => forall i :: 0 <= i < |items| ==> Flat(items[i], inBody)
    case FunctionDefinition(_, _, b) => !inBody && Flat(b, true)
    case Addition(l, r) => Flat(l, inBody) && Flat(r, inBody)
    case Subtraction(l, r) => Flat(l, inBody) && Flat(r, inBody)
    case Multiplication(l, r) => Flat(l, inBody) && Flat(r, inBody)
    case Division(l, r) => Flat(l, inBody) && Flat(r, inBody)
    case LogicalAnd(l, r) => Flat(l, inBody) && Flat(r, inBody)
    case LogicalOr(l, r) => Flat(l, inBody) && Flat(r, inBody)
    case LogicalNot(e) => Flat(e, inBody)
    case Comparison(_, l, r) => Flat(l, inBody) && Flat(r, inBody)
    case Dereference(e) => Flat(e, inBody)
    case Index(b, a) => Flat(b, inBody) && Flat(a, inBody)
    case Assignment(d, s) => Flat(d, inBody) && Flat(s, inBody)
    case Call(_, args) => forall i :: 0 <= i < |args| ==> Flat(args[i], inBody)
    case IfElseBranch(c, t, e) => Flat(c, inBody) && Flat(t, inBody) && Flat(e, inBody)
    case WhileLoop(c, b) => Flat(c, inBody) && Flat(b, inBody)
    case Return(e) => Flat(e, inBody)
    case _ => true
  }

  /** 1 when label number `m` is among those handed out while the counter
      went from `lo` to `hi`. */
  function Taken(lo: nat, hi: nat, m: nat): nat {
    if lo <= m < hi then 1 else 0
  }

  /** A step that ends normally appends one definition of `m` for each time
      `m` was handed out during it, plus `extra` more for labels handed out
      before it. */
  predicate Counted(st: GenState, r: Step, m: nat, extra: nat) {
    r.outcome.Done? ==>
      Definitions(r.state.code, m) == Definitions(st.code, m) + Taken(st.labelCount, r.state.labelCount, m) + extra
  }

  /** A tree free of function definitions leaves `function_return` alone,
      however it ends. */
  predicate KeepsReturn(st: GenState, r: Step, functionFree: bool) {
    functionFree ==> r.state.functionReturn == st.functionReturn
  }

  /** What lowering promises about labels, for each label number `m`: a
      step that ends normally defines `m` exactly once if it handed `m` out,
      and not at all otherwise. */
  predicate Disciplined(st: GenState, r: Step, functionFree: bool, m: nat) {
    Counted(st, r, m, 0) && KeepsReturn(st, r, functionFree)
  }

  predicate NoDefs(instrs: seq<Instr>) {
    forall k :: 0 <= k < |instrs| ==> !instrs[k].DefineLabel?
  }

  lemma {:induction false} NoDefsAppend(code: seq<Instr>, instrs: seq<Instr>, m: nat)
    requires NoDefs(instrs)
    ensures Definitions(code + instrs, m) == Definitions(code, m)
    decreases |instrs|
  {
    if instrs != [] {
      var init := instrs[..|instrs| - 1];
      assert (code + instrs)[..|code + instrs| - 1] == code + init;
      assert (code + instrs)[|code + instrs| - 1] == instrs[|instrs| - 1];
      assert NoDefs(init) by {
        forall k | 0 <= k < |init| ensures !init[k].DefineLabel? {
          assert init[k] == instrs[k];
        }
      }
      NoDefsAppend(code, init, m);
    } else {
      assert code + instrs == code;
    }
  }

  /** Code without label definitions after a disciplined step. */
  lemma ThenDisciplined(st: GenState, r: Step, instrs: seq<Instr>, functionFree: bool, m: nat)
    requires Disciplined(st, r, functionFree, m) && NoDefs(instrs)
    ensures Disciplined(st, Then(r, instrs), functionFree, m)
  {
    if r.outcome.Done? {
      NoDefsAppend(r.state.code, instrs, m);
    }
  }

  /** Two steps in sequence: the labels the first hands out and those the
      second hands out are the labels of the whole. */
  lemma Sequenced(s0: GenState, r1: Step, r2: Step, free1: bool, free2: bool, m: nat)
    requires r1.outcome.Done? && Disciplined(s0, r1, free1, m) && Disciplined(r1.state, r2, free2, m)
    requires s0.labelCount <= r1.state.labelCount <= r2.state.labelCount
    ensures Disciplined(s0, r2, free1 && free2, m)
  {
  }

  /** A range of labels split in two. */
  lemma TakenSplit(lo: nat, mid: nat, hi: nat, m: nat)
    requires lo <= mid <= hi
    ensures Taken(lo, hi, m) == Taken(lo, mid, m) + Taken(mid, hi, m)
  {
  }

  lemma {:induction false} ResolveNoDefs(chain: seq<FrameView>, reg: Reg, sym: Symbol)
    ensures NoDefs(ResolveIn(chain, reg, sym))
    decreases |chain|
  {
    if chain != [] && !Holds(chain[0], sym) {
      ResolveNoDefs(chain[1..], reg, sym);
    }
  }

  /** The runs that define a generated label, and an entry label that is not
      generated. */
  lemma DefinitionRuns(code: seq<Instr>, d: nat, x: Label, name: string, m: nat)
    ensures Definitions(code + [DefineLabel(Generated(d))], m) == Definitions(code, m) + Taken(d, d + 1, m)
    ensures Definitions(code + [Jump(x), DefineLabel(Generated(d))], m) == Definitions(code, m) + Taken(d, d + 1, m)
    ensures Definitions(code + [DefineLabel(Named(name))], m) == Definitions(code, m)
  {
    assert (code + [DefineLabel(Generated(d))])[..|code|] == code;
    assert (code + [DefineLabel(Named(name))])[..|code|] == code;
    assert (code + [Jump(x), DefineLabel(Generated(d))])[..|code| + 1] == code + [Jump(x)];
    NoDefsAppend(code, [Jump(x)], m);
  }

  /** Inserting the prologue defines no label. */
  lemma InsertionKeepsDefs(code: seq<Instr>, k: nat, size: nat, m: nat)
    requires k <= |code|
    ensures Definitions(code[..k] + [Prologue(size)] + code[k..], m) == Definitions(code, m)
  {
    DefinitionsAppend(code[..k] + [Prologue(size)], code[k..], m);
    NoDefsAppend(code[..k], [Prologue(size)], m);
    DefinitionsAppend(code[..k], code[k..], m);
    assert code[..k] + code[k..] == code;
  }

  /** The label discipline for every tree with flat function definitions. */
  lemma {:induction false} LabelsFresh(n: Command, inBody: bool, tc: TypeOracle, st: GenState, m: nat)
    requires Flat(n, inBody) && st.frames != []
    ensures Disciplined(st, Lower(n, tc, st), inBody, m)
    decreases n, 2
  {
    match n
    case ExpressionList(items) => ListFresh(items, inBody, n, tc, st, m);
    case DeclarationList(items) => ListFresh(items, inBody, n, tc, st, m);
    case StatementList(items) => ListFresh(items, inBody, n, tc, st, m);
    case AddressOf(sym) =>
      ResolveNoDefs(st.frames, T0, sym);
      NoDefsAppend(st.code, ResolveIn(st.frames, T0, sym) + [PushInt(T0)], m);
    case LiteralBool(b) => NoDefsAppend(st.code, [AddImm(T0, Zero, b), PushInt(T0)], m);
    case LiteralFloat(v) => NoDefsAppend(st.code, [LoadFloatImm(F0, v), PushFloat(F0)], m);
    case LiteralInt(v) => NoDefsAppend(st.code, [AddImm(T0, Zero, v), PushInt(T0)], m);
    case VariableDeclaration(_) => DeclarationFresh(n, tc, st, m);
    case ArrayDeclaration(_) => DeclarationFresh(n, tc, st, m);
    case FunctionDefinition(_, _, _) => FunctionFresh(n, tc, st, m);
    case Addition(_, _) => ArithFresh(n, Add, inBody, tc, st, m);
    case Subtraction(_, _) => ArithFresh(n, Sub, inBody, tc, st, m);
    case Multiplication(_, _) => ArithFresh(n, Mul, inBody, tc, st, m);
    case Division(_, _) => ArithFresh(n, Div, inBody, tc, st, m);
    case LogicalAnd(_, _) => BinaryFresh(n, inBody, tc, st, m);
    case LogicalOr(_, _) => BinaryFresh(n, inBody, tc, st, m);
    case Comparison(_, _, _) => BinaryFresh(n, inBody, tc, st, m);
    case Assignment(_, _) => BinaryFresh(n, inBody, tc, st, m);
    case LogicalNot(_) => UnaryFresh(n, inBody, tc, st, m);
    case Dereference(_) => UnaryFresh(n, inBody, tc, st, m);
    case Return(_) => UnaryFresh(n, inBody, tc, st, m);
    case Index(_, _) => IndexFresh(n, inBody, tc, st, m);
    case Call(_, _) => CallFresh(n, inBody, tc, st, m);
    case IfElseBranch(_, _, _) => IfElseFresh(n, inBody, tc, st, m);
    case WhileLoop(_, _) => WhileFresh(n, inBody, tc, st, m);
    case Error(_) =>
  }

  lemma DeclarationFresh(n: Command, tc: TypeOracle, st: GenState, m: nat)
    requires (n.VariableDeclaration? || n.ArrayDeclaration?) && st.frames != []
    ensures Disciplined(st, Lower(n, tc, st), true, m)
  {
    if Storable(n.symbol.typ) {
      NoDefsAppend(st.code, [DataSpace(MangleDataname(n.symbol.name), NumBytes(n.symbol.typ))], m);
    }
  }

  lemma {:induction false} ListFresh(items: seq<Command>, inBody: bool, parent: Command, tc: TypeOracle, st: GenState, m: nat)
    requires forall i :: 0 <= i < |items| ==> items[i] < parent && Flat(items[i], inBody)
    requires st.frames != []
    ensures Disciplined(st, LowerList(items, parent, tc, st), inBody, m)
    decreases parent, 0, |items|
  {
    if items != [] {
      var init := items[..|items| - 1];
      assert forall i :: 0 <= i < |init| ==> init[i] == items[i];
      ListFresh(init, inBody, parent, tc, st, m);
      var r := LowerList(init, parent, tc, st);
      if r.outcome.Done? {
        LabelsFresh(items[|items| - 1], inBody, tc, r.state, m);
        Sequenced(st, r, Lower(items[|items| - 1], tc, r.state), inBody, inBody, m);
      }
    }
  }

  lemma {:induction false} OperandsFresh(first: Command, second: Command, inBody: bool, parent: Command, tc: TypeOracle, st: GenState, m: nat)
    requires first < parent && second < parent
    requires Flat(first, inBody) && Flat(second, inBody) && st.frames != []
    ensures Disciplined(st, LowerOperands(first, second, parent, tc, st), inBody, m)
    decreases parent, 0
  {
    LabelsFresh(first, inBody, tc, st, m);
    var r := Lower(first, tc, st);
    if r.outcome.Done? {
      LabelsFresh(second, inBody, tc, r.state, m);
      Sequenced(st, r, Lower(second, tc, r.state), inBody, inBody, m);
    }
  }

  lemma {:induction false} ArithFresh(n: Command, op: ArithOp, inBody: bool, tc: TypeOracle, st: GenState, m: nat)
    requires
      || (n.Addition? && op == Add) || (n.Subtraction? && op == Sub)
      || (n.Multiplication? && op == Mul) || (n.Division? && op == Div)
    requires Flat(n.leftSide, inBody) && Flat(n.rightSide, inBody) && st.frames != []
    ensures Disciplined(st, LowerArithmetic(n, op, tc, st), inBody, m)
    decreases n, 1
  {
    OperandsFresh(n.leftSide, n.rightSide, inBody, n, tc, st, m);
    ThenDisciplined(st, LowerOperands(n.leftSide, n.rightSide, n, tc, st), ArithTail(op, tc(n) == FloatType), inBody, m);
  }

  /** The logical operators, comparison and assignment: two operands and a
      run that defines nothing. */
  lemma {:induction false} BinaryFresh(n: Command, inBody: bool, tc: TypeOracle, st: GenState, m: nat)
    requires n.LogicalAnd? || n.LogicalOr? || n.Comparison? || n.Assignment?
    requires Flat(n, inBody) && st.frames != []
    ensures Disciplined(st, Lower(n, tc, st), inBody, m)
    decreases n, 1
  {
    if n.Assignment? {
      OperandsFresh(n.destination, n.source, inBody, n, tc, st, m);
      ThenDisciplined(st, LowerOperands(n.destination, n.source, n, tc, st), AssignmentTail(tc(n) == FloatType), inBody, m);
    } else {
      OperandsFresh(n.leftSide, n.rightSide, inBody, n, tc, st, m);
      var ops := LowerOperands(n.leftSide, n.rightSide, n, tc, st);
      if n.LogicalAnd? {
        ThenDisciplined(st, ops, AndTail(tc(n) == BoolType), inBody, m);
      } else if n.LogicalOr? {
        ThenDisciplined(st, ops, OrTail(tc(n) == BoolType), inBody, m);
      } else {
        ThenDisciplined(st, ops, ComparisonTail(n.operation, tc(n) == FloatType), inBody, m);
      }
    }
  }

  /** Not, dereference and return: one operand and a run that defines
      nothing (a return only jumps). */
  lemma {:induction false} UnaryFresh(n: Command, inBody: bool, tc: TypeOracle, st: GenState, m: nat)
    requires n.LogicalNot? || n.Dereference? || n.Return?
    requires Flat(n, inBody) && st.frames != []
    ensures Disciplined(st, Lower(n, tc, st), inBody, m)
    decreases n, 1
  {
    if n.Return? {
      LabelsFresh(n.argument, inBody, tc, st, m);
      var r := Lower(n.argument, tc, st);
      ThenDisciplined(st, r, [Jump(r.state.functionReturn)], inBody, m);
    } else {
      LabelsFresh(n.expression, inBody, tc, st, m);
      var r := Lower(n.expression, tc, st);
      if n.LogicalNot? {
        ThenDisciplined(st, r, NotTail(tc(n) == BoolType), inBody, m);
      } else {
        ThenDisciplined(st, r, DereferenceTail(tc(n) == IntType), inBody, m);
      }
    }
  }

  lemma {:induction false} IndexFresh(n: Command, inBody: bool, tc: TypeOracle, st: GenState, m: nat)
    requires n.Index? && Flat(n, inBody) && st.frames != []
    ensures Disciplined(st, LowerIndex(n, tc, st), inBody, m)
    decreases n, 1
  {
    OperandsFresh(n.base, n.amount, inBody, n, tc, st, m);
    var ops := LowerOperands(n.base, n.amount, n, tc, st);
    if ops.outcome.Done? && Storable(ElementType(tc(n))) {
      var tail := IndexTail(NumBytes(ElementType(tc(n))));
      NoDefsAppend(ops.state.code, [PopInt(T0), PopInt(T1)], m);
      NoDefsAppend(ops.state.code + [PopInt(T0), PopInt(T1)], tail, m);
    }
  }

  lemma {:induction false} CallFresh(n: Command, inBody: bool, tc: TypeOracle, st: GenState, m: nat)
    requires n.Call? && Flat(n, inBody) && st.frames != []
    ensures Disciplined(st, LowerCall(n, tc, st), inBody, m)
    decreases n, 1
  {
    ListFresh(n.args, inBody, n, tc, st, m);
    var pushed := LowerList(n.args, n, tc, st);
    if pushed.outcome.Done? {
      CallTailFresh(n, tc, pushed.state, m);
    }
  }

  lemma CallTailFresh(n: Command, tc: TypeOracle, st: GenState, m: nat)
    requires n.Call?
    ensures Disciplined(st, LowerCallTail(n, tc, st), true, m)
  {
    var jump := [JumpAndLink(CallTarget(n.func))];
    NoDefsAppend(st.code, jump, m);
    if |n.args| == 0 {
      NoDefsAppend(st.code + jump, CallResult(n.func), m);
    } else if ArgumentBytes(n.args, tc).Sized? {
      NoDefsAppend(st.code + jump, [AddImm(SP, SP, ArgumentBytes(n.args, tc).bytes)] + CallResult(n.func), m);
    }
  }

  lemma {:induction false} IfElseFresh(n: Command, inBody: bool, tc: TypeOracle, st: GenState, m: nat)
    requires n.IfElseBranch? && Flat(n, inBody) && st.frames != []
    ensures Disciplined(st, LowerIfElse(n, tc, st), inBody, m)
    decreases n, 1
  {
    LabelsFresh(n.condition, inBody, tc, st, m);
    var cond := Lower(n.condition, tc, st);
    if cond.outcome.Done? {
      IfElseTestFresh(n, inBody, tc, cond.state, m);
    }
  }

  /** The test defines nothing; the branches define the two labels taken. */
  lemma {:induction false} IfElseTestFresh(n: Command, inBody: bool, tc: TypeOracle, st: GenState, m: nat)
    requires n.IfElseBranch? && Flat(n.thenBlock, inBody) && Flat(n.elseBlock, inBody) && st.frames != []
    ensures Disciplined(st, LowerIfElseTest(n, tc, st), inBody, m)
    decreases n, 0, 2
  {
    var r := LowerBranches(n, Generated(st.labelCount), Generated(st.labelCount + 1), tc, Tested(n, tc, st));
    TestedFresh(n, inBody, tc, st, m);
    assert LowerIfElseTest(n, tc, st) == r;
  }

  /** The test defines nothing; the branches define the two labels taken. */
  lemma {:induction false} TestedFresh(n: Command, inBody: bool, tc: TypeOracle, st: GenState, m: nat)
    requires n.IfElseBranch? && Flat(n.thenBlock, inBody) && Flat(n.elseBlock, inBody) && st.frames != []
    ensures Counted(st, LowerBranches(n, Generated(st.labelCount), Generated(st.labelCount + 1), tc, Tested(n, tc, st)), m, 0)
    ensures KeepsReturn(st, LowerBranches(n, Generated(st.labelCount), Generated(st.labelCount + 1), tc, Tested(n, tc, st)), inBody)
    decreases n, 0, 1
  {
    var e := st.labelCount;
    NoDefsAppend(st.code, BranchIfFalse(tc(n.condition) == FloatType, Generated(e)), m);
    BranchesFresh(n, e, inBody, tc, Tested(n, tc, st), m);
    CountedAfterPair(st, Tested(n, tc, st), LowerBranches(n, Generated(e), Generated(e + 1), tc, Tested(n, tc, st)), m);
  }

  /** A step that defines nothing but takes two labels, followed by one that
      defines those two. */
  lemma CountedAfterPair(st: GenState, mid: GenState, r: Step, m: nat)
    requires mid.labelCount == st.labelCount + 2 && Definitions(mid.code, m) == Definitions(st.code, m)
    requires mid.labelCount <= r.state.labelCount
    requires Counted(mid, r, m, Taken(st.labelCount, st.labelCount + 2, m))
    ensures Counted(st, r, m, 0)
  {
    TakenSplit(st.labelCount, mid.labelCount, r.state.labelCount, m);
  }

  /** The branches define the else label and the done label. */
  lemma {:induction false} BranchesFresh(n: Command, e: nat, inBody: bool, tc: TypeOracle, st: GenState, m: nat)
    requires n.IfElseBranch? && Flat(n.thenBlock, inBody) && Flat(n.elseBlock, inBody) && st.frames != []
    ensures Counted(st, LowerBranches(n, Generated(e), Generated(e + 1), tc, st), m, Taken(e, e + 2, m))
    ensures KeepsReturn(st, LowerBranches(n, Generated(e), Generated(e + 1), tc, st), inBody)
    decreases n, 0, 0
  {
    LabelsFresh(n.thenBlock, inBody, tc, st, m);
    var thenPart := Lower(n.thenBlock, tc, st);
    if thenPart.outcome.Done? {
      var between := Emit(thenPart.state, [Jump(Generated(e + 1)), DefineLabel(Generated(e))]);
      DefinitionRuns(thenPart.state.code, e, Generated(e + 1), "", m);
      LabelsFresh(n.elseBlock, inBody, tc, between, m);
      var elsePart := Lower(n.elseBlock, tc, between);
      if elsePart.outcome.Done? {
        DefinitionRuns(elsePart.state.code, e + 1, Generated(e + 1), "", m);
        TakenSplit(e, e + 1, e + 2, m);
      }
    }
  }

  lemma {:induction false} WhileFresh(n: Command, inBody: bool, tc: TypeOracle, st: GenState, m: nat)
    requires n.WhileLoop? && Flat(n, inBody) && st.frames != []
    ensures Disciplined(st, LowerWhile(n, tc, st), inBody, m)
    decreases n, 1
  {
    var loop := st.labelCount;
    DefinitionRuns(st.code, loop, Generated(loop), "", m);
    LabelsFresh(n.condition, inBody, tc, LoopTop(st), m);
    var cond := Lower(n.condition, tc, LoopTop(st));
    if cond.outcome.Done? {
      var tested := Emit(cond.state, BranchIfFalse(false, Generated(loop + 1)));
      LoopTestFresh(n, loop, inBody, tc, cond.state, m);
      var r := LowerLoopBody(n, Generated(loop), Generated(loop + 1), tc, tested);
      if r.outcome.Done? {
        TakenSplit(loop, loop + 2, r.state.labelCount, m);
        TakenSplit(loop + 2, cond.state.labelCount, r.state.labelCount, m);
        TakenSplit(loop, loop + 1, loop + 2, m);
      }
      assert LowerWhile(n, tc, st) == r;
    } else {
      assert LowerWhile(n, tc, st) == cond;
    }
  }

  /** The exit test defines nothing; the body then defines the exit label. */
  lemma {:induction false} LoopTestFresh(n: Command, loop: nat, inBody: bool, tc: TypeOracle, st: GenState, m: nat)
    requires n.WhileLoop? && Flat(n.body, inBody) && st.frames != []
    ensures Counted(st, LowerLoopBody(n, Generated(loop), Generated(loop + 1), tc, Emit(st, BranchIfFalse(false, Generated(loop + 1)))),
                    m, Taken(loop + 1, loop + 2, m))
    ensures KeepsReturn(st, LowerLoopBody(n, Generated(loop), Generated(loop + 1), tc, Emit(st, BranchIfFalse(false, Generated(loop + 1)))),
                        inBody)
    decreases n, 0, 1
  {
    var test := BranchIfFalse(false, Generated(loop + 1));
    NoDefsAppend(st.code, test, m);
    LoopBodyFresh(n, loop, inBody, tc, Emit(st, test), m);
  }

  lemma {:induction false} LoopBodyFresh(n: Command, loop: nat, inBody: bool, tc: TypeOracle, st: GenState, m: nat)
    requires n.WhileLoop? && Flat(n.body, inBody) && st.frames != []
    ensures Counted(st, LowerLoopBody(n, Generated(loop), Generated(loop + 1), tc, st), m, Taken(loop + 1, loop + 2, m))
    ensures KeepsReturn(st, LowerLoopBody(n, Generated(loop), Generated(loop + 1), tc, st), inBody)
    decreases n, 0, 0
  {
    LabelsFresh(n.body, inBody, tc, st, m);
    var body := Lower(n.body, tc, st);
    if body.outcome.Done? {
      DefinitionRuns(body.state.code, loop + 1, Generated(loop), "", m);
    }
  }

  /** A function definition at the outer level: its body keeps the new
      `function_return`, which the end of the function defines. */
  lemma {:induction false} FunctionFresh(n: Command, tc: TypeOracle, st: GenState, m: nat)
    requires n.FunctionDefinition? && Flat(n.body, true) && st.frames != []
    ensures Disciplined(st, LowerFunction(n, tc, st), false, m)
    decreases n, 1
  {
    if ArgumentCheck(n.arguments).Done? {
      var ret := st.labelCount;
      DefinitionRuns(st.code, ret, Generated(ret), EntryLabel(n.func).text, m);
      FunctionBodyFresh(n, |st.code|, tc, Entered(n, st), m);
      var r := LowerFunctionBody(n, |st.code|, tc, Entered(n, st));
      if r.outcome.Done? {
        TakenSplit(ret, ret + 1, r.state.labelCount, m);
      }
    }
  }

  lemma {:induction false} FunctionBodyFresh(n: Command, start: nat, tc: TypeOracle, st: GenState, m: nat)
    requires n.FunctionDefinition? && Flat(n.body, true) && |st.frames| >= 2 && start < |st.code|
    requires st.functionReturn.Generated?
    ensures Counted(st, LowerFunctionBody(n, start, tc, st), m, Taken(st.functionReturn.n, st.functionReturn.n + 1, m))
    decreases n, 0
  {
    LabelsFresh(n.body, true, tc, st, m);
    var body := Lower(n.body, tc, st);
    if body.outcome.Done? {
      var size := body.state.frames[0].stackSize;
      var code := body.state.code;
      InsertionKeepsDefs(code, start + 1, size, m);
      EndDefinesReturn(code[..start + 1] + [Prologue(size)] + code[start + 1..], n.func, st.functionReturn.n, size, m);
    }
  }

  /** The function's end defines its return label and nothing else. */
  lemma EndDefinesReturn(code: seq<Instr>, f: Symbol, d: nat, size: nat, m: nat)
    ensures Definitions(code + FunctionEnd(f, Generated(d), size), m) == Definitions(code, m) + Taken(d, d + 1, m)
  {
    DefinitionRuns(code, d, Generated(0), "", m);
    var rest := ReturnValue(f) + [FunctionExit(f, size)];
    assert code + FunctionEnd(f, Generated(d), size) == code + [DefineLabel(Generated(d))] + rest;
    NoDefsAppend(code + [DefineLabel(Generated(d))], rest, m);
  }

  /** A whole generation from an empty program with nothing nested: when
      `generate` returns true, each label handed out during it is defined
      exactly once and no other generated label is defined. */
  lemma GeneratedLabelsDefinedOnce(ast: Command, tc: TypeOracle, st: GenState, m: nat)
    requires Flat(ast, false) && st.code == []
    ensures var (result, final) := Generation(ast, tc, st);
      result == Returned(true) ==>
        Definitions(final.code, m) == (if st.labelCount <= m < final.labelCount then 1 else 0)
  {
    var start := st.(frames := [GlobalView]);
    LabelsFresh(ast, false, tc, start, m);
  }

  /** Hence every generated label the final code jumps or branches to, or
      otherwise mentions, is defined exactly once, given that the code only
      mentions labels already handed out (the invariant of `Program`). */
  lemma TargetsDefinedOnce(ast: Command, tc: TypeOracle, st: GenState)
    requires Flat(ast, false) && st.code == [] && st.labelCount == 0
    requires LabelsBelow(Generation(ast, tc, st).1.code, Generation(ast, tc, st).1.labelCount)
    requires Generation(ast, tc, st).0 == Returned(true)
    ensures var code := Generation(ast, tc, st).1.code;
      forall k, l :: 0 <= k < |code| && l in Mentions(code[k]) && l.Generated? ==> Definitions(code, l.n) == 1
  {
    var final := Generation(ast, tc, st).1;
    forall k, l | 0 <= k < |final.code| && l in Mentions(final.code[k]) && l.Generated?
      ensures Definitions(final.code, l.n) == 1
    {
      assert Below(l, final.labelCount);
      GeneratedLabelsDefinedOnce(ast, tc, st, l.n);
    }
  }

  /** As written, a function definition leaves its own return label in
      `function_return` however it ends: the field is not restored. */
  lemma FunctionLeavesOwnReturn(n: Command, tc: TypeOracle, st: GenState)
    requires n.FunctionDefinition? && Flat(n.body, true) && st.frames != []
    requires ArgumentCheck(n.arguments).Done?
    ensures LowerFunction(n, tc, st).state.functionReturn == Generated(st.labelCount)
    ensures st.labelCount < LowerFunction(n, tc, st).state.labelCount
  {
    LabelsFresh(n.body, true, tc, Entered(n, st), 0);
  }

  /** After a step from `st` that ends normally, the label `st` would hand
      out next is not defined at all, and the one after it is defined twice. */
  predicate ReturnMisplaced(st: GenState, r: Step) {
    r.outcome.Done? ==>
      && Definitions(r.state.code, st.labelCount) == Definitions(st.code, st.labelCount)
      && Definitions(r.state.code, st.labelCount + 1) == Definitions(st.code, st.labelCount + 1) + 2
  }

  /** Hence a definition directly inside another misplaces the outer return
      label: the outer function's end defines the inner label a second time
      and never defines its own, so a `return` of the outer function after
      the inner definition would jump to the inner function's exit. */
  lemma NestedDefinitionMisplacesReturn(n: Command, tc: TypeOracle, st: GenState)
    requires n.FunctionDefinition? && n.body.FunctionDefinition? && Flat(n.body.body, true) && st.frames != []
    requires ArgumentCheck(n.arguments).Done? && ArgumentCheck(n.body.arguments).Done?
    ensures ReturnMisplaced(st, LowerFunction(n, tc, st))
  {
    OuterBodyMisplaces(n, tc, st);
    assert LowerFunction(n, tc, st) == LowerFunctionBody(n, |st.code|, tc, Entered(n, st));
  }

  lemma OuterBodyMisplaces(n: Command, tc: TypeOracle, st: GenState)
    requires n.FunctionDefinition? && n.body.FunctionDefinition? && Flat(n.body.body, true) && st.frames != []
    requires ArgumentCheck(n.body.arguments).Done?
    ensures ReturnMisplaced(st, LowerFunctionBody(n, |st.code|, tc, Entered(n, st)))
  {
    var ret := st.labelCount;
    EnteredDefinesNothing(n, st);
    InnerDefinition(n.body, tc, Entered(n, st), ret);
    OuterEnd(n, |st.code|, tc, Entered(n, st), ret);
    NestedCounts(st, Entered(n, st), Lower(n.body, tc, Entered(n, st)), LowerFunctionBody(n, |st.code|, tc, Entered(n, st)), ret);
  }

  /** Entering a function defines neither of the next two generated labels. */
  predicate EntryKeeps(st: GenState, entered: GenState, ret: nat) {
    && Definitions(entered.code, ret) == Definitions(st.code, ret)
    && Definitions(entered.code, ret + 1) == Definitions(st.code, ret + 1)
  }

  /** The inner definition leaves its label `ret + 1` pending, defines it once
      and does not define `ret`. */
  predicate InnerLeaves(entered: GenState, body: Step, ret: nat) {
    && body.state.functionReturn == Generated(ret + 1)
    && (body.outcome.Done? ==>
          && Definitions(body.state.code, ret) == Definitions(entered.code, ret)
          && Definitions(body.state.code, ret + 1) == Definitions(entered.code, ret + 1) + 1)
  }

  /** The outer end defines the label the body left pending. */
  predicate EndDefines(body: Step, r: Step, m: nat) {
    r.outcome.Done? ==>
      && body.outcome.Done?
      && Definitions(r.state.code, m) == Definitions(body.state.code, m) + (if body.state.functionReturn == Generated(m) then 1 else 0)
  }

  /** The counts of the two return labels through entry, inner definition and
      outer end. */
  lemma NestedCounts(st: GenState, entered: GenState, body: Step, r: Step, ret: nat)
    requires ret == st.labelCount
    requires EntryKeeps(st, entered, ret) && InnerLeaves(entered, body, ret)
    requires EndDefines(body, r, ret) && EndDefines(body, r, ret + 1)
    ensures ReturnMisplaced(st, r)
  {
  }

  /** The entry label is a named one. */
  lemma EnteredDefinesNothing(n: Command, st: GenState)
    requires n.FunctionDefinition?
    ensures EntryKeeps(st, Entered(n, st), st.labelCount)
    ensures Entered(n, st).labelCount == st.labelCount + 1
  {
    DefinitionRuns(st.code, 0, Generated(0), EntryLabel(n.func).text, st.labelCount);
    DefinitionRuns(st.code, 0, Generated(0), EntryLabel(n.func).text, st.labelCount + 1);
  }

  /** The inner definition defines its own return label once, leaves it
      pending, and defines no label handed out before it. */
  lemma InnerDefinition(inner: Command, tc: TypeOracle, st: GenState, ret: nat)
    requires inner.FunctionDefinition? && Flat(inner.body, true) && st.frames != []
    requires ArgumentCheck(inner.arguments).Done? && st.labelCount == ret + 1
    ensures InnerLeaves(st, Lower(inner, tc, st), ret)
  {
    FunctionFresh(inner, tc, st, ret);
    FunctionFresh(inner, tc, st, ret + 1);
    FunctionLeavesOwnReturn(inner, tc, st);
    assert Lower(inner, tc, st) == LowerFunction(inner, tc, st);
  }

  lemma OuterEnd(n: Command, start: nat, tc: TypeOracle, st: GenState, ret: nat)
    requires n.FunctionDefinition? && |st.frames| >= 2 && start < |st.code|
    ensures EndDefines(Lower(n.body, tc, st), LowerFunctionBody(n, start, tc, st), ret)
    ensures EndDefines(Lower(n.body, tc, st), LowerFunctionBody(n, start, tc, st), ret + 1)
  {
    NestedEnd(n, start, tc, st, ret);
    NestedEnd(n, start, tc, st, ret + 1);
  }

  /** The end of the outer function defines whatever `function_return` the
      body left behind. */
  lemma NestedEnd(n: Command, start: nat, tc: TypeOracle, st: GenState, m: nat)
    requires n.FunctionDefinition? && |st.frames| >= 2 && start < |st.code|
    ensures EndDefines(Lower(n.body, tc, st), LowerFunctionBody(n, start, tc, st), m)
  {
    var body := Lower(n.body, tc, st);
    if body.outcome.Done? {
      var size := body.state.frames[0].stackSize;
      var code := body.state.code;
      var start' := start + 1;
      assert start' <= |code| by { assert st.code[..start + 1] <= code; }
      InsertionKeepsDefs(code, start', size, m);
      var withPrologue := code[..start'] + [Prologue(size)] + code[start'..];
      var rest := ReturnValue(n.func) + [FunctionExit(n.func, size)];
      assert withPrologue + FunctionEnd(n.func, body.state.functionReturn, size) ==
        withPrologue + [DefineLabel(body.state.functionReturn)] + rest;
      NoDefsAppend(withPrologue + [DefineLabel(body.state.functionReturn)], rest, m);
      DefinitionsAppend(withPrologue, [DefineLabel(body.state.functionReturn)], m);
      assert [DefineLabel(body.state.functionReturn)][..0] == [];
    }
  }
}

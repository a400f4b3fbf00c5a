/** Frame layout: the scalar locals a tree adds to the current activation
    record, in order; lowering touches no other frame, so a function
    definition leaves the frames as it found them, and its prologue and
    epilogue are sized by the total storage of the locals its body declares. */
module FrameLayout {
  import opened Types
  import opened Ast
  import opened Instructions
  import opened ActivationRecords
  import opened Lowering

  /** The scalar locals `add` records on the current frame while a tree is
      visited, in visiting order. An array declaration takes no space in a
      function frame, and a nested function's locals live in its own frame. */
  function Declared(n: Command): seq<Symbol>
    decreases n, 1
  {
    match n
    case ExpressionList(items) => DeclaredList(items, n)
    case DeclarationList(items) => DeclaredList(items, n)
    case StatementList(items) => DeclaredList(items, n)
    case VariableDeclaration(sym) => [sym]
    case Addition(l, r) => Declared(l) + Declared(r)
    case Subtraction(l, r) => Declared(l) + Declared(r)
    case Multiplication(l, r) => Declared(l) + Declared(r)
    case Division(l, r) => Declared(l) + Declared(r)
    case LogicalAnd(l, r) => Declared(l) + Declared(r)
    case LogicalOr(l, r) => Declared(l) + Declared(r)
    case LogicalNot(e) => Declared(e)
    case Comparison(_, l, r) => Declared(l) + Declared(r)
    case Dereference(e) => Declared(e)
    case Index(b, a) => Declared(b) + Declared(a)
    case Assignment(d, s) => Declared(d) + Declared(s)
    case Call(_, args) => DeclaredList(args, n)
    case IfElseBranch(c, t, e) => Declared(c) + (Declared(t) + Declared(e))
    case WhileLoop(c, b) => Declared(c) + Declared(b)
    case Return(e) => Declared(e)
    case _ => []
  }

  function DeclaredList(items: seq<Command>, ghost parent: Command): seq<Symbol>
    requires forall i :: 0 <= i < |items| ==> items[i] < parent
    decreases parent, 0, |items|
  {
    if items == [] then [] else DeclaredList(items[..|items| - 1], parent) + Declared(items[|items| - 1])
  }

  /** The frames after `syms` are added to the current one: a global frame
      records nothing, a function frame grows by each in turn. */
  function FramesAfter(frames: seq<FrameView>, syms: seq<Symbol>): seq<FrameView> {
    if frames == [] || frames[0].global then frames else [AddAll(frames[0], syms)] + frames[1..]
  }

  /** A step that ends normally has added exactly `syms` to the current frame
      and left every enclosing frame alone. */
  predicate Follows(st: GenState, r: Step, syms: seq<Symbol>) {
    r.outcome.Done? ==> r.state.frames == FramesAfter(st.frames, syms)
  }

  /** The frame size grows by the storage of what is added; nothing else of
      the frame's kind changes. */
  lemma {:induction false} AddAllSize(f: FrameView, syms: seq<Symbol>)
    ensures AddAll(f, syms).stackSize == f.stackSize + SumBytes(syms)
    ensures AddAll(f, syms).global == f.global && AddAll(f, syms).arguments == f.arguments
    decreases |syms|
  {
    if syms != [] {
      AddAllSize(AddScalar(f, syms[0]), syms[1..]);
    }
  }

  lemma AfterAppend(frames: seq<FrameView>, a: seq<Symbol>, b: seq<Symbol>)
    ensures FramesAfter(FramesAfter(frames, a), b) == FramesAfter(frames, a + b)
  {
    if frames != [] && !frames[0].global {
      AddAllSize(frames[0], a);
      AddAllAppend(frames[0], a, b);
    }
  }

  lemma AfterNothing(frames: seq<FrameView>)
    ensures FramesAfter(frames, []) == frames
  {
    if frames != [] && !frames[0].global {
      assert [frames[0]] + frames[1..] == frames;
    }
  }

  /** Two steps in sequence add their locals in sequence. */
  lemma Chained(s0: GenState, r1: Step, r2: Step, a: seq<Symbol>, b: seq<Symbol>)
    requires r1.outcome.Done? && Follows(s0, r1, a) && Follows(r1.state, r2, b)
    ensures Follows(s0, r2, a + b)
  {
    AfterAppend(s0.frames, a, b);
  }

  /** A step that only emits code or takes labels declares nothing. */
  lemma Unmoved(st: GenState, r: Step)
    requires r.state.frames == st.frames
    ensures Follows(st, r, [])
  {
    AfterNothing(st.frames);
  }

  lemma ThenFollows(st: GenState, r: Step, instrs: seq<Instr>, syms: seq<Symbol>)
    requires Follows(st, r, syms)
    ensures Follows(st, Then(r, instrs), syms)
  {
  }

  /** The locals every tree adds to the current frame. */
  lemma {:induction false} FramesTrack(n: Command, tc: TypeOracle, st: GenState)
    requires st.frames != []
    ensures Follows(st, Lower(n, tc, st), Declared(n))
    decreases n, 2
  {
    match n
    case ExpressionList(_) => ItemsFrames(n, tc, st);
    case DeclarationList(_) => ItemsFrames(n, tc, st);
    case StatementList(_) => ItemsFrames(n, tc, st);
    case AddressOf(_) => LeafFrames(n, tc, st);
    case LiteralBool(_) => LeafFrames(n, tc, st);
    case LiteralFloat(_) => LeafFrames(n, tc, st);
    case LiteralInt(_) => LeafFrames(n, tc, st);
    case VariableDeclaration(_) => DeclarationFrames(n, tc, st);
    case ArrayDeclaration(_) => LeafFrames(n, tc, st);
    case FunctionDefinition(_, _, _) => FunctionFrames(n, tc, st);
    case Addition(_, _) => ArithFrames(n, Add, tc, st);
    case Subtraction(_, _) => ArithFrames(n, Sub, tc, st);
    case Multiplication(_, _) => ArithFrames(n, Mul, tc, st);
    case Division(_, _) => ArithFrames(n, Div, tc, st);
    case LogicalAnd(_, _) => BinaryFrames(n, tc, st);
    case LogicalOr(_, _) => BinaryFrames(n, tc, st);
    case Comparison(_, _, _) => BinaryFrames(n, tc, st);
    case Assignment(_, _) => BinaryFrames(n, tc, st);
    case LogicalNot(_) => UnaryFrames(n, tc, st);
    case Dereference(_) => UnaryFrames(n, tc, st);
    case Return(_) => UnaryFrames(n, tc, st);
    case Index(_, _) => IndexFrames(n, tc, st);
    case Call(_, _) => CallFrames(n, tc, st);
    case IfElseBranch(_, _, _) => IfElseFrames(n, tc, st);
    case WhileLoop(_, _) => WhileFrames(n, tc, st);
    case Error(_) =>
  }

  /** Addresses, literals, arrays and the error sentinel declare nothing:
      they only emit code or record an error. */
  lemma LeafFrames(n: Command, tc: TypeOracle, st: GenState)
    requires n.AddressOf? || n.LiteralBool? || n.LiteralFloat? || n.LiteralInt? || n.ArrayDeclaration?
    requires st.frames != []
    ensures Follows(st, Lower(n, tc, st), Declared(n))
  {
    Unmoved(st, Lower(n, tc, st));
  }

  /** A scalar declaration adds itself to a function frame and reserves data
      space in the global one. */
  lemma DeclarationFrames(n: Command, tc: TypeOracle, st: GenState)
    requires n.VariableDeclaration? && st.frames != []
    ensures Follows(st, Lower(n, tc, st), Declared(n))
  {
    if !st.frames[0].global {
      assert AddAll(st.frames[0], [n.symbol]) == AddAll(AddScalar(st.frames[0], n.symbol), []);
    }
  }

  lemma {:induction false} ItemsFrames(n: Command, tc: TypeOracle, st: GenState)
    requires (n.ExpressionList? || n.DeclarationList? || n.StatementList?) && st.frames != []
    ensures Follows(st, Lower(n, tc, st), Declared(n))
    decreases n, 1
  {
    ListFrames(n.items, n, tc, st);
  }

  lemma {:induction false} ListFrames(items: seq<Command>, parent: Command, tc: TypeOracle, st: GenState)
    requires forall i :: 0 <= i < |items| ==> items[i] < parent
    requires st.frames != []
    ensures Follows(st, LowerList(items, parent, tc, st), DeclaredList(items, parent))
    decreases parent, 0, |items|
  {
    if items == [] {
      AfterNothing(st.frames);
    } else {
      var init := items[..|items| - 1];
      ListFrames(init, parent, tc, st);
      var r := LowerList(init, parent, tc, st);
      if r.outcome.Done? {
        FramesTrack(items[|items| - 1], tc, r.state);
        Chained(st, r, Lower(items[|items| - 1], tc, r.state), DeclaredList(init, parent), Declared(items[|items| - 1]));
      }
    }
  }

  lemma {:induction false} OperandsFrames(first: Command, second: Command, parent: Command, tc: TypeOracle, st: GenState)
    requires first < parent && second < parent && st.frames != []
    ensures Follows(st, LowerOperands(first, second, parent, tc, st), Declared(first) + Declared(second))
    decreases parent, 0
  {
    FramesTrack(first, tc, st);
    var r := Lower(first, tc, st);
    if r.outcome.Done? {
      FramesTrack(second, tc, r.state);
      Chained(st, r, Lower(second, tc, r.state), Declared(first), Declared(second));
    }
  }

  lemma {:induction false} ArithFrames(n: Command, op: ArithOp, tc: TypeOracle, st: GenState)
    requires
      || (n.Addition? && op == Add) || (n.Subtraction? && op == Sub)
      || (n.Multiplication? && op == Mul) || (n.Division? && op == Div)
    requires st.frames != []
    ensures Follows(st, Lower(n, tc, st), Declared(n))
    decreases n, 1
  {
    OperandsFrames(n.leftSide, n.rightSide, n, tc, st);
    ThenFollows(st, LowerOperands(n.leftSide, n.rightSide, n, tc, st), ArithTail(op, tc(n) == FloatType), Declared(n));
  }

  lemma {:induction false} BinaryFrames(n: Command, tc: TypeOracle, st: GenState)
    requires n.LogicalAnd? || n.LogicalOr? || n.Comparison? || n.Assignment?
    requires st.frames != []
    ensures Follows(st, Lower(n, tc, st), Declared(n))
    decreases n, 1
  {
    if n.Assignment? {
      OperandsFrames(n.destination, n.source, n, tc, st);
      ThenFollows(st, LowerOperands(n.destination, n.source, n, tc, st), AssignmentTail(tc(n) == FloatType), Declared(n));
    } else {
      OperandsFrames(n.leftSide, n.rightSide, n, tc, st);
      var ops := LowerOperands(n.leftSide, n.rightSide, n, tc, st);
      if n.LogicalAnd? {
        ThenFollows(st, ops, AndTail(tc(n) == BoolType), Declared(n));
      } else if n.LogicalOr? {
        ThenFollows(st, ops, OrTail(tc(n) == BoolType), Declared(n));
      } else {
        ThenFollows(st, ops, ComparisonTail(n.operation, tc(n) == FloatType), Declared(n));
      }
    }
  }

  lemma {:induction false} UnaryFrames(n: Command, tc: TypeOracle, st: GenState)
    requires n.LogicalNot? || n.Dereference? || n.Return?
    requires st.frames != []
    ensures Follows(st, Lower(n, tc, st), Declared(n))
    decreases n, 1
  {
    if n.Return? {
      FramesTrack(n.argument, tc, st);
      var r := Lower(n.argument, tc, st);
      ThenFollows(st, r, [Jump(r.state.functionReturn)], Declared(n));
    } else {
      FramesTrack(n.expression, tc, st);
      var r := Lower(n.expression, tc, st);
      if n.LogicalNot? {
        ThenFollows(st, r, NotTail(tc(n) == BoolType), Declared(n));
      } else {
        ThenFollows(st, r, DereferenceTail(tc(n) == IntType), Declared(n));
      }
    }
  }

  lemma {:induction false} IndexFrames(n: Command, tc: TypeOracle, st: GenState)
    requires n.Index? && st.frames != []
    ensures Follows(st, Lower(n, tc, st), Declared(n))
    decreases n, 1
  {
    OperandsFrames(n.base, n.amount, n, tc, st);
  }

  lemma {:induction false} CallFrames(n: Command, tc: TypeOracle, st: GenState)
    requires n.Call? && st.frames != []
    ensures Follows(st, Lower(n, tc, st), Declared(n))
    decreases n, 1
  {
    ListFrames(n.args, n, tc, st);
  }

  lemma {:induction false} IfElseFrames(n: Command, tc: TypeOracle, st: GenState)
    requires n.IfElseBranch? && st.frames != []
    ensures Follows(st, Lower(n, tc, st), Declared(n))
    decreases n, 1
  {
    FramesTrack(n.condition, tc, st);
    var cond := Lower(n.condition, tc, st);
    if cond.outcome.Done? {
      BranchesFrames(n, tc, cond.state);
      Chained(st, cond, LowerIfElseTest(n, tc, cond.state), Declared(n.condition), Declared(n.thenBlock) + Declared(n.elseBlock));
    }
  }

  /** The test only emits and takes labels; the branches add their locals in
      order. */
  lemma {:induction false} BranchesFrames(n: Command, tc: TypeOracle, st: GenState)
    requires n.IfElseBranch? && st.frames != []
    ensures Follows(st, LowerIfElseTest(n, tc, st), Declared(n.thenBlock) + Declared(n.elseBlock))
    decreases n, 0
  {
    var tested := Tested(n, tc, st);
    assert tested.frames == st.frames;
    FramesTrack(n.thenBlock, tc, tested);
    var thenPart := Lower(n.thenBlock, tc, tested);
    if thenPart.outcome.Done? {
      var between := Emit(thenPart.state, [Jump(Generated(st.labelCount + 1)), DefineLabel(Generated(st.labelCount))]);
      FramesTrack(n.elseBlock, tc, between);
      AfterAppend(st.frames, Declared(n.thenBlock), Declared(n.elseBlock));
    }
    assert LowerIfElseTest(n, tc, st) == LowerBranches(n, Generated(st.labelCount), Generated(st.labelCount + 1), tc, tested);
  }

  lemma {:induction false} WhileFrames(n: Command, tc: TypeOracle, st: GenState)
    requires n.WhileLoop? && st.frames != []
    ensures Follows(st, Lower(n, tc, st), Declared(n))
    decreases n, 1
  {
    assert LoopTop(st).frames == st.frames;
    FramesTrack(n.condition, tc, LoopTop(st));
    var cond := Lower(n.condition, tc, LoopTop(st));
    if cond.outcome.Done? {
      var tested := Emit(cond.state, BranchIfFalse(false, Generated(st.labelCount + 1)));
      FramesTrack(n.body, tc, tested);
      var r := LowerLoopBody(n, Generated(st.labelCount), Generated(st.labelCount + 1), tc, tested);
      Chained(st, Step(Done, tested), r, Declared(n.condition), Declared(n.body));
      assert LowerWhile(n, tc, st) == r;
    } else {
      assert LowerWhile(n, tc, st) == cond;
    }
  }

  /** A function definition leaves the frames as it found them: its own
      frame is pushed on entry and popped at the end. */
  lemma {:induction false} FunctionFrames(n: Command, tc: TypeOracle, st: GenState)
    requires n.FunctionDefinition? && st.frames != []
    ensures Follows(st, Lower(n, tc, st), Declared(n))
    decreases n, 1
  {
    AfterNothing(st.frames);
    if ArgumentCheck(n.arguments).Done? {
      FunctionLayout(n, tc, st);
    }
  }

  /** The layout of a function that ends normally: the frames are restored,
      and after the entry label come the prologue, the body, the return
      label, the result and the teardown, with the prologue and the epilogue
      both sized by the storage of the scalar locals the body declares. */
  lemma {:induction false} FunctionLayout(n: Command, tc: TypeOracle, st: GenState)
    requires n.FunctionDefinition? && st.frames != [] && ArgumentCheck(n.arguments).Done?
    ensures var r := LowerFunction(n, tc, st);
      var body := Lower(n.body, tc, Entered(n, st));
      var size := SumBytes(Declared(n.body));
      var start := |st.code| + 1;
      r.outcome.Done? ==>
        && r.state.frames == st.frames
        && st.code + [DefineLabel(EntryLabel(n.func))] <= body.state.code
        && r.state.code ==
             body.state.code[..start] + [Prologue(size)] + body.state.code[start..] +
             FunctionEnd(n.func, body.state.functionReturn, size)
    decreases n, 0
  {
    var entered := Entered(n, st);
    FramesTrack(n.body, tc, entered);
    AddAllSize(NewFrame(n.arguments), Declared(n.body));
    assert LowerFunction(n, tc, st) == LowerFunctionBody(n, |st.code|, tc, entered);
  }
}

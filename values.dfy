/** What the code of an expression computes. A symbolic machine runs the
    straight-line code one visit appends: registers and stack slots hold
    terms, so running the code of an expression from any machine state
    leaves exactly the term the expression denotes on top of the stack.
    This pins the operand order (the first pop is the right operand), the
    integer or float family each operation uses, the scaled address of an
    index, and what an assignment stores where. */
module ExpressionValues {
  import opened Types
  import opened Ast
  import opened Instructions
  import opened ActivationRecords
  import opened Lowering

  datatype Option<T> = None | Some(value: T)

  datatype BitOp = AndBits | OrBits | XorBits

  /** Symbolic words. `float` marks the single-precision operations. */
  datatype Term =
    | Initial(reg: Reg)                     // a register nothing has written
    | Const(v: int)
    | FloatConst(f: FloatValue)
    | LabelAddress(data: Label)
    | Offset(base: Term, displacement: int) // base + immediate
    | Arith(op: ArithOp, float: bool, left: Term, right: Term)
    | Relation(cmp: Operation, float: bool, left: Term, right: Term)
    | Bitwise(bits: BitOp, left: Term, right: Term)
    | Shifted(operand: Term, shift: nat)    // arithmetic shift of a non-constant
    | Load(address: Term, float: bool)      // the word in memory at an address

  datatype Store = Store(address: Term, value: Term, float: bool)

  /** The evaluation stack (top last), the registers written so far, the
      stores made, the floating-point condition flag, and the frame pointer,
      which expression code reads but never sets. */
  datatype Machine = Machine(stack: seq<Term>, regs: map<Reg, Term>, stores: seq<Store>, flag: Term, fp: Term)

  function Pow2(s: nat): (p: nat)
    ensures p > 0
  {
    if s == 0 then 1 else 2 * Pow2(s - 1)
  }

  /** A 32-bit word read as a two's-complement number. */
  function Signed32(x: int): (r: int)
    ensures -0x8000_0000 <= r < 0x8000_0000
    ensures (r - x) % 0x1_0000_0000 == 0
  {
    var w := x % 0x1_0000_0000;
    if w >= 0x8000_0000 then w - 0x1_0000_0000 else w
  }

  /** `$zero` always reads 0. */
  function Read(m: Machine, r: Reg): Term {
    if r == Zero then Const(0) else if r == FP then m.fp else if r in m.regs then m.regs[r] else Initial(r)
  }

  /** The registers expression code may set: not `$zero`, and not the stack
      or frame pointer, which belong to the frame management. */
  predicate Scratch(r: Reg) {
    r != Zero && r != SP && r != FP
  }

  /** The instructions that compute a register from registers. */
  predicate Computing(i: Instr) {
    || i.AddImm? || i.LoadAddress? || i.IntArith? || i.FloatArith? || i.And? || i.Or? || i.Xor?
    || i.LoadUpper? || i.ShiftRightArith? || i.SetCompare? || i.LoadWord? || i.LoadWordFloat?
  }

  /** The term such an instruction writes to its destination. */
  function Computed(i: Instr, m: Machine): Term
    requires Computing(i)
  {
    if i.AddImm? then (if i.rs == Zero then Const(i.imm) else Offset(Read(m, i.rs), i.imm))
    else if i.LoadAddress? then LabelAddress(i.target)
    else if i.IntArith? then Arith(i.op, false, Read(m, i.rs), Read(m, i.rt))
    else if i.FloatArith? then Arith(i.op, true, Read(m, i.rs), Read(m, i.rt))
    else if i.And? then Bitwise(AndBits, Read(m, i.rs), Read(m, i.rt))
    else if i.Or? then Bitwise(OrBits, Read(m, i.rs), Read(m, i.rt))
    else if i.Xor? then Bitwise(XorBits, Read(m, i.rs), Read(m, i.rt))
    else if i.LoadUpper? then Const(Signed32(i.imm * 0x1_0000))
    else if i.ShiftRightArith? then
      var v := Read(m, i.rs);
      if v.Const? then Const(v.v / Pow2(i.shift)) else Shifted(v, i.shift)
    else if i.SetCompare? then Relation(i.cmp, false, Read(m, i.rs), Read(m, i.rt))
    else Load(Read(m, i.base), i.LoadWordFloat?)
  }

  /** One instruction of straight-line expression code. Anything else stops
      the machine: labels, jumps, branches, calls, and every write to the
      stack or frame pointer. */
  function Exec(i: Instr, m: Machine): Option<Machine> {
    if i.PushInt? || i.PushFloat? then Some(m.(stack := m.stack + [Read(m, i.reg)]))
    else if i.PopInt? || i.PopFloat? then
      if m.stack == [] || !Scratch(i.reg) then None
      else Some(m.(stack := m.stack[..|m.stack| - 1], regs := m.regs[i.reg := m.stack[|m.stack| - 1]]))
    else if i.LoadFloatImm? then
      if !Scratch(i.fd) then None else Some(m.(regs := m.regs[i.fd := FloatConst(i.value)]))
    else if Computing(i) then
      if !Scratch(i.rd) then None else Some(m.(regs := m.regs[i.rd := Computed(i, m)]))
    else if i.FloatCompare? then Some(m.(flag := Relation(i.cmp, true, Read(m, i.rs), Read(m, i.rt))))
    else if i.StoreWord? || i.StoreWordFloat? then
      Some(m.(stores := m.stores + [Store(Read(m, i.base), Read(m, i.rs), i.StoreWordFloat?)]))
    else None
  }

  function Run(code: seq<Instr>, m: Machine): Option<Machine>
    decreases |code|
  {
    if code == [] then Some(m)
    else
      var next := Exec(code[0], m);
      if next.None? then None else Run(code[1..], next.value)
  }

  /** One more instruction after a run. */
  function After(res: Option<Machine>, i: Instr): Option<Machine> {
    if res.None? then None else Exec(i, res.value)
  }

  lemma Run1(a: Instr, m: Machine)
    ensures Run([a], m) == After(Some(m), a)
  {
    assert [a][1..] == [];
  }

  lemma Run2(a: Instr, b: Instr, m: Machine)
    ensures Run([a, b], m) == After(After(Some(m), a), b)
  {
    assert [a, b][1..] == [b];
    if Exec(a, m).Some? {
      Run1(b, Exec(a, m).value);
    }
  }

  lemma Run3(a: Instr, b: Instr, c: Instr, m: Machine)
    ensures Run([a, b, c], m) == After(After(After(Some(m), a), b), c)
  {
    assert [a, b, c][1..] == [b, c];
    if Exec(a, m).Some? {
      Run2(b, c, Exec(a, m).value);
    }
  }

  lemma Run4(a: Instr, b: Instr, c: Instr, d: Instr, m: Machine)
    ensures Run([a, b, c, d], m) == After(After(After(After(Some(m), a), b), c), d)
  {
    assert [a, b, c, d][1..] == [b, c, d];
    if Exec(a, m).Some? {
      Run3(b, c, d, Exec(a, m).value);
    }
  }

  lemma Run5(a: Instr, b: Instr, c: Instr, d: Instr, e: Instr, m: Machine)
    ensures Run([a, b, c, d, e], m) == After(After(After(After(After(Some(m), a), b), c), d), e)
  {
    assert [a, b, c, d, e][1..] == [b, c, d, e];
    if Exec(a, m).Some? {
      Run4(b, c, d, e, Exec(a, m).value);
    }
  }

  /** Popping from `rest + [x]` leaves `rest`. */
  lemma Popped(rest: seq<Term>, x: Term)
    ensures (rest + [x])[..|rest|] == rest && (rest + [x])[|rest|] == x
  {
  }

  lemma {:induction false} RunAppend(a: seq<Instr>, b: seq<Instr>, m: Machine)
    ensures Run(a + b, m) == if Run(a, m).None? then None else Run(b, Run(a, m).value)
    decreases |a|
  {
    if a == [] {
      assert a + b == b;
    } else {
      assert (a + b)[0] == a[0] && (a + b)[1..] == a[1..] + b;
      var next := Exec(a[0], m);
      if next.Some? {
        RunAppend(a[1..], b, next.value);
      }
    }
  }

  /** The run ends with this stack and these stores, and with the condition
      flag and the frame pointer as they were. */
  predicate Ends(res: Option<Machine>, m: Machine, stack: seq<Term>, stores: seq<Store>) {
    && res.Some? && res.value.stack == stack && res.value.stores == stores
    && res.value.flag == m.flag && res.value.fp == m.fp
  }

  /** Running `a` then `b` ends where `b` ends. */
  lemma Compose(a: seq<Instr>, b: seq<Instr>, m: Machine, stack: seq<Term>, stores: seq<Store>)
    requires Run(a, m).Some? && Ends(Run(a, m), m, Run(a, m).value.stack, Run(a, m).value.stores)
    requires Ends(Run(b, Run(a, m).value), Run(a, m).value, stack, stores)
    ensures Ends(Run(a + b, m), m, stack, stores)
  {
    RunAppend(a, b, m);
  }

  /** A function frame is below the global frame at the end of the chain. */
  predicate GlobalLast(frames: seq<FrameView>) {
    frames != [] && frames[|frames| - 1].global
  }

  /** Where a symbol lives, as the innermost frame holding it places it:
      a data label in the global frame, otherwise an offset from the frame
      pointer `fp` (below it for locals, above it for arguments). */
  function Location(chain: seq<FrameView>, sym: Symbol, fp: Term): Term
    requires GlobalLast(chain)
    decreases |chain|
  {
    var f := chain[0];
    if f.global then LabelAddress(MangleDataname(sym.name))
    else if sym in f.locals then Offset(fp, -(f.locals[sym] + FixedFrameSize))
    else if sym in f.arguments then Offset(fp, f.arguments[sym])
    else
      assert chain[1..][|chain| - 2] == chain[|chain| - 1];
      Location(chain[1..], sym, fp)
  }

  /** The expressions whose code is straight-line and pushes one value:
      literals, addresses, arithmetic, integer comparisons, the logical
      operators on boolean nodes, loads, and indexing into sized elements. */
  predicate Evaluable(n: Command, tc: TypeOracle) {
    match n
    case LiteralBool(_) => true
    case LiteralFloat(_) => true
    case LiteralInt(_) => true
    case AddressOf(_) => true
    case Addition(l, r) => Evaluable(l, tc) && Evaluable(r, tc)
    case Subtraction(l, r) => Evaluable(l, tc) && Evaluable(r, tc)
    case Multiplication(l, r) => Evaluable(l, tc) && Evaluable(r, tc)
    case Division(l, r) => Evaluable(l, tc) && Evaluable(r, tc)
    case Comparison(_, l, r) => tc(n) != FloatType && Evaluable(l, tc) && Evaluable(r, tc)
    case LogicalAnd(l, r) => tc(n) == BoolType && Evaluable(l, tc) && Evaluable(r, tc)
    case LogicalOr(l, r) => tc(n) == BoolType && Evaluable(l, tc) && Evaluable(r, tc)
    case LogicalNot(e) => tc(n) == BoolType && Evaluable(e, tc)
    case Dereference(e) => Evaluable(e, tc)
    case Index(b, a) => Storable(ElementType(tc(n))) && Evaluable(b, tc) && Evaluable(a, tc)
    case _ => false
  }

  /** The value an expression denotes. A bool literal is its ordinal; the
      float family is chosen by the node's type; differences, quotients and
      comparisons take the left operand first, while sums, products and the
      bitwise and/or are formed right operand first, which denotes the same
      value; `not` is an exclusive or with all ones; an index is the base
      plus the amount scaled by the element size. */
  function Value(n: Command, tc: TypeOracle, frames: seq<FrameView>, fp: Term): Term
    requires Evaluable(n, tc) && GlobalLast(frames)
  {
    match n
    case LiteralBool(o) => Const(o)
    case LiteralFloat(f) => FloatConst(f)
    case LiteralInt(v) => Const(v)
    case AddressOf(sym) => Location(frames, sym, fp)
    case Addition(l, r) => Arith(Add, tc(n) == FloatType, Value(r, tc, frames, fp), Value(l, tc, frames, fp))
    case Subtraction(l, r) => Arith(Sub, tc(n) == FloatType, Value(l, tc, frames, fp), Value(r, tc, frames, fp))
    case Multiplication(l, r) => Arith(Mul, tc(n) == FloatType, Value(r, tc, frames, fp), Value(l, tc, frames, fp))
    case Division(l, r) => Arith(Div, tc(n) == FloatType, Value(l, tc, frames, fp), Value(r, tc, frames, fp))
    case Comparison(cmp, l, r) => Relation(cmp, false, Value(l, tc, frames, fp), Value(r, tc, frames, fp))
    case LogicalAnd(l, r) => Bitwise(AndBits, Value(r, tc, frames, fp), Value(l, tc, frames, fp))
    case LogicalOr(l, r) => Bitwise(OrBits, Value(r, tc, frames, fp), Value(l, tc, frames, fp))
    case LogicalNot(e) => Bitwise(XorBits, Const(-1), Value(e, tc, frames, fp))
    case Dereference(e) => Load(Value(e, tc, frames, fp), tc(n) != IntType)
    case Index(b, a) =>
      Arith(Add, false, Arith(Mul, false, Value(a, tc, frames, fp), Const(NumBytes(ElementType(tc(n))))), Value(b, tc, frames, fp))
  }

  /** A step that ends normally, keeps the frames, and whose appended code
      runs from `m` to this stack and these stores. */
  predicate Computes(st: GenState, r: Step, m: Machine, stack: seq<Term>, stores: seq<Store>) {
    && r.outcome.Done? && r.state.frames == st.frames && st.code <= r.state.code
    && Ends(Run(r.state.code[|st.code|..], m), m, stack, stores)
  }

  /** What a run of straight-line code leaves when emitted in one step. */
  lemma Emitted(st: GenState, instrs: seq<Instr>, m: Machine, stack: seq<Term>)
    requires Ends(Run(instrs, m), m, stack, m.stores)
    ensures Computes(st, Step(Done, Emit(st, instrs)), m, stack, m.stores)
  {
    assert (st.code + instrs)[|st.code|..] == instrs;
  }

  /** Continuing a computing step with straight-line code. */
  lemma Continued(st: GenState, r: Step, instrs: seq<Instr>, m: Machine, x: seq<Term>, stack: seq<Term>, stores: seq<Store>)
    requires Computes(st, r, m, x, m.stores)
    requires Ends(Run(instrs, Run(r.state.code[|st.code|..], m).value), Run(r.state.code[|st.code|..], m).value, stack, stores)
    ensures Computes(st, Then(r, instrs), m, stack, stores)
  {
    var a := r.state.code[|st.code|..];
    assert (r.state.code + instrs)[|st.code|..] == a + instrs;
    Compose(a, instrs, m, stack, stores);
  }

  /** Every value expression's code leaves its value on top of the stack,
      whatever the machine held before, and stores nothing. */
  lemma {:induction false} ValueOf(n: Command, tc: TypeOracle, st: GenState, m: Machine)
    requires Evaluable(n, tc) && GlobalLast(st.frames)
    ensures Computes(st, Lower(n, tc, st), m, m.stack + [Value(n, tc, st.frames, m.fp)], m.stores)
    decreases n, 2
  {
    match n
    case LiteralBool(_) => LiteralValue(n, tc, st, m);
    case LiteralFloat(_) => LiteralValue(n, tc, st, m);
    case LiteralInt(_) => LiteralValue(n, tc, st, m);
    case AddressOf(sym) =>
      AddressValue(st.frames, sym, m);
      Emitted(st, ResolveIn(st.frames, T0, sym) + [PushInt(T0)], m, m.stack + [Location(st.frames, sym, m.fp)]);
    case Addition(_, _) => ArithValue(n, Add, tc, st, m);
    case Subtraction(_, _) => ArithValue(n, Sub, tc, st, m);
    case Multiplication(_, _) => ArithValue(n, Mul, tc, st, m);
    case Division(_, _) => ArithValue(n, Div, tc, st, m);
    case Comparison(_, _, _) => LogicValue(n, tc, st, m);
    case LogicalAnd(_, _) => LogicValue(n, tc, st, m);
    case LogicalOr(_, _) => LogicValue(n, tc, st, m);
    case LogicalNot(_) => UnaryValue(n, tc, st, m);
    case Dereference(_) => UnaryValue(n, tc, st, m);
    case Index(_, _) => IndexValue(n, tc, st, m);
  }

  /** A literal is one load into a scratch register and one push: the
      integer path for ints and bools (by ordinal), the float path for floats. */
  lemma LiteralValue(n: Command, tc: TypeOracle, st: GenState, m: Machine)
    requires (n.LiteralBool? || n.LiteralFloat? || n.LiteralInt?) && GlobalLast(st.frames)
    ensures Computes(st, Lower(n, tc, st), m, m.stack + [Value(n, tc, st.frames, m.fp)], m.stores)
  {
    var t := Value(n, tc, st.frames, m.fp);
    if n.LiteralFloat? {
      Run2(LoadFloatImm(F0, n.floatValue), PushFloat(F0), m);
      Emitted(st, [LoadFloatImm(F0, n.floatValue), PushFloat(F0)], m, m.stack + [t]);
    } else {
      var v := if n.LiteralBool? then n.ordinal else n.intValue;
      Run2(AddImm(T0, Zero, v), PushInt(T0), m);
      Emitted(st, [AddImm(T0, Zero, v), PushInt(T0)], m, m.stack + [t]);
    }
  }

  /** The address instruction of the innermost frame holding the symbol,
      then its push. */
  lemma {:induction false} AddressValue(chain: seq<FrameView>, sym: Symbol, m: Machine)
    requires GlobalLast(chain)
    ensures Ends(Run(ResolveIn(chain, T0, sym) + [PushInt(T0)], m), m, m.stack + [Location(chain, sym, m.fp)], m.stores)
    decreases |chain|
  {
    if Holds(chain[0], sym) {
      Run2(FrameAddress(chain[0], T0, sym), PushInt(T0), m);
    } else {
      assert chain[1..][|chain| - 2] == chain[|chain| - 1];
      AddressValue(chain[1..], sym, m);
    }
  }

  /** Two operands, left then right, leave their values in that order. */
  lemma {:induction false} OperandsValue(first: Command, second: Command, parent: Command, tc: TypeOracle, st: GenState, m: Machine)
    requires first < parent && second < parent
    requires Evaluable(first, tc) && Evaluable(second, tc) && GlobalLast(st.frames)
    ensures Computes(st, LowerOperands(first, second, parent, tc, st), m,
      m.stack + [Value(first, tc, st.frames, m.fp), Value(second, tc, st.frames, m.fp)], m.stores)
    decreases parent, 0
  {
    ValueOf(first, tc, st, m);
    var r1 := Lower(first, tc, st);
    var x := Run(r1.state.code[|st.code|..], m).value;
    ValueOf(second, tc, r1.state, x);
    Sequenced(st, r1, Lower(second, tc, r1.state), m, x.stack, x.stack + [Value(second, tc, st.frames, m.fp)], m.stores);
  }

  /** A computing step after another computes from where the first ended. */
  lemma Sequenced(st: GenState, r1: Step, r2: Step, m: Machine, x: seq<Term>, stack: seq<Term>, stores: seq<Store>)
    requires Computes(st, r1, m, x, m.stores)
    requires Computes(r1.state, r2, Run(r1.state.code[|st.code|..], m).value, stack, stores)
    ensures Computes(st, r2, m, stack, stores)
  {
    var a1 := r1.state.code[|st.code|..];
    var a2 := r2.state.code[|r1.state.code|..];
    SliceSplit(st.code, r1.state.code, r2.state.code);
    Compose(a1, a2, m, stack, stores);
  }

  lemma SliceSplit(c0: seq<Instr>, c1: seq<Instr>, c2: seq<Instr>)
    requires c0 <= c1 && c1 <= c2
    ensures c0 <= c2 && c2[|c0|..] == c1[|c0|..] + c2[|c1|..]
  {
    assert c1 == c2[..|c1|];
  }

  lemma PopStep(i: Instr, m: Machine, rest: seq<Term>, x: Term)
    requires (i.PopInt? || i.PopFloat?) && Scratch(i.reg) && m.stack == rest + [x]
    ensures Exec(i, m) == Some(m.(stack := rest, regs := m.regs[i.reg := x]))
  {
    Popped(rest, x);
  }

  lemma ComputeStep(i: Instr, m: Machine)
    requires Computing(i) && Scratch(i.rd)
    ensures Exec(i, m) == Some(m.(regs := m.regs[i.rd := Computed(i, m)]))
  {
  }

  lemma PushStep(i: Instr, m: Machine)
    requires i.PushInt? || i.PushFloat?
    ensures Exec(i, m) == Some(m.(stack := m.stack + [Read(m, i.reg)]))
  {
  }

  function PopOf(float: bool, r: Reg): Instr {
    if float then PopFloat(r) else PopInt(r)
  }

  function PushOf(float: bool, r: Reg): Instr {
    if float then PushFloat(r) else PushInt(r)
  }

  /** Pop into `a` then `b`, compute `c` from them, push `c`. */
  lemma BinaryTail(i: Instr, a: Reg, b: Reg, c: Reg, float: bool, y: Machine, rest: seq<Term>, left: Term, right: Term)
    requires Computing(i) && i.rd == c && Scratch(a) && Scratch(b) && Scratch(c) && a != b
    requires y.stack == rest + [left, right]
    ensures var m2 := y.(stack := rest, regs := y.regs[a := right][b := left]);
      Ends(Run([PopOf(float, a), PopOf(float, b), i, PushOf(float, c)], y), y, rest + [Computed(i, m2)], y.stores)
  {
    var m1 := y.(stack := rest + [left], regs := y.regs[a := right]);
    PopStep(PopOf(float, a), y, rest + [left], right);
    var m2 := m1.(stack := rest, regs := m1.regs[b := left]);
    PopStep(PopOf(float, b), m1, rest, left);
    var m3 := m2.(regs := m2.regs[c := Computed(i, m2)]);
    assert Exec(i, m2) == Some(m3);
    PushStep(PushOf(float, c), m3);
    Run4(PopOf(float, a), PopOf(float, b), i, PushOf(float, c), y);
  }

  /** The first pop is the right operand: sums and products are formed right
      operand first, differences and quotients left minus right, left over
      right; the float family on float registers for a float node. */
  lemma ArithTailValue(op: ArithOp, float: bool, y: Machine, rest: seq<Term>, left: Term, right: Term)
    requires y.stack == rest + [left, right]
    ensures Ends(Run(ArithTail(op, float), y), y, rest +
      [if op == Sub || op == Div then Arith(op, float, left, right) else Arith(op, float, right, left)], y.stores)
  {
    var reversed := op == Sub || op == Div;
    if float {
      var i := if reversed then FloatArith(op, F4, F2, F0) else FloatArith(op, F4, F0, F2);
      BinaryTail(i, F0, F2, F4, true, y, rest, left, right);
    } else {
      var i := if reversed then IntArith(op, T2, T1, T0) else IntArith(op, T2, T0, T1);
      BinaryTail(i, T0, T1, T2, false, y, rest, left, right);
    }
  }

  lemma {:induction false} ArithValue(n: Command, op: ArithOp, tc: TypeOracle, st: GenState, m: Machine)
    requires
      || (n.Addition? && op == Add) || (n.Subtraction? && op == Sub)
      || (n.Multiplication? && op == Mul) || (n.Division? && op == Div)
    requires Evaluable(n, tc) && GlobalLast(st.frames)
    ensures Computes(st, Lower(n, tc, st), m, m.stack + [Value(n, tc, st.frames, m.fp)], m.stores)
    decreases n, 1
  {
    var fp := m.fp;
    var l := Value(n.leftSide, tc, st.frames, fp);
    var r := Value(n.rightSide, tc, st.frames, fp);
    OperandsValue(n.leftSide, n.rightSide, n, tc, st, m);
    var ops := LowerOperands(n.leftSide, n.rightSide, n, tc, st);
    var y := Run(ops.state.code[|st.code|..], m).value;
    ArithTailValue(op, tc(n) == FloatType, y, m.stack, l, r);
    Continued(st, ops, ArithTail(op, tc(n) == FloatType), m, m.stack + [l, r], m.stack + [Value(n, tc, st.frames, fp)], m.stores);
    assert Lower(n, tc, st) == Then(ops, ArithTail(op, tc(n) == FloatType));
  }

  /** An integer comparison of left with right, pushed as a word. */
  lemma ComparisonTailValue(cmp: Operation, y: Machine, rest: seq<Term>, left: Term, right: Term)
    requires y.stack == rest + [left, right]
    ensures Ends(Run(ComparisonTail(cmp, false), y), y, rest + [Relation(cmp, false, left, right)], y.stores)
  {
    BinaryTail(SetCompare(cmp, T2, T1, T0), T0, T1, T2, false, y, rest, left, right);
  }

  lemma AndTailValue(y: Machine, rest: seq<Term>, left: Term, right: Term)
    requires y.stack == rest + [left, right]
    ensures Ends(Run(AndTail(true), y), y, rest + [Bitwise(AndBits, right, left)], y.stores)
  {
    BinaryTail(And(T2, T0, T1), T0, T1, T2, false, y, rest, left, right);
  }

  /** The or moves its operands with the float pops and push; on the
      symbolic stack that is the same word. */
  lemma OrTailValue(y: Machine, rest: seq<Term>, left: Term, right: Term)
    requires y.stack == rest + [left, right]
    ensures Ends(Run(OrTail(true), y), y, rest + [Bitwise(OrBits, right, left)], y.stores)
  {
    BinaryTail(Or(T2, T0, T1), T0, T1, T2, true, y, rest, left, right);
  }

  lemma {:induction false} LogicValue(n: Command, tc: TypeOracle, st: GenState, m: Machine)
    requires n.Comparison? || n.LogicalAnd? || n.LogicalOr?
    requires Evaluable(n, tc) && GlobalLast(st.frames)
    ensures Computes(st, Lower(n, tc, st), m, m.stack + [Value(n, tc, st.frames, m.fp)], m.stores)
    decreases n, 1
  {
    var fp := m.fp;
    var l := Value(n.leftSide, tc, st.frames, fp);
    var r := Value(n.rightSide, tc, st.frames, fp);
    OperandsValue(n.leftSide, n.rightSide, n, tc, st, m);
    var ops := LowerOperands(n.leftSide, n.rightSide, n, tc, st);
    var y := Run(ops.state.code[|st.code|..], m).value;
    var tail := if n.Comparison? then ComparisonTail(n.operation, false) else if n.LogicalAnd? then AndTail(true) else OrTail(true);
    if n.Comparison? {
      ComparisonTailValue(n.operation, y, m.stack, l, r);
    } else if n.LogicalAnd? {
      AndTailValue(y, m.stack, l, r);
    } else {
      OrTailValue(y, m.stack, l, r);
    }
    Continued(st, ops, tail, m, m.stack + [l, r], m.stack + [Value(n, tc, st.frames, fp)], m.stores);
    assert Lower(n, tc, st) == Then(ops, tail);
  }

  /** All ones is built by `lui` and an arithmetic shift. */
  lemma AllOnes()
    ensures Signed32(0xFFFF * 0x1_0000) == -0x1_0000
    ensures -0x1_0000 / Pow2(16) == -1
  {
    assert Pow2(4) == 16;
    assert Pow2(8) == 256;
    assert Pow2(12) == 4096;
    assert Pow2(16) == 0x1_0000;
  }

  lemma UpperStep(m: Machine, imm: int)
    ensures Exec(LoadUpper(T1, imm), m) == Some(m.(regs := m.regs[T1 := Const(Signed32(imm * 0x1_0000))]))
  {
  }

  /** An arithmetic shift of a known word. */
  lemma ShiftStep(m: Machine, v: int, shift: nat)
    requires Read(m, T1) == Const(v)
    ensures Exec(ShiftRightArith(T1, T1, shift), m) == Some(m.(regs := m.regs[T1 := Const(v / Pow2(shift))]))
  {
  }

  /** `lui` and `sra` leave all ones in `$t1`. */
  lemma MaskSteps(m1: Machine)
    ensures After(After(Some(m1), LoadUpper(T1, 0xFFFF)), ShiftRightArith(T1, T1, 16))
      == Some(m1.(regs := m1.regs[T1 := Const(-0x1_0000)][T1 := Const(-1)]))
  {
    var upper := Signed32(0xFFFF * 0x1_0000);
    var m2 := m1.(regs := m1.regs[T1 := Const(upper)]);
    UpperStep(m1, 0xFFFF);
    ShiftStep(m2, upper, 16);
    AllOnes();
  }

  /** `not` is the exclusive or of its operand with all ones. */
  lemma NotTailValue(y: Machine, rest: seq<Term>, e: Term)
    requires y.stack == rest + [e]
    ensures Ends(Run(NotTail(true), y), y, rest + [Bitwise(XorBits, Const(-1), e)], y.stores)
  {
    var m1 := y.(stack := rest, regs := y.regs[T0 := e]);
    PopStep(PopInt(T0), y, rest, e);
    MaskSteps(m1);
    var m3 := m1.(regs := m1.regs[T1 := Const(-0x1_0000)][T1 := Const(-1)]);
    assert Read(m3, T1) == Const(-1) && Read(m3, T0) == e;
    var m4 := m3.(regs := m3.regs[T2 := Bitwise(XorBits, Const(-1), e)]);
    ComputeStep(Xor(T2, T1, T0), m3);
    PushStep(PushInt(T2), m4);
    Run5(PopInt(T0), LoadUpper(T1, 0xFFFF), ShiftRightArith(T1, T1, 16), Xor(T2, T1, T0), PushInt(T2), y);
  }

  /** A load from the popped address, as a word for an integer node and as
      a float otherwise. */
  lemma DereferenceTailValue(integer: bool, y: Machine, rest: seq<Term>, e: Term)
    requires y.stack == rest + [e]
    ensures Ends(Run(DereferenceTail(integer), y), y, rest + [Load(e, !integer)], y.stores)
  {
    var r := if integer then T1 else F0;
    var i := if integer then LoadWord(T1, T0) else LoadWordFloat(F0, T0);
    var m1 := y.(stack := rest, regs := y.regs[T0 := e]);
    PopStep(PopInt(T0), y, rest, e);
    var m2 := m1.(regs := m1.regs[r := Load(e, !integer)]);
    assert Exec(i, m1) == Some(m2);
    PushStep(PushOf(!integer, r), m2);
    Run3(PopInt(T0), i, PushOf(!integer, r), y);
    assert DereferenceTail(integer) == [PopInt(T0), i, PushOf(!integer, r)];
  }

  lemma {:induction false} UnaryValue(n: Command, tc: TypeOracle, st: GenState, m: Machine)
    requires n.LogicalNot? || n.Dereference?
    requires Evaluable(n, tc) && GlobalLast(st.frames)
    ensures Computes(st, Lower(n, tc, st), m, m.stack + [Value(n, tc, st.frames, m.fp)], m.stores)
    decreases n, 1
  {
    var fp := m.fp;
    ValueOf(n.expression, tc, st, m);
    var e := Value(n.expression, tc, st.frames, fp);
    var r := Lower(n.expression, tc, st);
    var y := Run(r.state.code[|st.code|..], m).value;
    var tail := if n.LogicalNot? then NotTail(true) else DereferenceTail(tc(n) == IntType);
    if n.LogicalNot? {
      NotTailValue(y, m.stack, e);
    } else {
      DereferenceTailValue(tc(n) == IntType, y, m.stack, e);
    }
    Continued(st, r, tail, m, m.stack + [e], m.stack + [Value(n, tc, st.frames, fp)], m.stores);
    assert Lower(n, tc, st) == Then(r, tail);
  }

  /** The amount is popped first, scaled by the element size, and added to
      the base. */
  lemma IndexTailValue(bytes: nat, y: Machine, rest: seq<Term>, base: Term, amount: Term)
    requires y.stack == rest + [base, amount]
    ensures Ends(Run([PopInt(T0), PopInt(T1)] + IndexTail(bytes), y), y,
      rest + [Arith(Add, false, Arith(Mul, false, amount, Const(bytes)), base)], y.stores)
  {
    var m1 := y.(stack := rest + [base], regs := y.regs[T0 := amount]);
    PopStep(PopInt(T0), y, rest + [base], amount);
    var m2 := m1.(stack := rest, regs := m1.regs[T1 := base]);
    PopStep(PopInt(T1), m1, rest, base);
    Run2(PopInt(T0), PopInt(T1), y);
    assert Read(m2, T0) == amount && Read(m2, T1) == base;
    IndexScale(bytes, m2, base, amount);
    Compose([PopInt(T0), PopInt(T1)], IndexTail(bytes), y, rest + [Arith(Add, false, Arith(Mul, false, amount, Const(bytes)), base)], y.stores);
  }

  /** With the index in `$t0` and the base in `$t1`, the element address. */
  lemma IndexScale(bytes: nat, m2: Machine, base: Term, amount: Term)
    requires Read(m2, T0) == amount && Read(m2, T1) == base
    ensures Ends(Run(IndexTail(bytes), m2), m2,
      m2.stack + [Arith(Add, false, Arith(Mul, false, amount, Const(bytes)), base)], m2.stores)
  {
    var scaled := Arith(Mul, false, amount, Const(bytes));
    var m3 := m2.(regs := m2.regs[T2 := Const(bytes)]);
    ComputeStep(AddImm(T2, Zero, bytes), m2);
    var m4 := m3.(regs := m3.regs[T0 := scaled]);
    assert Read(m3, T0) == amount && Read(m3, T2) == Const(bytes);
    ComputeStep(IntArith(Mul, T0, T0, T2), m3);
    var m5 := m4.(regs := m4.regs[T0 := Arith(Add, false, scaled, base)]);
    assert Read(m4, T0) == scaled && Read(m4, T1) == base;
    ComputeStep(IntArith(Add, T0, T0, T1), m4);
    PushStep(PushInt(T0), m5);
    Run4(AddImm(T2, Zero, bytes), IntArith(Mul, T0, T0, T2), IntArith(Add, T0, T0, T1), PushInt(T0), m2);
  }

  lemma {:induction false} IndexValue(n: Command, tc: TypeOracle, st: GenState, m: Machine)
    requires n.Index? && Evaluable(n, tc) && GlobalLast(st.frames)
    ensures Computes(st, Lower(n, tc, st), m, m.stack + [Value(n, tc, st.frames, m.fp)], m.stores)
    decreases n, 1
  {
    var fp := m.fp;
    var b := Value(n.base, tc, st.frames, fp);
    var a := Value(n.amount, tc, st.frames, fp);
    OperandsValue(n.base, n.amount, n, tc, st, m);
    var ops := LowerOperands(n.base, n.amount, n, tc, st);
    var y := Run(ops.state.code[|st.code|..], m).value;
    var bytes := NumBytes(ElementType(tc(n)));
    var tail := [PopInt(T0), PopInt(T1)] + IndexTail(bytes);
    IndexTailValue(bytes, y, m.stack, b, a);
    Continued(st, ops, tail, m, m.stack + [b, a], m.stack + [Value(n, tc, st.frames, fp)], m.stores);
    assert Lower(n, tc, st) == Then(ops, tail);
  }

  /** The float comparison pops both values and sets the flag. */
  lemma FloatComparisonTailValue(cmp: Operation, y: Machine, rest: seq<Term>, left: Term, right: Term)
    requires y.stack == rest + [left, right]
    ensures var res := Run(ComparisonTail(cmp, true), y);
      && res.Some? && res.value.stack == rest && res.value.stores == y.stores
      && res.value.flag == Relation(cmp, true, left, right)
  {
    var m1 := y.(stack := rest + [left], regs := y.regs[F0 := right]);
    PopStep(PopFloat(F0), y, rest + [left], right);
    var m2 := m1.(stack := rest, regs := m1.regs[F2 := left]);
    PopStep(PopFloat(F2), m1, rest, left);
    assert Exec(FloatCompare(cmp, F2, F0), m2) == Some(m2.(flag := Relation(cmp, true, left, right)));
    Run3(PopFloat(F0), PopFloat(F2), FloatCompare(cmp, F2, F0), y);
  }

  /** A float comparison of two values pushes nothing: the two values are
      popped and the comparison of left with right goes to the condition
      flag. For `NE`, `GT` and `GE` the text the source writes (`c.ne.s`,
      `c.gt.s`, `c.ge.s`) is not a MIPS instruction; the flag meaning given
      here is the one its name intends. */
  lemma {:induction false} FloatComparisonSetsFlag(n: Command, tc: TypeOracle, st: GenState, m: Machine)
    requires n.Comparison? && tc(n) == FloatType
    requires Evaluable(n.leftSide, tc) && Evaluable(n.rightSide, tc) && GlobalLast(st.frames)
    ensures var r := Lower(n, tc, st);
      var fp := m.fp;
      && r.outcome.Done? && st.code <= r.state.code
      && var res := Run(r.state.code[|st.code|..], m);
      && res.Some? && res.value.stack == m.stack && res.value.stores == m.stores
      && res.value.flag == Relation(n.operation, true, Value(n.leftSide, tc, st.frames, fp), Value(n.rightSide, tc, st.frames, fp))
    decreases n, 1
  {
    var fp := m.fp;
    var l := Value(n.leftSide, tc, st.frames, fp);
    var r := Value(n.rightSide, tc, st.frames, fp);
    assert Lower(n, tc, st) == Then(LowerOperands(n.leftSide, n.rightSide, n, tc, st), ComparisonTail(n.operation, true));
    OperandsValue(n.leftSide, n.rightSide, n, tc, st, m);
    var ops := LowerOperands(n.leftSide, n.rightSide, n, tc, st);
    var a := ops.state.code[|st.code|..];
    var y := Run(a, m).value;
    var tail := ComparisonTail(n.operation, true);
    FloatComparisonTailValue(n.operation, y, m.stack, l, r);
    RunAppend(a, tail, m);
    assert (ops.state.code + tail)[|st.code|..] == a + tail;
  }

  /** The store pops the value, then the address. */
  lemma AssignmentTailValue(float: bool, y: Machine, rest: seq<Term>, d: Term, s: Term)
    requires y.stack == rest + [d, s]
    ensures Ends(Run(AssignmentTail(float), y), y, rest, y.stores + [Store(d, s, float)])
  {
    var v := if float then F2 else T1;
    var i := if float then StoreWordFloat(F2, T0) else StoreWord(T1, T0);
    var m1 := y.(stack := rest + [d], regs := y.regs[v := s]);
    PopStep(PopOf(float, v), y, rest + [d], s);
    var m2 := m1.(stack := rest, regs := m1.regs[T0 := d]);
    PopStep(PopInt(T0), m1, rest, d);
    assert Exec(i, m2) == Some(m2.(stores := y.stores + [Store(d, s, float)]));
    Run3(PopOf(float, v), PopInt(T0), i, y);
    assert AssignmentTail(float) == [PopOf(float, v), PopInt(T0), i];
  }

  /** An assignment of two values stores the source's value at the
      destination's address, with `swc1` for a float node and `sw`
      otherwise, and leaves the stack as it found it. */
  lemma {:induction false} AssignmentStores(n: Command, tc: TypeOracle, st: GenState, m: Machine)
    requires n.Assignment?
    requires Evaluable(n.destination, tc) && Evaluable(n.source, tc) && GlobalLast(st.frames)
    ensures var fp := m.fp;
      Computes(st, Lower(n, tc, st), m, m.stack,
        m.stores + [Store(Value(n.destination, tc, st.frames, fp), Value(n.source, tc, st.frames, fp), tc(n) == FloatType)])
    decreases n, 1
  {
    var fp := m.fp;
    var d := Value(n.destination, tc, st.frames, fp);
    var s := Value(n.source, tc, st.frames, fp);
    var tail := AssignmentTail(tc(n) == FloatType);
    assert Lower(n, tc, st) == Then(LowerOperands(n.destination, n.source, n, tc, st), tail);
    OperandsValue(n.destination, n.source, n, tc, st, m);
    var ops := LowerOperands(n.destination, n.source, n, tc, st);
    var y := Run(ops.state.code[|st.code|..], m).value;
    AssignmentTailValue(tc(n) == FloatType, y, m.stack, d, s);
    Continued(st, ops, tail, m, m.stack + [d, s], m.stack, m.stores + [Store(d, s, tc(n) == FloatType)]);
  }
}

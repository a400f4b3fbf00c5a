/** The target instructions, as an abstract datatype instead of text, and the
    bookkeeping the properties are stated in: which generated labels a piece
    of code defines, and how many bytes it leaves on the evaluation stack. */
module Instructions {
  import opened Ast

  /** The registers the generator names. */
  datatype Reg = Zero | T0 | T1 | T2 | F0 | F2 | F4 | V0 | SP | FP

  datatype ArithOp = Add | Sub | Mul | Div

  /** `Generated(n)` is the n-th label handed out by `Program.newLabel`;
      `Named` covers the labels derived from source names (`main`,
      `crxfunction.<f>`, `cruxdata.<x>`). The two name spaces are disjoint. */
  datatype Label = Generated(n: nat) | Named(text: string)

  datatype Instr =
    | DefineLabel(target: Label)                              // label:
    | AddImm(rd: Reg, rs: Reg, imm: int)                      // addi rd, rs, imm
    | LoadAddress(rd: Reg, target: Label)                     // la rd, label
    | DataSpace(target: Label, bytes: nat)                    // label : .space bytes
    | LoadFloatImm(fd: Reg, value: FloatValue)                // li.s fd, value
    | IntArith(op: ArithOp, rd: Reg, rs: Reg, rt: Reg)        // add/sub/mul/div rd, rs, rt
    | FloatArith(op: ArithOp, rd: Reg, rs: Reg, rt: Reg)      // add.s/sub.s/mul.s/div.s
    | And(rd: Reg, rs: Reg, rt: Reg)
    | Or(rd: Reg, rs: Reg, rt: Reg)
    | Xor(rd: Reg, rs: Reg, rt: Reg)
    | LoadUpper(rd: Reg, imm: int)                            // lui rd, imm
    | ShiftRightArith(rd: Reg, rs: Reg, shift: nat)           // sra rd, rs, shift
    | SetCompare(cmp: Operation, rd: Reg, rs: Reg, rt: Reg)   // s<op> rd, rs, rt
    | FloatCompare(cmp: Operation, rs: Reg, rt: Reg)          // c.<op>.s rs, rt (MIPS has only eq, lt, le)
    | LoadWord(rd: Reg, base: Reg)                            // written as: lw, rd, 0(base)
    | LoadWordFloat(rd: Reg, base: Reg)                       // written as: lwc1, rd, 0(base)
    | StoreWord(rs: Reg, base: Reg)                           // sw rs, 0(base)
    | StoreWordFloat(rs: Reg, base: Reg)                      // swc1 rs, 0(base)
    | SubImmUnsigned(rd: Reg, rs: Reg, amount: nat)            // subu rd, rs, imm
    | JumpAndLink(target: Label)                              // jal label
    | Jump(target: Label)                                     // j label
    | BranchEqual(rs: Reg, rt: Reg, target: Label)            // beq rs, rt, label
    | BranchFloatFalse(target: Label)                         // bc1f label
    | PushInt(reg: Reg)                                       // Program.pushInt
    | PushFloat(reg: Reg)                                     // Program.pushFloat
    | PopInt(reg: Reg)                                        // Program.popInt
    | PopFloat(reg: Reg)                                      // Program.popFloat
    | Prologue(frameSize: nat)                                // Program.insertPrologue
    | Epilogue(frameSize: nat)                                // Program.appendEpilogue
    | Exit                                                    // Program.appendExitSequence

  /** The labels an instruction defines or refers to. */
  function Mentions(i: Instr): set<Label> {
    if i.DefineLabel? || i.LoadAddress? || i.DataSpace? then {i.target}
    else if i.JumpAndLink? || i.Jump? || i.BranchEqual? || i.BranchFloatFalse? then {i.target}
    else {}
  }

  /** The labels an instruction transfers control to. */
  function Targets(i: Instr): set<Label> {
    if i.JumpAndLink? || i.Jump? || i.BranchEqual? || i.BranchFloatFalse? then {i.target} else {}
  }

  /** A generated label is "below" a counter when the counter has already
      handed it out; named labels are not counted. */
  predicate Below(l: Label, count: nat) {
    l.Generated? ==> l.n < count
  }

  /** Every generated label the code mentions has been handed out. */
  predicate LabelsBelow(code: seq<Instr>, count: nat) {
    forall k, l :: 0 <= k < |code| && l in Mentions(code[k]) ==> Below(l, count)
  }

  /** How many times the code defines the generated label number `m`. */
  function Definitions(code: seq<Instr>, m: nat): nat {
    if code == [] then 0
    else Definitions(code[..|code| - 1], m) + (if code[|code| - 1] == DefineLabel(Generated(m)) then 1 else 0)
  }

  /** Bytes an instruction moves onto the runtime stack (negative: off it).
      Pushes and pops move one word; the caller's `addi $sp, $sp, n` after a
      call reclaims n bytes of arguments and `subu $sp, $sp, n` reserves n.
      Prologue, epilogue and exit manage the frame, not the evaluation stack. */
  function EvalDelta(i: Instr): int {
    if i.PushInt? || i.PushFloat? then 4
    else if i.PopInt? || i.PopFloat? then -4
    else if i.SubImmUnsigned? && i.rd == SP && i.rs == SP then i.amount
    else if i.AddImm? && i.rd == SP && i.rs == SP then -i.imm
    else 0
  }

  /** Net bytes a straight run of code leaves on the evaluation stack. */
  function EvalBytes(code: seq<Instr>): int {
    if code == [] then 0 else EvalBytes(code[..|code| - 1]) + EvalDelta(code[|code| - 1])
  }

  lemma {:induction false} DefinitionsAppend(a: seq<Instr>, b: seq<Instr>, m: nat)
    ensures Definitions(a + b, m) == Definitions(a, m) + Definitions(b, m)
    decreases |b|
  {
    if b == [] {
      assert a + b == a;
    } else {
      assert (a + b)[..|a + b| - 1] == a + b[..|b| - 1];
      DefinitionsAppend(a, b[..|b| - 1], m);
    }
  }

  lemma {:induction false} EvalBytesAppend(a: seq<Instr>, b: seq<Instr>)
    ensures EvalBytes(a + b) == EvalBytes(a) + EvalBytes(b)
    decreases |b|
  {
    if b == [] {
      assert a + b == a;
    } else {
      assert (a + b)[..|a + b| - 1] == a + b[..|b| - 1];
      EvalBytesAppend(a, b[..|b| - 1]);
    }
  }

  /** A label defined in the code was mentioned by it, so it is below any
      counter the code's labels are below. */
  lemma {:induction false} DefinitionsBelow(code: seq<Instr>, count: nat, m: nat)
    requires LabelsBelow(code, count)
    requires Definitions(code, m) > 0
    ensures m < count
    decreases |code|
  {
    assert code != [];
    var last := code[|code| - 1];
    var init := code[..|code| - 1];
    assert Definitions(code, m) == Definitions(init, m) + (if last == DefineLabel(Generated(m)) then 1 else 0);
    if last == DefineLabel(Generated(m)) {
      assert Generated(m) in Mentions(code[|code| - 1]);
      assert Below(Generated(m), count);
    } else {
      assert LabelsBelow(init, count) by {
        forall k, l | 0 <= k < |init| && l in Mentions(init[k]) ensures Below(l, count) {
          assert init[k] == code[k];
        }
      }
      DefinitionsBelow(init, count, m);
    }
  }

  lemma LabelsBelowAppend(a: seq<Instr>, b: seq<Instr>, count: nat)
    requires LabelsBelow(a, count) && LabelsBelow(b, count)
    ensures LabelsBelow(a + b, count)
  {
    forall k, l | 0 <= k < |a + b| && l in Mentions((a + b)[k]) ensures Below(l, count) {
      if k < |a| {
        assert (a + b)[k] == a[k];
      } else {
        assert (a + b)[k] == b[k - |a|];
      }
    }
  }

  lemma LabelsBelowGrow(code: seq<Instr>, count: nat, count': nat)
    requires LabelsBelow(code, count) && count <= count'
    ensures LabelsBelow(code, count')
  {
    forall k, l | 0 <= k < |code| && l in Mentions(code[k]) ensures Below(l, count') {
      assert Below(l, count);
    }
  }
}

/** The frame model: where each symbol of a function lives, and how an address
    is resolved by walking the chain of enclosing frames out to the global
    frame, which places symbols in the data segment instead. */
module ActivationRecords {
  import opened Types
  import opened Ast
  import opened Instructions
  import opened Programs

  /** Saved return address and saved frame pointer: two words. */
  const FixedFrameSize: nat := 2 * 4

  /** The contents of one activation record. `global` marks the global frame,
      whose `add` and `getAddress` are overridden and whose maps are unused. */
  datatype FrameView = FrameView(
    global: bool,
    stackSize: nat,
    locals: map<Symbol, nat>,
    arguments: map<Symbol, nat>)

  const GlobalView: FrameView := FrameView(true, 0, map[], map[])

  /** The data-segment label of a global symbol: the name behind the
      `cruxdata.` prefix, from which it can be read back. */
  function MangleDataname(name: string): (l: Label)
    ensures l.Named? && |l.text| == 9 + |name|
    ensures l.text[..9] == "cruxdata." && l.text[9..] == name
  {
    Named("cruxdata." + name)
  }

  /** Distinct global names get distinct data labels. */
  lemma MangleDatanameInjective(a: string, b: string)
    ensures MangleDataname(a) == MangleDataname(b) <==> a == b
  {
    if MangleDataname(a) == MangleDataname(b) {
      assert a == ("cruxdata." + a)[9..];
      assert b == ("cruxdata." + b)[9..];
    }
  }

  /** Storage taken by a run of symbols, in declaration order. */
  function SumBytes(syms: seq<Symbol>): nat {
    if syms == [] then 0 else Bytes(syms[0].typ) + SumBytes(syms[1..])
  }

  lemma {:induction false} SumBytesAppend(a: seq<Symbol>, b: seq<Symbol>)
    ensures SumBytes(a + b) == SumBytes(a) + SumBytes(b)
    decreases |a|
  {
    if a == [] {
      assert a + b == b;
    } else {
      assert (a + b)[0] == a[0] && (a + b)[1..] == a[1..] + b;
      SumBytesAppend(a[1..], b);
    }
  }

  /** The argument offsets the frame constructor builds. Its loop walks the
      arguments from last to first, so the first argument is entered last and
      its entry is the one that stays. */
  function ArgumentTable(args: seq<Symbol>): (t: map<Symbol, nat>)
    ensures forall s :: s in t ==> t[s] + Bytes(s.typ) <= SumBytes(args)
  {
    if args == [] then map[] else ArgumentTable(args[1..])[args[0] := SumBytes(args[1..])]
  }

  /** A freshly constructed frame for a function with these arguments. */
  function NewFrame(args: seq<Symbol>): FrameView {
    FrameView(false, 0, map[], ArgumentTable(args))
  }

  /** `add` of a scalar local on a function frame: the frame grows by the
      local's size and the local is recorded at the new frame size. */
  function AddScalar(f: FrameView, s: Symbol): (g: FrameView)
    ensures g.stackSize == f.stackSize + Bytes(s.typ)
    ensures s in g.locals && g.locals[s] == g.stackSize
    ensures forall x :: x in f.locals && x != s ==> x in g.locals && g.locals[x] == f.locals[x]
    ensures g.arguments == f.arguments && g.global == f.global
  {
    var size := f.stackSize + Bytes(s.typ);
    f.(stackSize := size, locals := f.locals[s := size])
  }

  /** A run of scalar `add`s, in order. */
  function AddAll(f: FrameView, syms: seq<Symbol>): FrameView
    decreases |syms|
  {
    if syms == [] then f else AddAll(AddScalar(f, syms[0]), syms[1..])
  }

  predicate Distinct(syms: seq<Symbol>) {
    forall i, j :: 0 <= i < j < |syms| ==> syms[i] != syms[j]
  }

  /** Exactly the arguments have offsets. */
  lemma {:induction false} ArgumentTableKeys(args: seq<Symbol>)
    ensures forall s :: s in ArgumentTable(args) <==> s in args
    decreases |args|
  {
    if args != [] {
      ArgumentTableKeys(args[1..]);
      assert forall s :: s in args <==> s == args[0] || s in args[1..];
    }
  }

  /** Each argument sits at the total size of the arguments declared after it,
      so the last one is at offset 0. */
  lemma {:induction false} ArgumentOffsets(args: seq<Symbol>)
    requires Distinct(args)
    ensures forall i :: 0 <= i < |args| ==>
      args[i] in ArgumentTable(args) && ArgumentTable(args)[args[i]] == SumBytes(args[i + 1..])
    decreases |args|
  {
    if args != [] {
      var rest := args[1..];
      assert Distinct(rest) by {
        forall i, j | 0 <= i < j < |rest| ensures rest[i] != rest[j] {
          assert rest[i] == args[i + 1] && rest[j] == args[j + 1];
        }
      }
      ArgumentOffsets(rest);
      forall i | 0 <= i < |args|
        ensures args[i] in ArgumentTable(args) && ArgumentTable(args)[args[i]] == SumBytes(args[i + 1..])
      {
        if i > 0 {
          assert args[i] == rest[i - 1] && args[i] != args[0];
          assert args[i + 1..] == rest[i..];
        }
      }
    }
  }

  /** Offsets fall with declaration order: an earlier argument lies at least
      the later one's size beyond it, hence strictly beyond when sizes are
      positive. The last argument is at offset 0. */
  lemma ArgumentOffsetsDecrease(args: seq<Symbol>, i: nat, j: nat)
    requires Distinct(args) && i < j < |args|
    ensures args[j] in ArgumentTable(args) && args[i] in ArgumentTable(args)
    ensures ArgumentTable(args)[args[j]] + Bytes(args[j].typ) <= ArgumentTable(args)[args[i]]
    ensures args[|args| - 1] in ArgumentTable(args) && ArgumentTable(args)[args[|args| - 1]] == 0
  {
    ArgumentOffsets(args);
    SuffixBytesMonotone(args, i + 1, j);
    assert args[|args| - 1 + 1..] == [];
  }

  lemma {:induction false} SuffixBytesMonotone(s: seq<Symbol>, i: nat, j: nat)
    requires i <= j < |s|
    ensures SumBytes(s[j + 1..]) + Bytes(s[j].typ) <= SumBytes(s[i..])
    decreases j - i
  {
    assert s[j..][1..] == s[j + 1..];
    if i < j {
      SuffixBytesMonotone(s, i + 1, j);
      assert s[i..][1..] == s[i + 1..];
    }
  }

  /** `add`s in sequence extend the frame by the sizes in sequence. */
  lemma {:induction false} AddAllAppend(f: FrameView, a: seq<Symbol>, b: seq<Symbol>)
    ensures AddAll(f, a + b) == AddAll(AddAll(f, a), b)
    decreases |a|
  {
    if a == [] {
      assert a + b == b;
    } else {
      assert (a + b)[0] == a[0] && (a + b)[1..] == a[1..] + b;
      AddAllAppend(AddScalar(f, a[0]), a[1..], b);
    }
  }

  /** After adding distinct scalars in order, each one's offset is the frame
      size reached when it was added (a prefix sum that includes itself), the
      frame size is grown by their total, and nothing else is touched. */
  lemma {:induction false} LocalOffsets(f: FrameView, syms: seq<Symbol>)
    requires Distinct(syms)
    ensures AddAll(f, syms).stackSize == f.stackSize + SumBytes(syms)
    ensures forall s :: s in AddAll(f, syms).locals <==> s in f.locals || s in syms
    ensures forall i :: 0 <= i < |syms| ==>
      AddAll(f, syms).locals[syms[i]] == f.stackSize + SumBytes(syms[..i + 1])
    ensures forall s :: s in f.locals && s !in syms ==> AddAll(f, syms).locals[s] == f.locals[s]
    ensures AddAll(f, syms).arguments == f.arguments && AddAll(f, syms).global == f.global
    decreases |syms|
  {
    if syms != [] {
      var g := AddScalar(f, syms[0]);
      var rest := syms[1..];
      assert Distinct(rest) by {
        forall i, j | 0 <= i < j < |rest| ensures rest[i] != rest[j] {
          assert rest[i] == syms[i + 1] && rest[j] == syms[j + 1];
        }
      }
      LocalOffsets(g, rest);
      assert forall s :: s in syms <==> s == syms[0] || s in rest;
      forall i | 0 <= i < |syms|
        ensures AddAll(f, syms).locals[syms[i]] == f.stackSize + SumBytes(syms[..i + 1])
      {
        if i == 0 {
          assert syms[0] !in rest;
          assert syms[..1][1..] == [];
        } else {
          assert syms[i] == rest[i - 1];
          assert syms[..i + 1][1..] == rest[..i];
        }
      }
    }
  }

  /** Local offsets strictly increase in declaration order when every local
      has a positive size. */
  lemma LocalOffsetsIncrease(f: FrameView, syms: seq<Symbol>, i: nat, j: nat)
    requires Distinct(syms) && i < j < |syms|
    requires forall k :: 0 <= k < |syms| ==> Bytes(syms[k].typ) > 0
    ensures syms[i] in AddAll(f, syms).locals && syms[j] in AddAll(f, syms).locals
    ensures AddAll(f, syms).locals[syms[i]] < AddAll(f, syms).locals[syms[j]]
  {
    LocalOffsets(f, syms);
    PrefixSumIncreases(syms[..j + 1], i + 1);
    assert syms[..j + 1][..i + 1] == syms[..i + 1];
  }

  /** A proper prefix of positively sized symbols weighs strictly less. */
  lemma {:induction false} PrefixSumIncreases(syms: seq<Symbol>, m: nat)
    requires m < |syms|
    requires forall k :: 0 <= k < |syms| ==> Bytes(syms[k].typ) > 0
    ensures SumBytes(syms[..m]) < SumBytes(syms)
    decreases m
  {
    if m == 0 {
      assert Bytes(syms[0].typ) > 0;
    } else {
      assert syms[..m][1..] == syms[1..][..m - 1];
      assert Bytes(syms[1..][0].typ) > 0;
      PrefixSumIncreases(syms[1..], m - 1);
    }
  }

  /** Whether a frame resolves a symbol itself (the global frame resolves
      every symbol) rather than passing it to its parent. */
  predicate Holds(f: FrameView, sym: Symbol) {
    f.global || sym in f.locals || sym in f.arguments
  }

  /** The one instruction a frame that holds `sym` emits: `la` of the data
      label in the global frame; otherwise locals first, below the frame
      pointer past the fixed overhead, then arguments, above it. */
  function FrameAddress(f: FrameView, reg: Reg, sym: Symbol): (i: Instr)
    requires Holds(f, sym)
    ensures f.global <==> i.LoadAddress?
    ensures i.LoadAddress? ==> i.rd == reg && i.target == MangleDataname(sym.name)
    ensures i.AddImm? ==> i.rd == reg && i.rs == FP
    ensures !f.global && sym in f.locals ==> i.AddImm? && i.imm < 0
    ensures !f.global && sym !in f.locals ==> i.AddImm? && i.imm >= 0
  {
    if f.global then LoadAddress(reg, MangleDataname(sym.name))
    else if sym in f.locals then AddImm(reg, FP, -(f.locals[sym] + FixedFrameSize))
    else AddImm(reg, FP, f.arguments[sym])
  }

  /** What `getAddress` emits when called on the first frame of `chain` (each
      frame followed by its parent). */
  function ResolveIn(chain: seq<FrameView>, reg: Reg, sym: Symbol): (r: seq<Instr>)
    ensures |r| <= 1
    ensures forall i :: 0 <= i < |r| ==> (r[i].LoadAddress? || (r[i].AddImm? && r[i].rs == FP)) && r[i].rd == reg
  {
    if chain == [] then []
    else if Holds(chain[0], sym) then [FrameAddress(chain[0], reg, sym)]
    else ResolveIn(chain[1..], reg, sym)
  }

  /** Resolution is decided by the innermost frame holding the symbol, found
      after exactly `k` parent hops; no other frame's tables are consulted. */
  lemma {:induction false} ResolveInnermost(chain: seq<FrameView>, reg: Reg, sym: Symbol, k: nat)
    requires k < |chain| && Holds(chain[k], sym)
    requires forall j :: 0 <= j < k ==> !Holds(chain[j], sym)
    ensures ResolveIn(chain, reg, sym) == [FrameAddress(chain[k], reg, sym)]
    decreases k
  {
    if k > 0 {
      assert !Holds(chain[0], sym);
      ResolveInnermost(chain[1..], reg, sym, k - 1);
    }
  }

  /** A symbol no frame holds: nothing is emitted. */
  lemma {:induction false} ResolveMiss(chain: seq<FrameView>, reg: Reg, sym: Symbol)
    requires forall j :: 0 <= j < |chain| ==> !Holds(chain[j], sym)
    ensures ResolveIn(chain, reg, sym) == []
    decreases |chain|
  {
    if chain != [] {
      assert !Holds(chain[0], sym);
      ResolveMiss(chain[1..], reg, sym);
    }
  }

  /** When the chain ends in the global frame, exactly one instruction is
      emitted: the innermost holder's, or `la reg, cruxdata.<name>` if no
      function frame on the way holds the symbol. */
  lemma {:induction false} ResolveAtGlobal(chain: seq<FrameView>, reg: Reg, sym: Symbol)
    requires chain != [] && chain[|chain| - 1].global
    ensures |ResolveIn(chain, reg, sym)| == 1
    ensures (forall j :: 0 <= j < |chain| - 1 ==> !Holds(chain[j], sym)) ==>
      ResolveIn(chain, reg, sym) == [LoadAddress(reg, MangleDataname(sym.name))]
    decreases |chain|
  {
    if !Holds(chain[0], sym) {
      assert |chain| > 1;
      assert chain[1..][|chain[1..]| - 1] == chain[|chain| - 1];
      ResolveAtGlobal(chain[1..], reg, sym);
    }
  }

  class ActivationRecord {
    const global: bool
    const parent: ActivationRecord?
    var stackSize: nat
    var locals: map<Symbol, nat>
    const arguments: map<Symbol, nat>
    /** The records of the chain from this one outward. */
    ghost const Repr: set<ActivationRecord>
    /** The number of parent hops to the end of the chain. */
    ghost const depth: nat

    ghost predicate Valid()
      reads this, Repr
      decreases depth
    {
      && this in Repr
      && (global ==> parent == null && stackSize == 0 && locals == map[] && arguments == map[])
      && (parent == null ==> Repr == {this} && depth == 0)
      && (parent != null ==>
            && parent in Repr && Repr == {this} + parent.Repr && this !in parent.Repr
            && parent.depth < depth && parent.Valid())
    }

    ghost function View(): FrameView
      reads this
    {
      FrameView(global, stackSize, locals, arguments)
    }

    /** The frames this record's `getAddress` may consult, innermost first. */
    ghost function Chain(): (c: seq<FrameView>)
      reads Repr
      requires Valid()
      ensures c != [] && c[0] == View()
      decreases depth
    {
      [View()] + (if parent == null then [] else parent.Chain())
    }

    /** `newGlobalFrame`: the parentless frame with no tables. */
    constructor Global()
      ensures Valid() && global && parent == null
      ensures Chain() == [GlobalView]
    {
      global := true;
      parent := null;
      stackSize := 0;
      locals := map[];
      arguments := map[];
      Repr := {this};
      depth := 0;
    }

    /** The frame of a function with arguments `args`: empty locals, frame
      size 0, and each argument at the size of the arguments after it. */
    constructor (args: seq<Symbol>, parent: ActivationRecord?)
      requires parent != null ==> parent.Valid()
      requires forall k :: 0 <= k < |args| ==> Storable(args[k].typ)
      ensures Valid() && !global && this.parent == parent
      ensures View() == NewFrame(args)
      ensures Chain() == [NewFrame(args)] + (if parent == null then [] else parent.Chain())
    {
      var table: map<Symbol, nat> := map[];
      var offset: nat := 0;
      var i := |args|;
      while i > 0
        invariant 0 <= i <= |args|
        invariant table == ArgumentTable(args[i..]) && offset == SumBytes(args[i..])
      {
        i := i - 1;
        assert args[i..][1..] == args[i + 1..];
        table := table[args[i] := offset];
        offset := offset + NumBytes(args[i].typ);
      }
      global := false;
      this.parent := parent;
      stackSize := 0;
      locals := map[];
      arguments := table;
      Repr := {this} + (if parent == null then {} else parent.Repr);
      depth := if parent == null then 0 else parent.depth + 1;
    }

    /** `add` of a `VariableDeclaration`. */
    method AddVariable(prog: Program, sym: Symbol)
      requires Valid() && prog.Valid() && Storable(sym.typ)
      modifies this, prog
      ensures Valid() && prog.Valid() && prog.labelCount == old(prog.labelCount)
      ensures global ==>
        View() == old(View()) &&
        prog.code == old(prog.code) + [DataSpace(MangleDataname(sym.name), NumBytes(sym.typ))]
      ensures !global ==> View() == AddScalar(old(View()), sym) && prog.code == old(prog.code)
      ensures Chain() == [View()] + old(Chain())[1..]
    {
      if global {
        var _ := prog.AppendInstruction(DataSpace(MangleDataname(sym.name), NumBytes(sym.typ)));
      } else {
        stackSize := stackSize + NumBytes(sym.typ);
        locals := locals[sym := stackSize];
      }
    }

    /** `add` of an `ArrayDeclaration`: a data-segment entry in the global
      frame; nothing at all in a function frame. */
    method AddArray(prog: Program, sym: Symbol)
      requires Valid() && prog.Valid() && (global ==> Storable(sym.typ))
      modifies prog
      ensures prog.Valid() && prog.labelCount == old(prog.labelCount)
      ensures prog.code == old(prog.code) +
        (if global then [DataSpace(MangleDataname(sym.name), NumBytes(sym.typ))] else [])
    {
      if global {
        var _ := prog.AppendInstruction(DataSpace(MangleDataname(sym.name), NumBytes(sym.typ)));
      }
    }

    /** `getAddress`: emits the instruction that puts the address of `sym`
      into `reg`, asking the parent when this frame does not hold it. */
    method GetAddress(prog: Program, reg: Reg, sym: Symbol)
      requires Valid() && prog.Valid()
      modifies prog
      ensures prog.Valid() && prog.labelCount == old(prog.labelCount)
      ensures prog.code == old(prog.code) + ResolveIn(Chain(), reg, sym)
      decreases depth
    {
      if global {
        var _ := prog.AppendInstruction(LoadAddress(reg, MangleDataname(sym.name)));
      } else if sym in locals {
        var _ := prog.AppendInstruction(AddImm(reg, FP, -(locals[sym] + FixedFrameSize)));
      } else if sym in arguments {
        var _ := prog.AppendInstruction(AddImm(reg, FP, arguments[sym]));
      } else if parent != null {
        parent.GetAddress(prog, reg, sym);
      }
    }
  }
}

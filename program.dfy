/** The instruction stream the generator appends to. Its textual form and the
    instruction sequences behind push, pop, prologue, epilogue and exit are
    not part of this model: each of those is one abstract instruction. */
module Programs {
  import opened Instructions

  class Program {
    /** The emitted lines, in order. */
    var code: seq<Instr>
    /** How many labels `NewLabel` has handed out. */
    var labelCount: nat

    /** Every generated label the code mentions has been handed out. */
    ghost predicate Valid()
      reads this
    {
      LabelsBelow(code, labelCount)
    }

    constructor ()
      ensures Valid() && code == [] && labelCount == 0
    {
      code := [];
      labelCount := 0;
    }

    /** A label no line of the program mentions yet; emits nothing. */
    method NewLabel() returns (l: Label)
      requires Valid()
      modifies this
      ensures Valid()
      ensures l == Generated(old(labelCount)) && labelCount == old(labelCount) + 1
      ensures code == old(code)
      ensures forall k :: 0 <= k < |code| ==> l !in Mentions(code[k])
    {
      l := Generated(labelCount);
      forall k | 0 <= k < |code| ensures l !in Mentions(code[k]) {
        assert l in Mentions(code[k]) ==> Below(l, labelCount);
      }
      labelCount := labelCount + 1;
      LabelsBelowGrow(code, labelCount - 1, labelCount);
    }

    /** Appends one line and returns its index. */
    method AppendInstruction(i: Instr) returns (position: nat)
      requires Valid() && LabelsBelow([i], labelCount)
      modifies this
      ensures Valid() && labelCount == old(labelCount)
      ensures code == old(code) + [i] && position == |old(code)|
    {
      position := |code|;
      LabelsBelowAppend(code, [i], labelCount);
      code := code + [i];
    }

    /** Inserts the prologue for a frame of `frameSize` bytes at `position`. */
    method InsertPrologue(position: nat, frameSize: nat)
      requires Valid() && position <= |code|
      modifies this
      ensures Valid() && labelCount == old(labelCount)
      ensures code == old(code)[..position] + [Prologue(frameSize)] + old(code)[position..]
    {
      assert code == code[..position] + code[position..];
      LabelsBelowAppend(code[..position], [Prologue(frameSize)], labelCount);
      LabelsBelowAppend(code[..position] + [Prologue(frameSize)], code[position..], labelCount);
      code := code[..position] + [Prologue(frameSize)] + code[position..];
    }

    method AppendEpilogue(frameSize: nat)
      requires Valid()
      modifies this
      ensures Valid() && labelCount == old(labelCount)
      ensures code == old(code) + [Epilogue(frameSize)]
    {
      var _ := AppendInstruction(Epilogue(frameSize));
    }

    method AppendExitSequence()
      requires Valid()
      modifies this
      ensures Valid() && labelCount == old(labelCount)
      ensures code == old(code) + [Exit]
    {
      var _ := AppendInstruction(Exit);
    }

    method PushInt(r: Reg)
      requires Valid()
      modifies this
      ensures Valid() && labelCount == old(labelCount)
      ensures code == old(code) + [Instructions.PushInt(r)]
    {
      var _ := AppendInstruction(Instructions.PushInt(r));
    }

    method PushFloat(r: Reg)
      requires Valid()
      modifies this
      ensures Valid() && labelCount == old(labelCount)
      ensures code == old(code) + [Instructions.PushFloat(r)]
    {
      var _ := AppendInstruction(Instructions.PushFloat(r));
    }

    method PopInt(r: Reg)
      requires Valid()
      modifies this
      ensures Valid() && labelCount == old(labelCount)
      ensures code == old(code) + [Instructions.PopInt(r)]
    {
      var _ := AppendInstruction(Instructions.PopInt(r));
    }

    method PopFloat(r: Reg)
      requires Valid()
      modifies this
      ensures Valid() && labelCount == old(labelCount)
      ensures code == old(code) + [Instructions.PopFloat(r)]
    {
      var _ := AppendInstruction(Instructions.PopFloat(r));
    }
  }
}

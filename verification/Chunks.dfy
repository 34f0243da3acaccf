/** The instruction buffer (`src/chunk.rs`): code, one source line per instruction, and constants,
    appended to and patched in place. */
module Chunks {
  import opened Lang
  import opened Machine

  datatype ChunkBuildError = BadOffset | NotAJump

  datatype Patch = Applied | Refused(error: ChunkBuildError)

  /** The instructions `patch_jump` may aim. `Loop` and `SetupTry` are not among them. */
  predicate IsJump(op: OpCode) {
    op.Jump? || op.JumpIfFalse? || op.JumpIfFalseKeep? || op.JumpIfTrueKeep?
  }

  function Aimed(op: OpCode, to: nat): (r: OpCode)
    requires IsJump(op)
    ensures IsJump(r)
  {
    match op
    case Jump(_) => Jump(to)
    case JumpIfFalse(_) => JumpIfFalse(to)
    case JumpIfFalseKeep(_) => JumpIfFalseKeep(to)
    case JumpIfTrueKeep(_) => JumpIfTrueKeep(to)
  }

  function Listing(code: seq<OpCode>, lines: seq<nat>): (r: seq<Instr>)
    requires |code| == |lines|
    ensures |r| == |code| && forall i :: 0 <= i < |r| ==> r[i] == Instr(code[i], lines[i])
  {
    seq(|code|, i requires 0 <= i < |code| => Instr(code[i], lines[i]))
  }

  class Chunk {
    var code: seq<OpCode>
    var lines: seq<nat>
    var constants: seq<Value>
    var maxLocals: nat

    ghost predicate Valid()
      reads this
    {
      |code| == |lines|
    }

    function Instrs(): seq<Instr>
      requires Valid()
      reads this
    {
      Listing(code, lines)
    }

    constructor ()
      ensures Valid() && Instrs() == [] && constants == [] && maxLocals == 0
    {
      code, lines, constants, maxLocals := [], [], [], 0;
    }

    method Emit(op: OpCode, line: nat)
      requires Valid()
      modifies this`code, this`lines
      ensures Valid() && Instrs() == old(Instrs()) + [Instr(op, line)]
    {
      code, lines := code + [op], lines + [line];
    }

    method AddConstant(v: Value) returns (index: nat)
      modifies this`constants
      ensures constants == old(constants) + [v] && index == |old(constants)|
    {
      constants := constants + [v];
      index := |constants| - 1;
    }

    method EmitConstant(v: Value, line: nat)
      requires Valid()
      modifies this`code, this`lines, this`constants
      ensures Valid() && constants == old(constants) + [v]
      ensures Instrs() == old(Instrs()) + [Instr(LoadConst(|old(constants)|), line)]
    {
      var index := AddConstant(v);
      Emit(LoadConst(index), line);
    }

    method EmitJump(op: OpCode, line: nat) returns (offset: nat)
      requires Valid()
      modifies this`code, this`lines
      ensures Valid() && Instrs() == old(Instrs()) + [Instr(op, line)] && offset == |old(code)|
    {
      offset := |code|;
      Emit(op, line);
    }

    /** Aim a waiting jump at the current end of the code. A refusal leaves the chunk as it was. */
    method PatchJump(offset: nat) returns (r: Patch)
      requires Valid()
      modifies this`code
      ensures Valid() && |code| == |old(code)|
      ensures r == if offset >= |old(code)| then Refused(BadOffset)
                   else if !IsJump(old(code)[offset]) then Refused(NotAJump)
                   else Applied
      ensures r.Refused? ==> code == old(code)
      ensures r.Applied? ==> Instrs() == old(Instrs())[offset := Instr(Aimed(old(code)[offset], |old(code)|), lines[offset])]
    {
      if offset >= |code| {
        return Refused(BadOffset);
      }
      if !IsJump(code[offset]) {
        return Refused(NotAJump);
      }
      code := code[offset := Aimed(code[offset], |code|)];
      return Applied;
    }
  }
}

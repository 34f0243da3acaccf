/** `src/verifier.rs` for the instructions of the fragment, and the reason the compiler may skip it:
    whatever it emits is accepted. */
module Verifier {
  import opened Lang
  import opened Slots
  import opened Machine
  import opened CodeGen
  import opened Chunks
  import opened Emission
  import Discipline

  datatype ChunkVerifyError = BadLineTable | BadConstant | BadLocalSlot | BadJumpTarget

  /** The first rule an instruction breaks. A target may be the end of the code. */
  function Violation(op: OpCode, codeLen: nat, constants: nat, maxLocals: nat): Option<ChunkVerifyError> {
    match op
    case LoadConst(i) => if i >= constants then Some(BadConstant) else None
    case GetLocal(slot) => if slot >= maxLocals then Some(BadLocalSlot) else None
    case SetLocal(slot) => if slot >= maxLocals then Some(BadLocalSlot) else None
    case LenLocal(slot) => if slot >= maxLocals then Some(BadLocalSlot) else None
    case IndexLocal(slot) => if slot >= maxLocals then Some(BadLocalSlot) else None
    case RegisterGlobal(_, slot) => if slot >= maxLocals then Some(BadLocalSlot) else None
    case SetIndex(LocalTarget(slot)) => if slot >= maxLocals then Some(BadLocalSlot) else None
    case Jump(t) => if t > codeLen then Some(BadJumpTarget) else None
    case JumpIfFalse(t) => if t > codeLen then Some(BadJumpTarget) else None
    case JumpIfFalseKeep(t) => if t > codeLen then Some(BadJumpTarget) else None
    case JumpIfTrueKeep(t) => if t > codeLen then Some(BadJumpTarget) else None
    case Loop(t) => if t > codeLen then Some(BadJumpTarget) else None
    case SetupTry(t) => if t > codeLen then Some(BadJumpTarget) else None
    case _ => None
  }

  /** Checks a chunk, and reports the first violation in code order. */
  method Verify(chunk: Chunk) returns (r: Option<ChunkVerifyError>)
    ensures r == Some(BadLineTable) <==> |chunk.lines| != |chunk.code|
    ensures r.None? <==>
            && |chunk.lines| == |chunk.code|
            && forall i :: 0 <= i < |chunk.code| ==>
                             Violation(chunk.code[i], |chunk.code|, |chunk.constants|, chunk.maxLocals).None?
    ensures r.Some? && |chunk.lines| == |chunk.code| ==>
              exists i :: && 0 <= i < |chunk.code|
                          && Violation(chunk.code[i], |chunk.code|, |chunk.constants|, chunk.maxLocals) == r
                          && forall j :: 0 <= j < i ==>
                                           Violation(chunk.code[j], |chunk.code|, |chunk.constants|, chunk.maxLocals).None?
  {
    if |chunk.lines| != |chunk.code| {
      return Some(BadLineTable);
    }
    for i := 0 to |chunk.code|
      invariant forall j :: 0 <= j < i ==> Violation(chunk.code[j], |chunk.code|, |chunk.constants|, chunk.maxLocals).None?
    {
      var violation := Violation(chunk.code[i], |chunk.code|, |chunk.constants|, chunk.maxLocals);
      if violation.Some? {
        return violation;
      }
    }
    return None;
  }

  // ----- What a verified chunk cannot do -----

  /** Every instruction passes. */
  predicate Verified(prog: Program, maxLocals: nat) {
    forall i :: 0 <= i < |prog.code| ==> Violation(prog.code[i].op, |prog.code|, |prog.constants|, maxLocals).None?
  }

  /** The machine stands within the code or at its end, and so do all its handlers. */
  predicate InCode(prog: Program, c: Config) {
    c.Running? ==>
      c.vm.ip <= |prog.code| && forall i :: 0 <= i < |c.vm.handlers| ==> c.vm.handlers[i].catchIp <= |prog.code|
  }

  /** The machine goes on where it stood, under the same handlers. */
  predicate Onward(d: Dispatched, vm: Vm) {
    match d
    case Next(next) => next.ip == vm.ip && next.handlers == vm.handlers
    case Fails(_, next) => next.ip == vm.ip && next.handlers == vm.handlers
    case Done(_) => true
  }

  lemma GlobalsGoOn(op: OpCode, vm: Vm)
    requires op.GetGlobal? || op.SetGlobal? || op.RegisterGlobal? || op.RequireGlobal?
    ensures Onward(DispatchGlobal(op, vm), vm)
  {
  }

  lemma CollectionsGoOn(host: Host, op: OpCode, line: nat, vm: Vm)
    requires op.LenLocal? || op.Index? || op.IndexLocal? || op.ListPush? || op.SetIndex? || op.ToIterList?
    ensures Onward(DispatchCollection(host, op, line, vm), vm)
  {
    hide EvalIndex, AssignIndex, Len, IterItems, AppendElement;
  }

  lemma PlainGoesOn(host: Host, prog: Program, op: OpCode, line: nat, vm: Vm)
    ensures Onward(DispatchPlain(host, prog, op, line, vm), vm)
  {
    hide Joined, Negated;
  }

  /** Only a jump moves the machine, and only to its target. */
  lemma JumpsToTarget(op: OpCode, vm: Vm, end: nat)
    requires op.Jump? || op.JumpIfFalse? || op.JumpIfFalseKeep? || op.JumpIfTrueKeep? || op.Loop?
    requires op.target <= end && vm.ip <= end
    ensures match DispatchJump(op, vm)
            case Next(next) => next.ip <= end && next.handlers == vm.handlers
            case Fails(_, next) => next.ip <= end && next.handlers == vm.handlers
            case Done(_) => true
  {
  }

  lemma VerifiedDispatch(host: Host, prog: Program, maxLocals: nat, vm: Vm)
    requires Verified(prog, maxLocals) && InCode(prog, Running(vm)) && vm.ip < |prog.code|
    ensures match Dispatch(host, prog, prog.code[vm.ip], vm.(ip := vm.ip + 1))
            case Next(next) => InCode(prog, Running(next))
            case Fails(_, next) => InCode(prog, Running(next))
            case Done(_) => true
  {
    hide DispatchJump, DispatchGlobal, DispatchCollection, DispatchPlain, ApplyBinary;
    var instr, at := prog.code[vm.ip], vm.(ip := vm.ip + 1);
    var op := instr.op;
    assert Violation(op, |prog.code|, |prog.constants|, maxLocals).None?;
    if op.Jump? || op.JumpIfFalse? || op.JumpIfFalseKeep? || op.JumpIfTrueKeep? || op.Loop? {
      JumpsToTarget(op, at, |prog.code|);
    } else if op.GetGlobal? || op.SetGlobal? || op.RegisterGlobal? || op.RequireGlobal? {
      GlobalsGoOn(op, at);
    } else if op.LenLocal? || op.Index? || op.IndexLocal? || op.ListPush? || op.SetIndex? || op.ToIterList? {
      CollectionsGoOn(host, op, instr.line, at);
    } else {
      PlainGoesOn(host, prog, op, instr.line, at);
    }
  }

  lemma VerifiedStep(host: Host, prog: Program, maxLocals: nat, c: Config)
    requires Verified(prog, maxLocals) && InCode(prog, c)
    ensures InCode(prog, Machine.Step(host, prog, c))
  {
    hide Dispatch;
    if c.Running? && c.vm.ip < |prog.code| {
      VerifiedDispatch(host, prog, maxLocals, c.vm);
    }
  }

  /** A chunk that passed the verifier never leads the machine out of its code, neither by a jump nor by an error that a
      handler catches, whatever the values on its stack are. */
  lemma {:induction false} VerifiedStaysInCode(host: Host, prog: Program, maxLocals: nat, c: Config, n: nat)
    requires Verified(prog, maxLocals) && InCode(prog, c)
    ensures InCode(prog, Steps(host, prog, c, n))
    decreases n
  {
    hide Verified, InCode;
    if n > 0 {
      VerifiedStep(host, prog, maxLocals, c);
      VerifiedStaysInCode(host, prog, maxLocals, Machine.Step(host, prog, c), n - 1);
    }
  }

  predicate NamesSlot(op: OpCode) {
    op.GetLocal? || op.SetLocal? || op.LenLocal? || op.IndexLocal? || op.RegisterGlobal? || (op.SetIndex? && op.dest.LocalTarget?)
  }

  /** Its constants are always there, and so are its slots as soon as the declared locals and two operands are. */
  lemma VerifiedOperands(host: Host, prog: Program, maxLocals: nat, i: nat, vm: Vm)
    requires Verified(prog, maxLocals) && i < |prog.code|
    ensures prog.code[i].op.LoadConst? ==> Dispatch(host, prog, prog.code[i], vm).Next?
    ensures NamesSlot(prog.code[i].op) && |vm.stack| >= maxLocals + 2 ==>
              Dispatch(host, prog, prog.code[i], vm).Fails? ==> Dispatch(host, prog, prog.code[i], vm).cause != Internal
  {
    hide EvalIndex, AssignIndex, Len, IterItems, AppendElement, ApplyBinary, Joined, Negated;
    assert Violation(prog.code[i].op, |prog.code|, |prog.constants|, maxLocals).None?;
  }

  /** Each rule is reported for its own instructions only. */
  lemma ViolationKinds(op: OpCode, codeLen: nat, constants: nat, maxLocals: nat)
    ensures match Violation(op, codeLen, constants, maxLocals)
            case None => true
            case Some(BadConstant) => op.LoadConst?
            case Some(BadLocalSlot) => NamesSlot(op)
            case Some(BadJumpTarget) =>
              op.Jump? || op.JumpIfFalse? || op.JumpIfFalseKeep? || op.JumpIfTrueKeep? || op.Loop? || op.SetupTry?
            case Some(BadLineTable) => false
  {
  }

  // ----- Constants and slots -----

  /** Constants exist and slots are below `bound`. */
  predicate Fine(op: OpCode, constants: nat, bound: nat) {
    match op
    case LoadConst(i) => i < constants
    case GetLocal(slot) => slot < bound
    case SetLocal(slot) => slot < bound
    case LenLocal(slot) => slot < bound
    case IndexLocal(slot) => slot < bound
    case RegisterGlobal(_, slot) => slot < bound
    case SetIndex(LocalTarget(slot)) => slot < bound
    case _ => true
  }

  /** A fragment whose own constants follow `k` earlier ones. */
  predicate AllFine(f: Frag, k: nat, bound: nat) {
    forall i :: 0 <= i < |f.code| ==> Fine(f.code[i].op, k + |f.consts|, bound)
  }

  lemma FineCat(a: Frag, b: Frag, k: nat, bound: nat)
    requires AllFine(a, k, bound) && AllFine(b, k + |a.consts|, bound)
    ensures AllFine(Cat(a, b), k, bound)
  {
    var f := Cat(a, b);
    forall i | 0 <= i < |f.code|
      ensures Fine(f.code[i].op, k + |f.consts|, bound)
    {
      if i < |a.code| {
        assert f.code[i] == a.code[i];
        assert Fine(a.code[i].op, k + |a.consts|, bound);
      } else {
        assert f.code[i] == b.code[i - |a.code|];
      }
    }
  }

  lemma FineOne(op: OpCode, line: nat, k: nat, bound: nat)
    requires Fine(op, k, bound)
    ensures AllFine(One(op, line), k, bound)
  {
  }

  lemma FineConst(v: Value, line: nat, k: nat, bound: nat)
    ensures AllFine(Const(v, line, k), k, bound)
  {
  }

  lemma FineClosed(f: Frag, p: nat, breakTo: nat, contTo: nat, k: nat, bound: nat)
    requires AllFine(f, k, bound)
    ensures AllFine(Closed(f, p, breakTo, contTo), k, bound)
  {
    var g := Closed(f, p, breakTo, contTo);
    forall i | 0 <= i < |g.code|
      ensures Fine(g.code[i].op, k + |g.consts|, bound)
    {
      assert Fine(f.code[i].op, k + |f.consts|, bound);
    }
  }

  lemma {:induction false} ExprFine(e: Expr, names: seq<string>, line: nat, p: nat, k: nat, bound: nat)
    requires |names| <= bound
    ensures AllFine(GenExpr(e, names, line, p, k), k, bound)
    decreases e, 1
  {
    hide AllFine, Cat;
    match e
    case IntLit(n) => FineConst(VInt(n), line, k, bound);
    case StrLit(s) => FineConst(VStr(s), line, k, bound);
    case BoolLit(b) => FineConst(VBool(b), line, k, bound);
    case NullLit => FineConst(VNull, line, k, bound);
    case Ident(name) => FineOne(NameRead(name, names), line, k, bound);
    case Binary(_, _, _) => BinaryFine(e, names, line, p, k, bound);
    case Unary(uop, x) =>
      ExprFine(x, names, line, p, k, bound);
      var f := GenExpr(x, names, line, p, k);
      FineOne(if uop.Neg? then Negate else OpCode.Not, line, k + |f.consts|, bound);
      FineCat(f, One(if uop.Neg? then Negate else OpCode.Not, line), k, bound);
    case Print(args) =>
      var a := GenArgs(args, names, line, p, k);
      ArgsFine(args, names, line, p, k, bound);
      FineOne(OpCode.Print(|args|), line, k + |a.consts|, bound);
      FineCat(a, One(OpCode.Print(|args|), line), k, bound);
      CatSize(a, One(OpCode.Print(|args|), line));
      FineConst(VNull, line, k + |a.consts|, bound);
      FineCat(Cat(a, One(OpCode.Print(|args|), line)), Const(VNull, line, k + |a.consts|), k, bound);
    case ListLit(items) =>
      FineConst(VList([]), line, k, bound);
      ElementsFine(items, names, line, p + 1, k + 1, bound);
      FineCat(Const(VList([]), line, k), GenElements(items, names, line, p + 1, k + 1), k, bound);
    case Index(_, _) => IndexFine(e, names, line, p, k, bound);
  }

  lemma {:induction false} BinaryFine(e: Expr, names: seq<string>, line: nat, p: nat, k: nat, bound: nat)
    requires e.Binary? && |names| <= bound
    ensures AllFine(GenExpr(e, names, line, p, k), k, bound)
    decreases e, 0
  {
    hide AllFine, GenExpr, Cat;
    Discipline.UnfoldBinary(e, names, line, p, k);
    var l := GenExpr(e.left, names, line, p, k);
    ExprFine(e.left, names, line, p, k, bound);
    if e.op.And? || e.op.Or? {
      var r := GenExpr(e.right, names, line, p + |l.code| + 2, k + |l.consts|);
      var end := p + |l.code| + 2 + |r.code|;
      var test := One(if e.op.And? then JumpIfFalseKeep(end) else JumpIfTrueKeep(end), line);
      ExprFine(e.right, names, line, p + |l.code| + 2, k + |l.consts|, bound);
      FineOne(test.code[0].op, line, k + |l.consts|, bound);
      FineOne(Pop, line, k + |l.consts|, bound);
      FineCat(test, One(Pop, line), k + |l.consts|, bound);
      FineCat(l, Cat(test, One(Pop, line)), k, bound);
      CatSize(test, One(Pop, line));
      CatSize(l, Cat(test, One(Pop, line)));
      FineCat(Cat(l, Cat(test, One(Pop, line))), r, k, bound);
    } else {
      var r := GenExpr(e.right, names, line, p + |l.code|, k + |l.consts|);
      ExprFine(e.right, names, line, p + |l.code|, k + |l.consts|, bound);
      FineCat(l, r, k, bound);
      CatSize(l, r);
      FineOne(BinaryOpCode(e.op), line, k + |l.consts| + |r.consts|, bound);
      FineCat(Cat(l, r), One(BinaryOpCode(e.op), line), k, bound);
    }
  }

  lemma {:induction false} ArgsFine(es: seq<Expr>, names: seq<string>, line: nat, p: nat, k: nat, bound: nat)
    requires |names| <= bound
    ensures AllFine(GenArgs(es, names, line, p, k), k, bound)
    decreases es, 0
  {
    hide GenExpr;
    if es != [] {
      var f := GenExpr(es[0], names, line, p, k);
      ExprFine(es[0], names, line, p, k, bound);
      ArgsFine(es[1..], names, line, p + |f.code|, k + |f.consts|, bound);
      FineCat(f, GenArgs(es[1..], names, line, p + |f.code|, k + |f.consts|), k, bound);
    }
  }

  lemma {:induction false} ElementsFine(es: seq<Expr>, names: seq<string>, line: nat, p: nat, k: nat, bound: nat)
    requires |names| <= bound
    ensures AllFine(GenElements(es, names, line, p, k), k, bound)
    decreases es, 0
  {
    hide GenExpr, AllFine;
    if es == [] {
      NothingFine(k, bound);
    } else {
      var f := GenExpr(es[0], names, line, p, k);
      var first := Cat(f, One(ListPush, line));
      ExprFine(es[0], names, line, p, k, bound);
      FineOne(ListPush, line, k + |f.consts|, bound);
      FineCat(f, One(ListPush, line), k, bound);
      ElementsFine(es[1..], names, line, p + |first.code|, k + |first.consts|, bound);
      FineCat(first, GenElements(es[1..], names, line, p + |first.code|, k + |first.consts|), k, bound);
    }
  }

  lemma {:induction false} IndexFine(e: Expr, names: seq<string>, line: nat, p: nat, k: nat, bound: nat)
    requires e.Index? && |names| <= bound
    ensures AllFine(GenExpr(e, names, line, p, k), k, bound)
    decreases e, 0
  {
    hide AllFine, GenExpr, Cat;
    Discipline.UnfoldIndex(e, names, line, p, k);
    if e.base.Ident? && IsSideEffectFree(e.index) && Resolve(names, e.base.name).Some? {
      var op := IndexLocal(Resolve(names, e.base.name).value);
      var i := GenExpr(e.index, names, line, p, k);
      ExprFine(e.index, names, line, p, k, bound);
      FineOne(op, line, k + |i.consts|, bound);
      FineCat(i, One(op, line), k, bound);
    } else {
      var b := GenExpr(e.base, names, line, p, k);
      var i := GenExpr(e.index, names, line, p + |b.code|, k + |b.consts|);
      ExprFine(e.base, names, line, p, k, bound);
      ExprFine(e.index, names, line, p + |b.code|, k + |b.consts|, bound);
      FineCat(b, i, k, bound);
      CatSize(b, i);
      FineOne(OpCode.Index, line, k + |b.consts| + |i.consts|, bound);
      FineCat(Cat(b, i), One(OpCode.Index, line), k, bound);
    }
  }

  lemma {:induction false} StmtFine(s: Stmt, names: seq<string>, top: bool, lp: Option<LoopInfo>, p: nat, k: nat, bound: nat)
    requires Compilable(s, lp.Some?) && LoopFits(lp, names) && Peak(s, |names|) <= bound
    ensures AllFine(GenStmt(s, names, top, lp, p, k), k, bound)
    decreases s, 2
  {
    hide AllFine, GenExpr, GenIf, GenWhile, GenFor, GenTry, GenIndexAssign, Unwind;
    match s
    case If(_, _, _, _) => IfFine(s, names, lp, p, k, bound);
    case While(_, _, _) => WhileFine(s, names, p, k, bound);
    case For(_, _, _, _) => ForFine(s, names, p, k, bound);
    case TryCatch(_, _, _, _) => TryFine(s, names, lp, p, k, bound);
    case _ => PlainFine(s, names, top, lp, p, k, bound);
  }

  lemma PlainFine(s: Stmt, names: seq<string>, top: bool, lp: Option<LoopInfo>, p: nat, k: nat, bound: nat)
    requires !s.If? && !s.While? && !s.For? && !s.TryCatch?
    requires Compilable(s, lp.Some?) && LoopFits(lp, names) && Peak(s, |names|) <= bound
    ensures AllFine(GenStmt(s, names, top, lp, p, k), k, bound)
  {
    hide GenExpr, Unwind, GenIndexAssign;
    match s
    case Let(name, value, line) =>
      var v := GenExpr(value, names, line, p, k);
      ExprFine(value, names, line, p, k, bound);
      FineCat(v, One(RegisterGlobal(name, |names|), line), k, bound);
    case Assign(name, value, line) =>
      var v := GenExpr(value, names, line, p, k);
      var store := match Resolve(names, name) case Some(slot) => SetLocal(slot) case None => SetGlobal(name);
      ExprFine(value, names, line, p, k, bound);
      FineCat(One(store, line), One(Pop, line), k + |v.consts|, bound);
      FineCat(v, Cat(One(store, line), One(Pop, line)), k, bound);
    case IndexAssign(name, index, value, line) => IndexAssignFine(name, index, value, line, names, p, k, bound);
    case ExprStmt(expr, line) =>
      ExprFine(expr, names, line, p, k, bound);
      FineCat(GenExpr(expr, names, line, p, k), One(Pop, line), k, bound);
    case Return(value, line) =>
      ExprFine(value, names, line, p, k, bound);
      FineCat(GenExpr(value, names, line, p, k), One(ReturnValue, line), k, bound);
    case Break(line) =>
      UnwindFine(names, lp.value, line, k, bound);
      var u := Unwind(names, lp.value, line);
      FineCat(u, Frag([Instr(Jump(0), line)], [], [p + |u.code|], []), k, bound);
    case Continue(line) =>
      UnwindFine(names, lp.value, line, k, bound);
      var u := Unwind(names, lp.value, line);
      FineCat(u, One(Loop(lp.value.contTarget), lp.value.line), k, bound);
      FineCat(u, Frag([Instr(Jump(0), line)], [], [], [p + |u.code|]), k, bound);
  }

  lemma UnwindFine(names: seq<string>, lp: LoopInfo, line: nat, k: nat, bound: nat)
    requires lp.localsCount <= |names|
    ensures AllFine(Unwind(names, lp, line), k, bound)
  {
    FineCat(Teardowns(lp.tryDepth, line), PopSlots(|names| - lp.localsCount, line), k, bound);
  }

  lemma IndexAssignFine(name: string, index: Expr, value: Expr, line: nat, names: seq<string>, p: nat, k: nat, bound: nat)
    requires |names| <= bound
    ensures AllFine(GenIndexAssign(name, index, value, line, names, p, k), k, bound)
  {
    hide GenExpr;
    var dest := Target(name, names);
    var check := if dest.GlobalTarget? then One(RequireGlobal(name), line) else EMPTY;
    var i := GenExpr(index, names, line, p + |check.code|, k);
    var v := GenExpr(value, names, line, p + |check.code| + |i.code|, k + |i.consts|);
    ExprFine(index, names, line, p + |check.code|, k, bound);
    ExprFine(value, names, line, p + |check.code| + |i.code|, k + |i.consts|, bound);
    FineCat(check, i, k, bound);
    FineCat(Cat(check, i), v, k, bound);
    FineOne(SetIndex(dest), line, k + |i.consts| + |v.consts|, bound);
    FineCat(Cat(Cat(check, i), v), One(SetIndex(dest), line), k, bound);
  }

  lemma {:induction false} BlockFine(ss: seq<Stmt>, names: seq<string>, top: bool, lp: Option<LoopInfo>, p: nat, k: nat, bound: nat)
    requires CompilableAll(ss, lp.Some?) && LoopFits(lp, names) && PeakIn(ss, |names|) <= bound
    ensures AllFine(GenBlock(ss, names, top, lp, p, k), k, bound)
    decreases ss, 0
  {
    hide GenStmt, AllFine, Peak, Cat;
    if ss == [] {
      NothingFine(k, bound);
    } else {
      var f := GenStmt(ss[0], names, top, lp, p, k);
      StmtFine(ss[0], names, top, lp, p, k, bound);
      BlockFine(ss[1..], NamesAfterStmt(ss[0], names), top, lp, p + |f.code|, k + |f.consts|, bound);
      FineCat(f, GenBlock(ss[1..], NamesAfterStmt(ss[0], names), top, lp, p + |f.code|, k + |f.consts|), k, bound);
    }
  }

  lemma NothingFine(k: nat, bound: nat)
    ensures AllFine(EMPTY, k, bound)
  {
  }

  lemma {:induction false} ScopedFine(ss: seq<Stmt>, names: seq<string>, keep: nat, lp: Option<LoopInfo>, line: nat, p: nat, k: nat, bound: nat)
    requires CompilableAll(ss, lp.Some?) && LoopFits(lp, names) && keep <= |names| && PeakIn(ss, |names|) <= bound
    ensures AllFine(GenScoped(ss, names, keep, lp, line, p, k), k, bound)
    decreases ss, 1
  {
    hide GenBlock, PeakIn;
    BlockFine(ss, names, false, lp, p, k, bound);
    FineCat(GenBlock(ss, names, false, lp, p, k), PopSlots(|NamesAfter(ss, names)| - keep, line), k, bound);
  }

  lemma {:induction false} IfFine(s: Stmt, names: seq<string>, lp: Option<LoopInfo>, p: nat, k: nat, bound: nat)
    requires s.If? && Compilable(s, lp.Some?) && LoopFits(lp, names) && Peak(s, |names|) <= bound
    ensures AllFine(GenIf(s, names, lp, p, k), k, bound)
    decreases s, 1
  {
    hide GenExpr, GenScoped, PeakIn, AllFine;
    var c := GenExpr(s.cond, names, s.line, p, k);
    var t := GenScoped(s.thenBody, names, |names|, lp, s.line, p + |c.code| + 1, k + |c.consts|);
    var afterThen := p + |c.code| + 1 + |t.code|;
    ExprFine(s.cond, names, s.line, p, k, bound);
    ScopedFine(s.thenBody, names, |names|, lp, s.line, p + |c.code| + 1, k + |c.consts|, bound);
    var to := if s.elseBody == [] then afterThen else afterThen + 1;
    FineOne(JumpIfFalse(to), s.line, k + |c.consts|, bound);
    FineCat(c, One(JumpIfFalse(to), s.line), k, bound);
    FineCat(Cat(c, One(JumpIfFalse(to), s.line)), t, k, bound);
    if s.elseBody != [] {
      var j := k + |c.consts| + |t.consts|;
      var e := GenScoped(s.elseBody, names, |names|, lp, s.line, afterThen + 1, j);
      var over := One(Jump(afterThen + 1 + |e.code|), s.line);
      ScopedFine(s.elseBody, names, |names|, lp, s.line, afterThen + 1, j, bound);
      FineOne(Jump(afterThen + 1 + |e.code|), s.line, j, bound);
      FineCat(over, e, j, bound);
      FineCat(Cat(Cat(c, One(JumpIfFalse(to), s.line)), t), Cat(over, e), k, bound);
    }
  }

  lemma {:induction false} WhileFine(s: Stmt, names: seq<string>, p: nat, k: nat, bound: nat)
    requires s.While? && Compilable(s, true) && Peak(s, |names|) <= bound
    ensures AllFine(GenWhile(s, names, p, k), k, bound)
    decreases s, 1
  {
    hide GenExpr, GenScoped, PeakIn, AllFine, Closed;
    var c := GenExpr(s.cond, names, s.line, p, k);
    var at := p + |c.code| + 1;
    var lp := Some(WhileInfo(s, names, p));
    var b := GenScoped(s.body, names, |names|, lp, s.line, at, k + |c.consts|);
    var exit := at + |b.code| + 1;
    ExprFine(s.cond, names, s.line, p, k, bound);
    ScopedFine(s.body, names, |names|, lp, s.line, at, k + |c.consts|, bound);
    FineClosed(b, at, exit, p, k + |c.consts|, bound);
    Discipline.ClosedSites(b, at, exit, p);
    FineOne(JumpIfFalse(exit), s.line, k + |c.consts|, bound);
    FineCat(c, One(JumpIfFalse(exit), s.line), k, bound);
    FineCat(Cat(c, One(JumpIfFalse(exit), s.line)), Closed(b, at, exit, p), k, bound);
    FineOne(Loop(p), s.line, k + |c.consts| + |b.consts|, bound);
    FineCat(Cat(Cat(c, One(JumpIfFalse(exit), s.line)), Closed(b, at, exit, p)), One(Loop(p), s.line), k, bound);
  }

  lemma {:induction false} ForFine(s: Stmt, names: seq<string>, p: nat, k: nat, bound: nat)
    requires s.For? && Compilable(s, true) && Peak(s, |names|) <= bound
    ensures AllFine(GenFor(s, names, p, k), k, bound)
    decreases s, 1
  {
    hide GenExpr, PeakIn, AllFine, ForEnter, Discipline.Rounds, Cat, GenFor;
    Discipline.UnfoldFor(s, names, p, k);
    var n := |names|;
    var it := GenExpr(s.iter, names, s.line, p, k);
    var j := k + |it.consts|;
    ExprFine(s.iter, names, s.line, p, k, bound);
    ForPartsFine(n, 0, 0, s.line, j, bound);
    Discipline.ForSizes(n, 0, 0, s.line, j);
    FineCat(it, ForEnter(n, s.line, j), k, bound);
    CatSize(it, ForEnter(n, s.line, j));
    var entry := Cat(it, ForEnter(n, s.line, j));
    var rounds := Discipline.Rounds(s, names, p + |it.code| + 3, j + 2);
    RoundsFine(s, names, p + |it.code| + 3, j + 2, bound);
    FineCat(entry, rounds, k, bound);
    CatSize(entry, rounds);
    FineOne(PopN(3), s.line, k + |Cat(entry, rounds).consts|, bound);
    FineCat(Cat(entry, rounds), One(PopN(3), s.line), k, bound);
  }

  lemma ForPartsFine(n: nat, exit: nat, start: nat, line: nat, k: nat, bound: nat)
    requires n + 3 <= bound
    ensures AllFine(ForEnter(n, line, k), k, bound)
    ensures AllFine(ForTest(n, exit, line), k, bound)
    ensures AllFine(ForNext(n, start, line, k), k, bound)
  {
    FineCat(One(ToIterList, line), Const(VInt(0), line, k), k, bound);
    FineCat(Cat(One(ToIterList, line), Const(VInt(0), line, k)), Const(VNull, line, k + 1), k, bound);
  }

  lemma {:induction false} RoundsFine(s: Stmt, names: seq<string>, start: nat, k: nat, bound: nat)
    requires s.For? && Compilable(s, true) && PeakIn(s.body, |names| + 3) <= bound && |names| + 3 <= bound
    ensures AllFine(Discipline.Rounds(s, names, start, k), k, bound)
    decreases s, 0
  {
    hide GenScoped, PeakIn, AllFine, Closed, ForTest, ForNext;
    var n, lp := |names|, Some(ForInfo(s, names));
    var b := GenScoped(s.body, ForNames(s, names), n + 3, lp, s.line, start + 7, k);
    var inc := start + 7 + |b.code|;
    ScopedFine(s.body, ForNames(s, names), n + 3, lp, s.line, start + 7, k, bound);
    FineClosed(b, start + 7, inc + 6, inc, k, bound);
    Discipline.ClosedSites(b, start + 7, inc + 6, inc);
    ForPartsFine(n, inc + 6, start, s.line, k, bound);
    ForPartsFine(n, inc + 6, start, s.line, k + |b.consts|, bound);
    Discipline.ForSizes(n, inc + 6, start, s.line, k);
    var body, next := Closed(b, start + 7, inc + 6, inc), ForNext(n, start, s.line, k + |b.consts|);
    FineCat(body, next, k, bound);
    FineCat(ForTest(n, inc + 6, s.line), Cat(body, next), k, bound);
  }

  lemma {:induction false} TryFine(s: Stmt, names: seq<string>, lp: Option<LoopInfo>, p: nat, k: nat, bound: nat)
    requires s.TryCatch? && Compilable(s, lp.Some?) && LoopFits(lp, names) && Peak(s, |names|) <= bound
    ensures AllFine(GenTry(s, names, lp, p, k), k, bound)
    decreases s, 1
  {
    hide GenScoped, PeakIn, AllFine, GenExpr, SitesIn;
    var t := GenScoped(s.tryBody, names, |names|, DeeperTry(lp), s.line, p + 1, k);
    var catchAt := p + 1 + |t.code| + 2;
    var j := k + |t.consts|;
    var c := GenScoped(s.catchBody, names + [s.binder], |names|, lp, s.line, catchAt, j);
    ScopedFine(s.tryBody, names, |names|, DeeperTry(lp), s.line, p + 1, k, bound);
    ScopedFine(s.catchBody, names + [s.binder], |names|, lp, s.line, catchAt, j, bound);
    var setup, down, over := One(SetupTry(catchAt), s.line), One(TeardownTry, s.line), One(Jump(catchAt + |c.code|), s.line);
    FineOne(SetupTry(catchAt), s.line, k, bound);
    FineOne(TeardownTry, s.line, j, bound);
    FineOne(Jump(catchAt + |c.code|), s.line, j, bound);
    FineCat(setup, t, k, bound);
    FineCat(down, over, j, bound);
    FineCat(Cat(setup, t), Cat(down, over), k, bound);
    FineCat(Cat(Cat(setup, t), Cat(down, over)), c, k, bound);
  }
}

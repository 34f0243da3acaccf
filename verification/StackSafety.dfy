/** Every run of a compiled program, of any length, keeps the stack and handler discipline, and the compiled
    chunk passes the verifier that the compiler skips. */
module StackSafety {
  import opened Lang
  import opened Slots
  import opened Machine
  import opened CodeGen
  import opened Discipline
  import opened Emission
  import opened Chunks
  import P = Preservation
  import opened Verifier

  /** A program with one shape for each position. */
  ghost predicate Disciplined(prog: Program, shapes: seq<Shape>) {
    && |shapes| == |prog.code| + 1
    && shapes[0] == Shape(0, [])
    && (forall i :: 0 <= i < |prog.code| ==> Flows(prog.code[i].op, i, shapes[i], Pairs(0, shapes)))
    && (forall i :: 0 <= i < |prog.code| && prog.code[i].op.LoadConst? ==> prog.code[i].op.index < |prog.constants|)
  }

  /** The machine is in the shape of the position it stands at. */
  predicate Follows(vm: Vm, shapes: seq<Shape>) {
    vm.ip < |shapes| && shapes[vm.ip] == Shape(|vm.stack|, vm.handlers)
  }

  lemma InShape(t: nat, sh: Shape, shapes: seq<Shape>)
    requires (t, sh) in Pairs(0, shapes)
    ensures t < |shapes| && shapes[t] == sh
  {
  }

  // ----- One instruction -----

  /** What a dispatched instruction owes the shapes. */
  ghost predicate Owes(op: OpCode, ip: nat, sh: Shape, world: World, d: Dispatched) {
    match d
    case Next(vm) => (vm.ip, Shape(|vm.stack|, vm.handlers)) in world
    case Done(_) => true
    case Fails(cause, vm) =>
      vm.handlers == sh.handlers && (IsUncatchable(cause) || (CanRaise(op) && |vm.stack| + Pops(op) >= sh.height))
  }

  lemma DispatchOwes(host: Host, prog: Program, instr: Instr, vm: Vm, sh: Shape, world: World)
    requires vm.ip > 0 && sh == Shape(|vm.stack|, vm.handlers)
    requires Flows(instr.op, vm.ip - 1, sh, world)
    requires instr.op.LoadConst? ==> instr.op.index < |prog.constants|
    ensures Owes(instr.op, vm.ip - 1, sh, world, Dispatch(host, prog, instr, vm))
  {
    var op := instr.op;
    if op.Jump? || op.JumpIfFalse? || op.JumpIfFalseKeep? || op.JumpIfTrueKeep? || op.Loop? {
      JumpOwes(op, vm, sh, world);
    } else if op.GetGlobal? || op.SetGlobal? || op.RegisterGlobal? || op.RequireGlobal? {
      GlobalOwes(op, vm, sh, world);
    } else if op.LenLocal? || op.Index? || op.IndexLocal? || op.ListPush? || op.SetIndex? || op.ToIterList? {
      CollectionOwes(host, op, instr.line, vm, sh, world);
    } else if IsBinary(op) {
      BinaryOwes(host, prog, instr, vm, sh, world);
    } else if op.SetupTry? || op.TeardownTry? || op.Return? || op.ReturnValue? {
      HandlerOwes(host, prog, instr, vm, sh, world);
    } else {
      PlainOwes(host, prog, op, instr.line, vm, sh, world);
    }
  }

  lemma JumpOwes(op: OpCode, vm: Vm, sh: Shape, world: World)
    requires op.Jump? || op.JumpIfFalse? || op.JumpIfFalseKeep? || op.JumpIfTrueKeep? || op.Loop?
    requires vm.ip > 0 && sh == Shape(|vm.stack|, vm.handlers) && Flows(op, vm.ip - 1, sh, world)
    ensures Owes(op, vm.ip - 1, sh, world, DispatchJump(op, vm))
  {
  }

  lemma GlobalOwes(op: OpCode, vm: Vm, sh: Shape, world: World)
    requires op.GetGlobal? || op.SetGlobal? || op.RegisterGlobal? || op.RequireGlobal?
    requires vm.ip > 0 && sh == Shape(|vm.stack|, vm.handlers) && Flows(op, vm.ip - 1, sh, world)
    ensures Owes(op, vm.ip - 1, sh, world, DispatchGlobal(op, vm))
  {
  }

  lemma CollectionOwes(host: Host, op: OpCode, line: nat, vm: Vm, sh: Shape, world: World)
    requires op.LenLocal? || op.Index? || op.IndexLocal? || op.ListPush? || op.SetIndex? || op.ToIterList?
    requires vm.ip > 0 && sh == Shape(|vm.stack|, vm.handlers) && Flows(op, vm.ip - 1, sh, world)
    ensures Owes(op, vm.ip - 1, sh, world, DispatchCollection(host, op, line, vm))
  {
    hide Owes;
    if op.Index? || op.SetIndex? || op.ToIterList? {
      ElementOwes(host, op, line, vm, sh, world);
    } else {
      LocalOwes(host, op, line, vm, sh, world);
    }
  }

  lemma ElementOwes(host: Host, op: OpCode, line: nat, vm: Vm, sh: Shape, world: World)
    requires op.Index? || op.SetIndex? || op.ToIterList?
    requires vm.ip > 0 && sh == Shape(|vm.stack|, vm.handlers) && Flows(op, vm.ip - 1, sh, world)
    ensures Owes(op, vm.ip - 1, sh, world, DispatchCollection(host, op, line, vm))
  {
    hide EvalIndex, AssignIndex, AppendElement, IterItems, Len;
  }

  lemma LocalOwes(host: Host, op: OpCode, line: nat, vm: Vm, sh: Shape, world: World)
    requires op.LenLocal? || op.IndexLocal? || op.ListPush?
    requires vm.ip > 0 && sh == Shape(|vm.stack|, vm.handlers) && Flows(op, vm.ip - 1, sh, world)
    ensures Owes(op, vm.ip - 1, sh, world, DispatchCollection(host, op, line, vm))
  {
    hide EvalIndex, AssignIndex, AppendElement, IterItems, Len, DispatchSetIndex;
  }

  lemma BinaryOwes(host: Host, prog: Program, instr: Instr, vm: Vm, sh: Shape, world: World)
    requires IsBinary(instr.op)
    requires vm.ip > 0 && sh == Shape(|vm.stack|, vm.handlers) && Flows(instr.op, vm.ip - 1, sh, world)
    ensures Owes(instr.op, vm.ip - 1, sh, world, Dispatch(host, prog, instr, vm))
  {
    hide ApplyBinary, DispatchPlain, DispatchCollection, DispatchGlobal, DispatchJump;
  }

  lemma HandlerOwes(host: Host, prog: Program, instr: Instr, vm: Vm, sh: Shape, world: World)
    requires instr.op.SetupTry? || instr.op.TeardownTry? || instr.op.Return? || instr.op.ReturnValue?
    requires vm.ip > 0 && sh == Shape(|vm.stack|, vm.handlers) && Flows(instr.op, vm.ip - 1, sh, world)
    ensures Owes(instr.op, vm.ip - 1, sh, world, Dispatch(host, prog, instr, vm))
  {
    hide DispatchPlain, DispatchCollection, DispatchGlobal, DispatchJump;
  }

  lemma PlainOwes(host: Host, prog: Program, op: OpCode, line: nat, vm: Vm, sh: Shape, world: World)
    requires op.LoadConst? || op.Not? || op.Negate? || op.GetLocal? || op.SetLocal? || op.Print? || op.Pop? || op.PopN?
    requires vm.ip > 0 && sh == Shape(|vm.stack|, vm.handlers) && Flows(op, vm.ip - 1, sh, world)
    requires op.LoadConst? ==> op.index < |prog.constants|
    ensures Owes(op, vm.ip - 1, sh, world, DispatchPlain(host, prog, op, line, vm))
  {
    hide Negated, Lang.Joined;
  }

  // ----- Runs -----

  lemma StepFollows(host: Host, prog: Program, shapes: seq<Shape>, vm: Vm)
    requires Disciplined(prog, shapes) && Follows(vm, shapes)
    ensures var c := Step(host, prog, Running(vm)); c.Running? ==> Follows(c.vm, shapes)
  {
    hide Dispatch, Flows, Pairs;
    if vm.ip < |prog.code| {
      var instr, sh, world := prog.code[vm.ip], shapes[vm.ip], Pairs(0, shapes);
      var vm1 := vm.(ip := vm.ip + 1);
      DispatchOwes(host, prog, instr, vm1, sh, world);
      match Dispatch(host, prog, instr, vm1)
      case Next(vm2) => InShape(vm2.ip, Shape(|vm2.stack|, vm2.handlers), shapes);
      case Done(_) =>
      case Fails(cause, vm2) =>
        if !IsUncatchable(cause) && vm2.handlers != [] {
          CatchFollows(instr.op, vm.ip, sh, world);
          var h := sh.handlers[|sh.handlers| - 1];
          InShape(h.catchIp, Shape(h.stackDepth + 1, sh.handlers[..|sh.handlers| - 1]), shapes);
        }
    }
  }

  lemma CatchFollows(op: OpCode, ip: nat, sh: Shape, world: World)
    requires Flows(op, ip, sh, world) && CanRaise(op)
    ensures Catches(sh.handlers, sh.height - Pops(op), world)
  {
  }

  lemma {:induction false} RunFollows(host: Host, prog: Program, shapes: seq<Shape>, c: Config, n: nat)
    requires Disciplined(prog, shapes) && (c.Running? ==> Follows(c.vm, shapes))
    ensures var r := Steps(host, prog, c, n); r.Running? ==> Follows(r.vm, shapes)
    decreases n
  {
    hide Step, Disciplined;
    if n > 0 {
      if c.Running? {
        StepFollows(host, prog, shapes, c.vm);
      } else {
        StoppedStays(host, prog, c);
      }
      RunFollows(host, prog, shapes, Step(host, prog, c), n - 1);
    }
  }

  lemma StoppedStays(host: Host, prog: Program, c: Config)
    requires !c.Running?
    ensures Step(host, prog, c) == c
  {
  }

  // ----- Compiled programs -----

  /** The top level of a program: no slots, no handlers, no loop. */
  lemma TopSpans(program: seq<Stmt>) returns (shapes: seq<Shape>)
    requires CompilableAll(program, false)
    ensures Spans(GenProgram(program), 0, shapes, Shape(0, []), Shape(|NamesAfter(program, [])|, []), {}, None)
  {
    hide Spans, GenBlock, Flows;
    var end := Shape(|NamesAfter(program, [])|, []);
    var body := GenBlock(program, [], true, None, 0, 0);
    var a := BlockSpans(program, [], true, None, 0, 0, [], {});
    var b := SpansPlain(OpCode.Return, 0, |body.code|, end, {}, None);
    shapes := SpansCat(body, One(OpCode.Return, 0), 0, a, b, Shape(0, []), end, end, {}, None);
  }

  lemma ProgramFine(program: seq<Stmt>)
    requires CompilableAll(program, false)
    ensures AllFine(GenProgram(program), 0, PeakIn(program, 0))
  {
    hide AllFine, GenBlock, PeakIn;
    var body := GenBlock(program, [], true, None, 0, 0);
    BlockFine(program, [], true, None, 0, 0, PeakIn(program, 0));
    FineOne(OpCode.Return, 0, |body.consts|, PeakIn(program, 0));
    FineCat(body, One(OpCode.Return, 0), 0, PeakIn(program, 0));
  }

  /** Shapes of a site-free fragment at the start of the code are shapes of the program. */
  lemma SpansDisciplined(f: Frag, shapes: seq<Shape>, end: Shape, fuel: nat, bound: nat)
    requires Spans(f, 0, shapes, Shape(0, []), end, {}, None) && NoSites(f) && AllFine(f, 0, bound)
    ensures Disciplined(Program(f.code, f.consts, fuel), shapes)
  {
    hide Flows;
    forall i | 0 <= i < |f.code|
      ensures Flows(f.code[i].op, i, shapes[i], Pairs(0, shapes))
    {
      assert Placed(f, 0, shapes, Pairs(0, shapes) + {}, None, i);
      assert Pairs(0, shapes) + {} == Pairs(0, shapes);
    }
    forall i | 0 <= i < |f.code| && f.code[i].op.LoadConst?
      ensures f.code[i].op.index < |f.consts|
    {
      assert Fine(f.code[i].op, 0 + |f.consts|, bound);
    }
  }

  lemma StartFollows(shapes: seq<Shape>, fuel: nat)
    requires shapes != [] && shapes[0] == Shape(0, [])
    ensures Follows(Start(fuel).vm, shapes)
  {
  }

  /** However and how long a compiled program runs: whenever the machine stands at an instruction, the stack
      has the same height and the same handlers are active. */
  lemma OneShapePerInstruction(
    program: seq<Stmt>, host1: Host, fuel1: nat, n1: nat, host2: Host, fuel2: nat, n2: nat)
    requires CompilableAll(program, false)
    ensures var c1 := Steps(host1, P.Compiled(program, fuel1), Start(fuel1), n1);
            var c2 := Steps(host2, P.Compiled(program, fuel2), Start(fuel2), n2);
            c1.Running? && c2.Running? && c1.vm.ip == c2.vm.ip ==>
              |c1.vm.stack| == |c2.vm.stack| && c1.vm.handlers == c2.vm.handlers
  {
    hide Spans, AllFine, Steps, Disciplined, GenProgram, Start;
    var shapes := TopSpans(program);
    ProgramFine(program);
    ProgramShapes(program, shapes, fuel1);
    ProgramShapes(program, shapes, fuel2);
    RunFollows(host1, P.Compiled(program, fuel1), shapes, Start(fuel1), n1);
    RunFollows(host2, P.Compiled(program, fuel2), shapes, Start(fuel2), n2);
  }

  lemma ProgramShapes(program: seq<Stmt>, shapes: seq<Shape>, fuel: nat)
    requires CompilableAll(program, false) && AllFine(GenProgram(program), 0, PeakIn(program, 0))
    requires Spans(GenProgram(program), 0, shapes, Shape(0, []), Shape(|NamesAfter(program, [])|, []), {}, None)
    ensures Disciplined(P.Compiled(program, fuel), shapes)
    ensures Start(fuel).Running? && Follows(Start(fuel).vm, shapes)
  {
    hide Flows, GenBlock, PeakIn;
    SpansDisciplined(GenProgram(program), shapes, Shape(|NamesAfter(program, [])|, []), fuel, PeakIn(program, 0));
    StartFollows(shapes, fuel);
  }

  lemma SplitSpans(pre: seq<Stmt>, post: seq<Stmt>) returns (shapes: seq<Shape>)
    requires CompilableAll(pre + post, false) && CompilableAll(pre, false) && CompilableAll(post, false)
    ensures Spans(GenProgram(pre + post), 0, shapes, Shape(0, []), Shape(|NamesAfter(pre + post, [])|, []), {}, None)
    ensures (|GenBlock(pre, [], true, None, 0, 0).code|, Shape(|NamesAfter(pre, [])|, [])) in Pairs(0, shapes)
  {
    hide Spans, GenBlock, Flows, Pairs, CompilableAll;
    var names := NamesAfter(pre, []);
    BlockSplit(pre, post, [], true, 0, 0);
    var a, b := GenBlock(pre, [], true, None, 0, 0), Rest(pre, post);
    var mid, end := Shape(|names|, []), Shape(|NamesAfter(post, names)|, []);
    var sa := BlockSpans(pre, [], true, None, 0, 0, [], {});
    var sb := BlockSpans(post, names, true, None, |a.code|, |a.consts|, [], {});
    var sr := SpansPlain(OpCode.Return, 0, |a.code| + |b.code|, end, {}, None);
    var s1 := SpansCat(b, One(OpCode.Return, 0), |a.code|, sb, sr, mid, end, end, {}, None);
    SpansLength(Cat(b, One(OpCode.Return, 0)), |a.code|, s1, mid, end, {}, None);
    shapes := SpansCat(a, Cat(b, One(OpCode.Return, 0)), 0, sa, s1, Shape(0, []), mid, end, {}, None);
    CatAssoc(a, b, One(OpCode.Return, 0));
  }

  /** Between two top-level statements the stack holds the locals declared so far and nothing else, and no
      handler is active, in every run that gets there. */
  lemma BoundaryHeight(pre: seq<Stmt>, post: seq<Stmt>, host: Host, fuel: nat, n: nat)
    requires CompilableAll(pre + post, false) && CompilableAll(pre, false)
    ensures var c := Steps(host, P.Compiled(pre + post, fuel), Start(fuel), n);
            c.Running? && c.vm.ip == |GenBlock(pre, [], true, None, 0, 0).code| ==>
              |c.vm.stack| == |NamesAfter(pre, [])| && c.vm.handlers == []
  {
    hide Spans, AllFine, Steps, Disciplined, GenBlock, GenProgram, Start, Flows, Pairs, CompilableAll;
    CompilableSplit(pre, post);
    var shapes := SplitSpans(pre, post);
    ProgramFine(pre + post);
    ProgramShapes(pre + post, shapes, fuel);
    RunFollows(host, P.Compiled(pre + post, fuel), shapes, Start(fuel), n);
    InShape(|GenBlock(pre, [], true, None, 0, 0).code|, Shape(|NamesAfter(pre, [])|, []), shapes);
  }

  /** The code of what follows some statements at top level. */
  function Rest(pre: seq<Stmt>, post: seq<Stmt>): (f: Frag)
    requires CompilableAll(pre, false) && CompilableAll(post, false)
    ensures NoSites(f)
  {
    var a := GenBlock(pre, [], true, None, 0, 0);
    GenBlock(post, NamesAfter(pre, []), true, None, |a.code|, |a.consts|)
  }

  lemma {:induction false} CompilableSplit(pre: seq<Stmt>, post: seq<Stmt>)
    requires CompilableAll(pre + post, false)
    ensures CompilableAll(pre, false) && CompilableAll(post, false)
    decreases |pre|
  {
    hide Compilable;
    if pre == [] {
      assert pre + post == post;
    } else {
      assert (pre + post)[1..] == pre[1..] + post && (pre + post)[0] == pre[0];
      CompilableSplit(pre[1..], post);
    }
  }

  lemma BlockFirst(ss: seq<Stmt>, names: seq<string>, top: bool, p: nat, k: nat)
    requires ss != [] && CompilableAll(ss, false)
    ensures var f := GenStmt(ss[0], names, top, None, p, k);
            && NamesAfter(ss, names) == NamesAfter(ss[1..], NamesAfterStmt(ss[0], names))
            && GenBlock(ss, names, top, None, p, k) ==
               Cat(f, GenBlock(ss[1..], NamesAfterStmt(ss[0], names), top, None, p + |f.code|, k + |f.consts|))
  {
    hide GenStmt, Cat;
  }

  lemma {:induction false} BlockSplit(pre: seq<Stmt>, post: seq<Stmt>, names: seq<string>, top: bool, p: nat, k: nat)
    requires CompilableAll(pre + post, false) && CompilableAll(pre, false) && CompilableAll(post, false)
    ensures NamesAfter(pre + post, names) == NamesAfter(post, NamesAfter(pre, names))
    ensures var a := GenBlock(pre, names, top, None, p, k);
            GenBlock(pre + post, names, top, None, p, k) ==
            Cat(a, GenBlock(post, NamesAfter(pre, names), top, None, p + |a.code|, k + |a.consts|))
    decreases |pre|
  {
    hide GenStmt, GenBlock, NamesAfter, Compilable, NamesAfterStmt, Cat;
    if pre == [] {
      assert pre + post == post;
      NothingGenerated(names, top, p, k);
      NothingBefore(GenBlock(post, names, top, None, p, k));
    } else {
      assert (pre + post)[1..] == pre[1..] + post && (pre + post)[0] == pre[0];
      var f := GenStmt(pre[0], names, top, None, p, k);
      var more := NamesAfterStmt(pre[0], names);
      BlockFirst(pre, names, top, p, k);
      BlockFirst(pre + post, names, top, p, k);
      BlockSplit(pre[1..], post, more, top, p + |f.code|, k + |f.consts|);
      var rest := GenBlock(pre[1..], more, top, None, p + |f.code|, k + |f.consts|);
      CatSize(f, rest);
      CatAssoc(f, rest, GenBlock(post, NamesAfter(pre, names), top, None, p + |f.code| + |rest.code|, k + |f.consts| + |rest.consts|));
    }
  }

  lemma NothingGenerated(names: seq<string>, top: bool, p: nat, k: nat)
    ensures GenBlock([], names, top, None, p, k) == EMPTY && NamesAfter([], names) == names
  {
  }

  lemma NothingBefore(f: Frag)
    ensures Cat(EMPTY, f) == f
  {
    assert [] + f.code == f.code && [] + f.consts == f.consts && [] + f.breaks == f.breaks && [] + f.conts == f.conts;
  }

  // ----- The verifier accepts what the compiler emits -----

  lemma NoViolation(f: Frag, shapes: seq<Shape>, end: Shape, i: nat, bound: nat)
    requires Spans(f, 0, shapes, Shape(0, []), end, {}, None) && NoSites(f) && AllFine(f, 0, bound)
    requires i < |f.code|
    ensures Violation(f.code[i].op, |f.code|, |f.consts|, bound).None?
  {
    assert Placed(f, 0, shapes, Pairs(0, shapes) + {}, None, i);
    assert Fine(f.code[i].op, 0 + |f.consts|, bound);
  }

  /** A chunk that holds the generated code passes every check, so trusting it is sound. */
  lemma CompilerOutputPasses(chunk: Chunk, program: seq<Stmt>)
    requires CompilableAll(program, false) && chunk.Valid()
    requires chunk.Instrs() == GenProgram(program).code && chunk.constants == GenProgram(program).consts
    requires chunk.maxLocals == PeakIn(program, 0)
    ensures |chunk.lines| == |chunk.code|
    ensures forall i :: 0 <= i < |chunk.code| ==>
                          Violation(chunk.code[i], |chunk.code|, |chunk.constants|, chunk.maxLocals).None?
  {
    hide Spans, AllFine, Violation, GenProgram, PeakIn;
    var shapes := TopSpans(program);
    ProgramFine(program);
    forall i | 0 <= i < |chunk.code|
      ensures Violation(chunk.code[i], |chunk.code|, |chunk.constants|, chunk.maxLocals).None?
    {
      NoViolation(GenProgram(program), shapes, Shape(|NamesAfter(program, [])|, []), i, PeakIn(program, 0));
      assert chunk.Instrs()[i].op == chunk.code[i];
    }
  }
}

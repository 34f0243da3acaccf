/** `src/compiler.rs`: one pass over the program that appends instructions, keeps the local table and the
    loop states up to date, and patches forward jumps in place. Each method is proved to extend what was
    emitted before by exactly the code generator's fragment, or to report the first misplaced `break` or
    `continue`. */
module Compiling {
  import opened Lang
  import opened Slots
  import opened Machine
  import opened CodeGen
  import opened Chunks
  import opened Emission

  datatype Compilation = Ok | Err(fault: Fault)

  function Verdict(misplaced: Option<Fault>): Compilation {
    match misplaced
    case None => Ok
    case Some(f) => Err(f)
  }

  class Compiler {
    const chunk: Chunk
    var locals: seq<Local>
    var scopeDepth: nat
    var loops: seq<LoopState>
    var maxLocals: nat

    /** What has been emitted so far. */
    function State(): Emitted
      requires chunk.Valid()
      reads this, chunk
    {
      Emitted(chunk.Instrs(), chunk.constants, locals, scopeDepth, loops)
    }

    ghost predicate Valid()
      reads this, chunk
    {
      chunk.Valid() && Sound(State()) && |locals| <= maxLocals
    }

    constructor ()
      ensures Valid() && fresh(chunk)
      ensures State() == Emitted([], [], [], 0, []) && maxLocals == 0
    {
      chunk := new Chunk();
      locals, scopeDepth, loops, maxLocals := [], 0, [], 0;
    }

    // ----- Emitting -----

    method Emit(op: OpCode, line: nat)
      requires Valid()
      modifies chunk
      ensures Valid() && State() == With(old(State()), op, line)
      ensures Innermost(loops) == Innermost(old(loops))
    {
      ExtendSound(State(), One(op, line));
      ExtendPlain(State(), One(op, line));
      chunk.Emit(op, line);
    }

    method EmitConstant(v: Value, line: nat)
      requires Valid()
      modifies chunk
      ensures Valid() && State() == WithConst(old(State()), v, line)
    {
      ExtendSound(State(), Const(v, line, |chunk.constants|));
      ExtendPlain(State(), Const(v, line, |chunk.constants|));
      chunk.EmitConstant(v, line);
    }

    method EmitJump(op: OpCode, line: nat) returns (offset: nat)
      requires Valid()
      modifies chunk
      ensures Valid() && State() == With(old(State()), op, line)
      ensures offset == |old(State()).code|
    {
      ExtendSound(State(), One(op, line));
      ExtendPlain(State(), One(op, line));
      offset := chunk.EmitJump(op, line);
    }

    /** A refused patch would be an internal error of the compiler. */
    method PatchJump(offset: nat) returns (r: Compilation)
      requires Valid()
      modifies chunk
      ensures Valid()
      ensures r.Ok? <==> offset < |old(State()).code| && IsJump(old(State()).code[offset].op)
      ensures r.Err? ==> r == Err(Fault(Internal, 0)) && State() == old(State())
      ensures r.Ok? ==> State() == Aim(old(State()), offset)
    {
      ghost var before := State();
      var patch := chunk.PatchJump(offset);
      match patch
      case Applied =>
        AimSound(before, offset);
        return Ok;
      case Refused(_) =>
        assert chunk.Instrs() == before.code;
        return Err(Fault(Internal, 0));
    }

    // ----- Scopes and locals -----

    method AddLocal(name: string)
      requires Valid()
      modifies this`locals, this`maxLocals
      ensures Valid() && State() == Named(old(State()), name) && maxLocals == Max(old(maxLocals), |locals|)
    {
      NamedSound(State(), name);
      maxLocals := Max(maxLocals, |locals| + 1);
      locals := locals + [Local(name, scopeDepth)];
    }

    method DeclareLocal(name: string, line: nat)
      requires Valid()
      modifies this`locals, this`maxLocals, chunk
      ensures Valid() && maxLocals == Max(old(maxLocals), |locals|)
      ensures State() == if old(scopeDepth) == 0 then With(Named(old(State()), name), RegisterGlobal(name, |old(locals)|), line)
                         else Named(old(State()), name)
    {
      var slot := |locals|;
      var isTop := scopeDepth == 0;
      AddLocal(name);
      if isTop {
        Emit(RegisterGlobal(name, slot), line);
      }
    }

    method ResolveLocal(name: string) returns (r: Option<nat>)
      ensures r == Resolve(Names(locals), name)
    {
      var names := Names(locals);
      assert names[..|names|] == names;
      for i := |locals| downto 0
        invariant Resolve(names[..i], name) == Resolve(names, name)
      {
        if locals[i].name == name {
          return Some(i);
        }
        assert names[..i + 1][..i] == names[..i];
      }
      return None;
    }

    method ResolveMutationTarget(name: string) returns (r: MutationTarget)
      ensures r == Target(name, Names(locals))
    {
      var slot := ResolveLocal(name);
      match slot
      case Some(i) => r := LocalTarget(i);
      case None => r := GlobalTarget(name);
    }

    method BeginScope()
      requires Valid()
      modifies this`scopeDepth
      ensures Valid() && State() == old(State()).(depth := old(scopeDepth) + 1)
    {
      scopeDepth := scopeDepth + 1;
      DepthSound(old(State()), scopeDepth);
    }

    /** Leave a scope: forget the locals deeper than the scope around it, and pop their slots. */
    method EndScope(line: nat)
      requires Valid() && scopeDepth > 0
      requires LoopsWithin(loops, Kept(locals, scopeDepth - 1))
      modifies this`locals, this`scopeDepth, chunk
      ensures Valid()
      ensures var keep := Kept(old(locals), old(scopeDepth) - 1);
              State() == Extend(old(State()), PopSlots(|old(locals)| - keep, line)).(locals := old(locals)[..keep], depth := old(scopeDepth) - 1)
    {
      ghost var before := State();
      scopeDepth := scopeDepth - 1;
      var popCount := 0;
      assert locals[..|locals|] == locals;
      while locals != []
        invariant popCount <= |before.locals| && locals == before.locals[..|before.locals| - popCount]
        invariant Kept(locals, scopeDepth) == Kept(before.locals, scopeDepth)
        modifies this`locals
        decreases |locals|
      {
        if locals[|locals| - 1].depth <= scopeDepth {
          break;
        }
        locals := locals[..|locals| - 1];
        popCount := popCount + 1;
      }
      ghost var keep := Kept(before.locals, scopeDepth);
      assert |locals| == keep;
      LeaveSound(before, scopeDepth);
      assert State() == before.(locals := before.locals[..keep], depth := scopeDepth);
      if popCount > 0 {
        Emit(PopN(popCount), line);
      } else {
        ExtendNothing(before);
      }
    }

    // ----- Expressions -----

    /** The result of an expression ends up on top of the stack. */
    method CompileExpr(e: Expr, line: nat)
      requires Valid()
      modifies chunk
      ensures Valid() && State() == WithExpr(old(State()), e, line)
      decreases e, 1
    {
      match e
      case IntLit(n) => EmitConstant(VInt(n), line);
      case StrLit(s) => EmitConstant(VStr(s), line);
      case BoolLit(b) => EmitConstant(VBool(b), line);
      case NullLit => EmitConstant(VNull, line);
      case Ident(name) => CompileNameRead(name, line);
      case Binary(op, left, right) => CompileBinary(e, line);
      case Unary(uop, operand) =>
        UnaryEmits(State(), e, line);
        CompileExpr(operand, line);
        Emit(if uop.Neg? then Negate else OpCode.Not, line);
      case Print(args) => CompilePrint(e, line);
      case ListLit(items) => CompileList(e, line);
      case Index(base, index) => CompileIndex(e, line);
    }

    method CompileNameRead(name: string, line: nat)
      requires Valid()
      modifies chunk
      ensures Valid() && State() == With(old(State()), NameRead(name, Names(locals)), line)
    {
      var slot := ResolveLocal(name);
      match slot
      case Some(i) => Emit(GetLocal(i), line);
      case None => Emit(GetGlobal(name), line);
    }

    method CompileBinary(e: Expr, line: nat)
      requires Valid() && e.Binary?
      modifies chunk
      ensures Valid() && State() == WithExpr(old(State()), e, line)
      decreases e, 0
    {
      ghost var st := State();
      hide Extend, ExprCode, Listing, Sound, Aim;
      if Shorts(e) {
        ShortCircuitEmits(st, e, line);
        CompileExpr(e.left, line);
        var jump := EmitJump(Test(e, 0), line);
        Emit(Pop, line);
        CompileExpr(e.right, line);
        var patched := PatchJump(jump);
        assert patched.Ok?;
      } else {
        OperatorEmits(st, e, line);
        CompileExpr(e.left, line);
        CompileExpr(e.right, line);
        Emit(BinaryOpCode(e.op), line);
      }
    }

    method CompilePrint(e: Expr, line: nat)
      requires Valid() && e.Print?
      modifies chunk
      ensures Valid() && State() == WithExpr(old(State()), e, line)
      decreases e, 0
    {
      hide Extend, ExprCode, Listing, Sound, WithArgs;
      PrintEmits(State(), e, line);
      assert e.args[0..] == e.args;
      for i := 0 to |e.args|
        invariant Valid()
        invariant WithArgs(State(), e.args[i..], line) == WithArgs(old(State()), e.args, line)
      {
        ArgsFirst(State(), e.args[i..], line);
        assert e.args[i..][1..] == e.args[i + 1..];
        CompileExpr(e.args[i], line);
      }
      assert e.args[|e.args|..] == [];
      ArgsNone(State(), line);
      Emit(OpCode.Print(|e.args|), line);
      EmitConstant(VNull, line);
    }

    method CompileList(e: Expr, line: nat)
      requires Valid() && e.ListLit?
      modifies chunk
      ensures Valid() && State() == WithExpr(old(State()), e, line)
      decreases e, 0
    {
      hide Extend, ExprCode, Listing, Sound, WithElements;
      ListEmits(State(), e, line);
      EmitConstant(VList([]), line);
      assert e.items[0..] == e.items;
      for i := 0 to |e.items|
        invariant Valid()
        invariant WithElements(State(), e.items[i..], line) == WithElements(WithConst(old(State()), VList([]), line), e.items, line)
      {
        ElementsFirst(State(), e.items[i..], line);
        assert e.items[i..][1..] == e.items[i + 1..];
        CompileExpr(e.items[i], line);
        Emit(ListPush, line);
      }
      assert e.items[|e.items|..] == [];
      ArgsNone(State(), line);
    }

    method CompileIndex(e: Expr, line: nat)
      requires Valid() && e.Index?
      modifies chunk
      ensures Valid() && State() == WithExpr(old(State()), e, line)
      decreases e, 0
    {
      hide Extend, ExprCode, Listing, Sound;
      IndexEmits(State(), e, line);
      if e.base.Ident? && IsSideEffectFree(e.index) {
        var slot := ResolveLocal(e.base.name);
        if slot.Some? {
          CompileExpr(e.index, line);
          Emit(IndexLocal(slot.value), line);
          return;
        }
      }
      CompileExpr(e.base, line);
      CompileExpr(e.index, line);
      Emit(OpCode.Index, line);
    }

    // ----- Statements -----

    method CompileStmt(s: Stmt) returns (r: Compilation)
      requires Valid()
      modifies this, chunk
      ensures r == Verdict(Misplaced(s, old(loops) != []))
      ensures r.Ok? ==> Valid() && Becomes(old(State()), s, State()) && maxLocals == Max(old(maxLocals), Peak(s, |old(locals)|))
      decreases s, 2
    {
      SoundFits(State());
      match s
      case Let(name, value, line) =>
        LetEmits(State(), s);
        CompileExpr(value, line);
        DeclareLocal(name, line);
        r := Ok;
      case Assign(name, value, line) =>
        CompileAssign(s);
        r := Ok;
      case IndexAssign(name, index, value, line) =>
        CompileIndexAssign(s);
        r := Ok;
      case ExprStmt(expr, line) =>
        ExprStmtEmits(State(), s);
        CompileExpr(expr, line);
        Emit(Pop, line);
        r := Ok;
      case If(_, _, _, _) => r := CompileIf(s);
      case While(_, _, _) => r := CompileWhile(s);
      case For(_, _, _, _) => r := CompileFor(s);
      case Break(_) => r := CompileBreak(s);
      case Continue(_) => r := CompileContinue(s);
      case TryCatch(_, _, _, _) => r := CompileTryCatch(s);
      case Return(value, line) =>
        ReturnEmits(State(), s);
        CompileExpr(value, line);
        Emit(ReturnValue, line);
        r := Ok;
    }

    method CompileAssign(s: Stmt)
      requires Valid() && s.Assign?
      modifies chunk
      ensures Valid() && Becomes(old(State()), s, State())
    {
      hide Extend, ExprCode, Listing, Sound, Compiled;
      SoundFits(State());
      AssignEmits(State(), s);
      CompileExpr(s.value, s.line);
      var slot := ResolveLocal(s.name);
      match slot {
        case Some(i) => Emit(SetLocal(i), s.line);
        case None => Emit(SetGlobal(s.name), s.line);
      }
      Emit(Pop, s.line);
    }

    method CompileIndexAssign(s: Stmt)
      requires Valid() && s.IndexAssign?
      modifies chunk
      ensures Valid() && Becomes(old(State()), s, State())
    {
      hide Extend, ExprCode, Listing, Sound, Compiled;
      SoundFits(State());
      IndexAssignEmits(State(), s);
      var dest := ResolveMutationTarget(s.name);
      if dest.GlobalTarget? {
        Emit(RequireGlobal(dest.name), s.line);
      }
      CompileExpr(s.index, s.line);
      CompileExpr(s.value, s.line);
      Emit(SetIndex(dest), s.line);
    }

    /** Statements one after the other, up to the first that is refused. */
    method CompileBody(ss: seq<Stmt>) returns (r: Compilation)
      requires Valid()
      modifies this, chunk
      ensures r == Verdict(MisplacedIn(ss, old(loops) != []))
      ensures r.Ok? ==> Valid() && BecomesIn(old(State()), ss, State()) && maxLocals == Max(old(maxLocals), PeakIn(ss, |old(locals)|))
      decreases ss, 0
    {
      hide Compiled, CompiledIn, Misplaced, MisplacedIn, Peak, Sound, Listing, Names;
      SoundFits(State());
      assert ss[0..] == ss;
      for i := 0 to |ss|
        invariant Valid() && Remaining(old(State()), ss, State(), ss[i..])
        invariant Max(maxLocals, PeakIn(ss[i..], |locals|)) == Max(old(maxLocals), PeakIn(ss, |old(locals)|))
      {
        ghost var before := State();
        assert ss[i..][0] == ss[i] && ss[i..][1..] == ss[i + 1..];
        MisplacedFirst(ss[i..], loops != []);
        r := CompileStmt(ss[i]);
        if r.Err? {
          return;
        }
        RemainingNext(old(State()), ss, before, ss[i..], State());
        PeakFirst(before, ss[i..], State());
      }
      assert ss[|ss|..] == [];
      RemainingNone(old(State()), ss, State());
      r := Ok;
    }

    /** The rest of a scope that has been begun: its statements, then its end. */
    method CompileToScopeEnd(ss: seq<Stmt>, line: nat) returns (r: Compilation)
      requires Valid() && scopeDepth > 0 && LoopsWithin(loops, Kept(locals, scopeDepth - 1))
      modifies this, chunk
      ensures r == Verdict(MisplacedIn(ss, old(loops) != []))
      ensures r.Ok? ==>
                && Valid() && BecomesScope(Around(old(State())), Within(old(State())), ss, line, State())
                && maxLocals == Max(old(maxLocals), PeakIn(ss, |old(locals)|))
      decreases ss, 1
    {
      hide Extend, CodeIn, Listing, Sound, MisplacedIn, PeakIn, Kept, ScopeCode;
      ghost var st := State();
      SoundFits(st);
      WithinFits(Around(st));
      r := CompileBody(ss);
      if r.Err? {
        return;
      }
      ScopeEnds(st, ss, line);
      WithinExtended(st, CodeIn(st, ss), Kept(st.locals, st.depth - 1));
      EndScope(line);
    }

    /** A block in a scope of its own. */
    method CompileScope(ss: seq<Stmt>, line: nat) returns (r: Compilation)
      requires Valid()
      modifies this, chunk
      ensures r == Verdict(MisplacedIn(ss, old(loops) != []))
      ensures r.Ok? ==>
                && Valid() && BecomesScope(old(State()), [], ss, line, State())
                && maxLocals == Max(old(maxLocals), PeakIn(ss, |old(locals)|))
      decreases ss, 2
    {
      hide Extend, Listing, Sound, MisplacedIn, PeakIn, Kept, ScopeCode;
      ScopeBegins(State());
      SoundWithin(State());
      BeginScope();
      r := CompileToScopeEnd(ss, line);
    }

    // ----- Control flow -----

    method PatchAll(sites: seq<nat>)
      requires Valid() && SitesAreJumps(State().code, sites)
      modifies chunk
      ensures Valid() && State() == AimAll(old(State()), sites)
    {
      ghost var st := State();
      PatchedNowhere(st.code, 0, |st.code|);
      for i := 0 to |sites|
        invariant Valid() && State() == st.(code := Patched(st.code, 0, sites[..i], |st.code|))
      {
        assert sites[i] in sites;
        PatchedOne(st.code, sites, i, |st.code|);
        var patched := PatchJump(sites[i]);
        assert patched.Ok?;
      }
      assert sites[..|sites|] == sites;
    }

    method CompileTryCatch(s: Stmt) returns (r: Compilation)
      requires Valid() && s.TryCatch?
      modifies this, chunk
      ensures r == Verdict(Misplaced(s, old(loops) != []))
      ensures r.Ok? ==> Valid() && Becomes(old(State()), s, State()) && maxLocals == Max(old(maxLocals), Peak(s, |old(locals)|))
      decreases s, 1
    {
      hide Extend, ScopeCode, Listing, Sound, Compiled, MisplacedIn, PeakIn, Aim, Kept, TryEntered, TryDone, Caught;
      ghost var st := State();
      SoundFits(st);
      var setupOffset, jumpOverCatch;
      r, setupOffset, jumpOverCatch := CompileProtected(s);
      if r.Err? {
        return;
      }
      ghost var t := ScopeCode(TryEntered(st, s), [], s.tryBody, s.line);
      TryDoneIs(st, s, t);
      StartCatch(setupOffset);
      r := CompileHandler(s.binder, s.catchBody, s.line);
      if r.Err? {
        return;
      }
      TryEmits(st, s, Extend(TryEntered(st, s), t), State());
      var patched := PatchJump(jumpOverCatch);
      assert patched.Ok?;
    }

    /** The catch block, which finds the error value in the slot of its binder. */
    method CompileHandler(binder: string, ss: seq<Stmt>, line: nat) returns (r: Compilation)
      requires Valid()
      modifies this, chunk
      ensures r == Verdict(MisplacedIn(ss, old(loops) != []))
      ensures r.Ok? ==>
                && Valid() && BecomesScope(old(State()), [Local(binder, old(scopeDepth) + 1)], ss, line, State())
                && maxLocals == Max(old(maxLocals), PeakIn(ss, |old(locals)| + 1))
      decreases ss, 2
    {
      hide Extend, Listing, Sound, MisplacedIn, PeakIn, Kept, ScopeCode;
      BinderScope(State(), binder);
      SoundWithin(State());
      BeginScope();
      AddLocal(binder);
      r := CompileToScopeEnd(ss, line);
    }

    /** From `SetupTry` to the jump over the catch block. */
    method CompileProtected(s: Stmt) returns (r: Compilation, setupOffset: nat, jumpOverCatch: nat)
      requires Valid() && s.TryCatch?
      modifies this, chunk
      ensures r == Verdict(MisplacedIn(s.tryBody, old(loops) != []))
      ensures r.Ok? ==>
                && Valid()
                && CompilableAll(s.tryBody, TryEntered(old(State()), s).loops != []) && Fits(TryEntered(old(State()), s))
                && State() == TryDone(old(State()), s, ScopeCode(TryEntered(old(State()), s), [], s.tryBody, s.line))
                && setupOffset == |old(chunk.code)| && jumpOverCatch == |chunk.code| - 1
                && maxLocals == Max(old(maxLocals), PeakIn(s.tryBody, |old(locals)|))
      decreases s, 0
    {
      hide Extend, ScopeCode, Listing, Sound, MisplacedIn, PeakIn;
      ghost var st := State();
      SoundFits(st);
      TrySound(st, s);
      TryEnters(st, s);
      jumpOverCatch := 0;
      setupOffset := EmitJump(SetupTry(0), s.line);
      if loops != [] {
        loops := loops[|loops| - 1 := loops[|loops| - 1].(tryDepth := loops[|loops| - 1].tryDepth + 1)];
      }
      r := CompileScope(s.tryBody, s.line);
      if r.Err? {
        return;
      }
      ghost var t := ScopeCode(TryEntered(st, s), [], s.tryBody, s.line);
      TryLeaves(st, s, t, TeardownTry);
      Emit(TeardownTry, s.line);
      ShallowerSound(State());
      if loops != [] {
        loops := loops[|loops| - 1 := loops[|loops| - 1].(tryDepth := loops[|loops| - 1].tryDepth - 1)];
      }
      jumpOverCatch := EmitJump(Jump(0), s.line);
    }

    /** The catch block begins here. */
    method StartCatch(setupOffset: nat)
      requires Valid() && setupOffset < |chunk.code|
      requires chunk.code[setupOffset].SetupTry?
      modifies chunk
      ensures Valid() && State() == Caught(old(State()), setupOffset)
    {
      CaughtSound(State(), setupOffset);
      var catchStart := |chunk.code|;
      if chunk.code[setupOffset].SetupTry? {
        chunk.code := chunk.code[setupOffset := SetupTry(catchStart)];
      }
      assert State().code == Caught(old(State()), setupOffset).code;
    }

    method CompileIf(s: Stmt) returns (r: Compilation)
      requires Valid() && s.If?
      modifies this, chunk
      ensures r == Verdict(Misplaced(s, old(loops) != []))
      ensures r.Ok? ==> Valid() && Becomes(old(State()), s, State()) && maxLocals == Max(old(maxLocals), Peak(s, |old(locals)|))
      decreases s, 1
    {
      hide Extend, ExprCode, ScopeCode, Listing, Sound, Compiled, MisplacedIn, PeakIn, Aim;
      ghost var st := State();
      SoundFits(st);
      CompileExpr(s.cond, s.line);
      var jumpToElse := EmitJump(JumpIfFalse(0), s.line);
      r := CompileScope(s.thenBody, s.line);
      if r.Err? {
        return;
      }
      ghost var st3 := State();
      if s.elseBody != [] {
        var jumpOverElse := EmitJump(Jump(0), s.line);
        IfElseEmits(st, s, st3, st3);
        var patched := PatchJump(jumpToElse);
        assert patched.Ok?;
        r := CompileScope(s.elseBody, s.line);
        if r.Err? {
          return;
        }
        IfElseEmits(st, s, st3, State());
        patched := PatchJump(jumpOverElse);
        assert patched.Ok?;
      } else {
        IfOnlyEmits(st, s, st3);
        NothingMore(|locals|, loops != []);
        var patched := PatchJump(jumpToElse);
        assert patched.Ok?;
      }
    }

    method CompileWhile(s: Stmt) returns (r: Compilation)
      requires Valid() && s.While?
      modifies this, chunk
      ensures r == Verdict(Misplaced(s, old(loops) != []))
      ensures r.Ok? ==> Valid() && Becomes(old(State()), s, State()) && maxLocals == Max(old(maxLocals), Peak(s, |old(locals)|))
      decreases s, 1
    {
      hide Extend, ExprCode, ScopeCode, Listing, Sound, Compiled, MisplacedIn, PeakIn, Aim, AimAll;
      ghost var st := State();
      SoundFits(st);
      var loopStart := |chunk.code|;
      InLoopSound(st, loopStart, true, s.line);
      loops := loops + [LoopState(loopStart, [], [], |locals|, true, 0, s.line)];
      SameExprCode(st, State(), s.cond, s.line);
      CompileExpr(s.cond, s.line);
      var exitJump := EmitJump(JumpIfFalse(0), s.line);
      r := CompileScope(s.body, s.line);
      if r.Err? {
        return;
      }
      WhileEmits(st, s, State());
      Emit(Loop(loopStart), s.line);
      var patched := PatchJump(exitJump);
      assert patched.Ok?;
      LeaveLoop();
    }

    /** Forget the innermost loop and aim its `break` sites at the end of the code. */
    method LeaveLoop()
      requires Valid() && loops != []
      modifies this`loops, chunk
      ensures Valid() && State() == AimAll(OutOfLoop(old(State())), LastLoop(old(State())).breaks)
    {
      hide Listing, Sound, AimAll;
      OutOfLoopSound(State());
      var loopState := loops[|loops| - 1];
      loops := loops[..|loops| - 1];
      PatchAll(loopState.breaks);
    }

    method CompileFor(s: Stmt) returns (r: Compilation)
      requires Valid() && s.For?
      modifies this, chunk
      ensures r == Verdict(Misplaced(s, old(loops) != []))
      ensures r.Ok? ==> Valid() && Becomes(old(State()), s, State()) && maxLocals == Max(old(maxLocals), Peak(s, |old(locals)|))
      decreases s, 1
    {
      hide Extend, ExprCode, ScopeCode, Listing, Sound, Compiled, MisplacedIn, PeakIn, Aim, AimAll, ForEntered,
           ForReady, ForStep, Continued, ForLocals, Names;
      ghost var st := State();
      SoundFits(st);
      SoundWithin(st);
      var n := |locals|;
      var loopStart, exitJump;
      r, loopStart, exitJump := CompileForBody(s);
      if r.Err? {
        return;
      }
      ForEmits(st, s, State());
      ContinueHere();
      EmitForStep(n, loopStart, s.line);
      var patched := PatchJump(exitJump);
      assert patched.Ok?;
      LeaveLoop();
      ForKept(st, s);
      EndScope(s.line);
    }

    /** Up to the end of the body of a `for`. */
    method CompileForBody(s: Stmt) returns (r: Compilation, loopStart: nat, exitJump: nat)
      requires Valid() && s.For?
      modifies this, chunk
      ensures r == Verdict(MisplacedIn(s.body, true))
      ensures r.Ok? ==>
                && Valid() && BecomesScope(ForReady(old(State()), s), [], s.body, s.line, State())
                && loopStart == |ForEntered(old(State()), s).code| && exitJump == loopStart + 3
                && maxLocals == Max(old(maxLocals), PeakIn(s.body, |old(locals)| + 3))
      decreases s, 0
    {
      hide Extend, ExprCode, ScopeCode, Listing, Sound, MisplacedIn, PeakIn, ForEntered, ForTested, ForLocals;
      ghost var st := State();
      ForReadyIs(st, s);
      var n := |locals|;
      EnterFor(s);
      loopStart := |chunk.code|;
      InLoopSound(State(), 0, false, s.line);
      loops := loops + [LoopState(0, [], [], |locals|, false, 0, s.line)];
      exitJump := EmitForHead(n, s.line);
      r := CompileScope(s.body, s.line);
    }

    /** The scope of a `for` with its hidden locals and its variable. */
    method EnterFor(s: Stmt)
      requires Valid() && s.For?
      modifies this, chunk
      ensures Valid() && State() == ForEntered(old(State()), s) && maxLocals == Max(old(maxLocals), |old(locals)| + 3)
    {
      hide Extend, ExprCode, Listing, Sound;
      EnterList(s);
      EmitConstant(VInt(0), s.line);
      AddLocal(INDEX);
      EmitConstant(VNull, s.line);
      AddLocal(s.binder);
    }

    method EnterList(s: Stmt)
      requires Valid() && s.For?
      modifies this, chunk
      ensures Valid() && maxLocals == Max(old(maxLocals), |old(locals)| + 1)
      ensures State() == Named(With(WithExpr(old(State()).(depth := old(scopeDepth) + 1), s.iter, s.line), ToIterList, s.line), COLLECTION)
    {
      hide Extend, ExprCode, Listing, Sound;
      BeginScope();
      CompileExpr(s.iter, s.line);
      Emit(ToIterList, s.line);
      AddLocal(COLLECTION);
    }

    method EmitForHead(n: nat, line: nat) returns (exitJump: nat)
      requires Valid()
      modifies chunk
      ensures Valid() && State() == ForTested(old(State()), n, line) && exitJump == |old(chunk.code)| + 3
    {
      hide Extend, Listing, Sound;
      Emit(GetLocal(n + 1), line);
      Emit(LenLocal(n), line);
      Emit(OpCode.Lt, line);
      exitJump := EmitJump(JumpIfFalse(0), line);
      Emit(Pop, line);
      Emit(GetLocal(n + 1), line);
      Emit(IndexLocal(n), line);
    }

    /** `continue` leads here. */
    method ContinueHere()
      requires Valid() && loops != []
      modifies this`loops, chunk
      ensures Valid() && State() == Continued(old(State()))
    {
      hide Listing, Sound, AimAll;
      ContinuedSound(State());
      LastSites(State());
      var last := |loops| - 1;
      var continues := loops[last].continues;
      loops := loops[last := loops[last].(continueTarget := |chunk.code|, continues := [])];
      PatchAll(continues);
    }

    method EmitForStep(n: nat, loopStart: nat, line: nat)
      requires Valid()
      modifies chunk
      ensures Valid() && State() == ForStep(old(State()), n, loopStart, line)
    {
      hide Extend, Listing, Sound;
      Emit(GetLocal(n + 1), line);
      EmitConstant(VInt(1), line);
      Emit(OpCode.Add, line);
      Emit(SetLocal(n + 1), line);
      Emit(Pop, line);
      Emit(Loop(loopStart), line);
    }

    /** Leave the active `try` blocks of the loop and give back the slots declared inside it. */
    method EmitUnwind(line: nat)
      requires Valid() && loops != [] && Fits(State())
      modifies chunk
      ensures Valid() && State() == Unwinding(old(State()), line)
    {
      hide Extend, Listing, Sound, Teardowns, Unwinding;
      ghost var st := State();
      UnwindingEmits(st, line);
      var loopState := loops[|loops| - 1];
      ExtendNothing(st);
      NoTeardowns(line);
      for i := 0 to loopState.tryDepth
        invariant Valid() && State() == Extend(st, Teardowns(i, line))
      {
        TeardownNext(st, i, line);
        Emit(TeardownTry, line);
      }
      var localsToPop := |locals| - loopState.localsCount;
      if localsToPop > 0 {
        Emit(PopN(localsToPop), line);
      }
    }

    method CompileBreak(s: Stmt) returns (r: Compilation)
      requires Valid() && s.Break?
      modifies this, chunk
      ensures r == Verdict(Misplaced(s, old(loops) != []))
      ensures r.Ok? ==> Valid() && Becomes(old(State()), s, State()) && maxLocals == Max(old(maxLocals), Peak(s, |old(locals)|))
    {
      hide Extend, Listing, Sound, Unwinding, Compiled;
      if loops == [] {
        return Err(Fault(BreakOutsideLoop, s.line));
      }
      SoundFits(State());
      BreakEmits(State(), s);
      EmitUnwind(s.line);
      LastOp(State(), Jump(0), s.line);
      var jumpOffset := EmitJump(Jump(0), s.line);
      BreakSound(State());
      var last := |loops| - 1;
      loops := loops[last := loops[last].(breaks := loops[last].breaks + [jumpOffset])];
      r := Ok;
    }

    method CompileContinue(s: Stmt) returns (r: Compilation)
      requires Valid() && s.Continue?
      modifies this, chunk
      ensures r == Verdict(Misplaced(s, old(loops) != []))
      ensures r.Ok? ==> Valid() && Becomes(old(State()), s, State()) && maxLocals == Max(old(maxLocals), Peak(s, |old(locals)|))
    {
      hide Extend, Listing, Sound, Unwinding, Compiled;
      if loops == [] {
        return Err(Fault(ContinueOutsideLoop, s.line));
      }
      SoundFits(State());
      ContinueEmits(State(), s);
      var loopState := loops[|loops| - 1];
      EmitUnwind(s.line);
      if loopState.continueResolved {
        Emit(Loop(loopState.continueTarget), loopState.line);
      } else {
        LastOp(State(), Jump(0), s.line);
        var offset := EmitJump(Jump(0), s.line);
        BreakSound(State());
        var last := |loops| - 1;
        loops := loops[last := loops[last].(continues := loops[last].continues + [offset])];
      }
      r := Ok;
    }

    // ----- Programs -----

    /** A whole program. The finished chunk holds exactly the generated code. */
    method Compile(program: seq<Stmt>) returns (r: Compilation)
      requires Valid() && State() == Emitted([], [], [], 0, []) && maxLocals == 0
      modifies this, chunk
      ensures r == Verdict(MisplacedIn(program, false))
      ensures r.Ok? ==>
                && chunk.Valid() && CompilableAll(program, false)
                && chunk.Instrs() == GenProgram(program).code && chunk.constants == GenProgram(program).consts
                && chunk.maxLocals == PeakIn(program, 0)
    {
      hide Listing, Sound, MisplacedIn, PeakIn, GenBlock;
      r := CompileBody(program);
      if r.Err? {
        return;
      }
      Emit(OpCode.Return, 0);
      chunk.maxLocals := maxLocals;
    }
  }
}

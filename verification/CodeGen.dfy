/** The instructions that `src/compiler.rs` emits, as a function of the statement, the local table,
    the enclosing loop, and the position. The `Compiler` class is proved to build exactly this. */
module CodeGen {
  import opened Lang
  import opened Slots
  import opened Machine

  /** Emitted code with the constants it adds, and the offsets of the `break` and `continue` jumps of
      the enclosing loop, which are still waiting for their target. */
  datatype Frag = Frag(code: seq<Instr>, consts: seq<Value>, breaks: seq<nat>, conts: seq<nat>)

  datatype LoopInfo = LoopInfo(contTarget: nat, localsCount: nat, resolved: bool, tryDepth: nat, line: nat)

  const EMPTY: Frag := Frag([], [], [], [])

  function Cat(a: Frag, b: Frag): Frag {
    Frag(a.code + b.code, a.consts + b.consts, a.breaks + b.breaks, a.conts + b.conts)
  }

  function One(op: OpCode, line: nat): Frag { Frag([Instr(op, line)], [], [], []) }

  /** `emit_constant`: every constant gets a new entry of the table. */
  function Const(v: Value, line: nat, k: nat): Frag { Frag([Instr(LoadConst(k), line)], [v], [], []) }

  /** The sites of a fragment lie inside it. */
  predicate SitesIn(f: Frag, p: nat) {
    && (forall b :: b in f.breaks ==> p <= b < p + |f.code|)
    && (forall c :: c in f.conts ==> p <= c < p + |f.code|)
  }

  predicate NoSites(f: Frag) { f.breaks == [] && f.conts == [] }

  lemma CatAssoc(a: Frag, b: Frag, c: Frag)
    ensures Cat(Cat(a, b), c) == Cat(a, Cat(b, c))
  {
    assert a.code + b.code + c.code == a.code + (b.code + c.code);
    assert a.consts + b.consts + c.consts == a.consts + (b.consts + c.consts);
    assert a.breaks + b.breaks + c.breaks == a.breaks + (b.breaks + c.breaks);
    assert a.conts + b.conts + c.conts == a.conts + (b.conts + c.conts);
  }

  lemma CatSize(a: Frag, b: Frag)
    ensures |Cat(a, b).code| == |a.code| + |b.code| && |Cat(a, b).consts| == |a.consts| + |b.consts|
  {
  }

  // ----- Expressions -----

  function BinaryOpCode(op: BinOp): OpCode
    requires !op.And? && !op.Or?
  {
    match op
    case Add => OpCode.Add
    case Sub => OpCode.Sub
    case Mul => OpCode.Mul
    case Div => OpCode.Div
    case Mod => OpCode.Mod
    case Eq => OpCode.Eq
    case NotEq => OpCode.NotEq
    case Lt => OpCode.Lt
    case Gt => OpCode.Gt
    case LtEq => OpCode.LtEq
    case GtEq => OpCode.GtEq
  }

  function NameRead(name: string, names: seq<string>): OpCode {
    match Resolve(names, name)
    case Some(slot) => GetLocal(slot)
    case None => GetGlobal(name)
  }

  function GenExpr(e: Expr, names: seq<string>, line: nat, p: nat, k: nat): (f: Frag)
    ensures NoSites(f)
    decreases e, 1
  {
    match e
    case IntLit(n) => Const(VInt(n), line, k)
    case StrLit(s) => Const(VStr(s), line, k)
    case BoolLit(b) => Const(VBool(b), line, k)
    case NullLit => Const(VNull, line, k)
    case Ident(name) => One(NameRead(name, names), line)
    case Binary(op, left, right) =>
      var l := GenExpr(left, names, line, p, k);
      if op.And? || op.Or? then
        var r := GenExpr(right, names, line, p + |l.code| + 2, k + |l.consts|);
        var end := p + |l.code| + 2 + |r.code|;
        var test := if op.And? then JumpIfFalseKeep(end) else JumpIfTrueKeep(end);
        Cat(Cat(l, Cat(One(test, line), One(Pop, line))), r)
      else
        var r := GenExpr(right, names, line, p + |l.code|, k + |l.consts|);
        Cat(Cat(l, r), One(BinaryOpCode(op), line))
    case Unary(uop, operand) =>
      Cat(GenExpr(operand, names, line, p, k), One(if uop.Neg? then Negate else OpCode.Not, line))
    case Print(args) =>
      var a := GenArgs(args, names, line, p, k);
      Cat(Cat(a, One(OpCode.Print(|args|), line)), Const(VNull, line, k + |a.consts|))
    case ListLit(items) =>
      Cat(Const(VList([]), line, k), GenElements(items, names, line, p + 1, k + 1))
    case Index(base, index) =>
      if base.Ident? && IsSideEffectFree(index) && Resolve(names, base.name).Some? then
        Cat(GenExpr(index, names, line, p, k), One(IndexLocal(Resolve(names, base.name).value), line))
      else
        var b := GenExpr(base, names, line, p, k);
        var i := GenExpr(index, names, line, p + |b.code|, k + |b.consts|);
        Cat(Cat(b, i), One(OpCode.Index, line))
  }

  function GenArgs(es: seq<Expr>, names: seq<string>, line: nat, p: nat, k: nat): (f: Frag)
    ensures NoSites(f)
    decreases es, 0
  {
    if es == [] then EMPTY
    else
      var e := GenExpr(es[0], names, line, p, k);
      Cat(e, GenArgs(es[1..], names, line, p + |e.code|, k + |e.consts|))
  }

  function GenElements(es: seq<Expr>, names: seq<string>, line: nat, p: nat, k: nat): (f: Frag)
    ensures NoSites(f)
    decreases es, 0
  {
    if es == [] then EMPTY
    else
      var e := Cat(GenExpr(es[0], names, line, p, k), One(ListPush, line));
      Cat(e, GenElements(es[1..], names, line, p + |e.code|, k + |e.consts|))
  }

  // ----- Statements -----

  function Target(name: string, names: seq<string>): MutationTarget {
    match Resolve(names, name)
    case Some(slot) => LocalTarget(slot)
    case None => GlobalTarget(name)
  }

  /** `end_scope`: one `PopN` for the slots given back, none when there are none. */
  function PopSlots(n: nat, line: nat): Frag { if n > 0 then One(PopN(n), line) else EMPTY }

  function Teardowns(n: nat, line: nat): (f: Frag)
    ensures |f.code| == n && f.consts == [] && NoSites(f)
    ensures forall i :: 0 <= i < n ==> f.code[i] == Instr(TeardownTry, line)
  {
    if n == 0 then EMPTY else Cat(Teardowns(n - 1, line), One(TeardownTry, line))
  }

  /** What `break` and `continue` do before they jump: leave the active `try` blocks of the loop, and
      give back the slots declared inside it. */
  function Unwind(names: seq<string>, lp: LoopInfo, line: nat): Frag
    requires lp.localsCount <= |names|
  {
    Cat(Teardowns(lp.tryDepth, line), PopSlots(|names| - lp.localsCount, line))
  }

  /** Where `break` and `continue` are accepted. */
  predicate Compilable(s: Stmt, inLoop: bool) {
    match s
    case Break(_) => inLoop
    case Continue(_) => inLoop
    case If(_, t, e, _) => CompilableAll(t, inLoop) && CompilableAll(e, inLoop)
    case While(_, b, _) => CompilableAll(b, true)
    case For(_, _, b, _) => CompilableAll(b, true)
    case TryCatch(t, _, c, _) => CompilableAll(t, inLoop) && CompilableAll(c, inLoop)
    case _ => true
  }

  predicate CompilableAll(ss: seq<Stmt>, inLoop: bool) {
    ss != [] ==> Compilable(ss[0], inLoop) && CompilableAll(ss[1..], inLoop)
  }

  predicate LoopFits(lp: Option<LoopInfo>, names: seq<string>) {
    lp.Some? ==> lp.value.localsCount <= |names|
  }

  function DeeperTry(lp: Option<LoopInfo>): Option<LoopInfo> {
    if lp.Some? then Some(lp.value.(tryDepth := lp.value.tryDepth + 1)) else None
  }

  /** `patch_jump` on every site of a list. */
  function Patched(code: seq<Instr>, p: nat, sites: seq<nat>, target: nat): (r: seq<Instr>)
    ensures |r| == |code|
  {
    seq(|code|, i requires 0 <= i < |code| => if p + i in sites then Instr(Jump(target), code[i].line) else code[i])
  }

  /** A loop body once its `break` and `continue` targets are known. */
  function Closed(f: Frag, p: nat, breakTarget: nat, contTarget: nat): Frag {
    Frag(Patched(Patched(f.code, p, f.conts, contTarget), p, f.breaks, breakTarget), f.consts, [], [])
  }

  function GenStmt(s: Stmt, names: seq<string>, top: bool, lp: Option<LoopInfo>, p: nat, k: nat): (f: Frag)
    requires Compilable(s, lp.Some?) && LoopFits(lp, names)
    ensures SitesIn(f, p)
    ensures lp.None? ==> NoSites(f)
    decreases s, 2
  {
    match s
    case Let(name, value, line) =>
      var v := GenExpr(value, names, line, p, k);
      if top then Cat(v, One(RegisterGlobal(name, |names|), line)) else v
    case Assign(name, value, line) =>
      var store := match Resolve(names, name) case Some(slot) => SetLocal(slot) case None => SetGlobal(name);
      Cat(GenExpr(value, names, line, p, k), Cat(One(store, line), One(Pop, line)))
    case IndexAssign(name, index, value, line) => GenIndexAssign(name, index, value, line, names, p, k)
    case ExprStmt(expr, line) => Cat(GenExpr(expr, names, line, p, k), One(Pop, line))
    case If(cond, thenBody, elseBody, line) => GenIf(s, names, lp, p, k)
    case While(cond, body, line) => GenWhile(s, names, p, k)
    case For(binder, iter, body, line) => GenFor(s, names, p, k)
    case Break(line) =>
      var u := Unwind(names, lp.value, line);
      Cat(u, Frag([Instr(Jump(0), line)], [], [p + |u.code|], []))
    case Continue(line) =>
      var u := Unwind(names, lp.value, line);
      if lp.value.resolved then Cat(u, One(Loop(lp.value.contTarget), lp.value.line))
      else Cat(u, Frag([Instr(Jump(0), line)], [], [], [p + |u.code|]))
    case TryCatch(tryBody, binder, catchBody, line) => GenTry(s, names, lp, p, k)
    case Return(value, line) => Cat(GenExpr(value, names, line, p, k), One(ReturnValue, line))
  }

  function GenIndexAssign(name: string, index: Expr, value: Expr, line: nat, names: seq<string>, p: nat, k: nat): (f: Frag)
    ensures NoSites(f)
  {
    var dest := Target(name, names);
    var check := if dest.GlobalTarget? then One(RequireGlobal(name), line) else EMPTY;
    var i := GenExpr(index, names, line, p + |check.code|, k);
    var v := GenExpr(value, names, line, p + |check.code| + |i.code|, k + |i.consts|);
    Cat(Cat(Cat(check, i), v), One(SetIndex(dest), line))
  }

  function GenBlock(ss: seq<Stmt>, names: seq<string>, top: bool, lp: Option<LoopInfo>, p: nat, k: nat): (f: Frag)
    requires CompilableAll(ss, lp.Some?) && LoopFits(lp, names)
    ensures SitesIn(f, p)
    ensures lp.None? ==> NoSites(f)
    decreases ss, 0
  {
    if ss == [] then EMPTY
    else
      var f := GenStmt(ss[0], names, top, lp, p, k);
      Cat(f, GenBlock(ss[1..], NamesAfterStmt(ss[0], names), top, lp, p + |f.code|, k + |f.consts|))
  }

  /** A block between `begin_scope` and `end_scope`; slots from `keep` on are given back. */
  function GenScoped(ss: seq<Stmt>, names: seq<string>, keep: nat, lp: Option<LoopInfo>, line: nat, p: nat, k: nat): (f: Frag)
    requires CompilableAll(ss, lp.Some?) && LoopFits(lp, names) && keep <= |names|
    ensures SitesIn(f, p)
    ensures lp.None? ==> NoSites(f)
    decreases ss, 1
  {
    Cat(GenBlock(ss, names, false, lp, p, k), PopSlots(|NamesAfter(ss, names)| - keep, line))
  }

  function GenIf(s: Stmt, names: seq<string>, lp: Option<LoopInfo>, p: nat, k: nat): (f: Frag)
    requires s.If? && Compilable(s, lp.Some?) && LoopFits(lp, names)
    ensures SitesIn(f, p)
    ensures lp.None? ==> NoSites(f)
    decreases s, 1
  {
    var c := GenExpr(s.cond, names, s.line, p, k);
    var t := GenScoped(s.thenBody, names, |names|, lp, s.line, p + |c.code| + 1, k + |c.consts|);
    var afterThen := p + |c.code| + 1 + |t.code|;
    if s.elseBody == [] then Cat(Cat(c, One(JumpIfFalse(afterThen), s.line)), t)
    else
      var e := GenScoped(s.elseBody, names, |names|, lp, s.line, afterThen + 1, k + |c.consts| + |t.consts|);
      Cat(Cat(Cat(c, One(JumpIfFalse(afterThen + 1), s.line)), t),
          Cat(One(Jump(afterThen + 1 + |e.code|), s.line), e))
  }

  function WhileInfo(s: Stmt, names: seq<string>, p: nat): LoopInfo
    requires s.While?
  {
    LoopInfo(p, |names|, true, 0, s.line)
  }

  function GenWhile(s: Stmt, names: seq<string>, p: nat, k: nat): (f: Frag)
    requires s.While? && Compilable(s, true)
    ensures NoSites(f)
    decreases s, 1
  {
    var c := GenExpr(s.cond, names, s.line, p, k);
    var at := p + |c.code| + 1;
    var b := GenScoped(s.body, names, |names|, Some(WhileInfo(s, names, p)), s.line, at, k + |c.consts|);
    var exit := at + |b.code| + 1;
    Cat(Cat(Cat(c, One(JumpIfFalse(exit), s.line)), Closed(b, at, exit, p)), One(Loop(p), s.line))
  }

  function ForInfo(s: Stmt, names: seq<string>): LoopInfo
    requires s.For?
  {
    LoopInfo(0, |names| + 3, false, 0, s.line)
  }

  function ForNames(s: Stmt, names: seq<string>): seq<string>
    requires s.For?
  {
    names + [COLLECTION] + [INDEX] + [s.binder]
  }

  function ForEnter(n: nat, line: nat, k: nat): Frag {
    Cat(Cat(One(ToIterList, line), Const(VInt(0), line, k)), Const(VNull, line, k + 1))
  }

  function ForTest(n: nat, exit: nat, line: nat): Frag {
    Frag([Instr(GetLocal(n + 1), line), Instr(LenLocal(n), line), Instr(OpCode.Lt, line), Instr(JumpIfFalse(exit), line),
          Instr(Pop, line), Instr(GetLocal(n + 1), line), Instr(IndexLocal(n), line)], [], [], [])
  }

  function ForNext(n: nat, start: nat, line: nat, k: nat): Frag {
    Frag([Instr(GetLocal(n + 1), line), Instr(LoadConst(k), line), Instr(OpCode.Add, line),
          Instr(SetLocal(n + 1), line), Instr(Pop, line), Instr(Loop(start), line)], [VInt(1)], [], [])
  }

  function GenFor(s: Stmt, names: seq<string>, p: nat, k: nat): (f: Frag)
    requires s.For? && Compilable(s, true)
    ensures NoSites(f)
    decreases s, 1
  {
    var n := |names|;
    var it := GenExpr(s.iter, names, s.line, p, k);
    var enter := ForEnter(n, s.line, k + |it.consts|);
    var start := p + |it.code| + 3;
    var b := GenScoped(s.body, ForNames(s, names), n + 3, Some(ForInfo(s, names)), s.line, start + 7, k + |it.consts| + 2);
    var inc := start + 7 + |b.code|;
    var exit := inc + 6;
    Cat(Cat(Cat(Cat(Cat(it, enter), ForTest(n, exit, s.line)), Closed(b, start + 7, exit, inc)),
            ForNext(n, start, s.line, k + |it.consts| + 2 + |b.consts|)),
        One(PopN(3), s.line))
  }

  function GenTry(s: Stmt, names: seq<string>, lp: Option<LoopInfo>, p: nat, k: nat): (f: Frag)
    requires s.TryCatch? && Compilable(s, lp.Some?) && LoopFits(lp, names)
    ensures SitesIn(f, p)
    ensures lp.None? ==> NoSites(f)
    decreases s, 1
  {
    var t := GenScoped(s.tryBody, names, |names|, DeeperTry(lp), s.line, p + 1, k);
    var catchAt := p + 1 + |t.code| + 2;
    var c := GenScoped(s.catchBody, names + [s.binder], |names|, lp, s.line, catchAt, k + |t.consts|);
    Cat(Cat(Cat(One(SetupTry(catchAt), s.line), t),
            Cat(One(TeardownTry, s.line), One(Jump(catchAt + |c.code|), s.line))),
        c)
  }

  /** A whole program: its statements at top level, then `Return`. */
  function GenProgram(program: seq<Stmt>): (f: Frag)
    requires CompilableAll(program, false)
    ensures NoSites(f)
  {
    Cat(GenBlock(program, [], true, None, 0, 0), One(OpCode.Return, 0))
  }
}

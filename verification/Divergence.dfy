/** Where the two engines part: which programs the preservation theorem has to leave out, with inputs
    that show it, and the exact condition at the statement that is to blame. */
module Divergence {
  import opened Lang
  import opened Tree
  import S = Slots
  import Agreement
  import CodeGen
  import Preservation

  // ----- Output is only ever appended -----

  /** The same step, had the output so far been preceded by `o`. */
  function Behind(o: seq<string>, r: Step): Step { r.(st := r.st.(out := o + r.st.out)) }

  function Before(o: seq<string>, st: State): State { st.(out := o + st.out) }

  lemma {:induction false} EvalAppends(host: Host, env: Scope, e: Expr, line: nat, o: seq<string>, out: seq<string>)
    ensures EvalExpr(host, env, e, line, o + out) ==
            EvalExpr(host, env, e, line, out).(out := o + EvalExpr(host, env, e, line, out).out)
    decreases e, 1
  {
    match e
    case Binary(_, l, r) =>
      EvalAppends(host, env, l, line, o, out);
      EvalAppends(host, env, r, line, o, EvalExpr(host, env, l, line, out).out);
    case Unary(_, x) =>
      EvalAppends(host, env, x, line, o, out);
    case Print(args) =>
      ArgsAppend(host, env, args, line, o, out);
      var vs := EvalArgs(host, env, args, line, out);
      if vs.result.Good? {
        assert o + vs.out + [Joined(host, vs.result.value)] == o + (vs.out + [Joined(host, vs.result.value)]);
      }
    case ListLit(items) =>
      ElementsAppend(host, env, items, [], line, o, out);
    case Index(b, i) =>
      EvalAppends(host, env, b, line, o, out);
      EvalAppends(host, env, i, line, o, out);
      EvalAppends(host, env, i, line, o, EvalExpr(host, env, b, line, out).out);
    case _ =>
  }

  lemma {:induction false} ArgsAppend(host: Host, env: Scope, es: seq<Expr>, line: nat, o: seq<string>, out: seq<string>)
    ensures EvalArgs(host, env, es, line, o + out) ==
            EvalArgs(host, env, es, line, out).(out := o + EvalArgs(host, env, es, line, out).out)
    decreases es, 0
  {
    if es != [] {
      EvalAppends(host, env, es[0], line, o, out);
      ArgsAppend(host, env, es[1..], line, o, EvalExpr(host, env, es[0], line, out).out);
    }
  }

  lemma {:induction false} ElementsAppend(host: Host, env: Scope, es: seq<Expr>, list: seq<Value>, line: nat, o: seq<string>, out: seq<string>)
    ensures EvalElements(host, env, es, list, line, o + out) ==
            EvalElements(host, env, es, list, line, out).(out := o + EvalElements(host, env, es, list, line, out).out)
    decreases es, 0
  {
    if es != [] {
      EvalAppends(host, env, es[0], line, o, out);
      var v := EvalExpr(host, env, es[0], line, out);
      if v.result.Good? {
        var longer := AppendElement(host, list, v.result.value, line);
        if longer.Good? {
          ElementsAppend(host, env, es[1..], longer.value, line, o, v.out);
        }
      }
    }
  }

  lemma {:induction false} StmtAppends(host: Host, s: Stmt, st: State, o: seq<string>)
    requires st.scopes != []
    ensures ExecStmt(host, s, Before(o, st)) == Behind(o, ExecStmt(host, s, st))
    decreases st.fuel, s, 2
  {
    hide EvalExpr, Visible;
    var env := Visible(st.scopes);
    match s
    case Let(_, v, line) => EvalAppends(host, env, v, line, o, st.out);
    case Assign(_, v, line) => EvalAppends(host, env, v, line, o, st.out);
    case IndexAssign(_, _, _, _) => IndexAssignAppends(host, s, st, o);
    case ExprStmt(e, line) => EvalAppends(host, env, e, line, o, st.out);
    case Return(v, line) => EvalAppends(host, env, v, line, o, st.out);
    case If(_, _, _, _) => IfAppends(host, s, st, o);
    case While(_, _, _) => WhileAppends(host, s, st, o);
    case For(_, _, _, _) => ForAppends(host, s, st, o);
    case TryCatch(_, _, _, _) => TryAppends(host, s, st, o);
    case _ =>
  }

  lemma IndexAssignAppends(host: Host, s: Stmt, st: State, o: seq<string>)
    requires s.IndexAssign? && st.scopes != []
    ensures ExecStmt(host, s, Before(o, st)) == Behind(o, ExecStmt(host, s, st))
  {
    hide EvalExpr, Visible, AssignIndex;
    var env := Visible(st.scopes);
    EvalAppends(host, env, s.index, s.line, o, st.out);
    EvalAppends(host, env, s.value, s.line, o, EvalExpr(host, env, s.index, s.line, st.out).out);
  }

  lemma {:induction false} IfAppends(host: Host, s: Stmt, st: State, o: seq<string>)
    requires s.If? && st.scopes != []
    ensures ExecStmt(host, s, Before(o, st)) == Behind(o, ExecStmt(host, s, st))
    decreases st.fuel, s, 1
  {
    hide EvalExpr, Visible, ExecScoped;
    EvalAppends(host, Visible(st.scopes), s.cond, s.line, o, st.out);
    var st' := st.(out := EvalExpr(host, Visible(st.scopes), s.cond, s.line, st.out).out);
    ScopedAppends(host, s.thenBody, map[], st', o);
    ScopedAppends(host, s.elseBody, map[], st', o);
  }

  lemma {:induction false} WhileAppends(host: Host, s: Stmt, st: State, o: seq<string>)
    requires s.While? && st.scopes != []
    ensures ExecStmt(host, s, Before(o, st)) == Behind(o, ExecStmt(host, s, st))
    decreases st.fuel, s, 1
  {
    hide EvalExpr, Visible, WhileLoop;
    EvalAppends(host, Visible(st.scopes), s.cond, s.line, o, st.out);
    WhileLoopAppends(host, s, st, o);
    WhileLoopAppends(host, s, st.(out := EvalExpr(host, Visible(st.scopes), s.cond, s.line, st.out).out), o);
  }

  lemma {:induction false} WhileLoopAppends(host: Host, s: Stmt, st: State, o: seq<string>)
    requires s.While? && st.scopes != []
    ensures WhileLoop(host, s, Before(o, st)) == Behind(o, WhileLoop(host, s, st))
    decreases st.fuel, s, 0
  {
    hide EvalExpr, Visible, ExecScoped;
    EvalAppends(host, Visible(st.scopes), s.cond, s.line, o, st.out);
    var v := EvalExpr(host, Visible(st.scopes), s.cond, s.line, st.out);
    var st' := st.(out := v.out);
    if v.result.Good? && Truthy(v.result.value) {
      ScopedAppends(host, s.body, map[], st', o);
      var b := ExecScoped(host, s.body, map[], st');
      if (b.flow.Normal? || b.flow.Continuing?) && b.st.fuel > 0 {
        WhileLoopAppends(host, s, Charge(b.st, s.line).st, o);
      }
    }
  }

  lemma {:induction false} ForAppends(host: Host, s: Stmt, st: State, o: seq<string>)
    requires s.For? && st.scopes != []
    ensures ExecStmt(host, s, Before(o, st)) == Behind(o, ExecStmt(host, s, st))
    decreases st.fuel, s, 1
  {
    hide EvalExpr, Visible, ForLoop, IterItems;
    EvalAppends(host, Visible(st.scopes), s.iter, s.line, o, st.out);
    var v := EvalExpr(host, Visible(st.scopes), s.iter, s.line, st.out);
    if v.result.Good? {
      var items := IterItems(host, v.result.value, s.line);
      if items.Good? {
        ForLoopAppends(host, s, items.value, 0, st.(out := v.out), o);
      }
    }
  }

  lemma {:induction false} ForLoopAppends(host: Host, s: Stmt, items: seq<Value>, k: nat, st: State, o: seq<string>)
    requires s.For? && st.scopes != [] && k <= |items|
    ensures ForLoop(host, s, items, k, Before(o, st)) == Behind(o, ForLoop(host, s, items, k, st))
    decreases st.fuel, s, 0
  {
    hide ExecScoped;
    if k < |items| {
      ScopedAppends(host, s.body, map[s.binder := items[k]], st, o);
      var b := ExecScoped(host, s.body, map[s.binder := items[k]], st);
      if (b.flow.Normal? || b.flow.Continuing?) && b.st.fuel > 0 {
        ForLoopAppends(host, s, items, k + 1, Charge(b.st, s.line).st, o);
      }
    }
  }

  lemma {:induction false} TryAppends(host: Host, s: Stmt, st: State, o: seq<string>)
    requires s.TryCatch? && st.scopes != []
    ensures ExecStmt(host, s, Before(o, st)) == Behind(o, ExecStmt(host, s, st))
    decreases st.fuel, s, 1
  {
    hide ExecScoped;
    ScopedAppends(host, s.tryBody, map[], st, o);
    var r := ExecScoped(host, s.tryBody, map[], st);
    if r.flow.Failing? {
      ScopedAppends(host, s.catchBody, map[s.binder := ErrorValue(host, r.flow.fault)], r.st, o);
    }
  }

  lemma {:induction false} BlockAppends(host: Host, ss: seq<Stmt>, st: State, o: seq<string>)
    requires st.scopes != []
    ensures ExecBlock(host, ss, Before(o, st)) == Behind(o, ExecBlock(host, ss, st))
    decreases st.fuel, ss, 0
  {
    hide ExecStmt;
    if ss != [] {
      StmtAppends(host, ss[0], st, o);
      var r := ExecStmt(host, ss[0], st);
      if r.flow.Normal? {
        BlockAppends(host, ss[1..], r.st, o);
      }
    }
  }

  lemma {:induction false} ScopedAppends(host: Host, ss: seq<Stmt>, bindings: Scope, st: State, o: seq<string>)
    requires st.scopes != []
    ensures ExecScoped(host, ss, bindings, Before(o, st)) == Behind(o, ExecScoped(host, ss, bindings, st))
    decreases st.fuel, ss, 1
  {
    hide ExecBlock;
    BlockAppends(host, ss, st.(scopes := st.scopes + [bindings]), o);
  }

  // ----- The condition that is evaluated twice -----

  /** What the first evaluation of a `while` condition prints. */
  function Printed(host: Host, s: Stmt, st: State): seq<string>
    requires s.While?
  {
    EvalExpr(host, Visible(st.scopes), s.cond, s.line, []).out
  }

  function ConditionHolds(host: Host, s: Stmt, st: State): bool
    requires s.While?
  {
    var v := EvalExpr(host, Visible(st.scopes), s.cond, s.line, []).result;
    v.Good? && Truthy(v.value)
  }

  /** The tree evaluator runs a `while` as the loop alone would run, which is what the compiled code
      does, if and only if the condition is not both true and printing when the loop is entered.
      In the remaining case the output is longer by exactly what that evaluation printed. */
  lemma EntersOnceIff(host: Host, s: Stmt, st: State)
    requires host.rechecks && s.While? && st.scopes != []
    ensures ExecStmt(host, s, st) == WhileLoop(host, s, st) <==> !(ConditionHolds(host, s, st) && Printed(host, s, st) != [])
    ensures ConditionHolds(host, s, st) ==>
              |ExecStmt(host, s, st).st.out| == |WhileLoop(host, s, st).st.out| + |Printed(host, s, st)|
  {
    hide EvalExpr, Visible, WhileLoop;
    var env := Visible(st.scopes);
    EvalAppends(host, env, s.cond, s.line, st.out, []);
    assert st.out + [] == st.out;
    var o := Printed(host, s, st);
    Agreement.WhileLoopStops(host, s, st);
    if ConditionHolds(host, s, st) {
      var st0 := st.(out := []);
      WhileLoopAppends(host, s, st0, st.out);
      WhileLoopAppends(host, s, st0, st.out + o);
      assert st.out + o + [] == st.out + o;
      assert Before(st.out, st0) == st && Before(st.out + o, st0) == st.(out := st.out + o);
    }
  }

  // ----- Inputs that show the difference -----

  function SampleHost(rechecks: bool): Host {
    Host(100, (v: Value) => if v.VInt? && v.n == 0 then "0" else "?", (c: Cause) => "", (k: ErrorKind) => "", rechecks)
  }

  /** `while print(0) == null  break  end`: the tree evaluator prints twice, the compiled program once. */
  const PRINTING_LOOP: seq<Stmt> := [While(Binary(Eq, Print([IntLit(0)]), NullLit), [Break(2)], 1)]

  /** What the compiled chunk of a program reports, and nothing else. */
  ghost predicate CompiledReport(host: Host, program: seq<Stmt>, fuel: nat, r: Report)
    requires CodeGen.CompilableAll(program, false)
  {
    forall q :: Preservation.Reports(host, Preservation.Compiled(program, fuel), q) <==> q == r
  }

  lemma SlotsAreCompiled(host: Host, program: seq<Stmt>, fuel: nat)
    requires CodeGen.CompilableAll(program, false)
    ensures CompiledReport(host, program, fuel, S.RunProgram(host, program, fuel))
  {
    hide Preservation.Reports, Preservation.Compiled, S.RunProgram, CodeGen.CompilableAll;
    var prog, r := Preservation.Compiled(program, fuel), S.RunProgram(host, program, fuel);
    Preservation.SlotsReport(host, program, fuel);
    forall q | Preservation.Reports(host, prog, q) ensures q == r {
      Preservation.ReportIsUnique(host, prog, q, r);
    }
  }

  lemma PrintingLoopDiffers()
    ensures RunProgram(SampleHost(true), PRINTING_LOOP, 5) == Report(None, 5, ["0", "0"])
    ensures CodeGen.CompilableAll(PRINTING_LOOP, false)
    ensures CompiledReport(SampleHost(true), PRINTING_LOOP, 5, Report(None, 5, ["0"]))
  {
    hide RunProgram, S.RunProgram, CompiledReport;
    assert PRINTING_LOOP[1..] == [] && PRINTING_LOOP[0].body[1..] == [];
    PrintingTree();
    PrintingSlots();
    SlotsAreCompiled(SampleHost(true), PRINTING_LOOP, 5);
  }

  lemma PrintingTree()
    ensures RunProgram(SampleHost(true), PRINTING_LOOP, 5) == Report(None, 5, ["0", "0"])
  {
    hide Charge, IterItems;
    var host := SampleHost(true);
    var s := PRINTING_LOOP[0];
    var st := State([map[]], 5, []);
    PrintsZero(host, map[], 1, []);
    PrintsZero(host, map[], 1, ["0"]);
    assert Visible(st.scopes) == map[];
    var one, two := st.(out := ["0"]), st.(out := ["0", "0"]);
    BreakBlock(host, 2, two);
    assert WhileLoop(host, s, one) == Step(Normal, two);
    PrintingEnters(host, st, one);
    assert PRINTING_LOOP[1..] == [];
    assert ExecBlock(host, PRINTING_LOOP[1..], two) == Step(Normal, two);
  }

  lemma PrintingEnters(host: Host, st: State, one: State)
    requires host.rechecks && st.scopes != [] && one == st.(out := one.out)
    requires EvalExpr(host, Visible(st.scopes), PRINTING_LOOP[0].cond, 1, st.out) == Evaluated(Good(VBool(true)), one.out)
    ensures ExecStmt(host, PRINTING_LOOP[0], st) == WhileLoop(host, PRINTING_LOOP[0], one)
  {
    hide EvalExpr, WhileLoop, Visible;
  }

  lemma PrintingSlots()
    ensures S.RunProgram(SampleHost(true), PRINTING_LOOP, 5) == Report(None, 5, ["0"])
  {
    var host := SampleHost(true);
    var s := PRINTING_LOOP[0];
    PrintsZero(host, map[], 1, []);
    assert PRINTING_LOOP[1..] == [];
    var fr := S.Frame([], [], 5, []);
    var fr1 := fr.(out := ["0"]);
    assert S.ExecBlock(host, [Break(2)], fr1) == S.SlotStep(Breaking(2), fr1);
    assert S.WhileLoop(host, s, fr) == S.SlotStep(Normal, fr1);
    assert S.ExecBlock(host, PRINTING_LOOP[1..], fr1) == S.SlotStep(Normal, fr1);
  }

  lemma PrintsZero(host: Host, env: Scope, line: nat, out: seq<string>)
    requires host.show(VInt(0)) == "0"
    ensures EvalExpr(host, env, Binary(Eq, Print([IntLit(0)]), NullLit), line, out) == Evaluated(Good(VBool(true)), out + ["0"])
  {
    var args := [IntLit(0)];
    assert args[1..] == [];
    assert EvalArgs(host, env, args[1..], line, out) == Evaluated(Good([]), out);
    assert EvalArgs(host, env, args, line, out) == Evaluated(Good([VInt(0)] + []), out);
    assert EvalExpr(host, env, Print(args), line, out) == Evaluated(Good(VNull), out + ["0"]);
    assert EvalExpr(host, env, NullLit, line, out + ["0"]) == Evaluated(Good(VNull), out + ["0"]);
  }

  lemma BreakBlock(host: Host, line: nat, st: State)
    requires st.scopes != []
    ensures ExecScoped(host, [Break(line)], map[], st) == Step(Breaking(line), st)
  {
    var inner := st.(scopes := st.scopes + [map[]]);
    assert ExecBlock(host, [Break(line)], inner) == Step(Breaking(line), inner);
    assert inner.scopes[..|st.scopes|] == st.scopes;
  }

  /** Reading a name from related scopes and slots agrees exactly when the name is not a hidden loop
      local that is in scope, that is, outside every `for`. Related scopes hold no variable of a hidden name. */
  lemma HiddenReadIff(st: State, fr: S.Frame, marks: seq<nat>, name: string, line: nat)
    requires Agreement.Related(st, fr, marks)
    ensures Read(Visible(st.scopes), name, line) == Read(fr.Env(), name, line) <==>
            !(Agreement.Hidden(name) && name in fr.names)
  {
    Agreement.VisibleAgrees(st.scopes, marks, fr.names, fr.vals);
    if Agreement.Hidden(name) {
      NeverHidden(st.scopes, marks, fr.names, fr.vals, name);
    }
  }

  /** Assigning to a name from related scopes and slots ends alike, unless the name is a hidden loop local in
      scope: then the tree evaluator finds no variable and the compiled code overwrites the loop's own. */
  lemma HiddenAssignIff(host: Host, s: Stmt, st: State, fr: S.Frame, marks: seq<nat>)
    requires s.Assign? && Agreement.CleanExpr(s.value) && Agreement.Related(st, fr, marks)
    ensures ExecStmt(host, s, st).flow == S.ExecStmt(host, s, fr).flow <==>
            !(S.Eval(host, s.value, s.line, fr).result.Good? && Agreement.Hidden(s.name) && s.name in fr.names)
  {
    hide EvalExpr, S.Bindings, Visible, Agreement.Layered;
    Agreement.FrameEvalAgrees(host, s.value, s.line, st, fr, marks);
    if Agreement.Hidden(s.name) {
      NeverHidden(st.scopes, marks, fr.names, fr.vals, s.name);
    } else {
      Agreement.SlotOf(st, fr, marks, s.name);
    }
  }

  /** Likewise for assigning to an element. The tree evaluator looks for the variable before anything else,
      so here no other fault can come first. */
  lemma HiddenIndexAssignIff(host: Host, s: Stmt, st: State, fr: S.Frame, marks: seq<nat>)
    requires s.IndexAssign? && Agreement.CleanExpr(s.index) && Agreement.CleanExpr(s.value) && Agreement.Related(st, fr, marks)
    ensures ExecStmt(host, s, st).flow == S.ExecStmt(host, s, fr).flow <==> !(Agreement.Hidden(s.name) && s.name in fr.names)
  {
    hide EvalExpr, S.Bindings, Visible, Agreement.Layered, AssignIndex;
    if Agreement.Hidden(s.name) {
      NeverHidden(st.scopes, marks, fr.names, fr.vals, s.name);
      CleanFault(host, fr.Env(), s.index, s.line, fr.out);
      var i := S.Eval(host, s.index, s.line, fr);
      CleanFault(host, fr.Env(), s.value, s.line, i.out);
      var slot := S.Resolve(fr.names, s.name);
      if slot.Some? && i.result.Good? {
        var v := S.Eval(host, s.value, s.line, fr.(out := i.out));
        if v.result.Good? {
          ElementFault(fr.vals[slot.value], i.result.value, v.result.value, s.line);
        }
      }
    } else {
      Agreement.IndexAssignAgrees(host, s, st, fr, marks);
    }
  }

  /** A fault that reports a hidden loop local as undefined. */
  predicate MissesHidden(f: Fault) { f.cause.UndefinedName? && Agreement.Hidden(f.cause.name) }

  lemma ElementFault(base: Value, index: Value, v: Value, line: nat)
    ensures var r := AssignIndex(base, index, v, line); r.Bad? ==> !MissesHidden(r.fault)
  {
  }

  lemma BinopFault(op: BinOp, l: Value, r: Value, line: nat)
    ensures var v := EvalBinop(op, l, r, line); v.Bad? ==> !MissesHidden(v.fault)
  {
  }

  lemma UnaryFault(op: UnaryOp, v: Value, line: nat)
    ensures var r := EvalUnary(op, v, line); r.Bad? ==> !MissesHidden(r.fault)
  {
  }

  lemma ReadElementFault(host: Host, base: Value, index: Value, line: nat)
    ensures var r := EvalIndex(host, base, index, line); r.Bad? ==> !MissesHidden(r.fault)
  {
  }

  /** An expression that names no hidden loop local misses none. */
  lemma {:induction false} CleanFault(host: Host, env: Scope, e: Expr, line: nat, out: seq<string>)
    requires Agreement.CleanExpr(e)
    ensures var r := EvalExpr(host, env, e, line, out).result; r.Bad? ==> !MissesHidden(r.fault)
    decreases e, 1
  {
    hide EvalBinop, EvalUnary, EvalIndex;
    match e
    case Binary(op, l, r) =>
      CleanFault(host, env, l, line, out);
      var v := EvalExpr(host, env, l, line, out);
      CleanFault(host, env, r, line, v.out);
      var w := EvalExpr(host, env, r, line, v.out);
      if v.result.Good? && w.result.Good? {
        BinopFault(op, v.result.value, w.result.value, line);
      }
    case Unary(op, x) =>
      CleanFault(host, env, x, line, out);
      var v := EvalExpr(host, env, x, line, out);
      if v.result.Good? {
        UnaryFault(op, v.result.value, line);
      }
    case Print(args) =>
      CleanArgsFault(host, env, args, line, out);
    case ListLit(items) =>
      CleanElementsFault(host, env, items, [], line, out);
    case Index(_, _) => CleanIndexFault(host, env, e, line, out);
    case _ =>
  }

  lemma {:induction false} CleanIndexFault(host: Host, env: Scope, e: Expr, line: nat, out: seq<string>)
    requires e.Index? && Agreement.CleanExpr(e)
    ensures var r := EvalExpr(host, env, e, line, out).result; r.Bad? ==> !MissesHidden(r.fault)
    decreases e, 0
  {
    hide EvalIndex, IsSideEffectFree;
    CleanFault(host, env, e.base, line, out);
    CleanFault(host, env, e.index, line, out);
    var b := EvalExpr(host, env, e.base, line, out);
    CleanFault(host, env, e.index, line, b.out);
    forall v, i
      ensures var r := EvalIndex(host, v, i, line); r.Bad? ==> !MissesHidden(r.fault)
    {
      ReadElementFault(host, v, i, line);
    }
  }

  lemma {:induction false} CleanArgsFault(host: Host, env: Scope, es: seq<Expr>, line: nat, out: seq<string>)
    requires Agreement.CleanExprs(es)
    ensures var r := EvalArgs(host, env, es, line, out).result; r.Bad? ==> !MissesHidden(r.fault)
    decreases es, 0
  {
    if es != [] {
      CleanFault(host, env, es[0], line, out);
      CleanArgsFault(host, env, es[1..], line, EvalExpr(host, env, es[0], line, out).out);
    }
  }

  lemma {:induction false} CleanElementsFault(host: Host, env: Scope, es: seq<Expr>, list: seq<Value>, line: nat, out: seq<string>)
    requires Agreement.CleanExprs(es)
    ensures var r := EvalElements(host, env, es, list, line, out).result; r.Bad? ==> !MissesHidden(r.fault)
    decreases es, 0
  {
    if es != [] {
      CleanFault(host, env, es[0], line, out);
      var v := EvalExpr(host, env, es[0], line, out);
      if v.result.Good? {
        var longer := AppendElement(host, list, v.result.value, line);
        if longer.Good? {
          CleanElementsFault(host, env, es[1..], longer.value, line, v.out);
        }
      }
    }
  }

  lemma {:induction false} NeverHidden(scopes: seq<Scope>, marks: seq<nat>, names: seq<string>, vals: seq<Value>, name: string)
    requires Agreement.Layered(scopes, marks, names, vals) && Agreement.Hidden(name)
    ensures name !in Visible(scopes)
    decreases |scopes|
  {
    var last := |scopes| - 1;
    if last > 0 {
      NeverHidden(scopes[..last], marks[..last], names[..marks[last]], vals[..marks[last]], name);
    }
  }

  /** `for x in "a"  print(__index__)  end`: an undefined name for the tree evaluator, the counter for
      the compiled program. */
  const PEEKING_LOOP: seq<Stmt> := [For("x", StrLit("a"), [ExprStmt(Print([Ident(S.INDEX)]), 2)], 1)]

  lemma PeekingLoopDiffers()
    ensures RunProgram(SampleHost(true), PEEKING_LOOP, 5) == Report(Some(Fault(UndefinedName(S.INDEX), 2)), 5, [])
    ensures CodeGen.CompilableAll(PEEKING_LOOP, false)
    ensures CompiledReport(SampleHost(true), PEEKING_LOOP, 5, Report(None, 4, ["0"]))
  {
    hide CompiledReport;
    var s := PEEKING_LOOP[0];
    assert s.body[1..] == [] && CodeGen.CompilableAll(s.body, true);
    assert PEEKING_LOOP[1..] == [] && CodeGen.Compilable(s, false);
    SlotsAreCompiled(SampleHost(true), PEEKING_LOOP, 5);
    PeekingTree(SampleHost(true), State([map[]], 5, []));
    PeekingSlots(SampleHost(true), S.Frame([], [], 5, []));
  }

  lemma PeekingTree(host: Host, st: State)
    requires host == SampleHost(true) && st == State([map[]], 5, [])
    ensures ExecBlock(host, PEEKING_LOOP, st).flow == Failing(Fault(UndefinedName(S.INDEX), 2))
    ensures ExecBlock(host, PEEKING_LOOP, st).st.fuel == 5 && ExecBlock(host, PEEKING_LOOP, st).st.out == []
  {
    var s := PEEKING_LOOP[0];
    var items := Chars("a");
    var inner := st.(scopes := st.scopes + [map["x" := items[0]]]);
    var e := Print([Ident(S.INDEX)]);
    assert inner.scopes[..1] == [map[]];
    assert Visible([map[]]) == map[];
    assert Visible(inner.scopes) == map["x" := items[0]];
    assert EvalArgs(host, Visible(inner.scopes), [Ident(S.INDEX)], 2, []).result == Bad(Fault(UndefinedName(S.INDEX), 2));
    assert ExecStmt(host, ExprStmt(e, 2), inner) == Step(Failing(Fault(UndefinedName(S.INDEX), 2)), inner);
    assert ExecBlock(host, s.body, inner) == Step(Failing(Fault(UndefinedName(S.INDEX), 2)), inner);
    assert EvalExpr(host, Visible(st.scopes), s.iter, 1, []) == Evaluated(Good(VStr("a")), []);
    assert ForLoop(host, s, items, 0, st).flow == Failing(Fault(UndefinedName(S.INDEX), 2));
  }

  /** The frame in the body of that loop: list, counter, loop variable. */
  function Peeking(count: int, x: Value, fuel: nat, out: seq<string>): S.Frame {
    S.Frame([S.COLLECTION, S.INDEX, "x"], [VList(Chars("a")), VInt(count), x], fuel, out)
  }

  lemma PeekingBody(host: Host)
    requires host == SampleHost(true)
    ensures var s, fr := PEEKING_LOOP[0], Peeking(0, VStr("a"), 5, []);
            S.ExecScoped(host, s.body, fr, 3) == S.SlotStep(Normal, fr.(out := ["0"]))
  {
    var s, fr := PEEKING_LOOP[0], Peeking(0, VStr("a"), 5, []);
    S.BindingsAt(fr.names, fr.vals, S.INDEX);
    assert S.Resolve(fr.names, S.INDEX) == Some(1);
    PrintsIndex(host, fr.Env());
    assert S.ExecStmt(host, s.body[0], fr) == S.SlotStep(Normal, fr.(out := ["0"]));
    assert s.body[1..] == [];
    assert S.ExecBlock(host, s.body, fr) == S.SlotStep(Normal, fr.(out := ["0"]));
  }

  lemma PeekingLoopRuns(host: Host)
    requires host == SampleHost(true)
    ensures S.ForLoop(host, PEEKING_LOOP[0], 0, Peeking(0, VNull, 5, [])) ==
            S.SlotStep(Normal, Peeking(1, VStr("a"), 4, ["0"]))
  {
    hide S.ExecScoped;
    var s := PEEKING_LOOP[0];
    PeekingBody(host);
    var fr0, fr3 := Peeking(0, VNull, 5, []), Peeking(1, VStr("a"), 4, ["0"]);
    assert S.ForLoop(host, s, 0, fr3) == S.SlotStep(Normal, fr3);
    assert fr0.(vals := fr0.vals[2 := VStr("a")]) == Peeking(0, VStr("a"), 5, []);
    assert Peeking(0, VStr("a"), 5, []).vals[1 := VInt(1)] == fr3.vals;
  }

  lemma PeekingSlots(host: Host, fr: S.Frame)
    requires host == SampleHost(true) && fr == S.Frame([], [], 5, [])
    ensures S.ExecBlock(host, PEEKING_LOOP, fr).flow == Normal
    ensures S.ExecBlock(host, PEEKING_LOOP, fr).fr.fuel == 4 && S.ExecBlock(host, PEEKING_LOOP, fr).fr.out == ["0"]
  {
    hide S.ForLoop;
    var s := PEEKING_LOOP[0];
    PeekingLoopRuns(host);
    assert S.Declare(S.Declare(S.Declare(fr, S.COLLECTION, VList(Chars("a"))), S.INDEX, VInt(0)), "x", VNull) ==
           Peeking(0, VNull, 5, []);
    assert S.ExecStmt(host, s, fr) == S.SlotStep(Normal, S.Shrink(Peeking(1, VStr("a"), 4, ["0"]), 0));
    assert PEEKING_LOOP[1..] == [];
  }

  lemma PrintsIndex(host: Host, env: Scope)
    requires host.show(VInt(0)) == "0" && S.INDEX in env && env[S.INDEX] == VInt(0)
    ensures EvalExpr(host, env, Print([Ident(S.INDEX)]), 2, []) == Evaluated(Good(VNull), ["0"])
  {
    var args := [Ident(S.INDEX)];
    assert args[1..] == [];
    assert EvalArgs(host, env, args[1..], 2, []) == Evaluated(Good([]), []);
    assert EvalArgs(host, env, args, 2, []) == Evaluated(Good([VInt(0)] + []), []);
  }
}

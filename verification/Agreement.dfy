/** Scopes against slots: on programs that do not name the hidden loop locals, the slot semantics and
    the tree evaluator agree on everything an embedder can see, if either no `while` condition
    contains a call or the evaluator does not evaluate it twice on entry. */
module Agreement {
  import opened Lang
  import T = Tree
  import S = Slots

  predicate Hidden(name: string) { name == S.COLLECTION || name == S.INDEX }

  // ----- The programs the claim is about -----

  predicate CleanExpr(e: Expr) {
    match e
    case Ident(name) => !Hidden(name)
    case Binary(_, l, r) => CleanExpr(l) && CleanExpr(r)
    case Unary(_, x) => CleanExpr(x)
    case Print(args) => CleanExprs(args)
    case ListLit(items) => CleanExprs(items)
    case Index(b, i) => CleanExpr(b) && CleanExpr(i)
    case _ => true
  }

  predicate CleanExprs(es: seq<Expr>) {
    es != [] ==> CleanExpr(es[0]) && CleanExprs(es[1..])
  }

  /** No identifier of the statement is a hidden loop local. */
  predicate Clean(s: Stmt) {
    match s
    case Let(name, v, _) => !Hidden(name) && CleanExpr(v)
    case Assign(name, v, _) => !Hidden(name) && CleanExpr(v)
    case IndexAssign(name, i, v, _) => !Hidden(name) && CleanExpr(i) && CleanExpr(v)
    case ExprStmt(e, _) => CleanExpr(e)
    case If(c, t, e, _) => CleanExpr(c) && CleanAll(t) && CleanAll(e)
    case While(c, b, _) => CleanExpr(c) && CleanAll(b)
    case For(x, it, b, _) => !Hidden(x) && CleanExpr(it) && CleanAll(b)
    case TryCatch(t, x, c, _) => CleanAll(t) && !Hidden(x) && CleanAll(c)
    case Return(v, _) => CleanExpr(v)
    case Break(_) => true
    case Continue(_) => true
  }

  predicate CleanAll(ss: seq<Stmt>) {
    ss != [] ==> Clean(ss[0]) && CleanAll(ss[1..])
  }

  /** No `while` condition of the statement contains a call. */
  predicate PureLoops(s: Stmt) {
    match s
    case If(_, t, e, _) => PureLoopsAll(t) && PureLoopsAll(e)
    case While(c, b, _) => !ContainsCall(c) && PureLoopsAll(b)
    case For(_, _, b, _) => PureLoopsAll(b)
    case TryCatch(t, _, c, _) => PureLoopsAll(t) && PureLoopsAll(c)
    case _ => true
  }

  predicate PureLoopsAll(ss: seq<Stmt>) {
    ss != [] ==> PureLoops(ss[0]) && PureLoopsAll(ss[1..])
  }

  /** What the claim asks of a statement under this host. */
  predicate Fit(host: Host, s: Stmt) { Clean(s) && (host.rechecks ==> PureLoops(s)) && host.maxCollection <= I64_MAX }

  predicate FitAll(host: Host, ss: seq<Stmt>) {
    CleanAll(ss) && (host.rechecks ==> PureLoopsAll(ss)) && host.maxCollection <= I64_MAX
  }

  // ----- Scopes that stand for slots -----

  /** The bindings of some slots, without the hidden ones. */
  function Plain(names: seq<string>, vals: seq<Value>): T.Scope
    requires |names| == |vals|
  {
    map n | n in S.Bindings(names, vals) && !Hidden(n) :: S.Bindings(names, vals)[n]
  }

  /** Every scope stands for a stretch of slots; `marks` says where each stretch begins. */
  ghost predicate Layered(scopes: seq<T.Scope>, marks: seq<nat>, names: seq<string>, vals: seq<Value>)
    decreases |scopes|
  {
    && |names| == |vals| && |scopes| == |marks| && |scopes| > 0
    && var last := |scopes| - 1;
       var m := marks[last];
       && m <= |names|
       && scopes[last] == Plain(names[m..], vals[m..])
       && if last == 0 then m == 0 else Layered(scopes[..last], marks[..last], names[..m], vals[..m])
  }

  ghost predicate Agree(a: T.Scope, b: T.Scope) {
    forall n :: !Hidden(n) ==> (n in a <==> n in b) && (n in a ==> a[n] == b[n])
  }

  lemma {:induction false} BindingsSplit(names: seq<string>, vals: seq<Value>, m: nat)
    requires |names| == |vals| && m <= |names|
    ensures S.Bindings(names, vals) == S.Bindings(names[..m], vals[..m]) + S.Bindings(names[m..], vals[m..])
  {
    hide S.Bindings;
    if m == |names| {
      assert names[..m] == names && vals[..m] == vals;
      NoBindings(names[m..], vals[m..]);
    } else {
      var last := |names| - 1;
      var ns, vs := names[..last], vals[..last];
      BindingsSplit(ns, vs, m);
      TailBindings(names, vals, m);
      assert ns[..m] == names[..m] && vs[..m] == vals[..m];
      LastBinding(names, vals);
      OverrideUpdate(S.Bindings(ns[..m], vs[..m]), S.Bindings(ns[m..], vs[m..]), names[last], vals[last]);
    }
  }

  lemma NoBindings(names: seq<string>, vals: seq<Value>)
    requires |names| == |vals| == 0
    ensures S.Bindings(names, vals) == map[]
  {
  }

  lemma LastBinding(names: seq<string>, vals: seq<Value>)
    requires |names| == |vals| > 0
    ensures var last := |names| - 1; S.Bindings(names, vals) == S.Bindings(names[..last], vals[..last])[names[last] := vals[last]]
  {
  }

  lemma OverrideUpdate(a: T.Scope, b: T.Scope, k: string, v: Value)
    ensures a + b[k := v] == (a + b)[k := v]
  {
  }

  lemma TailBindings(names: seq<string>, vals: seq<Value>, m: nat)
    requires |names| == |vals| && m < |names|
    ensures var last := |names| - 1;
            S.Bindings(names[m..], vals[m..]) == S.Bindings(names[..last][m..], vals[..last][m..])[names[last] := vals[last]]
  {
    var last := |names| - 1;
    assert names[m..][..last - m] == names[..last][m..] && vals[m..][..last - m] == vals[..last][m..];
  }

  lemma {:induction false} VisibleAgrees(scopes: seq<T.Scope>, marks: seq<nat>, names: seq<string>, vals: seq<Value>)
    requires Layered(scopes, marks, names, vals)
    ensures Agree(T.Visible(scopes), S.Bindings(names, vals))
    decreases |scopes|
  {
    var last := |scopes| - 1;
    var m := marks[last];
    BindingsSplit(names, vals, m);
    if last > 0 {
      VisibleAgrees(scopes[..last], marks[..last], names[..m], vals[..m]);
    }
  }

  lemma PlainExtends(names: seq<string>, vals: seq<Value>, name: string, v: Value)
    requires |names| == |vals|
    ensures Plain(names + [name], vals + [v]) == if Hidden(name) then Plain(names, vals) else Plain(names, vals)[name := v]
  {
    assert (names + [name])[..|names|] == names && (vals + [v])[..|vals|] == vals;
  }

  lemma BindKeeps(scopes: seq<T.Scope>, marks: seq<nat>, names: seq<string>, vals: seq<Value>, name: string, v: Value)
    requires Layered(scopes, marks, names, vals) && !Hidden(name)
    ensures Layered(T.Bind(scopes, name, v), marks, names + [name], vals + [v])
  {
    var last := |scopes| - 1;
    var m := marks[last];
    PlainExtends(names[m..], vals[m..], name, v);
    assert (names + [name])[m..] == names[m..] + [name] && (vals + [v])[m..] == vals[m..] + [v];
    assert (names + [name])[..m] == names[..m] && (vals + [v])[..m] == vals[..m];
    assert T.Bind(scopes, name, v)[..last] == scopes[..last];
  }

  lemma {:induction false} ResolveIn(names: seq<string>, m: nat, name: string)
    requires m <= |names|
    ensures S.Resolve(names, name) ==
            match S.Resolve(names[m..], name)
            case Some(i) => Some(m + i)
            case None => S.Resolve(names[..m], name)
    decreases |names|
  {
    if m < |names| {
      var last := |names| - 1;
      assert names[m..][..last - m] == names[..last][m..];
      assert names[..last][..m] == names[..m];
      ResolveIn(names[..last], m, name);
    } else {
      assert names[..m] == names;
    }
  }

  lemma {:induction false} BindingsUpdate(names: seq<string>, vals: seq<Value>, slot: nat, v: Value)
    requires |names| == |vals| && slot < |names| && S.Resolve(names, names[slot]) == Some(slot)
    ensures S.Bindings(names, vals[slot := v]) == S.Bindings(names, vals)[names[slot] := v]
  {
    var last := |names| - 1;
    if slot < last {
      BindingsUpdate(names[..last], vals[..last], slot, v);
      assert vals[slot := v][..last] == vals[..last][slot := v];
    } else {
      assert vals[slot := v][..last] == vals[..last];
    }
  }

  lemma {:induction false} UpdateKeeps(scopes: seq<T.Scope>, marks: seq<nat>, names: seq<string>, vals: seq<Value>, slot: nat, v: Value)
    requires Layered(scopes, marks, names, vals) && slot < |names| && !Hidden(names[slot])
    requires S.Resolve(names, names[slot]) == Some(slot)
    ensures Layered(T.Update(scopes, names[slot], v), marks, names, vals[slot := v])
    decreases |scopes|
  {
    hide S.Bindings, S.Resolve, Plain;
    var last := |scopes| - 1;
    var m := marks[last];
    var name := names[slot];
    ResolveIn(names, m, name);
    PlainBinds(names[m..], vals[m..], name);
    if slot >= m {
      UpdateTop(names, vals, m, slot, v);
      assert vals[slot := v][..m] == vals[..m];
      assert T.Update(scopes, name, v)[..last] == scopes[..last];
    } else {
      assert vals[slot := v][m..] == vals[m..];
      assert vals[slot := v][..m] == vals[..m][slot := v];
      UpdateKeeps(scopes[..last], marks[..last], names[..m], vals[..m], slot, v);
      assert T.Update(scopes, name, v)[..last] == T.Update(scopes[..last], name, v);
    }
  }

  lemma PlainBinds(names: seq<string>, vals: seq<Value>, name: string)
    requires |names| == |vals| && !Hidden(name)
    ensures name in Plain(names, vals) <==> S.Resolve(names, name).Some?
  {
    hide S.Bindings, S.Resolve;
    S.BindingsAt(names, vals, name);
  }

  lemma UpdateTop(names: seq<string>, vals: seq<Value>, m: nat, slot: nat, v: Value)
    requires |names| == |vals| && m <= slot < |names| && !Hidden(names[slot])
    requires S.Resolve(names[m..], names[slot]) == Some(slot - m)
    ensures Plain(names[m..], vals[slot := v][m..]) == Plain(names[m..], vals[m..])[names[slot] := v]
  {
    BindingsUpdate(names[m..], vals[m..], slot - m, v);
    assert vals[slot := v][m..] == vals[m..][slot - m := v];
  }

  /** A new scope whose bindings are those of the slots from `m` on. */
  lemma PushKeeps(scopes: seq<T.Scope>, marks: seq<nat>, names: seq<string>, vals: seq<Value>, m: nat, bindings: T.Scope)
    requires |names| == |vals| && m <= |names|
    requires Layered(scopes, marks, names[..m], vals[..m]) && bindings == Plain(names[m..], vals[m..])
    ensures Layered(scopes + [bindings], marks + [m], names, vals)
  {
    assert (scopes + [bindings])[..|scopes|] == scopes;
    assert (marks + [m])[..|marks|] == marks;
  }

  lemma PopKeeps(scopes: seq<T.Scope>, marks: seq<nat>, m: nat, names: seq<string>, vals: seq<Value>)
    requires Layered(scopes, marks + [m], names, vals) && marks != []
    ensures m <= |names| && Layered(scopes[..|marks|], marks, names[..m], vals[..m])
  {
    assert (marks + [m])[..|marks|] == marks;
  }

  // ----- Expressions -----

  lemma {:induction false} EvalAgrees(host: Host, a: T.Scope, b: T.Scope, e: Expr, line: nat, out: seq<string>)
    requires Agree(a, b) && CleanExpr(e)
    ensures T.EvalExpr(host, a, e, line, out) == T.EvalExpr(host, b, e, line, out)
    decreases e, 1
  {
    match e
    case Binary(op, l, r) =>
      EvalAgrees(host, a, b, l, line, out);
      EvalAgrees(host, a, b, r, line, T.EvalExpr(host, a, l, line, out).out);
    case Unary(_, x) =>
      EvalAgrees(host, a, b, x, line, out);
    case Print(args) =>
      ArgsAgree(host, a, b, args, line, out);
    case ListLit(items) =>
      ElementsAgree(host, a, b, items, [], line, out);
    case Index(base, i) =>
      EvalAgrees(host, a, b, base, line, out);
      EvalAgrees(host, a, b, i, line, out);
      EvalAgrees(host, a, b, i, line, T.EvalExpr(host, a, base, line, out).out);
    case _ =>
  }

  lemma {:induction false} ArgsAgree(host: Host, a: T.Scope, b: T.Scope, es: seq<Expr>, line: nat, out: seq<string>)
    requires Agree(a, b) && CleanExprs(es)
    ensures T.EvalArgs(host, a, es, line, out) == T.EvalArgs(host, b, es, line, out)
    decreases es, 0
  {
    if es != [] {
      EvalAgrees(host, a, b, es[0], line, out);
      ArgsAgree(host, a, b, es[1..], line, T.EvalExpr(host, a, es[0], line, out).out);
    }
  }

  lemma {:induction false} ElementsAgree(host: Host, a: T.Scope, b: T.Scope, es: seq<Expr>, list: seq<Value>, line: nat, out: seq<string>)
    requires Agree(a, b) && CleanExprs(es)
    ensures T.EvalElements(host, a, es, list, line, out) == T.EvalElements(host, b, es, list, line, out)
    decreases es, 0
  {
    if es != [] {
      EvalAgrees(host, a, b, es[0], line, out);
      var v := T.EvalExpr(host, a, es[0], line, out);
      if v.result.Good? {
        var longer := AppendElement(host, list, v.result.value, line);
        if longer.Good? {
          ElementsAgree(host, a, b, es[1..], longer.value, line, v.out);
        }
      }
    }
  }

  /** Without a call there is no output, so evaluating again changes nothing. */
  lemma {:induction false} CallFreeIsSilent(host: Host, env: T.Scope, e: Expr, line: nat, out: seq<string>)
    requires !ContainsCall(e)
    ensures T.EvalExpr(host, env, e, line, out).out == out
    decreases e, 1
  {
    match e
    case Binary(_, l, r) =>
      CallFreeIsSilent(host, env, l, line, out);
      CallFreeIsSilent(host, env, r, line, out);
    case Unary(_, x) =>
      CallFreeIsSilent(host, env, x, line, out);
    case ListLit(items) =>
      CallFreeElements(host, env, items, [], line, out);
    case Index(base, i) =>
      CallFreeIsSilent(host, env, base, line, out);
      CallFreeIsSilent(host, env, i, line, out);
    case _ =>
  }

  lemma {:induction false} CallFreeElements(host: Host, env: T.Scope, es: seq<Expr>, list: seq<Value>, line: nat, out: seq<string>)
    requires !ExistsCall(es)
    ensures T.EvalElements(host, env, es, list, line, out).out == out
    decreases es, 0
  {
    if es != [] {
      CallFreeIsSilent(host, env, es[0], line, out);
      var v := T.EvalExpr(host, env, es[0], line, out);
      if v.result.Good? {
        var longer := AppendElement(host, list, v.result.value, line);
        if longer.Good? {
          CallFreeElements(host, env, es[1..], longer.value, line, v.out);
        }
      }
    }
  }

  // ----- Statements -----

  ghost predicate Related(st: T.State, fr: S.Frame, marks: seq<nat>) {
    && fr.Valid() && st.scopes != [] && |st.scopes| == |marks|
    && st.fuel == fr.fuel && st.out == fr.out
    && Layered(st.scopes, marks, fr.names, fr.vals)
  }

  /** The hidden slots of the start are untouched. */
  ghost predicate Kept(fr: S.Frame, fr': S.Frame) {
    && |fr.names| == |fr.vals| && |fr'.names| == |fr'.vals| && fr.names <= fr'.names
    && forall i :: 0 <= i < |fr.names| && Hidden(fr.names[i]) ==> fr'.vals[i] == fr.vals[i]
  }

  ghost predicate Same(a: T.Step, b: S.SlotStep, marks: seq<nat>, fr: S.Frame) {
    a.flow == b.flow && Related(a.st, b.fr, marks) && Kept(fr, b.fr)
  }

  lemma KeptTransitive(a: S.Frame, b: S.Frame, c: S.Frame)
    requires Kept(a, b) && Kept(b, c)
    ensures Kept(a, c)
  {
    forall i | 0 <= i < |a.names| && Hidden(a.names[i])
      ensures c.vals[i] == a.vals[i]
    {
      assert b.names[i] == a.names[i];
    }
  }

  lemma FrameEvalAgrees(host: Host, e: Expr, line: nat, st: T.State, fr: S.Frame, marks: seq<nat>)
    requires Related(st, fr, marks) && CleanExpr(e)
    ensures T.EvalExpr(host, T.Visible(st.scopes), e, line, st.out) == S.Eval(host, e, line, fr)
  {
    hide T.EvalExpr, S.Bindings, T.Visible;
    VisibleAgrees(st.scopes, marks, fr.names, fr.vals);
    EvalAgrees(host, T.Visible(st.scopes), fr.Env(), e, line, st.out);
  }

  lemma SlotOf(st: T.State, fr: S.Frame, marks: seq<nat>, name: string)
    requires Related(st, fr, marks) && !Hidden(name)
    ensures match S.Resolve(fr.names, name)
            case Some(slot) => name in T.Visible(st.scopes) && T.Visible(st.scopes)[name] == fr.vals[slot]
            case None => name !in T.Visible(st.scopes)
  {
    hide S.Bindings, T.Visible;
    VisibleAgrees(st.scopes, marks, fr.names, fr.vals);
    S.BindingsAt(fr.names, fr.vals, name);
  }

  lemma LetAgrees(host: Host, s: Stmt, st: T.State, fr: S.Frame, marks: seq<nat>)
    requires s.Let? && Clean(s) && Related(st, fr, marks)
    ensures Same(T.ExecStmt(host, s, st), S.ExecStmt(host, s, fr), marks, fr)
  {
    hide T.EvalExpr, S.Bindings, T.Visible, Layered;
    FrameEvalAgrees(host, s.value, s.line, st, fr, marks);
    var v := S.Eval(host, s.value, s.line, fr);
    if v.result.Good? {
      BindKeeps(st.scopes, marks, fr.names, fr.vals, s.name, v.result.value);
    }
  }

  lemma AssignAgrees(host: Host, s: Stmt, st: T.State, fr: S.Frame, marks: seq<nat>)
    requires s.Assign? && Clean(s) && Related(st, fr, marks)
    ensures Same(T.ExecStmt(host, s, st), S.ExecStmt(host, s, fr), marks, fr)
  {
    hide T.EvalExpr, S.Bindings, T.Visible, T.Update, Layered;
    FrameEvalAgrees(host, s.value, s.line, st, fr, marks);
    SlotOf(st, fr, marks, s.name);
    var v := S.Eval(host, s.value, s.line, fr);
    var slot := S.Resolve(fr.names, s.name);
    if v.result.Good? && slot.Some? {
      UpdateKeeps(st.scopes, marks, fr.names, fr.vals, slot.value, v.result.value);
    }
  }

  lemma IndexAssignAgrees(host: Host, s: Stmt, st: T.State, fr: S.Frame, marks: seq<nat>)
    requires s.IndexAssign? && Clean(s) && Related(st, fr, marks)
    ensures Same(T.ExecStmt(host, s, st), S.ExecStmt(host, s, fr), marks, fr)
  {
    hide T.EvalExpr, S.Bindings, T.Visible, T.Update, Layered, AssignIndex;
    FrameEvalAgrees(host, s.index, s.line, st, fr, marks);
    SlotOf(st, fr, marks, s.name);
    var i := S.Eval(host, s.index, s.line, fr);
    FrameEvalAgrees(host, s.value, s.line, st.(out := i.out), fr.(out := i.out), marks);
    var slot := S.Resolve(fr.names, s.name);
    if i.result.Good? && slot.Some? {
      var v := S.Eval(host, s.value, s.line, fr.(out := i.out));
      if v.result.Good? {
        var updated := AssignIndex(fr.vals[slot.value], i.result.value, v.result.value, s.line);
        if updated.Good? {
          UpdateKeeps(st.scopes, marks, fr.names, fr.vals, slot.value, updated.value);
        }
      }
    }
  }

  lemma PlainStmtAgrees(host: Host, s: Stmt, st: T.State, fr: S.Frame, marks: seq<nat>)
    requires (s.ExprStmt? || s.Break? || s.Continue? || s.Return?) && Clean(s) && Related(st, fr, marks)
    ensures Same(T.ExecStmt(host, s, st), S.ExecStmt(host, s, fr), marks, fr)
  {
    hide T.EvalExpr, S.Bindings, T.Visible, Layered;
    if s.ExprStmt? {
      FrameEvalAgrees(host, s.expr, s.line, st, fr, marks);
    } else if s.Return? {
      FrameEvalAgrees(host, s.value, s.line, st, fr, marks);
    }
  }

  lemma {:induction false} StmtAgrees(host: Host, s: Stmt, st: T.State, fr: S.Frame, marks: seq<nat>)
    requires Fit(host, s) && Related(st, fr, marks)
    ensures Same(T.ExecStmt(host, s, st), S.ExecStmt(host, s, fr), marks, fr)
    decreases st.fuel, s, 3
  {
    hide T.ExecStmt, S.ExecStmt, Same, Related;
    match s
    case Let(_, _, _) => LetAgrees(host, s, st, fr, marks);
    case Assign(_, _, _) => AssignAgrees(host, s, st, fr, marks);
    case IndexAssign(_, _, _, _) => IndexAssignAgrees(host, s, st, fr, marks);
    case If(_, _, _, _) => IfAgrees(host, s, st, fr, marks);
    case While(_, _, _) => WhileAgrees(host, s, st, fr, marks);
    case For(_, _, _, _) => ForAgrees(host, s, st, fr, marks);
    case TryCatch(_, _, _, _) => TryAgrees(host, s, st, fr, marks);
    case _ => PlainStmtAgrees(host, s, st, fr, marks);
  }

  lemma {:induction false} BlockAgrees(host: Host, ss: seq<Stmt>, st: T.State, fr: S.Frame, marks: seq<nat>)
    requires FitAll(host, ss) && Related(st, fr, marks)
    ensures Same(T.ExecBlock(host, ss, st), S.ExecBlock(host, ss, fr), marks, fr)
    decreases st.fuel, ss, 0
  {
    hide T.ExecStmt, S.ExecStmt, Layered, Clean;
    if ss != [] {
      StmtAgrees(host, ss[0], st, fr, marks);
      var a, b := T.ExecStmt(host, ss[0], st), S.ExecStmt(host, ss[0], fr);
      if a.flow.Normal? {
        BlockAgrees(host, ss[1..], a.st, b.fr, marks);
        KeptTransitive(fr, b.fr, S.ExecBlock(host, ss[1..], b.fr).fr);
      }
    }
  }

  /** A block whose scope stands for the slots from `m` on, of which those from `keep` on are given
      back at its end. */
  lemma {:induction false} ScopedAgrees(
    host: Host, ss: seq<Stmt>, bindings: T.Scope, st: T.State, fr: S.Frame, m: nat, keep: nat, marks: seq<nat>)
    requires FitAll(host, ss)
    requires |fr.names| == |fr.vals| && m <= keep <= |fr.names|
    requires Related(st, S.Shrink(fr, m), marks) && bindings == Plain(fr.names[m..], fr.vals[m..])
    ensures var a, b := T.ExecScoped(host, ss, bindings, st), S.ExecScoped(host, ss, fr, keep);
            && a.flow == b.flow
            && Related(a.st, S.Shrink(b.fr, m), marks)
            && Kept(S.Shrink(fr, keep), b.fr)
    decreases st.fuel, ss, 1
  {
    hide T.ExecBlock, S.ExecBlock, Plain, Layered;
    PushKeeps(st.scopes, marks, fr.names, fr.vals, m, bindings);
    LayeredSizes(st.scopes, marks, fr.names[..m], fr.vals[..m]);
    var st' := st.(scopes := st.scopes + [bindings]);
    BlockAgrees(host, ss, st', fr, marks + [m]);
    var a, b := T.ExecBlock(host, ss, st'), S.ExecBlock(host, ss, fr);
    PopKeeps(a.st.scopes, marks, m, b.fr.names, b.fr.vals);
    assert b.fr.names[..keep][..m] == b.fr.names[..m] && b.fr.vals[..keep][..m] == b.fr.vals[..m];
    forall i | 0 <= i < keep && Hidden(fr.names[..keep][i])
      ensures b.fr.vals[..keep][i] == fr.vals[..keep][i]
    {
      assert fr.names[i] == fr.names[..keep][i];
    }
  }

  lemma LayeredSizes(scopes: seq<T.Scope>, marks: seq<nat>, names: seq<string>, vals: seq<Value>)
    requires Layered(scopes, marks, names, vals)
    ensures |scopes| == |marks| > 0 && |names| == |vals|
  {
  }

  /** The plain case: a fresh scope over no slot. */
  lemma {:induction false} InnerAgrees(host: Host, ss: seq<Stmt>, st: T.State, fr: S.Frame, marks: seq<nat>)
    requires FitAll(host, ss) && Related(st, fr, marks)
    ensures |fr.names| == |fr.vals|
    ensures Same(T.ExecScoped(host, ss, map[], st), S.ExecScoped(host, ss, fr, |fr.names|), marks, fr)
    decreases st.fuel, ss, 2
  {
    hide T.ExecScoped, S.ExecScoped, Layered, S.Bindings;
    LayeredSizes(st.scopes, marks, fr.names, fr.vals);
    ShrinkAll(fr);
    NoBindings([], []);
    var n := |fr.names|;
    assert fr.names[n..] == [] && fr.vals[n..] == [];
    assert map[] == Plain([], []);
    ScopedAgrees(host, ss, map[], st, fr, n, n, marks);
    ShrinkAll(S.ExecScoped(host, ss, fr, n).fr);
  }

  lemma ShrinkAll(fr: S.Frame)
    requires |fr.names| == |fr.vals|
    ensures S.Shrink(fr, |fr.names|) == fr
  {
  }

  // ----- Statements with a body -----

  lemma {:induction false} IfAgrees(host: Host, s: Stmt, st: T.State, fr: S.Frame, marks: seq<nat>)
    requires s.If? && Fit(host, s) && Related(st, fr, marks)
    ensures Same(T.ExecStmt(host, s, st), S.ExecStmt(host, s, fr), marks, fr)
    decreases st.fuel, s, 2
  {
    hide T.EvalExpr, S.Bindings, T.Visible, Layered, T.ExecScoped, S.ExecScoped;
    FrameEvalAgrees(host, s.cond, s.line, st, fr, marks);
    var v := S.Eval(host, s.cond, s.line, fr);
    if v.result.Good? {
      var st', fr' := st.(out := v.out), fr.(out := v.out);
      if Truthy(v.result.value) {
        InnerAgrees(host, s.thenBody, st', fr', marks);
      } else {
        InnerAgrees(host, s.elseBody, st', fr', marks);
      }
    }
  }

  lemma {:induction false} WhileAgrees(host: Host, s: Stmt, st: T.State, fr: S.Frame, marks: seq<nat>)
    requires s.While? && Fit(host, s) && Related(st, fr, marks)
    ensures Same(T.ExecStmt(host, s, st), S.ExecStmt(host, s, fr), marks, fr)
    decreases st.fuel, s, 2
  {
    hide T.EvalExpr, S.Bindings, T.Visible, Layered, T.WhileLoop, S.WhileLoop, CleanExpr, ContainsCall;
    if host.rechecks {
      CallFreeIsSilent(host, T.Visible(st.scopes), s.cond, s.line, st.out);
    }
    WhileLoopAgrees(host, s, st, fr, marks);
    WhileLoopStops(host, s, st);
  }

  /** When the condition fails or is false the loop controller would see the same. */
  lemma WhileLoopStops(host: Host, s: Stmt, st: T.State)
    requires s.While? && st.scopes != []
    ensures var v := T.EvalExpr(host, T.Visible(st.scopes), s.cond, s.line, st.out);
            && (v.result.Bad? ==> T.WhileLoop(host, s, st) == T.Step(T.Failing(v.result.fault), st.(out := v.out)))
            && (v.result.Good? && !Truthy(v.result.value) ==> T.WhileLoop(host, s, st) == T.Step(T.Normal, st.(out := v.out)))
  {
    hide T.EvalExpr, T.Visible, T.ExecScoped;
  }

  lemma {:induction false} WhileLoopAgrees(host: Host, s: Stmt, st: T.State, fr: S.Frame, marks: seq<nat>)
    requires s.While? && Fit(host, s) && Related(st, fr, marks)
    ensures Same(T.WhileLoop(host, s, st), S.WhileLoop(host, s, fr), marks, fr)
    decreases st.fuel, s, 1
  {
    hide T.EvalExpr, S.Bindings, T.Visible, Layered, T.ExecScoped, S.ExecScoped, CleanExpr, ContainsCall;
    FrameEvalAgrees(host, s.cond, s.line, st, fr, marks);
    var v := S.Eval(host, s.cond, s.line, fr);
    if v.result.Good? && Truthy(v.result.value) {
      var st', fr' := st.(out := v.out), fr.(out := v.out);
      InnerAgrees(host, s.body, st', fr', marks);
      var a, b := T.ExecScoped(host, s.body, map[], st'), S.ExecScoped(host, s.body, fr', |fr.names|);
      if (a.flow.Normal? || a.flow.Continuing?) && a.st.fuel > 0 {
        var a', b' := T.Charge(a.st, s.line).st, S.Charge(b.fr, s.line).fr;
        WhileLoopAgrees(host, s, a', b', marks);
        KeptTransitive(fr, b', S.WhileLoop(host, s, b').fr);
      }
    }
  }

  lemma {:induction false} TryAgrees(host: Host, s: Stmt, st: T.State, fr: S.Frame, marks: seq<nat>)
    requires s.TryCatch? && Fit(host, s) && Related(st, fr, marks)
    ensures Same(T.ExecStmt(host, s, st), S.ExecStmt(host, s, fr), marks, fr)
    decreases st.fuel, s, 2
  {
    hide S.Bindings, T.Visible, Layered, T.ExecScoped, S.ExecScoped, Plain;
    InnerAgrees(host, s.tryBody, st, fr, marks);
    var a, b := T.ExecScoped(host, s.tryBody, map[], st), S.ExecScoped(host, s.tryBody, fr, |fr.names|);
    if a.flow.Failing? && !IsUncatchable(a.flow.fault.cause) {
      var n := |fr.names|;
      var e := ErrorValue(host, a.flow.fault);
      var fr' := S.Declare(b.fr, s.binder, e);
      OneBinding(s.binder, e);
      assert fr'.names[n..] == [s.binder] && fr'.vals[n..] == [e];
      assert S.Shrink(fr', n) == b.fr;
      ScopedAgrees(host, s.catchBody, map[s.binder := e], a.st, fr', n, n, marks);
      var c := S.ExecScoped(host, s.catchBody, fr', n);
      ShrinkAll(c.fr);
      KeptTransitive(fr, b.fr, c.fr);
    }
  }

  lemma OneBinding(name: string, v: Value)
    requires !Hidden(name)
    ensures Plain([name], [v]) == map[name := v]
  {
    PlainExtends([], [], name, v);
    assert [] + [name] == [name] && [] + [v] == [v];
  }

  lemma {:induction false} ForAgrees(host: Host, s: Stmt, st: T.State, fr: S.Frame, marks: seq<nat>)
    requires s.For? && Fit(host, s) && Related(st, fr, marks)
    ensures Same(T.ExecStmt(host, s, st), S.ExecStmt(host, s, fr), marks, fr)
    decreases st.fuel, s, 2
  {
    hide T.EvalExpr, S.Bindings, T.Visible, Layered, T.ForLoop, S.ForLoop, CleanExpr, IterItems;
    FrameEvalAgrees(host, s.iter, s.line, st, fr, marks);
    var v := S.Eval(host, s.iter, s.line, fr);
    if v.result.Good? {
      var items := IterItems(host, v.result.value, s.line);
      if items.Good? {
        ItemsBounded(host, v.result.value, s.line);
        var n := |fr.names|;
        var fr' := fr.(out := v.out);
        var entered := S.Declare(S.Declare(S.Declare(fr', S.COLLECTION, VList(items.value)), S.INDEX, VInt(0)), s.binder, VNull);
        assert S.Shrink(entered, n) == fr';
        ForLoopAgrees(host, s, items.value, 0, st.(out := v.out), entered, n, marks);
      }
    }
  }

  lemma ItemsBounded(host: Host, v: Value, line: nat)
    ensures var items := IterItems(host, v, line); items.Good? ==> |items.value| <= host.maxCollection
  {
  }

  /** The tree evaluator holds the elements and the counter itself; the slots hold them in the two
      hidden locals, which a clean body cannot reach. */
  lemma {:induction false} ForLoopAgrees(
    host: Host, s: Stmt, items: seq<Value>, k: nat, st: T.State, fr: S.Frame, n: nat, marks: seq<nat>)
    requires s.For? && Fit(host, s) && k <= |items| <= host.maxCollection
    requires fr.Valid() && |fr.names| == n + 3
    requires fr.names[n] == S.COLLECTION && fr.names[n + 1] == S.INDEX && fr.names[n + 2] == s.binder
    requires fr.vals[n] == VList(items) && fr.vals[n + 1] == VInt(k)
    requires Related(st, S.Shrink(fr, n), marks)
    ensures var a, b := T.ForLoop(host, s, items, k, st), S.ForLoop(host, s, n, fr);
            a.flow == b.flow && Related(a.st, S.Shrink(b.fr, n), marks) && Kept(S.Shrink(fr, n), S.Shrink(b.fr, n))
    decreases st.fuel, s, 1
  {
    hide S.Bindings, Layered, T.ExecScoped, S.ExecScoped, T.ForLoop, S.ForLoop, S.ForHead, TreeIteration, SlotIteration, Kept;
    ForHeadIs(host, s, items, k, n, fr);
    UnfoldForLoops(host, s, items, k, st, fr, n);
    if k < |items| {
      ForBodyAgrees(host, s, items, k, st, fr, n, marks);
      var a := T.ExecScoped(host, s.body, map[s.binder := items[k]], st);
      var b := S.ExecScoped(host, s.body, fr.(vals := fr.vals[n + 2 := items[k]]), n + 3);
      NextIterationAgrees(host, s, items, k, a, b, S.Shrink(fr, n), n, marks);
    } else {
      KeptItself(S.Shrink(fr, n));
    }
  }

  lemma KeptItself(fr: S.Frame)
    requires fr.Valid()
    ensures Kept(fr, fr)
  {
  }

  lemma {:induction false} ForBodyAgrees(
    host: Host, s: Stmt, items: seq<Value>, k: nat, st: T.State, fr: S.Frame, n: nat, marks: seq<nat>)
    requires s.For? && Fit(host, s) && k < |items|
    requires fr.Valid() && |fr.names| == n + 3
    requires fr.names[n] == S.COLLECTION && fr.names[n + 1] == S.INDEX && fr.names[n + 2] == s.binder
    requires Related(st, S.Shrink(fr, n), marks)
    ensures var a := T.ExecScoped(host, s.body, map[s.binder := items[k]], st);
            var b := S.ExecScoped(host, s.body, fr.(vals := fr.vals[n + 2 := items[k]]), n + 3);
            && a.flow == b.flow && Related(a.st, S.Shrink(b.fr, n), marks)
            && b.fr.vals[n] == fr.vals[n] && b.fr.vals[n + 1] == fr.vals[n + 1]
            && Kept(S.Shrink(fr, n), S.Shrink(b.fr, n))
    decreases st.fuel, s, 0
  {
    hide S.Bindings, Layered, T.ExecScoped, S.ExecScoped, CleanExpr, Plain;
    var fr1 := fr.(vals := fr.vals[n + 2 := items[k]]);
    IterationScope(s, items, k, fr1, n);
    assert S.Shrink(fr1, n) == S.Shrink(fr, n);
    ScopedAgrees(host, s.body, map[s.binder := items[k]], st, fr1, n, n + 3, marks);
    ShrinkAll(fr1);
    KeptBelow(fr, fr1, S.ExecScoped(host, s.body, fr1, n + 3).fr, n);
  }

  lemma {:induction false} NextIterationAgrees(
    host: Host, s: Stmt, items: seq<Value>, k: nat, a: T.Step, b: S.SlotStep, fr0: S.Frame, n: nat, marks: seq<nat>)
    requires s.For? && Fit(host, s) && k < |items| <= host.maxCollection
    requires a.flow == b.flow && b.fr.Valid() && |b.fr.names| == n + 3
    requires b.fr.names[n] == S.COLLECTION && b.fr.names[n + 1] == S.INDEX && b.fr.names[n + 2] == s.binder
    requires b.fr.vals[n] == VList(items) && b.fr.vals[n + 1] == VInt(k)
    requires Related(a.st, S.Shrink(b.fr, n), marks) && Kept(fr0, S.Shrink(b.fr, n))
    ensures var a', b' := TreeIteration(host, s, items, k, a), SlotIteration(host, s, n, b);
            a'.flow == b'.flow && Related(a'.st, S.Shrink(b'.fr, n), marks) && Kept(fr0, S.Shrink(b'.fr, n))
    decreases a.st.fuel, s, 0
  {
    hide Layered, T.ForLoop, S.ForLoop, Clean;
    if a.flow.Normal? || a.flow.Continuing? {
      NextIndex(k, s.line);
      var next := b.fr.(vals := b.fr.vals[n + 1 := VInt(k + 1)]);
      assert S.Shrink(next, n) == S.Shrink(b.fr, n);
      if a.st.fuel > 0 {
        var a', b' := T.Charge(a.st, s.line).st, S.Charge(next, s.line).fr;
        assert S.Shrink(b', n) == S.Charge(S.Shrink(next, n), s.line).fr;
        ForLoopAgrees(host, s, items, k + 1, a', b', n, marks);
        KeptTransitive(fr0, S.Shrink(b', n), S.Shrink(S.ForLoop(host, s, n, b').fr, n));
      }
    }
  }

  lemma NextIndex(k: nat, line: nat)
    requires k < I64_MAX
    ensures T.EvalArithmetic(Add, VInt(k), VInt(1), line) == Good(VInt(k + 1))
  {
  }

  /** What the body of a clean `for` leaves alone. */
  lemma KeptBelow(fr: S.Frame, fr1: S.Frame, r: S.Frame, n: nat)
    requires fr.Valid() && |fr.names| == n + 3 && Hidden(fr.names[n]) && Hidden(fr.names[n + 1])
    requires fr1.Valid() && fr1.names == fr.names && fr1.vals[..n + 2] == fr.vals[..n + 2]
    requires Kept(fr1, r) && |r.names| == n + 3
    ensures r.vals[n] == fr.vals[n] && r.vals[n + 1] == fr.vals[n + 1]
    ensures Kept(S.Shrink(fr, n), S.Shrink(r, n))
  {
    assert fr1.vals[n] == fr1.vals[..n + 2][n] && fr1.vals[n + 1] == fr1.vals[..n + 2][n + 1];
    forall i | 0 <= i < n && Hidden(fr.names[..n][i])
      ensures r.vals[..n][i] == fr.vals[..n][i]
    {
      assert Hidden(fr1.names[i]);
      assert fr1.vals[i] == fr1.vals[..n + 2][i];
    }
  }

  lemma IterationScope(s: Stmt, items: seq<Value>, k: nat, fr: S.Frame, n: nat)
    requires s.For? && !Hidden(s.binder) && k < |items|
    requires fr.Valid() && |fr.names| == n + 3
    requires fr.names[n] == S.COLLECTION && fr.names[n + 1] == S.INDEX && fr.names[n + 2] == s.binder
    requires fr.vals[n + 2] == items[k]
    ensures Plain(fr.names[n..], fr.vals[n..]) == map[s.binder := items[k]]
  {
    hide S.Bindings, Plain;
    var a, b, c := fr.names[n], fr.names[n + 1], fr.names[n + 2];
    var x, y, z := fr.vals[n], fr.vals[n + 1], fr.vals[n + 2];
    assert fr.names[n..] == [a, b] + [c] && fr.vals[n..] == [x, y] + [z];
    assert [a] + [b] == [a, b] && [x] + [y] == [x, y] && [] + [a] == [a] && [] + [x] == [x];
    PlainExtends([], [], a, x);
    PlainExtends([a], [x], b, y);
    PlainExtends([a, b], [x, y], c, z);
    NoPlain();
  }

  lemma NoPlain()
    ensures Plain([], []) == map[]
  {
  }

  lemma ForHeadIs(host: Host, s: Stmt, items: seq<Value>, k: nat, n: nat, fr: S.Frame)
    requires s.For? && fr.Valid() && |fr.names| == n + 3 && k <= |items| <= I64_MAX
    requires fr.vals[n] == VList(items) && fr.vals[n + 1] == VInt(k)
    ensures S.ForHead(host, n, s.line, fr) == if k < |items| then Good(Some(items[k])) else Good(None)
  {
  }

  lemma UnfoldForLoops(host: Host, s: Stmt, items: seq<Value>, k: nat, st: T.State, fr: S.Frame, n: nat)
    requires s.For? && st.scopes != [] && k <= |items| && fr.Valid() && |fr.names| == n + 3
    requires S.ForHead(host, n, s.line, fr) == if k < |items| then Good(Some(items[k])) else Good(None)
    ensures T.ForLoop(host, s, items, k, st) ==
            if k == |items| then T.Step(T.Normal, st)
            else TreeIteration(host, s, items, k, T.ExecScoped(host, s.body, map[s.binder := items[k]], st))
    ensures S.ForLoop(host, s, n, fr) ==
            if k == |items| then S.SlotStep(T.Normal, fr)
            else SlotIteration(host, s, n, S.ExecScoped(host, s.body, fr.(vals := fr.vals[n + 2 := items[k]]), n + 3))
  {
    hide T.ExecScoped, S.ExecScoped, S.ForHead;
  }

  function TreeIteration(host: Host, s: Stmt, items: seq<Value>, k: nat, b: T.Step): T.Step
    requires s.For? && b.st.scopes != [] && k < |items|
  {
    match b.flow
    case Breaking(_) => T.Step(T.Normal, b.st)
    case Returning(_) => b
    case Failing(_) => b
    case _ =>
      var c := T.Charge(b.st, s.line);
      if c.flow.Normal? then T.ForLoop(host, s, items, k + 1, c.st) else c
  }

  function SlotIteration(host: Host, s: Stmt, n: nat, b: S.SlotStep): S.SlotStep
    requires s.For? && b.fr.Valid() && |b.fr.names| == n + 3
  {
    match b.flow
    case Breaking(_) => S.SlotStep(T.Normal, b.fr)
    case Returning(_) => b
    case Failing(_) => b
    case _ =>
      var next := T.EvalArithmetic(Add, b.fr.vals[n + 1], VInt(1), s.line);
      if next.Bad? then S.SlotStep(T.Failing(next.fault), b.fr)
      else
        var c := S.Charge(b.fr.(vals := b.fr.vals[n + 1 := next.value]), s.line);
        if c.flow.Normal? then S.ForLoop(host, s, n, c.fr) else c
  }

  /** Whole programs. */
  lemma ProgramAgrees(host: Host, program: seq<Stmt>, fuel: nat)
    requires FitAll(host, program)
    ensures T.RunProgram(host, program, fuel) == S.RunProgram(host, program, fuel)
  {
    hide T.ExecBlock, S.ExecBlock;
    NoPlain();
    BlockAgrees(host, program, T.State([map[]], fuel, []), S.Frame([], [], fuel, []), [0]);
  }
}

/** Two runs of the same code side by side, each capturing in its own way: every expression, statement, call and loop
    ends the same. */
module CapturePreserved {
  import opened Syntax
  import opened Closures
  import opened CaptureSuffices
  import Ownership

  lemma StateFacts(s: State, t: State)
    requires RelState(s, t)
    ensures s.steps == t.steps && s.out == t.out && s.nextId == t.nextId && |s.cells| == |t.cells|
    ensures forall line :: RelState(s.(out := s.out + [line]), t.(out := t.out + [line]))
    ensures RelState(s.(nextId := s.nextId + 1), t.(nextId := t.nextId + 1))
    ensures s.steps > 0 ==> RelState(s.(steps := s.steps - 1), t.(steps := t.steps - 1))
  {
    hide Rel;
  }

  predicate RelMany(r: Res<seq<Value>>, q: Res<seq<Value>>) { RelOutcomes(r.result, q.result) && RelState(r.st, q.st) }

  predicate RelDict(r: Res<seq<Entry>>, q: Res<seq<Entry>>) {
    RelEntriesOutcome(r.result, q.result) && RelState(r.st, q.st)
  }

  predicate RelText(r: Res<string>, q: Res<string>) { r.result == q.result && RelState(r.st, q.st) }

  predicate RelStep(names: set<string>, r: Step, q: Step) {
    RelFlow(r.flow, q.flow) && Agree(names, r.env, q.env) && RelState(r.st, q.st)
  }

  lemma Same(v: Value)
    ensures Rel(v, v)
  {
    hide Norm;
  }

  lemma RelAllCons(v: Value, w: Value, vs: seq<Value>, ws: seq<Value>)
    requires Rel(v, w) && RelAll(vs, ws)
    ensures RelAll([v] + vs, [w] + ws)
  {
    hide Norm;
    assert ([v] + vs)[1..] == vs && ([w] + ws)[1..] == ws;
    assert NormAll([v] + vs) == [Norm(v)] + NormAll(vs);
    assert NormAll([w] + ws) == [Norm(w)] + NormAll(ws);
  }

  lemma RelAllSize(vs: seq<Value>, ws: seq<Value>)
    requires RelAll(vs, ws)
    ensures |vs| == |ws|
  {
    assert |NormAll(vs)| == |vs| && |NormAll(ws)| == |ws|;
  }

  lemma RelNone()
    ensures RelAll([], []) && RelEntries([], [])
  {
  }

  lemma ShowSame(host: Host, v: Value, w: Value, nested: bool)
    requires Rel(v, w)
    ensures Show(host, v, nested) == Show(host, w, nested)
  {
    hide Norm, Show;
    ShowNorm(host, v, nested);
    ShowNorm(host, w, nested);
  }

  lemma LineSame(host: Host, vs: seq<Value>, ws: seq<Value>)
    requires RelAll(vs, ws)
    ensures Line(host, vs) == Line(host, ws)
  {
    hide NormAll, Line;
    LineNorm(host, vs);
    LineNorm(host, ws);
  }

  // ----- Expressions -----

  lemma {:induction false} ExprSame(host: Host, p: Policy, q: Policy, names: set<string>, a: Env, b: Env,
                                    e: Expr, s: State, t: State)
    requires Covers(names, [E(e)]) && Agree(names, a, b) && RelState(s, t)
    ensures RelRes(EvalExpr(host, p, a, e, s), EvalExpr(host, q, b, e, t))
    decreases s.steps, e, 3
  {
    hide RelState, Rel, RelAll, RelEntries, Agree, Covers, Visible, NamesOf, Only, Capture, Read, EvalCall, EvalExprs, EvalItems,
         EvalPairs, EvalParts, Binop, Unop, At, Show, Truthy, Exprs, PairKids, PartKids;
    CoversInside(names, E(e));
    StateFacts(s, t);
    match e {
      case ListLit(items) => {
        RelNone();
        ItemsOfSame(host, p, q, names, a, b, items, [], [], s, t);
        var vs, ws := EvalItems(host, p, a, items, [], s), EvalItems(host, q, b, items, [], t);
        if vs.result.Good? {
          RelLists(vs.result.value, ws.result.value);
        }
      }
      case DictLit(pairs) => {
        RelNone();
        PairsSame(host, p, q, names, a, b, pairs, [], [], s, t);
        var vs, ws := EvalPairs(host, p, a, pairs, [], s), EvalPairs(host, q, b, pairs, [], t);
        if vs.result.Good? {
          RelDicts(vs.result.value, ws.result.value);
        }
      }
      case Ident(name) => {
        ReadSame(names, a, b, name, s, t);
      }
      case Binary(left, op, right) => {
        CoversTwo(names, E(left), E(right));
        ExprSame(host, p, q, names, a, b, left, s, t);
        var l, m := EvalExpr(host, p, a, left, s), EvalExpr(host, q, b, left, t);
        if l.result.Good? {
          TruthySame(host, l.result.value, m.result.value);
          ExprSame(host, p, q, names, a, b, right, l.st, m.st);
          var r, z := EvalExpr(host, p, a, right, l.st), EvalExpr(host, q, b, right, m.st);
          if r.result.Good? {
            BinopSame(host, op, l.result.value, r.result.value, m.result.value, z.result.value);
          }
        }
      }
      case Unary(uop, operand) => {
        ExprSame(host, p, q, names, a, b, operand, s, t);
        var l, m := EvalExpr(host, p, a, operand, s), EvalExpr(host, q, b, operand, t);
        if l.result.Good? {
          UnopSame(host, uop, l.result.value, m.result.value);
        }
      }
      case Call(callee, args) => {
        CallSame(host, p, q, names, a, b, callee, args, s, t);
      }
      case Lambda(params, code) => {
        CaptureSame(p, q, names, a, b, code);
        FunctionSame(s.nextId, "<lambda>", params, code, Capture(p, a, code), Capture(q, b, code));
      }
      case Index(base, index) => {
        CoversTwo(names, E(base), E(index));
        ExprSame(host, p, q, names, a, b, base, s, t);
        var l, m := EvalExpr(host, p, a, base, s), EvalExpr(host, q, b, base, t);
        if l.result.Good? {
          ExprSame(host, p, q, names, a, b, index, l.st, m.st);
          var r, z := EvalExpr(host, p, a, index, l.st), EvalExpr(host, q, b, index, m.st);
          if r.result.Good? {
            AtSame(host, l.result.value, r.result.value, m.result.value, z.result.value);
          }
        }
      }
      case FStr(parts) => {
        PartsSame(host, p, q, names, a, b, parts, "", s, t);
        var r := EvalParts(host, p, a, parts, "", s);
        if r.result.Good? {
          Same(VScalar(Str(r.result.value)));
        }
      }
      case IntLit(n) => Same(VScalar(Int(n)));
      case FloatLit(x) => Same(VScalar(Float(x)));
      case StrLit(z) => Same(VScalar(Str(z)));
      case BoolLit(z) => Same(VScalar(Bool(z)));
      case NullLit => Same(VScalar(Null));
    }
  }

  lemma {:induction false} ExprsSame(host: Host, p: Policy, q: Policy, names: set<string>, a: Env, b: Env,
                                     es: seq<Expr>, s: State, t: State)
    requires Covers(names, Exprs(es)) && Agree(names, a, b) && RelState(s, t)
    ensures RelMany(EvalExprs(host, p, a, es, s), EvalExprs(host, q, b, es, t))
    decreases s.steps, es, 3
  {
    hide RelState, Rel, RelAll, Agree, Covers, EvalExpr, Exprs;
    StateFacts(s, t);
    if es == [] {
      RelNone();
    } else {
      CoversExprs(names, es);
      ExprSame(host, p, q, names, a, b, es[0], s, t);
      var l, m := EvalExpr(host, p, a, es[0], s), EvalExpr(host, q, b, es[0], t);
      if l.result.Good? {
        ExprsSame(host, p, q, names, a, b, es[1..], l.st, m.st);
        var r, z := EvalExprs(host, p, a, es[1..], l.st), EvalExprs(host, q, b, es[1..], m.st);
        if r.result.Good? {
          RelAllCons(l.result.value, m.result.value, r.result.value, z.result.value);
        }
      }
    }
  }

  lemma {:induction false} ItemsOfSame(host: Host, p: Policy, q: Policy, names: set<string>, a: Env, b: Env,
                                       es: seq<Expr>, vs: seq<Value>, ws: seq<Value>, s: State, t: State)
    requires Covers(names, Exprs(es)) && Agree(names, a, b) && RelAll(vs, ws) && RelState(s, t)
    ensures RelMany(EvalItems(host, p, a, es, vs, s), EvalItems(host, q, b, es, ws, t))
    decreases s.steps, es, 3
  {
    hide RelState, Rel, RelAll, Agree, Covers, EvalExpr, Exprs, Appended;
    StateFacts(s, t);
    if es != [] {
      CoversExprs(names, es);
      ExprSame(host, p, q, names, a, b, es[0], s, t);
      var l, m := EvalExpr(host, p, a, es[0], s), EvalExpr(host, q, b, es[0], t);
      if l.result.Good? {
        AppendedSame(host, vs, ws, l.result.value, m.result.value);
        var more, also := Appended(host, vs, l.result.value), Appended(host, ws, m.result.value);
        if more.Good? {
          ItemsOfSame(host, p, q, names, a, b, es[1..], more.value, also.value, l.st, m.st);
        }
      }
    }
  }

  lemma {:induction false} PairSame(host: Host, p: Policy, q: Policy, names: set<string>, a: Env, b: Env,
                                    pair: Pair, es: seq<Entry>, fs: seq<Entry>, s: State, t: State)
    requires Covers(names, [E(pair.key)]) && Covers(names, [E(pair.value)])
    requires Agree(names, a, b) && RelEntries(es, fs) && RelState(s, t)
    ensures RelDict(EvalPair(host, p, a, pair, es, s), EvalPair(host, q, b, pair, fs, t))
    decreases s.steps, pair, 3
  {
    hide RelState, Rel, RelEntries, Agree, Covers, EvalExpr, Entered;
    StateFacts(s, t);
    ExprSame(host, p, q, names, a, b, pair.key, s, t);
    var k, j := EvalExpr(host, p, a, pair.key, s), EvalExpr(host, q, b, pair.key, t);
    if k.result.Good? {
      RelScalar(k.result.value, j.result.value);
      ExprSame(host, p, q, names, a, b, pair.value, k.st, j.st);
      var v, w := EvalExpr(host, p, a, pair.value, k.st), EvalExpr(host, q, b, pair.value, j.st);
      if v.result.Good? && k.result.value.VScalar? && k.result.value.scalar.Str? {
        EnteredSame(host, es, fs, k.result.value.scalar.s, v.result.value, w.result.value);
      }
    }
  }

  lemma {:induction false} PairsSame(host: Host, p: Policy, q: Policy, names: set<string>, a: Env, b: Env,
                                     ps: seq<Pair>, es: seq<Entry>, fs: seq<Entry>, s: State, t: State)
    requires Covers(names, PairKids(ps)) && Agree(names, a, b) && RelEntries(es, fs) && RelState(s, t)
    ensures RelDict(EvalPairs(host, p, a, ps, es, s), EvalPairs(host, q, b, ps, fs, t))
    decreases s.steps, ps, 3
  {
    hide RelState, RelEntries, Agree, Covers, EvalPair, PairKids;
    StateFacts(s, t);
    if ps != [] {
      CoversPairs(names, ps);
      PairSame(host, p, q, names, a, b, ps[0], es, fs, s, t);
      var l, m := EvalPair(host, p, a, ps[0], es, s), EvalPair(host, q, b, ps[0], fs, t);
      if l.result.Good? {
        PairsSame(host, p, q, names, a, b, ps[1..], l.result.value, m.result.value, l.st, m.st);
      }
    }
  }

  lemma {:induction false} PartSame(host: Host, p: Policy, q: Policy, names: set<string>, a: Env, b: Env,
                                    part: FPart, text: string, s: State, t: State)
    requires Covers(names, PartKid(part)) && Agree(names, a, b) && RelState(s, t)
    ensures RelText(EvalPart(host, p, a, part, text, s), EvalPart(host, q, b, part, text, t))
    decreases s.steps, part, 3
  {
    hide RelState, Rel, Agree, Covers, EvalExpr, Show;
    StateFacts(s, t);
    if part.Hole? {
      ExprSame(host, p, q, names, a, b, part.expr, s, t);
      var l, m := EvalExpr(host, p, a, part.expr, s), EvalExpr(host, q, b, part.expr, t);
      if l.result.Good? {
        ShowSame(host, l.result.value, m.result.value, false);
      }
    }
  }

  lemma {:induction false} PartsSame(host: Host, p: Policy, q: Policy, names: set<string>, a: Env, b: Env,
                                     ps: seq<FPart>, text: string, s: State, t: State)
    requires Covers(names, PartKids(ps)) && Agree(names, a, b) && RelState(s, t)
    ensures RelText(EvalParts(host, p, a, ps, text, s), EvalParts(host, q, b, ps, text, t))
    decreases s.steps, ps, 3
  {
    hide RelState, Agree, Covers, EvalPart, PartKids;
    StateFacts(s, t);
    if ps != [] {
      CoversPartsOf(names, ps);
      PartSame(host, p, q, names, a, b, ps[0], text, s, t);
      var l, m := EvalPart(host, p, a, ps[0], text, s), EvalPart(host, q, b, ps[0], text, t);
      if l.result.Good? {
        PartsSame(host, p, q, names, a, b, ps[1..], l.result.value, l.st, m.st);
      }
    }
  }

  lemma {:induction false} CallSame(host: Host, p: Policy, q: Policy, names: set<string>, a: Env, b: Env,
                                    callee: Expr, args: seq<Expr>, s: State, t: State)
    requires Covers(names, [E(callee)] + Exprs(args)) && Agree(names, a, b) && RelState(s, t)
    ensures RelRes(EvalCall(host, p, a, callee, args, s), EvalCall(host, q, b, callee, args, t))
    decreases s.steps, Call(callee, args), 2
  {
    hide RelState, Rel, RelAll, Agree, Covers, Visible, EvalExpr, EvalExprs, Invoke, Line, Exprs;
    CoversParts(names, [E(callee)], Exprs(args));
    StateFacts(s, t);
    AgreeDepth(names, a, b);
    if callee == Ident("print") {
      CoversInside(names, E(callee));
      AgreeAt(names, a, b, "print");
    }
    if callee == Ident("print") && "print" !in Visible(a) {
      ExprsSame(host, p, q, names, a, b, args, s, t);
      var vs, ws := EvalExprs(host, p, a, args, s), EvalExprs(host, q, b, args, t);
      StateFacts(vs.st, ws.st);
      if vs.result.Good? {
        LineSame(host, vs.result.value, ws.result.value);
        Same(VScalar(Null));
      }
    } else if s.steps > 0 && a.depth < host.maxDepth {
      var s1, t1 := s.(steps := s.steps - 1), t.(steps := t.steps - 1);
      ExprSame(host, p, q, names, a, b, callee, s1, t1);
      var f, g := EvalExpr(host, p, a, callee, s1), EvalExpr(host, q, b, callee, t1);
      if f.result.Good? {
        RelScalar(f.result.value, g.result.value);
        ExprsSame(host, p, q, names, a, b, args, f.st, g.st);
        var vs, ws := EvalExprs(host, p, a, args, f.st), EvalExprs(host, q, b, args, g.st);
        if vs.result.Good? && f.result.value.VFn? {
          InvokeSame(host, p, q, names, a, b, f.result.value, g.result.value, vs.result.value, ws.result.value, vs.st, ws.st);
        }
      }
    }
  }

  lemma AgreeDepth(names: set<string>, a: Env, b: Env)
    requires Agree(names, a, b)
    ensures a.depth == b.depth
  {
  }

  /** A call of one function value by either run: the frames agree on every name of the body, whatever else the
      closures hold. */
  lemma {:induction false} InvokeSame(host: Host, p: Policy, q: Policy, names: set<string>, a: Env, b: Env,
                                      f: Value, g: Value, vs: seq<Value>, ws: seq<Value>, s: State, t: State)
    requires f.VFn? && Rel(f, g) && Agree(names, a, b) && RelAll(vs, ws) && RelState(s, t)
    ensures g.VFn? && RelRes(Invoke(host, p, a, f, vs, s), Invoke(host, q, b, g, ws, t))
    decreases s.steps, f.code.stmts, 5
  {
    hide RelState, Rel, RelAll, Agree, Covers, NamesOf, Frame, ExecBlock, Stmts;
    FrameSame(names, a, b, f, g, vs, ws, s, t);
    FrameSteps(a, f, vs, s);
    FrameSteps(b, g, ws, t);
    CoversBody(f.code);
    var (x, s1) := Frame(a, f, vs, s);
    var (y, t1) := Frame(b, g, ws, t);
    BlockSame(host, p, q, NamesOf(f.code), x, y, f.code.stmts, s1, t1);
    Same(VScalar(Null));
  }

  // ----- Statements -----

  lemma {:induction false} BlockSame(host: Host, p: Policy, q: Policy, names: set<string>, a: Env, b: Env,
                                     ss: seq<Stmt>, s: State, t: State)
    requires Covers(names, Stmts(ss)) && Agree(names, a, b) && RelState(s, t)
    ensures RelStep(names, ExecBlock(host, p, a, ss, s), ExecBlock(host, q, b, ss, t))
    decreases s.steps, ss, 3
  {
    hide RelState, Rel, Agree, Covers, ExecStmt, Stmts;
    StateFacts(s, t);
    if ss != [] {
      CoversStmts(names, ss);
      StmtSame(host, p, q, names, a, b, ss[0], s, t);
      var r, z := ExecStmt(host, p, a, ss[0], s), ExecStmt(host, q, b, ss[0], t);
      if r.flow.Normal? {
        BlockSame(host, p, q, names, r.env, z.env, ss[1..], r.st, z.st);
      }
    }
  }

  lemma {:induction false} ScopedSame(host: Host, p: Policy, q: Policy, names: set<string>, a: Env, b: Env,
                                      ss: seq<Stmt>, s: State, t: State)
    requires Covers(names, Stmts(ss)) && Agree(names, a, b) && RelState(s, t)
    ensures RelStep(names, Scoped(host, p, a, ss, s), Scoped(host, q, b, ss, t))
    decreases s.steps, ss, 4
  {
    hide RelState, Rel, Agree, Covers, ExecBlock, Stmts, Push;
    StateFacts(s, t);
    PushAgrees(names, a, b);
    BlockSame(host, p, q, names, Push(a), Push(b), ss, s, t);
  }

  lemma {:induction false} ScopedWithSame(host: Host, p: Policy, q: Policy, names: set<string>, a: Env, b: Env,
                                          binder: string, v: Value, w: Value, ss: seq<Stmt>, s: State, t: State)
    requires Covers(names, Stmts(ss)) && Agree(names, a, b) && Rel(v, w) && RelState(s, t)
    ensures RelStep(names, ScopedWith(host, p, a, binder, v, ss, s), ScopedWith(host, q, b, binder, w, ss, t))
    decreases s.steps, ss, 4
  {
    hide RelState, Rel, Agree, Covers, ExecBlock, Stmts, Push;
    StateFacts(s, t);
    PushAgrees(names, a, b);
    DefineSame(names, Push(a), Push(b), binder, v, w, s, t);
    var (x, s1) := Define(Push(a), binder, v, s);
    var (y, t1) := Define(Push(b), binder, w, t);
    BlockSame(host, p, q, names, x, y, ss, s1, t1);
  }

  lemma {:induction false} WhileSame(host: Host, p: Policy, q: Policy, names: set<string>, a: Env, b: Env,
                                     w: Stmt, s: State, t: State)
    requires w.While? && Covers(names, [S(w)]) && Agree(names, a, b) && RelState(s, t)
    ensures RelStep(names, WhileLoop(host, p, a, w, s), WhileLoop(host, q, b, w, t))
    decreases s.steps, w, 2
  {
    hide RelState, Rel, Agree, Covers, EvalExpr, Scoped, Stmts, Truthy;
    StateFacts(s, t);
    CoversInside(names, S(w));
    CoversParts(names, [E(w.condition)], Stmts(w.body));
    ExprSame(host, p, q, names, a, b, w.condition, s, t);
    var l, m := EvalExpr(host, p, a, w.condition, s), EvalExpr(host, q, b, w.condition, t);
    if l.result.Good? {
      TruthySame(host, l.result.value, m.result.value);
      ScopedSame(host, p, q, names, a, b, w.body, l.st, m.st);
      var r, z := Scoped(host, p, a, w.body, l.st), Scoped(host, q, b, w.body, m.st);
      StateFacts(r.st, z.st);
      if (r.flow.Normal? || r.flow.Continuing?) && r.st.steps > 0 {
        WhileSame(host, p, q, names, a, b, w, r.st.(steps := r.st.steps - 1), z.st.(steps := z.st.steps - 1));
      }
    }
  }

  lemma {:induction false} ForSame(host: Host, p: Policy, q: Policy, names: set<string>, a: Env, b: Env,
                                   f: Stmt, vs: seq<Value>, ws: seq<Value>, s: State, t: State)
    requires f.For? && Covers(names, Stmts(f.body)) && Agree(names, a, b) && RelAll(vs, ws) && RelState(s, t)
    ensures RelStep(names, ForLoop(host, p, a, f, vs, s), ForLoop(host, q, b, f, ws, t))
    decreases s.steps, f, 2
  {
    hide RelState, Rel, RelAll, Agree, Covers, ScopedWith, Stmts;
    StateFacts(s, t);
    RelAllSize(vs, ws);
    if vs != [] {
      RelAllHead(vs, ws);
      ScopedWithSame(host, p, q, names, a, b, f.binder, vs[0], ws[0], f.body, s, t);
      var r, z := ScopedWith(host, p, a, f.binder, vs[0], f.body, s), ScopedWith(host, q, b, f.binder, ws[0], f.body, t);
      StateFacts(r.st, z.st);
      if (r.flow.Normal? || r.flow.Continuing?) && r.st.steps > 0 {
        ForSame(host, p, q, names, a, b, f, vs[1..], ws[1..], r.st.(steps := r.st.steps - 1), z.st.(steps := z.st.steps - 1));
      }
    }
  }

  lemma {:induction false} IndexAssignSame(host: Host, p: Policy, q: Policy, names: set<string>, a: Env, b: Env,
                                           x: Stmt, s: State, t: State)
    requires x.IndexAssign? && Covers(names, [S(x)]) && Agree(names, a, b) && RelState(s, t)
    ensures RelStep(names, ExecStmt(host, p, a, x, s), ExecStmt(host, q, b, x, t))
    decreases s.steps, x, 2
  {
    hide RelState, Rel, Agree, Covers, EvalExpr, AssignAt, Visible, Read;
    StateFacts(s, t);
    CoversInside(names, S(x));
    CoversTwo(names, E(x.index), E(x.value));
    ReadSame(names, a, b, x.name, s, t);
    ExprSame(host, p, q, names, a, b, x.index, s, t);
    var i, j := EvalExpr(host, p, a, x.index, s), EvalExpr(host, q, b, x.index, t);
    if i.result.Good? {
      ExprSame(host, p, q, names, a, b, x.value, i.st, j.st);
      var v, w := EvalExpr(host, p, a, x.value, i.st), EvalExpr(host, q, b, x.value, j.st);
      if v.result.Good? {
        ReadSame(names, a, b, x.name, v.st, w.st);
        if Read(a, x.name, v.st).Good? {
          var c, d := Read(a, x.name, v.st).value, Read(b, x.name, w.st).value;
          AssignAtSame(host, c, i.result.value, v.result.value, d, j.result.value, w.result.value);
          var y, z := AssignAt(host, c, i.result.value, v.result.value), AssignAt(host, d, j.result.value, w.result.value);
          if y.Good? {
            StoreSame(v.st, w.st, Visible(a)[x.name], y.value, z.value);
          }
        }
      }
    }
  }

  lemma {:induction false} StmtSame(host: Host, p: Policy, q: Policy, names: set<string>, a: Env, b: Env,
                                    x: Stmt, s: State, t: State)
    requires Covers(names, [S(x)]) && Agree(names, a, b) && RelState(s, t)
    ensures RelStep(names, ExecStmt(host, p, a, x, s), ExecStmt(host, q, b, x, t))
    decreases s.steps, x, 3
  {
    hide RelState, Rel, RelAll, Agree, Covers, EvalExpr, Scoped, ScopedWith, WhileLoop, ForLoop, Stmts, Truthy, Items,
         Visible, Read, Define, Capture, Only, NamesOf;
    StateFacts(s, t);
    CoversInside(names, S(x));
    match x {
      case Let(name, value) => {
        ExprSame(host, p, q, names, a, b, value, s, t);
        var v, w := EvalExpr(host, p, a, value, s), EvalExpr(host, q, b, value, t);
        if v.result.Good? {
          DefineSame(names, a, b, name, v.result.value, w.result.value, v.st, w.st);
        }
      }
      case Assign(name, value) => {
        ExprSame(host, p, q, names, a, b, value, s, t);
        var v, w := EvalExpr(host, p, a, value, s), EvalExpr(host, q, b, value, t);
        if v.result.Good? {
          ReadSame(names, a, b, name, v.st, w.st);
          if Read(a, name, v.st).Good? {
            StoreSame(v.st, w.st, Visible(a)[name], v.result.value, w.result.value);
          }
        }
      }
      case IndexAssign(_, _, _) => {
        IndexAssignSame(host, p, q, names, a, b, x, s, t);
      }
      case Return(value) => {
        ExprSame(host, p, q, names, a, b, value, s, t);
      }
      case If(condition, thenBody, elseBody) => {
        CoversParts(names, [E(condition)] + Stmts(thenBody), Stmts(elseBody));
        CoversParts(names, [E(condition)], Stmts(thenBody));
        ExprSame(host, p, q, names, a, b, condition, s, t);
        var v, w := EvalExpr(host, p, a, condition, s), EvalExpr(host, q, b, condition, t);
        if v.result.Good? {
          TruthySame(host, v.result.value, w.result.value);
          ScopedSame(host, p, q, names, a, b, thenBody, v.st, w.st);
          ScopedSame(host, p, q, names, a, b, elseBody, v.st, w.st);
        }
      }
      case While(condition, body) => {
        CoversParts(names, [E(condition)], Stmts(body));
        ExprSame(host, p, q, names, a, b, condition, s, t);
        var v, w := EvalExpr(host, p, a, condition, s), EvalExpr(host, q, b, condition, t);
        if v.result.Good? {
          TruthySame(host, v.result.value, w.result.value);
          WhileSame(host, p, q, names, a, b, x, v.st, w.st);
        }
      }
      case For(binder, iter, body) => {
        CoversParts(names, [E(iter)], Stmts(body));
        ExprSame(host, p, q, names, a, b, iter, s, t);
        var v, w := EvalExpr(host, p, a, iter, s), EvalExpr(host, q, b, iter, t);
        if v.result.Good? {
          ItemsSame(host, v.result.value, w.result.value);
          if Items(host, v.result.value).Good? {
            ForSame(host, p, q, names, a, b, x, Items(host, v.result.value).value, Items(host, w.result.value).value, v.st, w.st);
          }
        }
      }
      case FnDef(name, params, code) => {
        CaptureSame(p, q, names, a, b, code);
        FunctionSame(s.nextId, name, params, code, Capture(p, a, code), Capture(q, b, code));
        DefineSame(names, a, b, name, VFn(s.nextId, name, params, code, Capture(p, a, code)),
                   VFn(t.nextId, name, params, code, Capture(q, b, code)),
                   s.(nextId := s.nextId + 1), t.(nextId := t.nextId + 1));
      }
      case TryCatch(tryBody, binder, catchBody) => {
        CoversParts(names, Stmts(tryBody), Stmts(catchBody));
        ScopedSame(host, p, q, names, a, b, tryBody, s, t);
        var r, z := Scoped(host, p, a, tryBody, s), Scoped(host, q, b, tryBody, t);
        if r.flow.Failing? {
          Same(VScalar(Caught(r.flow.fault)));
          ScopedWithSame(host, p, q, names, a, b, binder, VScalar(Caught(r.flow.fault)), VScalar(Caught(r.flow.fault)),
                         catchBody, r.st, z.st);
        }
      }
      case ExprStmt(expr) => {
        ExprSame(host, p, q, names, a, b, expr, s, t);
      }
      case _ => {
      }
    }
  }

  // ----- Main results -----

  /** A whole program, from an empty environment. */
  function Run(host: Host, policy: Policy, program: seq<Stmt>, steps: nat): Step {
    ExecBlock(host, policy, Env(map[], [], 0), program, State([], steps, [], 0))
  }

  /** Capturing only what is mentioned changes nothing a program can do: it prints the same, fails the same, takes the
      same steps, binds the same variables to the same cells, and leaves equal values in them. */
  lemma CapturingLessChangesNothing(host: Host, program: seq<Stmt>, steps: nat)
    ensures
      var whole, less := Run(host, Everything, program, steps), Run(host, Referenced, program, steps);
      && less.st.out == whole.st.out && less.st.steps == whole.st.steps && less.st.nextId == whole.st.nextId
      && RelFlow(whole.flow, less.flow) && less.env.globals == whole.env.globals
      && |less.st.cells| == |whole.st.cells|
      && forall i :: 0 <= i < |less.st.cells| ==> Rel(whole.st.cells[i], less.st.cells[i])
  {
    hide ExecBlock, Rel, Covers, Only, Visible, Norm;
    var names := NamesIn(Flat(Stmts(program)));
    CoversBody(Block(0, program));
    var env, st := Env(map[], [], 0), State([], steps, [], 0);
    BlockSame(host, Everything, Referenced, names, env, env, program, st, st);
  }

  /** A single call: with the whole environment captured, or only the names of the body. */
  lemma RestrictedCallSame(host: Host, p: Policy, q: Policy, env: Env, f: Value, vs: seq<Value>, st: State)
    requires f.VFn?
    ensures RelRes(Invoke(host, p, env, f, vs, st),
                   Invoke(host, q, env, f.(captured := Only(f.captured, NamesOf(f.code))), vs, st))
  {
    hide NamesOf, Invoke, Norm, NormAll;
    var less := f.(captured := Only(f.captured, NamesOf(f.code)));
    assert Only(less.captured, NamesOf(f.code)) == Only(f.captured, NamesOf(f.code));
    FunctionSame(f.id, f.name, f.params, f.code, f.captured, less.captured);
    InvokeSame(host, p, q, {}, env, env, f, less, vs, vs, st, st);
  }

  /** Why: what a nested closure mentions, the closure around it mentions too, so the cells the inner one will need
      are among those the outer one kept. */
  lemma NestedNamesAreMentioned(outer: Block, n: Node)
    requires n in Flat(Stmts(outer.stmts)) && Closure(n).Some?
    ensures NamesOf(Closure(n).value) <= NamesOf(outer)
  {
    hide Flat, OwnNames, Stmts;
    var b := Closure(n).value;
    assert Ownership.Occurs(b, Flat(Stmts(outer.stmts)));
    forall m | m in Flat(Stmts(b.stmts))
      ensures m in Flat(Stmts(outer.stmts))
    {
      Ownership.OccursInside(Stmts(outer.stmts), b, m);
    }
  }

  /** The names do matter: this body mentions `x`, and without the cell of `x` its call fails. */
  lemma UnmentionedOnly(host: Host)
    requires host.maxDepth > 0
    ensures
      var code := Block(0, [Stmt.Return(Ident("x"))]);
      var env, st := Env(map[], [], 0), State([VScalar(Int(7))], 0, [], 1);
      && Invoke(host, Referenced, env, VFn(0, "f", [], code, map["x" := 0]), [], st).result == Good(VScalar(Int(7)))
      && Invoke(host, Referenced, env, VFn(0, "f", [], code, map[]), [], st).result == Bad(UndefinedName("x"))
  {
    ReturnsX(host, map["x" := 0]);
    ReturnsX(host, map[]);
  }

  lemma ReturnsX(host: Host, c: Scope)
    requires c == map["x" := 0] || c == map[]
    ensures
      var code := Block(0, [Stmt.Return(Ident("x"))]);
      var env, st := Env(map[], [], 0), State([VScalar(Int(7))], 0, [], 1);
      Invoke(host, Referenced, env, VFn(0, "f", [], code, c), [], st).result
      == if "x" in c then Good(VScalar(Int(7))) else Bad(UndefinedName("x"))
  {
    hide Visible, Bind;
    var code := Block(0, [Stmt.Return(Ident("x"))]);
    var env, st := Env(map[], [], 0), State([VScalar(Int(7))], 0, [], 1);
    var f := VFn(0, "f", [], code, c);
    var (inner, st1) := Frame(env, f, [], st);
    BindVisible(Env(map[], [c], 1), "f", 1);
    OneScope(map[], c, 1);
    assert Visible(inner) == (map[] + c)["f" := 1];
    assert st1.cells[0] == VScalar(Int(7));
    assert "x" in Visible(inner) <==> "x" in c;
    var v := EvalExpr(host, Referenced, inner, Ident("x"), st1);
    assert v.result == Read(inner, "x", st1);
    var r := ExecStmt(host, Referenced, inner, code.stmts[0], st1);
    assert !r.flow.Normal?;
    assert ExecBlock(host, Referenced, inner, code.stmts, st1) == r;
  }
}

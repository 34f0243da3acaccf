/** The evaluator with closures against the evaluator over a stack of scopes (`src/eval.rs`): a program without closures
    runs alike in both, and a call runs as the block of its body, inside the variables the closure holds, with the
    parameters as fresh variables. */
module Embedding {
  import L = Lang
  import X = Syntax
  import C = Closures
  import T = Tree
  import CaptureSuffices
  import CapturePreserved

  // ----- Programs -----

  function Op(op: L.BinOp): X.BinOp {
    match op
    case Add => X.Add
    case Sub => X.Sub
    case Mul => X.Mul
    case Div => X.Div
    case Mod => X.Mod
    case Eq => X.Eq
    case NotEq => X.NotEq
    case Lt => X.Lt
    case Gt => X.Gt
    case LtEq => X.LtEq
    case GtEq => X.GtEq
    case And => X.And
    case Or => X.Or
  }

  /** The same expression in the whole syntax. `print` is a call of an unbound name. */
  function Exp(e: L.Expr): X.Expr {
    match e
    case IntLit(n) => X.IntLit(n)
    case StrLit(s) => X.StrLit(s)
    case BoolLit(b) => X.BoolLit(b)
    case NullLit => X.NullLit
    case Ident(name) => X.Ident(name)
    case Binary(op, left, right) => X.Binary(Exp(left), Op(op), Exp(right))
    case Unary(uop, operand) => X.Unary(if uop.Neg? then X.Neg else X.Not, Exp(operand))
    case Print(args) => X.Call(X.Ident("print"), Exps(args))
    case ListLit(items) => X.ListLit(Exps(items))
    case Index(base, index) => X.Index(Exp(base), Exp(index))
  }

  function Exps(es: seq<L.Expr>): (r: seq<X.Expr>)
    ensures |r| == |es|
  {
    if es == [] then [] else [Exp(es[0])] + Exps(es[1..])
  }

  function Sta(s: L.Stmt): X.Stmt {
    match s
    case Let(name, value, _) => X.Let(name, Exp(value))
    case Assign(name, value, _) => X.Assign(name, Exp(value))
    case IndexAssign(name, index, value, _) => X.IndexAssign(name, Exp(index), Exp(value))
    case ExprStmt(expr, _) => X.ExprStmt(Exp(expr))
    case If(cond, thenBody, elseBody, _) => X.If(Exp(cond), Stas(thenBody), Stas(elseBody))
    case While(cond, body, _) => X.While(Exp(cond), Stas(body))
    case For(binder, iter, body, _) => X.For(binder, Exp(iter), Stas(body))
    case Break(_) => X.Break
    case Continue(_) => X.Continue
    case TryCatch(tryBody, binder, catchBody, _) => X.TryCatch(Stas(tryBody), binder, Stas(catchBody))
    case Return(value, _) => X.Return(Exp(value))
  }

  function Stas(ss: seq<L.Stmt>): (r: seq<X.Stmt>)
    ensures |r| == |ss|
  {
    if ss == [] then [] else [Sta(ss[0])] + Stas(ss[1..])
  }

  /** A name that is mentioned: none of the silent ones, and not the builtin. */
  predicate Spoken(name: string, silent: set<string>) { name !in silent && name != "print" }

  predicate SpokenExpr(e: L.Expr, silent: set<string>) {
    match e
    case Ident(name) => Spoken(name, silent)
    case Binary(_, left, right) => SpokenExpr(left, silent) && SpokenExpr(right, silent)
    case Unary(_, operand) => SpokenExpr(operand, silent)
    case Print(args) => SpokenExprs(args, silent)
    case ListLit(items) => SpokenExprs(items, silent)
    case Index(base, index) => SpokenExpr(base, silent) && SpokenExpr(index, silent)
    case _ => true
  }

  predicate SpokenExprs(es: seq<L.Expr>, silent: set<string>) {
    es == [] || (SpokenExpr(es[0], silent) && SpokenExprs(es[1..], silent))
  }

  /** Caught errors go to silent names, and no other statement mentions those. */
  predicate SpokenStmt(s: L.Stmt, silent: set<string>) {
    match s
    case Let(name, value, _) => Spoken(name, silent) && SpokenExpr(value, silent)
    case Assign(name, value, _) => Spoken(name, silent) && SpokenExpr(value, silent)
    case IndexAssign(name, index, value, _) => Spoken(name, silent) && SpokenExpr(index, silent) && SpokenExpr(value, silent)
    case ExprStmt(expr, _) => SpokenExpr(expr, silent)
    case If(cond, thenBody, elseBody, _) =>
      SpokenExpr(cond, silent) && SpokenStmts(thenBody, silent) && SpokenStmts(elseBody, silent)
    case While(cond, body, _) => SpokenExpr(cond, silent) && SpokenStmts(body, silent)
    case For(binder, iter, body, _) => Spoken(binder, silent) && SpokenExpr(iter, silent) && SpokenStmts(body, silent)
    case Break(_) => true
    case Continue(_) => true
    case TryCatch(tryBody, binder, catchBody, _) =>
      binder in silent && binder != "print" && SpokenStmts(tryBody, silent) && SpokenStmts(catchBody, silent)
    case Return(value, _) => SpokenExpr(value, silent)
  }

  predicate SpokenStmts(ss: seq<L.Stmt>, silent: set<string>) {
    ss == [] || (SpokenStmt(ss[0], silent) && SpokenStmts(ss[1..], silent))
  }

  // ----- Values and faults -----

  /** Without errors in it. */
  predicate Plain(v: L.Value) {
    match v
    case VList(es) => AllPlain(es)
    case VError(_, _, _) => false
    case _ => true
  }

  predicate AllPlain(vs: seq<L.Value>) { vs == [] || (Plain(vs[0]) && AllPlain(vs[1..])) }

  predicate Atom(v: L.Value) { !v.VList? && !v.VError? }

  function Scalar(v: L.Value): C.Scalar {
    match v
    case VInt(n) => C.Int(n)
    case VBool(b) => C.Bool(b)
    case VStr(s) => C.Str(s)
    case _ => C.Null
  }

  function Val(v: L.Value): C.Value {
    match v
    case VList(es) => C.VList(Vals(es))
    case _ => C.VScalar(Scalar(v))
  }

  function Vals(vs: seq<L.Value>): (r: seq<C.Value>)
    ensures |r| == |vs|
  {
    if vs == [] then [] else [Val(vs[0])] + Vals(vs[1..])
  }

  /** What the evaluator with closures tells of a cause. */
  function FaultOf(c: L.Cause): C.Fault {
    match c
    case UndefinedName(name) => C.UndefinedName(name)
    case AssignUndefined(name) => C.AssignUndefined(name)
    case ZeroDivision => C.Numeric(0)
    case IntOverflow(_) => C.Numeric(1)
    case ArithmeticType(_, _, _) => C.BadOperands
    case ComparisonType(_, _, _) => C.BadOperands
    case UnaryType(_, _) => C.BadOperands
    case DictKeyType(_) => C.BadDictKey
    case NotIterable(_) => C.NotIterable
    case ValueDepthLimit => C.NestingLimit
    case CollectionLimit => C.CollectionLimit
    case StepLimit => C.StepLimit
    case BreakOutsideLoop => C.BreakOutsideLoop
    case ContinueOutsideLoop => C.ContinueOutsideLoop
    case LenType(_) => C.NotLinked
    case Internal => C.NotLinked
    case _ => C.BadIndex
  }

  function Told(r: L.Outcome<L.Value>): C.Outcome<C.Value> {
    match r
    case Good(v) => C.Good(Val(v))
    case Bad(f) => C.Bad(FaultOf(f.cause))
  }

  function ToldAll(r: L.Outcome<seq<L.Value>>): C.Outcome<seq<C.Value>> {
    match r
    case Good(vs) => C.Good(Vals(vs))
    case Bad(f) => C.Bad(FaultOf(f.cause))
  }

  function ToldAtom(r: L.Outcome<L.Value>): C.Outcome<C.Scalar> {
    match r
    case Good(v) => C.Good(Scalar(v))
    case Bad(f) => C.Bad(FaultOf(f.cause))
  }

  function Letters(s: string): (r: seq<C.Scalar>)
    ensures |r| == |s| && forall i :: 0 <= i < |s| ==> r[i] == C.Str([s[i]])
  {
    seq(|s|, i requires 0 <= i < |s| => C.Str([s[i]]))
  }

  /** Both hosts have the rules of the language about values without lists and closures, and the same limits. */
  ghost predicate SameRules(h: L.Host, c: C.Host) {
    SameLimits(h, c) && SameOperators(c) && SameReading(h, c) && SameText(h, c)
  }

  ghost predicate SameLimits(h: L.Host, c: C.Host) {
    && h.rechecks && c.maxCollection == h.maxCollection
    && (forall cause :: c.uncatchable(FaultOf(cause)) <==> L.IsUncatchable(cause))
  }

  ghost predicate SameOperators(c: C.Host) {
    && (forall op: L.BinOp, l, r :: Atom(l) && Atom(r) ==> c.binop(Op(op), Scalar(l), Scalar(r)) == ToldAtom(T.EvalBinop(op, l, r, 0)))
    && (forall v :: Atom(v) ==> c.negate(Scalar(v)) == ToldAtom(L.EvalUnary(L.Neg, v, 0)))
    && (forall v :: Atom(v) ==> c.truthy(Scalar(v)) == L.Truthy(v))
    && (forall l, r :: Atom(l) && Atom(r) ==> (c.equal(Scalar(l), Scalar(r)) <==> l == r))
  }

  ghost predicate SameReading(h: L.Host, c: C.Host) {
    && (forall v, i :: Atom(v) && Atom(i) ==> c.pick(Scalar(v), Scalar(i)) == ToldAtom(L.EvalIndex(h, v, i, 0)))
    && (forall v :: Atom(v) ==> c.chars(Scalar(v)) == if v.VStr? then C.Good(Letters(v.s)) else C.Bad(C.NotIterable))
  }

  ghost predicate SameText(h: L.Host, c: C.Host) { forall v :: Plain(v) ==> h.show(v) == C.Show(c, Val(v), false) }

  // ----- Operations on values -----

  lemma AtomsPlain()
    ensures forall v :: Atom(v) ==> Plain(v) && Val(v) == C.VScalar(Scalar(v))
  {
  }

  lemma NoValues()
    ensures AllPlain([]) && Vals([]) == []
  {
  }

  lemma ListVal()
    ensures forall vs :: Val(L.VList(vs)) == C.VList(Vals(vs)) && (Plain(L.VList(vs)) <==> AllPlain(vs))
  {
  }

  lemma {:induction false} AtVals(vs: seq<L.Value>, k: nat)
    requires k < |vs|
    ensures Vals(vs)[k] == Val(vs[k])
  {
    hide Val;
    if k > 0 {
      AtVals(vs[1..], k - 1);
    }
  }

  lemma {:induction false} ValsAppend(vs: seq<L.Value>, ws: seq<L.Value>)
    ensures Vals(vs + ws) == Vals(vs) + Vals(ws)
  {
    hide Val;
    if vs == [] {
      assert vs + ws == ws;
    } else {
      assert (vs + ws)[1..] == vs[1..] + ws;
      ValsAppend(vs[1..], ws);
    }
  }

  lemma ValsCons(vs: seq<L.Value>)
    requires vs != []
    ensures Vals(vs)[0] == Val(vs[0]) && Vals(vs)[1..] == Vals(vs[1..])
  {
    hide Val;
  }

  lemma ValsOne(v: L.Value)
    ensures Vals([v]) == [Val(v)]
  {
    hide Val;
    assert [v][1..] == [];
  }

  lemma {:induction false} PlainAt(vs: seq<L.Value>)
    ensures AllPlain(vs) <==> forall i :: 0 <= i < |vs| ==> Plain(vs[i])
  {
    hide Plain;
    if vs != [] {
      PlainAt(vs[1..]);
      assert forall i :: 0 < i < |vs| ==> vs[i] == vs[1..][i - 1];
    }
  }

  lemma {:induction false} DepthVal(v: L.Value)
    ensures C.Depth(Val(v)) == L.Depth(v)
    decreases v
  {
    if v.VList? {
      MaxDepthVals(v.elements);
    }
  }

  lemma {:induction false} MaxDepthVals(vs: seq<L.Value>)
    ensures C.MaxDepth(Vals(vs)) == L.MaxDepth(vs)
    decreases vs
  {
    hide Val, C.Depth, L.Depth;
    if vs != [] {
      DepthVal(vs[0]);
      MaxDepthVals(vs[1..]);
      assert Vals(vs)[1..] == Vals(vs[1..]) && Vals(vs)[0] == Val(vs[0]);
    }
  }

  lemma {:induction false} EqualVal(h: L.Host, c: C.Host, v: L.Value, w: L.Value)
    requires SameRules(h, c) && Plain(v) && Plain(w)
    ensures C.Equal(c, Val(v), Val(w)) <==> v == w
    decreases v
  {
    hide SameRules;
    if v.VList? && w.VList? && |v.elements| == |w.elements| {
      EqualVals(h, c, v.elements, w.elements);
    } else if Atom(v) && Atom(w) {
      EqualAtoms(h, c, v, w);
    }
  }

  lemma EqualAtoms(h: L.Host, c: C.Host, v: L.Value, w: L.Value)
    requires SameRules(h, c) && Atom(v) && Atom(w)
    ensures c.equal(Scalar(v), Scalar(w)) <==> v == w
  {
    hide SameLimits, SameReading, SameText;
  }

  lemma {:induction false} EqualVals(h: L.Host, c: C.Host, vs: seq<L.Value>, ws: seq<L.Value>)
    requires SameRules(h, c) && AllPlain(vs) && AllPlain(ws) && |vs| == |ws|
    ensures C.EqualAll(c, Vals(vs), Vals(ws)) <==> vs == ws
    decreases vs
  {
    hide SameRules, Val, Plain, C.Equal;
    if vs != [] {
      EqualVal(h, c, vs[0], ws[0]);
      EqualVals(h, c, vs[1..], ws[1..]);
      EqualCons(c, Val(vs[0]), Vals(vs[1..]), Val(ws[0]), Vals(ws[1..]));
      assert vs == [vs[0]] + vs[1..] && ws == [ws[0]] + ws[1..];
    }
  }

  lemma EqualCons(c: C.Host, v: C.Value, vs: seq<C.Value>, w: C.Value, ws: seq<C.Value>)
    requires |vs| == |ws|
    ensures C.EqualAll(c, [v] + vs, [w] + ws) <==> C.Equal(c, v, w) && C.EqualAll(c, vs, ws)
  {
    hide C.Equal;
    assert ([v] + vs)[1..] == vs && ([w] + ws)[1..] == ws;
  }

  lemma TruthyVal(h: L.Host, c: C.Host, v: L.Value)
    requires SameRules(h, c) && Plain(v)
    ensures C.Truthy(c, Val(v)) == L.Truthy(v)
  {
    hide SameLimits, SameReading, SameText;
  }

  lemma BinopLine(op: L.BinOp, l: L.Value, r: L.Value, line: nat)
    ensures Told(T.EvalBinop(op, l, r, line)) == Told(T.EvalBinop(op, l, r, 0))
    ensures ToldAtom(T.EvalBinop(op, l, r, line)) == ToldAtom(T.EvalBinop(op, l, r, 0))
  {
  }

  lemma BinopVal(h: L.Host, c: C.Host, op: L.BinOp, l: L.Value, r: L.Value, line: nat)
    requires SameRules(h, c) && Plain(l) && Plain(r) && !op.And? && !op.Or?
    ensures C.Binop(c, Op(op), Val(l), Val(r)) == Told(T.EvalBinop(op, l, r, line))
    ensures T.EvalBinop(op, l, r, line).Good? ==> Plain(T.EvalBinop(op, l, r, line).value)
  {
    hide C.Equal, T.EvalBinop, SameRules, Op, Val;
    OpSame(op);
    if Atom(l) && Atom(r) {
      AtomsCombine(h, c, op, l, r);
    }
    EqualVal(h, c, l, r);
    BinopLine(op, l, r, line);
    BinopPlain(op, l, r, line);
    EqualityTold(op, l, r, line);
    AtomsPlain();
    if (!Atom(l) || !Atom(r)) && !op.Eq? && !op.NotEq? {
      ListsTold(op, l, r, line);
      ListVal();
    }
  }

  lemma OpSame(op: L.BinOp)
    ensures op.And? <==> Op(op).And?
    ensures op.Or? <==> Op(op).Or?
    ensures op.Eq? <==> Op(op).Eq?
    ensures op.NotEq? <==> Op(op).NotEq?
  {
  }

  lemma AtomsCombine(h: L.Host, c: C.Host, op: L.BinOp, l: L.Value, r: L.Value)
    requires SameRules(h, c) && Atom(l) && Atom(r)
    ensures c.binop(Op(op), Scalar(l), Scalar(r)) == ToldAtom(T.EvalBinop(op, l, r, 0))
  {
    hide SameLimits, SameReading, SameText;
  }

  lemma EqualityTold(op: L.BinOp, l: L.Value, r: L.Value, line: nat)
    ensures op.Eq? ==> Told(T.EvalBinop(op, l, r, line)) == C.Good(C.VScalar(C.Bool(l == r)))
    ensures op.NotEq? ==> Told(T.EvalBinop(op, l, r, line)) == C.Good(C.VScalar(C.Bool(l != r)))
  {
  }

  lemma ListsTold(op: L.BinOp, l: L.Value, r: L.Value, line: nat)
    requires (l.VList? || r.VList?) && Plain(l) && Plain(r) && !op.Eq? && !op.NotEq?
    ensures Told(T.EvalBinop(op, l, r, line)) == C.Bad(C.BadOperands)
  {
  }

  lemma BinopPlain(op: L.BinOp, l: L.Value, r: L.Value, line: nat)
    requires Plain(l) && Plain(r)
    ensures T.EvalBinop(op, l, r, line).Good? ==> Atom(T.EvalBinop(op, l, r, line).value)
  {
  }

  lemma UnopVal(h: L.Host, c: C.Host, uop: L.UnaryOp, v: L.Value, line: nat)
    requires SameRules(h, c) && Plain(v)
    ensures C.Unop(c, if uop.Neg? then X.Neg else X.Not, Val(v)) == Told(L.EvalUnary(uop, v, line))
    ensures L.EvalUnary(uop, v, line).Good? ==> Plain(L.EvalUnary(uop, v, line).value)
  {
    hide SameRules, C.Truthy, L.Truthy;
    TruthyVal(h, c, v);
    if Atom(v) {
      Negates(h, c, v);
    }
    assert ToldAtom(L.EvalUnary(L.Neg, v, line)) == ToldAtom(L.EvalUnary(L.Neg, v, 0));
  }

  lemma AtVal(h: L.Host, c: C.Host, v: L.Value, i: L.Value, line: nat)
    requires SameRules(h, c) && Plain(v) && Plain(i)
    ensures C.At(c, Val(v), Val(i)) == Told(L.EvalIndex(h, v, i, line))
    ensures L.EvalIndex(h, v, i, line).Good? ==> Plain(L.EvalIndex(h, v, i, line).value)
  {
    hide C.Depth, SameRules, L.EvalIndex;
    if v.VList? {
      ElementVal(h, c, v, i, line);
    } else {
      AtomsPlain();
      AtomAt(h, v, i, line);
      if Atom(i) {
        Picks(h, c, v, i);
      }
    }
  }

  lemma Negates(h: L.Host, c: C.Host, v: L.Value)
    requires SameRules(h, c) && Atom(v)
    ensures c.negate(Scalar(v)) == ToldAtom(L.EvalUnary(L.Neg, v, 0))
  {
    hide SameLimits, SameReading, SameText;
  }

  lemma Spells(h: L.Host, c: C.Host, v: L.Value)
    requires SameRules(h, c) && Atom(v)
    ensures c.chars(Scalar(v)) == if v.VStr? then C.Good(Letters(v.s)) else C.Bad(C.NotIterable)
  {
    hide SameLimits, SameOperators, SameText;
  }

  lemma Picks(h: L.Host, c: C.Host, v: L.Value, i: L.Value)
    requires SameRules(h, c) && Atom(v) && Atom(i)
    ensures c.pick(Scalar(v), Scalar(i)) == ToldAtom(L.EvalIndex(h, v, i, 0))
  {
    hide SameLimits, SameOperators, SameText;
  }

  lemma AtomAt(h: L.Host, v: L.Value, i: L.Value, line: nat)
    requires Atom(v) && Plain(i)
    ensures L.EvalIndex(h, v, i, line).Good? ==> Atom(L.EvalIndex(h, v, i, line).value)
    ensures ToldAtom(L.EvalIndex(h, v, i, line)) == ToldAtom(L.EvalIndex(h, v, i, 0))
    ensures i.VList? ==> Told(L.EvalIndex(h, v, i, line)) == C.Bad(C.BadIndex)
  {
  }

  lemma ElementVal(h: L.Host, c: C.Host, v: L.Value, i: L.Value, line: nat)
    requires v.VList? && Plain(v) && Plain(i)
    ensures C.At(c, Val(v), Val(i)) == Told(L.EvalIndex(h, v, i, line))
    ensures L.EvalIndex(h, v, i, line).Good? ==> Plain(L.EvalIndex(h, v, i, line).value)
  {
    PlainAt(v.elements);
    if L.EvalIndex(h, v, i, line).Good? {
      AtVals(v.elements, L.NormalIndex(i.n, |v.elements|));
    }
  }

  lemma AssignAtVal(c: C.Host, v: L.Value, i: L.Value, x: L.Value, line: nat)
    requires Plain(v) && Plain(i) && Plain(x)
    ensures C.AssignAt(c, Val(v), Val(i), Val(x)) == Told(L.AssignIndex(v, i, x, line))
    ensures L.AssignIndex(v, i, x, line).Good? ==> Plain(L.AssignIndex(v, i, x, line).value)
  {
    hide C.Depth, L.Depth, Vals, AllPlain;
    DepthVal(x);
    if L.AssignIndex(v, i, x, line).Good? {
      ValsUpdate(v.elements, L.NormalIndex(i.n, |v.elements|), x);
    }
  }

  lemma ValsUpdate(vs: seq<L.Value>, k: nat, x: L.Value)
    requires k < |vs| && AllPlain(vs) && Plain(x)
    ensures Vals(vs[k := x]) == Vals(vs)[k := Val(x)] && AllPlain(vs[k := x])
  {
    hide Val, Vals, Plain, AllPlain;
    var ws := vs[k := x];
    PlainAt(vs);
    PlainAt(ws);
    forall n | 0 <= n < |ws|
      ensures Vals(ws)[n] == Vals(vs)[k := Val(x)][n]
    {
      AtVals(ws, n);
      AtVals(vs, n);
    }
  }

  lemma AppendedVal(h: L.Host, c: C.Host, vs: seq<L.Value>, v: L.Value, line: nat)
    requires SameRules(h, c) && AllPlain(vs) && Plain(v)
    ensures C.Appended(c, Vals(vs), Val(v)) == ToldAll(L.AppendElement(h, vs, v, line))
    ensures L.AppendElement(h, vs, v, line).Good? ==> AllPlain(L.AppendElement(h, vs, v, line).value)
  {
    hide C.Depth, L.Depth, Val, Vals, Plain, AllPlain, FaultOf;
    DepthVal(v);
    ValsAppend(vs, [v]);
    ValsOne(v);
    PlainAt(vs);
    PlainAt(vs + [v]);
    LimitsTold(h, c);
  }

  lemma LimitsTold(h: L.Host, c: C.Host)
    requires SameRules(h, c)
    ensures FaultOf(L.CollectionLimit) == C.CollectionLimit && FaultOf(L.ValueDepthLimit) == C.NestingLimit
    ensures FaultOf(L.StepLimit) == C.StepLimit && h.maxCollection == c.maxCollection && h.rechecks
  {
    hide SameOperators, SameReading, SameText;
  }

  lemma ItemsVal(h: L.Host, c: C.Host, v: L.Value, line: nat)
    requires SameRules(h, c) && Plain(v)
    ensures C.Items(c, Val(v)) == ToldAll(L.IterItems(h, v, line))
    ensures L.IterItems(h, v, line).Good? ==> AllPlain(L.IterItems(h, v, line).value)
  {
    hide SameRules, FaultOf, Vals, AllPlain;
    LimitsTold(h, c);
    if v.VList? {
      ListVal();
    } else {
      AtomsPlain();
      Spells(h, c, v);
      if v.VStr? {
        LettersVal(v.s);
        PlainAt(L.Chars(v.s));
      } else {
        NotIterableTold();
      }
    }
  }

  lemma NotIterableTold()
    ensures forall t :: FaultOf(L.NotIterable(t)) == C.NotIterable
  {
  }

  lemma {:induction false} LettersVal(s: string)
    ensures C.ScalarValues(Letters(s)) == Vals(L.Chars(s))
  {
    if s == "" {
      assert Letters(s) == [] && L.Chars(s) == [];
    } else {
      assert Letters(s) == [C.Str([s[0]])] + Letters(s[1..]);
      assert L.Chars(s) == [L.VStr([s[0]])] + L.Chars(s[1..]);
      LettersVal(s[1..]);
    }
  }

  lemma {:induction false} LineVals(h: L.Host, c: C.Host, vs: seq<L.Value>)
    requires SameRules(h, c) && AllPlain(vs)
    ensures C.Line(c, Vals(vs)) == L.Joined(h, vs)
  {
    hide SameRules, Val, Plain, C.Show;
    if vs != [] {
      ShowVal(h, c, vs[0]);
      LineVals(h, c, vs[1..]);
      assert Vals(vs)[1..] == Vals(vs[1..]);
    }
  }

  lemma ShowVal(h: L.Host, c: C.Host, v: L.Value)
    requires SameRules(h, c) && Plain(v)
    ensures h.show(v) == C.Show(c, Val(v), false)
  {
    hide SameLimits, SameOperators, SameReading;
  }

  // ----- Variables -----

  /** A scope of values, and a scope of cells that hold them. */
  ghost predicate Level(t: T.Scope, e: C.Scope, cells: seq<C.Value>, silent: set<string>) {
    && t.Keys == e.Keys && "print" !in e
    && (forall x :: x in e ==> e[x] < |cells|)
    && (forall x :: x in e && x !in silent ==> Plain(t[x]) && cells[e[x]] == Val(t[x]))
  }

  ghost predicate Levels(ts: seq<T.Scope>, es: seq<C.Scope>, cells: seq<C.Value>, silent: set<string>) {
    |ts| == |es| && forall i :: 0 <= i < |ts| ==> Level(ts[i], es[i], cells, silent)
  }

  /** Different variables have different cells. */
  ghost predicate Apart(es: seq<C.Scope>) {
    forall i, j, x, y :: 0 <= i < |es| && 0 <= j < |es| && x in es[i] && y in es[j] && es[i][x] == es[j][y] ==> i == j && x == y
  }

  /** A stack of scopes of values and an environment show the same variables. */
  ghost predicate Laid(ts: seq<T.Scope>, es: seq<C.Scope>, env: C.Env, cells: seq<C.Value>, silent: set<string>) {
    es != [] && Levels(ts, es, cells, silent) && Apart(es) && C.Merged(es) == C.Visible(env)
  }

  lemma LevelsOuter(ts: seq<T.Scope>, es: seq<C.Scope>, cells: seq<C.Value>, silent: set<string>)
    requires Levels(ts, es, cells, silent) && es != []
    ensures Levels(ts[..|ts| - 1], es[..|es| - 1], cells, silent)
  {
    hide Level;
  }

  lemma {:induction false} ReadLevels(ts: seq<T.Scope>, es: seq<C.Scope>, cells: seq<C.Value>, silent: set<string>, x: string)
    requires Levels(ts, es, cells, silent)
    ensures x in T.Visible(ts) <==> x in C.Merged(es)
    ensures x in C.Merged(es) ==> x != "print" && C.Merged(es)[x] < |cells|
    ensures x in C.Merged(es) && x !in silent ==> Plain(T.Visible(ts)[x]) && cells[C.Merged(es)[x]] == Val(T.Visible(ts)[x])
    decreases |es|
  {
    hide Plain, Val;
    if es != [] {
      var n := |es| - 1;
      LevelsOuter(ts, es, cells, silent);
      ReadLevels(ts[..n], es[..n], cells, silent, x);
      assert Level(ts[n], es[n], cells, silent);
    }
  }

  lemma ReadLaid(ts: seq<T.Scope>, es: seq<C.Scope>, env: C.Env, st: C.State, silent: set<string>, x: string)
    requires Laid(ts, es, env, st.cells, silent) && x !in silent
    ensures x in T.Visible(ts) <==> x in C.Visible(env)
    ensures x in T.Visible(ts) ==>
              && C.Visible(env)[x] < |st.cells|
              && C.Read(env, x, st) == C.Good(Val(T.Visible(ts)[x])) && Plain(T.Visible(ts)[x])
    ensures x !in T.Visible(ts) ==> C.Read(env, x, st) == C.Bad(C.UndefinedName(x))
    ensures forall line :: Told(T.Read(T.Visible(ts), x, line)) == C.Read(env, x, st)
  {
    hide Plain, Val, Levels, Apart, C.Visible, C.Merged, T.Visible;
    ReadLevels(ts, es, st.cells, silent, x);
  }

  lemma NoPrint(ts: seq<T.Scope>, es: seq<C.Scope>, env: C.Env, cells: seq<C.Value>, silent: set<string>)
    requires Laid(ts, es, env, cells, silent)
    ensures "print" !in C.Visible(env)
  {
    hide Levels, Apart, C.Visible, C.Merged, T.Visible;
    ReadLevels(ts, es, cells, silent, "print");
  }

  /** Where a visible variable has its cell. */
  lemma {:induction false} Somewhere(es: seq<C.Scope>, x: string) returns (i: nat)
    requires x in C.Merged(es)
    ensures i < |es| && x in es[i] && es[i][x] == C.Merged(es)[x]
    decreases |es|
  {
    var n := |es| - 1;
    if x in es[n] {
      return n;
    }
    i := Somewhere(es[..n], x);
  }

  lemma ApartOuter(es: seq<C.Scope>, n: nat)
    requires Apart(es) && n <= |es|
    ensures Apart(es[..n])
  {
  }

  lemma StoreLevel(t: T.Scope, e: C.Scope, cells: seq<C.Value>, silent: set<string>, k: nat, w: C.Value)
    requires Level(t, e, cells, silent) && k < |cells| && forall x :: x in e ==> e[x] != k
    ensures Level(t, e, cells[k := w], silent)
  {
    hide Plain, Val;
  }

  lemma {:induction false} StoreLevels(ts: seq<T.Scope>, es: seq<C.Scope>, cells: seq<C.Value>, silent: set<string>, x: string, v: L.Value)
    requires Levels(ts, es, cells, silent) && Apart(es) && x !in silent && x in C.Merged(es) && Plain(v)
    ensures C.Merged(es)[x] < |cells|
    ensures Levels(T.Update(ts, x, v), es, cells[C.Merged(es)[x] := Val(v)], silent)
    decreases |es|
  {
    hide Plain, Val, Level, Apart, T.Visible;
    ReadLevels(ts, es, cells, silent, x);
    var n, k := |es| - 1, C.Merged(es)[x];
    var after := cells[k := Val(v)];
    LevelsOuter(ts, es, cells, silent);
    assert Level(ts[n], es[n], cells, silent);
    SameKeys(ts[n], es[n], cells, silent);
    if x in es[n] {
      forall i | 0 <= i < n
        ensures Level(ts[i], es[i], after, silent)
      {
        Elsewhere(es, n, x, i);
        StoreLevel(ts[i], es[i], cells, silent, k, Val(v));
      }
      StoreHere(ts[n], es, cells, silent, x, v);
    } else {
      ApartOuter(es, n);
      StoreLevels(ts[..n], es[..n], cells, silent, x, v);
      var i := Somewhere(es[..n], x);
      Elsewhere(es, i, x, n);
      StoreLevel(ts[n], es[n], cells, silent, k, Val(v));
    }
  }

  lemma SameKeys(t: T.Scope, e: C.Scope, cells: seq<C.Value>, silent: set<string>)
    requires Level(t, e, cells, silent)
    ensures t.Keys == e.Keys
  {
  }

  lemma Elsewhere(es: seq<C.Scope>, i: nat, x: string, j: nat)
    requires Apart(es) && i < |es| && j < |es| && i != j && x in es[i]
    ensures forall y :: y in es[j] ==> es[j][y] != es[i][x]
  {
  }

  lemma StoreHere(t: T.Scope, es: seq<C.Scope>, cells: seq<C.Value>, silent: set<string>, x: string, v: L.Value)
    requires es != [] && Level(t, es[|es| - 1], cells, silent) && Apart(es)
    requires x in es[|es| - 1] && x !in silent && Plain(v)
    ensures Level(t[x := v], es[|es| - 1], cells[es[|es| - 1][x] := Val(v)], silent)
  {
    hide Plain, Val;
    var n := |es| - 1;
    assert forall y :: y in es[n] && y != x ==> es[n][y] != es[n][x];
  }

  lemma StoreLaid(ts: seq<T.Scope>, es: seq<C.Scope>, env: C.Env, cells: seq<C.Value>, silent: set<string>, x: string, v: L.Value)
    requires Laid(ts, es, env, cells, silent) && x !in silent && x in C.Visible(env) && Plain(v)
    ensures C.Visible(env)[x] < |cells|
    ensures Laid(T.Update(ts, x, v), es, env, cells[C.Visible(env)[x] := Val(v)], silent)
  {
    hide Plain, Val, Levels, Apart, C.Visible, C.Merged, T.Visible;
    StoreLevels(ts, es, cells, silent, x, v);
  }

  function Bound(es: seq<C.Scope>, x: string, cell: nat): seq<C.Scope>
    requires es != []
  {
    var inner: C.Scope := es[|es| - 1][x := cell];
    es[..|es| - 1] + [inner]
  }

  /** A new variable in the innermost scope. */
  lemma DefineLaid(ts: seq<T.Scope>, es: seq<C.Scope>, env: C.Env, st: C.State, silent: set<string>, x: string, v: L.Value, w: C.Value)
    requires Laid(ts, es, env, st.cells, silent) && x != "print"
    requires x in silent || (Plain(v) && w == Val(v))
    ensures var (env1, st1) := C.Define(env, x, w, st);
            Laid(T.Bind(ts, x, v), Bound(es, x, |st.cells|), env1, st1.cells, silent)
  {
    hide Plain, Val, C.Visible, T.Visible, C.Bind, Level, Apart;
    var n, cell := |es| - 1, |st.cells|;
    var es1 := Bound(es, x, cell);
    CaptureSuffices.BindVisible(env, x, cell);
    assert es1[..n] == es[..n];
    assert C.Merged(es1) == C.Merged(es)[x := cell];
    var after := st.cells + [w];
    forall i | 0 <= i <= n
      ensures Level(T.Bind(ts, x, v)[i], es1[i], after, silent)
    {
      assert Level(ts[i], es[i], st.cells, silent);
      if i < n {
        MoreCells(ts[i], es[i], st.cells, silent, w);
      } else {
        BindLevel(ts[i], es[i], st.cells, silent, x, v, w);
      }
    }
    forall i | 0 <= i <= n
      ensures forall y :: y in es[i] ==> es[i][y] < cell
    {
      assert Level(ts[i], es[i], st.cells, silent);
      InCells(ts[i], es[i], st.cells, silent);
    }
    BoundApart(es, x, cell);
  }

  lemma BoundApart(es: seq<C.Scope>, x: string, cell: nat)
    requires es != [] && Apart(es) && forall i :: 0 <= i < |es| ==> forall y :: y in es[i] ==> es[i][y] < cell
    ensures Apart(Bound(es, x, cell))
  {
  }

  lemma InCells(t: T.Scope, e: C.Scope, cells: seq<C.Value>, silent: set<string>)
    requires Level(t, e, cells, silent)
    ensures forall y :: y in e ==> e[y] < |cells|
  {
  }

  lemma MoreCells(t: T.Scope, e: C.Scope, cells: seq<C.Value>, silent: set<string>, w: C.Value)
    requires Level(t, e, cells, silent)
    ensures Level(t, e, cells + [w], silent)
  {
    hide Plain, Val;
  }

  lemma BindLevel(t: T.Scope, e: C.Scope, cells: seq<C.Value>, silent: set<string>, x: string, v: L.Value, w: C.Value)
    requires Level(t, e, cells, silent) && x != "print" && (x in silent || (Plain(v) && w == Val(v)))
    ensures Level(t[x := v], e[x := |cells|], cells + [w], silent)
  {
    hide Plain, Val;
  }

  lemma PushLaid(ts: seq<T.Scope>, es: seq<C.Scope>, env: C.Env, cells: seq<C.Value>, silent: set<string>)
    requires Laid(ts, es, env, cells, silent)
    ensures Laid(ts + [map[]], es + [map[]], C.Push(env), cells, silent)
  {
    hide C.Visible, C.Push, Plain, Val;
    CaptureSuffices.PushVisible(env);
    assert (es + [map[]])[..|es|] == es;
    assert C.Merged(es + [map[]]) == C.Merged(es);
  }

  /** Leaving a scope. */
  lemma PopLaid(ts: seq<T.Scope>, es: seq<C.Scope>, last: C.Scope, inner: C.Env, env: C.Env, cells: seq<C.Value>, silent: set<string>)
    requires es != [] && C.Merged(es) == C.Visible(env) && Laid(ts, es + [last], inner, cells, silent)
    ensures Laid(ts[..|es|], es, env, cells, silent)
  {
    hide C.Visible, C.Merged, Level;
    assert (es + [last])[..|es|] == es;
    ApartOuter(es + [last], |es|);
    forall i | 0 <= i < |es|
      ensures Level(ts[i], es[i], cells, silent)
    {
      assert Level(ts[i], (es + [last])[i], cells, silent);
    }
  }

  // ----- Expressions -----

  predicate Tells(t: T.Evaluated<L.Value>, r: C.Res<C.Value>, st: C.State) {
    r == C.Res(Told(t.result), st.(out := t.out)) && (t.result.Good? ==> Plain(t.result.value))
  }

  predicate TellsAll(t: T.Evaluated<seq<L.Value>>, r: C.Res<seq<C.Value>>, st: C.State) {
    r == C.Res(ToldAll(t.result), st.(out := t.out)) && (t.result.Good? ==> AllPlain(t.result.value))
  }

  lemma {:induction false} ExprAlike(h: L.Host, c: C.Host, p: C.Policy, silent: set<string>, ts: seq<T.Scope>, es: seq<C.Scope>,
                                     env: C.Env, e: L.Expr, line: nat, st: C.State)
    requires SameRules(h, c) && Laid(ts, es, env, st.cells, silent) && SpokenExpr(e, silent)
    ensures Tells(T.EvalExpr(h, T.Visible(ts), e, line, st.out), C.EvalExpr(c, p, env, Exp(e), st), st)
    decreases e, 1
  {
    hide SameRules, Laid, Plain, AllPlain, Val, Vals, Exps, T.Visible, C.Visible, T.EvalBinop, C.Binop, C.Unop, C.At, C.Read,
         L.EvalIndex, L.EvalUnary, T.EvalArgs, T.EvalElements, C.EvalExprs, C.EvalItems, C.Line, L.Joined, C.Truthy, L.Truthy, FaultOf;
    var scope := T.Visible(ts);
    match e {
      case Ident(name) => ReadLaid(ts, es, env, st, silent, name);
      case Binary(op, left, right) => BinaryAlike(h, c, p, silent, ts, es, env, op, left, right, line, st);
      case Unary(uop, operand) => {
        ExprAlike(h, c, p, silent, ts, es, env, operand, line, st);
        var v := T.EvalExpr(h, scope, operand, line, st.out);
        if v.result.Good? {
          UnopVal(h, c, uop, v.result.value, line);
        }
      }
      case Print(args) => PrintAlike(h, c, p, silent, ts, es, env, args, line, st);
      case ListLit(items) => ListAlike(h, c, p, silent, ts, es, env, items, line, st);
      case Index(base, index) => IndexAlike(h, c, p, silent, ts, es, env, base, index, line, st);
      case _ => AtomsPlain();
    }
  }

  /** What two operands give, the right one only where the left one does not decide. */
  function Combined(op: L.BinOp, l: T.Evaluated<L.Value>, r: T.Evaluated<L.Value>, line: nat): T.Evaluated<L.Value> {
    if l.result.Bad? then l
    else if op.And? && !L.Truthy(l.result.value) then l
    else if op.Or? && L.Truthy(l.result.value) then l
    else if r.result.Bad? || op.And? || op.Or? then r
    else T.Evaluated(T.EvalBinop(op, l.result.value, r.result.value, line), r.out)
  }

  function Joined(c: C.Host, op: X.BinOp, l: C.Res<C.Value>, r: C.Res<C.Value>): C.Res<C.Value> {
    if l.result.Bad? then l
    else if op.And? && !C.Truthy(c, l.result.value) then l
    else if op.Or? && C.Truthy(c, l.result.value) then l
    else if r.result.Bad? || op.And? || op.Or? then r
    else C.Res(C.Binop(c, op, l.result.value, r.result.value), r.st)
  }

  lemma BinaryParts(h: L.Host, c: C.Host, p: C.Policy, scope: T.Scope, env: C.Env, op: L.BinOp, left: L.Expr, right: L.Expr, line: nat, st: C.State)
    ensures var l := T.EvalExpr(h, scope, left, line, st.out);
            T.EvalExpr(h, scope, L.Binary(op, left, right), line, st.out) == Combined(op, l, T.EvalExpr(h, scope, right, line, l.out), line)
    ensures var l := C.EvalExpr(c, p, env, Exp(left), st);
            C.EvalExpr(c, p, env, Exp(L.Binary(op, left, right)), st) == Joined(c, Op(op), l, C.EvalExpr(c, p, env, Exp(right), l.st))
  {
    hide T.EvalBinop, C.Binop, C.Truthy, L.Truthy, Op;
  }

  lemma {:induction false} BinaryAlike(h: L.Host, c: C.Host, p: C.Policy, silent: set<string>, ts: seq<T.Scope>, es: seq<C.Scope>,
                                       env: C.Env, op: L.BinOp, left: L.Expr, right: L.Expr, line: nat, st: C.State)
    requires SameRules(h, c) && Laid(ts, es, env, st.cells, silent) && SpokenExpr(left, silent) && SpokenExpr(right, silent)
    ensures var e := L.Binary(op, left, right);
            Tells(T.EvalExpr(h, T.Visible(ts), e, line, st.out), C.EvalExpr(c, p, env, Exp(e), st), st)
    decreases L.Binary(op, left, right), 0
  {
    hide SameRules, Laid, Plain, Val, T.Visible, C.Visible, T.EvalBinop, C.Binop, C.Truthy, L.Truthy, FaultOf, Op, SpokenExpr,
         T.EvalExpr, C.EvalExpr, Exp;
    OpSame(op);
    BinaryParts(h, c, p, T.Visible(ts), env, op, left, right, line, st);
    var scope := T.Visible(ts);
    ExprAlike(h, c, p, silent, ts, es, env, left, line, st);
    var l := T.EvalExpr(h, scope, left, line, st.out);
    if l.result.Good? {
      TruthyVal(h, c, l.result.value);
      ExprAlike(h, c, p, silent, ts, es, env, right, line, st.(out := l.out));
      var r := T.EvalExpr(h, scope, right, line, l.out);
      if r.result.Good? && !op.And? && !op.Or? {
        BinopVal(h, c, op, l.result.value, r.result.value, line);
      }
    }
  }

  lemma {:induction false} ListAlike(h: L.Host, c: C.Host, p: C.Policy, silent: set<string>, ts: seq<T.Scope>, es: seq<C.Scope>,
                                     env: C.Env, items: seq<L.Expr>, line: nat, st: C.State)
    requires SameRules(h, c) && Laid(ts, es, env, st.cells, silent) && SpokenExprs(items, silent)
    ensures var e := L.ListLit(items);
            Tells(T.EvalExpr(h, T.Visible(ts), e, line, st.out), C.EvalExpr(c, p, env, Exp(e), st), st)
    decreases items, 1
  {
    hide SameRules, Laid, Plain, AllPlain, Val, Vals, Exps, T.Visible, C.Visible, T.EvalElements, C.EvalItems, FaultOf;
    NoValues();
    ItemsAlike(h, c, p, silent, ts, es, env, items, [], line, st);
    ListVal();
  }

  lemma {:induction false} PrintAlike(h: L.Host, c: C.Host, p: C.Policy, silent: set<string>, ts: seq<T.Scope>, es: seq<C.Scope>,
                                      env: C.Env, args: seq<L.Expr>, line: nat, st: C.State)
    requires SameRules(h, c) && Laid(ts, es, env, st.cells, silent) && SpokenExprs(args, silent)
    ensures Tells(T.EvalExpr(h, T.Visible(ts), L.Print(args), line, st.out), C.EvalExpr(c, p, env, Exp(L.Print(args)), st), st)
    decreases args, 1
  {
    hide SameRules, Laid, Plain, AllPlain, Val, Vals, Exps, T.Visible, C.Visible, T.EvalArgs, C.EvalExprs, C.Line, L.Joined, FaultOf;
    NoPrint(ts, es, env, st.cells, silent);
    ArgsAlike(h, c, p, silent, ts, es, env, args, line, st);
    var vs := T.EvalArgs(h, T.Visible(ts), args, line, st.out);
    if vs.result.Good? {
      LineVals(h, c, vs.result.value);
    }
    AtomsPlain();
    assert Atom(L.VNull);
  }

  /** Reading an element in place is reading it from the value. */
  function ReadElement(h: L.Host, scope: T.Scope, base: L.Expr, index: L.Expr, line: nat, out: seq<string>): T.Evaluated<L.Value> {
    var b := T.EvalExpr(h, scope, base, line, out);
    if b.result.Bad? then b
    else
      var i := T.EvalExpr(h, scope, index, line, b.out);
      if i.result.Bad? then i else T.Evaluated(L.EvalIndex(h, b.result.value, i.result.value, line), i.out)
  }

  lemma InPlace(h: L.Host, scope: T.Scope, base: L.Expr, index: L.Expr, line: nat, out: seq<string>)
    ensures T.EvalExpr(h, scope, L.Index(base, index), line, out) == ReadElement(h, scope, base, index, line, out)
  {
    hide L.EvalIndex;
    if base.Ident? && base.name in scope {
      assert T.EvalExpr(h, scope, base, line, out) == T.Evaluated(L.Good(scope[base.name]), out);
    }
  }

  lemma {:induction false} IndexAlike(h: L.Host, c: C.Host, p: C.Policy, silent: set<string>, ts: seq<T.Scope>, es: seq<C.Scope>,
                                      env: C.Env, base: L.Expr, index: L.Expr, line: nat, st: C.State)
    requires SameRules(h, c) && Laid(ts, es, env, st.cells, silent) && SpokenExpr(base, silent) && SpokenExpr(index, silent)
    ensures Tells(T.EvalExpr(h, T.Visible(ts), L.Index(base, index), line, st.out), C.EvalExpr(c, p, env, Exp(L.Index(base, index)), st), st)
    decreases L.Index(base, index), 0
  {
    hide SameRules, Laid, Plain, AllPlain, Val, Vals, Exps, T.Visible, C.Visible, C.At, C.Read, L.EvalIndex, FaultOf, T.EvalExpr, SpokenExpr;
    var scope := T.Visible(ts);
    InPlace(h, scope, base, index, line, st.out);
    ExprAlike(h, c, p, silent, ts, es, env, base, line, st);
    var b := T.EvalExpr(h, scope, base, line, st.out);
    if b.result.Good? {
      ExprAlike(h, c, p, silent, ts, es, env, index, line, st.(out := b.out));
      var i := T.EvalExpr(h, scope, index, line, b.out);
      if i.result.Good? {
        AtVal(h, c, b.result.value, i.result.value, line);
      }
    }
  }

  lemma {:induction false} ArgsAlike(h: L.Host, c: C.Host, p: C.Policy, silent: set<string>, ts: seq<T.Scope>, es: seq<C.Scope>,
                                     env: C.Env, args: seq<L.Expr>, line: nat, st: C.State)
    requires SameRules(h, c) && Laid(ts, es, env, st.cells, silent) && SpokenExprs(args, silent)
    ensures TellsAll(T.EvalArgs(h, T.Visible(ts), args, line, st.out), C.EvalExprs(c, p, env, Exps(args), st), st)
    decreases args, 0
  {
    hide SameRules, Laid, Plain, Val, Exp, SpokenExpr, T.Visible, T.EvalExpr, C.EvalExpr, FaultOf;
    if args != [] {
      ExprAlike(h, c, p, silent, ts, es, env, args[0], line, st);
      var v := T.EvalExpr(h, T.Visible(ts), args[0], line, st.out);
      assert Exps(args)[1..] == Exps(args[1..]);
      if v.result.Good? {
        ArgsAlike(h, c, p, silent, ts, es, env, args[1..], line, st.(out := v.out));
        var vs := T.EvalArgs(h, T.Visible(ts), args[1..], line, v.out);
        if vs.result.Good? {
          assert ([v.result.value] + vs.result.value)[1..] == vs.result.value;
        }
      }
    }
  }

  lemma {:induction false} ItemsAlike(h: L.Host, c: C.Host, p: C.Policy, silent: set<string>, ts: seq<T.Scope>, es: seq<C.Scope>,
                                      env: C.Env, items: seq<L.Expr>, list: seq<L.Value>, line: nat, st: C.State)
    requires SameRules(h, c) && Laid(ts, es, env, st.cells, silent) && SpokenExprs(items, silent) && AllPlain(list)
    ensures TellsAll(T.EvalElements(h, T.Visible(ts), items, list, line, st.out), C.EvalItems(c, p, env, Exps(items), Vals(list), st), st)
    decreases items, 0
  {
    hide SameRules, Laid, Plain, AllPlain, Val, Vals, Exp, SpokenExpr, T.Visible, T.EvalExpr, C.EvalExpr, FaultOf, C.Appended, L.AppendElement;
    if items != [] {
      ExprAlike(h, c, p, silent, ts, es, env, items[0], line, st);
      var v := T.EvalExpr(h, T.Visible(ts), items[0], line, st.out);
      assert Exps(items)[1..] == Exps(items[1..]);
      if v.result.Good? {
        AppendedVal(h, c, list, v.result.value, line);
        var longer := L.AppendElement(h, list, v.result.value, line);
        if longer.Good? {
          ItemsAlike(h, c, p, silent, ts, es, env, items[1..], longer.value, line, st.(out := v.out));
        }
      }
    }
  }

  // ----- Statements -----

  predicate FlowAlike(f: T.Flow, g: C.Flow) {
    match f
    case Normal => g.Normal?
    case Breaking(_) => g.Breaking?
    case Continuing(_) => g.Continuing?
    case Returning(v) => Plain(v) && g == C.Returning(Val(v))
    case Failing(fault) => g == C.Failing(FaultOf(fault.cause))
  }

  /** Both ended alike, in scopes that are laid out like these. */
  ghost predicate Ends(t: T.Step, r: C.Step, es: seq<C.Scope>, silent: set<string>) {
    && FlowAlike(t.flow, r.flow) && t.st.fuel == r.st.steps && t.st.out == r.st.out
    && Laid(t.st.scopes, es, r.env, r.st.cells, silent)
  }

  function Inner(es: seq<C.Scope>, last: C.Scope): seq<C.Scope>
    requires es != []
  {
    es[..|es| - 1] + [last]
  }

  lemma LaidSize(ts: seq<T.Scope>, es: seq<C.Scope>, env: C.Env, cells: seq<C.Value>, silent: set<string>)
    requires Laid(ts, es, env, cells, silent)
    ensures |ts| == |es| > 0 && Inner(es, es[|es| - 1]) == es && C.Merged(es) == C.Visible(env)
  {
  }

  lemma {:induction false} BlockAlike(h: L.Host, c: C.Host, p: C.Policy, silent: set<string>, ts: seq<T.Scope>, es: seq<C.Scope>,
                                      env: C.Env, ss: seq<L.Stmt>, st: C.State) returns (last: C.Scope)
    requires SameRules(h, c) && Laid(ts, es, env, st.cells, silent) && SpokenStmts(ss, silent)
    ensures ts != [] && es != []
    ensures Ends(T.ExecBlock(h, ss, T.State(ts, st.steps, st.out)), C.ExecBlock(c, p, env, Stas(ss), st), Inner(es, last), silent)
    decreases st.steps, ss, 0
  {
    hide SameRules, Laid, Sta, SpokenStmt, T.ExecStmt, C.ExecStmt, Plain, Val, FaultOf;
    LaidSize(ts, es, env, st.cells, silent);
    last := es[|es| - 1];
    if ss != [] {
      last := StmtAlike(h, c, p, silent, ts, es, env, ss[0], st);
      var t, r := T.ExecStmt(h, ss[0], T.State(ts, st.steps, st.out)), C.ExecStmt(c, p, env, Sta(ss[0]), st);
      assert Stas(ss)[1..] == Stas(ss[1..]);
      if t.flow.Normal? {
        var es1 := Inner(es, last);
        assert t.st == T.State(t.st.scopes, r.st.steps, r.st.out);
        last := BlockAlike(h, c, p, silent, t.st.scopes, es1, r.env, ss[1..], r.st);
        assert Inner(es1, last) == Inner(es, last);
      }
    }
  }

  lemma {:induction false} ScopedAlike(h: L.Host, c: C.Host, p: C.Policy, silent: set<string>, ts: seq<T.Scope>, es: seq<C.Scope>,
                                       env: C.Env, ss: seq<L.Stmt>, st: C.State)
    requires SameRules(h, c) && Laid(ts, es, env, st.cells, silent) && SpokenStmts(ss, silent)
    ensures ts != []
    ensures var r := C.Scoped(c, p, env, Stas(ss), st);
            Ends(T.ExecScoped(h, ss, map[], T.State(ts, st.steps, st.out)), r, es, silent) && r.env == env
    decreases st.steps, ss, 1
  {
    hide SameRules, Laid, Stas, SpokenStmts, T.ExecBlock, C.ExecBlock, Plain, Val, FaultOf, C.Push, C.Visible, C.Merged;
    LaidSize(ts, es, env, st.cells, silent);
    PushLaid(ts, es, env, st.cells, silent);
    var last := BlockAlike(h, c, p, silent, ts + [map[]], es + [map[]], C.Push(env), ss, st);
    var t := T.ExecBlock(h, ss, T.State(ts + [map[]], st.steps, st.out));
    var r := C.ExecBlock(c, p, C.Push(env), Stas(ss), st);
    assert Inner(es + [map[]], last) == es + [last];
    PopLaid(t.st.scopes, es, last, r.env, env, r.st.cells, silent);
  }

  lemma {:induction false} ScopedWithAlike(h: L.Host, c: C.Host, p: C.Policy, silent: set<string>, ts: seq<T.Scope>, es: seq<C.Scope>,
                                           env: C.Env, binder: string, v: L.Value, w: C.Value, ss: seq<L.Stmt>, st: C.State)
    requires SameRules(h, c) && Laid(ts, es, env, st.cells, silent) && SpokenStmts(ss, silent)
    requires binder != "print" && (binder in silent || (Plain(v) && w == Val(v)))
    ensures ts != []
    ensures var r := C.ScopedWith(c, p, env, binder, w, Stas(ss), st);
            Ends(T.ExecScoped(h, ss, map[binder := v], T.State(ts, st.steps, st.out)), r, es, silent) && r.env == env
    decreases st.steps, ss, 1
  {
    hide SameRules, Laid, Stas, SpokenStmts, T.ExecBlock, C.ExecBlock, Plain, Val, FaultOf, C.Push, C.Visible, C.Merged, C.Bind;
    LaidSize(ts, es, env, st.cells, silent);
    PushLaid(ts, es, env, st.cells, silent);
    var outer, cells := ts + [map[]], es + [map[]];
    DefineLaid(outer, cells, C.Push(env), st, silent, binder, v, w);
    var (inner, st1) := C.Define(C.Push(env), binder, w, st);
    var scopes, es1 := ts + [map[binder := v]], Bound(cells, binder, |st.cells|);
    assert T.Bind(outer, binder, v) == scopes by {
      assert outer[|ts|][binder := v] == map[binder := v];
    }
    var last := BlockAlike(h, c, p, silent, scopes, es1, inner, ss, st1);
    var t := T.ExecBlock(h, ss, T.State(scopes, st.steps, st.out));
    var r := C.ExecBlock(c, p, inner, Stas(ss), st1);
    assert Inner(es1, last) == es + [last];
    PopLaid(t.st.scopes, es, last, r.env, env, r.st.cells, silent);
  }

  lemma WhileIs(s: L.Stmt, silent: set<string>)
    requires s.While?
    ensures Sta(s) == X.While(Exp(s.cond), Stas(s.body))
    ensures SpokenStmt(s, silent) <==> SpokenExpr(s.cond, silent) && SpokenStmts(s.body, silent)
  {
  }

  lemma ForIs(s: L.Stmt, silent: set<string>)
    requires s.For?
    ensures Sta(s) == X.For(s.binder, Exp(s.iter), Stas(s.body))
    ensures SpokenStmt(s, silent) <==> Spoken(s.binder, silent) && SpokenExpr(s.iter, silent) && SpokenStmts(s.body, silent)
  {
  }

  /** How a loop goes on after its body. */
  function TreeTurn(h: L.Host, s: L.Stmt, b: T.Step): T.Step
    requires s.While? && b.st.scopes != []
  {
    match b.flow
    case Breaking(_) => T.Step(T.Normal, b.st)
    case Returning(_) => b
    case Failing(_) => b
    case _ =>
      if b.st.fuel == 0 then T.Step(T.Failing(L.Fault(L.StepLimit, s.line)), b.st)
      else T.WhileLoop(h, s, b.st.(fuel := b.st.fuel - 1))
  }

  function ClosureTurn(c: C.Host, p: C.Policy, env: C.Env, w: X.Stmt, d: C.Step): C.Step
    requires w.While?
  {
    match d.flow
    case Breaking => C.Step(C.Normal, env, d.st)
    case Returning(_) => d
    case Failing(_) => d
    case _ =>
      if d.st.steps == 0 then C.Step(C.Failing(C.StepLimit), env, d.st)
      else C.WhileLoop(c, p, env, w, d.st.(steps := d.st.steps - 1))
  }

  lemma TreeTurns(h: L.Host, s: L.Stmt, st: T.State)
    requires s.While? && st.scopes != []
    ensures var v := T.EvalExpr(h, T.Visible(st.scopes), s.cond, s.line, st.out);
            T.WhileLoop(h, s, st) ==
            if v.result.Bad? then T.Step(T.Failing(v.result.fault), st.(out := v.out))
            else if !L.Truthy(v.result.value) then T.Step(T.Normal, st.(out := v.out))
            else TreeTurn(h, s, T.ExecScoped(h, s.body, map[], st.(out := v.out)))
  {
    hide T.EvalExpr, T.ExecScoped, T.Visible, L.Truthy;
  }

  lemma ClosureTurns(c: C.Host, p: C.Policy, env: C.Env, w: X.Stmt, st: C.State)
    requires w.While?
    ensures var v := C.EvalExpr(c, p, env, w.condition, st);
            C.WhileLoop(c, p, env, w, st) ==
            if v.result.Bad? then C.Step(C.Failing(v.result.fault), env, v.st)
            else if !C.Truthy(c, v.result.value) then C.Step(C.Normal, env, v.st)
            else ClosureTurn(c, p, env, w, C.Scoped(c, p, env, w.body, v.st))
  {
    hide C.EvalExpr, C.Scoped, C.Truthy;
  }

  lemma {:induction false} TurnAlike(h: L.Host, c: C.Host, p: C.Policy, silent: set<string>, es: seq<C.Scope>, env: C.Env,
                                     s: L.Stmt, b: T.Step, d: C.Step)
    requires s.While? && SameRules(h, c) && SpokenStmt(s, silent) && Ends(b, d, es, silent) && d.env == env
    ensures b.st.scopes != [] && Sta(s).While?
    ensures var r := ClosureTurn(c, p, env, Sta(s), d);
            Ends(TreeTurn(h, s, b), r, es, silent) && r.env == env
    decreases d.st.steps, s, 0
  {
    hide SameRules, Laid, Sta, SpokenStmt, T.WhileLoop, C.WhileLoop, Plain, Val, FaultOf;
    WhileIs(s, silent);
    LaidSize(b.st.scopes, es, env, d.st.cells, silent);
    LimitsTold(h, c);
    if (b.flow.Normal? || b.flow.Continuing?) && d.st.steps > 0 {
      var st := d.st.(steps := d.st.steps - 1);
      assert b.st.(fuel := b.st.fuel - 1) == T.State(b.st.scopes, st.steps, st.out);
      WhileAlike(h, c, p, silent, b.st.scopes, es, env, s, st);
    }
  }

  lemma {:induction false} WhileAlike(h: L.Host, c: C.Host, p: C.Policy, silent: set<string>, ts: seq<T.Scope>, es: seq<C.Scope>,
                                      env: C.Env, s: L.Stmt, st: C.State)
    requires s.While? && SameRules(h, c) && Laid(ts, es, env, st.cells, silent) && SpokenStmt(s, silent)
    ensures ts != [] && Sta(s).While?
    ensures var r := C.WhileLoop(c, p, env, Sta(s), st);
            Ends(T.WhileLoop(h, s, T.State(ts, st.steps, st.out)), r, es, silent) && r.env == env
    decreases st.steps, s, 1
  {
    hide SameRules, Laid, Exp, Sta, Stas, SpokenStmt, SpokenStmts, SpokenExpr, T.ExecScoped, C.Scoped, T.WhileLoop, C.WhileLoop,
         TreeTurn, ClosureTurn, Plain, Val, FaultOf, T.EvalExpr, C.EvalExpr, C.Truthy, L.Truthy, T.Visible;
    WhileIs(s, silent);
    LaidSize(ts, es, env, st.cells, silent);
    TreeTurns(h, s, T.State(ts, st.steps, st.out));
    ClosureTurns(c, p, env, Sta(s), st);
    ExprAlike(h, c, p, silent, ts, es, env, s.cond, s.line, st);
    var v := T.EvalExpr(h, T.Visible(ts), s.cond, s.line, st.out);
    if v.result.Good? {
      TruthyVal(h, c, v.result.value);
      var st1 := st.(out := v.out);
      ScopedAlike(h, c, p, silent, ts, es, env, s.body, st1);
      TurnAlike(h, c, p, silent, es, env, s, T.ExecScoped(h, s.body, map[], T.State(ts, st.steps, v.out)),
                C.Scoped(c, p, env, Stas(s.body), st1));
    }
  }

  lemma {:induction false} ForAlike(h: L.Host, c: C.Host, p: C.Policy, silent: set<string>, ts: seq<T.Scope>, es: seq<C.Scope>,
                                    env: C.Env, s: L.Stmt, items: seq<L.Value>, k: nat, st: C.State)
    requires s.For? && SameRules(h, c) && Laid(ts, es, env, st.cells, silent) && SpokenStmt(s, silent)
    requires AllPlain(items) && k <= |items|
    ensures ts != []
    ensures var r := C.ForLoop(c, p, env, Sta(s), Vals(items[k..]), st);
            Ends(T.ForLoop(h, s, items, k, T.State(ts, st.steps, st.out)), r, es, silent) && r.env == env
    decreases st.steps, s, 1
  {
    hide SameRules, Laid, Exp, Sta, Stas, SpokenStmt, SpokenStmts, SpokenExpr, T.ExecScoped, C.ScopedWith, Plain, AllPlain, Val, Vals, FaultOf;
    ForIs(s, silent);
    LaidSize(ts, es, env, st.cells, silent);
    NoValues();
    if k == |items| {
      assert items[k..] == [];
    } else {
      PlainAt(items);
      assert items[k..][0] == items[k] && items[k..][1..] == items[k + 1..];
      var vs := Vals(items[k..]);
      ValsCons(items[k..]);
      ScopedWithAlike(h, c, p, silent, ts, es, env, s.binder, items[k], Val(items[k]), s.body, st);
      var b := T.ExecScoped(h, s.body, map[s.binder := items[k]], T.State(ts, st.steps, st.out));
      var d := C.ScopedWith(c, p, env, s.binder, Val(items[k]), Stas(s.body), st);
      LimitsTold(h, c);
      if (b.flow.Normal? || b.flow.Continuing?) && d.st.steps > 0 {
        var st2 := d.st.(steps := d.st.steps - 1);
        assert b.st.(fuel := b.st.fuel - 1) == T.State(b.st.scopes, st2.steps, st2.out);
        ForAlike(h, c, p, silent, b.st.scopes, es, env, s, items, k + 1, st2);
      }
    }
  }

  lemma LetAlike(h: L.Host, c: C.Host, p: C.Policy, silent: set<string>, ts: seq<T.Scope>, es: seq<C.Scope>,
                 env: C.Env, s: L.Stmt, st: C.State) returns (last: C.Scope)
    requires s.Let? && SameRules(h, c) && Laid(ts, es, env, st.cells, silent) && SpokenStmt(s, silent)
    ensures ts != [] && es != []
    ensures Ends(T.ExecStmt(h, s, T.State(ts, st.steps, st.out)), C.ExecStmt(c, p, env, Sta(s), st), Inner(es, last), silent)
  {
    hide SameRules, Laid, Exp, SpokenExpr, Plain, Val, FaultOf, T.EvalExpr, C.EvalExpr, T.Visible, C.Visible, C.Define;
    LaidSize(ts, es, env, st.cells, silent);
    last := es[|es| - 1];
    ExprAlike(h, c, p, silent, ts, es, env, s.value, s.line, st);
    var v := T.EvalExpr(h, T.Visible(ts), s.value, s.line, st.out);
    if v.result.Good? {
      var st1 := st.(out := v.out);
      DefineLaid(ts, es, env, st1, silent, s.name, v.result.value, Val(v.result.value));
      Defined(env, s.name, Val(v.result.value), st1);
      last := Bound(es, s.name, |st.cells|)[|es| - 1];
      assert Bound(es, s.name, |st.cells|) == Inner(es, last);
    }
  }

  lemma AssignAlike(h: L.Host, c: C.Host, p: C.Policy, silent: set<string>, ts: seq<T.Scope>, es: seq<C.Scope>,
                    env: C.Env, s: L.Stmt, st: C.State)
    requires s.Assign? && SameRules(h, c) && Laid(ts, es, env, st.cells, silent) && SpokenStmt(s, silent)
    ensures ts != []
    ensures Ends(T.ExecStmt(h, s, T.State(ts, st.steps, st.out)), C.ExecStmt(c, p, env, Sta(s), st), es, silent)
  {
    hide SameRules, Laid, Exp, SpokenExpr, Plain, Val, FaultOf, T.EvalExpr, C.EvalExpr, T.Visible, C.Visible, C.Read, T.Update;
    LaidSize(ts, es, env, st.cells, silent);
    NameTold();
    ExprAlike(h, c, p, silent, ts, es, env, s.value, s.line, st);
    var v := T.EvalExpr(h, T.Visible(ts), s.value, s.line, st.out);
    if v.result.Good? {
      ReadLaid(ts, es, env, st.(out := v.out), silent, s.name);
      if s.name in T.Visible(ts) {
        StoreLaid(ts, es, env, st.cells, silent, s.name, v.result.value);
      }
    }
  }

  lemma {:induction false} IfAlike(h: L.Host, c: C.Host, p: C.Policy, silent: set<string>, ts: seq<T.Scope>, es: seq<C.Scope>,
                                   env: C.Env, s: L.Stmt, st: C.State)
    requires s.If? && SameRules(h, c) && Laid(ts, es, env, st.cells, silent) && SpokenStmt(s, silent)
    ensures ts != []
    ensures Ends(T.ExecStmt(h, s, T.State(ts, st.steps, st.out)), C.ExecStmt(c, p, env, Sta(s), st), es, silent)
    decreases st.steps, s, 2
  {
    hide SameRules, Laid, Exp, Stas, SpokenExpr, SpokenStmts, Plain, Val, FaultOf, T.EvalExpr, C.EvalExpr, T.Visible,
         T.ExecScoped, C.Scoped, L.Truthy, C.Truthy;
    LaidSize(ts, es, env, st.cells, silent);
    ExprAlike(h, c, p, silent, ts, es, env, s.cond, s.line, st);
    var v := T.EvalExpr(h, T.Visible(ts), s.cond, s.line, st.out);
    if v.result.Good? {
      TruthyVal(h, c, v.result.value);
      ScopedAlike(h, c, p, silent, ts, es, env, s.thenBody, st.(out := v.out));
      ScopedAlike(h, c, p, silent, ts, es, env, s.elseBody, st.(out := v.out));
    }
  }

  lemma {:induction false} WhileStmtAlike(h: L.Host, c: C.Host, p: C.Policy, silent: set<string>, ts: seq<T.Scope>, es: seq<C.Scope>,
                                          env: C.Env, s: L.Stmt, st: C.State)
    requires s.While? && SameRules(h, c) && Laid(ts, es, env, st.cells, silent) && SpokenStmt(s, silent)
    ensures ts != []
    ensures Ends(T.ExecStmt(h, s, T.State(ts, st.steps, st.out)), C.ExecStmt(c, p, env, Sta(s), st), es, silent)
    decreases st.steps, s, 2
  {
    hide SameRules, Laid, Exp, Stas, SpokenExpr, SpokenStmts, Plain, Val, FaultOf, T.EvalExpr, C.EvalExpr, T.Visible,
         T.WhileLoop, C.WhileLoop, L.Truthy, C.Truthy;
    LaidSize(ts, es, env, st.cells, silent);
    Catches(h, c, L.StepLimit);
    ExprAlike(h, c, p, silent, ts, es, env, s.cond, s.line, st);
    var v := T.EvalExpr(h, T.Visible(ts), s.cond, s.line, st.out);
    if v.result.Good? {
      TruthyVal(h, c, v.result.value);
      WhileAlike(h, c, p, silent, ts, es, env, s, st.(out := v.out));
    }
  }

  lemma {:induction false} ForStmtAlike(h: L.Host, c: C.Host, p: C.Policy, silent: set<string>, ts: seq<T.Scope>, es: seq<C.Scope>,
                                        env: C.Env, s: L.Stmt, st: C.State)
    requires s.For? && SameRules(h, c) && Laid(ts, es, env, st.cells, silent) && SpokenStmt(s, silent)
    ensures ts != []
    ensures Ends(T.ExecStmt(h, s, T.State(ts, st.steps, st.out)), C.ExecStmt(c, p, env, Sta(s), st), es, silent)
    decreases st.steps, s, 2
  {
    hide SameRules, Laid, Exp, Stas, SpokenExpr, SpokenStmts, Plain, AllPlain, Val, Vals, FaultOf, T.EvalExpr, C.EvalExpr, T.Visible,
         T.ForLoop, C.ForLoop, L.IterItems, C.Items;
    LaidSize(ts, es, env, st.cells, silent);
    ExprAlike(h, c, p, silent, ts, es, env, s.iter, s.line, st);
    var v := T.EvalExpr(h, T.Visible(ts), s.iter, s.line, st.out);
    if v.result.Good? {
      ItemsVal(h, c, v.result.value, s.line);
      var items := L.IterItems(h, v.result.value, s.line);
      if items.Good? {
        assert items.value[0..] == items.value;
        ForAlike(h, c, p, silent, ts, es, env, s, items.value, 0, st.(out := v.out));
      }
    }
  }

  lemma {:induction false} TryAlike(h: L.Host, c: C.Host, p: C.Policy, silent: set<string>, ts: seq<T.Scope>, es: seq<C.Scope>,
                                    env: C.Env, s: L.Stmt, st: C.State)
    requires s.TryCatch? && SameRules(h, c) && Laid(ts, es, env, st.cells, silent) && SpokenStmt(s, silent)
    ensures ts != []
    ensures Ends(T.ExecStmt(h, s, T.State(ts, st.steps, st.out)), C.ExecStmt(c, p, env, Sta(s), st), es, silent)
    decreases st.steps, s, 2
  {
    hide SameRules, Laid, Stas, SpokenStmts, Plain, Val, FaultOf, T.ExecScoped, C.Scoped, C.ScopedWith, L.IsUncatchable, L.ErrorValue;
    LaidSize(ts, es, env, st.cells, silent);
    ScopedAlike(h, c, p, silent, ts, es, env, s.tryBody, st);
    var t, r := T.ExecScoped(h, s.tryBody, map[], T.State(ts, st.steps, st.out)), C.Scoped(c, p, env, Stas(s.tryBody), st);
    if t.flow.Failing? {
      Catches(h, c, t.flow.fault.cause);
      ScopedWithAlike(h, c, p, silent, t.st.scopes, es, env, s.binder, L.ErrorValue(h, t.flow.fault),
                      C.VScalar(C.Caught(r.flow.fault)), s.catchBody, r.st);
      assert t.st == T.State(t.st.scopes, r.st.steps, r.st.out);
    }
  }

  lemma IndexAssignAlike(h: L.Host, c: C.Host, p: C.Policy, silent: set<string>, ts: seq<T.Scope>, es: seq<C.Scope>,
                         env: C.Env, s: L.Stmt, st: C.State)
    requires s.IndexAssign? && SameRules(h, c) && Laid(ts, es, env, st.cells, silent) && SpokenStmt(s, silent)
    ensures ts != []
    ensures Ends(T.ExecStmt(h, s, T.State(ts, st.steps, st.out)), C.ExecStmt(c, p, env, Sta(s), st), es, silent)
  {
    hide SameRules, Laid, Exp, SpokenExpr, Plain, Val, FaultOf, T.EvalExpr, C.EvalExpr, T.Visible, C.Visible, C.Read, L.AssignIndex, C.AssignAt, T.Update;
    LaidSize(ts, es, env, st.cells, silent);
    var scope := T.Visible(ts);
    ReadLaid(ts, es, env, st, silent, s.name);
    ExprAlike(h, c, p, silent, ts, es, env, s.index, s.line, st);
    NameTold();
    var i := T.EvalExpr(h, scope, s.index, s.line, st.out);
    if s.name in scope && i.result.Good? {
      var st1 := st.(out := i.out);
      ExprAlike(h, c, p, silent, ts, es, env, s.value, s.line, st1);
      var v := T.EvalExpr(h, scope, s.value, s.line, i.out);
      if v.result.Good? {
        ReadLaid(ts, es, env, st.(out := v.out), silent, s.name);
        AssignAtVal(c, scope[s.name], i.result.value, v.result.value, s.line);
        var x := L.AssignIndex(scope[s.name], i.result.value, v.result.value, s.line);
        if x.Good? {
          StoreLaid(ts, es, env, st.cells, silent, s.name, x.value);
        }
      }
    }
  }

  lemma NameTold()
    ensures forall x :: FaultOf(L.UndefinedName(x)) == C.UndefinedName(x) && FaultOf(L.AssignUndefined(x)) == C.AssignUndefined(x)
  {
  }

  lemma Catches(h: L.Host, c: C.Host, cause: L.Cause)
    requires SameRules(h, c)
    ensures c.uncatchable(FaultOf(cause)) <==> L.IsUncatchable(cause)
    ensures h.rechecks
  {
    hide SameOperators, SameReading, SameText;
  }

  lemma {:induction false} StmtAlike(h: L.Host, c: C.Host, p: C.Policy, silent: set<string>, ts: seq<T.Scope>, es: seq<C.Scope>,
                                     env: C.Env, s: L.Stmt, st: C.State) returns (last: C.Scope)
    requires SameRules(h, c) && Laid(ts, es, env, st.cells, silent) && SpokenStmt(s, silent)
    ensures ts != [] && es != []
    ensures Ends(T.ExecStmt(h, s, T.State(ts, st.steps, st.out)), C.ExecStmt(c, p, env, Sta(s), st), Inner(es, last), silent)
    decreases st.steps, s, 3
  {
    hide SameRules, Laid, Exp, Stas, SpokenExpr, SpokenStmts, Plain, AllPlain, Val, Vals, FaultOf, T.EvalExpr, C.EvalExpr, T.Visible, C.Visible,
         C.Read, T.Update, T.ExecScoped, C.Scoped, C.ScopedWith, T.WhileLoop, C.WhileLoop, T.ForLoop, C.ForLoop, L.Truthy, C.Truthy,
         L.IterItems, C.Items, C.Define, C.Bind, T.ExecIndexAssign;
    LaidSize(ts, es, env, st.cells, silent);
    last := es[|es| - 1];
    var scope := T.Visible(ts);
    NameTold();
    match s {
      case Let(_, _, _) => {
        last := LetAlike(h, c, p, silent, ts, es, env, s, st);
      }
      case Assign(_, _, _) => AssignAlike(h, c, p, silent, ts, es, env, s, st);
      case IndexAssign(_, _, _, _) => IndexAssignAlike(h, c, p, silent, ts, es, env, s, st);
      case ExprStmt(expr, line) => ExprAlike(h, c, p, silent, ts, es, env, expr, line, st);
      case If(_, _, _, _) => IfAlike(h, c, p, silent, ts, es, env, s, st);
      case While(_, _, _) => WhileStmtAlike(h, c, p, silent, ts, es, env, s, st);
      case For(_, _, _, _) => ForStmtAlike(h, c, p, silent, ts, es, env, s, st);
      case TryCatch(_, _, _, _) => TryAlike(h, c, p, silent, ts, es, env, s, st);
      case Return(value, line) => ExprAlike(h, c, p, silent, ts, es, env, value, line, st);
      case _ =>
    }
  }

  lemma Defined(env: C.Env, name: string, w: C.Value, st: C.State)
    ensures var (_, st1) := C.Define(env, name, w, st); st1 == st.(cells := st.cells + [w])
  {
  }

  // ----- Programs -----

  /** What ended a program, if it is a fault. */
  function FaultIn(f: C.Flow): L.Option<C.Fault> {
    match f
    case Failing(fault) => L.Some(fault)
    case Breaking => L.Some(C.BreakOutsideLoop)
    case Continuing => L.Some(C.ContinueOutsideLoop)
    case _ => L.None
  }

  /** The same rules hold for some two hosts, whatever the limit and however scalars are shown. */
  lemma RulesExist(maxCollection: nat, message: L.Cause -> string, kindText: L.ErrorKind -> string,
                   text: (C.Scalar, bool) -> string, before: (string, string) -> bool, maxDepth: nat)
    ensures exists h, c :: SameRules(h, c) && c.show == text && c.before == before && c.maxDepth == maxDepth
                           && h.message == message && h.kindText == kindText && h.maxCollection == maxCollection
  {
    var c := RuleHost(maxCollection, message, kindText, text, before, maxDepth);
    var h := L.Host(maxCollection, v => C.Show(c, Val(v), false), message, kindText, true);
    RuleHostFollows(h, c, maxCollection, message, kindText, text, before, maxDepth);
    assert SameRules(h, c);
  }

  function RuleHost(maxCollection: nat, message: L.Cause -> string, kindText: L.ErrorKind -> string,
                    text: (C.Scalar, bool) -> string, before: (string, string) -> bool, maxDepth: nat): C.Host {
    C.Host(
      (op, s, t) => ToldAtom(T.EvalBinop(Back(op), Raised(s), Raised(t), 0)),
      s => ToldAtom(L.EvalUnary(L.Neg, Raised(s), 0)),
      s => L.Truthy(Raised(s)),
      (s, t) => Raised(s) == Raised(t),
      (s, i) => ToldAtom(L.EvalIndex(L.Host(0, v => "", message, kindText, true), Raised(s), Raised(i), 0)),
      (s: C.Scalar) => if s.Str? then C.Good(Letters(s.s)) else C.Bad(C.NotIterable),
      text, before, (f: C.Fault) => f.StepLimit? || f.CollectionLimit?, maxDepth, maxCollection)
  }

  lemma RuleHostFollows(h: L.Host, c: C.Host, maxCollection: nat, message: L.Cause -> string, kindText: L.ErrorKind -> string,
                        text: (C.Scalar, bool) -> string, before: (string, string) -> bool, maxDepth: nat)
    requires c == RuleHost(maxCollection, message, kindText, text, before, maxDepth)
    requires h == L.Host(maxCollection, v => C.Show(c, Val(v), false), message, kindText, true)
    ensures SameRules(h, c)
  {
    hide T.EvalBinop, L.EvalUnary, L.EvalIndex, C.Show, Val, Plain, ToldAtom;
    forall v | Atom(v)
      ensures Raised(Scalar(v)) == v
    {
    }
    forall op
      ensures Back(Op(op)) == op
    {
    }
    forall v, i | Atom(v) && Atom(i)
      ensures c.pick(Scalar(v), Scalar(i)) == ToldAtom(L.EvalIndex(h, v, i, 0))
    {
      AtomIndex(h, L.Host(0, v => "", message, kindText, true), v, i);
    }
    forall cause: L.Cause
      ensures c.uncatchable(FaultOf(cause)) <==> L.IsUncatchable(cause)
    {
    }
  }

  lemma AtomIndex(h: L.Host, g: L.Host, v: L.Value, i: L.Value)
    requires Atom(v)
    ensures L.EvalIndex(h, v, i, 0) == L.EvalIndex(g, v, i, 0)
  {
  }

  function Back(op: X.BinOp): L.BinOp {
    match op
    case Add => L.Add
    case Sub => L.Sub
    case Mul => L.Mul
    case Div => L.Div
    case Mod => L.Mod
    case Eq => L.Eq
    case NotEq => L.NotEq
    case Lt => L.Lt
    case Gt => L.Gt
    case LtEq => L.LtEq
    case GtEq => L.GtEq
    case And => L.And
    case Or => L.Or
  }

  function Raised(s: C.Scalar): L.Value {
    match s
    case Int(n) => L.VInt(n)
    case Str(t) => L.VStr(t)
    case Bool(b) => L.VBool(b)
    case _ => L.VNull
  }

  /** Without closures, the two evaluators report alike: the same output, the same steps left, and the same fault or
      none, however closures would capture. */
  lemma ProgramsAlike(h: L.Host, c: C.Host, p: C.Policy, silent: set<string>, program: seq<L.Stmt>, fuel: nat)
    requires SameRules(h, c) && SpokenStmts(program, silent)
    ensures var t, r := T.RunProgram(h, program, fuel), CapturePreserved.Run(c, p, Stas(program), fuel);
            && r.st.out == t.out && r.st.steps == t.fuel
            && FaultIn(r.flow) == match t.fault case None => L.None case Some(f) => L.Some(FaultOf(f.cause))
  {
    hide SameRules, SpokenStmts, T.ExecBlock, C.ExecBlock, Stas, Laid, FaultOf, Val, Plain;
    var env, st := C.Env(map[], [], 0), C.State([], fuel, [], 0);
    NothingLaid(env, silent);
    assert FaultOf(L.BreakOutsideLoop) == C.BreakOutsideLoop && FaultOf(L.ContinueOutsideLoop) == C.ContinueOutsideLoop by {
      LoopsTold();
    }
    var last := BlockAlike(h, c, p, silent, [map[]], [map[]], env, program, st);
  }

  lemma LoopsTold()
    ensures FaultOf(L.BreakOutsideLoop) == C.BreakOutsideLoop && FaultOf(L.ContinueOutsideLoop) == C.ContinueOutsideLoop
  {
  }

  lemma NothingLaid(env: C.Env, silent: set<string>)
    requires env.globals == map[] && env.frame == []
    ensures Laid([map[]], [map[]], env, [], silent)
  {
    var es: seq<C.Scope> := [map[]];
    assert es[..0] == [];
  }

  // ----- Calls -----

  /** The global variables that a closure does not hold itself. */
  function Outside(globals: C.Scope, captured: C.Scope): C.Scope { globals - captured.Keys }

  /** A scope with the parameters in it; of parameters of one name, the last. */
  function Added(base: T.Scope, params: seq<string>, vs: seq<L.Value>): T.Scope
    requires |params| == |vs|
  {
    if params == [] then base else Added(base, params[..|params| - 1], vs[..|vs| - 1])[params[|params| - 1] := vs[|vs| - 1]]
  }

  /** The variables a call begins with: the function under its own name, unless it has none, and the parameters. */
  function Parameters(name: string, params: seq<string>, vs: seq<L.Value>): T.Scope
    requires |params| == |vs|
  {
    Added(if name == "<lambda>" then map[] else map[name := L.VNull], params, vs)
  }

  function ResultOf(f: T.Flow): C.Outcome<C.Value> {
    match f
    case Returning(v) => C.Good(Val(v))
    case Normal => C.Good(C.VScalar(C.Null))
    case Breaking(_) => C.Bad(C.BreakOutsideLoop)
    case Continuing(_) => C.Bad(C.ContinueOutsideLoop)
    case Failing(fault) => C.Bad(FaultOf(fault.cause))
  }

  /** The closure's code is this block, its variables have these values, and so have the other global ones. */
  ghost predicate Holding(f: C.Value, globals: C.Scope, body: seq<L.Stmt>, tg: T.Scope, tc: T.Scope, cells: seq<C.Value>, silent: set<string>) {
    && f.VFn? && f.code.stmts == Stas(body) && SpokenStmts(body, silent)
    && (f.name == "<lambda>" || (f.name in silent && f.name != "print"))
    && (forall x :: x in f.params ==> Spoken(x, silent))
    && Levels([tg, tc], [Outside(globals, f.captured), f.captured], cells, silent)
    && Apart([Outside(globals, f.captured), f.captured])
  }

  /** What a call answers, and what it leaves, told by the run of a block. */
  ghost predicate Called(t: T.Step, r: C.Res<C.Value>, f: C.Value, globals: C.Scope, silent: set<string>)
    requires f.VFn?
  {
    && r.result == ResultOf(t.flow) && r.st.steps == t.st.fuel && r.st.out == t.st.out
    && |t.st.scopes| == 3 && Levels(t.st.scopes[..2], [Outside(globals, f.captured), f.captured], r.st.cells, silent)
  }

  lemma CallLaid(f: C.Value, globals: C.Scope, depth: nat, body: seq<L.Stmt>, tg: T.Scope, tc: T.Scope, cells: seq<C.Value>, silent: set<string>)
    requires Holding(f, globals, body, tg, tc, cells, silent)
    ensures Laid([tg, tc, map[]], [Outside(globals, f.captured), f.captured, map[]], C.Env(globals, [f.captured], depth), cells, silent)
  {
    hide C.Visible, C.Merged, SpokenStmts, Stas, Level, Outside;
    var ts, es := [tg, tc], [Outside(globals, f.captured), f.captured];
    CallVisible(globals, f.captured, depth);
    EmptyLevel(cells, silent);
    var empty: C.Scope := map[];
    assert es + [empty] == [Outside(globals, f.captured), f.captured, map[]] && ts + [map[]] == [tg, tc, map[]];
    forall i | 0 <= i < 3
      ensures Level((ts + [map[]])[i], (es + [empty])[i], cells, silent)
    {
      if i < 2 {
        assert Level(ts[i], es[i], cells, silent);
      }
    }
  }

  lemma EmptyLevel(cells: seq<C.Value>, silent: set<string>)
    ensures Level(map[], map[], cells, silent)
  {
  }

  lemma CallVisible(globals: C.Scope, captured: C.Scope, depth: nat)
    ensures C.Merged([Outside(globals, captured), captured, map[]]) == C.Visible(C.Env(globals, [captured], depth))
  {
    hide C.Visible;
    var outside := Outside(globals, captured);
    var es: seq<C.Scope> := [outside, captured, map[]];
    CaptureSuffices.OneScope(globals, captured, depth);
    assert es[..2] == [outside, captured] && es[..2][..1] == es[..1] == [outside] && es[..1][..0] == [];
    assert C.Merged(es[..1]) == outside;
    assert C.Merged(es[..2]) == outside + captured;
    assert outside + captured == globals + captured;
  }

  lemma {:induction false} AddedFirst(base: T.Scope, params: seq<string>, vs: seq<L.Value>)
    requires |params| == |vs| > 0
    ensures Added(base, params, vs) == Added(base[params[0] := vs[0]], params[1..], vs[1..])
    decreases |params|
  {
    var n := |params| - 1;
    if n > 0 {
      assert params[..n][1..] == params[1..][..n - 1] && vs[..n][1..] == vs[1..][..n - 1];
      AddedFirst(base, params[..n], vs[..n]);
    }
  }

  lemma {:induction false} ParamsAlike(ts: seq<T.Scope>, es: seq<C.Scope>, env: C.Env, params: seq<string>, vs: seq<L.Value>,
                                       st: C.State, silent: set<string>) returns (last: C.Scope)
    requires Laid(ts, es, env, st.cells, silent) && |params| == |vs| && AllPlain(vs)
    requires forall x :: x in params ==> Spoken(x, silent)
    ensures es != [] && |ts| == |es|
    ensures var (env1, st1) := C.Params(env, params, Vals(vs), st);
            && st1 == st.(cells := st1.cells)
            && Laid(ts[..|ts| - 1] + [Added(ts[|ts| - 1], params, vs)], Inner(es, last), env1, st1.cells, silent)
    decreases |params|
  {
    hide Laid, Plain, Val, C.Define;
    LaidSize(ts, es, env, st.cells, silent);
    var n := |es| - 1;
    last := es[n];
    if params == [] {
      assert ts[..n] + [ts[n]] == ts;
    } else {
      var x, v := params[0], vs[0];
      assert x in params;
      var (env1, st1) := C.Define(env, x, Val(v), st);
      DefineLaid(ts, es, env, st, silent, x, v, Val(v));
      Defined(env, x, Val(v), st);
      var ts1, es1 := T.Bind(ts, x, v), Bound(es, x, |st.cells|);
      assert Vals(vs)[0] == Val(v) && Vals(vs)[1..] == Vals(vs[1..]);
      AddedFirst(ts[n], params, vs);
      last := ParamsAlike(ts1, es1, env1, params[1..], vs[1..], st1, silent);
      assert Inner(es1, last) == Inner(es, last);
      assert ts1[..n] == ts[..n] && ts1[n] == ts[n][x := v];
    }
  }

  lemma FrameAlike(f: C.Value, env: C.Env, body: seq<L.Stmt>, tg: T.Scope, tc: T.Scope, vs: seq<L.Value>, st: C.State,
                   silent: set<string>) returns (last: C.Scope)
    requires Holding(f, env.globals, body, tg, tc, st.cells, silent) && |vs| == |f.params| && AllPlain(vs)
    ensures var (inner, st1) := C.Frame(env, f, Vals(vs), st);
            && st1 == st.(cells := st1.cells)
            && Laid([tg, tc, Parameters(f.name, f.params, vs)], [Outside(env.globals, f.captured), f.captured, last], inner, st1.cells, silent)
  {
    hide Laid, Plain, Val, C.Define, C.Params, Levels, Apart, SpokenStmts, Stas, Added;
    CallLaid(f, env.globals, env.depth + 1, body, tg, tc, st.cells, silent);
    var outside, start := Outside(env.globals, f.captured), C.Env(env.globals, [f.captured], env.depth + 1);
    var ts, es := [tg, tc, map[]], [outside, f.captured, map[]];
    if f.name == "<lambda>" {
      last := ParamsAlike(ts, es, start, f.params, vs, st, silent);
      assert Inner(es, last) == [outside, f.captured, last];
      assert ts[..2] + [Added(map[], f.params, vs)] == [tg, tc, Added(map[], f.params, vs)];
    } else {
      DefineLaid(ts, es, start, st, silent, f.name, L.VNull, f);
      Defined(start, f.name, f, st);
      var (named, st1) := C.Define(start, f.name, f, st);
      var ts1, es1 := T.Bind(ts, f.name, L.VNull), Bound(es, f.name, |st.cells|);
      last := ParamsAlike(ts1, es1, named, f.params, vs, st1, silent);
      assert Inner(es1, last) == [outside, f.captured, last];
      assert ts1[..2] + [Added(ts1[2], f.params, vs)] == [tg, tc, Parameters(f.name, f.params, vs)];
    }
  }

  lemma LevelsPart(ts: seq<T.Scope>, a: C.Scope, b: C.Scope, d: C.Scope, env: C.Env, cells: seq<C.Value>, silent: set<string>)
    requires Laid(ts, [a, b, d], env, cells, silent)
    ensures |ts| == 3 && Levels(ts[..2], [a, b], cells, silent)
  {
    hide Level;
    var es := [a, b, d];
    forall i | 0 <= i < 2
      ensures Level(ts[..2][i], [a, b][i], cells, silent)
    {
      assert Level(ts[i], es[i], cells, silent);
    }
  }

  /** A call of a function value is the run of its body as a block: inside the variables that the closure holds and
      the other global ones, with the parameters as new variables. What it assigns to those it shares is there
      afterwards. */
  lemma CallIsBlock(h: L.Host, c: C.Host, p: C.Policy, env: C.Env, f: C.Value, body: seq<L.Stmt>, tg: T.Scope, tc: T.Scope,
                    vs: seq<L.Value>, st: C.State, silent: set<string>)
    requires SameRules(h, c) && Holding(f, env.globals, body, tg, tc, st.cells, silent)
    requires |vs| == |f.params| && AllPlain(vs)
    ensures Called(T.ExecBlock(h, body, T.State([tg, tc, Parameters(f.name, f.params, vs)], st.steps, st.out)),
                   C.Invoke(c, p, env, f, Vals(vs), st), f, env.globals, silent)
  {
    hide SameRules, Laid, Plain, AllPlain, Val, Vals, C.Frame, T.ExecBlock, C.ExecBlock, Levels, Apart, SpokenStmts, Stas, Parameters, FaultOf;
    var last := FrameAlike(f, env, body, tg, tc, vs, st, silent);
    var (inner, st1) := C.Frame(env, f, Vals(vs), st);
    var es := [Outside(env.globals, f.captured), f.captured, last];
    var end := BlockAlike(h, c, p, silent, [tg, tc, Parameters(f.name, f.params, vs)], es, inner, body, st1);
    assert Inner(es, end) == [es[0], es[1], end];
    var t := T.ExecBlock(h, body, T.State([tg, tc, Parameters(f.name, f.params, vs)], st.steps, st.out));
    var r := C.ExecBlock(c, p, inner, Stas(body), st1);
    LevelsPart(t.st.scopes, es[0], es[1], end, r.env, r.st.cells, silent);
    NullVal();
  }

  lemma NullVal()
    ensures Val(L.VNull) == C.VScalar(C.Null)
  {
  }

  /** How a call expression runs, from the scopes of the caller: the limits and the number of arguments are looked at
      first, then the arguments are evaluated one after the other, and then the block runs with one step less. */
  lemma CallExpression(h: L.Host, c: C.Host, p: C.Policy, ts: seq<T.Scope>, es: seq<C.Scope>, env: C.Env, g: string, args: seq<L.Expr>,
                       line: nat, f: C.Value, body: seq<L.Stmt>, tg: T.Scope, tc: T.Scope, st: C.State, silent: set<string>)
    requires SameRules(h, c) && Laid(ts, es, env, st.cells, silent) && SpokenExprs(args, silent)
    requires g != "print" && C.Read(env, g, st) == C.Good(f)
    requires Holding(f, env.globals, body, tg, tc, st.cells, silent)
    ensures var r := C.EvalExpr(c, p, env, X.Call(X.Ident(g), Exps(args)), st);
            var less := st.(steps := if st.steps > 0 then st.steps - 1 else 0);
            var vs := T.EvalArgs(h, T.Visible(ts), args, line, st.out);
            if st.steps == 0 then r == C.Res(C.Bad(C.StepLimit), st)
            else if env.depth >= c.maxDepth then r == C.Res(C.Bad(C.DepthLimit), less)
            else if |args| != |f.params| then r == C.Res(C.Bad(C.WrongArity(f.name, |f.params|, |args|)), less)
            else if vs.result.Bad? then r == C.Res(C.Bad(FaultOf(vs.result.fault.cause)), less.(out := vs.out))
            else
              |vs.result.value| == |f.params| &&
              Called(T.ExecBlock(h, body, T.State([tg, tc, Parameters(f.name, f.params, vs.result.value)], st.steps - 1, vs.out)),
                     r, f, env.globals, silent)
  {
    hide SameRules, Laid, Plain, AllPlain, Val, Vals, Exps, T.ExecBlock, C.Invoke, Levels, Apart, SpokenStmts, SpokenExprs, Stas, Parameters, FaultOf,
         Called, C.Read, C.Visible, T.EvalArgs, C.EvalExprs;
    var less := st.(steps := if st.steps > 0 then st.steps - 1 else 0);
    ReadCells(env, g, st, less);
    assert C.EvalExpr(c, p, env, X.Ident(g), less) == C.Res(C.Good(f), less);
    assert C.EvalExpr(c, p, env, X.Call(X.Ident(g), Exps(args)), st) == C.EvalCall(c, p, env, X.Ident(g), Exps(args), st);
    if st.steps > 0 && env.depth < c.maxDepth && |args| == |f.params| {
      ArgsAlike(h, c, p, silent, ts, es, env, args, line, less);
      var vs := T.EvalArgs(h, T.Visible(ts), args, line, st.out);
      if vs.result.Good? {
        ArgsCount(h, T.Visible(ts), args, line, st.out);
        CallIsBlock(h, c, p, env, f, body, tg, tc, vs.result.value, less.(out := vs.out), silent);
      }
    }
  }

  lemma ReadCells(env: C.Env, g: string, st: C.State, less: C.State)
    requires st.cells == less.cells
    ensures C.Read(env, g, st) == C.Read(env, g, less)
  {
  }

  lemma {:induction false} ArgsCount(h: L.Host, scope: T.Scope, args: seq<L.Expr>, line: nat, out: seq<string>)
    ensures var vs := T.EvalArgs(h, scope, args, line, out); vs.result.Good? ==> |vs.result.value| == |args|
    decreases |args|
  {
    hide T.EvalExpr;
    if args != [] {
      ArgsCount(h, scope, args[1..], line, T.EvalExpr(h, scope, args[0], line, out).out);
    }
  }
}

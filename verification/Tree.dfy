/** The tree evaluator (`src/eval.rs`, `src/env.rs`) as a big-step semantics over a stack of scopes.
    This is the meaning that compilation has to preserve. */
module Tree {
  import opened Lang

  type Scope = map<string, Value>

  /** What the visible scopes bind, inner scopes first (`Env::get`). */
  function Visible(scopes: seq<Scope>): Scope {
    if scopes == [] then map[]
    else Visible(scopes[..|scopes| - 1]) + scopes[|scopes| - 1]
  }

  /** `Env::update`: overwrite the innermost binding of the name. */
  function Update(scopes: seq<Scope>, name: string, v: Value): (r: seq<Scope>)
    ensures |r| == |scopes|
  {
    if scopes == [] then []
    else
      var last := |scopes| - 1;
      if name in scopes[last] then scopes[last := scopes[last][name := v]]
      else Update(scopes[..last], name, v) + [scopes[last]]
  }

  // ----- Expressions -----

  datatype Evaluated<+T> = Evaluated(result: Outcome<T>, out: seq<string>)

  function EvalBinop(op: BinOp, l: Value, r: Value, line: nat): (result: Outcome<Value>)
    ensures result.Bad? ==> result.fault.line == line && result.fault.cause != Internal
  {
    match op
    case Eq => Good(VBool(l == r))
    case NotEq => Good(VBool(l != r))
    case Lt => EvalComparison(op, l, r, line)
    case Gt => EvalComparison(op, l, r, line)
    case LtEq => EvalComparison(op, l, r, line)
    case GtEq => EvalComparison(op, l, r, line)
    case _ => EvalArithmetic(op, l, r, line)
  }

  function EvalComparison(op: BinOp, l: Value, r: Value, line: nat): (result: Outcome<Value>)
    ensures result.Bad? ==> result.fault.line == line && result.fault.cause != Internal
  {
    if l.VInt? && r.VInt? then
      Good(VBool(
        match op
        case Lt => l.n < r.n
        case Gt => l.n > r.n
        case LtEq => l.n <= r.n
        case _ => l.n >= r.n))
    else Bad(Fault(ComparisonType(op, TypeOf(l), TypeOf(r)), line))
  }

  function EvalArithmetic(op: BinOp, l: Value, r: Value, line: nat): (result: Outcome<Value>)
    ensures result.Bad? ==> result.fault.line == line && result.fault.cause != Internal
  {
    if l.VInt? && r.VInt? && op.Add? then Checked(l.n + r.n, OnAdd, line)
    else if l.VInt? && r.VInt? && op.Sub? then Checked(l.n - r.n, OnSub, line)
    else if l.VInt? && r.VInt? && op.Mul? then Checked(l.n * r.n, OnMul, line)
    else if l.VInt? && r.VInt? && op.Div? then
      if r.n == 0 then Bad(Fault(ZeroDivision, line)) else Checked(TruncDiv(l.n, r.n), OnDiv, line)
    else if l.VInt? && r.VInt? && op.Mod? then
      if r.n == 0 then Bad(Fault(ZeroDivision, line))
      // `checked_rem` refuses exactly the pair whose quotient is out of range.
      else if !InI64(TruncDiv(l.n, r.n)) then Bad(Fault(IntOverflow(OnMod), line))
      else Good(VInt(TruncRem(l.n, r.n)))
    else if op.Add? && l.VStr? && r.VStr? then Good(VStr(l.s + r.s))
    else if op.Add? && l.VStr? && r.VError? then Good(VStr(l.s + r.message))
    else if op.Add? && l.VError? && r.VStr? then Good(VStr(l.message + r.s))
    else Bad(Fault(ArithmeticType(op, TypeOf(l), TypeOf(r)), line))
  }

  function EvalExpr(host: Host, env: Scope, e: Expr, line: nat, out: seq<string>): (r: Evaluated<Value>)
    ensures r.result.Bad? ==> r.result.fault.cause != Internal
    decreases e, 1
  {
    match e
    case IntLit(n) => Evaluated(Good(VInt(n)), out)
    case StrLit(s) => Evaluated(Good(VStr(s)), out)
    case BoolLit(b) => Evaluated(Good(VBool(b)), out)
    case NullLit => Evaluated(Good(VNull), out)
    case Ident(name) => Evaluated(Read(env, name, line), out)
    case Binary(op, left, right) =>
      var l := EvalExpr(host, env, left, line, out);
      if l.result.Bad? then l
      else if op.And? && !Truthy(l.result.value) then l
      else if op.Or? && Truthy(l.result.value) then l
      else
        var r := EvalExpr(host, env, right, line, l.out);
        if r.result.Bad? || op.And? || op.Or? then r
        else Evaluated(EvalBinop(op, l.result.value, r.result.value, line), r.out)
    case Unary(uop, operand) =>
      var v := EvalExpr(host, env, operand, line, out);
      if v.result.Bad? then v else Evaluated(EvalUnary(uop, v.result.value, line), v.out)
    case Print(args) =>
      var vs := EvalArgs(host, env, args, line, out);
      if vs.result.Bad? then Evaluated(Bad(vs.result.fault), vs.out)
      else Evaluated(Good(VNull), vs.out + [Joined(host, vs.result.value)])
    case ListLit(items) =>
      var vs := EvalElements(host, env, items, [], line, out);
      if vs.result.Bad? then Evaluated(Bad(vs.result.fault), vs.out)
      else Evaluated(Good(VList(vs.result.value)), vs.out)
    case Index(base, index) =>
      if base.Ident? && IsSideEffectFree(index) && base.name in env then
        var i := EvalExpr(host, env, index, line, out);
        if i.result.Bad? then i
        else Evaluated(EvalIndex(host, env[base.name], i.result.value, line), i.out)
      else
        var b := EvalExpr(host, env, base, line, out);
        if b.result.Bad? then b
        else
          var i := EvalExpr(host, env, index, line, b.out);
          if i.result.Bad? then i
          else Evaluated(EvalIndex(host, b.result.value, i.result.value, line), i.out)
  }

  function Read(env: Scope, name: string, line: nat): (r: Outcome<Value>)
    ensures r.Bad? ==> r.fault.line == line && r.fault.cause != Internal
  {
    if name in env then Good(env[name]) else Bad(Fault(UndefinedName(name), line))
  }

  function EvalArgs(host: Host, env: Scope, es: seq<Expr>, line: nat, out: seq<string>): (r: Evaluated<seq<Value>>)
    ensures r.result.Bad? ==> r.result.fault.cause != Internal
    decreases es, 0
  {
    if es == [] then Evaluated(Good([]), out)
    else
      var v := EvalExpr(host, env, es[0], line, out);
      if v.result.Bad? then Evaluated(Bad(v.result.fault), v.out)
      else
        var vs := EvalArgs(host, env, es[1..], line, v.out);
        if vs.result.Bad? then vs else Evaluated(Good([v.result.value] + vs.result.value), vs.out)
  }

  function EvalElements(host: Host, env: Scope, es: seq<Expr>, list: seq<Value>, line: nat, out: seq<string>)
    : (r: Evaluated<seq<Value>>)
    ensures r.result.Bad? ==> r.result.fault.cause != Internal
    decreases es, 0
  {
    if es == [] then Evaluated(Good(list), out)
    else
      var v := EvalExpr(host, env, es[0], line, out);
      if v.result.Bad? then Evaluated(Bad(v.result.fault), v.out)
      else
        var longer := AppendElement(host, list, v.result.value, line);
        if longer.Bad? then Evaluated(Bad(longer.fault), v.out)
        else EvalElements(host, env, es[1..], longer.value, line, v.out)
  }

  // ----- Statements -----

  /** How a statement list ends. */
  datatype Flow =
    | Normal
    | Breaking(line: nat)
    | Continuing(line: nat)
    | Returning(v: Value)
    | Failing(fault: Fault)

  datatype State = State(scopes: seq<Scope>, fuel: nat, out: seq<string>)

  datatype Step = Step(flow: Flow, st: State)

  /** The binding of a name in the innermost scope (`Env::set`). */
  function Bind(scopes: seq<Scope>, name: string, v: Value): (r: seq<Scope>)
    requires scopes != []
    ensures |r| == |scopes|
  {
    scopes[|scopes| - 1 := scopes[|scopes| - 1][name := v]]
  }

  function Leave(r: Step, depth: nat): (s: Step)
    ensures depth <= |r.st.scopes| ==> |s.st.scopes| == depth
    ensures s.st.fuel == r.st.fuel
  {
    if depth <= |r.st.scopes| then r.(st := r.st.(scopes := r.st.scopes[..depth])) else r
  }

  function ExecStmt(host: Host, s: Stmt, st: State): (r: Step)
    requires st.scopes != []
    ensures |r.st.scopes| == |st.scopes| && r.st.fuel <= st.fuel
    decreases st.fuel, s, 2
  {
    match s
    case Let(name, value, line) =>
      var v := EvalExpr(host, Visible(st.scopes), value, line, st.out);
      var st' := st.(out := v.out);
      if v.result.Bad? then Step(Failing(v.result.fault), st')
      else Step(Normal, st'.(scopes := Bind(st.scopes, name, v.result.value)))
    case Assign(name, value, line) =>
      var v := EvalExpr(host, Visible(st.scopes), value, line, st.out);
      var st' := st.(out := v.out);
      if v.result.Bad? then Step(Failing(v.result.fault), st')
      else if name !in Visible(st.scopes) then Step(Failing(Fault(AssignUndefined(name), line)), st')
      else Step(Normal, st'.(scopes := Update(st.scopes, name, v.result.value)))
    case IndexAssign(name, index, value, line) => ExecIndexAssign(host, name, index, value, line, st)
    case ExprStmt(expr, line) =>
      var v := EvalExpr(host, Visible(st.scopes), expr, line, st.out);
      var st' := st.(out := v.out);
      if v.result.Bad? then Step(Failing(v.result.fault), st') else Step(Normal, st')
    case If(cond, thenBody, elseBody, line) =>
      var v := EvalExpr(host, Visible(st.scopes), cond, line, st.out);
      var st' := st.(out := v.out);
      if v.result.Bad? then Step(Failing(v.result.fault), st')
      else if Truthy(v.result.value) then ExecScoped(host, thenBody, map[], st')
      else ExecScoped(host, elseBody, map[], st')
    case While(cond, body, line) =>
      // The condition is evaluated once to decide whether to enter the loop at all; the loop
      // controller then evaluates it again before the first iteration.
      if !host.rechecks then WhileLoop(host, s, st) else
      var v := EvalExpr(host, Visible(st.scopes), cond, line, st.out);
      var st' := st.(out := v.out);
      if v.result.Bad? then Step(Failing(v.result.fault), st')
      else if !Truthy(v.result.value) then Step(Normal, st')
      else WhileLoop(host, s, st')
    case For(binder, iter, body, line) =>
      var v := EvalExpr(host, Visible(st.scopes), iter, line, st.out);
      var st' := st.(out := v.out);
      if v.result.Bad? then Step(Failing(v.result.fault), st')
      else
        var items := IterItems(host, v.result.value, line);
        if items.Bad? then Step(Failing(items.fault), st') else ForLoop(host, s, items.value, 0, st')
    case Break(line) => Step(Breaking(line), st)
    case Continue(line) => Step(Continuing(line), st)
    case TryCatch(tryBody, binder, catchBody, line) =>
      var r := ExecScoped(host, tryBody, map[], st);
      if r.flow.Failing? && !IsUncatchable(r.flow.fault.cause) then
        ExecScoped(host, catchBody, map[binder := ErrorValue(host, r.flow.fault)], r.st)
      else r
    case Return(value, line) =>
      var v := EvalExpr(host, Visible(st.scopes), value, line, st.out);
      var st' := st.(out := v.out);
      if v.result.Bad? then Step(Failing(v.result.fault), st') else Step(Returning(v.result.value), st')
  }

  function ExecIndexAssign(host: Host, name: string, index: Expr, value: Expr, line: nat, st: State): (r: Step)
    ensures |r.st.scopes| == |st.scopes| && r.st.fuel == st.fuel
  {
    var env := Visible(st.scopes);
    if name !in env then Step(Failing(Fault(UndefinedName(name), line)), st)
    else
      var i := EvalExpr(host, env, index, line, st.out);
      if i.result.Bad? then Step(Failing(i.result.fault), st.(out := i.out))
      else
        var v := EvalExpr(host, env, value, line, i.out);
        var st' := st.(out := v.out);
        if v.result.Bad? then Step(Failing(v.result.fault), st')
        else
          var updated := AssignIndex(env[name], i.result.value, v.result.value, line);
          if updated.Bad? then Step(Failing(updated.fault), st')
          else Step(Normal, st'.(scopes := Update(st.scopes, name, updated.value)))
  }

  /** Statements one after the other in the current scope. */
  function ExecBlock(host: Host, ss: seq<Stmt>, st: State): (r: Step)
    requires st.scopes != []
    ensures |r.st.scopes| == |st.scopes| && r.st.fuel <= st.fuel
    decreases st.fuel, ss, 0
  {
    if ss == [] then Step(Normal, st)
    else
      var r := ExecStmt(host, ss[0], st);
      if r.flow.Normal? then ExecBlock(host, ss[1..], r.st) else r
  }

  /** A block in a scope of its own, which starts with the given bindings. */
  function ExecScoped(host: Host, ss: seq<Stmt>, bindings: Scope, st: State): (r: Step)
    requires st.scopes != []
    ensures |r.st.scopes| == |st.scopes| && r.st.fuel <= st.fuel
    decreases st.fuel, ss, 1
  {
    Leave(ExecBlock(host, ss, st.(scopes := st.scopes + [bindings])), |st.scopes|)
  }

  /** One unit of fuel, taken after every finished iteration. */
  function Charge(st: State, line: nat): (r: Step)
    ensures r.st.scopes == st.scopes && r.st.out == st.out
    ensures r.flow.Normal? ==> r.st.fuel + 1 == st.fuel
    ensures !r.flow.Normal? ==> r == Step(Failing(Fault(StepLimit, line)), st)
  {
    if st.fuel == 0 then Step(Failing(Fault(StepLimit, line)), st)
    else Step(Normal, st.(fuel := st.fuel - 1))
  }

  function WhileLoop(host: Host, s: Stmt, st: State): (r: Step)
    requires s.While? && st.scopes != []
    ensures |r.st.scopes| == |st.scopes| && r.st.fuel <= st.fuel
    decreases st.fuel, s, 1
  {
    var v := EvalExpr(host, Visible(st.scopes), s.cond, s.line, st.out);
    var st' := st.(out := v.out);
    if v.result.Bad? then Step(Failing(v.result.fault), st')
    else if !Truthy(v.result.value) then Step(Normal, st')
    else
      var b := ExecScoped(host, s.body, map[], st');
      match b.flow
      case Breaking(_) => Step(Normal, b.st)
      case Returning(_) => b
      case Failing(_) => b
      case _ =>
        var c := Charge(b.st, s.line);
        if c.flow.Normal? then WhileLoop(host, s, c.st) else c
  }

  function ForLoop(host: Host, s: Stmt, items: seq<Value>, k: nat, st: State): (r: Step)
    requires s.For? && st.scopes != [] && k <= |items|
    ensures |r.st.scopes| == |st.scopes| && r.st.fuel <= st.fuel
    decreases st.fuel, s, 1
  {
    if k == |items| then Step(Normal, st)
    else
      var b := ExecScoped(host, s.body, map[s.binder := items[k]], st);
      match b.flow
      case Breaking(_) => Step(Normal, b.st)
      case Returning(_) => b
      case Failing(_) => b
      case _ =>
        var c := Charge(b.st, s.line);
        if c.flow.Normal? then ForLoop(host, s, items, k + 1, c.st) else c
  }

  // ----- Programs -----

  /** What an embedder sees of a whole run. */
  datatype Report = Report(fault: Option<Fault>, fuel: nat, out: seq<string>)

  function FaultOf(flow: Flow): Option<Fault> {
    match flow
    case Failing(f) => Some(f)
    case Breaking(line) => Some(Fault(BreakOutsideLoop, line))
    case Continuing(line) => Some(Fault(ContinueOutsideLoop, line))
    case _ => None
  }

  function RunProgram(host: Host, program: seq<Stmt>, fuel: nat): Report {
    var r := ExecBlock(host, program, State([map[]], fuel, []));
    Report(FaultOf(r.flow), r.st.fuel, r.st.out)
  }
}

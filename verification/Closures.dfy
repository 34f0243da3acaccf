/** What a closure has to capture (`src/ast.rs`, `referenced_names`; `src/env.rs`, `capture_referenced`; the user-call
    path of `src/eval.rs`): the tree evaluator with closures over shared cells, run once capturing every visible
    variable and once only those the body mentions. */
module Closures {
  import opened Syntax
  import Lang

  type Scope = map<string, nat>

  datatype Fault =
    | UndefinedName(name: string) | AssignUndefined(name: string)
    | BadOperands | BadDictKey | BadIndex | NotIterable | NotCallable
    | WrongArity(name: string, expected: nat, actual: nat)
    | StepLimit | DepthLimit | CollectionLimit | NestingLimit | BreakOutsideLoop | ContinueOutsideLoop | NotLinked
    | Numeric(code: nat)

  datatype Outcome<+T> = Good(value: T) | Bad(fault: Fault)

  datatype Scalar =
    | Int(n: int) | Float(x: real) | Str(s: string) | Bool(b: bool) | Null | Caught(fault: Fault)

  datatype Value =
    | VScalar(scalar: Scalar)
    | VList(items: seq<Value>)
    | VDict(entries: seq<Entry>)
    | VFn(id: nat, name: string, params: seq<string>, code: Block, captured: Scope)

  datatype Entry = Entry(key: string, value: Value)

  /** The rules about values that hold no closures, shared by all runs. */
  datatype Host = Host(
    binop: (BinOp, Scalar, Scalar) -> Outcome<Scalar>,
    negate: Scalar -> Outcome<Scalar>,
    truthy: Scalar -> bool,
    equal: (Scalar, Scalar) -> bool,
    pick: (Scalar, Scalar) -> Outcome<Scalar>,
    chars: Scalar -> Outcome<seq<Scalar>>,
    show: (Scalar, bool) -> string,
    before: (string, string) -> bool,
    uncatchable: Fault -> bool,
    maxDepth: nat,
    maxCollection: nat)

  // ----- Operations on values -----

  function Truthy(host: Host, v: Value): bool {
    match v
    case VScalar(s) => host.truthy(s)
    case VList(items) => items != []
    case VDict(entries) => entries != []
    case VFn(_, _, _, _, _) => true
  }

  /** Functions are equal when they are the same function value. */
  predicate Equal(host: Host, v: Value, w: Value) {
    match v
    case VScalar(s) => w.VScalar? && host.equal(s, w.scalar)
    case VList(items) => w.VList? && |items| == |w.items| && EqualAll(host, items, w.items)
    case VDict(entries) => w.VDict? && |entries| == |w.entries| && EqualEntries(host, entries, w.entries)
    case VFn(id, _, _, _, _) => w.VFn? && id == w.id
  }

  predicate EqualAll(host: Host, vs: seq<Value>, ws: seq<Value>)
    requires |vs| == |ws|
  {
    vs == [] || (Equal(host, vs[0], ws[0]) && EqualAll(host, vs[1..], ws[1..]))
  }

  predicate EqualEntry(host: Host, e: Entry, f: Entry) { e.key == f.key && Equal(host, e.value, f.value) }

  predicate EqualEntries(host: Host, es: seq<Entry>, fs: seq<Entry>)
    requires |es| == |fs|
  {
    es == [] || (EqualEntry(host, es[0], fs[0]) && EqualEntries(host, es[1..], fs[1..]))
  }

  function Show(host: Host, v: Value, nested: bool): string {
    match v
    case VScalar(s) => host.show(s, nested)
    case VList(items) => "[" + ShowAll(host, items) + "]"
    case VDict(entries) => "{" + ShowEntries(host, entries) + "}"
    case VFn(_, name, _, _, _) => "<fn " + name + ">"
  }

  function ShowAll(host: Host, vs: seq<Value>): string {
    if vs == [] then "" else Show(host, vs[0], true) + (if |vs| > 1 then ", " else "") + ShowAll(host, vs[1..])
  }

  function ShowEntry(host: Host, e: Entry): string { host.show(Str(e.key), true) + ": " + Show(host, e.value, true) }

  function ShowEntries(host: Host, es: seq<Entry>): string {
    if es == [] then "" else ShowEntry(host, es[0]) + (if |es| > 1 then ", " else "") + ShowEntries(host, es[1..])
  }

  /** What `print` writes: its arguments, separated by spaces. */
  function Line(host: Host, vs: seq<Value>): string {
    if vs == [] then "" else Show(host, vs[0], false) + (if |vs| > 1 then " " else "") + Line(host, vs[1..])
  }

  function Binop(host: Host, op: BinOp, v: Value, w: Value): Outcome<Value> {
    if op.Eq? then Good(VScalar(Bool(Equal(host, v, w))))
    else if op.NotEq? then Good(VScalar(Bool(!Equal(host, v, w))))
    else if v.VScalar? && w.VScalar? then Scalars(host.binop(op, v.scalar, w.scalar))
    else Bad(BadOperands)
  }

  function Scalars(r: Outcome<Scalar>): Outcome<Value> {
    match r
    case Good(s) => Good(VScalar(s))
    case Bad(f) => Bad(f)
  }

  function Unop(host: Host, op: UnaryOp, v: Value): Outcome<Value> {
    match op
    case Not => Good(VScalar(Bool(!Truthy(host, v))))
    case Neg => if v.VScalar? then Scalars(host.negate(v.scalar)) else Bad(BadOperands)
  }

  /** A place in a list, counted from the end when negative. */
  function Place(i: Value, len: nat): (r: Outcome<nat>)
    ensures r.Good? ==> r.value < len
  {
    if !(i.VScalar? && i.scalar.Int?) then Bad(BadIndex)
    else
      var k := if i.scalar.n < 0 then len + i.scalar.n else i.scalar.n;
      if 0 <= k < len then Good(k) else Bad(BadIndex)
  }

  function Lookup(entries: seq<Entry>, key: string): Value {
    if entries == [] then VScalar(Null)
    else if entries[0].key == key then entries[0].value
    else Lookup(entries[1..], key)
  }

  function Insert(host: Host, entries: seq<Entry>, key: string, v: Value): seq<Entry> {
    if entries == [] || host.before(key, entries[0].key) then [Entry(key, v)] + entries
    else if entries[0].key == key then [Entry(key, v)] + entries[1..]
    else [entries[0]] + Insert(host, entries[1..], key, v)
  }

  // ----- Limits -----

  /** How many lists and dictionaries lie within each other. */
  function Depth(v: Value): nat {
    match v
    case VList(items) => 1 + MaxDepth(items)
    case VDict(entries) => 1 + MaxDepthIn(entries)
    case _ => 0
  }

  function Max(a: nat, b: nat): nat { if a > b then a else b }

  function MaxDepth(vs: seq<Value>): nat { if vs == [] then 0 else Max(Depth(vs[0]), MaxDepth(vs[1..])) }

  function DepthIn(e: Entry): nat { Depth(e.value) }

  function MaxDepthIn(es: seq<Entry>): nat { if es == [] then 0 else Max(DepthIn(es[0]), MaxDepthIn(es[1..])) }

  predicate TooDeep(v: Value) { Depth(v) >= Lang.MAX_VALUE_DEPTH }

  predicate HasKey(entries: seq<Entry>, key: string) {
    entries != [] && (entries[0].key == key || HasKey(entries[1..], key))
  }

  /** A list with one more element, while the limits allow it. */
  function Appended(host: Host, items: seq<Value>, v: Value): Outcome<seq<Value>> {
    if |items| + 1 > host.maxCollection then Bad(CollectionLimit)
    else if TooDeep(v) then Bad(NestingLimit)
    else Good(items + [v])
  }

  /** A dictionary with an entry, while the limits allow it; only a new key makes it larger. */
  function Entered(host: Host, entries: seq<Entry>, key: string, v: Value): Outcome<seq<Entry>> {
    if !HasKey(entries, key) && |entries| + 1 > host.maxCollection then Bad(CollectionLimit)
    else if TooDeep(v) then Bad(NestingLimit)
    else Good(Insert(host, entries, key, v))
  }

  function Sized(host: Host, vs: seq<Value>): Outcome<seq<Value>> {
    if |vs| > host.maxCollection then Bad(CollectionLimit) else Good(vs)
  }

  function At(host: Host, v: Value, i: Value): Outcome<Value> {
    match v
    case VList(items) =>
      var k := Place(i, |items|);
      if k.Good? then Good(items[k.value]) else Bad(k.fault)
    case VDict(entries) =>
      if i.VScalar? && i.scalar.Str? then Good(Lookup(entries, i.scalar.s)) else Bad(BadDictKey)
    case VScalar(s) => if i.VScalar? then Scalars(host.pick(s, i.scalar)) else Bad(BadIndex)
    case VFn(_, _, _, _, _) => Bad(BadIndex)
  }

  function AssignAt(host: Host, v: Value, i: Value, x: Value): Outcome<Value> {
    match v
    case VList(items) =>
      var k := Place(i, |items|);
      if k.Bad? then Bad(k.fault)
      else if TooDeep(x) then Bad(NestingLimit)
      else Good(VList(items[k.value := x]))
    case VDict(entries) =>
      if !(i.VScalar? && i.scalar.Str?) then Bad(BadDictKey)
      else
        var es := Entered(host, entries, i.scalar.s, x);
        if es.Bad? then Bad(es.fault) else Good(VDict(es.value))
    case _ => Bad(BadIndex)
  }

  function Keys(entries: seq<Entry>): seq<Value> {
    if entries == [] then [] else [VScalar(Str(entries[0].key))] + Keys(entries[1..])
  }

  function ScalarValues(ss: seq<Scalar>): seq<Value> {
    if ss == [] then [] else [VScalar(ss[0])] + ScalarValues(ss[1..])
  }

  function Items(host: Host, v: Value): Outcome<seq<Value>> {
    match v
    case VList(items) => Sized(host, items)
    case VDict(entries) => Sized(host, Keys(entries))
    case VScalar(s) =>
      var cs := host.chars(s);
      if cs.Good? then Sized(host, ScalarValues(cs.value)) else Bad(cs.fault)
    case VFn(_, _, _, _, _) => Bad(NotIterable)
  }

  // ----- Environments -----

  /** The global scope, the scopes of the current call, and how deep the call is. At the top level, where there are
      no scopes of a call, names are bound globally. */
  datatype Env = Env(globals: Scope, frame: seq<Scope>, depth: nat)

  datatype State = State(cells: seq<Value>, steps: nat, out: seq<string>, nextId: nat)

  function Merged(scopes: seq<Scope>): Scope {
    if scopes == [] then map[] else Merged(scopes[..|scopes| - 1]) + scopes[|scopes| - 1]
  }

  /** The cells that are visible: those of the call, inner scopes first, then the global ones. */
  function Visible(env: Env): Scope { env.globals + Merged(env.frame) }

  function Bind(env: Env, name: string, cell: nat): Env {
    if env.frame == [] then env.(globals := env.globals[name := cell])
    else
      var last := |env.frame| - 1;
      var scope: Scope := env.frame[last][name := cell];
      env.(frame := env.frame[last := scope])
  }

  function Push(env: Env): Env { env.(frame := env.frame + [map[]]) }

  /** A new variable: a cell of its own, bound in the innermost scope. */
  function Define(env: Env, name: string, v: Value, st: State): (Env, State) {
    (Bind(env, name, |st.cells|), st.(cells := st.cells + [v]))
  }

  datatype Policy = Everything | Referenced

  function Only(scope: Scope, names: set<string>): Scope { map x | x in scope && x in names :: scope[x] }

  function Capture(policy: Policy, env: Env, code: Block): Scope {
    match policy
    case Everything => Visible(env)
    case Referenced => Only(Visible(env), NamesOf(code))
  }

  // ----- What is captured -----

  /** The cell of a name in the innermost of the scopes that bind it. */
  function Innermost(scopes: seq<Scope>, name: string): Option<nat> {
    if scopes == [] then None
    else if name in scopes[|scopes| - 1] then Some(scopes[|scopes| - 1][name])
    else Innermost(scopes[..|scopes| - 1], name)
  }

  /** The same for an environment: the call comes before the global scope. */
  function CellOf(env: Env, name: string): Option<nat> { Innermost([env.globals] + env.frame, name) }

  lemma {:induction false} MergedInnermost(scopes: seq<Scope>, name: string)
    ensures match Innermost(scopes, name)
            case None => name !in Merged(scopes)
            case Some(c) => name in Merged(scopes) && Merged(scopes)[name] == c
  {
    if scopes != [] {
      MergedInnermost(scopes[..|scopes| - 1], name);
    }
  }

  lemma {:induction false} InnermostBelow(scopes: seq<Scope>, below: Scope, name: string)
    ensures Innermost([below] + scopes, name) ==
            match Innermost(scopes, name)
            case Some(c) => Some(c)
            case None => if name in below then Some(below[name]) else None
  {
    if scopes != [] {
      var init, last := scopes[..|scopes| - 1], scopes[|scopes| - 1];
      assert ([below] + scopes)[..|scopes|] == [below] + init;
      InnermostBelow(init, below, name);
    }
  }

  /** A closure holds the cells that its names have where it is made: one way of capturing takes every name that is
      bound there, the other those that the body mentions, and no others. */
  lemma WhatIsCaptured(host: Host, env: Env, params: seq<string>, code: Block, st: State, name: string)
    ensures var r := EvalExpr(host, Everything, env, Lambda(params, code), st).result;
            && r.Good? && r.value.VFn? && r.value.params == params && r.value.code == code
            && (if name in r.value.captured then Some(r.value.captured[name]) else None) == CellOf(env, name)
    ensures var r := EvalExpr(host, Referenced, env, Lambda(params, code), st).result;
            && r.Good? && r.value.VFn? && r.value.params == params && r.value.code == code
            && (if name in r.value.captured then Some(r.value.captured[name]) else None) ==
               if name in NamesOf(code) then CellOf(env, name) else None
  {
    hide NamesOf, Merged;
    MergedInnermost(env.frame, name);
    InnermostBelow(env.frame, env.globals, name);
  }

  // ----- Evaluation -----

  datatype Res<+T> = Res(result: Outcome<T>, st: State)

  function Read(env: Env, name: string, st: State): Outcome<Value> {
    if name !in Visible(env) then Bad(UndefinedName(name))
    else if Visible(env)[name] < |st.cells| then Good(st.cells[Visible(env)[name]])
    else Bad(UndefinedName(name))
  }

  function EvalExpr(host: Host, policy: Policy, env: Env, e: Expr, st: State): (r: Res<Value>)
    ensures r.st.steps <= st.steps
    decreases st.steps, e, 3
  {
    match e
    case IntLit(n) => Res(Good(VScalar(Int(n))), st)
    case FloatLit(x) => Res(Good(VScalar(Float(x))), st)
    case StrLit(s) => Res(Good(VScalar(Str(s))), st)
    case BoolLit(b) => Res(Good(VScalar(Bool(b))), st)
    case NullLit => Res(Good(VScalar(Null)), st)
    case ListLit(items) =>
      var vs := EvalItems(host, policy, env, items, [], st);
      if vs.result.Bad? then Res(Bad(vs.result.fault), vs.st) else Res(Good(VList(vs.result.value)), vs.st)
    case DictLit(pairs) =>
      var es := EvalPairs(host, policy, env, pairs, [], st);
      if es.result.Bad? then Res(Bad(es.result.fault), es.st) else Res(Good(VDict(es.result.value)), es.st)
    case Ident(name) => Res(Read(env, name, st), st)
    case Binary(left, op, right) =>
      var l := EvalExpr(host, policy, env, left, st);
      if l.result.Bad? then l
      else if op.And? && !Truthy(host, l.result.value) then l
      else if op.Or? && Truthy(host, l.result.value) then l
      else
        var r := EvalExpr(host, policy, env, right, l.st);
        if r.result.Bad? || op.And? || op.Or? then r
        else Res(Binop(host, op, l.result.value, r.result.value), r.st)
    case Unary(uop, operand) =>
      var v := EvalExpr(host, policy, env, operand, st);
      if v.result.Bad? then v else Res(Unop(host, uop, v.result.value), v.st)
    case Call(callee, args) => EvalCall(host, policy, env, callee, args, st)
    case Lambda(params, code) =>
      Res(Good(VFn(st.nextId, "<lambda>", params, code, Capture(policy, env, code))), st.(nextId := st.nextId + 1))
    case Index(base, index) =>
      var b := EvalExpr(host, policy, env, base, st);
      if b.result.Bad? then b
      else
        var i := EvalExpr(host, policy, env, index, b.st);
        if i.result.Bad? then i else Res(At(host, b.result.value, i.result.value), i.st)
    case FStr(parts) =>
      var t := EvalParts(host, policy, env, parts, "", st);
      if t.result.Bad? then Res(Bad(t.result.fault), t.st) else Res(Good(VScalar(Str(t.result.value))), t.st)
  }

  function EvalExprs(host: Host, policy: Policy, env: Env, es: seq<Expr>, st: State): (r: Res<seq<Value>>)
    ensures r.st.steps <= st.steps
    decreases st.steps, es, 3
  {
    if es == [] then Res(Good([]), st)
    else
      var v := EvalExpr(host, policy, env, es[0], st);
      if v.result.Bad? then Res(Bad(v.result.fault), v.st)
      else
        var vs := EvalExprs(host, policy, env, es[1..], v.st);
        if vs.result.Bad? then vs else Res(Good([v.result.value] + vs.result.value), vs.st)
  }

  /** The elements of a list literal, each admitted as it comes. */
  function EvalItems(host: Host, policy: Policy, env: Env, es: seq<Expr>, items: seq<Value>, st: State): (r: Res<seq<Value>>)
    ensures r.st.steps <= st.steps
    decreases st.steps, es, 3
  {
    if es == [] then Res(Good(items), st)
    else
      var v := EvalExpr(host, policy, env, es[0], st);
      if v.result.Bad? then Res(Bad(v.result.fault), v.st)
      else
        var more := Appended(host, items, v.result.value);
        if more.Bad? then Res(more, v.st) else EvalItems(host, policy, env, es[1..], more.value, v.st)
  }

  function EvalPair(host: Host, policy: Policy, env: Env, p: Pair, entries: seq<Entry>, st: State): (r: Res<seq<Entry>>)
    ensures r.st.steps <= st.steps
    decreases st.steps, p, 3
  {
    var k := EvalExpr(host, policy, env, p.key, st);
    if k.result.Bad? then Res(Bad(k.result.fault), k.st)
    else if !(k.result.value.VScalar? && k.result.value.scalar.Str?) then Res(Bad(BadDictKey), k.st)
    else
      var v := EvalExpr(host, policy, env, p.value, k.st);
      if v.result.Bad? then Res(Bad(v.result.fault), v.st)
      else Res(Entered(host, entries, k.result.value.scalar.s, v.result.value), v.st)
  }

  function EvalPairs(host: Host, policy: Policy, env: Env, ps: seq<Pair>, entries: seq<Entry>, st: State): (r: Res<seq<Entry>>)
    ensures r.st.steps <= st.steps
    decreases st.steps, ps, 3
  {
    if ps == [] then Res(Good(entries), st)
    else
      var es := EvalPair(host, policy, env, ps[0], entries, st);
      if es.result.Bad? then es else EvalPairs(host, policy, env, ps[1..], es.result.value, es.st)
  }

  function EvalPart(host: Host, policy: Policy, env: Env, p: FPart, text: string, st: State): (r: Res<string>)
    ensures r.st.steps <= st.steps
    decreases st.steps, p, 3
  {
    match p
    case Literal(t) => Res(Good(text + t), st)
    case Hole(expr) =>
      var v := EvalExpr(host, policy, env, expr, st);
      if v.result.Bad? then Res(Bad(v.result.fault), v.st) else Res(Good(text + Show(host, v.result.value, false)), v.st)
  }

  function EvalParts(host: Host, policy: Policy, env: Env, ps: seq<FPart>, text: string, st: State): (r: Res<string>)
    ensures r.st.steps <= st.steps
    decreases st.steps, ps, 3
  {
    if ps == [] then Res(Good(text), st)
    else
      var t := EvalPart(host, policy, env, ps[0], text, st);
      if t.result.Bad? then t else EvalParts(host, policy, env, ps[1..], t.result.value, t.st)
  }

  /** A call: `print` where the name is unbound; otherwise a step is taken, the callee is checked, the arguments are
      evaluated and the body runs in a frame of its own. */
  function EvalCall(host: Host, policy: Policy, env: Env, callee: Expr, args: seq<Expr>, st: State): (r: Res<Value>)
    ensures r.st.steps <= st.steps
    decreases st.steps, Call(callee, args), 2
  {
    if callee == Ident("print") && "print" !in Visible(env) then
      var vs := EvalExprs(host, policy, env, args, st);
      if vs.result.Bad? then Res(Bad(vs.result.fault), vs.st)
      else Res(Good(VScalar(Null)), vs.st.(out := vs.st.out + [Line(host, vs.result.value)]))
    else if st.steps == 0 then Res(Bad(StepLimit), st)
    else
      var st1 := st.(steps := st.steps - 1);
      if env.depth >= host.maxDepth then Res(Bad(DepthLimit), st1)
      else
        var f := EvalExpr(host, policy, env, callee, st1);
        if f.result.Bad? then f
        else if !f.result.value.VFn? then Res(Bad(NotCallable), f.st)
        else if |args| != |f.result.value.params| then
          Res(Bad(WrongArity(f.result.value.name, |f.result.value.params|, |args|)), f.st)
        else
          var vs := EvalExprs(host, policy, env, args, f.st);
          if vs.result.Bad? then Res(Bad(vs.result.fault), vs.st)
          else Invoke(host, policy, env, f.result.value, vs.result.value, vs.st)
  }

  /** The captured cells, the function under its own name, and the parameters, each shadowing what came before. */
  function Frame(env: Env, f: Value, vs: seq<Value>, st: State): (Env, State)
    requires f.VFn?
  {
    var inner := Env(env.globals, [f.captured], env.depth + 1);
    var (named, st1) := if f.name == "<lambda>" then (inner, st) else Define(inner, f.name, f, st);
    Params(named, f.params, vs, st1)
  }

  function Params(env: Env, params: seq<string>, vs: seq<Value>, st: State): (Env, State)
    decreases |params|
  {
    if params == [] || vs == [] then (env, st)
    else
      var (env1, st1) := Define(env, params[0], vs[0], st);
      Params(env1, params[1..], vs[1..], st1)
  }

  lemma {:induction false} ParamsSteps(env: Env, params: seq<string>, vs: seq<Value>, st: State)
    ensures Params(env, params, vs, st).1.steps == st.steps
    decreases |params|
  {
    if params != [] && vs != [] {
      var (env1, st1) := Define(env, params[0], vs[0], st);
      ParamsSteps(env1, params[1..], vs[1..], st1);
    }
  }

  function Invoke(host: Host, policy: Policy, env: Env, f: Value, vs: seq<Value>, st: State): (r: Res<Value>)
    requires f.VFn?
    ensures r.st.steps <= st.steps
    decreases st.steps, f.code.stmts, 5
  {
    var (inner, st1) := Frame(env, f, vs, st);
    ParamsSteps(Env(env.globals, [f.captured], env.depth + 1), f.params, vs, st);
    FrameSteps(env, f, vs, st);
    var r := ExecBlock(host, policy, inner, f.code.stmts, st1);
    match r.flow
    case Returning(v) => Res(Good(v), r.st)
    case Normal => Res(Good(VScalar(Null)), r.st)
    case Breaking => Res(Bad(BreakOutsideLoop), r.st)
    case Continuing => Res(Bad(ContinueOutsideLoop), r.st)
    case Failing(fault) => Res(Bad(fault), r.st)
  }

  lemma FrameSteps(env: Env, f: Value, vs: seq<Value>, st: State)
    requires f.VFn?
    ensures Frame(env, f, vs, st).1.steps == st.steps
  {
    var inner := Env(env.globals, [f.captured], env.depth + 1);
    var (named, st1) := if f.name == "<lambda>" then (inner, st) else Define(inner, f.name, f, st);
    ParamsSteps(named, f.params, vs, st1);
  }

  // ----- Execution -----

  datatype Flow = Normal | Breaking | Continuing | Returning(value: Value) | Failing(fault: Fault)

  datatype Step = Step(flow: Flow, env: Env, st: State)

  function ExecStmt(host: Host, policy: Policy, env: Env, s: Stmt, st: State): (r: Step)
    ensures r.st.steps <= st.steps
    decreases st.steps, s, 3
  {
    match s
    case Let(name, value) =>
      var v := EvalExpr(host, policy, env, value, st);
      if v.result.Bad? then Step(Failing(v.result.fault), env, v.st)
      else
        var (env1, st1) := Define(env, name, v.result.value, v.st);
        Step(Normal, env1, st1)
    case Assign(name, value) =>
      var v := EvalExpr(host, policy, env, value, st);
      if v.result.Bad? then Step(Failing(v.result.fault), env, v.st)
      else if Read(env, name, v.st).Bad? then Step(Failing(AssignUndefined(name)), env, v.st)
      else Step(Normal, env, v.st.(cells := v.st.cells[Visible(env)[name] := v.result.value]))
    case IndexAssign(name, index, value) =>
      if Read(env, name, st).Bad? then Step(Failing(UndefinedName(name)), env, st)
      else
        var i := EvalExpr(host, policy, env, index, st);
        if i.result.Bad? then Step(Failing(i.result.fault), env, i.st)
        else
          var v := EvalExpr(host, policy, env, value, i.st);
          if v.result.Bad? then Step(Failing(v.result.fault), env, v.st)
          else if Read(env, name, v.st).Bad? then Step(Failing(UndefinedName(name)), env, v.st)
          else
            var x := AssignAt(host, Read(env, name, v.st).value, i.result.value, v.result.value);
            if x.Bad? then Step(Failing(x.fault), env, v.st)
            else Step(Normal, env, v.st.(cells := v.st.cells[Visible(env)[name] := x.value]))
    case Return(value) =>
      var v := EvalExpr(host, policy, env, value, st);
      Step(if v.result.Bad? then Failing(v.result.fault) else Returning(v.result.value), env, v.st)
    case If(condition, thenBody, elseBody) =>
      var v := EvalExpr(host, policy, env, condition, st);
      if v.result.Bad? then Step(Failing(v.result.fault), env, v.st)
      else if Truthy(host, v.result.value) then Scoped(host, policy, env, thenBody, v.st)
      else Scoped(host, policy, env, elseBody, v.st)
    case While(condition, body) =>
      // Evaluated once to enter the loop, and again by the loop itself.
      var v := EvalExpr(host, policy, env, condition, st);
      if v.result.Bad? then Step(Failing(v.result.fault), env, v.st)
      else if !Truthy(host, v.result.value) then Step(Normal, env, v.st)
      else WhileLoop(host, policy, env, s, v.st)
    case For(binder, iter, body) =>
      var v := EvalExpr(host, policy, env, iter, st);
      if v.result.Bad? then Step(Failing(v.result.fault), env, v.st)
      else
        var items := Items(host, v.result.value);
        if items.Bad? then Step(Failing(items.fault), env, v.st)
        else ForLoop(host, policy, env, s, items.value, v.st)
    case FnDef(name, params, code) =>
      var f := VFn(st.nextId, name, params, code, Capture(policy, env, code));
      var (env1, st1) := Define(env, name, f, st.(nextId := st.nextId + 1));
      Step(Normal, env1, st1)
    case Break => Step(Breaking, env, st)
    case Continue => Step(Continuing, env, st)
    case Import(_) => Step(Failing(NotLinked), env, st)
    case TryCatch(tryBody, binder, catchBody) =>
      var r := Scoped(host, policy, env, tryBody, st);
      if r.flow.Failing? && !host.uncatchable(r.flow.fault) then
        ScopedWith(host, policy, env, binder, VScalar(Caught(r.flow.fault)), catchBody, r.st)
      else r
    case ExprStmt(expr) =>
      var v := EvalExpr(host, policy, env, expr, st);
      Step(if v.result.Bad? then Failing(v.result.fault) else Normal, env, v.st)
  }

  function ExecBlock(host: Host, policy: Policy, env: Env, ss: seq<Stmt>, st: State): (r: Step)
    ensures r.st.steps <= st.steps
    decreases st.steps, ss, 3
  {
    if ss == [] then Step(Normal, env, st)
    else
      var r := ExecStmt(host, policy, env, ss[0], st);
      if r.flow.Normal? then ExecBlock(host, policy, r.env, ss[1..], r.st) else r
  }

  /** A block in a scope of its own. */
  function Scoped(host: Host, policy: Policy, env: Env, ss: seq<Stmt>, st: State): (r: Step)
    ensures r.st.steps <= st.steps
    decreases st.steps, ss, 4
  {
    ExecBlock(host, policy, Push(env), ss, st).(env := env)
  }

  /** A block in a scope of its own that begins with one variable. */
  function ScopedWith(host: Host, policy: Policy, env: Env, binder: string, v: Value, ss: seq<Stmt>, st: State): (r: Step)
    ensures r.st.steps <= st.steps
    decreases st.steps, ss, 4
  {
    var (inner, st1) := Define(Push(env), binder, v, st);
    ExecBlock(host, policy, inner, ss, st1).(env := env)
  }

  function WhileLoop(host: Host, policy: Policy, env: Env, s: Stmt, st: State): (r: Step)
    requires s.While?
    ensures r.st.steps <= st.steps
    decreases st.steps, s, 2
  {
    var v := EvalExpr(host, policy, env, s.condition, st);
    if v.result.Bad? then Step(Failing(v.result.fault), env, v.st)
    else if !Truthy(host, v.result.value) then Step(Normal, env, v.st)
    else
      var b := Scoped(host, policy, env, s.body, v.st);
      match b.flow
      case Breaking => Step(Normal, env, b.st)
      case Returning(_) => b
      case Failing(_) => b
      case _ =>
        if b.st.steps == 0 then Step(Failing(StepLimit), env, b.st)
        else WhileLoop(host, policy, env, s, b.st.(steps := b.st.steps - 1))
  }

  function ForLoop(host: Host, policy: Policy, env: Env, s: Stmt, items: seq<Value>, st: State): (r: Step)
    requires s.For?
    ensures r.st.steps <= st.steps
    decreases st.steps, s, 2
  {
    if items == [] then Step(Normal, env, st)
    else
      var b := ScopedWith(host, policy, env, s.binder, items[0], s.body, st);
      match b.flow
      case Breaking => Step(Normal, env, b.st)
      case Returning(_) => b
      case Failing(_) => b
      case _ =>
        if b.st.steps == 0 then Step(Failing(StepLimit), env, b.st)
        else ForLoop(host, policy, env, s, items[1..], b.st.(steps := b.st.steps - 1))
  }
}

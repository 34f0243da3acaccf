/** The fragment of the language that both engines execute: syntax (`src/ast.rs`), runtime values
    (`src/value.rs`), and the value-level rules the tree evaluator and the VM share
    (`src/builtin_core.rs`, `src/limits.rs`). */
module Lang {

  datatype BinOp = Add | Sub | Mul | Div | Mod | Eq | NotEq | Lt | Gt | LtEq | GtEq | And | Or

  datatype UnaryOp = Neg | Not

  datatype Expr =
    | IntLit(n: int)
    | StrLit(s: string)
    | BoolLit(b: bool)
    | NullLit
    | Ident(name: string)
    | Binary(op: BinOp, left: Expr, right: Expr)
    | Unary(uop: UnaryOp, operand: Expr)
    | Print(args: seq<Expr>)
    | ListLit(items: seq<Expr>)
    | Index(base: Expr, index: Expr)

  datatype Stmt =
    | Let(name: string, value: Expr, line: nat)
    | Assign(name: string, value: Expr, line: nat)
    | IndexAssign(name: string, index: Expr, value: Expr, line: nat)
    | ExprStmt(expr: Expr, line: nat)
    | If(cond: Expr, thenBody: seq<Stmt>, elseBody: seq<Stmt>, line: nat)
    | While(cond: Expr, body: seq<Stmt>, line: nat)
    | For(binder: string, iter: Expr, body: seq<Stmt>, line: nat)
    | Break(line: nat)
    | Continue(line: nat)
    | TryCatch(tryBody: seq<Stmt>, binder: string, catchBody: seq<Stmt>, line: nat)
    | Return(value: Expr, line: nat)

  datatype Option<+T> = None | Some(value: T)

  // ----- Errors -----

  datatype ErrorKind =
    | NameKind | TypeKind | IndexKind | ZeroDivisionKind | IntOverflowKind | IterationKind
    | BuiltinTypeKind | OverflowKind | ControlFlowKind | InternalKind | CollectionLimitKind | StepLimitKind

  /** What happened, without the rendered text. The text is a parameter of the semantics
      (`Host.message`), shared by both engines as the constructors of `src/error.rs` are. */
  datatype Cause =
    | UndefinedName(name: string)
    | AssignUndefined(name: string)
    | ZeroDivision
    | IntOverflow(operation: OverflowSite)
    | ArithmeticType(op: BinOp, left: TypeName, right: TypeName)
    | ComparisonType(op: BinOp, left: TypeName, right: TypeName)
    | UnaryType(uop: UnaryOp, operand: TypeName)
    | ListIndexType(actual: TypeName)
    | StrIndexType(actual: TypeName)
    | DictKeyType(actual: TypeName)
    | ListIndexOutOfRange(index: int, len: nat)
    | StrIndexOutOfRange(index: int, len: nat)
    | IndexReadUnsupported(actual: TypeName)
    | IndexAssignUnsupported(actual: TypeName)
    | NotIterable(actual: TypeName)
    | LenType(actual: TypeName)
    | ValueDepthLimit
    | CollectionLimit
    | StepLimit
    | BreakOutsideLoop
    | ContinueOutsideLoop
    | Internal

  datatype OverflowSite = OnAdd | OnSub | OnMul | OnDiv | OnMod | OnNegate

  datatype TypeName = IntName | BoolName | NullName | StrName | ListName | ErrorName

  datatype Fault = Fault(cause: Cause, line: nat)

  function KindOf(c: Cause): ErrorKind {
    match c
    case UndefinedName(_) => NameKind
    case AssignUndefined(_) => NameKind
    case ZeroDivision => ZeroDivisionKind
    case IntOverflow(_) => IntOverflowKind
    case ListIndexOutOfRange(_, _) => IndexKind
    case StrIndexOutOfRange(_, _) => IndexKind
    case NotIterable(_) => IterationKind
    case LenType(_) => BuiltinTypeKind
    case ValueDepthLimit => OverflowKind
    case CollectionLimit => CollectionLimitKind
    case StepLimit => StepLimitKind
    case BreakOutsideLoop => ControlFlowKind
    case ContinueOutsideLoop => ControlFlowKind
    case Internal => InternalKind
    case _ => TypeKind
  }

  /** A terminal signal that no `catch` sees. */
  predicate IsUncatchable(c: Cause) {
    KindOf(c) == StepLimitKind || KindOf(c) == CollectionLimitKind
  }

  // ----- Values -----

  datatype Value =
    | VInt(n: int)
    | VBool(b: bool)
    | VNull
    | VStr(s: string)
    | VList(elements: seq<Value>)
    | VError(kind: ErrorKind, message: string, line: nat)

  /** Everything the engines take from the embedding host: the collection limit, and how values and
      errors are rendered. `rechecks` concerns the tree evaluator alone: whether entering a `while`
      evaluates the condition a second time. It does; `false` stands for the same evaluator without
      that repetition. */
  datatype Host = Host(
    maxCollection: nat, show: Value -> string, message: Cause -> string, kindText: ErrorKind -> string, rechecks: bool)

  function TypeOf(v: Value): TypeName {
    match v
    case VInt(_) => IntName
    case VBool(_) => BoolName
    case VNull => NullName
    case VStr(_) => StrName
    case VList(_) => ListName
    case VError(_, _, _) => ErrorName
  }

  predicate Truthy(v: Value) {
    match v
    case VBool(b) => b
    case VNull => false
    case VInt(n) => n != 0
    case VStr(s) => s != ""
    case VList(es) => es != []
    case VError(_, _, _) => true
  }

  function ErrorValue(host: Host, f: Fault): Value {
    VError(KindOf(f.cause), host.message(f.cause), f.line)
  }

  const MAX_VALUE_DEPTH: nat := 256

  function Depth(v: Value): nat {
    match v
    case VList(es) => 1 + MaxDepth(es)
    case _ => 0
  }

  function MaxDepth(es: seq<Value>): nat {
    if es == [] then 0
    else
      var first, rest := Depth(es[0]), MaxDepth(es[1..]);
      if first > rest then first else rest
  }

  // ----- Machine integers -----

  const I64_MIN: int := -0x8000_0000_0000_0000
  const I64_MAX: int := 0x7fff_ffff_ffff_ffff

  predicate InI64(n: int) { I64_MIN <= n <= I64_MAX }

  /** Rust's `/` on integers: truncation toward zero. */
  function TruncDiv(a: int, b: int): int
    requires b != 0
  {
    if a >= 0 then (if b > 0 then a / b else -(a / -b))
    else (if b > 0 then -(-a / b) else -a / -b)
  }

  /** Rust's `%` on integers: the sign follows the dividend. */
  function TruncRem(a: int, b: int): int
    requires b != 0
  {
    a - TruncDiv(a, b) * b
  }

  // ----- Shared value-level operations -----

  datatype Outcome<+T> = Good(value: T) | Bad(fault: Fault)

  function Checked(n: int, site: OverflowSite, line: nat): (r: Outcome<Value>)
    ensures r.Bad? ==> r.fault.line == line && r.fault.cause != Internal
  {
    if InI64(n) then Good(VInt(n)) else Bad(Fault(IntOverflow(site), line))
  }

  function EvalUnary(uop: UnaryOp, v: Value, line: nat): (r: Outcome<Value>)
    ensures r.Bad? ==> r.fault.line == line && r.fault.cause != Internal
  {
    match uop
    case Not => Good(VBool(!Truthy(v)))
    case Neg =>
      if v.VInt? then Checked(-v.n, OnNegate, line)
      else Bad(Fault(UnaryType(Neg, TypeOf(v)), line))
  }

  /** `list.push` while a literal is being built: the collection limit is looked at first, then the
      nesting depth of the new element. */
  function AppendElement(host: Host, list: seq<Value>, v: Value, line: nat): (r: Outcome<seq<Value>>)
    ensures r.Bad? ==> r.fault.line == line && r.fault.cause != Internal
  {
    if |list| + 1 > host.maxCollection then Bad(Fault(CollectionLimit, line))
    else if Depth(v) >= MAX_VALUE_DEPTH then Bad(Fault(ValueDepthLimit, line))
    else Good(list + [v])
  }

  function NormalIndex(i: int, len: nat): int { if i < 0 then len + i else i }

  function EvalIndex(host: Host, base: Value, index: Value, line: nat): (r: Outcome<Value>)
    ensures r.Bad? ==> r.fault.line == line && r.fault.cause != Internal
  {
    match base
    case VList(es) =>
      if !index.VInt? then Bad(Fault(ListIndexType(TypeOf(index)), line))
      else
        var at := NormalIndex(index.n, |es|);
        if 0 <= at < |es| then Good(es[at])
        else Bad(Fault(ListIndexOutOfRange(index.n, |es|), line))
    case VStr(s) =>
      if !index.VInt? then Bad(Fault(StrIndexType(TypeOf(index)), line))
      else
        var at := NormalIndex(index.n, |s|);
        if 0 <= at < |s| then Good(VStr([s[at]]))
        else Bad(Fault(StrIndexOutOfRange(index.n, |s|), line))
    case VError(kind, message, errLine) =>
      if !index.VStr? then Bad(Fault(DictKeyType(TypeOf(index)), line))
      else if index.s == "type" then Good(VStr(host.kindText(kind)))
      else if index.s == "message" then Good(VStr(message))
      else if index.s == "line" then Good(VInt(errLine))
      else Good(VNull)
    case _ => Bad(Fault(IndexReadUnsupported(TypeOf(base)), line))
  }

  function AssignIndex(base: Value, index: Value, v: Value, line: nat): (r: Outcome<Value>)
    ensures r.Bad? ==> r.fault.line == line && r.fault.cause != Internal
  {
    match base
    case VList(es) =>
      if !index.VInt? then Bad(Fault(ListIndexType(TypeOf(index)), line))
      else
        var at := NormalIndex(index.n, |es|);
        if !(0 <= at < |es|) then Bad(Fault(ListIndexOutOfRange(index.n, |es|), line))
        else if Depth(v) >= MAX_VALUE_DEPTH then Bad(Fault(ValueDepthLimit, line))
        else Good(VList(es[at := v]))
    case _ => Bad(Fault(IndexAssignUnsupported(TypeOf(base)), line))
  }

  function Chars(s: string): (r: seq<Value>)
    ensures |r| == |s|
    ensures forall i :: 0 <= i < |s| ==> r[i] == VStr([s[i]])
  {
    seq(|s|, i requires 0 <= i < |s| => VStr([s[i]]))
  }

  /** The element list a `for` iterates over. */
  function IterItems(host: Host, v: Value, line: nat): (r: Outcome<seq<Value>>)
    ensures r.Bad? ==> r.fault.line == line && r.fault.cause != Internal
  {
    match v
    case VList(es) =>
      if |es| > host.maxCollection then Bad(Fault(CollectionLimit, line)) else Good(es)
    case VStr(s) =>
      if |s| > host.maxCollection then Bad(Fault(CollectionLimit, line)) else Good(Chars(s))
    case _ => Bad(Fault(NotIterable(TypeOf(v)), line))
  }

  /** The builtin `len`. */
  function Len(v: Value, line: nat): (r: Outcome<Value>)
    ensures r.Bad? ==> r.fault.line == line && r.fault.cause != Internal
  {
    match v
    case VList(es) => Good(VInt(|es|))
    case VStr(s) => Good(VInt(|s|))
    case _ => Bad(Fault(LenType(TypeOf(v)), line))
  }

  /** Values joined by one space, as `print` writes them. */
  function Joined(host: Host, vs: seq<Value>): string {
    if vs == [] then ""
    else if |vs| == 1 then host.show(vs[0])
    else host.show(vs[0]) + " " + Joined(host, vs[1..])
  }

  // ----- Static classification of expressions -----

  /** Literals, names, and operators and index reads over them: evaluating such an expression cannot
      change a collection, so the collection may be read after it. */
  predicate IsSideEffectFree(e: Expr) {
    match e
    case IntLit(_) => true
    case StrLit(_) => true
    case BoolLit(_) => true
    case NullLit => true
    case Ident(_) => true
    case Binary(_, l, r) => IsSideEffectFree(l) && IsSideEffectFree(r)
    case Unary(_, x) => IsSideEffectFree(x)
    case Index(o, i) => IsSideEffectFree(o) && IsSideEffectFree(i)
    case Print(_) => false
    case ListLit(_) => false
  }

  /** Whether some subexpression is a call. */
  predicate ContainsCall(e: Expr) {
    match e
    case Print(_) => true
    case ListLit(items) => ExistsCall(items)
    case Binary(_, l, r) => ContainsCall(l) || ContainsCall(r)
    case Unary(_, x) => ContainsCall(x)
    case Index(o, i) => ContainsCall(o) || ContainsCall(i)
    case _ => false
  }

  predicate ExistsCall(es: seq<Expr>) {
    es != [] && (ContainsCall(es[0]) || ExistsCall(es[1..]))
  }
}

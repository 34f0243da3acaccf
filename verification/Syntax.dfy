/** The whole syntax tree (`src/ast.rs`), and the walks over it: every node with its direct children, the closure body
    it may carry, and the names and bytes it owns. Strings stand for their UTF-8 bytes. */
module Syntax {

  datatype BinOp = Add | Sub | Mul | Div | Mod | Eq | NotEq | Lt | Gt | LtEq | GtEq | And | Or

  datatype UnaryOp = Not | Neg

  /** A closure body: a shared list of statements, and the identity of its backing. */
  datatype Block = Block(id: nat, stmts: seq<Stmt>)

  datatype Stmt =
    | Let(name: string, value: Expr)
    | Assign(name: string, value: Expr)
    | IndexAssign(name: string, index: Expr, value: Expr)
    | Return(value: Expr)
    | If(condition: Expr, thenBody: seq<Stmt>, elseBody: seq<Stmt>)
    | While(condition: Expr, body: seq<Stmt>)
    | For(binder: string, iter: Expr, body: seq<Stmt>)
    | FnDef(name: string, params: seq<string>, code: Block)
    | Break
    | Continue
    | Import(path: string)
    | TryCatch(tryBody: seq<Stmt>, binder: string, catchBody: seq<Stmt>)
    | ExprStmt(expr: Expr)

  datatype Expr =
    | IntLit(n: int)
    | FloatLit(x: real)
    | StrLit(s: string)
    | BoolLit(b: bool)
    | NullLit
    | ListLit(items: seq<Expr>)
    | DictLit(pairs: seq<Pair>)
    | Ident(name: string)
    | Binary(left: Expr, op: BinOp, right: Expr)
    | Unary(uop: UnaryOp, operand: Expr)
    | Call(callee: Expr, args: seq<Expr>)
    | Lambda(params: seq<string>, code: Block)
    | Index(base: Expr, index: Expr)
    | FStr(parts: seq<FPart>)

  datatype Pair = Pair(key: Expr, value: Expr)

  datatype FPart = Literal(text: string) | Hole(expr: Expr)

  datatype Option<T> = None | Some(value: T)

  datatype Node = S(stmt: Stmt) | E(expr: Expr)

  // ----- Children -----

  function Stmts(ss: seq<Stmt>): (r: seq<Node>)
    ensures |r| == |ss| && forall i :: 0 <= i < |r| ==> r[i] == S(ss[i])
  {
    seq(|ss|, i requires 0 <= i < |ss| => S(ss[i]))
  }

  function Exprs(es: seq<Expr>): (r: seq<Node>)
    ensures |r| == |es| && forall i :: 0 <= i < |r| ==> r[i] == E(es[i])
  {
    seq(|es|, i requires 0 <= i < |es| => E(es[i]))
  }

  function PairKids(ps: seq<Pair>): seq<Node> {
    if ps == [] then [] else PairKids(ps[..|ps| - 1]) + [E(ps[|ps| - 1].key), E(ps[|ps| - 1].value)]
  }

  function PartKid(p: FPart): seq<Node> { if p.Hole? then [E(p.expr)] else [] }

  function PartKids(ps: seq<FPart>): seq<Node> {
    if ps == [] then [] else PartKids(ps[..|ps| - 1]) + PartKid(ps[|ps| - 1])
  }

  /** The direct children of a node that belong to the same owner. */
  function Kids(n: Node): seq<Node> {
    match n
    case S(Let(_, value)) => [E(value)]
    case S(Assign(_, value)) => [E(value)]
    case S(IndexAssign(_, index, value)) => [E(index), E(value)]
    case S(Return(value)) => [E(value)]
    case S(If(condition, thenBody, elseBody)) => [E(condition)] + Stmts(thenBody) + Stmts(elseBody)
    case S(While(condition, body)) => [E(condition)] + Stmts(body)
    case S(For(_, iter, body)) => [E(iter)] + Stmts(body)
    case S(TryCatch(tryBody, _, catchBody)) => Stmts(tryBody) + Stmts(catchBody)
    case S(ExprStmt(expr)) => [E(expr)]
    case S(_) => []
    case E(ListLit(items)) => Exprs(items)
    case E(DictLit(pairs)) => PairKids(pairs)
    case E(Binary(left, _, right)) => [E(left), E(right)]
    case E(Unary(_, operand)) => [E(operand)]
    case E(Call(callee, args)) => [E(callee)] + Exprs(args)
    case E(Index(base, index)) => [E(base), E(index)]
    case E(FStr(parts)) => PartKids(parts)
    case E(_) => []
  }

  /** The closure body a definition or a lambda carries. */
  function Closure(n: Node): Option<Block> {
    match n
    case S(FnDef(_, _, code)) => Some(code)
    case E(Lambda(_, code)) => Some(code)
    case _ => None
  }

  /** All children, whoever owns them. */
  function Inside(n: Node): seq<Node> {
    match Closure(n)
    case None => Kids(n)
    case Some(b) => Kids(n) + Stmts(b.stmts)
  }

  // ----- Sizes, on which the walks descend -----

  function SizeStmt(s: Stmt): (r: nat)
    ensures r > 0
  {
    match s
    case Let(_, value) => 1 + SizeExpr(value)
    case Assign(_, value) => 1 + SizeExpr(value)
    case IndexAssign(_, index, value) => 1 + SizeExpr(index) + SizeExpr(value)
    case Return(value) => 1 + SizeExpr(value)
    case If(condition, thenBody, elseBody) => 1 + SizeExpr(condition) + SizeStmts(thenBody) + SizeStmts(elseBody)
    case While(condition, body) => 1 + SizeExpr(condition) + SizeStmts(body)
    case For(_, iter, body) => 1 + SizeExpr(iter) + SizeStmts(body)
    case FnDef(_, _, code) => 1 + SizeStmts(code.stmts)
    case TryCatch(tryBody, _, catchBody) => 1 + SizeStmts(tryBody) + SizeStmts(catchBody)
    case ExprStmt(expr) => 1 + SizeExpr(expr)
    case _ => 1
  }

  function SizeStmts(ss: seq<Stmt>): nat { if ss == [] then 0 else SizeStmts(ss[..|ss| - 1]) + SizeStmt(ss[|ss| - 1]) }

  function SizeExpr(e: Expr): (r: nat)
    ensures r > 0
  {
    match e
    case ListLit(items) => 1 + SizeExprs(items)
    case DictLit(pairs) => 1 + SizePairs(pairs)
    case Binary(left, _, right) => 1 + SizeExpr(left) + SizeExpr(right)
    case Unary(_, operand) => 1 + SizeExpr(operand)
    case Call(callee, args) => 1 + SizeExpr(callee) + SizeExprs(args)
    case Lambda(_, code) => 1 + SizeStmts(code.stmts)
    case Index(base, index) => 1 + SizeExpr(base) + SizeExpr(index)
    case FStr(parts) => 1 + SizeParts(parts)
    case _ => 1
  }

  function SizeExprs(es: seq<Expr>): nat { if es == [] then 0 else SizeExprs(es[..|es| - 1]) + SizeExpr(es[|es| - 1]) }

  function SizePairs(ps: seq<Pair>): nat {
    if ps == [] then 0
    else SizePairs(ps[..|ps| - 1]) + SizePair(ps[|ps| - 1])
  }

  function SizePair(p: Pair): nat { SizeExpr(p.key) + SizeExpr(p.value) }

  function SizePart(p: FPart): nat { if p.Hole? then SizeExpr(p.expr) else 0 }

  function SizeParts(ps: seq<FPart>): nat {
    if ps == [] then 0 else SizeParts(ps[..|ps| - 1]) + SizePart(ps[|ps| - 1])
  }

  function Size(n: Node): (r: nat)
    ensures r > 0
  {
    match n
    case S(s) => SizeStmt(s)
    case E(e) => SizeExpr(e)
  }

  function SizeAll(ns: seq<Node>): nat { if ns == [] then 0 else Size(ns[0]) + SizeAll(ns[1..]) }

  lemma {:induction false} SizeAppend(a: seq<Node>, b: seq<Node>)
    ensures SizeAll(a + b) == SizeAll(a) + SizeAll(b)
  {
    if a == [] {
      assert a + b == b;
    } else {
      assert (a + b)[1..] == a[1..] + b;
      SizeAppend(a[1..], b);
    }
  }

  lemma SizeOne(n: Node)
    ensures SizeAll([n]) == Size(n)
  {
  }

  lemma SizeTwo(m: Node, n: Node)
    ensures SizeAll([m, n]) == Size(m) + Size(n)
  {
    SizeAppend([m], [n]);
    assert [m] + [n] == [m, n];
  }

  lemma {:induction false} SizeOfStmts(ss: seq<Stmt>)
    ensures SizeAll(Stmts(ss)) == SizeStmts(ss)
  {
    if ss != [] {
      var n := |ss| - 1;
      SizeOfStmts(ss[..n]);
      assert Stmts(ss) == Stmts(ss[..n]) + [S(ss[n])];
      SizeAppend(Stmts(ss[..n]), [S(ss[n])]);
    }
  }

  lemma {:induction false} SizeOfExprs(es: seq<Expr>)
    ensures SizeAll(Exprs(es)) == SizeExprs(es)
  {
    if es != [] {
      var n := |es| - 1;
      SizeOfExprs(es[..n]);
      assert Exprs(es) == Exprs(es[..n]) + [E(es[n])];
      SizeAppend(Exprs(es[..n]), [E(es[n])]);
    }
  }

  lemma {:induction false} SizeOfPairs(ps: seq<Pair>)
    ensures SizeAll(PairKids(ps)) == SizePairs(ps)
  {
    if ps != [] {
      var n := |ps| - 1;
      SizeOfPairs(ps[..n]);
      SizeTwo(E(ps[n].key), E(ps[n].value));
      SizeAppend(PairKids(ps[..n]), [E(ps[n].key), E(ps[n].value)]);
    }
  }

  lemma {:induction false} SizeOfParts(ps: seq<FPart>)
    ensures SizeAll(PartKids(ps)) == SizeParts(ps)
  {
    if ps != [] {
      var n := |ps| - 1;
      SizeOfParts(ps[..n]);
      SizeAppend(PartKids(ps[..n]), PartKid(ps[n]));
    }
  }

  lemma SizeStmtKids(s: Stmt)
    ensures SizeAll(Inside(S(s))) == SizeStmt(s) - 1
  {
    hide SizeAll;
    SizeNone();
    match s {
      case Let(_, value) => SizeOne(E(value));
      case Assign(_, value) => SizeOne(E(value));
      case IndexAssign(_, index, value) => SizeTwo(E(index), E(value));
      case Return(value) => SizeOne(E(value));
      case If(condition, thenBody, elseBody) => {
        SizeOne(E(condition));
        SizeOfStmts(thenBody);
        SizeOfStmts(elseBody);
        SizeAppend([E(condition)], Stmts(thenBody));
        SizeAppend([E(condition)] + Stmts(thenBody), Stmts(elseBody));
      }
      case While(condition, body) => {
        SizeOne(E(condition));
        SizeOfStmts(body);
        SizeAppend([E(condition)], Stmts(body));
      }
      case For(_, iter, body) => {
        SizeOne(E(iter));
        SizeOfStmts(body);
        SizeAppend([E(iter)], Stmts(body));
      }
      case FnDef(_, _, code) => {
        SizeOfStmts(code.stmts);
        assert [] + Stmts(code.stmts) == Stmts(code.stmts);
      }
      case TryCatch(tryBody, _, catchBody) => {
        SizeOfStmts(tryBody);
        SizeOfStmts(catchBody);
        SizeAppend(Stmts(tryBody), Stmts(catchBody));
      }
      case ExprStmt(expr) => SizeOne(E(expr));
      case _ =>
    }
  }

  lemma SizeNone()
    ensures SizeAll([]) == 0
  {
  }

  lemma SizeExprKids(e: Expr)
    ensures SizeAll(Inside(E(e))) == SizeExpr(e) - 1
  {
    hide SizeAll;
    SizeNone();
    match e {
      case ListLit(items) => SizeOfExprs(items);
      case DictLit(pairs) => SizeOfPairs(pairs);
      case Binary(left, _, right) => SizeTwo(E(left), E(right));
      case Unary(_, operand) => SizeOne(E(operand));
      case Call(callee, args) => {
        SizeOne(E(callee));
        SizeOfExprs(args);
        SizeAppend([E(callee)], Exprs(args));
      }
      case Lambda(_, code) => {
        SizeOfStmts(code.stmts);
        assert [] + Stmts(code.stmts) == Stmts(code.stmts);
      }
      case Index(base, index) => SizeTwo(E(base), E(index));
      case FStr(parts) => SizeOfParts(parts);
      case _ =>
    }
  }

  /** The children of a node, all together, are one smaller than the node. */
  lemma SizeInside(n: Node)
    ensures SizeAll(Inside(n)) == Size(n) - 1
    ensures SizeAll(Kids(n)) < Size(n)
    ensures Closure(n).Some? ==> SizeAll(Stmts(Closure(n).value.stmts)) < Size(n)
  {
    hide SizeAll;
    match n {
      case S(s) => SizeStmtKids(s);
      case E(e) => SizeExprKids(e);
    }
    if Closure(n).Some? {
      SizeAppend(Kids(n), Stmts(Closure(n).value.stmts));
    }
  }

  // ----- All nodes -----

  /** Every node below a list of nodes, whoever owns it. */
  function Flat(ns: seq<Node>): seq<Node>
    decreases SizeAll(ns)
  {
    if ns == [] then [] else
      SizeInside(ns[0]);
      [ns[0]] + Flat(Inside(ns[0])) + Flat(ns[1..])
  }

  /** The nodes below a list that have the same owner. */
  function Near(ns: seq<Node>): seq<Node>
    decreases SizeAll(ns)
  {
    if ns == [] then [] else
      SizeInside(ns[0]);
      [ns[0]] + Near(Kids(ns[0])) + Near(ns[1..])
  }

  lemma {:induction false} FlatAppend(a: seq<Node>, b: seq<Node>)
    ensures Flat(a + b) == Flat(a) + Flat(b)
  {
    if a == [] {
      assert a + b == b;
    } else {
      assert (a + b)[1..] == a[1..] + b;
      FlatAppend(a[1..], b);
      var head, rest, more := [a[0]] + Flat(Inside(a[0])), Flat(a[1..]), Flat(b);
      assert head + (rest + more) == (head + rest) + more;
    }
  }

  lemma {:induction false} NearAppend(a: seq<Node>, b: seq<Node>)
    ensures Near(a + b) == Near(a) + Near(b)
  {
    if a == [] {
      assert a + b == b;
    } else {
      assert (a + b)[1..] == a[1..] + b;
      NearAppend(a[1..], b);
      var head, rest, more := [a[0]] + Near(Kids(a[0])), Near(a[1..]), Near(b);
      assert head + (rest + more) == (head + rest) + more;
    }
  }

  // ----- What a node owns -----

  function TotalBytes(names: seq<string>): nat {
    if names == [] then 0 else TotalBytes(names[..|names| - 1]) + |names[|names| - 1]|
  }

  function Literals(ps: seq<FPart>): nat {
    if ps == [] then 0 else Literals(ps[..|ps| - 1]) + (if ps[|ps| - 1].Literal? then |ps[|ps| - 1].text| else 0)
  }

  /** The bytes of the strings a node holds itself. */
  function OwnedBytes(n: Node): nat {
    match n
    case S(Let(name, _)) => |name|
    case S(Assign(name, _)) => |name|
    case S(IndexAssign(name, _, _)) => |name|
    case S(For(binder, _, _)) => |binder|
    case S(FnDef(name, params, _)) => |name| + TotalBytes(params)
    case S(Import(path)) => |path|
    case S(TryCatch(_, binder, _)) => |binder|
    case S(_) => 0
    case E(StrLit(s)) => |s|
    case E(Ident(name)) => |name|
    case E(Lambda(params, _)) => TotalBytes(params)
    case E(FStr(parts)) => Literals(parts)
    case E(_) => 0
  }

  /** The names a node mentions itself. */
  function OwnNames(n: Node): set<string> {
    match n
    case S(Let(name, _)) => {name}
    case S(Assign(name, _)) => {name}
    case S(IndexAssign(name, _, _)) => {name}
    case S(For(binder, _, _)) => {binder}
    case S(FnDef(name, params, _)) => {name} + (set p | p in params)
    case S(TryCatch(_, binder, _)) => {binder}
    case S(_) => {}
    case E(Ident(name)) => {name}
    case E(Lambda(params, _)) => set p | p in params
    case E(_) => {}
  }

  /** Every name that some node of a list mentions. */
  function NamesIn(ns: seq<Node>): set<string> { set n, x | n in ns && x in OwnNames(n) :: x }

  /** The names a closure body mentions anywhere, nested bodies included. */
  function NamesOf(b: Block): set<string> { NamesIn(Flat(Stmts(b.stmts))) }
}

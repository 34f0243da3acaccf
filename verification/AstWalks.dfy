/** The walks over the syntax tree as the source runs them (`src/ast.rs`): two explicit worklists and two recursions
    over shared accumulators, each form by form, proved to compute what `Syntax` and `Ownership` define. */
module AstWalks {
  import opened Syntax
  import opened Ownership

  function SatAdd(a: U64, b: nat): U64 { Saturate(a + Saturate(b)) }

  // ----- Worklists -----

  lemma FlatLast(ns: seq<Node>, n: Node)
    ensures multiset(Flat(ns + [n])) == multiset(Flat(ns + Inside(n))) + multiset{n}
    ensures Cost(Flat(ns + [n])) == Cost(Flat(ns + Inside(n))) + NodeCost(n)
    ensures SizeAll(ns + [n]) == SizeAll(ns + Inside(n)) + 1
  {
    hide Inside, Cost, SizeAll, Flat, NodeCost;
    FlatAppend(ns, [n]);
    FlatAppend(ns, Inside(n));
    FlatSingle(n);
    CostAppend(Flat(ns), Flat([n]));
    CostAppend(Flat(ns), Flat(Inside(n)));
    CostAppend([n], Flat(Inside(n)));
    CostSingle(n);
    SizeAppend(ns, [n]);
    SizeAppend(ns, Inside(n));
    SizeOne(n);
    SizeInside(n);
  }

  lemma FlatSingle(n: Node)
    ensures Flat([n]) == [n] + Flat(Inside(n))
  {
    hide Inside;
    assert Flat([n][1..]) == [];
  }

  lemma CostSingle(n: Node)
    ensures Cost([n]) == NodeCost(n)
  {
  }

  method OwnedLength(names: seq<string>, start: U64, ghost known: nat) returns (owned: U64)
    requires start == Saturate(known)
    ensures owned == Saturate(known + TotalBytes(names))
  {
    owned := start;
    for i := 0 to |names|
      invariant owned == Saturate(known + TotalBytes(names[..i]))
    {
      assert names[..i + 1][..i] == names[..i];
      owned := SatAdd(owned, |names[i]|);
    }
    assert names[..|names|] == names;
  }

  /** The size of a whole program, node by node from one worklist. */
  method AstHeapSize(program: seq<Stmt>) returns (total: U64)
    ensures total == Saturate(AST_ROOT + Cost(Flat(Stmts(program))))
  {
    hide Flat, Cost, SizeAll, Stmts, Exprs, TotalBytes, Literals;
    total := AST_ROOT;
    var work := Stmts(program);
    ghost var spent: nat := AST_ROOT;
    while work != []
      invariant total == Saturate(spent)
      invariant spent + Cost(Flat(work)) == AST_ROOT + Cost(Flat(Stmts(program)))
      decreases SizeAll(work)
    {
      var n, rest := work[|work| - 1], work[..|work| - 1];
      assert work == rest + [n];
      FlatLast(rest, n);
      var owned: U64;
      owned, work := Expand(n, rest);
      total := SatAdd(total, SatAdd(64, owned));
      spent := spent + NodeCost(n);
    }
    assert Flat([]) == [] by {
      NoFlat();
    }
    assert Cost([]) == 0 by {
      NoCost();
    }
  }

  lemma NoCost()
    ensures Cost([]) == 0
  {
  }

  /** One turn of the worklist: the bytes a node owns, and its children on the list. */
  method Expand(n: Node, rest: seq<Node>) returns (owned: U64, work: seq<Node>)
    ensures owned == Saturate(OwnedBytes(n)) && work == rest + Inside(n)
  {
    match n {
      case S(s) => {
        owned, work := ExpandStmt(s, rest);
      }
      case E(e) => {
        owned, work := ExpandExpr(e, rest);
      }
    }
  }

  lemma NothingSaturates()
    ensures Saturate(0) == 0
  {
  }

  method AddOwned(bytes: U64, s: string, ghost known: nat) returns (r: U64)
    requires bytes == Saturate(known)
    ensures r == Saturate(known + |s|)
  {
    r := SatAdd(bytes, |s|);
  }

  method ExpandStmt(s: Stmt, rest: seq<Node>) returns (owned: U64, work: seq<Node>)
    ensures owned == Saturate(OwnedBytes(S(s))) && work == rest + Inside(S(s))
  {
    hide TotalBytes, Literals, Saturate, SatAdd;
    NothingSaturates();
    owned, work := 0, rest;
    match s {
      case Let(name, value) => {
        owned := AddOwned(owned, name, 0);
        work := work + [E(value)];
      }
      case Assign(name, value) => {
        owned := AddOwned(owned, name, 0);
        work := work + [E(value)];
      }
      case IndexAssign(name, index, value) => {
        owned := AddOwned(owned, name, 0);
        work := work + [E(index)];
        work := work + [E(value)];
        assert work == rest + [E(index), E(value)];
      }
      case Return(value) => {
        work := work + [E(value)];
      }
      case ExprStmt(value) => {
        work := work + [E(value)];
      }
      case If(condition, thenBody, elseBody) => {
        work := work + [E(condition)];
        work := work + Stmts(thenBody);
        work := work + Stmts(elseBody);
        assert work == rest + ([E(condition)] + Stmts(thenBody) + Stmts(elseBody));
      }
      case While(condition, body) => {
        work := work + [E(condition)];
        work := work + Stmts(body);
        assert work == rest + ([E(condition)] + Stmts(body));
      }
      case For(binder, iter, body) => {
        owned := AddOwned(owned, binder, 0);
        work := work + [E(iter)];
        work := work + Stmts(body);
        assert work == rest + ([E(iter)] + Stmts(body));
      }
      case FnDef(name, params, code) => {
        owned := AddOwned(owned, name, 0);
        owned := OwnedLength(params, owned, |name|);
        work := work + Stmts(code.stmts);
        assert work == rest + ([] + Stmts(code.stmts));
      }
      case Import(path) => {
        owned := AddOwned(owned, path, 0);
      }
      case TryCatch(tryBody, binder, catchBody) => {
        owned := AddOwned(owned, binder, 0);
        work := work + Stmts(tryBody);
        work := work + Stmts(catchBody);
        assert work == rest + (Stmts(tryBody) + Stmts(catchBody));
      }
      case Break => {
      }
      case Continue => {
      }
    }
  }

  method ExpandExpr(e: Expr, rest: seq<Node>) returns (owned: U64, work: seq<Node>)
    ensures owned == Saturate(OwnedBytes(E(e))) && work == rest + Inside(E(e))
  {
    hide TotalBytes, Literals, Saturate, SatAdd;
    NothingSaturates();
    owned, work := 0, rest;
    match e {
      case StrLit(s) => {
        owned := AddOwned(owned, s, 0);
      }
      case Ident(name) => {
        owned := AddOwned(owned, name, 0);
      }
      case ListLit(items) => {
        work := work + Exprs(items);
      }
      case DictLit(pairs) => {
        work := PushPairs(pairs, work);
      }
      case Binary(left, _, right) => {
        work := work + [E(left)];
        work := work + [E(right)];
      }
      case Unary(_, operand) => {
        work := work + [E(operand)];
      }
      case Call(callee, args) => {
        work := work + [E(callee)];
        work := work + Exprs(args);
      }
      case Lambda(params, code) => {
        owned := OwnedLength(params, owned, 0);
        work := work + Stmts(code.stmts);
      }
      case Index(base, index) => {
        work := work + [E(base)];
        work := work + [E(index)];
      }
      case FStr(parts) => {
        owned, work := PushParts(parts, work);
      }
      case IntLit(_) => {
      }
      case FloatLit(_) => {
      }
      case BoolLit(_) => {
      }
      case NullLit => {
      }
    }
  }

  method PushPairs(pairs: seq<Pair>, rest: seq<Node>) returns (work: seq<Node>)
    ensures work == rest + PairKids(pairs)
  {
    work := rest;
    for i := 0 to |pairs|
      invariant work == rest + PairKids(pairs[..i])
    {
      assert pairs[..i + 1][..i] == pairs[..i];
      work := work + [E(pairs[i].key)];
      work := work + [E(pairs[i].value)];
    }
    assert pairs[..|pairs|] == pairs;
  }

  method PushParts(parts: seq<FPart>, rest: seq<Node>) returns (owned: U64, work: seq<Node>)
    ensures owned == Saturate(Literals(parts)) && work == rest + PartKids(parts)
  {
    owned, work := 0, rest;
    for i := 0 to |parts|
      invariant owned == Saturate(Literals(parts[..i])) && work == rest + PartKids(parts[..i])
    {
      assert parts[..i + 1][..i] == parts[..i];
      match parts[i] {
        case Literal(text) => {
          owned := SatAdd(owned, |text|);
        }
        case Hole(child) => {
          work := work + [E(child)];
        }
      }
    }
    assert parts[..|parts|] == parts;
  }

  // ----- Names -----

  lemma NamesLast(rest: seq<Node>, n: Node)
    ensures NamesIn(Flat(rest + [n])) == NamesIn(Flat(rest + Inside(n))) + OwnNames(n)
  {
    hide Inside, Flat, OwnNames, Cost, SizeAll;
    FlatLast(rest, n);
    var a, b := Flat(rest + [n]), Flat(rest + Inside(n));
    forall m: Node
      ensures m in a <==> m in b || m == n
    {
      assert m in a <==> m in multiset(a);
      assert m in b <==> m in multiset(b);
    }
  }

  /** The names a closure body mentions anywhere, nested bodies included, gathered from one worklist. */
  method ReferencedNames(body: seq<Stmt>) returns (names: set<string>)
    ensures names == NamesIn(Flat(Stmts(body)))
  {
    hide Flat, NamesIn, SizeAll, Stmts, Exprs, Cost, NodeCost;
    names := {};
    var work := Stmts(body);
    while work != []
      invariant names + NamesIn(Flat(work)) == NamesIn(Flat(Stmts(body)))
      decreases SizeAll(work)
    {
      var n, rest := work[|work| - 1], work[..|work| - 1];
      assert work == rest + [n];
      FlatLast(rest, n);
      NamesLast(rest, n);
      var mentioned;
      mentioned, work := Mention(n, rest);
      names := names + mentioned;
    }
    assert NamesIn(Flat([])) == {} by {
      NoNames();
    }
  }

  lemma NoNames()
    ensures NamesIn(Flat([])) == {}
  {
  }

  method Mention(n: Node, rest: seq<Node>) returns (names: set<string>, work: seq<Node>)
    ensures names == OwnNames(n) && work == rest + Inside(n)
  {
    names, work := {}, rest;
    match n {
      case S(Let(name, value)) => {
        names := names + {name};
        work := work + [E(value)];
      }
      case S(Assign(name, value)) => {
        names := names + {name};
        work := work + [E(value)];
      }
      case S(IndexAssign(name, index, value)) => {
        names := names + {name};
        work := work + [E(index)];
        work := work + [E(value)];
      }
      case S(Return(value)) => {
        work := work + [E(value)];
      }
      case S(ExprStmt(value)) => {
        work := work + [E(value)];
      }
      case S(If(condition, thenBody, elseBody)) => {
        work := work + [E(condition)];
        work := work + Stmts(thenBody);
        work := work + Stmts(elseBody);
      }
      case S(While(condition, body)) => {
        work := work + [E(condition)];
        work := work + Stmts(body);
      }
      case S(For(binder, iter, body)) => {
        names := names + {binder};
        work := work + [E(iter)];
        work := work + Stmts(body);
      }
      case S(FnDef(name, params, code)) => {
        names := names + {name};
        names := names + (set p | p in params);
        work := work + Stmts(code.stmts);
      }
      case S(TryCatch(tryBody, binder, catchBody)) => {
        names := names + {binder};
        work := work + Stmts(tryBody);
        work := work + Stmts(catchBody);
      }
      case S(Break) => {
      }
      case S(Continue) => {
      }
      case S(Import(_)) => {
      }
      case E(Ident(name)) => {
        names := names + {name};
      }
      case E(ListLit(items)) => {
        work := work + Exprs(items);
      }
      case E(DictLit(pairs)) => {
        work := PushPairs(pairs, work);
      }
      case E(Binary(left, _, right)) => {
        work := work + [E(left)];
        work := work + [E(right)];
      }
      case E(Unary(_, operand)) => {
        work := work + [E(operand)];
      }
      case E(Call(callee, args)) => {
        work := work + [E(callee)];
        work := work + Exprs(args);
      }
      case E(Lambda(params, code)) => {
        names := names + (set p | p in params);
        work := work + Stmts(code.stmts);
      }
      case E(Index(base, index)) => {
        work := work + [E(base)];
        work := work + [E(index)];
      }
      case E(FStr(parts)) => {
        var literals;
        literals, work := PushParts(parts, work);
      }
      case E(_) => {
      }
    }
  }

  // ----- Recursion over shared accumulators -----

  function NearCost(ns: seq<Node>): nat { Cost(Near(ns)) }

  lemma NearCostAppend(a: seq<Node>, b: seq<Node>)
    ensures NearCost(a + b) == NearCost(a) + NearCost(b)
  {
    hide Near, Cost;
    NearAppend(a, b);
    CostAppend(Near(a), Near(b));
  }

  lemma NearCostNone()
    ensures NearCost([]) == 0
  {
  }

  lemma NearOnce(n: Node)
    ensures Near([n]) == [n] + Near(Kids(n))
  {
    hide Kids;
    assert [n][1..] == [];
    assert [n] + Near(Kids(n)) + [] == [n] + Near(Kids(n));
  }

  /** What one node adds: its children, then the body it carries, then its own cost. */
  lemma NodeAdds(n: Node, w: Cut)
    ensures Walk([n], w) == Meet(Closure(n), Walk(Kids(n), w))
    ensures NearCost([n]) == NodeCost(n) + NearCost(Kids(n))
  {
    hide Near, Cost, Kids, Closure, Meet, NodeCost;
    WalkOne(n, w);
    NearOnce(n);
    CostAppend([n], Near(Kids(n)));
    CostSingle(n);
  }

  lemma TwoParts(a: seq<Node>, b: seq<Node>, w: Cut)
    ensures Walk(a + b, w) == Walk(b, Walk(a, w)) && NearCost(a + b) == NearCost(a) + NearCost(b)
  {
    hide Walk, NearCost;
    WalkAppend(a, b, w);
    NearCostAppend(a, b);
  }

  lemma NoParts(w: Cut)
    ensures Walk([], w) == w && NearCost([]) == 0
  {
    hide NearCost;
    NearCostNone();
  }

  datatype Unit = Unit(body: Block, bytes: U64)

  /** The bodies of a cut, each with the cost of the nodes it owns. */
  function Priced(bs: seq<Block>): seq<Unit> {
    if bs == [] then []
    else Priced(bs[..|bs| - 1]) + [Unit(bs[|bs| - 1], Saturate(NearCost(Stmts(bs[|bs| - 1].stmts))))]
  }

  lemma PricedSnoc(bs: seq<Block>, b: Block)
    ensures Priced(bs + [b]) == Priced(bs) + [Unit(b, Saturate(NearCost(Stmts(b.stmts))))]
  {
    assert (bs + [b])[..|bs|] == bs;
  }

  function Identities(bs: seq<Block>): (r: seq<nat>)
    ensures |r| == |bs| && forall i :: 0 <= i < |r| ==> r[i] == bs[i].id
  {
    seq(|bs|, i requires 0 <= i < |bs| => bs[i].id)
  }

  method AddNode(subtotal: U64, owned: U64, ghost known: nat, ghost n: Node) returns (r: U64)
    requires subtotal == Saturate(known) && owned == Saturate(OwnedBytes(n))
    ensures r == Saturate(known + NodeCost(n))
  {
    r := SatAdd(subtotal, SatAdd(64, owned));
  }

  /** `ast_closure_body_sizes`: one subtotal per owner, bodies listed as they are finished. */
  class BodySplitter {
    var bodies: seq<Unit>
    var seen: set<nat>
    ghost var cut: Cut

    ghost predicate Valid()
      reads this
    {
      seen == cut.seen && bodies == Priced(cut.units)
    }

    constructor ()
      ensures Valid() && cut == NOTHING
    {
      bodies, seen, cut := [], {}, NOTHING;
    }

    method WalkStmts(stmts: seq<Stmt>, start: U64, ghost known: nat) returns (subtotal: U64)
      requires Valid() && start == Saturate(known)
      modifies this
      ensures Valid() && cut == Walk(Stmts(stmts), old(cut))
      ensures subtotal == Saturate(known + NearCost(Stmts(stmts)))
      decreases stmts
    {
      hide Walk, NearCost, Priced, Saturate;
      subtotal := start;
      NoParts(cut);
      for i := 0 to |stmts|
        invariant Valid() && cut == Walk(Stmts(stmts[..i]), old(cut))
        invariant subtotal == Saturate(known + NearCost(Stmts(stmts[..i])))
      {
        ghost var now := known + NearCost(Stmts(stmts[..i]));
        subtotal := WalkStmt(stmts[i], subtotal, now);
        assert stmts[..i + 1][..i] == stmts[..i];
        assert Stmts(stmts[..i + 1]) == Stmts(stmts[..i]) + [S(stmts[i])];
        TwoParts(Stmts(stmts[..i]), [S(stmts[i])], old(cut));
      }
      assert stmts[..|stmts|] == stmts;
    }

    method WalkExprs(exprs: seq<Expr>, start: U64, ghost known: nat) returns (subtotal: U64)
      requires Valid() && start == Saturate(known)
      modifies this
      ensures Valid() && cut == Walk(Exprs(exprs), old(cut))
      ensures subtotal == Saturate(known + NearCost(Exprs(exprs)))
      decreases exprs
    {
      hide Walk, NearCost, Priced, Saturate;
      subtotal := start;
      NoParts(cut);
      for i := 0 to |exprs|
        invariant Valid() && cut == Walk(Exprs(exprs[..i]), old(cut))
        invariant subtotal == Saturate(known + NearCost(Exprs(exprs[..i])))
      {
        ghost var now := known + NearCost(Exprs(exprs[..i]));
        subtotal := WalkExpr(exprs[i], subtotal, now);
        assert exprs[..i + 1][..i] == exprs[..i];
        assert Exprs(exprs[..i + 1]) == Exprs(exprs[..i]) + [E(exprs[i])];
        TwoParts(Exprs(exprs[..i]), [E(exprs[i])], old(cut));
      }
      assert exprs[..|exprs|] == exprs;
    }

    method WalkPairs(pairs: seq<Pair>, start: U64, ghost known: nat) returns (subtotal: U64)
      requires Valid() && start == Saturate(known)
      modifies this
      ensures Valid() && cut == Walk(PairKids(pairs), old(cut))
      ensures subtotal == Saturate(known + NearCost(PairKids(pairs)))
      decreases pairs
    {
      hide Walk, NearCost, Priced, Saturate;
      subtotal := start;
      NoParts(cut);
      for i := 0 to |pairs|
        invariant Valid() && cut == Walk(PairKids(pairs[..i]), old(cut))
        invariant subtotal == Saturate(known + NearCost(PairKids(pairs[..i])))
      {
        ghost var now := known + NearCost(PairKids(pairs[..i]));
        subtotal := WalkPair(pairs[i], subtotal, now);
        assert pairs[..i + 1][..i] == pairs[..i];
        TwoParts(PairKids(pairs[..i]), [E(pairs[i].key), E(pairs[i].value)], old(cut));
      }
      assert pairs[..|pairs|] == pairs;
    }

    method WalkPair(pair: Pair, start: U64, ghost known: nat) returns (subtotal: U64)
      requires Valid() && start == Saturate(known)
      modifies this
      ensures Valid() && cut == Walk([E(pair.key), E(pair.value)], old(cut))
      ensures subtotal == Saturate(known + NearCost([E(pair.key), E(pair.value)]))
      decreases pair
    {
      hide Walk, NearCost, Priced, Saturate;
      subtotal := WalkExpr(pair.key, start, known);
      subtotal := WalkExpr(pair.value, subtotal, known + NearCost([E(pair.key)]));
      TwoParts([E(pair.key)], [E(pair.value)], old(cut));
      assert [E(pair.key)] + [E(pair.value)] == [E(pair.key), E(pair.value)];
    }

    method WalkPart(part: FPart, start: U64, ghost known: nat, sofar: U64, ghost knownOwned: nat)
      returns (subtotal: U64, owned: U64)
      requires Valid() && start == Saturate(known) && sofar == Saturate(knownOwned)
      modifies this
      ensures Valid() && cut == Walk(PartKid(part), old(cut))
      ensures subtotal == Saturate(known + NearCost(PartKid(part)))
      ensures owned == Saturate(knownOwned + if part.Literal? then |part.text| else 0)
      decreases part
    {
      hide Walk, NearCost, Priced, Saturate, SatAdd;
      NoParts(cut);
      subtotal, owned := start, sofar;
      match part {
        case Literal(text) => {
          owned := AddOwned(owned, text, knownOwned);
        }
        case Hole(child) => {
          subtotal := WalkExpr(child, subtotal, known);
        }
      }
    }

    method WalkParts(parts: seq<FPart>, start: U64, ghost known: nat) returns (subtotal: U64, owned: U64)
      requires Valid() && start == Saturate(known)
      modifies this
      ensures Valid() && cut == Walk(PartKids(parts), old(cut))
      ensures subtotal == Saturate(known + NearCost(PartKids(parts)))
      decreases parts
      ensures owned == Saturate(Literals(parts))
    {
      hide Walk, NearCost, Priced, Saturate, SatAdd;
      NothingSaturates();
      subtotal, owned := start, 0;
      NoParts(cut);
      for i := 0 to |parts|
        invariant Valid() && cut == Walk(PartKids(parts[..i]), old(cut))
        invariant subtotal == Saturate(known + NearCost(PartKids(parts[..i])))
        invariant owned == Saturate(Literals(parts[..i]))
      {
        assert parts[..i + 1][..i] == parts[..i];
        TwoParts(PartKids(parts[..i]), PartKid(parts[i]), old(cut));
        subtotal, owned := WalkPart(parts[i], subtotal, known + NearCost(PartKids(parts[..i])), owned, Literals(parts[..i]));
      }
      assert parts[..|parts|] == parts;
    }

    method WalkStmt(stmt: Stmt, start: U64, ghost known: nat) returns (subtotal: U64)
      requires Valid() && start == Saturate(known)
      modifies this
      ensures Valid() && cut == Walk([S(stmt)], old(cut))
      ensures subtotal == Saturate(known + NearCost([S(stmt)]))
      decreases stmt
    {
      hide Walk, NearCost, Priced, Saturate, SatAdd, Record, Literals, TotalBytes, Stmts, Exprs, PairKids, PartKids;
      NothingSaturates();
      NoParts(cut);
      NodeAdds(S(stmt), cut);
      subtotal := start;
      var owned: U64 := 0;
      match stmt {
        case Let(name, value) => {
          owned := AddOwned(owned, name, 0);
          subtotal := WalkExpr(value, subtotal, known);
        }
        case Assign(name, value) => {
          owned := AddOwned(owned, name, 0);
          subtotal := WalkExpr(value, subtotal, known);
        }
        case IndexAssign(name, index, value) => {
          owned := AddOwned(owned, name, 0);
          subtotal := WalkExpr(index, subtotal, known);
          subtotal := WalkExpr(value, subtotal, known + NearCost([E(index)]));
          TwoParts([E(index)], [E(value)], old(cut));
          assert [E(index)] + [E(value)] == [E(index), E(value)];
        }
        case Return(value) => {
          subtotal := WalkExpr(value, subtotal, known);
        }
        case ExprStmt(value) => {
          subtotal := WalkExpr(value, subtotal, known);
        }
        case If(condition, thenBody, elseBody) => {
          subtotal := WalkExpr(condition, subtotal, known);
          subtotal := WalkStmts(thenBody, subtotal, known + NearCost([E(condition)]));
          TwoParts([E(condition)], Stmts(thenBody), old(cut));
          subtotal := WalkStmts(elseBody, subtotal, known + NearCost([E(condition)] + Stmts(thenBody)));
          TwoParts([E(condition)] + Stmts(thenBody), Stmts(elseBody), old(cut));
        }
        case While(condition, body) => {
          subtotal := WalkExpr(condition, subtotal, known);
          subtotal := WalkStmts(body, subtotal, known + NearCost([E(condition)]));
          TwoParts([E(condition)], Stmts(body), old(cut));
        }
        case For(binder, iter, body) => {
          owned := AddOwned(owned, binder, 0);
          subtotal := WalkExpr(iter, subtotal, known);
          subtotal := WalkStmts(body, subtotal, known + NearCost([E(iter)]));
          TwoParts([E(iter)], Stmts(body), old(cut));
        }
        case FnDef(name, params, code) => {
          owned := AddOwned(owned, name, 0);
          owned := OwnedLength(params, owned, |name|);
          RecordBody(code);
        }
        case Import(path) => {
          owned := AddOwned(owned, path, 0);
        }
        case TryCatch(tryBody, binder, catchBody) => {
          owned := AddOwned(owned, binder, 0);
          subtotal := WalkStmts(tryBody, subtotal, known);
          subtotal := WalkStmts(catchBody, subtotal, known + NearCost(Stmts(tryBody)));
          TwoParts(Stmts(tryBody), Stmts(catchBody), old(cut));
        }
        case Break => {
        }
        case Continue => {
        }
      }
      subtotal := AddNode(subtotal, owned, known + NearCost(Kids(S(stmt))), S(stmt));
    }

    method WalkExpr(expr: Expr, start: U64, ghost known: nat) returns (subtotal: U64)
      requires Valid() && start == Saturate(known)
      modifies this
      ensures Valid() && cut == Walk([E(expr)], old(cut))
      ensures subtotal == Saturate(known + NearCost([E(expr)]))
      decreases expr
    {
      hide Walk, NearCost, Priced, Saturate, SatAdd, Record, Literals, TotalBytes, Stmts, Exprs, PairKids, PartKids;
      NothingSaturates();
      NoParts(cut);
      NodeAdds(E(expr), cut);
      subtotal := start;
      var owned: U64 := 0;
      match expr {
        case StrLit(s) => {
          owned := AddOwned(owned, s, 0);
        }
        case Ident(name) => {
          owned := AddOwned(owned, name, 0);
        }
        case ListLit(items) => {
          subtotal := WalkExprs(items, subtotal, known);
        }
        case DictLit(pairs) => {
          subtotal := WalkPairs(pairs, subtotal, known);
        }
        case Binary(left, _, right) => {
          subtotal := WalkExpr(left, subtotal, known);
          subtotal := WalkExpr(right, subtotal, known + NearCost([E(left)]));
          TwoParts([E(left)], [E(right)], old(cut));
          assert [E(left)] + [E(right)] == [E(left), E(right)];
        }
        case Unary(_, operand) => {
          subtotal := WalkExpr(operand, subtotal, known);
        }
        case Call(callee, args) => {
          subtotal := WalkExpr(callee, subtotal, known);
          subtotal := WalkExprs(args, subtotal, known + NearCost([E(callee)]));
          TwoParts([E(callee)], Exprs(args), old(cut));
        }
        case Lambda(params, code) => {
          owned := OwnedLength(params, owned, 0);
          RecordBody(code);
        }
        case Index(base, index) => {
          subtotal := WalkExpr(base, subtotal, known);
          subtotal := WalkExpr(index, subtotal, known + NearCost([E(base)]));
          TwoParts([E(base)], [E(index)], old(cut));
          assert [E(base)] + [E(index)] == [E(base), E(index)];
        }
        case FStr(parts) => {
          subtotal, owned := WalkParts(parts, subtotal, known);
        }
        case IntLit(_) => {
        }
        case FloatLit(_) => {
        }
        case BoolLit(_) => {
        }
        case NullLit => {
        }
      }
      subtotal := AddNode(subtotal, owned, known + NearCost(Kids(E(expr))), E(expr));
    }

    method RecordBody(code: Block)
      requires Valid()
      modifies this
      ensures Valid() && cut == Record(code, old(cut))
      decreases code
    {
      hide Walk, NearCost, Priced;
      if code.id in seen {
        return;
      }
      seen := seen + {code.id};
      cut := Cut(cut.seen + {code.id}, cut.entered + [code], cut.units);
      NothingSaturates();
      var bytes := WalkStmts(code.stmts, 0, 0);
      PricedSnoc(cut.units, code);
      bodies := bodies + [Unit(code, bytes)];
      cut := cut.(units := cut.units + [code]);
    }
  }

  /** The sizes of a program's root and of each of its closure bodies. */
  method AstClosureBodySizes(program: seq<Stmt>) returns (root: U64, bodies: seq<Unit>)
    ensures root == Saturate(AST_ROOT + Cost(Near(Stmts(program))))
    ensures bodies == Priced(CutOf(program).units)
  {
    hide Walk, Near, Cost, Priced, Stmts;
    var splitter := new BodySplitter();
    root := splitter.WalkStmts(program, AST_ROOT, AST_ROOT);
    bodies := splitter.bodies;
  }

  /** `closure_body_subtree_ptrs`: the identities of a body and of all bodies inside it, each when it is first met. */
  class BodyCollector {
    var ptrs: seq<nat>
    var seen: set<nat>
    ghost var cut: Cut

    ghost predicate Valid()
      reads this
    {
      seen == cut.seen && ptrs == Identities(cut.entered)
    }

    constructor ()
      ensures Valid() && cut == NOTHING
    {
      ptrs, seen, cut := [], {}, NOTHING;
    }

    method CollectStmts(stmts: seq<Stmt>)
      requires Valid()
      modifies this
      ensures Valid() && cut == Walk(Stmts(stmts), old(cut))
      decreases stmts
    {
      hide Walk;
      NoParts(cut);
      for i := 0 to |stmts|
        invariant Valid() && cut == Walk(Stmts(stmts[..i]), old(cut))
      {
        CollectStmt(stmts[i]);
        assert stmts[..i + 1][..i] == stmts[..i];
        assert Stmts(stmts[..i + 1]) == Stmts(stmts[..i]) + [S(stmts[i])];
        TwoParts(Stmts(stmts[..i]), [S(stmts[i])], old(cut));
      }
      assert stmts[..|stmts|] == stmts;
    }

    method CollectExprs(exprs: seq<Expr>)
      requires Valid()
      modifies this
      ensures Valid() && cut == Walk(Exprs(exprs), old(cut))
      decreases exprs
    {
      hide Walk;
      NoParts(cut);
      for i := 0 to |exprs|
        invariant Valid() && cut == Walk(Exprs(exprs[..i]), old(cut))
      {
        CollectExpr(exprs[i]);
        assert exprs[..i + 1][..i] == exprs[..i];
        assert Exprs(exprs[..i + 1]) == Exprs(exprs[..i]) + [E(exprs[i])];
        TwoParts(Exprs(exprs[..i]), [E(exprs[i])], old(cut));
      }
      assert exprs[..|exprs|] == exprs;
    }

    method CollectPair(pair: Pair)
      requires Valid()
      modifies this
      ensures Valid() && cut == Walk([E(pair.key), E(pair.value)], old(cut))
      decreases pair
    {
      hide Walk;
      CollectExpr(pair.key);
      CollectExpr(pair.value);
      TwoParts([E(pair.key)], [E(pair.value)], old(cut));
      assert [E(pair.key)] + [E(pair.value)] == [E(pair.key), E(pair.value)];
    }

    method CollectPairs(pairs: seq<Pair>)
      requires Valid()
      modifies this
      ensures Valid() && cut == Walk(PairKids(pairs), old(cut))
      decreases pairs
    {
      hide Walk;
      NoParts(cut);
      for i := 0 to |pairs|
        invariant Valid() && cut == Walk(PairKids(pairs[..i]), old(cut))
      {
        CollectPair(pairs[i]);
        assert pairs[..i + 1][..i] == pairs[..i];
        TwoParts(PairKids(pairs[..i]), [E(pairs[i].key), E(pairs[i].value)], old(cut));
      }
      assert pairs[..|pairs|] == pairs;
    }

    method CollectPart(part: FPart)
      requires Valid()
      modifies this
      ensures Valid() && cut == Walk(PartKid(part), old(cut))
      decreases part
    {
      hide Walk;
      NoParts(cut);
      if part.Hole? {
        CollectExpr(part.expr);
      }
    }

    method CollectParts(parts: seq<FPart>)
      requires Valid()
      modifies this
      ensures Valid() && cut == Walk(PartKids(parts), old(cut))
      decreases parts
    {
      hide Walk;
      NoParts(cut);
      for i := 0 to |parts|
        invariant Valid() && cut == Walk(PartKids(parts[..i]), old(cut))
      {
        CollectPart(parts[i]);
        assert parts[..i + 1][..i] == parts[..i];
        TwoParts(PartKids(parts[..i]), PartKid(parts[i]), old(cut));
      }
      assert parts[..|parts|] == parts;
    }

    method CollectStmt(stmt: Stmt)
      requires Valid()
      modifies this
      ensures Valid() && cut == Walk([S(stmt)], old(cut))
      decreases stmt
    {
      hide Walk, NearCost, Record, Stmts, Exprs, PairKids, PartKids;
      NoParts(cut);
      NodeAdds(S(stmt), cut);
      match stmt {
        case Let(_, value) => {
          CollectExpr(value);
        }
        case Assign(_, value) => {
          CollectExpr(value);
        }
        case IndexAssign(_, index, value) => {
          CollectExpr(index);
          CollectExpr(value);
          TwoParts([E(index)], [E(value)], old(cut));
          assert [E(index)] + [E(value)] == [E(index), E(value)];
        }
        case Return(value) => {
          CollectExpr(value);
        }
        case ExprStmt(value) => {
          CollectExpr(value);
        }
        case If(condition, thenBody, elseBody) => {
          CollectExpr(condition);
          CollectStmts(thenBody);
          TwoParts([E(condition)], Stmts(thenBody), old(cut));
          CollectStmts(elseBody);
          TwoParts([E(condition)] + Stmts(thenBody), Stmts(elseBody), old(cut));
        }
        case While(condition, body) => {
          CollectExpr(condition);
          CollectStmts(body);
          TwoParts([E(condition)], Stmts(body), old(cut));
        }
        case For(_, iter, body) => {
          CollectExpr(iter);
          CollectStmts(body);
          TwoParts([E(iter)], Stmts(body), old(cut));
        }
        case FnDef(_, _, code) => {
          AddBody(code);
        }
        case Import(_) => {
        }
        case TryCatch(tryBody, _, catchBody) => {
          CollectStmts(tryBody);
          CollectStmts(catchBody);
          TwoParts(Stmts(tryBody), Stmts(catchBody), old(cut));
        }
        case Break => {
        }
        case Continue => {
        }
      }
    }

    method CollectExpr(expr: Expr)
      requires Valid()
      modifies this
      ensures Valid() && cut == Walk([E(expr)], old(cut))
      decreases expr
    {
      hide Walk, NearCost, Record, Stmts, Exprs, PairKids, PartKids;
      NoParts(cut);
      NodeAdds(E(expr), cut);
      match expr {
        case StrLit(_) => {
        }
        case Ident(_) => {
        }
        case ListLit(items) => {
          CollectExprs(items);
        }
        case DictLit(pairs) => {
          CollectPairs(pairs);
        }
        case Binary(left, _, right) => {
          CollectExpr(left);
          CollectExpr(right);
          TwoParts([E(left)], [E(right)], old(cut));
          assert [E(left)] + [E(right)] == [E(left), E(right)];
        }
        case Unary(_, operand) => {
          CollectExpr(operand);
        }
        case Call(callee, args) => {
          CollectExpr(callee);
          CollectExprs(args);
          TwoParts([E(callee)], Exprs(args), old(cut));
        }
        case Lambda(_, code) => {
          AddBody(code);
        }
        case Index(base, index) => {
          CollectExpr(base);
          CollectExpr(index);
          TwoParts([E(base)], [E(index)], old(cut));
          assert [E(base)] + [E(index)] == [E(base), E(index)];
        }
        case FStr(parts) => {
          CollectParts(parts);
        }
        case IntLit(_) => {
        }
        case FloatLit(_) => {
        }
        case BoolLit(_) => {
        }
        case NullLit => {
        }
      }
    }

    method AddBody(code: Block)
      requires Valid()
      modifies this
      ensures Valid() && cut == Record(code, old(cut))
      decreases code
    {
      hide Walk;
      if code.id in seen {
        return;
      }
      seen := seen + {code.id};
      assert Identities(cut.entered + [code]) == Identities(cut.entered) + [code.id];
      ptrs := ptrs + [code.id];
      cut := Cut(cut.seen + {code.id}, cut.entered + [code], cut.units);
      CollectStmts(code.stmts);
      cut := cut.(units := cut.units + [code]);
    }
  }

  /** What a closure over a body keeps alive. */
  method ClosureBodySubtreePtrs(code: Block) returns (ptrs: seq<nat>)
    ensures ptrs == Identities(Record(code, NOTHING).entered)
  {
    var collector := new BodyCollector();
    collector.AddBody(code);
    ptrs := collector.ptrs;
  }

  // ----- The parts as they are charged -----

  function TotalUnits(us: seq<Unit>): nat { if us == [] then 0 else TotalUnits(us[..|us| - 1]) + us[|us| - 1].bytes }

  /** Where the whole does not saturate, each part is its true size. */
  lemma {:induction false} PricedTotal(bs: seq<Block>)
    requires Cost(OwnedIn(bs)) <= MAX_U64
    ensures TotalUnits(Priced(bs)) == Cost(OwnedIn(bs))
  {
    hide Near, Cost;
    if bs == [] {
      NoCost();
    } else {
      var init, last := bs[..|bs| - 1], Near(Stmts(bs[|bs| - 1].stmts));
      CostAppend(OwnedIn(init), last);
      PricedTotal(init);
    }
  }

  /** The parts a program is charged in add up to its whole size when its bodies are distinct, and never to more. */
  lemma PartsMakeTheWhole(p: seq<Stmt>)
    requires AST_ROOT + Cost(Flat(Stmts(p))) <= MAX_U64
    ensures
      var parts := Saturate(AST_ROOT + Cost(Near(Stmts(p)))) + TotalUnits(Priced(CutOf(p).units));
      var whole := Saturate(AST_ROOT + Cost(Flat(Stmts(p))));
      parts <= whole && (Distinct(Flat(Stmts(p))) ==> parts == whole)
  {
    hide Flat, Near, Cost, Walk, OwnedIn, Distinct, CutOf;
    OwnersNeverOvercount(p);
    PricedTotal(CutOf(p).units);
    if Distinct(Flat(Stmts(p))) {
      OwnersPartitionTheTree(p);
    }
  }
}

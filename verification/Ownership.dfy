/** Who owns the syntax tree (`src/ast.rs`, `ast_heap_size`, `ast_closure_body_sizes`, `closure_body_subtree_ptrs`):
    the walk that cuts a program into its root and its distinct closure bodies puts every node under exactly one
    owner, so the charged parts add up to the cost of the whole. */
module Ownership {
  import opened Syntax

  const MAX_U64 := 0xffff_ffff_ffff_ffff

  type U64 = n: nat | n <= MAX_U64 witness 0

  function Saturate(n: nat): U64 { if n <= MAX_U64 then n else MAX_U64 }

  // ----- Costs -----

  const AST_ROOT: U64 := 64

  function NodeCost(n: Node): nat { 64 + OwnedBytes(n) }

  function Cost(ns: seq<Node>): nat { if ns == [] then 0 else NodeCost(ns[0]) + Cost(ns[1..]) }

  lemma {:induction false} CostAppend(a: seq<Node>, b: seq<Node>)
    ensures Cost(a + b) == Cost(a) + Cost(b)
  {
    hide NodeCost;
    if a == [] {
      assert a + b == b;
    } else {
      assert (a + b)[1..] == a[1..] + b;
      CostAppend(a[1..], b);
    }
  }

  lemma {:induction false} CostReordered(a: seq<Node>, b: seq<Node>)
    requires multiset(a) <= multiset(b)
    ensures Cost(a) <= Cost(b)
    ensures multiset(a) == multiset(b) ==> Cost(a) == Cost(b)
  {
    hide NodeCost;
    if a != [] {
      var x := a[0];
      assert a == [x] + a[1..];
      assert multiset(a) == multiset{x} + multiset(a[1..]);
      assert x in multiset(a);
      var rest := CostWithout(b, x);
      assert multiset(a[1..]) == multiset(a) - multiset{x} && multiset(rest) == multiset(b) - multiset{x};
      CostReordered(a[1..], rest);
    } else if multiset(a) == multiset(b) {
      assert |multiset(b)| == |b|;
    }
  }

  lemma CostWithout(b: seq<Node>, x: Node) returns (rest: seq<Node>)
    requires x in multiset(b)
    ensures multiset(b) == multiset(rest) + multiset{x} && Cost(b) == Cost(rest) + NodeCost(x)
  {
    hide NodeCost;
    var i :| 0 <= i < |b| && b[i] == x;
    var front, back := b[..i], b[i + 1..];
    rest := front + back;
    assert b == front + ([x] + back);
    assert multiset(b) == multiset(front) + (multiset{x} + multiset(back));
    CostAppend(front, [x] + back);
    CostAppend(front, back);
    assert ([x] + back)[1..] == back;
  }

  // ----- The cut -----

  /** The bodies met so far: those entered, in order, those finished, in order, and the identities of all of them. */
  datatype Cut = Cut(seen: set<nat>, entered: seq<Block>, units: seq<Block>)

  const NOTHING := Cut({}, [], [])

  /** Walks a list of nodes, cutting out each closure body the first time it is met. */
  function Walk(ns: seq<Node>, w: Cut): Cut
    decreases SizeAll(ns), 1
  {
    if ns == [] then w else
      SizeInside(ns[0]);
      Walk(ns[1..], Meet(Closure(ns[0]), Walk(Kids(ns[0]), w)))
  }

  function Meet(body: Option<Block>, w: Cut): Cut
    decreases if body.Some? then SizeAll(Stmts(body.value.stmts)) else 0, 3
  {
    match body
    case None => w
    case Some(b) => Record(b, w)
  }

  function Record(b: Block, w: Cut): Cut
    decreases SizeAll(Stmts(b.stmts)), 2
  {
    if b.id in w.seen then w else
      var u := Walk(Stmts(b.stmts), Cut(w.seen + {b.id}, w.entered + [b], w.units));
      u.(units := u.units + [b])
  }

  lemma {:induction false} WalkAppend(a: seq<Node>, b: seq<Node>, w: Cut)
    ensures Walk(a + b, w) == Walk(b, Walk(a, w))
    decreases |a|
  {
    if a == [] {
      assert a + b == b;
    } else {
      assert (a + b)[1..] == a[1..] + b;
      WalkAppend(a[1..], b, Meet(Closure(a[0]), Walk(Kids(a[0]), w)));
    }
  }

  lemma WalkOne(n: Node, w: Cut)
    ensures Walk([n], w) == Meet(Closure(n), Walk(Kids(n), w))
  {
  }

  // ----- Identities -----

  function IdsOf(ns: seq<Node>): set<nat> { set n | n in ns && Closure(n).Some? :: Closure(n).value.id }

  function BlockIds(bs: seq<Block>): set<nat> { set b | b in bs :: b.id }

  predicate Occurs(b: Block, ns: seq<Node>) { exists n :: n in ns && Closure(n) == Some(b) }

  /** No two nodes carry bodies with the same backing. */
  predicate Distinct(ns: seq<Node>) {
    forall i, j :: 0 <= i < j < |ns| && Closure(ns[i]).Some? && Closure(ns[j]).Some? ==>
      Closure(ns[i]).value.id != Closure(ns[j]).value.id
  }

  predicate DistinctBlocks(bs: seq<Block>) { forall i, j :: 0 <= i < j < |bs| ==> bs[i].id != bs[j].id }

  /** One backing, one body. */
  predicate Coherent(ns: seq<Node>, content: map<nat, seq<Stmt>>) {
    forall n :: n in ns && Closure(n).Some? ==>
      Closure(n).value.id in content && content[Closure(n).value.id] == Closure(n).value.stmts
  }

  lemma DistinctAppend(a: seq<Node>, b: seq<Node>)
    requires Distinct(a + b)
    ensures Distinct(a) && Distinct(b) && IdsOf(a) !! IdsOf(b)
  {
    var ab := a + b;
    assert forall i :: 0 <= i < |a| ==> ab[i] == a[i];
    assert forall i :: 0 <= i < |b| ==> ab[|a| + i] == b[i];
    forall i, j | 0 <= i < j < |b| && Closure(b[i]).Some? && Closure(b[j]).Some?
      ensures Closure(b[i]).value.id != Closure(b[j]).value.id
    {
      assert ab[|a| + i] == b[i] && ab[|a| + j] == b[j];
    }
    forall m, n | m in a && n in b && Closure(m).Some? && Closure(n).Some?
      ensures Closure(m).value.id != Closure(n).value.id
    {
      var i :| 0 <= i < |a| && a[i] == m;
      var j :| 0 <= j < |b| && b[j] == n;
      assert ab[i] == m && ab[|a| + j] == n;
    }
  }

  lemma IdsAppend(a: seq<Node>, b: seq<Node>)
    ensures IdsOf(a + b) == IdsOf(a) + IdsOf(b)
  {
  }

  /** The nodes below a list, cut at its first node: the node, what is below it in its own owner, its closure body,
      and the others. */
  lemma FlatUnfold(ns: seq<Node>)
    requires ns != []
    ensures
      var n := ns[0];
      Flat(ns) == [n] + Flat(Kids(n)) + BodyFlat(Closure(n)) + Flat(ns[1..])
  {
    hide Flat, Inside, Kids;
    var n := ns[0];
    FlatOnce(ns);
    InsideOf(n);
    if Closure(n).Some? {
      FlatAppend(Kids(n), Stmts(Closure(n).value.stmts));
      assert [n] + (Flat(Kids(n)) + BodyFlat(Closure(n))) == [n] + Flat(Kids(n)) + BodyFlat(Closure(n));
    } else {
      assert [n] + Flat(Kids(n)) + [] == [n] + Flat(Kids(n));
    }
  }

  lemma FlatOnce(ns: seq<Node>)
    requires ns != []
    ensures Flat(ns) == [ns[0]] + Flat(Inside(ns[0])) + Flat(ns[1..])
  {
    hide Inside, Kids;
  }

  lemma InsideOf(n: Node)
    ensures Closure(n).None? ==> Inside(n) == Kids(n)
    ensures Closure(n).Some? ==> Inside(n) == Kids(n) + Stmts(Closure(n).value.stmts)
  {
    hide Kids;
  }

  function BodyFlat(body: Option<Block>): seq<Node> {
    match body
    case None => []
    case Some(b) => Flat(Stmts(b.stmts))
  }

  // ----- Every node under one owner -----

  /** The nodes owned by bodies of a list. */
  function OwnedIn(bs: seq<Block>): seq<Node> {
    if bs == [] then [] else OwnedIn(bs[..|bs| - 1]) + Near(Stmts(bs[|bs| - 1].stmts))
  }

  lemma {:induction false} OwnedAppend(a: seq<Block>, b: seq<Block>)
    ensures OwnedIn(a + b) == OwnedIn(a) + OwnedIn(b)
  {
    hide Near;
    if b == [] {
      assert a + b == a;
    } else {
      assert (a + b)[..|a + b| - 1] == a + b[..|b| - 1];
      OwnedAppend(a, b[..|b| - 1]);
      var last := Near(Stmts(b[|b| - 1].stmts));
      assert OwnedIn(a) + (OwnedIn(b[..|b| - 1]) + last) == (OwnedIn(a) + OwnedIn(b[..|b| - 1])) + last;
    }
  }

  /** A walk only adds: to the identities, those of the nodes below; to the lists, at their ends. */
  lemma {:induction false} WalkAdds(ns: seq<Node>, w: Cut)
    ensures
      var u := Walk(ns, w);
      w.seen <= u.seen <= w.seen + IdsOf(Flat(ns)) && w.entered <= u.entered && w.units <= u.units
    decreases SizeAll(ns), 1
  {
    hide Flat;
    if ns != [] {
      var n := ns[0];
      SizeInside(n);
      FlatUnfold(ns);
      var kids := Walk(Kids(n), w);
      WalkAdds(Kids(n), w);
      var met := Meet(Closure(n), kids);
      if Closure(n).Some? {
        RecordAdds(Closure(n).value, kids);
      }
      WalkAdds(ns[1..], met);
      IdsAppend([n], Flat(Kids(n)));
      IdsAppend([n] + Flat(Kids(n)), BodyFlat(Closure(n)));
      IdsAppend([n] + Flat(Kids(n)) + BodyFlat(Closure(n)), Flat(ns[1..]));
    }
  }

  lemma {:induction false} RecordAdds(b: Block, w: Cut)
    ensures
      var u := Record(b, w);
      && w.seen + {b.id} <= u.seen <= w.seen + {b.id} + IdsOf(Flat(Stmts(b.stmts)))
      && w.entered <= u.entered && w.units <= u.units
    decreases SizeAll(Stmts(b.stmts)), 2
  {
    hide Flat;
    if b.id !in w.seen {
      WalkAdds(Stmts(b.stmts), Cut(w.seen + {b.id}, w.entered + [b], w.units));
    }
  }

  function Added(w: Cut, u: Cut): seq<Block>
    requires w.units <= u.units
  {
    u.units[|w.units|..]
  }

  /** The nodes a walk puts under an owner: the one at hand, or a body it cuts out. */
  ghost function Placed(ns: seq<Node>, w: Cut): multiset<Node> {
    WalkAdds(ns, w);
    multiset(Near(ns)) + multiset(OwnedIn(Added(w, Walk(ns, w))))
  }

  ghost function PlacedBy(b: Block, w: Cut): multiset<Node> {
    RecordAdds(b, w);
    multiset(OwnedIn(Added(w, Record(b, w))))
  }

  lemma AddedTwice(w: Cut, v: Cut, u: Cut)
    requires w.units <= v.units <= u.units
    ensures OwnedIn(Added(w, u)) == OwnedIn(Added(w, v)) + OwnedIn(Added(v, u))
  {
    hide OwnedIn;
    assert Added(w, u) == Added(w, v) + Added(v, u);
    OwnedAppend(Added(w, v), Added(v, u));
  }

  lemma PlacedUnfold(ns: seq<Node>, w: Cut)
    requires ns != []
    ensures
      var n, kids := ns[0], Walk(Kids(ns[0]), w);
      var met := Meet(Closure(n), kids);
      Placed(ns, w) == multiset{n} + Placed(Kids(n), w)
                       + (if Closure(n).Some? then PlacedBy(Closure(n).value, kids) else multiset{}) + Placed(ns[1..], met)
  {
    hide OwnedIn, Record;
    var n, kids := ns[0], Walk(Kids(ns[0]), w);
    var met, u := Meet(Closure(n), kids), Walk(ns, w);
    WalkAdds(Kids(n), w);
    if Closure(n).Some? {
      RecordAdds(Closure(n).value, kids);
    }
    WalkAdds(ns[1..], met);
    AddedTwice(w, kids, u);
    AddedTwice(kids, met, u);
    if Closure(n).None? {
      assert Added(kids, met) == [];
      OwnedNothing();
    }
  }

  lemma OwnedNothing()
    ensures OwnedIn([]) == []
  {
  }

  lemma PlacedByUnfold(b: Block, w: Cut)
    requires b.id !in w.seen
    ensures PlacedBy(b, w) == Placed(Stmts(b.stmts), Cut(w.seen + {b.id}, w.entered + [b], w.units))
  {
    hide OwnedIn, Walk, Near;
    var start := Cut(w.seen + {b.id}, w.entered + [b], w.units);
    var u := Walk(Stmts(b.stmts), start);
    WalkAdds(Stmts(b.stmts), start);
    assert Added(w, Record(b, w)) == Added(start, u) + [b];
    OwnedAppend(Added(start, u), [b]);
    OwnedSingle(b);
  }

  lemma OwnedSingle(b: Block)
    ensures OwnedIn([b]) == Near(Stmts(b.stmts))
  {
    assert [b][..0] == [];
  }

  /** No node is placed twice; and where all identities are distinct and new, none is left out. */
  lemma {:induction false} PlacedOnce(ns: seq<Node>, w: Cut)
    ensures Placed(ns, w) <= multiset(Flat(ns))
    ensures Distinct(Flat(ns)) && IdsOf(Flat(ns)) !! w.seen ==> Placed(ns, w) == multiset(Flat(ns))
    decreases SizeAll(ns), 1
  {
    hide Flat, Near, OwnedIn, Record, Distinct, IdsOf, Placed, PlacedBy;
    if ns == [] {
      NothingPlaced(w);
    } else {
      var n, kids := ns[0], Walk(Kids(ns[0]), w);
      var met := Meet(Closure(n), kids);
      SizeInside(n);
      FlatUnfold(ns);
      PlacedUnfold(ns, w);
      PlacedOnce(Kids(n), w);
      if Closure(n).Some? {
        RecordedOnce(Closure(n).value, kids);
      }
      PlacedOnce(ns[1..], met);
      if Distinct(Flat(ns)) && IdsOf(Flat(ns)) !! w.seen {
        Apart(ns, w);
      }
    }
  }

  lemma NothingPlaced(w: Cut)
    ensures Placed([], w) == multiset(Flat([])) == multiset{}
  {
    assert Added(w, w) == [];
  }

  /** What is new when a list is walked is still new when each of its parts is. */
  lemma Apart(ns: seq<Node>, w: Cut)
    requires ns != [] && Distinct(Flat(ns)) && IdsOf(Flat(ns)) !! w.seen
    ensures
      var n, kids := ns[0], Walk(Kids(ns[0]), w);
      var met := Meet(Closure(n), kids);
      && Distinct(Flat(Kids(n))) && IdsOf(Flat(Kids(n))) !! w.seen
      && (Closure(n).Some? ==>
            var b := Closure(n).value;
            b.id !in kids.seen && b.id !in IdsOf(Flat(Stmts(b.stmts)))
            && Distinct(Flat(Stmts(b.stmts))) && IdsOf(Flat(Stmts(b.stmts))) !! kids.seen)
      && Distinct(Flat(ns[1..])) && IdsOf(Flat(ns[1..])) !! met.seen
  {
    hide Flat, Distinct, Walk, Record;
    var n, kids := ns[0], Walk(Kids(ns[0]), w);
    var met := Meet(Closure(n), kids);
    var a, b, c, d := [n], Flat(Kids(n)), BodyFlat(Closure(n)), Flat(ns[1..]);
    FlatUnfold(ns);
    DistinctAppend(a + b + c, d);
    DistinctAppend(a + b, c);
    DistinctAppend(a, b);
    IdsAppend(a + b + c, d);
    IdsAppend(a + b, c);
    IdsAppend(a, b);
    WalkAdds(Kids(n), w);
    if Closure(n).Some? {
      RecordAdds(Closure(n).value, kids);
      assert n in a;
    }
  }

  lemma {:induction false} RecordedOnce(b: Block, w: Cut)
    ensures PlacedBy(b, w) <= multiset(Flat(Stmts(b.stmts)))
    ensures
      (b.id !in w.seen && b.id !in IdsOf(Flat(Stmts(b.stmts))) && Distinct(Flat(Stmts(b.stmts)))
       && IdsOf(Flat(Stmts(b.stmts))) !! w.seen) ==> PlacedBy(b, w) == multiset(Flat(Stmts(b.stmts)))
    decreases SizeAll(Stmts(b.stmts)), 2
  {
    hide Flat, Near, OwnedIn, Walk, Distinct, IdsOf, Placed;
    if b.id in w.seen {
      assert Added(w, w) == [];
      OwnedNothing();
    } else {
      PlacedByUnfold(b, w);
      PlacedOnce(Stmts(b.stmts), Cut(w.seen + {b.id}, w.entered + [b], w.units));
    }
  }

  // ----- Every body once -----

  predicate Tidy(w: Cut, open: set<nat>) {
    && DistinctBlocks(w.entered) && BlockIds(w.entered) == w.seen
    && DistinctBlocks(w.units) && BlockIds(w.units) == w.seen - open && open <= w.seen
  }

  lemma DistinctSnoc(bs: seq<Block>, b: Block)
    requires DistinctBlocks(bs) && b.id !in BlockIds(bs)
    ensures DistinctBlocks(bs + [b]) && BlockIds(bs + [b]) == BlockIds(bs) + {b.id}
  {
    forall c | c in bs
      ensures c.id != b.id
    {
      assert c.id in BlockIds(bs);
    }
    assert b in bs + [b];
    assert forall c :: c in bs + [b] <==> c in bs || c == b;
  }

  lemma {:induction false} WalkTidy(ns: seq<Node>, w: Cut, open: set<nat>)
    requires Tidy(w, open)
    ensures Tidy(Walk(ns, w), open)
    decreases SizeAll(ns), 1
  {
    hide Tidy, Record;
    if ns != [] {
      SizeInside(ns[0]);
      WalkTidy(Kids(ns[0]), w, open);
      var kids := Walk(Kids(ns[0]), w);
      if Closure(ns[0]).Some? {
        RecordTidy(Closure(ns[0]).value, kids, open);
      }
      WalkTidy(ns[1..], Meet(Closure(ns[0]), kids), open);
    }
  }

  lemma {:induction false} RecordTidy(b: Block, w: Cut, open: set<nat>)
    requires Tidy(w, open)
    ensures Tidy(Record(b, w), open)
    decreases SizeAll(Stmts(b.stmts)), 2
  {
    hide Walk, DistinctBlocks, BlockIds;
    if b.id !in w.seen {
      var start := Cut(w.seen + {b.id}, w.entered + [b], w.units);
      DistinctSnoc(w.entered, b);
      assert start.seen - (open + {b.id}) == w.seen - open;
      WalkTidy(Stmts(b.stmts), start, open + {b.id});
      var u := Walk(Stmts(b.stmts), start);
      DistinctSnoc(u.units, b);
      assert u.seen - (open + {b.id}) + {b.id} == u.seen - open;
    }
  }

  /** Finished bodies have all the bodies inside them behind them. */
  predicate Settled(seen: set<nat>, open: set<nat>, content: map<nat, seq<Stmt>>) {
    forall id :: id in seen && id !in open ==> id in content && IdsOf(Flat(Stmts(content[id]))) <= seen
  }

  /** Bodies still being walked are larger than what is walked inside them. */
  predicate Larger(open: set<nat>, content: map<nat, seq<Stmt>>, size: nat) {
    forall id :: id in open ==> id in content && SizeAll(Stmts(content[id])) >= size
  }

  lemma {:induction false} WalkReaches(ns: seq<Node>, w: Cut, open: set<nat>, content: map<nat, seq<Stmt>>)
    requires Coherent(Flat(ns), content) && Settled(w.seen, open, content) && Larger(open, content, SizeAll(ns))
    ensures Walk(ns, w).seen == w.seen + IdsOf(Flat(ns)) && Settled(Walk(ns, w).seen, open, content)
    decreases SizeAll(ns), 1
  {
    hide Flat, IdsOf, Record, Settled;
    if ns == [] {
      NoIds();
    } else {
      var n, kids := ns[0], Walk(Kids(ns[0]), w);
      var met := Meet(Closure(n), kids);
      SizeInside(n);
      FlatUnfold(ns);
      WalkReaches(Kids(n), w, open, content);
      if Closure(n).Some? {
        var b := Closure(n).value;
        assert n in Flat(ns);
        assert b.id !in open;
        RecordReaches(b, kids, open, content);
      }
      WalkReaches(ns[1..], met, open, content);
      IdsUnfold(ns);
    }
  }

  lemma NoIds()
    ensures IdsOf(Flat([])) == {}
  {
  }

  lemma IdsUnfold(ns: seq<Node>)
    requires ns != []
    ensures
      var n := ns[0];
      IdsOf(Flat(ns)) == IdsOf(Flat(Kids(n))) + IdsOf(Flat(ns[1..]))
                         + (match Closure(n) case None => {} case Some(b) => {b.id} + IdsOf(Flat(Stmts(b.stmts))))
  {
    hide Flat, IdsOf;
    var n := ns[0];
    FlatUnfold(ns);
    IdsAppend([n], Flat(Kids(n)));
    IdsAppend([n] + Flat(Kids(n)), BodyFlat(Closure(n)));
    IdsAppend([n] + Flat(Kids(n)) + BodyFlat(Closure(n)), Flat(ns[1..]));
    IdsSingle(n);
  }

  lemma IdsSingle(n: Node)
    ensures IdsOf([n]) == (match Closure(n) case None => {} case Some(b) => {b.id})
    ensures IdsOf([]) == {}
  {
    assert n in [n];
  }

  lemma {:induction false} RecordReaches(b: Block, w: Cut, open: set<nat>, content: map<nat, seq<Stmt>>)
    requires b.id in content && content[b.id] == b.stmts && b.id !in open
    requires Coherent(Flat(Stmts(b.stmts)), content) && Settled(w.seen, open, content)
    requires Larger(open, content, SizeAll(Stmts(b.stmts)))
    ensures Record(b, w).seen == w.seen + {b.id} + IdsOf(Flat(Stmts(b.stmts)))
    ensures Settled(Record(b, w).seen, open, content)
    decreases SizeAll(Stmts(b.stmts)), 2
  {
    hide Flat, IdsOf, Walk, Coherent;
    if b.id !in w.seen {
      WalkReaches(Stmts(b.stmts), Cut(w.seen + {b.id}, w.entered + [b], w.units), open + {b.id}, content);
    }
  }

  /** Every body a walk lists is one that occurs below. */
  lemma {:induction false} WalkLists(ns: seq<Node>, w: Cut, b: Block)
    requires b in Walk(ns, w).units && b !in w.units
    ensures Occurs(b, Flat(ns))
    decreases SizeAll(ns), 1
  {
    hide Flat, Record;
    var n, kids := ns[0], Walk(Kids(ns[0]), w);
    var met := Meet(Closure(n), kids);
    SizeInside(n);
    FlatUnfold(ns);
    if b in kids.units {
      WalkLists(Kids(n), w, b);
    } else if b in met.units {
      RecordLists(Closure(n).value, kids, b);
      assert n in Flat(ns);
    } else {
      WalkLists(ns[1..], met, b);
    }
  }

  lemma {:induction false} RecordLists(c: Block, w: Cut, b: Block)
    requires b in Record(c, w).units && b !in w.units
    ensures b == c || Occurs(b, Flat(Stmts(c.stmts)))
    decreases SizeAll(Stmts(c.stmts)), 2
  {
    hide Flat, Walk;
    if b != c {
      WalkLists(Stmts(c.stmts), Cut(w.seen + {c.id}, w.entered + [c], w.units), b);
    }
  }

  /** A body that occurs below brings all its nodes with it. */
  lemma {:induction false} OccursInside(ns: seq<Node>, b: Block, m: Node)
    requires Occurs(b, Flat(ns)) && m in Flat(Stmts(b.stmts))
    ensures m in Flat(ns)
    decreases SizeAll(ns)
  {
    hide Flat;
    if ns == [] {
      NoFlat();
    } else {
      var n := ns[0];
      SizeInside(n);
      FlatUnfold(ns);
      var c :| c in Flat(ns) && Closure(c) == Some(b);
      if c in Flat(Kids(n)) {
        OccursInside(Kids(n), b, m);
      } else if c in Flat(ns[1..]) {
        OccursInside(ns[1..], b, m);
      } else if c != n {
        OccursInside(Stmts(Closure(n).value.stmts), b, m);
      }
    }
  }

  lemma NoFlat()
    ensures Flat([]) == []
  {
  }

  // ----- Main results -----

  function CutOf(p: seq<Stmt>): Cut { Walk(Stmts(p), NOTHING) }

  /** Each body gets one unit, whoever shares it: the units are distinct, are bodies of the program, and leave none
      out. */
  lemma EveryBodyOnce(p: seq<Stmt>, content: map<nat, seq<Stmt>>)
    requires Coherent(Flat(Stmts(p)), content)
    ensures DistinctBlocks(CutOf(p).units)
    ensures BlockIds(CutOf(p).units) == IdsOf(Flat(Stmts(p)))
    ensures forall b :: b in CutOf(p).units ==> Occurs(b, Flat(Stmts(p)))
  {
    hide Flat, Walk, IdsOf, Coherent, Occurs;
    assert Tidy(NOTHING, {});
    WalkTidy(Stmts(p), NOTHING, {});
    WalkReaches(Stmts(p), NOTHING, {}, content);
    assert CutOf(p).seen - {} == CutOf(p).seen;
    forall b | b in CutOf(p).units
      ensures Occurs(b, Flat(Stmts(p)))
    {
      WalkLists(Stmts(p), NOTHING, b);
    }
  }

  /** With distinct bodies every node of the program is owned exactly once, by the root or by one body. */
  lemma OwnersPartitionTheTree(p: seq<Stmt>)
    requires Distinct(Flat(Stmts(p)))
    ensures multiset(Flat(Stmts(p))) == multiset(Near(Stmts(p))) + multiset(OwnedIn(CutOf(p).units))
    ensures Cost(Flat(Stmts(p))) == Cost(Near(Stmts(p))) + Cost(OwnedIn(CutOf(p).units))
  {
    hide Flat, Near, Walk, OwnedIn, Distinct, IdsOf, Cost;
    PlacedOnce(Stmts(p), NOTHING);
    WalkAdds(Stmts(p), NOTHING);
    assert Added(NOTHING, CutOf(p)) == CutOf(p).units;
    var near, owned := Near(Stmts(p)), OwnedIn(CutOf(p).units);
    assert multiset(near + owned) == multiset(near) + multiset(owned);
    CostReordered(near + owned, Flat(Stmts(p)));
    CostAppend(near, owned);
  }

  /** With shared bodies the parts never add up to more than the whole. */
  lemma OwnersNeverOvercount(p: seq<Stmt>)
    ensures multiset(Near(Stmts(p))) + multiset(OwnedIn(CutOf(p).units)) <= multiset(Flat(Stmts(p)))
    ensures Cost(Near(Stmts(p))) + Cost(OwnedIn(CutOf(p).units)) <= Cost(Flat(Stmts(p)))
  {
    hide Flat, Near, Walk, OwnedIn, Distinct, IdsOf, Cost;
    PlacedOnce(Stmts(p), NOTHING);
    WalkAdds(Stmts(p), NOTHING);
    assert Added(NOTHING, CutOf(p)) == CutOf(p).units;
    var near, owned := Near(Stmts(p)), OwnedIn(CutOf(p).units);
    assert multiset(near + owned) == multiset(near) + multiset(owned);
    CostReordered(near + owned, Flat(Stmts(p)));
    CostAppend(near, owned);
  }

  /** What a closure keeps alive: its own body and every body inside it, each once. */
  lemma SubtreeIsComplete(b: Block, content: map<nat, seq<Stmt>>)
    requires b.id in content && content[b.id] == b.stmts && Coherent(Flat(Stmts(b.stmts)), content)
    ensures DistinctBlocks(Record(b, NOTHING).entered)
    ensures BlockIds(Record(b, NOTHING).entered) == {b.id} + IdsOf(Flat(Stmts(b.stmts)))
  {
    hide Flat, Walk, IdsOf, Coherent, Record;
    assert Tidy(NOTHING, {});
    RecordTidy(b, NOTHING, {});
    RecordReaches(b, NOTHING, {}, content);
  }

  /** Every body a closure of the program keeps alive is one that the cut of the program charged. */
  lemma SubtreeIsCharged(p: seq<Stmt>, b: Block, content: map<nat, seq<Stmt>>)
    requires Coherent(Flat(Stmts(p)), content) && Occurs(b, Flat(Stmts(p)))
    ensures BlockIds(Record(b, NOTHING).entered) <= BlockIds(CutOf(p).units)
  {
    hide Flat, Walk, Record, BlockIds;
    forall m | m in Flat(Stmts(b.stmts))
      ensures m in Flat(Stmts(p))
    {
      OccursInside(Stmts(p), b, m);
    }
    EveryBodyOnce(p, content);
    SubtreeIsComplete(b, content);
  }
}

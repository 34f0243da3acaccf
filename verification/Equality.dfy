/** Budgeted equality (`src/budget.rs`, `values_equal`): a worklist over pairs of shared nodes that never
    compares a pair twice, against the equality that `src/value.rs` defines by native recursion. */
module Equality {

  datatype Option<+T> = None | Some(value: T)

  // ----- Values on a shared heap -----

  datatype Scalar =
    | Int(n: int)
    | Float(r: real)
    | Infinite(negative: bool)
    | NaN
    | Bool(b: bool)
    | Null
    | Str(s: string)
    | Fn(id: nat)
    | Error(kind: nat, message: string, line: nat)

  /** A value: a scalar, or a reference to a list or dictionary that may be shared. */
  datatype Cell = Plain(scalar: Scalar) | ListRef(addr: nat) | DictRef(addr: nat)

  /** A dictionary iterates in key order, so its entries are a sequence. */
  datatype Object = ListObject(items: seq<Cell>) | DictObject(keys: seq<string>, values: seq<Cell>)

  type Heap = map<nat, Object>

  /** Equality of scalars: numbers are compared by value across types, and NaN equals nothing. */
  predicate ScalarEq(a: Scalar, b: Scalar) {
    match (a, b)
    case (NaN, _) => false
    case (_, NaN) => false
    case (Int(n), Float(r)) => n as real == r
    case (Float(r), Int(n)) => r == n as real
    case _ => a == b
  }

  /** Scalars that are finite numbers, and the number. */
  predicate Numeric(s: Scalar) { s.Int? || s.Float? }

  function Amount(s: Scalar): real
    requires Numeric(s)
  {
    if s.Int? then s.n as real else s.r
  }

  /** What it is for scalars to be equal: as numbers if both are, otherwise as the same scalar, which NaN is not. */
  predicate SameScalar(a: Scalar, b: Scalar) {
    if Numeric(a) && Numeric(b) then Amount(a) == Amount(b)
    else !Numeric(a) && !Numeric(b) && !a.NaN? && !b.NaN? && a == b
  }

  lemma ScalarEqIff(a: Scalar, b: Scalar)
    ensures ScalarEq(a, b) <==> SameScalar(a, b)
  {
  }

  function Children(o: Object): seq<Cell> {
    match o
    case ListObject(items) => items
    case DictObject(_, values) => values
  }

  predicate Refers(heap: Heap, c: Cell) {
    match c
    case Plain(_) => true
    case ListRef(addr) => addr in heap && heap[addr].ListObject?
    case DictRef(addr) => addr in heap && heap[addr].DictObject? && |heap[addr].keys| == |heap[addr].values|
  }

  /** References lead to objects of their kind, and `rank` decreases along them: copy-on-write never closes
      a cycle. */
  predicate WellFounded(heap: Heap, rank: map<nat, nat>) {
    && rank.Keys == heap.Keys
    && forall x, i :: x in heap && 0 <= i < |Children(heap[x])| ==> Lower(heap, rank, rank[x], Children(heap[x])[i])
  }

  predicate Lower(heap: Heap, rank: map<nat, nat>, bound: nat, c: Cell)
    requires rank.Keys == heap.Keys
  {
    Refers(heap, c) && (c.Plain? || rank[c.addr] < bound)
  }

  function Height(rank: map<nat, nat>, c: Cell): nat {
    if c.Plain? || c.addr !in rank then 0 else rank[c.addr] + 1
  }

  /** Two objects agree as far as they can be compared without looking into their children. */
  predicate SameOutline(a: Object, b: Object) {
    match (a, b)
    case (ListObject(xs), ListObject(ys)) => |xs| == |ys|
    case (DictObject(ks, xs), DictObject(ls, ys)) => ks == ls && |xs| == |ys|
    case _ => false
  }

  /** Equality as `PartialEq` computes it: sharing a node settles the matter, otherwise children decide. */
  predicate Equal(heap: Heap, rank: map<nat, nat>, a: Cell, b: Cell)
    requires WellFounded(heap, rank) && Refers(heap, a) && Refers(heap, b)
    decreases Height(rank, a), 0
  {
    match (a, b)
    case (Plain(s), Plain(t)) => ScalarEq(s, t)
    case (ListRef(x), ListRef(y)) => x == y || EqualObjects(heap, rank, x, y)
    case (DictRef(x), DictRef(y)) => x == y || EqualObjects(heap, rank, x, y)
    case _ => false
  }

  predicate EqualObjects(heap: Heap, rank: map<nat, nat>, x: nat, y: nat)
    requires WellFounded(heap, rank) && x in heap && y in heap
    decreases rank[x], 1
  {
    && SameOutline(heap[x], heap[y])
    && forall i {:trigger Children(heap[x])[i]} :: 0 <= i < |Children(heap[x])| ==>
         Lower(heap, rank, rank[x], Children(heap[x])[i]) && Lower(heap, rank, rank[y], Children(heap[y])[i])
         && Equal(heap, rank, Children(heap[x])[i], Children(heap[y])[i])
  }

  // ----- The worklist -----

  type Pair = (Cell, Cell)

  /** Nothing is left to compare for this pair, given the pairs already visited and those still waiting. */
  predicate Settled(p: Pair, visited: set<(nat, nat)>, waiting: seq<Pair>) {
    || p in waiting
    || (p.0.Plain? && p.1.Plain? && ScalarEq(p.0.scalar, p.1.scalar))
    || (p.0.ListRef? && p.1.ListRef? && (p.0.addr == p.1.addr || (p.0.addr, p.1.addr) in visited))
    || (p.0.DictRef? && p.1.DictRef? && (p.0.addr == p.1.addr || (p.0.addr, p.1.addr) in visited))
  }

  function ChildPairs(a: Object, b: Object): seq<Pair>
    requires SameOutline(a, b)
  {
    seq(|Children(a)|, i requires 0 <= i < |Children(a)| => (Children(a)[i], Children(b)[i]))
  }

  /** Every visited pair has the same outline, and its children are settled. */
  ghost predicate Closed(heap: Heap, visited: set<(nat, nat)>, waiting: seq<Pair>) {
    forall x, y :: (x, y) in visited ==>
      && x in heap && y in heap && SameOutline(heap[x], heap[y])
      && ChildrenSettled(heap[x], heap[y], visited, waiting)
  }

  ghost predicate ChildrenSettled(a: Object, b: Object, visited: set<(nat, nat)>, waiting: seq<Pair>)
    requires SameOutline(a, b)
  {
    forall p :: p in ChildPairs(a, b) ==> Settled(p, visited, waiting)
  }

  /** When nothing waits, visited pairs are equal: equality follows by induction along the references. */
  lemma {:induction false} ClosedEqual(heap: Heap, rank: map<nat, nat>, visited: set<(nat, nat)>, a: Cell, b: Cell)
    requires WellFounded(heap, rank) && Refers(heap, a) && Refers(heap, b)
    requires Closed(heap, visited, []) && Settled((a, b), visited, [])
    ensures Equal(heap, rank, a, b)
    decreases Height(rank, a)
  {
    if !a.Plain? && a.addr != b.addr {
      var x, y := a.addr, b.addr;
      assert (x, y) in visited;
      forall i | 0 <= i < |Children(heap[x])|
        ensures Lower(heap, rank, rank[x], Children(heap[x])[i]) && Lower(heap, rank, rank[y], Children(heap[y])[i])
                && Equal(heap, rank, Children(heap[x])[i], Children(heap[y])[i])
      {
        var p := (Children(heap[x])[i], Children(heap[y])[i]);
        assert ChildPairs(heap[x], heap[y])[i] == p && p in ChildPairs(heap[x], heap[y]);
        assert Lower(heap, rank, rank[x], p.0) && Lower(heap, rank, rank[y], p.1);
        ClosedEqual(heap, rank, visited, p.0, p.1);
      }
    }
  }

  ghost predicate AllRefer(heap: Heap, ps: seq<Pair>) {
    forall p :: p in ps ==> Refers(heap, p.0) && Refers(heap, p.1)
  }

  ghost predicate AllEqual(heap: Heap, rank: map<nat, nat>, ps: seq<Pair>)
    requires WellFounded(heap, rank) && AllRefer(heap, ps)
  {
    forall p :: p in ps ==> Equal(heap, rank, p.0, p.1)
  }

  lemma ChildrenRefer(heap: Heap, rank: map<nat, nat>, x: nat, y: nat)
    requires WellFounded(heap, rank) && x in heap && y in heap && SameOutline(heap[x], heap[y])
    ensures AllRefer(heap, ChildPairs(heap[x], heap[y]))
    ensures EqualObjects(heap, rank, x, y) ==> AllEqual(heap, rank, ChildPairs(heap[x], heap[y]))
  {
    forall p | p in ChildPairs(heap[x], heap[y])
      ensures Refers(heap, p.0) && Refers(heap, p.1)
      ensures EqualObjects(heap, rank, x, y) ==> Equal(heap, rank, p.0, p.1)
    {
      var i :| 0 <= i < |Children(heap[x])| && ChildPairs(heap[x], heap[y])[i] == p;
      assert p.0 == Children(heap[x])[i] && p.1 == Children(heap[y])[i];
      assert Lower(heap, rank, rank[x], p.0) && Lower(heap, rank, rank[y], p.1);
    }
  }

  // ----- How many pairs there are -----

  function AllPairs(xs: set<nat>, ys: set<nat>): (r: set<(nat, nat)>)
    ensures forall x, y :: (x, y) in r <==> x in xs && y in ys
  {
    set x, y | x in xs && y in ys :: (x, y)
  }

  lemma {:induction false} RowSize(x: nat, ys: set<nat>)
    ensures |AllPairs({x}, ys)| == |ys|
    decreases |ys|
  {
    if ys == {} {
      assert AllPairs({x}, ys) == {};
    } else {
      var y :| y in ys;
      RowSize(x, ys - {y});
      assert AllPairs({x}, ys) == AllPairs({x}, ys - {y}) + {(x, y)};
    }
  }

  lemma {:induction false} PairsSize(xs: set<nat>, ys: set<nat>)
    ensures |AllPairs(xs, ys)| == |xs| * |ys|
    decreases |xs|
  {
    hide AllPairs;
    if xs == {} {
      NoPairs(ys);
    } else {
      var x :| x in xs;
      var rest := xs - {x};
      RowSize(x, ys);
      PairsSize(rest, ys);
      PairsSplit(xs, x, ys);
      UnionSize(AllPairs(rest, ys), AllPairs({x}, ys));
      OneMore(|rest|, |ys|);
    }
  }

  lemma PairsSplit(xs: set<nat>, x: nat, ys: set<nat>)
    requires x in xs
    ensures AllPairs(xs, ys) == AllPairs(xs - {x}, ys) + AllPairs({x}, ys)
    ensures AllPairs(xs - {x}, ys) !! AllPairs({x}, ys)
  {
  }

  lemma NoPairs(ys: set<nat>)
    ensures AllPairs({}, ys) == {}
  {
  }

  lemma UnionSize<T>(a: set<T>, b: set<T>)
    requires a !! b
    ensures |a + b| == |a| + |b|
  {
  }

  lemma OneMore(m: nat, n: nat)
    ensures (m + 1) * n == m * n + n
  {
  }

  lemma {:induction false} SubsetSize<T>(a: set<T>, b: set<T>)
    requires a <= b
    ensures |a| <= |b|
    decreases |a|
  {
    if a != {} {
      var x :| x in a;
      SubsetSize(a - {x}, b - {x});
    }
  }

  /** The number of pairs of nodes. */
  function PairCount(heap: Heap): nat { |heap| * |heap| }

  // ----- The comparison -----

  /** What the worklist keeps: if the values are equal then so is everything that waits, and once nothing
      waits they are equal. */
  ghost predicate Progress(heap: Heap, rank: map<nat, nat>, root: Pair, visited: set<(nat, nat)>, waiting: seq<Pair>)
    requires WellFounded(heap, rank) && Refers(heap, root.0) && Refers(heap, root.1)
  {
    && AllRefer(heap, waiting)
    && (Equal(heap, rank, root.0, root.1) ==> AllEqual(heap, rank, waiting))
    && Closed(heap, visited, waiting)
    && Settled(root, visited, waiting)
  }

  lemma Begun(heap: Heap, rank: map<nat, nat>, root: Pair)
    requires WellFounded(heap, rank) && Refers(heap, root.0) && Refers(heap, root.1)
    ensures Progress(heap, rank, root, {}, [root])
  {
  }

  /** The next pair to compare. */
  lemma Next(heap: Heap, rank: map<nat, nat>, root: Pair, visited: set<(nat, nat)>, waiting: seq<Pair>, p: Pair)
    requires WellFounded(heap, rank) && Refers(heap, root.0) && Refers(heap, root.1)
    requires Progress(heap, rank, root, visited, waiting + [p])
    ensures Refers(heap, p.0) && Refers(heap, p.1)
    ensures Equal(heap, rank, root.0, root.1) ==> Equal(heap, rank, p.0, p.1)
    ensures Settled(p, visited, []) ==> Progress(heap, rank, root, visited, waiting)
  {
    hide WellFounded, Equal, Closed, Refers, Settled;
    var all := waiting + [p];
    assert p in all;
    forall q | q in waiting
      ensures q in all
    {
    }
    if Settled(p, visited, []) {
      SettledMore(p, visited, [], waiting);
      assert [] + waiting == waiting;
      PopSettled(heap, visited, waiting, p);
      PopSettledOne(root, visited, waiting, p);
    }
  }

  lemma SettledMore(p: Pair, visited: set<(nat, nat)>, waiting: seq<Pair>, more: seq<Pair>)
    requires Settled(p, visited, waiting)
    ensures Settled(p, visited, waiting + more)
  {
  }

  /** A pair of nodes that is looked into for the first time. */
  lemma Opened(heap: Heap, rank: map<nat, nat>, root: Pair, visited: set<(nat, nat)>, waiting: seq<Pair>, a: Cell, b: Cell)
    requires WellFounded(heap, rank) && Refers(heap, root.0) && Refers(heap, root.1)
    requires Progress(heap, rank, root, visited, waiting + [(a, b)])
    requires (a.ListRef? && b.ListRef?) || (a.DictRef? && b.DictRef?)
    requires a.addr != b.addr && (a.addr, b.addr) !in visited
    ensures a.addr in heap && b.addr in heap
    ensures !SameOutline(heap[a.addr], heap[b.addr]) ==> !Equal(heap, rank, root.0, root.1)
    ensures SameOutline(heap[a.addr], heap[b.addr]) ==>
              Progress(heap, rank, root, visited + {(a.addr, b.addr)}, waiting + ChildPairs(heap[a.addr], heap[b.addr]))
  {
    hide WellFounded, Closed, Settled, SameOutline;
    assert (a, b) in waiting + [(a, b)];
    assert Refers(heap, a) && Refers(heap, b);
    assert Equal(heap, rank, root.0, root.1) ==> Equal(heap, rank, a, b);
    assert Equal(heap, rank, a, b) ==> EqualObjects(heap, rank, a.addr, b.addr);
    if SameOutline(heap[a.addr], heap[b.addr]) {
      ChildrenRefer(heap, rank, a.addr, b.addr);
      var wider := visited + {(a.addr, b.addr)};
      assert wider - {(a.addr, b.addr)} == visited;
      Visited(heap, wider, waiting, a, b, root);
      forall q | q in waiting
        ensures q in waiting + [(a, b)]
      {
      }
    }
  }

  lemma Done(heap: Heap, rank: map<nat, nat>, root: Pair, visited: set<(nat, nat)>)
    requires WellFounded(heap, rank) && Refers(heap, root.0) && Refers(heap, root.1)
    requires Progress(heap, rank, root, visited, [])
    ensures Equal(heap, rank, root.0, root.1)
  {
    ClosedEqual(heap, rank, visited, root.0, root.1);
  }

  /** There is room for a new pair. */
  lemma Room(visited: set<(nat, nat)>, heap: Heap, x: nat, y: nat)
    requires visited <= AllPairs(heap.Keys, heap.Keys) && (x, y) !in visited && x in heap && y in heap
    ensures |visited| < PairCount(heap)
    ensures visited + {(x, y)} <= AllPairs(heap.Keys, heap.Keys)
    ensures |AllPairs(heap.Keys, heap.Keys) - (visited + {(x, y)})| < |AllPairs(heap.Keys, heap.Keys) - visited|
  {
    var all := AllPairs(heap.Keys, heap.Keys);
    PairsSize(heap.Keys, heap.Keys);
    SubsetSize(visited + {(x, y)}, all);
    assert all - (visited + {(x, y)}) == (all - visited) - {(x, y)};
  }

  datatype Comparison = Decided(equal: bool) | OutOfFuel

  /** A list of one scalar, and the scalar. */
  predicate Holds(heap: Heap, c: Cell) {
    c.ListRef? && c.addr in heap && heap[c.addr].ListObject? && |heap[c.addr].items| == 1 && heap[c.addr].items[0].Plain?
  }

  function Held(heap: Heap, c: Cell): Scalar
    requires Holds(heap, c)
  {
    heap[c.addr].items[0].scalar
  }

  lemma PlainEqual(heap: Heap, rank: map<nat, nat>, a: Cell, b: Cell)
    requires WellFounded(heap, rank) && a.Plain? && b.Plain?
    ensures Equal(heap, rank, a, b) <==> SameScalar(a.scalar, b.scalar)
  {
    ScalarEqIff(a.scalar, b.scalar);
  }

  /** The answer for scalars and for lists of one scalar: the scalars decide, unless the two lists are one node. */
  predicate Answers(heap: Heap, a: Cell, b: Cell, equal: bool) {
    && (a.Plain? && b.Plain? ==> (equal <==> SameScalar(a.scalar, b.scalar)))
    && (Holds(heap, a) && Holds(heap, b) ==> (equal <==> a == b || SameScalar(Held(heap, a), Held(heap, b))))
  }

  lemma SmallEqual(heap: Heap, rank: map<nat, nat>, a: Cell, b: Cell)
    requires WellFounded(heap, rank) && Refers(heap, a) && Refers(heap, b)
    ensures Answers(heap, a, b, Equal(heap, rank, a, b))
  {
    hide ScalarEq, SameScalar;
    if a.Plain? && b.Plain? {
      PlainEqual(heap, rank, a, b);
    }
    if Holds(heap, a) && Holds(heap, b) {
      var xs, ys := Children(heap[a.addr]), Children(heap[b.addr]);
      PlainEqual(heap, rank, xs[0], ys[0]);
      assert Lower(heap, rank, rank[a.addr], xs[0]) && Lower(heap, rank, rank[b.addr], ys[0]);
      assert EqualObjects(heap, rank, a.addr, b.addr) <==> Equal(heap, rank, xs[0], ys[0]);
    }
  }

  /** Compare two values, charging one unit for each new pair of nodes, with `fuel` units left. The answer
      is that of the recursive definition, however much structure is shared, and the charge is bounded by
      the number of pairs of nodes, not by the size of the unfolded values. */
  method ValuesEqual(heap: Heap, left: Cell, right: Cell, fuel: nat, ghost rank: map<nat, nat>) returns (r: Comparison, charged: nat)
    requires WellFounded(heap, rank) && Refers(heap, left) && Refers(heap, right)
    ensures r.Decided? ==> (r.equal <==> Equal(heap, rank, left, right))
    ensures charged <= fuel && charged <= PairCount(heap)
    ensures r.OutOfFuel? ==> charged == fuel < PairCount(heap)
    ensures r.Decided? ==> Answers(heap, left, right, r.equal)
  {
    hide Progress, WellFounded, Equal, SameOutline, AllPairs, Answers, PairCount, ScalarEq, ChildPairs;
    SmallEqual(heap, rank, left, right);
    var worklist := [(left, right)];
    var visited: set<(nat, nat)> := {};
    charged := 0;
    Begun(heap, rank, (left, right));
    ghost var all := AllPairs(heap.Keys, heap.Keys);
    while worklist != []
      invariant visited <= all && charged == |visited| <= fuel && |visited| <= PairCount(heap)
      invariant Progress(heap, rank, (left, right), visited, worklist)
      decreases |all - visited|, |worklist|
    {
      ghost var before := worklist;
      var (a, b) := worklist[|worklist| - 1];
      worklist := worklist[..|worklist| - 1];
      assert before == worklist + [(a, b)];
      Next(heap, rank, (left, right), visited, worklist, (a, b));
      if (a.ListRef? && b.ListRef?) || (a.DictRef? && b.DictRef?) {
        if a.addr == b.addr || (a.addr, b.addr) in visited {
          continue;
        }
        Opened(heap, rank, (left, right), visited, worklist, a, b);
        Room(visited, heap, a.addr, b.addr);
        if charged == fuel {
          return OutOfFuel, charged;
        }
        visited := visited + {(a.addr, b.addr)};
        charged := charged + 1;
        if !SameOutline(heap[a.addr], heap[b.addr]) {
          return Decided(false), charged;
        }
        worklist := worklist + ChildPairs(heap[a.addr], heap[b.addr]);
      } else if !(a.Plain? && b.Plain? && ScalarEq(a.scalar, b.scalar)) {
        Differ(heap, rank, a, b);
        return Decided(false), charged;
      }
    }
    Done(heap, rank, (left, right), visited);
    return Decided(true), charged;
  }

  lemma Differ(heap: Heap, rank: map<nat, nat>, a: Cell, b: Cell)
    requires WellFounded(heap, rank) && Refers(heap, a) && Refers(heap, b)
    requires !(a.ListRef? && b.ListRef?) && !(a.DictRef? && b.DictRef?)
    requires !(a.Plain? && b.Plain? && ScalarEq(a.scalar, b.scalar))
    ensures !Equal(heap, rank, a, b)
  {
  }

  /** Taking a settled pair off the worklist unsettles nothing. */
  lemma PopSettledOne(p: Pair, visited: set<(nat, nat)>, waiting: seq<Pair>, popped: Pair)
    requires Settled(p, visited, waiting + [popped]) && Settled(popped, visited, waiting)
    ensures Settled(p, visited, waiting)
  {
  }

  lemma PopSettled(heap: Heap, visited: set<(nat, nat)>, waiting: seq<Pair>, popped: Pair)
    requires Closed(heap, visited, waiting + [popped]) && Settled(popped, visited, waiting)
    ensures Closed(heap, visited, waiting)
  {
    hide Settled;
    forall x, y | (x, y) in visited
      ensures x in heap && y in heap && SameOutline(heap[x], heap[y]) && ChildrenSettled(heap[x], heap[y], visited, waiting)
    {
      forall p | p in ChildPairs(heap[x], heap[y])
        ensures Settled(p, visited, waiting)
      {
        PopSettledOne(p, visited, waiting, popped);
      }
    }
  }

  /** A new pair is visited and its children are put on the worklist. */
  lemma Visited(heap: Heap, visited: set<(nat, nat)>, waiting: seq<Pair>, a: Cell, b: Cell, root: Pair)
    requires (a.ListRef? && b.ListRef?) || (a.DictRef? && b.DictRef?)
    requires a.addr in heap && b.addr in heap && SameOutline(heap[a.addr], heap[b.addr])
    requires (a.addr, b.addr) in visited
    requires Closed(heap, visited - {(a.addr, b.addr)}, waiting + [(a, b)])
    requires Settled(root, visited - {(a.addr, b.addr)}, waiting + [(a, b)])
    ensures Closed(heap, visited, waiting + ChildPairs(heap[a.addr], heap[b.addr]))
    ensures Settled(root, visited, waiting + ChildPairs(heap[a.addr], heap[b.addr]))
  {
    var longer := waiting + ChildPairs(heap[a.addr], heap[b.addr]);
    forall x, y | (x, y) in visited
      ensures x in heap && y in heap && SameOutline(heap[x], heap[y]) && ChildrenSettled(heap[x], heap[y], visited, longer)
    {
      if (x, y) != (a.addr, b.addr) {
        assert (x, y) in visited - {(a.addr, b.addr)};
        forall p | p in ChildPairs(heap[x], heap[y])
          ensures Settled(p, visited, longer)
        {
          assert Settled(p, visited - {(a.addr, b.addr)}, waiting + [(a, b)]);
        }
      }
    }
  }

  // ----- The unfolded values -----

  datatype Tree = Leaf(scalar: Scalar) | ListTree(items: seq<Tree>) | DictTree(keys: seq<string>, values: seq<Tree>)

  /** The value without sharing. It can be exponentially larger than the heap. */
  function Unfold(heap: Heap, rank: map<nat, nat>, c: Cell): Tree
    requires WellFounded(heap, rank) && Refers(heap, c)
    decreases Height(rank, c), 0
  {
    match c
    case Plain(s) => Leaf(s)
    case ListRef(x) =>
      assert Children(heap[x]) == heap[x].items;
      ListTree(UnfoldAll(heap, rank, rank[x], heap[x].items))
    case DictRef(x) =>
      assert Children(heap[x]) == heap[x].values;
      DictTree(heap[x].keys, UnfoldAll(heap, rank, rank[x], heap[x].values))
  }

  function UnfoldAll(heap: Heap, rank: map<nat, nat>, bound: nat, cs: seq<Cell>): (r: seq<Tree>)
    requires WellFounded(heap, rank) && forall i :: 0 <= i < |cs| ==> Lower(heap, rank, bound, cs[i])
    ensures |r| == |cs|
    decreases bound, 1, |cs|
  {
    if cs == [] then []
    else
      assert Lower(heap, rank, bound, cs[0]);
      [Unfold(heap, rank, cs[0])] + UnfoldAll(heap, rank, bound, cs[1..])
  }

  /** Structural equality of unfolded values. */
  predicate TreeEq(a: Tree, b: Tree) {
    match (a, b)
    case (Leaf(s), Leaf(t)) => ScalarEq(s, t)
    case (ListTree(xs), ListTree(ys)) => |xs| == |ys| && forall i :: 0 <= i < |xs| ==> TreeEq(xs[i], ys[i])
    case (DictTree(ks, xs), DictTree(ls, ys)) => ks == ls && |xs| == |ys| && forall i :: 0 <= i < |xs| ==> TreeEq(xs[i], ys[i])
    case _ => false
  }

  /** The part of a value at the end of a path of positions. */
  function PartAt(t: Tree, path: seq<nat>): Option<Tree>
    decreases |path|
  {
    if path == [] then Some(t)
    else
      match t
      case Leaf(_) => None
      case ListTree(xs) => if path[0] < |xs| then PartAt(xs[path[0]], path[1..]) else None
      case DictTree(_, xs) => if path[0] < |xs| then PartAt(xs[path[0]], path[1..]) else None
  }

  /** Nothing can be told apart by looking at the ends of a path: equal scalars, lists of one length, dictionaries with the
      same keys in the same order. */
  predicate Alike(a: Option<Tree>, b: Option<Tree>) {
    match (a, b)
    case (None, None) => true
    case (Some(Leaf(s)), Some(Leaf(t))) => SameScalar(s, t)
    case (Some(ListTree(xs)), Some(ListTree(ys))) => |xs| == |ys|
    case (Some(DictTree(ks, xs)), Some(DictTree(ls, ys))) => ks == ls && |xs| == |ys|
    case _ => false
  }

  ghost predicate AlikeEverywhere(a: Tree, b: Tree) { forall path :: Alike(PartAt(a, path), PartAt(b, path)) }

  function Parts(t: Tree): seq<Tree> {
    match t
    case Leaf(_) => []
    case ListTree(xs) => xs
    case DictTree(_, xs) => xs
  }

  /** Structural equality, told without recursion: no path leads to a difference. */
  lemma EqualIffAlike(a: Tree, b: Tree)
    ensures TreeEq(a, b) <==> AlikeEverywhere(a, b)
  {
    if TreeEq(a, b) {
      forall path
        ensures Alike(PartAt(a, path), PartAt(b, path))
      {
        EqualAlike(a, b, path);
      }
    }
    if AlikeEverywhere(a, b) {
      AlikeEqual(a, b);
    }
  }

  lemma {:induction false} EqualAlike(a: Tree, b: Tree, path: seq<nat>)
    requires TreeEq(a, b)
    ensures Alike(PartAt(a, path), PartAt(b, path))
    decreases |path|
  {
    if a.Leaf? {
      ScalarEqIff(a.scalar, b.scalar);
    }
    if path != [] && path[0] < |Parts(a)| {
      EqualAlike(Parts(a)[path[0]], Parts(b)[path[0]], path[1..]);
    }
  }

  lemma {:induction false} AlikeEqual(a: Tree, b: Tree)
    requires AlikeEverywhere(a, b)
    ensures TreeEq(a, b)
    decreases a
  {
    assert Alike(PartAt(a, []), PartAt(b, []));
    if a.Leaf? {
      ScalarEqIff(a.scalar, b.scalar);
    }
    if a.ListTree? {
      forall i | 0 <= i < |a.items|
        ensures TreeEq(a.items[i], b.items[i])
      {
        PartsAlike(a, b, i);
        AlikeEqual(a.items[i], b.items[i]);
      }
    } else if a.DictTree? {
      forall i | 0 <= i < |a.values|
        ensures TreeEq(a.values[i], b.values[i])
      {
        PartsAlike(a, b, i);
        AlikeEqual(a.values[i], b.values[i]);
      }
    }
  }

  /** Values that are alike everywhere have alike parts. */
  lemma PartsAlike(a: Tree, b: Tree, i: nat)
    requires AlikeEverywhere(a, b) && i < |Parts(a)| && i < |Parts(b)|
    ensures AlikeEverywhere(Parts(a)[i], Parts(b)[i])
  {
    forall path
      ensures Alike(PartAt(Parts(a)[i], path), PartAt(Parts(b)[i], path))
    {
      var longer := [i] + path;
      assert longer[0] == i && longer[1..] == path;
      assert Alike(PartAt(a, longer), PartAt(b, longer));
    }
  }

  /** No NaN anywhere in the value. */
  predicate Reflexive(t: Tree) {
    match t
    case Leaf(s) => !s.NaN?
    case ListTree(xs) => forall i :: 0 <= i < |xs| ==> Reflexive(xs[i])
    case DictTree(_, xs) => forall i :: 0 <= i < |xs| ==> Reflexive(xs[i])
  }

  /** A value equals itself exactly when it contains no NaN. That is the whole price of the same-node
      shortcut. */
  lemma {:induction false} SelfEqualIff(t: Tree)
    ensures TreeEq(t, t) <==> Reflexive(t)
    decreases t
  {
    match t
    case Leaf(_) =>
    case ListTree(xs) => forall i | 0 <= i < |xs| ensures TreeEq(xs[i], xs[i]) <==> Reflexive(xs[i]) { SelfEqualIff(xs[i]); }
    case DictTree(_, xs) => forall i | 0 <= i < |xs| ensures TreeEq(xs[i], xs[i]) <==> Reflexive(xs[i]) { SelfEqualIff(xs[i]); }
  }

  lemma {:induction false} UnfoldAt(heap: Heap, rank: map<nat, nat>, bound: nat, cs: seq<Cell>, i: nat)
    requires WellFounded(heap, rank) && i < |cs|
    requires forall j :: 0 <= j < |cs| ==> Lower(heap, rank, bound, cs[j])
    ensures Lower(heap, rank, bound, cs[i])
    ensures UnfoldAll(heap, rank, bound, cs)[i] == Unfold(heap, rank, cs[i])
    decreases |cs|
  {
    assert Lower(heap, rank, bound, cs[0]);
    if i > 0 {
      UnfoldAt(heap, rank, bound, cs[1..], i - 1);
    }
  }

  /** When one of the values contains no NaN, equality with the same-node shortcut is structural equality of
      the unfolded values. */
  lemma {:induction false} EqualIsStructural(heap: Heap, rank: map<nat, nat>, a: Cell, b: Cell)
    requires WellFounded(heap, rank) && Refers(heap, a) && Refers(heap, b)
    requires Reflexive(Unfold(heap, rank, a))
    ensures Equal(heap, rank, a, b) <==> TreeEq(Unfold(heap, rank, a), Unfold(heap, rank, b))
    decreases Height(rank, a)
  {
    if a == b {
      SelfEqualIff(Unfold(heap, rank, a));
    } else if (a.ListRef? && b.ListRef?) || (a.DictRef? && b.DictRef?) {
      ObjectsStructural(heap, rank, a, b);
    }
  }

  lemma {:induction false} ObjectsStructural(heap: Heap, rank: map<nat, nat>, a: Cell, b: Cell)
    requires WellFounded(heap, rank) && Refers(heap, a) && Refers(heap, b)
    requires Reflexive(Unfold(heap, rank, a))
    requires (a.ListRef? && b.ListRef?) || (a.DictRef? && b.DictRef?)
    ensures EqualObjects(heap, rank, a.addr, b.addr) <==> TreeEq(Unfold(heap, rank, a), Unfold(heap, rank, b))
    decreases Height(rank, a), 0
  {
    var x, y := a.addr, b.addr;
    var xs, ys := Children(heap[x]), Children(heap[y]);
    if SameOutline(heap[x], heap[y]) {
      forall i | 0 <= i < |xs|
        ensures Lower(heap, rank, rank[x], xs[i]) && Lower(heap, rank, rank[y], ys[i])
        ensures UnfoldAll(heap, rank, rank[x], xs)[i] == Unfold(heap, rank, xs[i])
        ensures UnfoldAll(heap, rank, rank[y], ys)[i] == Unfold(heap, rank, ys[i])
        ensures Equal(heap, rank, xs[i], ys[i]) <==> TreeEq(Unfold(heap, rank, xs[i]), Unfold(heap, rank, ys[i]))
      {
        UnfoldAt(heap, rank, rank[x], xs, i);
        UnfoldAt(heap, rank, rank[y], ys, i);
        assert Reflexive(UnfoldAll(heap, rank, rank[x], xs)[i]);
        EqualIsStructural(heap, rank, xs[i], ys[i]);
      }
    }
  }

  /** Structural equality is never the verdict on a value that holds a NaN. */
  lemma {:induction false} EqualTreesReflexive(a: Tree, b: Tree)
    requires TreeEq(a, b)
    ensures Reflexive(a)
    decreases a
  {
    if !a.Leaf? {
      var xs := if a.ListTree? then a.items else a.values;
      var ys := if b.ListTree? then b.items else b.values;
      forall i | 0 <= i < |xs| ensures Reflexive(xs[i]) { EqualTreesReflexive(xs[i], ys[i]); }
    }
  }

  /** For all values: structural equality is the answer of the heap comparison together with the absence of NaN. */
  lemma StructuralIff(heap: Heap, rank: map<nat, nat>, a: Cell, b: Cell)
    requires WellFounded(heap, rank) && Refers(heap, a) && Refers(heap, b)
    ensures TreeEq(Unfold(heap, rank, a), Unfold(heap, rank, b))
       <==> Equal(heap, rank, a, b) && Reflexive(Unfold(heap, rank, a))
  {
    if TreeEq(Unfold(heap, rank, a), Unfold(heap, rank, b)) {
      EqualTreesReflexive(Unfold(heap, rank, a), Unfold(heap, rank, b));
    }
    if Reflexive(Unfold(heap, rank, a)) {
      EqualIsStructural(heap, rank, a, b);
    }
  }

  /** The exact condition on one operand: comparing it with anything is structural exactly when it is no node or
      holds no NaN. The witness of the other direction is the operand itself. */
  lemma StructuralForAllIff(heap: Heap, rank: map<nat, nat>, a: Cell)
    requires WellFounded(heap, rank) && Refers(heap, a)
    ensures (forall b | Refers(heap, b) :: Equal(heap, rank, a, b) <==> TreeEq(Unfold(heap, rank, a), Unfold(heap, rank, b)))
       <==> a.Plain? || Reflexive(Unfold(heap, rank, a))
  {
    forall b | Refers(heap, b) && (a.Plain? || Reflexive(Unfold(heap, rank, a)))
      ensures Equal(heap, rank, a, b) <==> TreeEq(Unfold(heap, rank, a), Unfold(heap, rank, b))
    {
      StructuralIff(heap, rank, a, b);
    }
    SelfEqualIff(Unfold(heap, rank, a));
    assert !a.Plain? ==> Equal(heap, rank, a, a);
  }

  /** A shared node with NaN in it: equal to itself on the heap, not equal as an unfolded value. */
  lemma SharedNaN()
    ensures var heap := map[0 := ListObject([Plain(NaN)])];
            var rank := map[0 := 0];
            && WellFounded(heap, rank) && Equal(heap, rank, ListRef(0), ListRef(0))
            && !TreeEq(Unfold(heap, rank, ListRef(0)), Unfold(heap, rank, ListRef(0)))
  {
    var heap := map[0 := ListObject([Plain(NaN)])];
    var rank := map[0 := 0];
    assert WellFounded(heap, rank);
    SelfEqualIff(Unfold(heap, rank, ListRef(0)));
    assert Children(heap[0]) == heap[0].items;
    UnfoldAt(heap, rank, 0, heap[0].items, 0);
  }
}

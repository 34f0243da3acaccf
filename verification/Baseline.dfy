/** The baseline of an execution (`src/budget.rs`, `charge_context_baseline` and `AllocationLedger`): a worklist over
    the values a context already holds charges every reachable heap object once, however the objects share and
    however closures lead back to themselves, and in whatever order it meets them. */
module Baseline {

  const MAX_U64 := 0xffff_ffff_ffff_ffff

  type U64 = n: nat | n <= MAX_U64 witness 0

  // ----- Logical sizes, in arithmetic that stops at the largest count -----

  function Saturate(n: nat): U64 { if n <= MAX_U64 then n else MAX_U64 }

  const VALUE_SLOT: U64 := 32
  const CAPTURED_CELL: U64 := 32

  function StringBody(bytes: nat): U64 { Saturate(24 + bytes) }

  function ListBody(elements: nat): U64 { Saturate(24 + Saturate(elements * 32)) }

  function DictBody(entries: nat, keyBytes: U64): U64 { Saturate(Saturate(24 + Saturate(entries * 64)) + keyBytes) }

  function TreeFunction(captured: nat): U64 { Saturate(64 + Saturate(captured * 16)) }

  function VmFunction(upvalues: nat): U64 { Saturate(48 + Saturate(upvalues * 16)) }

  // ----- The heap: shared objects behind addresses, values in slots -----

  datatype Value =
    | Plain
    | Str(text: nat)
    | List(items: nat)
    | Dict(entries: nat)
    | Fn(captured: nat)
    | VmFn(upvalues: seq<nat>)
    | Error(messageBytes: nat)

  datatype Entry = Entry(keyBytes: nat, value: Value)

  datatype Object =
    | Text(bytes: nat)
    | Items(elements: seq<Value>)
    | Entries(pairs: seq<Entry>)
    | CapturedMap(cells: seq<nat>)
    | Cell(content: Value)

  type Heap = map<nat, Object>

  predicate Fits(heap: Heap, v: Value) {
    match v
    case Plain => true
    case Str(a) => a in heap && heap[a].Text?
    case List(a) => a in heap && heap[a].Items?
    case Dict(a) => a in heap && heap[a].Entries?
    case Fn(a) => a in heap && heap[a].CapturedMap?
    case VmFn(cells) => forall c :: c in cells ==> c in heap && heap[c].Cell?
    case Error(_) => true
  }

  function Values(pairs: seq<Entry>): (r: seq<Value>)
    ensures |r| == |pairs| && forall i :: 0 <= i < |r| ==> r[i] == pairs[i].value
  {
    seq(|pairs|, i requires 0 <= i < |pairs| => pairs[i].value)
  }

  /** The value slots inside an object. */
  function Slots(o: Object): seq<Value> {
    match o
    case Items(elements) => elements
    case Entries(pairs) => Values(pairs)
    case Cell(content) => [content]
    case _ => []
  }

  function SetOf(cells: seq<nat>): set<nat> { set c | c in cells }

  function Cells(o: Object): set<nat> { if o.CapturedMap? then SetOf(o.cells) else {} }

  /** Every reference leads to an object of the right kind, as the source's types guarantee. */
  predicate Sound(heap: Heap) {
    && (forall a :: a in heap ==> forall v :: v in Slots(heap[a]) ==> Fits(heap, v))
    && (forall a :: a in heap ==> forall c :: c in Cells(heap[a]) ==> c in heap && heap[c].Cell?)
  }

  /** The objects a value points at. */
  function Points(v: Value): set<nat> {
    match v
    case Str(a) => {a}
    case List(a) => {a}
    case Dict(a) => {a}
    case Fn(a) => {a}
    case VmFn(cells) => SetOf(cells)
    case _ => {}
  }

  // ----- What is reachable, and what it costs -----

  predicate Closed(heap: Heap, w: set<nat>) {
    forall a :: a in w ==> a in heap && Cells(heap[a]) <= w && forall v :: v in Slots(heap[a]) ==> Points(v) <= w
  }

  predicate Holds(w: set<nat>, roots: seq<Value>) { forall v :: v in roots ==> Points(v) <= w }

  /** Part of every closed set of objects that holds what the roots point at. */
  ghost predicate Forced(heap: Heap, roots: seq<Value>, s: set<nat>) {
    forall w: set<nat> :: Closed(heap, w) && Holds(w, roots) ==> s <= w
  }

  /** The objects that can be reached: the smallest closed set. */
  ghost function Reach(heap: Heap, roots: seq<Value>): set<nat> {
    set a | a in heap && Forced(heap, roots, {a})
  }

  function SumBy<T>(s: seq<T>, f: T -> nat): nat {
    if s == [] then 0 else SumBy(s[..|s| - 1], f) + f(s[|s| - 1])
  }

  /** What one slot costs: function headers of the machine and error messages are not shared, so they are counted
      with the slot. */
  function SlotCost(v: Value): nat {
    32 + (match v
          case VmFn(cells) => 48 + 16 * |cells|
          case Error(bytes) => 24 + bytes
          case _ => 0)
  }

  function KeyBytes(e: Entry): nat { e.keyBytes }

  function EntryCost(e: Entry): nat { SlotCost(e.value) }

  /** What an object costs by itself. */
  function Body(o: Object): nat {
    match o
    case Text(bytes) => 24 + bytes
    case Items(elements) => 24 + 32 * |elements|
    case Entries(pairs) => 24 + 64 * |pairs| + SumBy(pairs, KeyBytes)
    case CapturedMap(cells) => 64 + 16 * |cells|
    case Cell(_) => 32
  }

  function Weight(o: Object): nat { Body(o) + SumBy(Slots(o), SlotCost) }

  ghost function SumOver(heap: Heap, s: set<nat>): nat
    requires s <= heap.Keys
  {
    if s == {} then 0 else
      var a :| a in s;
      Weight(heap[a]) + SumOver(heap, s - {a})
  }

  /** The cost of a context: each of its slots, and each reachable object once. */
  ghost function Total(heap: Heap, roots: seq<Value>): nat {
    SumBy(roots, SlotCost) + SumOver(heap, Reach(heap, roots))
  }

  lemma {:induction false} SumAdd(heap: Heap, s: set<nat>, a: nat)
    requires s <= heap.Keys && a in heap && a !in s
    ensures SumOver(heap, s + {a}) == SumOver(heap, s) + Weight(heap[a])
    decreases |s|
  {
    var t := s + {a};
    var b :| b in t && SumOver(heap, t) == Weight(heap[b]) + SumOver(heap, t - {b});
    if b == a {
      assert t - {b} == s;
    } else {
      SumAdd(heap, s - {b}, a);
      SumAdd(heap, s - {b}, b);
      assert t - {b} == (s - {b}) + {a} && (s - {b}) + {b} == s;
    }
  }

  lemma {:induction false} SumMore(heap: Heap, s: set<nat>, t: set<nat>)
    requires s <= t <= heap.Keys
    ensures SumOver(heap, s) <= SumOver(heap, t)
    decreases |t - s|
  {
    if t - s == {} {
      assert s == t;
    } else {
      var a :| a in t - s;
      SumAdd(heap, s, a);
      SumMore(heap, s + {a}, t);
    }
  }

  lemma {:induction false} SumByAppend<T>(s: seq<T>, t: seq<T>, f: T -> nat)
    ensures SumBy(s + t, f) == SumBy(s, f) + SumBy(t, f)
  {
    if t == [] {
      assert s + t == s;
    } else {
      assert (s + t)[..|s + t| - 1] == s + t[..|t| - 1];
      SumByAppend(s, t[..|t| - 1], f);
    }
  }

  // ----- The ledger of live heap bytes -----

  datatype Exceeded = Exceeded(limit: U64, used: U64, requested: U64)

  datatype Option<T> = None | Some(value: T)

  class AllocationLedger {
    var liveBytes: U64
    var peakBytes: U64
    var limit: U64

    constructor (limit: U64)
      ensures this.limit == limit && liveBytes == 0 && peakBytes == 0
    {
      this.limit, liveBytes, peakBytes := limit, 0, 0;
    }

    /** All or nothing: a charge that does not fit, or whose sum is no longer a machine number, changes nothing. */
    method Charge(bytes: U64) returns (r: Option<Exceeded>)
      modifies this`liveBytes, this`peakBytes
      ensures r.None? <==> old(liveBytes) + bytes <= limit
      ensures r.None? ==> liveBytes == old(liveBytes) + bytes
      ensures r.None? ==> peakBytes == if liveBytes > old(peakBytes) then liveBytes else old(peakBytes)
      ensures r.Some? ==> liveBytes == old(liveBytes) && peakBytes == old(peakBytes)
      ensures r.Some? ==> r.value.limit == limit && r.value.used == liveBytes
      ensures r.Some? ==> r.value.requested == if liveBytes + bytes <= MAX_U64 then bytes else MAX_U64
    {
      if liveBytes + bytes <= MAX_U64 {
        var total: U64 := liveBytes + bytes;
        if total <= limit {
          liveBytes := total;
          if total > peakBytes {
            peakBytes := total;
          }
          return None;
        }
        return Some(Exceeded(limit, liveBytes, bytes));
      }
      return Some(Exceeded(limit, liveBytes, MAX_U64));
    }

    method Release(bytes: U64)
      modifies this`liveBytes
      ensures liveBytes == if bytes <= old(liveBytes) then old(liveBytes) - bytes else 0
    {
      liveBytes := if bytes <= liveBytes then liveBytes - bytes else 0;
    }
  }

  // ----- The walk -----

  /** How far a walk has come: what is charged, still due for the object at hand, and in the slots still listed,
      makes up the cost of the roots and of every visited object; every visited object leads only to visited ones,
      to listed slots, and to the cells in hand; and nothing unreachable was visited. */
  ghost predicate Walking(heap: Heap, roots: seq<Value>, start: nat, live: nat, due: nat,
                          visited: set<nat>, work: seq<Value>, hand: set<nat>) {
    && visited <= heap.Keys && hand <= heap.Keys
    && live + due + SumBy(work, SlotCost) == start + SumBy(roots, SlotCost) + SumOver(heap, visited)
    && (forall v :: v in roots ==> v in work || Points(v) <= visited + hand)
    && (forall a :: a in visited ==> Cells(heap[a]) <= visited + hand)
    && (forall a :: a in visited ==> forall v :: v in Slots(heap[a]) ==> v in work || Points(v) <= visited + hand)
    && (forall v :: v in work ==> Fits(heap, v) && Forced(heap, roots, Points(v)))
    && Forced(heap, roots, visited) && Forced(heap, roots, hand)
  }

  lemma Begin(heap: Heap, roots: seq<Value>, start: nat)
    requires forall v :: v in roots ==> Fits(heap, v)
    ensures Walking(heap, roots, start, start, 0, {}, roots, {})
  {
  }

  lemma FitsPoints(heap: Heap, v: Value)
    requires Fits(heap, v)
    ensures Points(v) <= heap.Keys
  {
  }

  lemma Pop(heap: Heap, roots: seq<Value>, start: nat, live: nat, visited: set<nat>, work: seq<Value>)
    requires work != [] && Walking(heap, roots, start, live, 0, visited, work, {})
    ensures
      var v := work[|work| - 1];
      Walking(heap, roots, start, live, SlotCost(v), visited, work[..|work| - 1], Points(v))
  {
    hide SumOver, Closed, Holds, SlotCost, Slots, Cells, Forced;
    var v := work[|work| - 1];
    assert v in work;
    FitsPoints(heap, v);
    assert work == work[..|work| - 1] + [v];
  }

  /** Objects that were visited before are out of hand. */
  lemma Pass(heap: Heap, roots: seq<Value>, start: nat, live: nat, due: nat,
             visited: set<nat>, work: seq<Value>, hand: set<nat>, rest: set<nat>)
    requires Walking(heap, roots, start, live, due, visited, work, hand)
    requires hand <= visited + rest && rest <= visited + hand
    ensures Walking(heap, roots, start, live, due, visited, work, rest)
  {
    hide SumOver, SumBy, SlotCost, Slots, Cells, Fits, Points, Closed, Holds;
  }

  /** A new object in hand is visited: its body falls due, its slots are listed and its cells are taken in hand. */
  lemma Enter(heap: Heap, roots: seq<Value>, start: nat, live: nat, due: nat,
              visited: set<nat>, work: seq<Value>, hand: set<nat>, a: nat)
    requires Sound(heap) && Walking(heap, roots, start, live, due, visited, work, hand)
    requires a in hand && a !in visited
    ensures Walking(heap, roots, start, live, due + Body(heap[a]),
                    visited + {a}, work + Slots(heap[a]), hand - {a} + Cells(heap[a]))
  {
    hide SumOver, SumBy, SlotCost, Slots, Cells, Fits, Points, Closed, Holds, Body, Forced;
    var o := heap[a];
    SumAdd(heap, visited, a);
    SumByAppend(work, Slots(o), SlotCost);
    ForcedOn(heap, roots, visited, hand, a);
    assert visited + hand <= (visited + {a}) + (hand - {a} + Cells(o));
  }

  lemma ForcedOn(heap: Heap, roots: seq<Value>, visited: set<nat>, hand: set<nat>, a: nat)
    requires a in hand && a in heap && Forced(heap, roots, visited) && Forced(heap, roots, hand)
    ensures Forced(heap, roots, visited + {a}) && Forced(heap, roots, hand - {a} + Cells(heap[a]))
    ensures forall v :: v in Slots(heap[a]) ==> Forced(heap, roots, Points(v))
  {
    hide Holds, Slots, Cells, Points;
  }

  /** Whatever is due, what is charged and due together never passes the whole. */
  lemma WithinTotal(heap: Heap, roots: seq<Value>, start: nat, live: nat, due: nat,
                    visited: set<nat>, work: seq<Value>, hand: set<nat>)
    requires Walking(heap, roots, start, live, due, visited, work, hand)
    ensures live + due <= start + Total(heap, roots)
  {
    hide SumBy, SumOver, SlotCost, Slots, Cells, Fits, Points, Closed, Holds;
    assert visited <= Reach(heap, roots);
    SumMore(heap, visited, Reach(heap, roots));
  }

  /** With nothing left to do, exactly the reachable objects were visited and exactly the whole was charged. */
  lemma Finish(heap: Heap, roots: seq<Value>, start: nat, live: nat, visited: set<nat>)
    requires Walking(heap, roots, start, live, 0, visited, [], {})
    ensures visited == Reach(heap, roots) && live == start + Total(heap, roots)
  {
    hide SumOver, SlotCost, Slots, Cells, Fits, Points;
    assert visited + {} == visited;
    assert Closed(heap, visited) && Holds(visited, roots);
  }

  /** The sizes are the true ones, cut off at the largest count. */
  lemma SizesSaturate(n: nat, m: nat)
    ensures StringBody(n) == Saturate(24 + n)
    ensures ListBody(n) == Saturate(24 + n * 32)
    ensures DictBody(n, Saturate(m)) == Saturate(24 + n * 64 + m)
    ensures TreeFunction(n) == Saturate(64 + n * 16)
    ensures VmFunction(n) == Saturate(48 + n * 16)
  {
  }

  /** Where anything is live already, a size that was cut off never fits. */
  lemma CutOffNeverFits(live: U64, x: nat, limit: U64)
    requires live > 0
    ensures live + Saturate(x) <= limit <==> live + x <= limit
    ensures live + x <= limit ==> Saturate(x) == x
  {
  }

  /** What a part of the walk leaves behind when it goes well, and when the limit stops it. */
  ghost predicate Walked(heap: Heap, roots: seq<Value>, start: nat, live: nat, limit: nat, r: Option<Exceeded>,
                         visited: set<nat>, work: seq<Value>) {
    if r.None? then Walking(heap, roots, start, live, 0, visited, work, {})
    else live <= start + Total(heap, roots) && start + Total(heap, roots) > limit
  }

  /** Charges a size that is due. */
  method Pay(ledger: AllocationLedger, heap: Heap, ghost roots: seq<Value>, ghost start: nat, bytes: U64, ghost due: nat,
             ghost visited: set<nat>, ghost work: seq<Value>, ghost hand: set<nat>) returns (r: Option<Exceeded>)
    requires ledger.liveBytes > 0 && bytes == Saturate(due)
    requires Walking(heap, roots, start, ledger.liveBytes, due, visited, work, hand)
    modifies ledger`liveBytes, ledger`peakBytes
    ensures old(ledger.liveBytes) <= ledger.liveBytes
    ensures r.None? ==> ledger.liveBytes <= ledger.limit
    ensures r.None? ==> Walking(heap, roots, start, ledger.liveBytes, 0, visited, work, hand)
    ensures r.Some? ==> Walked(heap, roots, start, ledger.liveBytes, ledger.limit, r, visited, work)
  {
    hide Total, SumBy, SumOver, SlotCost, Slots, Cells, Fits, Points, Closed, Holds, Forced;
    CutOffNeverFits(ledger.liveBytes, due, ledger.limit);
    WithinTotal(heap, roots, start, ledger.liveBytes, due, visited, work, hand);
    r := ledger.Charge(bytes);
  }

  /** Visits the cells a function value holds, each unless it was visited before. */
  method VisitCells(ledger: AllocationLedger, heap: Heap, ghost roots: seq<Value>, ghost start: nat, cells: seq<nat>,
                    before: set<nat>, listed: seq<Value>)
    returns (r: Option<Exceeded>, visited: set<nat>, work: seq<Value>)
    requires Sound(heap) && forall c :: c in cells ==> c in heap && heap[c].Cell?
    requires ledger.liveBytes > 0
    requires Walking(heap, roots, start, ledger.liveBytes, 0, before, listed, SetOf(cells))
    modifies ledger`liveBytes, ledger`peakBytes
    ensures old(ledger.liveBytes) <= ledger.liveBytes
    ensures Walked(heap, roots, start, ledger.liveBytes, ledger.limit, r, visited, work)
    ensures r.None? ==> ledger.liveBytes <= ledger.limit || ledger.liveBytes == old(ledger.liveBytes)
    ensures r.None? ==> before <= visited <= heap.Keys && (visited == before ==> work == listed)
  {
    hide Total, SumBy, SumOver, SlotCost, Fits, Points, Closed, Holds, Forced, Walking;
    r, visited, work := None, before, listed;
    assert cells[0..] == cells;
    for i := 0 to |cells|
      invariant r == None && old(ledger.liveBytes) <= ledger.liveBytes
      invariant ledger.liveBytes <= ledger.limit || ledger.liveBytes == old(ledger.liveBytes)
      invariant Walking(heap, roots, start, ledger.liveBytes, 0, visited, work, SetOf(cells[i..]))
      invariant before <= visited && (visited == before ==> work == listed)
    {
      var cell := cells[i];
      ghost var hand, rest := SetOf(cells[i..]), SetOf(cells[i + 1..]);
      assert cells[i..] == [cell] + cells[i + 1..];
      assert hand == {cell} + rest;
      if cell !in visited {
        var o := heap[cell];
        Enter(heap, roots, start, ledger.liveBytes, 0, visited, work, hand, cell);
        visited := visited + {cell};
        ghost var next := work + Slots(o);
        Pass(heap, roots, start, ledger.liveBytes, 32, visited, next, hand - {cell} + Cells(o), rest);
        r := Pay(ledger, heap, roots, start, CAPTURED_CELL, 32, visited, next, rest);
        if r.Some? {
          return;
        }
        work := work + [o.content];
      } else {
        Pass(heap, roots, start, ledger.liveBytes, 0, visited, work, hand, rest);
      }
    }
    assert SetOf(cells[|cells|..]) == {};
    WalkingKeys(heap, roots, start, ledger.liveBytes, 0, visited, work, {});
  }

  lemma WalkingKeys(heap: Heap, roots: seq<Value>, start: nat, live: nat, due: nat,
                    visited: set<nat>, work: seq<Value>, hand: set<nat>)
    requires Walking(heap, roots, start, live, due, visited, work, hand)
    ensures visited <= heap.Keys
  {
  }

  /** The bytes of all keys of a dictionary, cut off at the largest count. */
  method TotalKeyBytes(pairs: seq<Entry>) returns (total: U64)
    ensures total == Saturate(SumBy(pairs, KeyBytes))
  {
    total := 0;
    for i := 0 to |pairs|
      invariant total == Saturate(SumBy(pairs[..i], KeyBytes))
    {
      assert pairs[..i + 1][..i] == pairs[..i];
      total := Saturate(total + Saturate(pairs[i].keyBytes));
    }
    assert pairs[..|pairs|] == pairs;
  }

  /** Visits what a value points at, when its slot has been paid for. */
  method VisitValue(ledger: AllocationLedger, heap: Heap, ghost roots: seq<Value>, ghost start: nat, v: Value,
                    before: set<nat>, listed: seq<Value>)
    returns (r: Option<Exceeded>, visited: set<nat>, work: seq<Value>)
    requires Sound(heap) && Fits(heap, v) && ledger.liveBytes > 0
    requires Walking(heap, roots, start, ledger.liveBytes, SlotCost(v) - 32, before, listed, Points(v))
    modifies ledger`liveBytes, ledger`peakBytes
    ensures old(ledger.liveBytes) <= ledger.liveBytes
    ensures Walked(heap, roots, start, ledger.liveBytes, ledger.limit, r, visited, work)
    ensures r.None? ==> ledger.liveBytes <= ledger.limit || ledger.liveBytes == old(ledger.liveBytes)
    ensures r.None? ==> before <= visited <= heap.Keys && (visited == before ==> work == listed)
  {
    hide Total, SumBy, SumOver, Closed, Holds, Forced, Walking, StringBody, ListBody, DictBody, TreeFunction, VmFunction;
    WalkingKeys(heap, roots, start, ledger.liveBytes, SlotCost(v) - 32, before, listed, Points(v));
    r, visited, work := None, before, listed;
    match v {
      case Str(a) => {
        if a in visited {
          Pass(heap, roots, start, ledger.liveBytes, 0, visited, work, {a}, {});
        } else {
          r, visited, work := VisitBody(ledger, heap, roots, start, a, before, listed);
        }
      }
      case List(a) => {
        if a in visited {
          Pass(heap, roots, start, ledger.liveBytes, 0, visited, work, {a}, {});
        } else {
          r, visited, work := VisitBody(ledger, heap, roots, start, a, before, listed);
        }
      }
      case Dict(a) => {
        if a in visited {
          Pass(heap, roots, start, ledger.liveBytes, 0, visited, work, {a}, {});
        } else {
          r, visited, work := VisitBody(ledger, heap, roots, start, a, before, listed);
        }
      }
      case Fn(a) => {
        if a in visited {
          Pass(heap, roots, start, ledger.liveBytes, 0, visited, work, {a}, {});
        } else {
          var cells := heap[a].cells;
          Enter(heap, roots, start, ledger.liveBytes, 0, visited, work, {a}, a);
          visited := visited + {a};
          SizesSaturate(|cells|, 0);
          assert work + [] == work && {a} - {a} + Cells(heap[a]) == Cells(heap[a]);
          r := Pay(ledger, heap, roots, start, TreeFunction(|cells|), 64 + |cells| * 16, visited, work, Cells(heap[a]));
          if r.None? {
            r, visited, work := VisitCells(ledger, heap, roots, start, cells, visited, work);
          }
        }
      }
      case VmFn(cells) => {
        SizesSaturate(|cells|, 0);
        r := Pay(ledger, heap, roots, start, VmFunction(|cells|), 48 + |cells| * 16, visited, work, Points(v));
        if r.None? {
          r, visited, work := VisitCells(ledger, heap, roots, start, cells, visited, work);
        }
      }
      case Error(bytes) => {
        SizesSaturate(bytes, 0);
        r := Pay(ledger, heap, roots, start, StringBody(bytes), 24 + bytes, visited, work, {});
      }
      case Plain => {
      }
    }
  }

  /** Visits a string, a list or a dictionary for the first time: its body is paid for and its slots are listed. */
  method VisitBody(ledger: AllocationLedger, heap: Heap, ghost roots: seq<Value>, ghost start: nat, a: nat,
                   before: set<nat>, listed: seq<Value>)
    returns (r: Option<Exceeded>, visited: set<nat>, work: seq<Value>)
    requires Sound(heap) && a in heap && (heap[a].Text? || heap[a].Items? || heap[a].Entries?) && a !in before
    requires ledger.liveBytes > 0
    requires Walking(heap, roots, start, ledger.liveBytes, 0, before, listed, {a})
    modifies ledger`liveBytes, ledger`peakBytes
    ensures old(ledger.liveBytes) <= ledger.liveBytes
    ensures Walked(heap, roots, start, ledger.liveBytes, ledger.limit, r, visited, work)
    ensures r.None? ==> ledger.liveBytes <= ledger.limit || ledger.liveBytes == old(ledger.liveBytes)
    ensures r.None? ==> before < visited <= heap.Keys
  {
    hide Total, SumBy, SumOver, SlotCost, Fits, Points, Closed, Holds, Forced, Walking, StringBody, ListBody, DictBody;
    var o := heap[a];
    Enter(heap, roots, start, ledger.liveBytes, 0, before, listed, {a}, a);
    visited, work := before + {a}, listed;
    assert {a} - {a} + Cells(o) == {};
    WalkingKeys(heap, roots, start, ledger.liveBytes, Body(o), visited, listed + Slots(o), {});
    var size: U64;
    match o {
      case Text(bytes) => {
        SizesSaturate(bytes, 0);
        size := StringBody(bytes);
      }
      case Items(elements) => {
        SizesSaturate(|elements|, 0);
        size := ListBody(|elements|);
      }
      case Entries(pairs) => {
        var keys := TotalKeyBytes(pairs);
        SizesSaturate(|pairs|, SumBy(pairs, KeyBytes));
        size := DictBody(|pairs|, keys);
      }
    }
    r := Pay(ledger, heap, roots, start, size, Body(o), visited, listed + Slots(o), {});
    if r.Some? {
      return;
    }
    match o {
      case Text(_) =>
      case Items(elements) => work := ListElements(elements, listed);
      case Entries(pairs) => work := ListValues(pairs, listed);
    }
    assert work == listed + Slots(o);
  }

  /** Lists the elements of a list. */
  method ListElements(elements: seq<Value>, listed: seq<Value>) returns (work: seq<Value>)
    ensures work == listed + elements
  {
    work := listed;
    for i := 0 to |elements|
      invariant work == listed + elements[..i]
    {
      work := work + [elements[i]];
    }
    assert elements[..|elements|] == elements;
  }

  /** Lists the values of a dictionary, in the order of its keys. */
  method ListValues(pairs: seq<Entry>, listed: seq<Value>) returns (work: seq<Value>)
    ensures work == listed + Values(pairs)
  {
    work := listed;
    for i := 0 to |pairs|
      invariant work == listed + Values(pairs)[..i]
    {
      work := work + [pairs[i].value];
    }
    assert Values(pairs)[..|pairs|] == Values(pairs);
  }

  lemma PaidPart(heap: Heap, roots: seq<Value>, start: nat, live: nat, due: nat, paid: nat,
                 visited: set<nat>, work: seq<Value>, hand: set<nat>)
    requires Walking(heap, roots, start, live, due, visited, work, hand) && paid <= due
    ensures Walking(heap, roots, start, live + paid, due - paid, visited, work, hand)
  {
    hide SumOver, SumBy, SlotCost, Slots, Cells, Fits, Points, Closed, Holds, Forced;
  }

  /** Takes the last listed slot: pays for it, and visits what its value points at. */
  method VisitSlot(ledger: AllocationLedger, heap: Heap, ghost roots: seq<Value>, ghost start: nat,
                   before: set<nat>, listed: seq<Value>)
    returns (r: Option<Exceeded>, visited: set<nat>, work: seq<Value>)
    requires Sound(heap) && listed != []
    requires Walking(heap, roots, start, ledger.liveBytes, 0, before, listed, {})
    modifies ledger`liveBytes, ledger`peakBytes
    ensures old(ledger.liveBytes) <= ledger.liveBytes
    ensures Walked(heap, roots, start, ledger.liveBytes, ledger.limit, r, visited, work)
    ensures r.None? ==> ledger.liveBytes <= ledger.limit
    ensures r.None? ==> before <= visited <= heap.Keys && (visited == before ==> work == listed[..|listed| - 1])
  {
    hide Total, SumBy, SumOver, Fits, Points, Closed, Holds, Forced, Walking;
    var v := listed[|listed| - 1];
    LastFits(heap, roots, start, ledger.liveBytes, before, listed);
    Pop(heap, roots, start, ledger.liveBytes, before, listed);
    visited, work := before, listed[..|listed| - 1];
    WithinTotal(heap, roots, start, ledger.liveBytes, SlotCost(v), visited, work, Points(v));
    PaidPart(heap, roots, start, ledger.liveBytes, SlotCost(v), 32, visited, work, Points(v));
    r := ledger.Charge(VALUE_SLOT);
    if r.None? {
      r, visited, work := VisitValue(ledger, heap, roots, start, v, visited, work);
    }
  }

  lemma LastFits(heap: Heap, roots: seq<Value>, start: nat, live: nat, visited: set<nat>, work: seq<Value>)
    requires work != [] && Walking(heap, roots, start, live, 0, visited, work, {})
    ensures Fits(heap, work[|work| - 1])
  {
    hide SumOver, SumBy, SlotCost, Slots, Cells, Fits, Points, Closed, Holds, Forced;
    assert work[|work| - 1] in work;
  }

  /** The baseline is charged exactly when all of it fits: each reachable object once, each slot once. When it does
      not fit, no more than the whole was charged before the walk stopped. */
  method ChargeContextBaseline(ledger: AllocationLedger, heap: Heap, roots: seq<Value>) returns (r: Option<Exceeded>)
    requires Sound(heap) && forall v :: v in roots ==> Fits(heap, v)
    modifies ledger`liveBytes, ledger`peakBytes
    ensures r.None? <==> roots == [] || old(ledger.liveBytes) + Total(heap, roots) <= ledger.limit
    ensures r.None? ==> ledger.liveBytes == old(ledger.liveBytes) + Total(heap, roots)
    ensures r.Some? ==> old(ledger.liveBytes) <= ledger.liveBytes <= old(ledger.liveBytes) + Total(heap, roots)
  {
    hide Total, SumBy, SumOver, Fits, Points, Closed, Holds, Forced, Walking;
    ghost var start := ledger.liveBytes;
    var visited: set<nat>, work := {}, roots;
    Begin(heap, roots, start);
    while work != []
      invariant Walking(heap, roots, start, ledger.liveBytes, 0, visited, work, {})
      invariant visited <= heap.Keys && start <= ledger.liveBytes
      invariant work == roots || ledger.liveBytes <= ledger.limit
      invariant roots == [] ==> work == []
      decreases |heap.Keys - visited|, |work|
    {
      ghost var before := visited;
      r, visited, work := VisitSlot(ledger, heap, roots, start, visited, work);
      if r.Some? {
        return;
      }
      if before != visited {
        Fewer(heap.Keys, before, visited);
      }
    }
    Finish(heap, roots, start, ledger.liveBytes, visited);
    r := None;
  }

  lemma Fewer(all: set<nat>, s: set<nat>, t: set<nat>)
    requires s < t <= all
    ensures |all - t| < |all - s|
  {
    assert s != t && s + (t - s) == t;
    assert t - s != {};
    var a :| a in t - s;
    assert all - t <= all - s - {a};
    Smaller(all - t, all - s - {a});
  }

  lemma {:induction false} Smaller(s: set<nat>, t: set<nat>)
    requires s <= t
    ensures |s| <= |t|
  {
    if s != {} {
      var a :| a in s;
      Smaller(s - {a}, t - {a});
    }
  }

  // ----- Order does not matter -----

  /** The same object, with whatever a hash map keeps in no order listed in another order. */
  predicate Reordered(o: Object, p: Object) {
    match o
    case Text(_) => p == o
    case Items(elements) => p.Items? && multiset(p.elements) == multiset(elements)
    case Entries(pairs) => p.Entries? && multiset(p.pairs) == multiset(pairs)
    case CapturedMap(cells) => p.CapturedMap? && multiset(p.cells) == multiset(cells)
    case Cell(_) => p == o
  }

  predicate SameGraph(heap: Heap, other: Heap) {
    heap.Keys == other.Keys && forall a :: a in heap ==> Reordered(heap[a], other[a])
  }

  lemma {:induction false} SumByReordered<T>(s: seq<T>, t: seq<T>, f: T -> nat)
    requires multiset(s) == multiset(t)
    ensures |s| == |t| && SumBy(s, f) == SumBy(t, f)
  {
    assert |s| == |multiset(s)| && |t| == |multiset(t)|;
    if s != [] {
      var x, init := s[|s| - 1], s[..|s| - 1];
      assert s == init + [x];
      assert x in multiset(t);
      var i :| 0 <= i < |t| && t[i] == x;
      var front, back := t[..i], t[i + 1..];
      assert t == front + [x] + back;
      assert multiset(s) == multiset(init) + multiset{x};
      assert multiset(t) == multiset(front + back) + multiset{x};
      assert multiset(init) == multiset(s) - multiset{x};
      SumByReordered(init, front + back, f);
      SumByAppend(front, back, f);
      SumByAppend(front + [x], back, f);
      SumByAppend(front, [x], f);
      assert SumBy([x], f) == SumBy([x][..0], f) + f(x) == f(x);
    }
  }

  lemma {:induction false} ValuesCost(pairs: seq<Entry>)
    ensures SumBy(Values(pairs), SlotCost) == SumBy(pairs, EntryCost)
  {
    if pairs != [] {
      var n := |pairs| - 1;
      ValuesCost(pairs[..n]);
      assert Values(pairs)[..n] == Values(pairs[..n]);
    }
  }

  lemma ReorderedCosts(o: Object, p: Object)
    requires Reordered(o, p)
    ensures Weight(o) == Weight(p)
  {
    match o {
      case Items(elements) => {
        SumByReordered(elements, p.elements, SlotCost);
      }
      case Entries(pairs) => {
        SumByReordered(pairs, p.pairs, KeyBytes);
        SumByReordered(pairs, p.pairs, EntryCost);
        ValuesCost(pairs);
        ValuesCost(p.pairs);
      }
      case CapturedMap(cells) => {
        assert |cells| == |multiset(cells)| && |p.cells| == |multiset(p.cells)|;
      }
      case _ => {
      }
    }
  }

  lemma SameElements<T>(s: seq<T>, t: seq<T>)
    requires multiset(s) == multiset(t)
    ensures forall x :: x in s <==> x in t
  {
    forall x: T
      ensures x in s <==> x in t
    {
      assert x in s <==> x in multiset(s);
      assert x in t <==> x in multiset(t);
    }
  }

  lemma ReorderedLeads(o: Object, p: Object)
    requires Reordered(o, p)
    ensures Cells(o) == Cells(p) && forall v :: v in Slots(o) ==> v in Slots(p)
  {
    match o {
      case Items(elements) => {
        SameElements(elements, p.elements);
      }
      case Entries(pairs) => {
        SameElements(pairs, p.pairs);
        forall v | v in Slots(o)
          ensures v in Slots(p)
        {
          var i :| 0 <= i < |Values(pairs)| && Values(pairs)[i] == v;
          assert pairs[i] in p.pairs;
          var j :| 0 <= j < |p.pairs| && p.pairs[j] == pairs[i];
          assert Values(p.pairs)[j] == v;
        }
      }
      case CapturedMap(cells) => {
        SameElements(cells, p.cells);
      }
      case _ => {
      }
    }
  }

  lemma ReorderedBack(o: Object, p: Object)
    requires Reordered(o, p)
    ensures Reordered(p, o)
  {
  }

  lemma ClosedCarries(heap: Heap, other: Heap, w: set<nat>)
    requires SameGraph(heap, other) && Closed(other, w)
    ensures Closed(heap, w)
  {
    hide Reordered, Slots, Cells, Points;
    forall a | a in w
      ensures a in heap && Cells(heap[a]) <= w && forall v :: v in Slots(heap[a]) ==> Points(v) <= w
    {
      ReorderedLeads(heap[a], other[a]);
    }
  }

  lemma GraphBack(heap: Heap, other: Heap)
    requires SameGraph(heap, other)
    ensures SameGraph(other, heap)
  {
    hide Reordered;
    forall a | a in other
      ensures Reordered(other[a], heap[a])
    {
      ReorderedBack(heap[a], other[a]);
    }
  }

  lemma ReachCarries(heap: Heap, other: Heap, roots: seq<Value>, others: seq<Value>)
    requires SameGraph(heap, other) && multiset(roots) == multiset(others)
    ensures Reach(heap, roots) <= Reach(other, others)
  {
    hide Closed, Points, SameGraph;
    SameElements(roots, others);
    GraphBack(heap, other);
    forall a | a in Reach(heap, roots)
      ensures Forced(other, others, {a})
    {
      forall w: set<nat> | Closed(other, w) && Holds(w, others)
        ensures {a} <= w
      {
        ClosedCarries(heap, other, w);
        assert Holds(w, roots);
      }
    }
    GraphKeys(heap, other);
  }

  lemma GraphKeys(heap: Heap, other: Heap)
    requires SameGraph(heap, other)
    ensures heap.Keys == other.Keys
  {
  }

  lemma {:induction false} SumCarries(heap: Heap, other: Heap, s: set<nat>)
    requires SameGraph(heap, other) && s <= heap.Keys
    ensures SumOver(heap, s) == SumOver(other, s)
    decreases |s|
  {
    hide Reordered, Weight;
    if s != {} {
      var a :| a in s;
      SumCarries(heap, other, s - {a});
      SumAdd(heap, s - {a}, a);
      SumAdd(other, s - {a}, a);
      ReorderedCosts(heap[a], other[a]);
      assert s - {a} + {a} == s;
    }
  }

  /** The sum, and so whether the baseline fits, does not depend on the order of the roots or of any map. */
  lemma OrderDoesNotMatter(heap: Heap, other: Heap, roots: seq<Value>, others: seq<Value>)
    requires SameGraph(heap, other) && multiset(roots) == multiset(others)
    ensures Total(heap, roots) == Total(other, others)
  {
    hide SameGraph, SumOver, SumBy, Reach;
    GraphBack(heap, other);
    ReachCarries(heap, other, roots, others);
    ReachCarries(other, heap, others, roots);
    SumByReordered(roots, others, SlotCost);
    ReachKeys(heap, roots);
    SumCarries(heap, other, Reach(heap, roots));
    assert Reach(heap, roots) == Reach(other, others);
  }

  lemma ReachKeys(heap: Heap, roots: seq<Value>)
    ensures Reach(heap, roots) <= heap.Keys
  {
  }

  /** A further reference to what is reachable already costs its slot and nothing else. */
  lemma SharingCostsOneSlot(heap: Heap, roots: seq<Value>, v: Value)
    requires Points(v) <= Reach(heap, roots)
    ensures Total(heap, roots + [v]) == Total(heap, roots) + SlotCost(v)
  {
    hide Closed, Points, SumOver, SlotCost;
    var more := roots + [v];
    assert more[..|roots|] == roots;
    forall w: set<nat> | Closed(heap, w)
      ensures Holds(w, roots) <==> Holds(w, more)
    {
      assert forall u :: u in roots ==> u in more;
      if Holds(w, roots) {
        forall a | a in Points(v)
          ensures a in w
        {
          assert Forced(heap, roots, {a});
        }
      }
    }
    assert Reach(heap, roots) == Reach(heap, more);
  }
}

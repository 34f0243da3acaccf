/** Capturing only the names a body mentions is enough: whichever of the two ways each run captures, evaluation takes
    the same course, step for step, and the values it leaves differ in nothing but cells no one can name. */
module CaptureSuffices {
  import opened Syntax
  import opened Closures

  // ----- Values up to what closures cannot name -----

  function Norm(v: Value): Value {
    match v
    case VScalar(_) => v
    case VList(items) => VList(NormAll(items))
    case VDict(entries) => VDict(NormEntries(entries))
    case VFn(id, name, params, code, captured) => VFn(id, name, params, code, Only(captured, NamesOf(code)))
  }

  function NormAll(vs: seq<Value>): (r: seq<Value>)
    ensures |r| == |vs|
  {
    if vs == [] then [] else [Norm(vs[0])] + NormAll(vs[1..])
  }

  function NormEntry(e: Entry): Entry { Entry(e.key, Norm(e.value)) }

  function NormEntries(es: seq<Entry>): (r: seq<Entry>)
    ensures |r| == |es|
  {
    if es == [] then [] else [NormEntry(es[0])] + NormEntries(es[1..])
  }

  predicate Rel(v: Value, w: Value) { Norm(v) == Norm(w) }

  predicate RelAll(vs: seq<Value>, ws: seq<Value>) { NormAll(vs) == NormAll(ws) }

  predicate RelEntries(es: seq<Entry>, fs: seq<Entry>) { NormEntries(es) == NormEntries(fs) }

  predicate RelState(s: State, t: State) {
    && |s.cells| == |t.cells| && (forall i :: 0 <= i < |s.cells| ==> Rel(s.cells[i], t.cells[i]))
    && s.steps == t.steps && s.out == t.out && s.nextId == t.nextId
  }

  predicate RelOutcome(r: Outcome<Value>, q: Outcome<Value>) {
    match r
    case Good(v) => q.Good? && Rel(v, q.value)
    case Bad(f) => q == r
  }

  predicate RelOutcomes(r: Outcome<seq<Value>>, q: Outcome<seq<Value>>) {
    match r
    case Good(vs) => q.Good? && RelAll(vs, q.value)
    case Bad(f) => q == r
  }

  predicate RelEntriesOutcome(r: Outcome<seq<Entry>>, q: Outcome<seq<Entry>>) {
    match r
    case Good(es) => q.Good? && RelEntries(es, q.value)
    case Bad(f) => q == r
  }

  predicate RelRes(r: Res<Value>, q: Res<Value>) { RelOutcome(r.result, q.result) && RelState(r.st, q.st) }

  predicate RelFlow(f: Flow, g: Flow) {
    match f
    case Returning(v) => g.Returning? && Rel(v, g.value)
    case _ => g == f
  }

  // ----- Operations cannot tell -----

  lemma RelScalar(v: Value, w: Value)
    requires Rel(v, w)
    ensures v.VScalar? <==> w.VScalar?
    ensures v.VScalar? ==> v == w
    ensures v.VList? <==> w.VList?
    ensures v.VList? ==> RelAll(v.items, w.items) && |v.items| == |w.items|
    ensures v.VDict? <==> w.VDict?
    ensures v.VDict? ==> RelEntries(v.entries, w.entries) && |v.entries| == |w.entries|
    ensures v.VFn? <==> w.VFn?
    ensures v.VFn? ==> v.id == w.id && v.name == w.name && v.params == w.params && v.code == w.code
                       && Only(v.captured, NamesOf(v.code)) == Only(w.captured, NamesOf(v.code))
  {
    hide NamesOf, Only;
    assert v.VList? ==> |NormAll(v.items)| == |v.items|;
    assert w.VList? ==> |NormAll(w.items)| == |w.items|;
    assert v.VDict? ==> |NormEntries(v.entries)| == |v.entries|;
    assert w.VDict? ==> |NormEntries(w.entries)| == |w.entries|;
  }

  lemma TruthySame(host: Host, v: Value, w: Value)
    requires Rel(v, w)
    ensures Truthy(host, v) == Truthy(host, w)
  {
    hide Norm, NormAll, NormEntries, NamesOf, Only;
    RelScalar(v, w);
  }

  lemma {:induction false} EqualNorm(host: Host, v: Value, w: Value)
    ensures Equal(host, Norm(v), Norm(w)) == Equal(host, v, w)
    decreases v
  {
    hide NamesOf, Only;
    match v {
      case VList(items) => {
        if w.VList? && |items| == |w.items| {
          EqualAllNorm(host, items, w.items);
        }
      }
      case VDict(entries) => {
        if w.VDict? && |entries| == |w.entries| {
          EqualEntriesNorm(host, entries, w.entries);
        }
      }
      case _ => {
      }
    }
  }

  lemma {:induction false} EqualAllNorm(host: Host, vs: seq<Value>, ws: seq<Value>)
    requires |vs| == |ws|
    ensures EqualAll(host, NormAll(vs), NormAll(ws)) == EqualAll(host, vs, ws)
    decreases vs
  {
    hide Norm, Equal;
    if vs != [] {
      EqualNorm(host, vs[0], ws[0]);
      EqualAllNorm(host, vs[1..], ws[1..]);
      assert NormAll(vs)[1..] == NormAll(vs[1..]) && NormAll(ws)[1..] == NormAll(ws[1..]);
    }
  }

  lemma {:induction false} EqualEntryNorm(host: Host, e: Entry, f: Entry)
    ensures EqualEntry(host, NormEntry(e), NormEntry(f)) == EqualEntry(host, e, f)
    decreases e
  {
    hide Norm, Equal;
    EqualNorm(host, e.value, f.value);
  }

  lemma {:induction false} EqualEntriesNorm(host: Host, es: seq<Entry>, fs: seq<Entry>)
    requires |es| == |fs|
    ensures EqualEntries(host, NormEntries(es), NormEntries(fs)) == EqualEntries(host, es, fs)
    decreases es
  {
    hide NormEntry, EqualEntry;
    if es != [] {
      EqualEntryNorm(host, es[0], fs[0]);
      EqualEntriesNorm(host, es[1..], fs[1..]);
      assert NormEntries(es)[1..] == NormEntries(es[1..]) && NormEntries(fs)[1..] == NormEntries(fs[1..]);
    }
  }

  lemma {:induction false} ShowNorm(host: Host, v: Value, nested: bool)
    ensures Show(host, Norm(v), nested) == Show(host, v, nested)
    decreases v
  {
    hide NamesOf, Only;
    match v {
      case VList(items) => {
        ShowAllNorm(host, items);
      }
      case VDict(entries) => {
        ShowEntriesNorm(host, entries);
      }
      case _ => {
      }
    }
  }

  lemma {:induction false} ShowAllNorm(host: Host, vs: seq<Value>)
    ensures ShowAll(host, NormAll(vs)) == ShowAll(host, vs)
    decreases vs
  {
    hide Norm, Show;
    if vs != [] {
      ShowNorm(host, vs[0], true);
      ShowAllNorm(host, vs[1..]);
      assert NormAll(vs)[1..] == NormAll(vs[1..]);
    }
  }

  lemma {:induction false} ShowEntryNorm(host: Host, e: Entry)
    ensures ShowEntry(host, NormEntry(e)) == ShowEntry(host, e)
    decreases e
  {
    hide Norm, Show;
    ShowNorm(host, e.value, true);
  }

  lemma {:induction false} ShowEntriesNorm(host: Host, es: seq<Entry>)
    ensures ShowEntries(host, NormEntries(es)) == ShowEntries(host, es)
    decreases es
  {
    hide NormEntry, ShowEntry;
    if es != [] {
      ShowEntryNorm(host, es[0]);
      ShowEntriesNorm(host, es[1..]);
      assert NormEntries(es)[1..] == NormEntries(es[1..]);
    }
  }

  lemma {:induction false} LineNorm(host: Host, vs: seq<Value>)
    ensures Line(host, NormAll(vs)) == Line(host, vs)
  {
    hide Norm, Show;
    if vs != [] {
      ShowNorm(host, vs[0], false);
      LineNorm(host, vs[1..]);
      assert NormAll(vs)[1..] == NormAll(vs[1..]);
    }
  }

  lemma {:induction false} NormAllAt(vs: seq<Value>, k: nat)
    requires k < |vs|
    ensures NormAll(vs)[k] == Norm(vs[k])
  {
    hide Norm;
    if k > 0 {
      NormAllAt(vs[1..], k - 1);
    }
  }

  lemma RelAllAt(vs: seq<Value>, ws: seq<Value>, k: nat)
    requires RelAll(vs, ws) && k < |vs|
    ensures |vs| == |ws| && Rel(vs[k], ws[k])
  {
    hide Norm;
    assert |NormAll(vs)| == |vs| && |NormAll(ws)| == |ws|;
    NormAllAt(vs, k);
    NormAllAt(ws, k);
  }

  lemma RelAllIntro(vs: seq<Value>, ws: seq<Value>)
    requires |vs| == |ws| && forall k :: 0 <= k < |vs| ==> Rel(vs[k], ws[k])
    ensures RelAll(vs, ws)
  {
    hide Norm, NormAll;
    var a, b := NormAll(vs), NormAll(ws);
    forall k | 0 <= k < |vs|
      ensures a[k] == b[k]
    {
      NormAllAt(vs, k);
      NormAllAt(ws, k);
    }
    assert a == b;
  }

  lemma RelAllHead(vs: seq<Value>, ws: seq<Value>)
    requires RelAll(vs, ws) && vs != []
    ensures ws != [] && Rel(vs[0], ws[0]) && RelAll(vs[1..], ws[1..])
  {
    hide Norm;
    assert |NormAll(vs)| == |vs| && |NormAll(ws)| == |ws|;
    assert NormAll(vs)[0] == Norm(vs[0]) && NormAll(ws)[0] == Norm(ws[0]);
    assert NormAll(vs)[1..] == NormAll(vs[1..]) && NormAll(ws)[1..] == NormAll(ws[1..]);
  }

  lemma RelEntriesHead(es: seq<Entry>, fs: seq<Entry>)
    requires RelEntries(es, fs) && es != []
    ensures fs != [] && es[0].key == fs[0].key && Rel(es[0].value, fs[0].value) && RelEntries(es[1..], fs[1..])
  {
    hide Norm;
    assert |NormEntries(es)| == |es| && |NormEntries(fs)| == |fs|;
    assert NormEntries(es)[0] == NormEntry(es[0]) && NormEntries(fs)[0] == NormEntry(fs[0]);
    assert NormEntries(es)[1..] == NormEntries(es[1..]) && NormEntries(fs)[1..] == NormEntries(fs[1..]);
  }

  lemma RelEntriesCons(e: Entry, f: Entry, es: seq<Entry>, fs: seq<Entry>)
    requires e.key == f.key && Rel(e.value, f.value) && RelEntries(es, fs)
    ensures RelEntries([e] + es, [f] + fs)
  {
    hide Norm;
    assert ([e] + es)[1..] == es && ([f] + fs)[1..] == fs;
    assert ([e] + es)[0] == e && ([f] + fs)[0] == f;
    assert NormEntries([e] + es) == [NormEntry(e)] + NormEntries(es);
    assert NormEntries([f] + fs) == [NormEntry(f)] + NormEntries(fs);
    assert NormEntry(e) == NormEntry(f);
  }

  lemma RelEntriesSize(es: seq<Entry>, fs: seq<Entry>)
    requires RelEntries(es, fs)
    ensures |es| == |fs|
  {
    assert |NormEntries(es)| == |es| && |NormEntries(fs)| == |fs|;
  }

  lemma {:induction false} LookupSame(es: seq<Entry>, fs: seq<Entry>, key: string)
    requires RelEntries(es, fs)
    ensures Rel(Lookup(es, key), Lookup(fs, key))
  {
    hide RelEntries;
    RelEntriesSize(es, fs);
    if es != [] {
      RelEntriesHead(es, fs);
      LookupSame(es[1..], fs[1..], key);
    }
  }

  lemma {:induction false} InsertSame(host: Host, es: seq<Entry>, fs: seq<Entry>, key: string, v: Value, w: Value)
    requires RelEntries(es, fs) && Rel(v, w)
    ensures RelEntries(Insert(host, es, key, v), Insert(host, fs, key, w))
  {
    hide RelEntries, Rel;
    RelEntriesSize(es, fs);
    if es != [] {
      RelEntriesHead(es, fs);
    }
    if es == [] || host.before(key, es[0].key) {
      RelEntriesCons(Entry(key, v), Entry(key, w), es, fs);
    } else if es[0].key == key {
      RelEntriesCons(Entry(key, v), Entry(key, w), es[1..], fs[1..]);
    } else {
      InsertSame(host, es[1..], fs[1..], key, v, w);
      RelEntriesCons(es[0], fs[0], Insert(host, es[1..], key, v), Insert(host, fs[1..], key, w));
    }
  }

  // ----- Limits -----

  lemma {:induction false} DepthNorm(v: Value)
    ensures Depth(Norm(v)) == Depth(v)
    decreases v
  {
    hide NamesOf, Only;
    match v {
      case VList(items) => {
        MaxDepthNorm(items);
      }
      case VDict(entries) => {
        MaxDepthInNorm(entries);
      }
      case _ => {
      }
    }
  }

  lemma {:induction false} MaxDepthNorm(vs: seq<Value>)
    ensures MaxDepth(NormAll(vs)) == MaxDepth(vs)
    decreases vs
  {
    hide Norm, Depth;
    if vs != [] {
      DepthNorm(vs[0]);
      MaxDepthNorm(vs[1..]);
      assert NormAll(vs)[1..] == NormAll(vs[1..]);
    }
  }

  lemma {:induction false} DepthInNorm(e: Entry)
    ensures DepthIn(NormEntry(e)) == DepthIn(e)
    decreases e
  {
    hide Norm, Depth;
    DepthNorm(e.value);
  }

  lemma {:induction false} MaxDepthInNorm(es: seq<Entry>)
    ensures MaxDepthIn(NormEntries(es)) == MaxDepthIn(es)
    decreases es
  {
    hide NormEntry, DepthIn;
    if es != [] {
      DepthInNorm(es[0]);
      MaxDepthInNorm(es[1..]);
      assert NormEntries(es)[1..] == NormEntries(es[1..]);
    }
  }

  lemma TooDeepSame(v: Value, w: Value)
    requires Rel(v, w)
    ensures TooDeep(v) <==> TooDeep(w)
  {
    hide Norm, Depth;
    DepthNorm(v);
    DepthNorm(w);
  }

  lemma AppendedSame(host: Host, vs: seq<Value>, ws: seq<Value>, v: Value, w: Value)
    requires RelAll(vs, ws) && Rel(v, w)
    ensures RelOutcomes(Appended(host, vs, v), Appended(host, ws, w))
  {
    hide Rel, RelAll, TooDeep;
    TooDeepSame(v, w);
    assert |vs| == |ws| by {
      RelAllLength(vs, ws);
    }
    forall k | 0 <= k < |vs + [v]|
      ensures Rel((vs + [v])[k], (ws + [w])[k])
    {
      if k < |vs| {
        RelAllAt(vs, ws, k);
      }
    }
    RelAllIntro(vs + [v], ws + [w]);
  }

  lemma RelAllLength(vs: seq<Value>, ws: seq<Value>)
    requires RelAll(vs, ws)
    ensures |vs| == |ws|
  {
    assert |NormAll(vs)| == |vs| && |NormAll(ws)| == |ws|;
  }

  lemma {:induction false} HasKeySame(es: seq<Entry>, fs: seq<Entry>, key: string)
    requires RelEntries(es, fs)
    ensures HasKey(es, key) <==> HasKey(fs, key)
  {
    hide RelEntries, Rel;
    RelEntriesSize(es, fs);
    if es != [] {
      RelEntriesHead(es, fs);
      HasKeySame(es[1..], fs[1..], key);
    }
  }

  lemma EnteredSame(host: Host, es: seq<Entry>, fs: seq<Entry>, key: string, v: Value, w: Value)
    requires RelEntries(es, fs) && Rel(v, w)
    ensures RelEntriesOutcome(Entered(host, es, key, v), Entered(host, fs, key, w))
  {
    hide RelEntries, Rel, TooDeep, HasKey, Insert;
    RelEntriesSize(es, fs);
    HasKeySame(es, fs, key);
    TooDeepSame(v, w);
    InsertSame(host, es, fs, key, v, w);
  }

  lemma EqualSame(host: Host, v: Value, w: Value, x: Value, y: Value)
    requires Rel(v, x) && Rel(w, y)
    ensures Equal(host, v, w) == Equal(host, x, y)
  {
    hide Norm, Equal;
    EqualNorm(host, v, w);
    EqualNorm(host, x, y);
  }

  lemma BinopSame(host: Host, op: BinOp, v: Value, w: Value, x: Value, y: Value)
    requires Rel(v, x) && Rel(w, y)
    ensures RelOutcome(Binop(host, op, v, w), Binop(host, op, x, y))
  {
    hide Equal, Rel;
    EqualSame(host, v, w, x, y);
    RelScalar(v, x);
    RelScalar(w, y);
    RelSelf(Binop(host, op, v, w));
  }

  lemma RelSelf(r: Outcome<Value>)
    ensures RelOutcome(r, r)
  {
    hide Norm;
  }

  lemma UnopSame(host: Host, op: UnaryOp, v: Value, x: Value)
    requires Rel(v, x)
    ensures RelOutcome(Unop(host, op, v), Unop(host, op, x))
  {
    hide Rel;
    TruthySame(host, v, x);
    RelScalar(v, x);
    RelSelf(Unop(host, op, v));
  }

  lemma AtSame(host: Host, v: Value, i: Value, w: Value, j: Value)
    requires Rel(v, w) && Rel(i, j)
    ensures RelOutcome(At(host, v, i), At(host, w, j))
  {
    hide Rel, RelAll, RelEntries, Only, NamesOf;
    RelScalar(v, w);
    RelScalar(i, j);
    match v {
      case VList(items) => {
        if Place(i, |items|).Good? {
          RelAllAt(items, w.items, Place(i, |items|).value);
        }
      }
      case VDict(entries) => {
        if i.VScalar? && i.scalar.Str? {
          LookupSame(entries, w.entries, i.scalar.s);
        }
      }
      case _ => {
        RelSelf(At(host, v, i));
      }
    }
  }

  lemma AssignAtSame(host: Host, v: Value, i: Value, x: Value, w: Value, j: Value, y: Value)
    requires Rel(v, w) && Rel(i, j) && Rel(x, y)
    ensures RelOutcome(AssignAt(host, v, i, x), AssignAt(host, w, j, y))
  {
    hide Rel, RelAll, RelEntries, Only, NamesOf, TooDeep, Entered;
    RelScalar(v, w);
    RelScalar(i, j);
    TooDeepSame(x, y);
    match v {
      case VList(items) => {
        var k := Place(i, |items|);
        if k.Good? {
          var a, b := items[k.value := x], w.items[k.value := y];
          forall n | 0 <= n < |a|
            ensures Rel(a[n], b[n])
          {
            RelAllAt(items, w.items, n);
          }
          RelAllIntro(a, b);
          RelLists(a, b);
        }
      }
      case VDict(entries) => {
        if i.VScalar? && i.scalar.Str? {
          EnteredSame(host, entries, w.entries, i.scalar.s, x, y);
          var es, fs := Entered(host, entries, i.scalar.s, x), Entered(host, w.entries, i.scalar.s, y);
          if es.Good? {
            RelDicts(es.value, fs.value);
          }
        }
      }
      case _ => {
      }
    }
  }

  lemma RelLists(vs: seq<Value>, ws: seq<Value>)
    requires RelAll(vs, ws)
    ensures Rel(VList(vs), VList(ws))
  {
  }

  lemma RelDicts(es: seq<Entry>, fs: seq<Entry>)
    requires RelEntries(es, fs)
    ensures Rel(VDict(es), VDict(fs))
  {
  }

  lemma {:induction false} KeysSame(es: seq<Entry>, fs: seq<Entry>)
    requires RelEntries(es, fs)
    ensures Keys(es) == Keys(fs)
  {
    hide RelEntries, Rel;
    RelEntriesSize(es, fs);
    if es != [] {
      RelEntriesHead(es, fs);
      KeysSame(es[1..], fs[1..]);
    }
  }

  lemma ItemsSame(host: Host, v: Value, w: Value)
    requires Rel(v, w)
    ensures RelOutcomes(Items(host, v), Items(host, w))
  {
    hide Rel, RelEntries, Only, NamesOf, NormAll;
    RelScalar(v, w);
    if v.VDict? {
      KeysSame(v.entries, w.entries);
    }
  }

  // ----- Names -----

  /** Every name mentioned below is among these. */
  predicate Covers(names: set<string>, ns: seq<Node>) { forall n :: n in Flat(ns) ==> OwnNames(n) <= names }

  lemma CoversParts(names: set<string>, a: seq<Node>, b: seq<Node>)
    requires Covers(names, a + b)
    ensures Covers(names, a) && Covers(names, b)
  {
    hide Flat, OwnNames;
    FlatAppend(a, b);
  }

  lemma CoversInside(names: set<string>, n: Node)
    requires Covers(names, [n])
    ensures OwnNames(n) <= names && Covers(names, Kids(n))
    ensures Closure(n).Some? ==> NamesOf(Closure(n).value) <= names
  {
    hide Flat, OwnNames, Kids;
    FlatOnce(n);
    if Closure(n).Some? {
      FlatAppend(Kids(n), Stmts(Closure(n).value.stmts));
    }
  }

  lemma FlatOnce(n: Node)
    ensures Flat([n]) == [n] + Flat(Inside(n))
  {
    hide Inside;
    assert Flat([n][1..]) == [];
  }

  lemma CoversBody(b: Block)
    ensures Covers(NamesOf(b), Stmts(b.stmts))
  {
    hide Flat, OwnNames, Stmts;
    forall n | n in Flat(Stmts(b.stmts))
      ensures OwnNames(n) <= NamesOf(b)
    {
      assert forall x :: x in OwnNames(n) ==> x in NamesOf(b);
    }
  }

  lemma CoversStmts(names: set<string>, ss: seq<Stmt>)
    requires Covers(names, Stmts(ss)) && ss != []
    ensures Covers(names, [S(ss[0])]) && Covers(names, Stmts(ss[1..]))
  {
    hide Covers;
    assert Stmts(ss) == [S(ss[0])] + Stmts(ss[1..]);
    CoversParts(names, [S(ss[0])], Stmts(ss[1..]));
  }

  lemma CoversExprs(names: set<string>, es: seq<Expr>)
    requires Covers(names, Exprs(es)) && es != []
    ensures Covers(names, [E(es[0])]) && Covers(names, Exprs(es[1..]))
  {
    hide Covers;
    assert Exprs(es) == [E(es[0])] + Exprs(es[1..]);
    CoversParts(names, [E(es[0])], Exprs(es[1..]));
  }

  lemma CoversTwo(names: set<string>, m: Node, n: Node)
    requires Covers(names, [m, n])
    ensures Covers(names, [m]) && Covers(names, [n])
  {
    hide Covers;
    assert [m, n] == [m] + [n];
    CoversParts(names, [m], [n]);
  }

  lemma {:induction false} PairKidsHead(ps: seq<Pair>)
    requires ps != []
    ensures PairKids(ps) == [E(ps[0].key), E(ps[0].value)] + PairKids(ps[1..])
    decreases |ps|
  {
    if |ps| > 1 {
      var init := ps[..|ps| - 1];
      PairKidsHead(init);
      assert init[1..] == ps[1..][..|ps| - 2];
    }
  }

  lemma {:induction false} PartKidsHead(ps: seq<FPart>)
    requires ps != []
    ensures PartKids(ps) == PartKid(ps[0]) + PartKids(ps[1..])
    decreases |ps|
  {
    if |ps| > 1 {
      var init := ps[..|ps| - 1];
      PartKidsHead(init);
      assert init[1..] == ps[1..][..|ps| - 2];
    }
  }

  lemma CoversPairs(names: set<string>, ps: seq<Pair>)
    requires Covers(names, PairKids(ps)) && ps != []
    ensures Covers(names, [E(ps[0].key)]) && Covers(names, [E(ps[0].value)]) && Covers(names, PairKids(ps[1..]))
  {
    hide Covers;
    PairKidsHead(ps);
    CoversParts(names, [E(ps[0].key), E(ps[0].value)], PairKids(ps[1..]));
    CoversTwo(names, E(ps[0].key), E(ps[0].value));
  }

  lemma CoversPartsOf(names: set<string>, ps: seq<FPart>)
    requires Covers(names, PartKids(ps)) && ps != []
    ensures Covers(names, PartKid(ps[0])) && Covers(names, PartKids(ps[1..]))
  {
    hide Covers;
    PartKidsHead(ps);
    CoversParts(names, PartKid(ps[0]), PartKids(ps[1..]));
  }

  // ----- Environments -----

  /** The same globals, and the same cell for every one of these names. */
  predicate Agree(names: set<string>, a: Env, b: Env) {
    && a.globals == b.globals && a.depth == b.depth && (a.frame == [] <==> b.frame == [])
    && Only(Visible(a), names) == Only(Visible(b), names)
  }

  lemma AgreeAt(names: set<string>, a: Env, b: Env, x: string)
    requires Agree(names, a, b) && x in names
    ensures x in Visible(a) <==> x in Visible(b)
    ensures x in Visible(a) ==> Visible(a)[x] == Visible(b)[x]
  {
    hide Visible;
    assert x in Only(Visible(a), names) <==> x in Visible(a);
    assert x in Only(Visible(b), names) <==> x in Visible(b);
  }

  lemma BindVisible(env: Env, name: string, cell: nat)
    ensures Visible(Bind(env, name, cell)) == Visible(env)[name := cell]
  {
    if env.frame != [] {
      var last := |env.frame| - 1;
      assert Bind(env, name, cell).frame[..last] == env.frame[..last];
    }
  }

  lemma PushVisible(env: Env)
    ensures Visible(Push(env)) == Visible(env)
  {
    assert Push(env).frame[..|env.frame|] == env.frame;
  }

  lemma BindAgrees(names: set<string>, a: Env, b: Env, name: string, cell: nat)
    requires Agree(names, a, b)
    ensures Agree(names, Bind(a, name, cell), Bind(b, name, cell))
  {
    hide Visible;
    BindVisible(a, name, cell);
    BindVisible(b, name, cell);
    var va, vb := Visible(a)[name := cell], Visible(b)[name := cell];
    forall x | x in names
      ensures x in va <==> x in vb
      ensures x in va ==> va[x] == vb[x]
    {
      AgreeAt(names, a, b, x);
    }
    assert Only(va, names) == Only(vb, names);
  }

  lemma PushAgrees(names: set<string>, a: Env, b: Env)
    requires Agree(names, a, b)
    ensures Agree(names, Push(a), Push(b))
  {
    hide Visible;
    PushVisible(a);
    PushVisible(b);
  }

  lemma DefineSame(names: set<string>, a: Env, b: Env, name: string, v: Value, w: Value, s: State, t: State)
    requires Agree(names, a, b) && Rel(v, w) && RelState(s, t)
    ensures
      var (a1, s1) := Define(a, name, v, s);
      var (b1, t1) := Define(b, name, w, t);
      Agree(names, a1, b1) && RelState(s1, t1)
  {
    hide Agree, Bind, Rel;
    BindAgrees(names, a, b, name, |s.cells|);
  }

  lemma StoreSame(s: State, t: State, k: nat, v: Value, w: Value)
    requires RelState(s, t) && k < |s.cells| && Rel(v, w)
    ensures RelState(s.(cells := s.cells[k := v]), t.(cells := t.cells[k := w]))
  {
    hide Rel;
  }

  lemma ReadSame(names: set<string>, a: Env, b: Env, x: string, s: State, t: State)
    requires Agree(names, a, b) && x in names && RelState(s, t)
    ensures RelOutcome(Read(a, x, s), Read(b, x, t))
    ensures Read(a, x, s).Good? ==> x in Visible(a) && x in Visible(b) && Visible(a)[x] == Visible(b)[x] < |s.cells|
  {
    hide Rel, Visible, Agree;
    AgreeAt(names, a, b, x);
  }

  lemma CaptureSame(p: Policy, q: Policy, names: set<string>, a: Env, b: Env, code: Block)
    requires Agree(names, a, b) && NamesOf(code) <= names
    ensures Only(Capture(p, a, code), NamesOf(code)) == Only(Capture(q, b, code), NamesOf(code))
  {
    hide Visible, NamesOf;
    forall x | x in NamesOf(code)
      ensures x in Visible(a) <==> x in Visible(b)
      ensures x in Visible(a) ==> Visible(a)[x] == Visible(b)[x]
    {
      AgreeAt(names, a, b, x);
    }
    var ca, cb := Capture(p, a, code), Capture(q, b, code);
    assert forall x :: x in NamesOf(code) ==> (x in ca <==> x in Visible(a)) && (x in cb <==> x in Visible(b));
    assert forall x :: x in NamesOf(code) && x in ca ==> ca[x] == Visible(a)[x] && cb[x] == Visible(b)[x];
    assert Only(ca, NamesOf(code)) == Only(cb, NamesOf(code));
  }

  lemma FunctionSame(id: nat, name: string, params: seq<string>, code: Block, c: Scope, d: Scope)
    requires Only(c, NamesOf(code)) == Only(d, NamesOf(code))
    ensures Rel(VFn(id, name, params, code, c), VFn(id, name, params, code, d))
  {
    hide Only, NamesOf;
  }

  lemma InnerAgrees(names: set<string>, a: Env, b: Env, c: Scope, d: Scope, inside: set<string>)
    requires Agree(names, a, b) && Only(c, inside) == Only(d, inside)
    ensures Agree(inside, Env(a.globals, [c], a.depth + 1), Env(b.globals, [d], b.depth + 1))
  {
    hide Visible;
    var x, y := Env(a.globals, [c], a.depth + 1), Env(b.globals, [d], b.depth + 1);
    OneScope(a.globals, c, a.depth + 1);
    OneScope(b.globals, d, b.depth + 1);
    forall n | n in inside
      ensures n in c <==> n in d
      ensures n in c ==> c[n] == d[n]
    {
      assert n in Only(c, inside) <==> n in c;
      assert n in Only(d, inside) <==> n in d;
    }
    assert Only(a.globals + c, inside) == Only(b.globals + d, inside);
  }

  lemma OneScope(globals: Scope, c: Scope, depth: nat)
    ensures Visible(Env(globals, [c], depth)) == globals + c
  {
    assert [c][..0] == [];
    assert Merged([c]) == map[] + c == c;
  }

  lemma {:induction false} ParamsSame(names: set<string>, a: Env, b: Env, params: seq<string>, vs: seq<Value>, ws: seq<Value>, s: State, t: State)
    requires Agree(names, a, b) && RelAll(vs, ws) && RelState(s, t)
    ensures
      var (a1, s1) := Params(a, params, vs, s);
      var (b1, t1) := Params(b, params, ws, t);
      Agree(names, a1, b1) && RelState(s1, t1)
    decreases |params|
  {
    hide Agree, RelState, Rel, Define;
    assert |NormAll(vs)| == |vs| && |NormAll(ws)| == |ws|;
    if params != [] && vs != [] {
      RelAllHead(vs, ws);
      DefineSame(names, a, b, params[0], vs[0], ws[0], s, t);
      var (a1, s1) := Define(a, params[0], vs[0], s);
      var (b1, t1) := Define(b, params[0], ws[0], t);
      ParamsSame(names, a1, b1, params[1..], vs[1..], ws[1..], s1, t1);
    }
  }

  lemma FrameSame(names: set<string>, a: Env, b: Env, f: Value, g: Value, vs: seq<Value>, ws: seq<Value>, s: State, t: State)
    requires f.VFn? && Rel(f, g) && Agree(names, a, b) && RelAll(vs, ws) && RelState(s, t)
    ensures g.VFn? && g.code == f.code
    ensures
      var (a1, s1) := Frame(a, f, vs, s);
      var (b1, t1) := Frame(b, g, ws, t);
      Agree(NamesOf(f.code), a1, b1) && RelState(s1, t1)
  {
    hide RelState, Rel, RelAll, Define, Params, NamesOf;
    RelScalar(f, g);
    var inside := NamesOf(f.code);
    InnerAgrees(names, a, b, f.captured, g.captured, inside);
    var x, y := Env(a.globals, [f.captured], a.depth + 1), Env(b.globals, [g.captured], b.depth + 1);
    if f.name == "<lambda>" {
      ParamsSame(inside, x, y, f.params, vs, ws, s, t);
    } else {
      DefineSame(inside, x, y, f.name, f, g, s, t);
      var (x1, s1) := Define(x, f.name, f, s);
      var (y1, t1) := Define(y, f.name, g, t);
      ParamsSame(inside, x1, y1, f.params, vs, ws, s1, t1);
    }
  }
}

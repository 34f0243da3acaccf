/** What the evaluator with closures makes of the values that the scope-stack evaluator does not have: dictionaries,
    f-strings, functions and their names (`src/value.rs`, `src/eval.rs`). */
module ClosureValues {
  import opened Syntax
  import opened Closures
  import CaptureSuffices

  // ----- Dictionaries -----

  /** Keys come in one order. */
  ghost predicate Ordered(host: Host) {
    && (forall a: string :: !host.before(a, a))
    && (forall a, b, c :: host.before(a, b) && host.before(b, c) ==> host.before(a, c))
    && (forall a, b :: a != b ==> host.before(a, b) || host.before(b, a))
  }

  ghost predicate Sorted(host: Host, es: seq<Entry>) {
    forall i, j :: 0 <= i < j < |es| ==> host.before(es[i].key, es[j].key)
  }

  /** A key occurs once, and the entry found is that of the key; a missing key reads as null. */
  lemma {:induction false} LookupFinds(host: Host, es: seq<Entry>, key: string)
    requires Ordered(host) && Sorted(host, es)
    ensures HasKey(es, key) <==> exists i :: 0 <= i < |es| && es[i].key == key
    ensures forall i :: 0 <= i < |es| && es[i].key == key ==> Lookup(es, key) == es[i].value
    ensures !HasKey(es, key) ==> Lookup(es, key) == VScalar(Null)
    decreases |es|
  {
    if es != [] {
      LookupFinds(host, es[1..], key);
      assert forall i :: 0 < i < |es| ==> es[i] == es[1..][i - 1];
      if HasKey(es[1..], key) {
        var i :| 0 <= i < |es[1..]| && es[1..][i].key == key;
        assert es[i + 1].key == key;
      }
    }
  }

  /** Entering a key keeps the order, makes the dictionary larger only for a new key, and changes what is read under
      that key and under no other. */
  lemma {:induction false} InsertEnters(host: Host, es: seq<Entry>, key: string, v: Value)
    requires Ordered(host) && Sorted(host, es)
    ensures var r := Insert(host, es, key, v);
            && Sorted(host, r) && |r| == |es| + (if HasKey(es, key) then 0 else 1)
            && (forall x :: HasKey(r, x) <==> x == key || HasKey(es, x))
            && (forall x :: Lookup(r, x) == if x == key then v else Lookup(es, x))
            && (forall e :: e in r ==> e == Entry(key, v) || e in es)
    decreases |es|
  {
    hide Ordered, Sorted;
    var r := Insert(host, es, key, v);
    if es == [] {
      assert r == [Entry(key, v)];
      SortedOne(host, r);
    } else {
      SortedParts(host, es);
      if host.before(key, es[0].key) {
        assert r[1..] == es && r[0] == Entry(key, v);
        SortedFront(host, r);
        NotBehind(host, es, key);
      } else if es[0].key == key {
        assert r[1..] == es[1..] && r[0] == Entry(key, v);
        SortedSame(host, es, r);
      } else {
        InsertEnters(host, es[1..], key, v);
        assert r[1..] == Insert(host, es[1..], key, v) && r[0] == es[0];
        OneOrder(host, es[0].key, key);
        SortedFront(host, r);
      }
    }
  }

  lemma SortedOne(host: Host, es: seq<Entry>)
    requires |es| <= 1
    ensures Sorted(host, es)
  {
  }

  lemma SortedParts(host: Host, es: seq<Entry>)
    requires Sorted(host, es) && es != []
    ensures Sorted(host, es[1..]) && forall e :: e in es[1..] ==> host.before(es[0].key, e.key)
  {
  }

  lemma SortedFront(host: Host, es: seq<Entry>)
    requires es != [] && Ordered(host) && Sorted(host, es[1..])
    requires (forall e :: e in es[1..] ==> host.before(es[0].key, e.key)) || (|es| > 1 && host.before(es[0].key, es[1].key))
    ensures Sorted(host, es)
  {
    assert forall i :: 0 < i < |es| ==> es[i] == es[1..][i - 1] && es[i] in es[1..];
  }

  lemma SortedSame(host: Host, es: seq<Entry>, fs: seq<Entry>)
    requires Sorted(host, es) && |es| == |fs| && forall i :: 0 <= i < |es| ==> es[i].key == fs[i].key
    ensures Sorted(host, fs)
  {
  }

  lemma OneOrder(host: Host, a: string, b: string)
    requires Ordered(host) && a != b && !host.before(b, a)
    ensures host.before(a, b)
  {
  }

  lemma {:induction false} NotBehind(host: Host, es: seq<Entry>, key: string)
    requires Ordered(host) && Sorted(host, es) && (es != [] ==> host.before(key, es[0].key))
    ensures !HasKey(es, key)
    decreases |es|
  {
    if es != [] {
      if |es| > 1 {
        assert es[1..][0] == es[1];
      }
      NotBehind(host, es[1..], key);
    }
  }

  /** A dictionary literal has its keys in order, each once. */
  lemma {:induction false} LiteralSorted(host: Host, policy: Policy, env: Env, ps: seq<Pair>, entries: seq<Entry>, st: State)
    requires Ordered(host) && Sorted(host, entries)
    ensures var r := EvalPairs(host, policy, env, ps, entries, st).result; r.Good? ==> Sorted(host, r.value)
    decreases |ps|
  {
    hide EvalExpr, Insert, Ordered, HasKey, Depth;
    if ps != [] {
      var r := EvalPair(host, policy, env, ps[0], entries, st);
      if r.result.Good? {
        var k := EvalExpr(host, policy, env, ps[0].key, st);
        var v := EvalExpr(host, policy, env, ps[0].value, k.st);
        InsertEnters(host, entries, k.result.value.scalar.s, v.result.value);
        LiteralSorted(host, policy, env, ps[1..], r.result.value, r.st);
      }
    }
  }

  /** What was assigned under a key is read back, and every other key as before. */
  lemma EntryReadsBack(host: Host, es: seq<Entry>, key: string, v: Value, other: string)
    requires Ordered(host) && Sorted(host, es)
    ensures var r := AssignAt(host, VDict(es), VScalar(Str(key)), v);
            && (r.Good? <==> !TooDeep(v) && (HasKey(es, key) || |es| < host.maxCollection))
            && (r.Good? ==>
                  && r.value.VDict? && Sorted(host, r.value.entries)
                  && At(host, r.value, VScalar(Str(key))) == Good(v)
                  && (other != key ==> At(host, r.value, VScalar(Str(other))) == At(host, VDict(es), VScalar(Str(other)))))
  {
    hide Insert, Ordered, Sorted, Depth, HasKey, Lookup;
    InsertEnters(host, es, key, v);
  }

  // ----- Equality and text -----

  /** Dictionaries are equal entry by entry, functions when they are one function value. */
  lemma {:induction false} EntriesEqual(host: Host, es: seq<Entry>, fs: seq<Entry>)
    requires |es| == |fs|
    ensures EqualEntries(host, es, fs) <==> forall i :: 0 <= i < |es| ==> es[i].key == fs[i].key && Equal(host, es[i].value, fs[i].value)
    decreases |es|
  {
    hide Equal;
    if es != [] {
      EntriesEqual(host, es[1..], fs[1..]);
      assert forall i :: 0 < i < |es| ==> es[i] == es[1..][i - 1] && fs[i] == fs[1..][i - 1];
    }
  }

  lemma FunctionsEqual(host: Host, f: Value, v: Value)
    requires f.VFn?
    ensures Equal(host, f, v) <==> v.VFn? && v.id == f.id
    ensures Equal(host, v, f) <==> v.VFn? && v.id == f.id
  {
  }

  /** Elements are written one behind the other, with commas between them. */
  lemma {:induction false} ShownOneByOne(host: Host, vs: seq<Value>, v: Value)
    ensures ShowAll(host, vs + [v]) == if vs == [] then Show(host, v, true) else ShowAll(host, vs) + ", " + Show(host, v, true)
    decreases |vs|
  {
    hide Show;
    if vs == [] {
      assert vs + [v] == [v];
      assert ShowAll(host, []) == "";
      assert Show(host, v, true) + "" + "" == Show(host, v, true);
    } else {
      assert (vs + [v])[1..] == vs[1..] + [v] && (vs + [v])[0] == vs[0];
      ShownOneByOne(host, vs[1..], v);
      var a, b, c := Show(host, vs[0], true), ShowAll(host, vs[1..]), Show(host, v, true);
      if |vs| > 1 {
        assert a + ", " + (b + ", " + c) == (a + ", " + b) + ", " + c;
      } else {
        assert b == "";
        assert a + "" + b == a;
      }
    }
  }

  /** An f-string is its pieces, one after the other. */
  lemma {:induction false} FStringGrows(host: Host, policy: Policy, env: Env, ps: seq<FPart>, p: FPart, text: string, st: State)
    ensures var r := EvalParts(host, policy, env, ps, text, st);
            EvalParts(host, policy, env, ps + [p], text, st) ==
            if r.result.Bad? then r
            else if p.Literal? then Res(Good(r.result.value + p.text), r.st)
            else
              var v := EvalExpr(host, policy, env, p.expr, r.st);
              if v.result.Bad? then Res(Bad(v.result.fault), v.st)
              else Res(Good(r.result.value + Show(host, v.result.value, false)), v.st)
    decreases |ps|
  {
    hide EvalExpr, Show;
    if ps == [] {
      assert ps + [p] == [p];
      assert [p][1..] == [];
    } else {
      assert (ps + [p])[1..] == ps[1..] + [p] && (ps + [p])[0] == ps[0];
      var t := EvalPart(host, policy, env, ps[0], text, st);
      if t.result.Good? {
        FStringGrows(host, policy, env, ps[1..], p, t.result.value, t.st);
      }
    }
  }

  // ----- Functions -----

  /** A definition binds its name to a new function, which holds the cells that its names have just then. */
  lemma DefinitionBinds(host: Host, policy: Policy, env: Env, name: string, params: seq<string>, code: Block, st: State, x: string)
    ensures var r := ExecStmt(host, policy, env, FnDef(name, params, code), st);
            var f := Read(r.env, name, r.st);
            && r.flow.Normal? && r.st.steps == st.steps && r.st.out == st.out && r.st.nextId == st.nextId + 1
            && f.Good? && f.value.VFn? && f.value.id == st.nextId && f.value.name == name
            && f.value.params == params && f.value.code == code
            && (if x in f.value.captured then Some(f.value.captured[x]) else None) ==
               (if policy.Everything? || x in NamesOf(code) then CellOf(env, x) else None)
            && (x != name && Read(env, x, st).Good? ==> Read(r.env, x, r.st) == Read(env, x, st))
  {
    hide NamesOf, Merged, Bind, Innermost;
    CaptureSuffices.BindVisible(env, name, |st.cells|);
    MergedInnermost(env.frame, x);
    InnermostBelow(env.frame, env.globals, x);
  }

  /** The last parameter of a name has that name's argument; the function is there under its own name, unless it has
      none or a parameter has taken it; every other name is what the closure holds, or else global. */
  lemma FrameReads(env: Env, f: Value, vs: seq<Value>, st: State, x: string)
    requires f.VFn? && |vs| == |f.params|
    requires (x in f.captured ==> f.captured[x] < |st.cells|) && (x in env.globals ==> env.globals[x] < |st.cells|)
    ensures var (inner, st1) := Frame(env, f, vs, st);
            && (forall k :: 0 <= k < |vs| && f.params[k] == x && x !in f.params[k + 1..] ==> Read(inner, x, st1) == Good(vs[k]))
            && (x !in f.params && x == f.name != "<lambda>" ==> Read(inner, x, st1) == Good(f))
            && (x !in f.params && (x != f.name || f.name == "<lambda>") ==>
                  Read(inner, x, st1) ==
                  if x in f.captured then Good(st.cells[f.captured[x]])
                  else if x in env.globals then Good(st.cells[env.globals[x]])
                  else Bad(UndefinedName(x)))
  {
    hide Visible, Bind, Params, Read;
    var inner := Env(env.globals, [f.captured], env.depth + 1);
    CaptureSuffices.OneScope(env.globals, f.captured, env.depth + 1);
    ReadsCell(inner, x, st);
    if f.name == "<lambda>" {
      ParamsRead(inner, f.params, vs, st, x);
    } else {
      var (named, st1) := Define(inner, f.name, f, st);
      CaptureSuffices.BindVisible(inner, f.name, |st.cells|);
      ReadsCell(named, x, st1);
      ParamsRead(named, f.params, vs, st1, x);
    }
  }

  function Held(st: State, cell: nat, x: string): Outcome<Value> {
    if cell < |st.cells| then Good(st.cells[cell]) else Bad(UndefinedName(x))
  }

  lemma ReadsCell(env: Env, x: string, st: State)
    ensures Read(env, x, st) == if x in Visible(env) then Held(st, Visible(env)[x], x) else Bad(UndefinedName(x))
  {
  }

  lemma {:induction false} ParamsRead(env: Env, params: seq<string>, vs: seq<Value>, st: State, x: string)
    requires |params| == |vs|
    ensures var (inner, st1) := Params(env, params, vs, st);
            && st.cells <= st1.cells
            && (forall k :: 0 <= k < |vs| && params[k] == x && x !in params[k + 1..] ==> Read(inner, x, st1) == Good(vs[k]))
            && (x !in params && (x in Visible(env) ==> Visible(env)[x] < |st.cells|) ==> Read(inner, x, st1) == Read(env, x, st))
    decreases |params|
  {
    hide Visible, Bind;
    if params != [] {
      var (env1, st1) := Define(env, params[0], vs[0], st);
      CaptureSuffices.BindVisible(env, params[0], |st.cells|);
      ParamsRead(env1, params[1..], vs[1..], st1, x);
      assert params == [params[0]] + params[1..];
      assert forall k :: 0 < k < |params| ==> params[1..][k - 1] == params[k] && params[1..][k..] == params[k + 1..] && vs[1..][k - 1] == vs[k];
    }
  }
}

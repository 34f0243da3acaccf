/** How closures capture variables through several levels (`src/compiler.rs`): each function compiler sees a
    copy of its parent's local table and a list of the names further out, and the parent fills in the
    missing links once the child is compiled. */
module Captures {
  import opened Lang
  import opened Slots
  import opened Emission

  // ----- Source and output -----

  /** What matters of a function body: uses and declarations of names, blocks, and functions. */
  datatype Node =
    | Use(name: string)
    | Declare(name: string)
    | Block(body: seq<Node>)
    | Function(self: string, params: seq<string>, body: seq<Node>, declared: bool)

  datatype CaptureDesc = FromLocal(slot: nat) | FromUpvalue(index: nat)

  /** `GetLocal`, `GetUpvalue`, or `GetGlobal`. */
  datatype Access = LocalAccess(slot: nat) | UpvalueAccess(index: nat) | GlobalAccess(name: string)

  datatype Piece =
    | Read(access: Access)
    | Declares
    | Nested(pieces: seq<Piece>)
    | Make(proto: Prototype)

  datatype Prototype = Prototype(captures: seq<CaptureDesc>, pieces: seq<Piece>)

  datatype Upvalue = Upvalue(slot: nat, isLocal: bool, name: string)

  // ----- Lexical scoping -----

  /** A binding: the function level that owns it, and its slot there. */
  datatype Binding = Binding(level: nat, slot: nat)

  /** The binding that lexical scoping picks: the innermost level that has the name, and the last slot that
      carries it there. `frames` are the local tables of the enclosing functions where the next inner
      function is defined. */
  function Lexical(frames: seq<seq<string>>, locals: seq<string>, name: string): (r: Option<Binding>)
    decreases |frames|
  {
    match Resolve(locals, name)
    case Some(slot) => Some(Binding(|frames|, slot))
    case None => Outside(frames, name)
  }

  /** The same, looking only outside the innermost function. */
  function Outside(frames: seq<seq<string>>, name: string): (r: Option<Binding>)
    decreases |frames|, 0
  {
    if frames == [] then None
    else Lexical(frames[..|frames| - 1], frames[|frames| - 1], name)
  }

  // ----- What a compiled access reaches -----

  /** Follow a capture from a function to its parent, and so on. `chain` holds the capture lists of the
      nested functions, outermost first. */
  function Chase(chain: seq<seq<CaptureDesc>>, index: nat): Option<Binding>
    decreases |chain|
  {
    if chain == [] then None
    else
      var level := |chain| - 1;
      if index >= |chain[level]| then None
      else
        match chain[level][index]
        case FromLocal(slot) => Some(Binding(level, slot))
        case FromUpvalue(outer) => Chase(chain[..level], outer)
  }

  function Reached(chain: seq<seq<CaptureDesc>>, a: Access): Option<Binding> {
    match a
    case LocalAccess(slot) => Some(Binding(|chain|, slot))
    case UpvalueAccess(index) => Chase(chain, index)
    case GlobalAccess(_) => None
  }

  function DeclaredIn(n: Node): seq<string> {
    match n
    case Declare(name) => [name]
    case Function(self, _, _, declared) => if declared then [self] else []
    case _ => []
  }

  /** Every use of a name, at every depth of nesting, reaches exactly the binding that lexical scoping picks. */
  predicate Faithful(ns: seq<Node>, pieces: seq<Piece>, frames: seq<seq<string>>, locals: seq<string>, chain: seq<seq<CaptureDesc>>)
    decreases ns, 0
  {
    && |ns| == |pieces|
    && (ns != [] ==>
          && FaithfulNode(ns[0], pieces[0], frames, locals, chain)
          && Faithful(ns[1..], pieces[1..], frames, locals + DeclaredIn(ns[0]), chain))
  }

  predicate FaithfulNode(n: Node, piece: Piece, frames: seq<seq<string>>, locals: seq<string>, chain: seq<seq<CaptureDesc>>)
    decreases n, 1
  {
    match n
    case Use(name) =>
      && piece.Read?
      && Reached(chain, piece.access) == Lexical(frames, locals, name)
      && (piece.access.GlobalAccess? ==> piece.access.name == name)
    case Declare(_) => piece.Declares?
    case Block(body) => piece.Nested? && Faithful(body, piece.pieces, frames, locals, chain)
    case Function(self, params, body, _) =>
      && piece.Make?
      && Faithful(body, piece.proto.pieces, frames + [locals], [self] + params, chain + [piece.proto.captures])
  }

  // ----- Capture lists that agree with the names they stand for -----

  function UpNames(ups: seq<Upvalue>): (r: seq<string>)
    ensures |r| == |ups| && forall i :: 0 <= i < |r| ==> r[i] == ups[i].name
  {
    seq(|ups|, i requires 0 <= i < |ups| => ups[i].name)
  }

  /** One capture of a function: a local of the parent if the parent has the name, else the parent's own
      capture of that name. */
  predicate Linked(c: CaptureDesc, name: string, locals: seq<string>, outer: seq<string>) {
    match c
    case FromLocal(slot) => Resolve(locals, name) == Some(slot)
    case FromUpvalue(index) => Resolve(locals, name) == None && index < |outer| && outer[index] == name
  }

  /** `names[l]` are the names captured by the function at level `l + 1`. */
  ghost predicate Chained(chain: seq<seq<CaptureDesc>>, frames: seq<seq<string>>, names: seq<seq<string>>) {
    && |chain| == |frames| == |names|
    && forall l :: 0 <= l < |chain| ==> LinkedLevel(chain, frames, names, l)
  }

  ghost predicate LinkedLevel(chain: seq<seq<CaptureDesc>>, frames: seq<seq<string>>, names: seq<seq<string>>, l: nat)
    requires l < |chain| == |frames| == |names|
  {
    && |names[l]| <= |chain[l]|
    && forall i :: 0 <= i < |names[l]| ==> Linked(chain[l][i], names[l][i], frames[l], if l == 0 then [] else names[l - 1])
  }

  lemma ChainedOuter(chain: seq<seq<CaptureDesc>>, frames: seq<seq<string>>, names: seq<seq<string>>)
    requires Chained(chain, frames, names) && chain != []
    ensures Chained(chain[..|chain| - 1], frames[..|chain| - 1], names[..|chain| - 1])
  {
    var m := |chain| - 1;
    forall l | 0 <= l < m
      ensures LinkedLevel(chain[..m], frames[..m], names[..m], l)
    {
      assert LinkedLevel(chain, frames, names, l);
    }
  }

  /** Following the captures of a name ends at the binding that lexical scoping picks. */
  lemma {:induction false} ChaseIsLexical(chain: seq<seq<CaptureDesc>>, frames: seq<seq<string>>, names: seq<seq<string>>, index: nat)
    requires Chained(chain, frames, names) && chain != []
    requires index < |names[|names| - 1]|
    ensures Chase(chain, index).Some?
    ensures Chase(chain, index) == Outside(frames, names[|names| - 1][index])
    decreases |chain|
  {
    var l := |chain| - 1;
    assert LinkedLevel(chain, frames, names, l);
    var name := names[l][index];
    assert Linked(chain[l][index], name, frames[l], if l == 0 then [] else names[l - 1]);
    match chain[l][index]
    case FromLocal(slot) =>
    case FromUpvalue(outer) =>
      ChainedOuter(chain, frames, names);
      ChaseIsLexical(chain[..l], frames[..l], names[..l], outer);
  }

  // ----- A body compiled for one level, whatever its captures will turn out to be -----

  /** With any capture lists that link the captured `names`, the body is faithful. */
  ghost predicate Settled(ns: seq<Node>, pieces: seq<Piece>, frames: seq<seq<string>>, locals: seq<string>, names: seq<string>) {
    forall chain, all :: Chained(chain, frames, all) && (all == [] ==> names == []) && (all != [] ==> names <= all[|all| - 1]) ==>
                           Faithful(ns, pieces, frames, locals, chain)
  }

  ghost predicate SettledNode(n: Node, piece: Piece, frames: seq<seq<string>>, locals: seq<string>, names: seq<string>) {
    forall chain, all :: Chained(chain, frames, all) && (all == [] ==> names == []) && (all != [] ==> names <= all[|all| - 1]) ==>
                           FaithfulNode(n, piece, frames, locals, chain)
  }

  lemma SettledMore(ns: seq<Node>, pieces: seq<Piece>, frames: seq<seq<string>>, locals: seq<string>, names: seq<string>, more: seq<string>)
    requires Settled(ns, pieces, frames, locals, names) && names <= more
    ensures Settled(ns, pieces, frames, locals, more)
  {
  }

  function DeclaredAll(ns: seq<Node>): seq<string> {
    if ns == [] then [] else DeclaredIn(ns[0]) + DeclaredAll(ns[1..])
  }

  lemma {:induction false} DeclaredSnoc(ns: seq<Node>, n: Node)
    ensures DeclaredAll(ns + [n]) == DeclaredAll(ns) + DeclaredIn(n)
  {
    if ns == [] {
      assert ns + [n] == [n];
    } else {
      assert (ns + [n])[1..] == ns[1..] + [n];
      DeclaredSnoc(ns[1..], n);
    }
  }

  lemma {:induction false} FaithfulSnoc(
    ns: seq<Node>, pieces: seq<Piece>, n: Node, piece: Piece, frames: seq<seq<string>>, locals: seq<string>, chain: seq<seq<CaptureDesc>>)
    requires Faithful(ns, pieces, frames, locals, chain)
    requires FaithfulNode(n, piece, frames, locals + DeclaredAll(ns), chain)
    ensures Faithful(ns + [n], pieces + [piece], frames, locals, chain)
    decreases |ns|
  {
    hide FaithfulNode;
    if ns == [] {
      assert ns + [n] == [n] && pieces + [piece] == [piece];
      assert locals + [] == locals;
    } else {
      assert (ns + [n])[1..] == ns[1..] + [n] && (pieces + [piece])[1..] == pieces[1..] + [piece];
      assert locals + DeclaredIn(ns[0]) + DeclaredAll(ns[1..]) == locals + DeclaredAll(ns);
      FaithfulSnoc(ns[1..], pieces[1..], n, piece, frames, locals + DeclaredIn(ns[0]), chain);
    }
  }

  lemma SettledSnoc(ns: seq<Node>, pieces: seq<Piece>, n: Node, piece: Piece, frames: seq<seq<string>>, locals: seq<string>, names: seq<string>)
    requires Settled(ns, pieces, frames, locals, names)
    requires SettledNode(n, piece, frames, locals + DeclaredAll(ns), names)
    ensures Settled(ns + [n], pieces + [piece], frames, locals, names)
  {
    hide Faithful, FaithfulNode, Chained;
    forall chain, all | Chained(chain, frames, all) && (all == [] ==> names == []) && (all != [] ==> names <= all[|all| - 1])
      ensures Faithful(ns + [n], pieces + [piece], frames, locals, chain)
    {
      FaithfulSnoc(ns, pieces, n, piece, frames, locals, chain);
    }
  }

  /** A function whose captures are linked to what its parent captures. */
  lemma SettledFunction(n: Node, proto: Prototype, frames: seq<seq<string>>, locals: seq<string>, names: seq<string>, own: seq<string>)
    requires n.Function? && (frames == [] ==> names == [])
    requires Settled(n.body, proto.pieces, frames + [locals], [n.self] + n.params, own)
    requires |own| == |proto.captures|
    requires forall i :: 0 <= i < |own| ==> Linked(proto.captures[i], own[i], locals, names)
    ensures SettledNode(n, Make(proto), frames, locals, names)
  {
    hide Faithful;
    forall chain, all | Chained(chain, frames, all) && (all == [] ==> names == []) && (all != [] ==> names <= all[|all| - 1])
      ensures FaithfulNode(n, Make(proto), frames, locals, chain)
    {
      ChainedInner(chain, frames, all, proto.captures, locals, own, names);
    }
  }

  lemma ChainedInner(
    chain: seq<seq<CaptureDesc>>, frames: seq<seq<string>>, all: seq<seq<string>>,
    captures: seq<CaptureDesc>, locals: seq<string>, own: seq<string>, names: seq<string>)
    requires Chained(chain, frames, all) && (all == [] ==> names == []) && (all != [] ==> names <= all[|all| - 1])
    requires |own| == |captures| && forall i :: 0 <= i < |own| ==> Linked(captures[i], own[i], locals, names)
    ensures Chained(chain + [captures], frames + [locals], all + [own])
  {
    var c, f, a := chain + [captures], frames + [locals], all + [own];
    forall l | 0 <= l < |c|
      ensures LinkedLevel(c, f, a, l)
    {
      if l < |chain| {
        assert LinkedLevel(chain, frames, all, l);
      } else {
        forall i | 0 <= i < |a[l]|
          ensures Linked(c[l][i], a[l][i], f[l], if l == 0 then [] else a[l - 1])
        {
          assert Linked(captures[i], own[i], locals, names);
        }
      }
    }
  }

  /** Reading a name: a local, a captured name, or a name found nowhere. */
  lemma SettledUse(name: string, a: Access, frames: seq<seq<string>>, locals: seq<string>, names: seq<string>)
    requires match Resolve(locals, name)
             case Some(slot) => a == LocalAccess(slot)
             case None =>
               || (frames != [] && a.UpvalueAccess? && a.index < |names| && names[a.index] == name)
               || (a == GlobalAccess(name) && Outside(frames, name) == None)
    ensures SettledNode(Use(name), Read(a), frames, locals, names)
  {
    hide Chained;
    forall chain, all | Chained(chain, frames, all) && (all == [] ==> names == []) && (all != [] ==> names <= all[|all| - 1])
      ensures FaithfulNode(Use(name), Read(a), frames, locals, chain)
    {
      ChainedSizes(chain, frames, all);
      if a.UpvalueAccess? {
        assert all[|all| - 1][a.index] == names[a.index];
        ChaseIsLexical(chain, frames, all, a.index);
      }
    }
  }

  lemma ChainedSizes(chain: seq<seq<CaptureDesc>>, frames: seq<seq<string>>, all: seq<seq<string>>)
    requires Chained(chain, frames, all)
    ensures |chain| == |frames| == |all|
  {
  }

  lemma SettledDeclare(name: string, frames: seq<seq<string>>, locals: seq<string>, names: seq<string>)
    ensures SettledNode(Declare(name), Declares, frames, locals, names)
  {
  }

  lemma SettledBlock(body: seq<Node>, pieces: seq<Piece>, frames: seq<seq<string>>, locals: seq<string>, names: seq<string>)
    requires Settled(body, pieces, frames, locals, names)
    ensures SettledNode(Block(body), Nested(pieces), frames, locals, names)
  {
    hide Faithful;
  }

  lemma SettledNone(frames: seq<seq<string>>, locals: seq<string>, names: seq<string>)
    ensures Settled([], [], frames, locals, names)
  {
  }

  // ----- The compiler of one function -----

  /** An upvalue that agrees with the parent's tables. */
  predicate Agrees(u: Upvalue, enclosing: seq<string>, outer: seq<string>) {
    if u.isLocal then Resolve(enclosing, u.name) == Some(u.slot)
    else Resolve(enclosing, u.name) == None && u.slot < |outer| && outer[u.slot] == u.name
  }

  /** The list holds exactly the names that can be seen further out. */
  ghost predicate Lists(outer: seq<string>, frames: seq<seq<string>>) {
    forall name :: name in outer <==> Outside(frames, name).Some?
  }

  class FunctionCompiler {
    /** The local tables of the enclosing functions. The compiler itself keeps a copy of the last one and a
        list of the names in the others. */
    ghost const frames: seq<seq<string>>
    const enclosingLocals: Option<seq<Local>>
    const enclosingUpvalues: Option<seq<Upvalue>>
    var locals: seq<Local>
    var scopeDepth: nat
    var upvalues: seq<Upvalue>

    ghost function Enclosing(): seq<string>
    {
      if enclosingLocals.Some? then Names(enclosingLocals.value) else []
    }

    ghost function Outer(): seq<string>
    {
      if enclosingUpvalues.Some? then UpNames(enclosingUpvalues.value) else []
    }

    ghost predicate Valid()
      reads this
    {
      && (enclosingLocals.Some? <==> frames != []) && (enclosingUpvalues.Some? <==> frames != [])
      && (frames != [] ==> Enclosing() == frames[|frames| - 1] && Lists(Outer(), frames[..|frames| - 1]))
      && (frames == [] ==> upvalues == [])
      && (forall u :: u in upvalues ==> Agrees(u, Enclosing(), Outer()))
    }

    /** The script's own compiler. */
    constructor ()
      ensures Valid() && frames == [] && locals == [] && upvalues == [] && scopeDepth == 0
    {
      frames := [];
      enclosingLocals, enclosingUpvalues := None, None;
      locals, scopeDepth, upvalues := [], 0, [];
    }

    constructor Enclosed(enclosing: seq<Local>, ancestors: seq<Upvalue>, ghost around: seq<seq<string>>)
      requires Lists(UpNames(ancestors), around)
      ensures Valid() && frames == around + [Names(enclosing)]
      ensures locals == [] && upvalues == [] && scopeDepth == 0
    {
      frames := around + [Names(enclosing)];
      enclosingLocals, enclosingUpvalues := Some(enclosing), Some(ancestors);
      locals, scopeDepth, upvalues := [], 0, [];
      new;
      assert frames[..|frames| - 1] == around;
    }

    method AddLocal(name: string)
      modifies this`locals
      ensures locals == old(locals) + [Local(name, scopeDepth)]
    {
      locals := locals + [Local(name, scopeDepth)];
    }

    /** The same source is registered once: a capture is appended exactly when none has this slot on this side. */
    method AddUpvalue(slot: nat, isLocal: bool, name: string) returns (index: nat)
      modifies this`upvalues
      ensures old(upvalues) <= upvalues && index < |upvalues|
      ensures upvalues[index].slot == slot && upvalues[index].isLocal == isLocal
      ensures upvalues == old(upvalues) || (upvalues == old(upvalues) + [Upvalue(slot, isLocal, name)] && index == |old(upvalues)|)
      ensures upvalues == old(upvalues) <==> exists u :: u in old(upvalues) && u.slot == slot && u.isLocal == isLocal
    {
      for i := 0 to |upvalues|
        invariant forall u :: u in upvalues[..i] ==> !(u.slot == slot && u.isLocal == isLocal)
      {
        if upvalues[i].slot == slot && upvalues[i].isLocal == isLocal {
          return i;
        }
      }
      index := |upvalues|;
      upvalues := upvalues + [Upvalue(slot, isLocal, name)];
    }

    /** Register a capture that agrees with the parent's tables. */
    method Capture(slot: nat, isLocal: bool, name: string) returns (index: nat)
      requires Valid() && frames != [] && Agrees(Upvalue(slot, isLocal, name), Enclosing(), Outer())
      modifies this`upvalues
      ensures Valid() && UpNames(old(upvalues)) <= UpNames(upvalues)
      ensures index < |upvalues| && upvalues[index].name == name
    {
      index := AddUpvalue(slot, isLocal, name);
      assert upvalues[index] in upvalues;
    }

    /** The last enclosing local of the name, else the first entry of the outer list with it. */
    method FindOutside(name: string) returns (found: Option<(nat, bool)>)
      requires Valid()
      ensures found.None? <==> Outside(frames, name).None?
      ensures found.Some? ==> frames != [] && Agrees(Upvalue(found.value.0, found.value.1, name), Enclosing(), Outer())
    {
      if enclosingLocals.Some? {
        var enclosing := enclosingLocals.value;
        assert Enclosing()[..|enclosing|] == Enclosing();
        for i := |enclosing| downto 0
          invariant Resolve(Enclosing()[..i], name) == Resolve(Enclosing(), name)
        {
          assert Enclosing()[..i + 1][..i] == Enclosing()[..i];
          if enclosing[i].name == name {
            return Some((i, true));
          }
        }
      }
      if enclosingUpvalues.Some? {
        var outer := enclosingUpvalues.value;
        for i := 0 to |outer|
          invariant forall j :: 0 <= j < i ==> outer[j].name != name
        {
          if outer[i].name == name {
            assert Outer()[i] in Outer();
            return Some((i, false));
          }
        }
        assert name !in Outer();
      }
      return None;
    }

    method ResolveUpvalue(name: string) returns (r: Option<nat>)
      requires Valid()
      modifies this`upvalues
      ensures Valid() && UpNames(old(upvalues)) <= UpNames(upvalues)
      ensures r.None? <==> Outside(frames, name).None?
      ensures r.Some? ==> frames != [] && r.value < |upvalues| && upvalues[r.value].name == name
    {
      var found := FindOutside(name);
      match found
      case None => return None;
      case Some((slot, isLocal)) =>
        var index := Capture(slot, isLocal, name);
        return Some(index);
    }

    /** The names a child can see beyond this function. */
    method BuildAncestorVars() returns (vars: seq<Upvalue>)
      requires Valid()
      ensures Lists(UpNames(vars), frames)
    {
      vars := [];
      if enclosingLocals.Some? {
        var enclosing := enclosingLocals.value;
        for i := 0 to |enclosing|
          invariant UpNames(vars) == Enclosing()[..i]
        {
          vars := vars + [Upvalue(0, true, enclosing[i].name)];
        }
        assert Enclosing()[..|enclosing|] == Enclosing();
      }
      if enclosingUpvalues.Some? {
        var outer := enclosingUpvalues.value;
        for i := 0 to |outer|
          invariant forall name :: name in UpNames(vars) <==> name in Enclosing() || name in Outer()[..i]
        {
          if !(exists j :: 0 <= j < |vars| && vars[j].name == outer[i].name) {
            assert outer[i].name !in UpNames(vars);
            vars := vars + [outer[i]];
            assert UpNames(vars) == UpNames(vars[..|vars| - 1]) + [outer[i].name];
          } else {
            assert outer[i].name in UpNames(vars);
          }
          assert Outer()[..i + 1] == Outer()[..i] + [outer[i].name];
        }
        assert Outer()[..|outer|] == Outer();
      }
      OutsideNames(frames);
    }

    /** The index of this function's own capture of a name that an enclosing function has. The compiler asks
        for no other, so the fallback of the last line is out of reach. */
    method EnsureUpvalueForAncestor(name: string) returns (index: nat)
      requires Valid() && Outside(frames, name).Some?
      modifies this`upvalues
      ensures Valid() && UpNames(old(upvalues)) <= UpNames(upvalues)
      ensures index < |upvalues| && upvalues[index].name == name
    {
      for i := 0 to |upvalues|
      {
        if upvalues[i].name == name {
          return i;
        }
      }
      var found := FindOutside(name);
      match found
      case Some((slot, isLocal)) => index := Capture(slot, isLocal, name);
      case None => assert false;
    }

    /** Complete a child's captures: what it needs from further out, this function captures itself. */
    method ResolveChildUpvalues(child: seq<Upvalue>) returns (captures: seq<CaptureDesc>)
      requires Valid() && (frames == [] ==> forall u :: u in child ==> u.isLocal)
      requires forall u :: u in child ==>
                 if u.isLocal then Resolve(Names(locals), u.name) == Some(u.slot)
                 else Resolve(Names(locals), u.name) == None && Outside(frames, u.name).Some?
      modifies this`upvalues
      ensures Valid() && UpNames(old(upvalues)) <= UpNames(upvalues)
      ensures |captures| == |child|
      ensures forall i :: 0 <= i < |child| ==> Linked(captures[i], child[i].name, Names(locals), UpNames(upvalues))
    {
      captures := [];
      for i := 0 to |child|
        invariant Valid() && UpNames(old(upvalues)) <= UpNames(upvalues)
        invariant |captures| == i
        invariant forall j :: 0 <= j < i ==> Linked(captures[j], child[j].name, Names(locals), UpNames(upvalues))
      {
        ghost var before := UpNames(upvalues);
        var u := child[i];
        assert u in child;
        if u.isLocal {
          captures := captures + [FromLocal(u.slot)];
        } else {
          var index := EnsureUpvalueForAncestor(u.name);
          captures := captures + [FromUpvalue(index)];
        }
        forall j | 0 <= j < i + 1
          ensures Linked(captures[j], child[j].name, Names(locals), UpNames(upvalues))
        {
          if j < i {
            LinkedMore(captures[j], child[j].name, Names(locals), before, UpNames(upvalues));
          }
        }
      }
    }

    method EndScope()
      requires scopeDepth > 0
      modifies this`locals, this`scopeDepth
      ensures scopeDepth == old(scopeDepth) - 1 && locals == old(locals)[..Kept(old(locals), scopeDepth)]
    {
      scopeDepth := scopeDepth - 1;
      assert locals[..|locals|] == locals;
      while locals != [] && locals[|locals| - 1].depth > scopeDepth
        invariant |locals| <= |old(locals)| && locals == old(locals)[..|locals|]
        invariant Kept(locals, scopeDepth) == Kept(old(locals), scopeDepth)
        modifies this`locals
        decreases |locals|
      {
        locals := locals[..|locals| - 1];
      }
    }

    /** A body, statement by statement. Whatever further captures this function turns out to need, the uses
        in the body reach what lexical scoping picks. */
    method CompileBody(ns: seq<Node>) returns (pieces: seq<Piece>)
      requires Valid() && forall l :: l in locals ==> l.depth <= scopeDepth
      modifies this
      ensures Valid() && UpNames(old(upvalues)) <= UpNames(upvalues) && scopeDepth == old(scopeDepth)
      ensures Grows(old(locals), DeclaredAll(ns), scopeDepth, locals)
      ensures Settled(ns, pieces, frames, Names(old(locals)), UpNames(upvalues))
      decreases ns, 0
    {
      hide Settled, SettledNode;
      pieces := [];
      SettledNone(frames, Names(locals), UpNames(upvalues));
      GrowsNone(locals, scopeDepth);
      assert ns[..0] == [];
      for i := 0 to |ns|
        invariant Valid() && UpNames(old(upvalues)) <= UpNames(upvalues) && scopeDepth == old(scopeDepth)
        invariant Grows(old(locals), DeclaredAll(ns[..i]), scopeDepth, locals)
        invariant forall l :: l in locals ==> l.depth <= scopeDepth
        invariant Settled(ns[..i], pieces, frames, Names(old(locals)), UpNames(upvalues))
      {
        ghost var before, names := locals, UpNames(upvalues);
        var piece := CompileNode(ns[i]);
        assert ns[..i + 1] == ns[..i] + [ns[i]];
        DeclaredSnoc(ns[..i], ns[i]);
        GrowsFurther(old(locals), DeclaredAll(ns[..i]), scopeDepth, before, DeclaredIn(ns[i]), locals);
        SettledMore(ns[..i], pieces, frames, Names(old(locals)), names, UpNames(upvalues));
        SettledSnoc(ns[..i], pieces, ns[i], piece, frames, Names(old(locals)), UpNames(upvalues));
        pieces := pieces + [piece];
      }
      assert ns[..|ns|] == ns;
    }

    method CompileNode(n: Node) returns (piece: Piece)
      requires Valid() && forall l :: l in locals ==> l.depth <= scopeDepth
      modifies this
      ensures Valid() && UpNames(old(upvalues)) <= UpNames(upvalues) && scopeDepth == old(scopeDepth)
      ensures Grows(old(locals), DeclaredIn(n), scopeDepth, locals)
      ensures SettledNode(n, piece, frames, Names(old(locals)), UpNames(upvalues))
      decreases n, 1
    {
      hide Settled, SettledNode, Faithful, FaithfulNode;
      match n
      case Use(name) =>
        var access := CompileNameRead(name);
        GrowsNone(locals, scopeDepth);
        SettledUse(name, access, frames, Names(locals), UpNames(upvalues));
        piece := Read(access);
      case Declare(name) =>
        GrowsOne(locals, name, scopeDepth);
        AddLocal(name);
        SettledDeclare(name, frames, Names(old(locals)), UpNames(upvalues));
        piece := Declares;
      case Block(body) =>
        var pieces := CompileBlock(body);
        SettledBlock(body, pieces, frames, Names(old(locals)), UpNames(upvalues));
        GrowsNone(locals, scopeDepth);
        piece := Nested(pieces);
      case Function(self, _, _, declared) =>
        var proto := CompileFunction(n);
        GrowsNone(locals, scopeDepth);
        if declared {
          GrowsOne(locals, self, scopeDepth);
          AddLocal(self);
        }
        piece := Make(proto);
    }

    method CompileBlock(body: seq<Node>) returns (pieces: seq<Piece>)
      requires Valid() && forall l :: l in locals ==> l.depth <= scopeDepth
      modifies this
      ensures Valid() && UpNames(old(upvalues)) <= UpNames(upvalues) && scopeDepth == old(scopeDepth)
      ensures locals == old(locals)
      ensures Settled(body, pieces, frames, Names(locals), UpNames(upvalues))
      decreases body, 1
    {
      hide Settled;
      scopeDepth := scopeDepth + 1;
      pieces := CompileBody(body);
      GrowsBack(old(locals), DeclaredAll(body), scopeDepth, locals);
      EndScope();
    }

    method CompileNameRead(name: string) returns (access: Access)
      requires Valid()
      modifies this`upvalues
      ensures Valid() && UpNames(old(upvalues)) <= UpNames(upvalues)
      ensures match Resolve(Names(locals), name)
              case Some(slot) => access == LocalAccess(slot)
              case None =>
                || (frames != [] && access.UpvalueAccess? && access.index < |upvalues| && upvalues[access.index].name == name)
                || (access == GlobalAccess(name) && Outside(frames, name) == None)
    {
      assert Names(locals)[..|locals|] == Names(locals);
      for i := |locals| downto 0
        invariant Resolve(Names(locals)[..i], name) == Resolve(Names(locals), name)
      {
        assert Names(locals)[..i + 1][..i] == Names(locals)[..i];
        if locals[i].name == name {
          return LocalAccess(i);
        }
      }
      var found := ResolveUpvalue(name);
      match found
      case Some(index) => access := UpvalueAccess(index);
      case None => access := GlobalAccess(name);
    }

    /** A function, compiled by a compiler of its own that starts with the function's own name and its
        parameters. */
    method CompileChild(n: Node) returns (child: seq<Upvalue>, pieces: seq<Piece>)
      requires Valid() && n.Function?
      ensures frames == [] ==> forall u :: u in child ==> u.isLocal
      ensures forall u :: u in child ==>
                if u.isLocal then Resolve(Names(locals), u.name) == Some(u.slot)
                else Resolve(Names(locals), u.name) == None && Outside(frames, u.name).Some?
      ensures Settled(n.body, pieces, frames + [Names(locals)], [n.self] + n.params, UpNames(child))
      decreases n, 0, 0
    {
      hide Settled;
      var ancestors := BuildAncestorVars();
      var compiler := new FunctionCompiler.Enclosed(locals, ancestors, frames);
      compiler.AddLocal(n.self);
      for i := 0 to |n.params|
        invariant compiler.Valid() && compiler.upvalues == [] && compiler.scopeDepth == 0
        invariant Names(compiler.locals) == [n.self] + n.params[..i]
        invariant forall l :: l in compiler.locals ==> l.depth <= 0
      {
        compiler.AddLocal(n.params[i]);
        assert Names(compiler.locals) == [n.self] + n.params[..i] + [n.params[i]];
      }
      assert n.params[..|n.params|] == n.params;
      pieces := compiler.CompileBody(n.body);
      child := compiler.upvalues;
      assert compiler.frames[..|frames|] == frames;
      ChildAgrees(child, Names(locals), compiler.Outer(), frames);
    }

    method CompileFunction(n: Node) returns (proto: Prototype)
      requires Valid() && n.Function?
      modifies this`upvalues
      ensures Valid() && UpNames(old(upvalues)) <= UpNames(upvalues)
      ensures SettledNode(n, Make(proto), frames, Names(locals), UpNames(upvalues))
      decreases n, 0, 1
    {
      hide Settled, SettledNode;
      var child, pieces := CompileChild(n);
      var captures := ResolveChildUpvalues(child);
      proto := Prototype(captures, pieces);
      SettledFunction(n, proto, frames, Names(locals), UpNames(upvalues), UpNames(child));
    }

    /** A whole script. Every use, in functions nested to any depth, reaches the binding that lexical scoping
        picks, through the captures of the functions around it. */
    method CompileScript(ns: seq<Node>) returns (pieces: seq<Piece>)
      requires Valid() && frames == [] && locals == [] && upvalues == [] && scopeDepth == 0
      modifies this
      ensures Faithful(ns, pieces, [], [], [])
    {
      pieces := CompileBody(ns);
      assert Names([]) == [];
      assert Chained([], [], []);
    }
  }

  // ----- The local table -----

  ghost predicate Grows(before: seq<Local>, declared: seq<string>, depth: nat, after: seq<Local>) {
    && before <= after
    && (forall l :: l in after[|before|..] ==> l.depth == depth)
    && Names(after) == Names(before) + declared
  }

  lemma GrowsNone(locals: seq<Local>, depth: nat)
    ensures Grows(locals, [], depth, locals)
  {
  }

  lemma GrowsOne(locals: seq<Local>, name: string, depth: nat)
    ensures Grows(locals, [name], depth, locals + [Local(name, depth)])
  {
  }

  lemma GrowsFurther(a: seq<Local>, d1: seq<string>, depth: nat, b: seq<Local>, d2: seq<string>, c: seq<Local>)
    requires Grows(a, d1, depth, b) && Grows(b, d2, depth, c)
    ensures Grows(a, d1 + d2, depth, c)
    ensures (forall l :: l in b ==> l.depth <= depth) ==> forall l :: l in c ==> l.depth <= depth
  {
    hide Names;
    assert c[|a|..] == b[|a|..] + c[|b|..];
    assert c == b + c[|b|..];
    assert Names(a) + d1 + d2 == Names(a) + (d1 + d2);
  }

  /** Ending the scope takes back what was declared in it. */
  lemma GrowsBack(before: seq<Local>, declared: seq<string>, depth: nat, after: seq<Local>)
    requires depth > 0 && Grows(before, declared, depth, after)
    requires forall l :: l in before ==> l.depth <= depth - 1
    ensures after[..Kept(after, depth - 1)] == before
  {
    hide Names, Kept;
    var deep := after[|before|..];
    assert after == before + deep;
    KeptGrow(before, deep, depth - 1);
    KeptWhole(before, depth - 1);
  }

  lemma KeptWhole(locals: seq<Local>, depth: nat)
    requires forall l :: l in locals ==> l.depth <= depth
    ensures Kept(locals, depth) == |locals|
  {
    assert locals != [] ==> locals[|locals| - 1] in locals;
  }

  /** A finished child asks its parent only for names the parent can capture. */
  lemma ChildAgrees(child: seq<Upvalue>, locals: seq<string>, outer: seq<string>, frames: seq<seq<string>>)
    requires Lists(outer, frames) && forall u :: u in child ==> Agrees(u, locals, outer)
    ensures frames == [] ==> forall u :: u in child ==> u.isLocal
    ensures forall u :: u in child ==>
              if u.isLocal then Resolve(locals, u.name) == Some(u.slot)
              else Resolve(locals, u.name) == None && Outside(frames, u.name).Some?
  {
    forall u | u in child
      ensures if u.isLocal then Resolve(locals, u.name) == Some(u.slot)
              else Resolve(locals, u.name) == None && Outside(frames, u.name).Some?
    {
      if !u.isLocal {
        assert outer[u.slot] in outer;
      }
    }
  }

  lemma LinkedMore(c: CaptureDesc, name: string, locals: seq<string>, outer: seq<string>, more: seq<string>)
    requires Linked(c, name, locals, outer) && outer <= more
    ensures Linked(c, name, locals, more)
  {
  }

  /** The names visible outside a function, one level further in. */
  lemma OutsideNames(frames: seq<seq<string>>)
    ensures forall name :: Outside(frames, name).Some? <==>
              frames != [] && (name in frames[|frames| - 1] || Outside(frames[..|frames| - 1], name).Some?)
  {
    forall name
      ensures Outside(frames, name).Some? <==>
              frames != [] && (name in frames[|frames| - 1] || Outside(frames[..|frames| - 1], name).Some?)
    {
      if frames != [] {
        var locals := frames[|frames| - 1];
        assert Outside(frames, name) == Lexical(frames[..|frames| - 1], locals, name);
        assert Resolve(locals, name).Some? <==> name in locals;
      }
    }
  }
}

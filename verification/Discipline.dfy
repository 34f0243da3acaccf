/** Stack and handler discipline of compiled code: every instruction has one stack height and one stack of
    try handlers, whichever way control reaches it (`src/compiler.rs`). Shapes are assigned statement by
    statement; then every run, of any length, is shown to follow them. */
module Discipline {
  import opened Lang
  import opened Slots
  import opened Machine
  import opened CodeGen

  /** What is known of the machine in front of an instruction. */
  datatype Shape = Shape(height: nat, handlers: seq<Handler>)

  /** Positions with their shapes. */
  type World = set<(nat, Shape)>

  function Taller(sh: Shape, n: nat): Shape { Shape(sh.height + n, sh.handlers) }

  /** Operands taken off the stack. */
  function Pops(op: OpCode): nat {
    match op
    case Print(count) => count
    case PopN(count) => count
    case Pop => 1
    case JumpIfFalse(_) => 1
    case Not => 1
    case Negate => 1
    case IndexLocal(_) => 1
    case ToIterList => 1
    case ReturnValue => 1
    case Index => 2
    case ListPush => 2
    case SetIndex(_) => 2
    case _ => if IsBinary(op) then 2 else 0
  }

  /** Results put on the stack. */
  function Pushes(op: OpCode): nat {
    match op
    case LoadConst(_) => 1
    case GetLocal(_) => 1
    case GetGlobal(_) => 1
    case LenLocal(_) => 1
    case Not => 1
    case Negate => 1
    case IndexLocal(_) => 1
    case ToIterList => 1
    case Index => 1
    case ListPush => 1
    case _ => if IsBinary(op) then 1 else 0
  }

  /** Operands that stay, and slots that are addressed, are there. */
  predicate Reaches(op: OpCode, height: nat) {
    && Pops(op) <= height
    && (match op
        case GetLocal(slot) => slot < height
        case SetLocal(slot) => slot < height
        case LenLocal(slot) => slot < height
        case RegisterGlobal(_, slot) => slot < height
        case IndexLocal(slot) => slot < height - 1
        case SetIndex(LocalTarget(slot)) => slot < height - 2
        case SetGlobal(_) => height > 0
        case JumpIfFalseKeep(_) => height > 0
        case JumpIfTrueKeep(_) => height > 0
        case _ => true)
  }

  predicate CanRaise(op: OpCode) {
    IsBinary(op) || op.Negate? || op.GetGlobal? || op.SetGlobal? || op.RequireGlobal? || op.LenLocal? || op.Index?
    || op.IndexLocal? || op.ListPush? || op.SetIndex? || op.ToIterList?
  }

  /** The innermost handler keeps no more than `height` slots, and its catch block has the shape that an
      unwinding to it leaves. */
  predicate Catches(handlers: seq<Handler>, height: nat, world: World) {
    handlers != [] ==>
      var h := handlers[|handlers| - 1];
      h.stackDepth <= height && (h.catchIp, Shape(h.stackDepth + 1, handlers[..|handlers| - 1])) in world
  }

  /** An instruction in its shape: operands are there, and every way on leads to the shape recorded for
      where it leads. */
  predicate Flows(op: OpCode, ip: nat, sh: Shape, world: World) {
    && Reaches(op, sh.height)
    && (CanRaise(op) ==> Catches(sh.handlers, sh.height - Pops(op), world))
    && (match op
        case Jump(t) => (t, sh) in world
        case Loop(t) => (t, sh) in world
        case JumpIfFalse(t) =>
          (t, Shape(sh.height - 1, sh.handlers)) in world && (ip + 1, Shape(sh.height - 1, sh.handlers)) in world
        case JumpIfFalseKeep(t) => (t, sh) in world && (ip + 1, sh) in world
        case JumpIfTrueKeep(t) => (t, sh) in world && (ip + 1, sh) in world
        case SetupTry(t) =>
          (t, Taller(sh, 1)) in world && (ip + 1, Shape(sh.height, sh.handlers + [Handler(t, sh.height)])) in world
        case TeardownTry => sh.handlers != [] && (ip + 1, Shape(sh.height, sh.handlers[..|sh.handlers| - 1])) in world
        case Return => true
        case ReturnValue => true
        case _ => (ip + 1, Shape(sh.height - Pops(op) + Pushes(op), sh.handlers)) in world)
  }

  lemma FlowsWider(op: OpCode, ip: nat, sh: Shape, world: World, wider: World)
    requires Flows(op, ip, sh, world) && world <= wider
    ensures Flows(op, ip, sh, wider)
  {
  }

  // ----- Fragments -----

  function Pairs(p: nat, shapes: seq<Shape>): World {
    set i | 0 <= i < |shapes| :: (p + i, shapes[i])
  }

  /** Instruction `i` of a fragment. A waiting jump is in the shape of the loop it leaves or continues. */
  predicate Placed(f: Frag, p: nat, shapes: seq<Shape>, world: World, loop: Option<Shape>, i: nat)
    requires i < |f.code| < |shapes|
  {
    if p + i in f.breaks || p + i in f.conts then loop == Some(shapes[i])
    else Flows(f.code[i].op, p + i, shapes[i], world)
  }

  /** Shapes for a fragment at `p`, one more than it has instructions. Ways out of it lead into `ext`. */
  predicate Shaped(f: Frag, p: nat, shapes: seq<Shape>, ext: World, loop: Option<Shape>) {
    && |shapes| == |f.code| + 1
    && forall i :: 0 <= i < |f.code| ==> Placed(f, p, shapes, Pairs(p, shapes) + ext, loop, i)
  }

  function Last(shapes: seq<Shape>): Shape
    requires shapes != []
  {
    shapes[|shapes| - 1]
  }

  function Joined(a: seq<Shape>, b: seq<Shape>): seq<Shape>
    requires b != []
  {
    a + b[1..]
  }

  lemma PairsJoined(p: nat, a: seq<Shape>, b: seq<Shape>)
    requires a != [] && b != [] && Last(a) == b[0]
    ensures Pairs(p, a) <= Pairs(p, Joined(a, b)) && Pairs(p + |a| - 1, b) <= Pairs(p, Joined(a, b))
  {
    var all := Joined(a, b);
    forall i | 0 <= i < |a|
      ensures (p + i, a[i]) in Pairs(p, all)
    {
      assert all[i] == a[i];
    }
    forall i | 0 <= i < |b|
      ensures (p + |a| - 1 + i, b[i]) in Pairs(p, all)
    {
      assert all[|a| - 1 + i] == b[i];
    }
  }

  lemma ShapedCat(a: Frag, b: Frag, p: nat, sa: seq<Shape>, sb: seq<Shape>, ext: World, loop: Option<Shape>)
    requires Shaped(a, p, sa, ext, loop) && Shaped(b, p + |a.code|, sb, ext, loop)
    requires SitesIn(a, p) && SitesIn(b, p + |a.code|)
    requires Last(sa) == sb[0]
    ensures Shaped(Cat(a, b), p, Joined(sa, sb), ext, loop)
  {
    hide Flows;
    var all, f := Joined(sa, sb), Cat(a, b);
    PairsJoined(p, sa, sb);
    forall i | 0 <= i < |f.code|
      ensures Placed(f, p, all, Pairs(p, all) + ext, loop, i)
    {
      if i < |a.code| {
        assert Placed(a, p, sa, Pairs(p, sa) + ext, loop, i);
        assert all[i] == sa[i] && f.code[i] == a.code[i];
        PlacedWider(a.code[i].op, p + i, sa[i], Pairs(p, sa) + ext, Pairs(p, all) + ext);
      } else {
        var j := i - |a.code|;
        assert Placed(b, p + |a.code|, sb, Pairs(p + |a.code|, sb) + ext, loop, j);
        assert all[i] == sb[j] && f.code[i] == b.code[j];
        PlacedWider(b.code[j].op, p + i, sb[j], Pairs(p + |a.code|, sb) + ext, Pairs(p, all) + ext);
      }
    }
  }

  lemma PlacedWider(op: OpCode, ip: nat, sh: Shape, world: World, wider: World)
    requires world <= wider
    ensures Flows(op, ip, sh, world) ==> Flows(op, ip, sh, wider)
  {
    hide Flows;
    if Flows(op, ip, sh, world) {
      FlowsWider(op, ip, sh, world, wider);
    }
  }

  /** Ways out that lead back into the fragment are no longer ways out. */
  lemma ShapedWithin(f: Frag, p: nat, shapes: seq<Shape>, ext: World, wider: World, loop: Option<Shape>)
    requires Shaped(f, p, shapes, ext, loop) && ext <= Pairs(p, shapes) + wider
    ensures Shaped(f, p, shapes, wider, loop)
  {
    hide Flows;
    forall i | 0 <= i < |f.code|
      ensures Placed(f, p, shapes, Pairs(p, shapes) + wider, loop, i)
    {
      assert Placed(f, p, shapes, Pairs(p, shapes) + ext, loop, i);
      PlacedWider(f.code[i].op, p + i, shapes[i], Pairs(p, shapes) + ext, Pairs(p, shapes) + wider);
    }
  }

  lemma ShapedOne(op: OpCode, line: nat, p: nat, sh: Shape, next: Shape, ext: World, loop: Option<Shape>)
    requires Flows(op, p, sh, ext + {(p + 1, next)})
    ensures Shaped(One(op, line), p, [sh, next], ext, loop)
  {
    hide Flows;
    var shapes := [sh, next];
    assert shapes[1] == next && (p + 1, shapes[1]) in Pairs(p, shapes);
    FlowsWider(op, p, sh, ext + {(p + 1, next)}, Pairs(p, shapes) + ext);
  }

  lemma ShapedNone(p: nat, sh: Shape, ext: World, loop: Option<Shape>)
    ensures Shaped(EMPTY, p, [sh], ext, loop)
  {
  }

  /** The fragment takes the machine from one shape to another. */
  predicate Spans(f: Frag, p: nat, shapes: seq<Shape>, before: Shape, after: Shape, ext: World, loop: Option<Shape>) {
    Shaped(f, p, shapes, ext, loop) && shapes[0] == before && Last(shapes) == after
  }

  lemma SpansCat(a: Frag, b: Frag, p: nat, sa: seq<Shape>, sb: seq<Shape>, x: Shape, y: Shape, z: Shape, ext: World, loop: Option<Shape>)
    returns (shapes: seq<Shape>)
    requires Spans(a, p, sa, x, y, ext, loop) && Spans(b, p + |a.code|, sb, y, z, ext, loop)
    requires SitesIn(a, p) && SitesIn(b, p + |a.code|)
    ensures Spans(Cat(a, b), p, shapes, x, z, ext, loop)
    ensures SitesIn(Cat(a, b), p)
    ensures Pairs(p, sa) <= Pairs(p, shapes) && Pairs(p + |a.code|, sb) <= Pairs(p, shapes)
  {
    hide Shaped;
    SpansLength(a, p, sa, x, y, ext, loop);
    SpansLength(b, p + |a.code|, sb, y, z, ext, loop);
    ShapedCat(a, b, p, sa, sb, ext, loop);
    PairsJoined(p, sa, sb);
    shapes := Joined(sa, sb);
  }

  lemma SpansLength(f: Frag, p: nat, shapes: seq<Shape>, x: Shape, y: Shape, ext: World, loop: Option<Shape>)
    requires Spans(f, p, shapes, x, y, ext, loop)
    ensures |shapes| == |f.code| + 1
    ensures (p, x) in Pairs(p, shapes) && (p + |f.code|, y) in Pairs(p, shapes)
  {
    assert (p + 0, shapes[0]) in Pairs(p, shapes) && (p + |f.code|, shapes[|f.code|]) in Pairs(p, shapes);
  }

  lemma SpansOne(op: OpCode, line: nat, p: nat, x: Shape, y: Shape, ext: World, loop: Option<Shape>) returns (shapes: seq<Shape>)
    requires Flows(op, p, x, ext + {(p + 1, y)})
    ensures Spans(One(op, line), p, shapes, x, y, ext, loop) && SitesIn(One(op, line), p)
  {
    hide Flows;
    ShapedOne(op, line, p, x, y, ext, loop);
    shapes := [x, y];
  }

  lemma SpansPlain(op: OpCode, line: nat, p: nat, x: Shape, ext: World, loop: Option<Shape>) returns (shapes: seq<Shape>)
    requires Reaches(op, x.height) && (CanRaise(op) ==> Catches(x.handlers, x.height - Pops(op), ext))
    requires !op.Jump? && !op.Loop? && !op.JumpIfFalse? && !op.JumpIfFalseKeep? && !op.JumpIfTrueKeep?
    requires !op.SetupTry? && !op.TeardownTry?
    ensures Spans(One(op, line), p, shapes, x, Shape(x.height - Pops(op) + Pushes(op), x.handlers), ext, loop)
    ensures SitesIn(One(op, line), p)
  {
    var y := Shape(x.height - Pops(op) + Pushes(op), x.handlers);
    assert Flows(op, p, x, ext + {(p + 1, y)});
    shapes := SpansOne(op, line, p, x, y, ext, loop);
  }

  lemma SpansPop(line: nat, p: nat, x: Shape, ext: World, loop: Option<Shape>) returns (shapes: seq<Shape>)
    requires x.height > 0
    ensures Spans(One(Pop, line), p, shapes, x, Shape(x.height - 1, x.handlers), ext, loop) && SitesIn(One(Pop, line), p)
  {
    hide Spans;
    shapes := SpansPlain(Pop, line, p, x, ext, loop);
  }

  lemma SpansJump(op: OpCode, t: nat, line: nat, p: nat, x: Shape, next: Shape, ext: World, loop: Option<Shape>) returns (shapes: seq<Shape>)
    requires (op == Jump(t) || op == Loop(t)) && (t, x) in ext
    ensures Spans(One(op, line), p, shapes, x, next, ext, loop) && SitesIn(One(op, line), p)
  {
    shapes := SpansOne(op, line, p, x, next, ext, loop);
  }

  lemma SpansTest(t: nat, line: nat, p: nat, x: Shape, ext: World, loop: Option<Shape>) returns (shapes: seq<Shape>)
    requires (t, x) in ext
    ensures Spans(One(JumpIfFalse(t), line), p, shapes, Taller(x, 1), x, ext, loop) && SitesIn(One(JumpIfFalse(t), line), p)
  {
    shapes := SpansOne(JumpIfFalse(t), line, p, Taller(x, 1), x, ext, loop);
  }

  lemma SpansKeep(op: OpCode, t: nat, line: nat, p: nat, x: Shape, ext: World, loop: Option<Shape>) returns (shapes: seq<Shape>)
    requires (op == JumpIfFalseKeep(t) || op == JumpIfTrueKeep(t)) && (t, x) in ext && x.height > 0
    ensures Spans(One(op, line), p, shapes, x, x, ext, loop) && SitesIn(One(op, line), p)
  {
    shapes := SpansOne(op, line, p, x, x, ext, loop);
  }

  lemma SpansSetup(t: nat, line: nat, p: nat, x: Shape, ext: World, loop: Option<Shape>) returns (shapes: seq<Shape>)
    requires (t, Taller(x, 1)) in ext
    ensures Spans(One(SetupTry(t), line), p, shapes, x, Shape(x.height, x.handlers + [Handler(t, x.height)]), ext, loop)
    ensures SitesIn(One(SetupTry(t), line), p)
  {
    shapes := SpansOne(SetupTry(t), line, p, x, Shape(x.height, x.handlers + [Handler(t, x.height)]), ext, loop);
  }

  lemma SpansTeardown(line: nat, p: nat, x: Shape, h: Handler, ext: World, loop: Option<Shape>) returns (shapes: seq<Shape>)
    ensures Spans(One(TeardownTry, line), p, shapes, Shape(x.height, x.handlers + [h]), x, ext, loop)
    ensures SitesIn(One(TeardownTry, line), p)
  {
    assert (x.handlers + [h])[..|x.handlers|] == x.handlers;
    shapes := SpansOne(TeardownTry, line, p, Shape(x.height, x.handlers + [h]), x, ext, loop);
  }

  lemma SpansConst(v: Value, line: nat, j: nat, p: nat, x: Shape, ext: World, loop: Option<Shape>) returns (shapes: seq<Shape>)
    ensures Spans(Const(v, line, j), p, shapes, x, Taller(x, 1), ext, loop) && SitesIn(Const(v, line, j), p)
  {
    hide Flows;
    shapes := SpansPlain(LoadConst(j), line, p, x, ext, loop);
    forall i | 0 <= i < 1
      ensures Placed(Const(v, line, j), p, shapes, Pairs(p, shapes) + ext, loop, i)
    {
      assert Placed(One(LoadConst(j), line), p, shapes, Pairs(p, shapes) + ext, loop, i);
    }
  }

  lemma SpansNone(p: nat, x: Shape, ext: World, loop: Option<Shape>) returns (shapes: seq<Shape>)
    ensures Spans(EMPTY, p, shapes, x, x, ext, loop)
  {
    ShapedNone(p, x, ext, loop);
    shapes := [x];
  }

  lemma SpansWithin(f: Frag, p: nat, shapes: seq<Shape>, x: Shape, y: Shape, ext: World, wider: World, loop: Option<Shape>)
    requires Spans(f, p, shapes, x, y, ext, loop) && ext <= Pairs(p, shapes) + wider
    ensures Spans(f, p, shapes, x, y, wider, loop)
  {
    ShapedWithin(f, p, shapes, ext, wider, loop);
  }

  /** The end of a fragment is one of its positions. */
  lemma EndWithin(f: Frag, p: nat, shapes: seq<Shape>, x: Shape, y: Shape, ext: World, loop: Option<Shape>)
    requires Spans(f, p, shapes, x, y, ext + {(p + |f.code|, y)}, loop)
    ensures Spans(f, p, shapes, x, y, ext, loop)
  {
    hide Shaped;
    SpansLength(f, p, shapes, x, y, ext + {(p + |f.code|, y)}, loop);
    SpansWithin(f, p, shapes, x, y, ext + {(p + |f.code|, y)}, ext, loop);
  }

  lemma CatchesWider(handlers: seq<Handler>, height: nat, taller: nat, world: World, wider: World)
    requires Catches(handlers, height, world) && height <= taller && world <= wider
    ensures Catches(handlers, taller, wider)
  {
  }

  // ----- Expressions -----

  lemma UnfoldBinary(e: Expr, names: seq<string>, line: nat, p: nat, k: nat)
    requires e.Binary?
    ensures var l := GenExpr(e.left, names, line, p, k);
            if e.op.And? || e.op.Or? then
              var r := GenExpr(e.right, names, line, p + |l.code| + 2, k + |l.consts|);
              var end := p + |l.code| + 2 + |r.code|;
              GenExpr(e, names, line, p, k) ==
              Cat(Cat(l, Cat(One(if e.op.And? then JumpIfFalseKeep(end) else JumpIfTrueKeep(end), line), One(Pop, line))), r)
            else
              var r := GenExpr(e.right, names, line, p + |l.code|, k + |l.consts|);
              GenExpr(e, names, line, p, k) == Cat(Cat(l, r), One(BinaryOpCode(e.op), line))
  {
    hide Cat, One;
  }

  /** The code of an expression leaves the stack one taller, and touches nothing else. */
  lemma {:induction false} ExprSpans(
    e: Expr, names: seq<string>, line: nat, p: nat, k: nat, sh: Shape, ext: World, loop: Option<Shape>)
    returns (shapes: seq<Shape>)
    requires |names| <= sh.height && Catches(sh.handlers, |names|, ext)
    ensures Spans(GenExpr(e, names, line, p, k), p, shapes, sh, Taller(sh, 1), ext, loop)
    decreases e, 1
  {
    hide Spans, Flows;
    match e
    case IntLit(n) => shapes := SpansConst(VInt(n), line, k, p, sh, ext, loop);
    case StrLit(s) => shapes := SpansConst(VStr(s), line, k, p, sh, ext, loop);
    case BoolLit(b) => shapes := SpansConst(VBool(b), line, k, p, sh, ext, loop);
    case NullLit => shapes := SpansConst(VNull, line, k, p, sh, ext, loop);
    case Ident(name) => shapes := SpansPlain(NameRead(name, names), line, p, sh, ext, loop);
    case Binary(op, _, _) =>
      if op.And? || op.Or? {
        shapes := ShortCircuitSpans(e, names, line, p, k, sh, ext, loop);
      } else {
        shapes := OperatorSpans(e, names, line, p, k, sh, ext, loop);
      }
    case Unary(_, _) => shapes := UnarySpans(e, names, line, p, k, sh, ext, loop);
    case Print(_) => shapes := PrintSpans(e, names, line, p, k, sh, ext, loop);
    case ListLit(_) => shapes := ListSpans(e, names, line, p, k, sh, ext, loop);
    case Index(_, _) => shapes := IndexSpans(e, names, line, p, k, sh, ext, loop);
  }

  lemma {:induction false} UnarySpans(
    e: Expr, names: seq<string>, line: nat, p: nat, k: nat, sh: Shape, ext: World, loop: Option<Shape>)
    returns (shapes: seq<Shape>)
    requires e.Unary?
    requires |names| <= sh.height && Catches(sh.handlers, |names|, ext)
    ensures Spans(GenExpr(e, names, line, p, k), p, shapes, sh, Taller(sh, 1), ext, loop)
    decreases e, 0
  {
    hide Spans, Flows;
    var f := GenExpr(e.operand, names, line, p, k);
    var op := if e.uop.Neg? then Negate else OpCode.Not;
    var a := ExprSpans(e.operand, names, line, p, k, sh, ext, loop);
    var b := SpansPlain(op, line, p + |f.code|, Taller(sh, 1), ext, loop);
    shapes := SpansCat(f, One(op, line), p, a, b, sh, Taller(sh, 1), Taller(sh, 1), ext, loop);
  }

  lemma {:induction false} ShortCircuitSpans(
    e: Expr, names: seq<string>, line: nat, p: nat, k: nat, sh: Shape, ext: World, loop: Option<Shape>)
    returns (shapes: seq<Shape>)
    requires e.Binary? && (e.op.And? || e.op.Or?)
    requires |names| <= sh.height && Catches(sh.handlers, |names|, ext)
    ensures Spans(GenExpr(e, names, line, p, k), p, shapes, sh, Taller(sh, 1), ext, loop)
    decreases e, 0
  {
    hide GenExpr, Spans, Cat, Flows, Pairs;
    UnfoldBinary(e, names, line, p, k);
    var one := Taller(sh, 1);
    var l := GenExpr(e.left, names, line, p, k);
    var r := GenExpr(e.right, names, line, p + |l.code| + 2, k + |l.consts|);
    var end := p + |l.code| + 2 + |r.code|;
    var wide := ext + {(end, one)};
    CatchesWider(sh.handlers, |names|, |names|, ext, wide);
    var test := if e.op.And? then JumpIfFalseKeep(end) else JumpIfTrueKeep(end);
    var at := p + |l.code|;
    var sl := ExprSpans(e.left, names, line, p, k, sh, wide, loop);
    var st := SpansKeep(test, end, line, at, one, wide, loop);
    var sp := SpansPop(line, at + 1, one, wide, loop);
    var sr := ExprSpans(e.right, names, line, at + 2, k + |l.consts|, sh, wide, loop);
    var s1 := SpansCat(One(test, line), One(Pop, line), at, st, sp, one, one, sh, wide, loop);
    CatSize(One(test, line), One(Pop, line));
    var s2 := SpansCat(l, Cat(One(test, line), One(Pop, line)), p, sl, s1, sh, one, sh, wide, loop);
    CatSize(l, Cat(One(test, line), One(Pop, line)));
    shapes := SpansCat(Cat(l, Cat(One(test, line), One(Pop, line))), r, p, s2, sr, sh, sh, one, wide, loop);
    CatSize(Cat(l, Cat(One(test, line), One(Pop, line))), r);
    EndWithin(GenExpr(e, names, line, p, k), p, shapes, sh, one, ext, loop);
  }

  lemma {:induction false} OperatorSpans(
    e: Expr, names: seq<string>, line: nat, p: nat, k: nat, sh: Shape, ext: World, loop: Option<Shape>)
    returns (shapes: seq<Shape>)
    requires e.Binary? && !e.op.And? && !e.op.Or?
    requires |names| <= sh.height && Catches(sh.handlers, |names|, ext)
    ensures Spans(GenExpr(e, names, line, p, k), p, shapes, sh, Taller(sh, 1), ext, loop)
    decreases e, 0
  {
    hide GenExpr, Spans, Flows;
    UnfoldBinary(e, names, line, p, k);
    var l := GenExpr(e.left, names, line, p, k);
    var r := GenExpr(e.right, names, line, p + |l.code|, k + |l.consts|);
    var sl := ExprSpans(e.left, names, line, p, k, sh, ext, loop);
    var sr := ExprSpans(e.right, names, line, p + |l.code|, k + |l.consts|, Taller(sh, 1), ext, loop);
    var so := SpansPlain(BinaryOpCode(e.op), line, p + |l.code| + |r.code|, Taller(sh, 2), ext, loop);
    var s1 := SpansCat(l, r, p, sl, sr, sh, Taller(sh, 1), Taller(sh, 2), ext, loop);
    shapes := SpansCat(Cat(l, r), One(BinaryOpCode(e.op), line), p, s1, so, sh, Taller(sh, 2), Taller(sh, 1), ext, loop);
  }

  lemma {:induction false} PrintSpans(
    e: Expr, names: seq<string>, line: nat, p: nat, k: nat, sh: Shape, ext: World, loop: Option<Shape>)
    returns (shapes: seq<Shape>)
    requires e.Print?
    requires |names| <= sh.height && Catches(sh.handlers, |names|, ext)
    ensures Spans(GenExpr(e, names, line, p, k), p, shapes, sh, Taller(sh, 1), ext, loop)
    decreases e, 0
  {
    hide GenArgs, Spans, Flows;
    var n := |e.args|;
    var a := GenArgs(e.args, names, line, p, k);
    var sa := ArgsSpan(e.args, names, line, p, k, sh, ext, loop);
    var so := SpansPlain(OpCode.Print(n), line, p + |a.code|, Taller(sh, n), ext, loop);
    var sc := SpansConst(VNull, line, k + |a.consts|, p + |a.code| + 1, sh, ext, loop);
    var s1 := SpansCat(a, One(OpCode.Print(n), line), p, sa, so, sh, Taller(sh, n), sh, ext, loop);
    shapes := SpansCat(Cat(a, One(OpCode.Print(n), line)), Const(VNull, line, k + |a.consts|), p, s1, sc, sh, sh, Taller(sh, 1), ext, loop);
  }

  lemma {:induction false} ArgsSpan(
    es: seq<Expr>, names: seq<string>, line: nat, p: nat, k: nat, sh: Shape, ext: World, loop: Option<Shape>)
    returns (shapes: seq<Shape>)
    requires |names| <= sh.height && Catches(sh.handlers, |names|, ext)
    ensures Spans(GenArgs(es, names, line, p, k), p, shapes, sh, Taller(sh, |es|), ext, loop)
    decreases es, 0
  {
    hide GenExpr, Spans;
    if es == [] {
      shapes := SpansNone(p, sh, ext, loop);
    } else {
      var f := GenExpr(es[0], names, line, p, k);
      var rest := GenArgs(es[1..], names, line, p + |f.code|, k + |f.consts|);
      var a := ExprSpans(es[0], names, line, p, k, sh, ext, loop);
      var b := ArgsSpan(es[1..], names, line, p + |f.code|, k + |f.consts|, Taller(sh, 1), ext, loop);
      shapes := SpansCat(f, rest, p, a, b, sh, Taller(sh, 1), Taller(sh, |es|), ext, loop);
    }
  }

  lemma {:induction false} ListSpans(
    e: Expr, names: seq<string>, line: nat, p: nat, k: nat, sh: Shape, ext: World, loop: Option<Shape>)
    returns (shapes: seq<Shape>)
    requires e.ListLit?
    requires |names| <= sh.height && Catches(sh.handlers, |names|, ext)
    ensures Spans(GenExpr(e, names, line, p, k), p, shapes, sh, Taller(sh, 1), ext, loop)
    decreases e, 0
  {
    hide GenElements, Spans;
    var a := SpansConst(VList([]), line, k, p, sh, ext, loop);
    var b := ElementsSpan(e.items, names, line, p + 1, k + 1, Taller(sh, 1), ext, loop);
    shapes := SpansCat(Const(VList([]), line, k), GenElements(e.items, names, line, p + 1, k + 1), p, a, b, sh, Taller(sh, 1), Taller(sh, 1), ext, loop);
  }

  /** Every element is appended to the list below it. */
  lemma {:induction false} ElementsSpan(
    es: seq<Expr>, names: seq<string>, line: nat, p: nat, k: nat, sh: Shape, ext: World, loop: Option<Shape>)
    returns (shapes: seq<Shape>)
    requires |names| < sh.height && Catches(sh.handlers, |names|, ext)
    ensures Spans(GenElements(es, names, line, p, k), p, shapes, sh, sh, ext, loop)
    decreases es, 0
  {
    hide GenExpr, Spans, Flows, Pairs, Catches;
    CatchesWider(sh.handlers, |names|, sh.height - 1, ext, ext);
    if es == [] {
      shapes := SpansNone(p, sh, ext, loop);
    } else {
      var f := GenExpr(es[0], names, line, p, k);
      var push := One(ListPush, line);
      var first := Cat(f, push);
      var rest := GenElements(es[1..], names, line, p + |first.code|, k + |first.consts|);
      var a := ExprSpans(es[0], names, line, p, k, sh, ext, loop);
      var b := SpansPlain(ListPush, line, p + |f.code|, Taller(sh, 1), ext, loop);
      var c := ElementsSpan(es[1..], names, line, p + |first.code|, k + |first.consts|, sh, ext, loop);
      var ab := SpansCat(f, push, p, a, b, sh, Taller(sh, 1), sh, ext, loop);
      shapes := SpansCat(first, rest, p, ab, c, sh, sh, sh, ext, loop);
    }
  }

  lemma UnfoldIndex(e: Expr, names: seq<string>, line: nat, p: nat, k: nat)
    requires e.Index?
    ensures if e.base.Ident? && IsSideEffectFree(e.index) && Resolve(names, e.base.name).Some? then
              GenExpr(e, names, line, p, k) ==
              Cat(GenExpr(e.index, names, line, p, k), One(IndexLocal(Resolve(names, e.base.name).value), line))
            else
              var b := GenExpr(e.base, names, line, p, k);
              var i := GenExpr(e.index, names, line, p + |b.code|, k + |b.consts|);
              GenExpr(e, names, line, p, k) == Cat(Cat(b, i), One(OpCode.Index, line))
  {
  }

  lemma {:induction false} IndexSpans(
    e: Expr, names: seq<string>, line: nat, p: nat, k: nat, sh: Shape, ext: World, loop: Option<Shape>)
    returns (shapes: seq<Shape>)
    requires e.Index?
    requires |names| <= sh.height && Catches(sh.handlers, |names|, ext)
    ensures Spans(GenExpr(e, names, line, p, k), p, shapes, sh, Taller(sh, 1), ext, loop)
    decreases e, 0
  {
    hide GenExpr, Spans, Flows;
    UnfoldIndex(e, names, line, p, k);
    var one, two := Taller(sh, 1), Taller(sh, 2);
    if e.base.Ident? && IsSideEffectFree(e.index) && Resolve(names, e.base.name).Some? {
      var op := IndexLocal(Resolve(names, e.base.name).value);
      var i := GenExpr(e.index, names, line, p, k);
      var si := ExprSpans(e.index, names, line, p, k, sh, ext, loop);
      var so := SpansPlain(op, line, p + |i.code|, one, ext, loop);
      shapes := SpansCat(i, One(op, line), p, si, so, sh, one, one, ext, loop);
    } else {
      var b := GenExpr(e.base, names, line, p, k);
      var i := GenExpr(e.index, names, line, p + |b.code|, k + |b.consts|);
      var sb := ExprSpans(e.base, names, line, p, k, sh, ext, loop);
      var si := ExprSpans(e.index, names, line, p + |b.code|, k + |b.consts|, one, ext, loop);
      var so := SpansPlain(OpCode.Index, line, p + |b.code| + |i.code|, two, ext, loop);
      var s1 := SpansCat(b, i, p, sb, si, sh, one, two, ext, loop);
      shapes := SpansCat(Cat(b, i), One(OpCode.Index, line), p, s1, so, sh, two, one, ext, loop);
    }
  }

  // ----- Statements -----

  /** Where `break` and `continue` leave the machine: the loop's locals, and the handlers around the loop. */
  function LoopShape(lp: Option<LoopInfo>, handlers: seq<Handler>): Option<Shape>
    requires lp.Some? ==> lp.value.tryDepth <= |handlers|
  {
    if lp.None? then None
    else Some(Shape(lp.value.localsCount, handlers[..|handlers| - lp.value.tryDepth]))
  }

  /** The surroundings of a statement: its handlers are catchable and its loop can be continued. */
  predicate Surrounds(lp: Option<LoopInfo>, names: seq<string>, handlers: seq<Handler>, ext: World) {
    && LoopFits(lp, names)
    && Catches(handlers, |names|, ext)
    && (lp.Some? ==> lp.value.tryDepth <= |handlers|)
    && (lp.Some? && lp.value.resolved ==> (lp.value.contTarget, LoopShape(lp, handlers).value) in ext)
  }

  lemma SurroundsMore(lp: Option<LoopInfo>, names: seq<string>, more: seq<string>, handlers: seq<Handler>, ext: World, wider: World)
    requires Surrounds(lp, names, handlers, ext) && |names| <= |more| && ext <= wider
    ensures Surrounds(lp, more, handlers, wider)
  {
  }

  predicate StmtSpan(s: Stmt, names: seq<string>, top: bool, lp: Option<LoopInfo>, p: nat, k: nat, handlers: seq<Handler>, ext: World, shapes: seq<Shape>)
    requires Compilable(s, lp.Some?) && Surrounds(lp, names, handlers, ext)
  {
    Spans(GenStmt(s, names, top, lp, p, k), p, shapes, Shape(|names|, handlers), Shape(|NamesAfterStmt(s, names)|, handlers),
          ext, LoopShape(lp, handlers))
  }

  lemma LetSpans(s: Stmt, names: seq<string>, top: bool, lp: Option<LoopInfo>, p: nat, k: nat, handlers: seq<Handler>, ext: World)
    returns (shapes: seq<Shape>)
    requires s.Let? && Surrounds(lp, names, handlers, ext)
    ensures StmtSpan(s, names, top, lp, p, k, handlers, ext, shapes)
  {
    hide GenExpr, Spans, Flows;
    var sh, loop := Shape(|names|, handlers), LoopShape(lp, handlers);
    var v := GenExpr(s.value, names, s.line, p, k);
    shapes := ExprSpans(s.value, names, s.line, p, k, sh, ext, loop);
    if top {
      var op := RegisterGlobal(s.name, |names|);
      var so := SpansPlain(op, s.line, p + |v.code|, Taller(sh, 1), ext, loop);
      shapes := SpansCat(v, One(op, s.line), p, shapes, so, sh, Taller(sh, 1), Taller(sh, 1), ext, loop);
    }
  }

  lemma AssignSpans(s: Stmt, names: seq<string>, top: bool, lp: Option<LoopInfo>, p: nat, k: nat, handlers: seq<Handler>, ext: World)
    returns (shapes: seq<Shape>)
    requires s.Assign? && Surrounds(lp, names, handlers, ext)
    ensures StmtSpan(s, names, top, lp, p, k, handlers, ext, shapes)
  {
    hide GenExpr, Spans, Flows, Cat, Resolve;
    var sh, loop := Shape(|names|, handlers), LoopShape(lp, handlers);
    var one := Taller(sh, 1);
    var v := GenExpr(s.value, names, s.line, p, k);
    var store := match Resolve(names, s.name) case Some(slot) => SetLocal(slot) case None => SetGlobal(s.name);
    var sv := ExprSpans(s.value, names, s.line, p, k, sh, ext, loop);
    var ss := SpansPlain(store, s.line, p + |v.code|, one, ext, loop);
    var sp := SpansPop(s.line, p + |v.code| + 1, one, ext, loop);
    CatSize(One(store, s.line), One(Pop, s.line));
    var s1 := SpansCat(One(store, s.line), One(Pop, s.line), p + |v.code|, ss, sp, one, one, sh, ext, loop);
    shapes := SpansCat(v, Cat(One(store, s.line), One(Pop, s.line)), p, sv, s1, sh, one, sh, ext, loop);
  }

  lemma CheckSpans(dest: MutationTarget, line: nat, p: nat, sh: Shape, ext: World, loop: Option<Shape>) returns (shapes: seq<Shape>)
    requires Catches(sh.handlers, sh.height, ext)
    ensures Spans(if dest.GlobalTarget? then One(RequireGlobal(dest.name), line) else EMPTY, p, shapes, sh, sh, ext, loop)
  {
    hide Spans, Flows;
    if dest.GlobalTarget? {
      shapes := SpansPlain(RequireGlobal(dest.name), line, p, sh, ext, loop);
    } else {
      shapes := SpansNone(p, sh, ext, loop);
    }
  }

  lemma ElementAssignSpans(
    name: string, index: Expr, value: Expr, line: nat, names: seq<string>, p: nat, k: nat, handlers: seq<Handler>, ext: World, loop: Option<Shape>)
    returns (shapes: seq<Shape>)
    requires Catches(handlers, |names|, ext)
    ensures var sh := Shape(|names|, handlers);
            Spans(GenIndexAssign(name, index, value, line, names, p, k), p, shapes, sh, sh, ext, loop)
  {
    hide GenExpr, Spans, Flows, Resolve;
    var sh := Shape(|names|, handlers);
    var one, two := Taller(sh, 1), Taller(sh, 2);
    var dest := Target(name, names);
    var check := if dest.GlobalTarget? then One(RequireGlobal(name), line) else EMPTY;
    var at := p + |check.code|;
    var i := GenExpr(index, names, line, at, k);
    var v := GenExpr(value, names, line, at + |i.code|, k + |i.consts|);
    var sc := CheckSpans(dest, line, p, sh, ext, loop);
    var si := ExprSpans(index, names, line, at, k, sh, ext, loop);
    var sv := ExprSpans(value, names, line, at + |i.code|, k + |i.consts|, one, ext, loop);
    var so := SpansPlain(SetIndex(dest), line, at + |i.code| + |v.code|, two, ext, loop);
    var s1 := SpansCat(check, i, p, sc, si, sh, sh, one, ext, loop);
    var s2 := SpansCat(Cat(check, i), v, p, s1, sv, sh, one, two, ext, loop);
    shapes := SpansCat(Cat(Cat(check, i), v), One(SetIndex(dest), line), p, s2, so, sh, two, sh, ext, loop);
  }

  lemma IndexAssignSpans(s: Stmt, names: seq<string>, top: bool, lp: Option<LoopInfo>, p: nat, k: nat, handlers: seq<Handler>, ext: World)
    returns (shapes: seq<Shape>)
    requires s.IndexAssign? && Surrounds(lp, names, handlers, ext)
    ensures StmtSpan(s, names, top, lp, p, k, handlers, ext, shapes)
  {
    hide Spans, GenIndexAssign;
    shapes := ElementAssignSpans(s.name, s.index, s.value, s.line, names, p, k, handlers, ext, LoopShape(lp, handlers));
  }

  lemma ExprStmtSpans(s: Stmt, names: seq<string>, top: bool, lp: Option<LoopInfo>, p: nat, k: nat, handlers: seq<Handler>, ext: World)
    returns (shapes: seq<Shape>)
    requires s.ExprStmt? && Surrounds(lp, names, handlers, ext)
    ensures StmtSpan(s, names, top, lp, p, k, handlers, ext, shapes)
  {
    hide GenExpr, Spans, Flows;
    var sh, loop := Shape(|names|, handlers), LoopShape(lp, handlers);
    var v := GenExpr(s.expr, names, s.line, p, k);
    var sv := ExprSpans(s.expr, names, s.line, p, k, sh, ext, loop);
    var so := SpansPop(s.line, p + |v.code|, Taller(sh, 1), ext, loop);
    shapes := SpansCat(v, One(Pop, s.line), p, sv, so, sh, Taller(sh, 1), sh, ext, loop);
  }

  lemma ReturnSpans(s: Stmt, names: seq<string>, top: bool, lp: Option<LoopInfo>, p: nat, k: nat, handlers: seq<Handler>, ext: World)
    returns (shapes: seq<Shape>)
    requires s.Return? && Surrounds(lp, names, handlers, ext)
    ensures StmtSpan(s, names, top, lp, p, k, handlers, ext, shapes)
  {
    hide GenExpr, Spans;
    var sh, loop := Shape(|names|, handlers), LoopShape(lp, handlers);
    var v := GenExpr(s.value, names, s.line, p, k);
    var sv := ExprSpans(s.value, names, s.line, p, k, sh, ext, loop);
    var so := SpansOne(ReturnValue, s.line, p + |v.code|, Taller(sh, 1), sh, ext, loop);
    shapes := SpansCat(v, One(ReturnValue, s.line), p, sv, so, sh, Taller(sh, 1), sh, ext, loop);
  }

  lemma {:induction false} TeardownsSpan(n: nat, line: nat, p: nat, height: nat, handlers: seq<Handler>, ext: World, loop: Option<Shape>)
    returns (shapes: seq<Shape>)
    requires n <= |handlers|
    ensures Spans(Teardowns(n, line), p, shapes, Shape(height, handlers), Shape(height, handlers[..|handlers| - n]), ext, loop)
    decreases n
  {
    hide Spans;
    if n == 0 {
      assert handlers[..|handlers|] == handlers;
      shapes := SpansNone(p, Shape(height, handlers), ext, loop);
    } else {
      var mid := Shape(height, handlers[..|handlers| - (n - 1)]);
      var end := Shape(height, handlers[..|handlers| - n]);
      assert mid.handlers[..|mid.handlers| - 1] == end.handlers;
      var a := TeardownsSpan(n - 1, line, p, height, handlers, ext, loop);
      var b := SpansOne(TeardownTry, line, p + n - 1, mid, end, ext, loop);
      shapes := SpansCat(Teardowns(n - 1, line), One(TeardownTry, line), p, a, b, Shape(height, handlers), mid, end, ext, loop);
    }
  }

  lemma PopSlotsSpan(n: nat, line: nat, p: nat, sh: Shape, ext: World, loop: Option<Shape>) returns (shapes: seq<Shape>)
    requires n <= sh.height
    ensures Spans(PopSlots(n, line), p, shapes, sh, Shape(sh.height - n, sh.handlers), ext, loop) && SitesIn(PopSlots(n, line), p)
  {
    hide Spans, Flows;
    if n > 0 {
      shapes := SpansPlain(PopN(n), line, p, sh, ext, loop);
    } else {
      shapes := SpansNone(p, sh, ext, loop);
    }
  }

  lemma UnwindSpans(names: seq<string>, lp: LoopInfo, line: nat, p: nat, handlers: seq<Handler>, ext: World)
    returns (shapes: seq<Shape>)
    requires lp.localsCount <= |names| && lp.tryDepth <= |handlers|
    ensures Spans(Unwind(names, lp, line), p, shapes, Shape(|names|, handlers), LoopShape(Some(lp), handlers).value,
                  ext, LoopShape(Some(lp), handlers))
    ensures SitesIn(Unwind(names, lp, line), p)
  {
    hide Spans;
    var loop := LoopShape(Some(lp), handlers);
    var torn := Shape(|names|, handlers[..|handlers| - lp.tryDepth]);
    var a := TeardownsSpan(lp.tryDepth, line, p, |names|, handlers, ext, loop);
    var b := PopSlotsSpan(|names| - lp.localsCount, line, p + lp.tryDepth, torn, ext, loop);
    shapes := SpansCat(Teardowns(lp.tryDepth, line), PopSlots(|names| - lp.localsCount, line), p, a, b,
                       Shape(|names|, handlers), torn, loop.value, ext, loop);
  }

  /** A waiting jump has the shape of its loop; what follows it is not reached through it. */
  lemma SiteSpans(f: Frag, p: nat, line: nat, next: Shape, ext: World, loop: Option<Shape>) returns (shapes: seq<Shape>)
    requires loop.Some?
    requires f == Frag([Instr(Jump(0), line)], [], [p], []) || f == Frag([Instr(Jump(0), line)], [], [], [p])
    ensures Spans(f, p, shapes, loop.value, next, ext, loop) && SitesIn(f, p)
  {
    shapes := [loop.value, next];
    forall i | 0 <= i < 1
      ensures Placed(f, p, shapes, Pairs(p, shapes) + ext, loop, i)
    {
      assert p + i in f.breaks || p + i in f.conts;
    }
  }

  lemma BreakSpans(s: Stmt, names: seq<string>, top: bool, lp: Option<LoopInfo>, p: nat, k: nat, handlers: seq<Handler>, ext: World)
    returns (shapes: seq<Shape>)
    requires s.Break? && lp.Some? && Surrounds(lp, names, handlers, ext)
    ensures StmtSpan(s, names, top, lp, p, k, handlers, ext, shapes)
  {
    hide Spans, Unwind;
    var sh, loop := Shape(|names|, handlers), LoopShape(lp, handlers);
    var u := Unwind(names, lp.value, s.line);
    var site := Frag([Instr(Jump(0), s.line)], [], [p + |u.code|], []);
    var a := UnwindSpans(names, lp.value, s.line, p, handlers, ext);
    var b := SiteSpans(site, p + |u.code|, s.line, sh, ext, loop);
    shapes := SpansCat(u, site, p, a, b, sh, loop.value, sh, ext, loop);
  }

  lemma ContinueSpans(s: Stmt, names: seq<string>, top: bool, lp: Option<LoopInfo>, p: nat, k: nat, handlers: seq<Handler>, ext: World)
    returns (shapes: seq<Shape>)
    requires s.Continue? && lp.Some? && Surrounds(lp, names, handlers, ext)
    ensures StmtSpan(s, names, top, lp, p, k, handlers, ext, shapes)
  {
    hide Spans, Unwind;
    var sh, loop := Shape(|names|, handlers), LoopShape(lp, handlers);
    var u := Unwind(names, lp.value, s.line);
    var a := UnwindSpans(names, lp.value, s.line, p, handlers, ext);
    if lp.value.resolved {
      var b := SpansOne(Loop(lp.value.contTarget), lp.value.line, p + |u.code|, loop.value, sh, ext, loop);
      shapes := SpansCat(u, One(Loop(lp.value.contTarget), lp.value.line), p, a, b, sh, loop.value, sh, ext, loop);
    } else {
      var site := Frag([Instr(Jump(0), s.line)], [], [], [p + |u.code|]);
      var b := SiteSpans(site, p + |u.code|, s.line, sh, ext, loop);
      shapes := SpansCat(u, site, p, a, b, sh, loop.value, sh, ext, loop);
    }
  }

  // ----- Compound statements -----

  lemma {:induction false} StmtSpans(s: Stmt, names: seq<string>, top: bool, lp: Option<LoopInfo>, p: nat, k: nat, handlers: seq<Handler>, ext: World)
    returns (shapes: seq<Shape>)
    requires Compilable(s, lp.Some?) && Surrounds(lp, names, handlers, ext)
    ensures StmtSpan(s, names, top, lp, p, k, handlers, ext, shapes)
    decreases s, 2
  {
    hide StmtSpan, Surrounds, GenStmt;
    match s
    case Let(_, _, _) => shapes := LetSpans(s, names, top, lp, p, k, handlers, ext);
    case Assign(_, _, _) => shapes := AssignSpans(s, names, top, lp, p, k, handlers, ext);
    case IndexAssign(_, _, _, _) => shapes := IndexAssignSpans(s, names, top, lp, p, k, handlers, ext);
    case ExprStmt(_, _) => shapes := ExprStmtSpans(s, names, top, lp, p, k, handlers, ext);
    case Return(_, _) => shapes := ReturnSpans(s, names, top, lp, p, k, handlers, ext);
    case Break(_) => shapes := BreakSpans(s, names, top, lp, p, k, handlers, ext);
    case Continue(_) => shapes := ContinueSpans(s, names, top, lp, p, k, handlers, ext);
    case If(_, _, _, _) => shapes := IfSpans(s, names, top, lp, p, k, handlers, ext);
    case While(_, _, _) => shapes := WhileSpans(s, names, top, lp, p, k, handlers, ext);
    case For(_, _, _, _) => shapes := ForSpans(s, names, top, lp, p, k, handlers, ext);
    case TryCatch(_, _, _, _) => shapes := TrySpans(s, names, top, lp, p, k, handlers, ext);
  }

  lemma {:induction false} BlockSpans(ss: seq<Stmt>, names: seq<string>, top: bool, lp: Option<LoopInfo>, p: nat, k: nat, handlers: seq<Handler>, ext: World)
    returns (shapes: seq<Shape>)
    requires CompilableAll(ss, lp.Some?) && Surrounds(lp, names, handlers, ext)
    ensures Spans(GenBlock(ss, names, top, lp, p, k), p, shapes, Shape(|names|, handlers), Shape(|NamesAfter(ss, names)|, handlers),
                  ext, LoopShape(lp, handlers))
    decreases ss, 0
  {
    hide Spans, GenStmt;
    if ss == [] {
      shapes := SpansNone(p, Shape(|names|, handlers), ext, LoopShape(lp, handlers));
    } else {
      var f := GenStmt(ss[0], names, top, lp, p, k);
      var more := NamesAfterStmt(ss[0], names);
      SurroundsMore(lp, names, more, handlers, ext, ext);
      var a := StmtSpans(ss[0], names, top, lp, p, k, handlers, ext);
      var b := BlockSpans(ss[1..], more, top, lp, p + |f.code|, k + |f.consts|, handlers, ext);
      shapes := SpansCat(f, GenBlock(ss[1..], more, top, lp, p + |f.code|, k + |f.consts|), p, a, b,
                         Shape(|names|, handlers), Shape(|more|, handlers), Shape(|NamesAfter(ss, names)|, handlers), ext, LoopShape(lp, handlers));
    }
  }

  lemma {:induction false} ScopedSpans(
    ss: seq<Stmt>, names: seq<string>, keep: nat, lp: Option<LoopInfo>, line: nat, p: nat, k: nat, handlers: seq<Handler>, ext: World)
    returns (shapes: seq<Shape>)
    requires CompilableAll(ss, lp.Some?) && keep <= |names| && Surrounds(lp, names, handlers, ext)
    ensures Spans(GenScoped(ss, names, keep, lp, line, p, k), p, shapes, Shape(|names|, handlers), Shape(keep, handlers), ext, LoopShape(lp, handlers))
    decreases ss, 1
  {
    hide Spans, GenBlock;
    var f := GenBlock(ss, names, false, lp, p, k);
    var mid := Shape(|NamesAfter(ss, names)|, handlers);
    var a := BlockSpans(ss, names, false, lp, p, k, handlers, ext);
    var b := PopSlotsSpan(|NamesAfter(ss, names)| - keep, line, p + |f.code|, mid, ext, LoopShape(lp, handlers));
    shapes := SpansCat(f, PopSlots(|NamesAfter(ss, names)| - keep, line), p, a, b, Shape(|names|, handlers), mid, Shape(keep, handlers),
                       ext, LoopShape(lp, handlers));
  }

  lemma {:induction false} IfSpans(s: Stmt, names: seq<string>, top: bool, lp: Option<LoopInfo>, p: nat, k: nat, handlers: seq<Handler>, ext: World)
    returns (shapes: seq<Shape>)
    requires s.If? && Compilable(s, lp.Some?) && Surrounds(lp, names, handlers, ext)
    ensures StmtSpan(s, names, top, lp, p, k, handlers, ext, shapes)
    decreases s, 1
  {
    hide Spans, GenIf;
    if s.elseBody == [] {
      shapes := IfOnlySpans(s, names, lp, p, k, handlers, ext);
    } else {
      shapes := IfElseSpans(s, names, lp, p, k, handlers, ext);
    }
  }

  lemma {:induction false} IfOnlySpans(s: Stmt, names: seq<string>, lp: Option<LoopInfo>, p: nat, k: nat, handlers: seq<Handler>, ext: World)
    returns (shapes: seq<Shape>)
    requires s.If? && s.elseBody == [] && Compilable(s, lp.Some?) && Surrounds(lp, names, handlers, ext)
    ensures Spans(GenIf(s, names, lp, p, k), p, shapes, Shape(|names|, handlers), Shape(|names|, handlers), ext, LoopShape(lp, handlers))
    decreases s, 0
  {
    hide Spans, GenExpr, GenScoped, Flows;
    var sh, loop := Shape(|names|, handlers), LoopShape(lp, handlers);
    var c := GenExpr(s.cond, names, s.line, p, k);
    var at := p + |c.code|;
    var t := GenScoped(s.thenBody, names, |names|, lp, s.line, at + 1, k + |c.consts|);
    var end := at + 1 + |t.code|;
    var wide := ext + {(end, sh)};
    SurroundsMore(lp, names, names, handlers, ext, wide);
    var sc := ExprSpans(s.cond, names, s.line, p, k, sh, wide, loop);
    var sj := SpansTest(end, s.line, at, sh, wide, loop);
    var st := ScopedSpans(s.thenBody, names, |names|, lp, s.line, at + 1, k + |c.consts|, handlers, wide);
    var s1 := SpansCat(c, One(JumpIfFalse(end), s.line), p, sc, sj, sh, Taller(sh, 1), sh, wide, loop);
    shapes := SpansCat(Cat(c, One(JumpIfFalse(end), s.line)), t, p, s1, st, sh, sh, sh, wide, loop);
    EndWithin(GenIf(s, names, lp, p, k), p, shapes, sh, sh, ext, loop);
  }

  /** The two branches, behind the test. */
  lemma {:induction false} BranchesSpan(
    s: Stmt, names: seq<string>, lp: Option<LoopInfo>, line: nat, p: nat, k: nat, t: Frag, e: Frag, handlers: seq<Handler>, ext: World)
    returns (shapes: seq<Shape>)
    requires s.If? && Compilable(s, lp.Some?) && Surrounds(lp, names, handlers, ext)
    requires t == GenScoped(s.thenBody, names, |names|, lp, line, p, k)
    requires e == GenScoped(s.elseBody, names, |names|, lp, line, p + |t.code| + 1, k + |t.consts|)
    ensures var sh := Shape(|names|, handlers);
            var over := One(Jump(p + |t.code| + 1 + |e.code|), line);
            && Spans(Cat(t, Cat(over, e)), p, shapes, sh, sh, ext, LoopShape(lp, handlers))
            && (p + |t.code| + 1, sh) in Pairs(p, shapes)
    decreases s, 0, 0
  {
    hide Spans, GenScoped, Pairs, Flows;
    var sh, loop := Shape(|names|, handlers), LoopShape(lp, handlers);
    var elseAt := p + |t.code| + 1;
    var end := elseAt + |e.code|;
    var over := One(Jump(end), line);
    var wide := ext + {(end, sh)};
    SurroundsMore(lp, names, names, handlers, ext, wide);
    var st := ScopedSpans(s.thenBody, names, |names|, lp, line, p, k, handlers, wide);
    var so := SpansJump(Jump(end), end, line, p + |t.code|, sh, sh, wide, loop);
    var se := ScopedSpans(s.elseBody, names, |names|, lp, line, elseAt, k + |t.consts|, handlers, wide);
    SpansLength(e, elseAt, se, sh, sh, wide, loop);
    var s1 := SpansCat(over, e, p + |t.code|, so, se, sh, sh, sh, wide, loop);
    shapes := SpansCat(t, Cat(over, e), p, st, s1, sh, sh, sh, wide, loop);
    EndWithin(Cat(t, Cat(over, e)), p, shapes, sh, sh, ext, loop);
  }

  lemma {:induction false} IfElseSpans(s: Stmt, names: seq<string>, lp: Option<LoopInfo>, p: nat, k: nat, handlers: seq<Handler>, ext: World)
    returns (shapes: seq<Shape>)
    requires s.If? && s.elseBody != [] && Compilable(s, lp.Some?) && Surrounds(lp, names, handlers, ext)
    ensures Spans(GenIf(s, names, lp, p, k), p, shapes, Shape(|names|, handlers), Shape(|names|, handlers), ext, LoopShape(lp, handlers))
    decreases s, 0, 1
  {
    hide Spans, GenExpr, GenScoped, Pairs, Flows;
    var sh, loop := Shape(|names|, handlers), LoopShape(lp, handlers);
    var c := GenExpr(s.cond, names, s.line, p, k);
    var at := p + |c.code|;
    var t := GenScoped(s.thenBody, names, |names|, lp, s.line, at + 1, k + |c.consts|);
    var elseAt := at + 1 + |t.code| + 1;
    var e := GenScoped(s.elseBody, names, |names|, lp, s.line, elseAt, k + |c.consts| + |t.consts|);
    var test, over := One(JumpIfFalse(elseAt), s.line), One(Jump(elseAt + |e.code|), s.line);
    var wide := ext + {(elseAt, sh)};
    SurroundsMore(lp, names, names, handlers, ext, wide);
    var sc := ExprSpans(s.cond, names, s.line, p, k, sh, wide, loop);
    var sj := SpansTest(elseAt, s.line, at, sh, wide, loop);
    var sb := BranchesSpan(s, names, lp, s.line, at + 1, k + |c.consts|, t, e, handlers, wide);
    var s1 := SpansCat(c, test, p, sc, sj, sh, Taller(sh, 1), sh, wide, loop);
    shapes := SpansCat(Cat(c, test), Cat(t, Cat(over, e)), p, s1, sb, sh, sh, sh, wide, loop);
    CatAssoc(Cat(c, test), t, Cat(over, e));
    SpansWithin(GenIf(s, names, lp, p, k), p, shapes, sh, sh, wide, ext, loop);
  }

  // ----- Loops -----

  /** A loop body with its jumps aimed at places that have the shape of the loop. */
  lemma ClosedSpans(f: Frag, p: nat, shapes: seq<Shape>, x: Shape, y: Shape, l: Shape, breakTo: nat, contTo: nat, ext: World, loop: Option<Shape>)
    requires Spans(f, p, shapes, x, y, ext, Some(l)) && (breakTo, l) in ext && (contTo, l) in ext
    ensures Spans(Closed(f, p, breakTo, contTo), p, shapes, x, y, ext, loop)
  {
    var g := Closed(f, p, breakTo, contTo);
    forall i | 0 <= i < |g.code|
      ensures Placed(g, p, shapes, Pairs(p, shapes) + ext, loop, i)
    {
      assert Placed(f, p, shapes, Pairs(p, shapes) + ext, Some(l), i);
    }
  }

  lemma {:induction false} WhileSpans(s: Stmt, names: seq<string>, top: bool, lp: Option<LoopInfo>, p: nat, k: nat, handlers: seq<Handler>, ext: World)
    returns (shapes: seq<Shape>)
    requires s.While? && Compilable(s, lp.Some?) && Surrounds(lp, names, handlers, ext)
    ensures StmtSpan(s, names, top, lp, p, k, handlers, ext, shapes)
    decreases s, 1
  {
    hide Spans, GenWhile;
    shapes := WhileLoopSpans(s, names, p, k, handlers, ext, LoopShape(lp, handlers));
  }

  /** A condition and the jump that leaves when it fails. */
  lemma ConditionSpans(e: Expr, names: seq<string>, line: nat, p: nat, k: nat, to: nat, sh: Shape, ext: World, loop: Option<Shape>)
    returns (shapes: seq<Shape>)
    requires |names| <= sh.height && Catches(sh.handlers, |names|, ext) && (to, sh) in ext
    ensures var f := Cat(GenExpr(e, names, line, p, k), One(JumpIfFalse(to), line));
            Spans(f, p, shapes, sh, sh, ext, loop) && SitesIn(f, p) && |f.code| == |GenExpr(e, names, line, p, k).code| + 1
  {
    hide Spans, GenExpr, Flows, Pairs;
    var c := GenExpr(e, names, line, p, k);
    var a := ExprSpans(e, names, line, p, k, sh, ext, loop);
    var b := SpansTest(to, line, p + |c.code|, sh, ext, loop);
    shapes := SpansCat(c, One(JumpIfFalse(to), line), p, a, b, sh, Taller(sh, 1), sh, ext, loop);
  }

  /** The body of a `while` and its back edge. */
  lemma {:induction false} WhileBodySpans(
    s: Stmt, names: seq<string>, p: nat, at: nat, k: nat, b: Frag, exit: nat, handlers: seq<Handler>, ext: World, loop: Option<Shape>)
    returns (shapes: seq<Shape>)
    requires s.While? && Compilable(s, true) && Catches(handlers, |names|, ext)
    requires b == GenScoped(s.body, names, |names|, Some(WhileInfo(s, names, p)), s.line, at, k)
    requires (p, Shape(|names|, handlers)) in ext && (exit, Shape(|names|, handlers)) in ext
    ensures var sh := Shape(|names|, handlers);
            var f := Cat(Closed(b, at, exit, p), One(Loop(p), s.line));
            Spans(f, at, shapes, sh, sh, ext, loop) && SitesIn(f, at) && |f.code| == |b.code| + 1
    decreases s, 0, 0
  {
    hide Spans, GenScoped, Closed, Pairs, Flows;
    var sh := Shape(|names|, handlers);
    assert handlers[..|handlers|] == handlers;
    var sb := ScopedSpans(s.body, names, |names|, Some(WhileInfo(s, names, p)), s.line, at, k, handlers, ext);
    ClosedSpans(b, at, sb, sh, sh, sh, exit, p, ext, loop);
    ClosedSites(b, at, exit, p);
    var sl := SpansJump(Loop(p), p, s.line, at + |b.code|, sh, sh, ext, loop);
    shapes := SpansCat(Closed(b, at, exit, p), One(Loop(p), s.line), at, sb, sl, sh, sh, sh, ext, loop);
  }

  lemma {:induction false} WhileLoopSpans(s: Stmt, names: seq<string>, p: nat, k: nat, handlers: seq<Handler>, ext: World, loop: Option<Shape>)
    returns (shapes: seq<Shape>)
    requires s.While? && Compilable(s, true) && Catches(handlers, |names|, ext)
    ensures Spans(GenWhile(s, names, p, k), p, shapes, Shape(|names|, handlers), Shape(|names|, handlers), ext, loop)
    decreases s, 0, 1
  {
    hide Spans, GenExpr, GenScoped, Closed, Pairs, Cat, Catches;
    var sh := Shape(|names|, handlers);
    var c := GenExpr(s.cond, names, s.line, p, k);
    var at := p + |c.code| + 1;
    var b := GenScoped(s.body, names, |names|, Some(WhileInfo(s, names, p)), s.line, at, k + |c.consts|);
    var exit := at + |b.code| + 1;
    var wide := ext + {(p, sh), (exit, sh)};
    CatchesWider(handlers, |names|, |names|, ext, wide);
    var sc := ConditionSpans(s.cond, names, s.line, p, k, exit, sh, wide, loop);
    var sb := WhileBodySpans(s, names, p, at, k + |c.consts|, b, exit, handlers, wide, loop);
    var test, body, back := Cat(c, One(JumpIfFalse(exit), s.line)), Closed(b, at, exit, p), One(Loop(p), s.line);
    shapes := SpansCat(test, Cat(body, back), p, sc, sb, sh, sh, sh, wide, loop);
    CatSize(test, Cat(body, back));
    CatAssoc(test, body, back);
    SpansLength(GenWhile(s, names, p, k), p, shapes, sh, sh, wide, loop);
    SpansWithin(GenWhile(s, names, p, k), p, shapes, sh, sh, wide, ext, loop);
  }

  lemma ClosedSites(f: Frag, p: nat, breakTo: nat, contTo: nat)
    ensures NoSites(Closed(f, p, breakTo, contTo)) && |Closed(f, p, breakTo, contTo).code| == |f.code|
    ensures Closed(f, p, breakTo, contTo).consts == f.consts
  {
  }

  lemma {:induction false} ForSpans(s: Stmt, names: seq<string>, top: bool, lp: Option<LoopInfo>, p: nat, k: nat, handlers: seq<Handler>, ext: World)
    returns (shapes: seq<Shape>)
    requires s.For? && Compilable(s, lp.Some?) && Surrounds(lp, names, handlers, ext)
    ensures StmtSpan(s, names, top, lp, p, k, handlers, ext, shapes)
    decreases s, 1
  {
    hide Spans, GenFor;
    shapes := ForLoopSpans(s, names, p, k, handlers, ext, LoopShape(lp, handlers));
  }

  /** One more instruction at the end of a fragment. */
  lemma SpansThen(f: Frag, p: nat, shapes: seq<Shape>, x: Shape, y: Shape, op: OpCode, line: nat, consts: seq<Value>, z: Shape, ext: World, loop: Option<Shape>)
    returns (longer: seq<Shape>)
    requires Spans(f, p, shapes, x, y, ext, loop) && NoSites(f)
    requires Flows(op, p + |f.code|, y, ext + {(p + |f.code| + 1, z)})
    ensures Spans(Frag(f.code + [Instr(op, line)], consts, [], []), p, longer, x, z, ext, loop)
  {
    hide Spans, Flows, Pairs;
    var b := SpansOne(op, line, p + |f.code|, y, z, ext, loop);
    longer := SpansCat(f, One(op, line), p, shapes, b, x, y, z, ext, loop);
    SameCode(Cat(f, One(op, line)), Frag(f.code + [Instr(op, line)], consts, [], []), p, longer, x, z, ext, loop);
  }

  /** Constants have no part in shapes. */
  lemma SameCode(f: Frag, g: Frag, p: nat, shapes: seq<Shape>, x: Shape, y: Shape, ext: World, loop: Option<Shape>)
    requires Spans(f, p, shapes, x, y, ext, loop) && NoSites(f) && NoSites(g) && f.code == g.code
    ensures Spans(g, p, shapes, x, y, ext, loop)
  {
    hide Flows;
    forall i | 0 <= i < |g.code|
      ensures Placed(g, p, shapes, Pairs(p, shapes) + ext, loop, i)
    {
      assert Placed(f, p, shapes, Pairs(p, shapes) + ext, loop, i);
    }
  }

  /** Three more slots: the list, the counter, the variable. */
  lemma EnterSpans(n: nat, line: nat, k: nat, p: nat, handlers: seq<Handler>, ext: World, loop: Option<Shape>) returns (shapes: seq<Shape>)
    requires Catches(handlers, n, ext)
    ensures Spans(ForEnter(n, line, k), p, shapes, Shape(n + 1, handlers), Shape(n + 3, handlers), ext, loop)
  {
    hide Spans, Flows, Pairs;
    var x := Shape(n + 1, handlers);
    var a := SpansPlain(ToIterList, line, p, x, ext, loop);
    var b := SpansConst(VInt(0), line, k, p + 1, x, ext, loop);
    var c := SpansConst(VNull, line, k + 1, p + 2, Taller(x, 1), ext, loop);
    var ab := SpansCat(One(ToIterList, line), Const(VInt(0), line, k), p, a, b, x, x, Taller(x, 1), ext, loop);
    shapes := SpansCat(Cat(One(ToIterList, line), Const(VInt(0), line, k)), Const(VNull, line, k + 1), p, ab, c, x, Taller(x, 1), Taller(x, 2), ext, loop);
  }

  lemma CompareSpans(n: nat, exit: nat, line: nat, p: nat, handlers: seq<Handler>, ext: World, loop: Option<Shape>)
    returns (shapes: seq<Shape>)
    requires Catches(handlers, n, ext) && (exit, Shape(n + 3, handlers)) in ext
    ensures Spans(Frag(ForTest(n, exit, line).code[..4], [], [], []), p, shapes, Shape(n + 3, handlers), Shape(n + 3, handlers), ext, loop)
  {
    hide Spans, Pairs;
    var x := Shape(n + 3, handlers);
    shapes := SpansNone(p, x, ext, loop);
    shapes := SpansThen(EMPTY, p, shapes, x, x, GetLocal(n + 1), line, [], Taller(x, 1), ext, loop);
    var c1 := [] + [Instr(GetLocal(n + 1), line)];
    shapes := SpansThen(Frag(c1, [], [], []), p, shapes, x, Taller(x, 1), LenLocal(n), line, [], Taller(x, 2), ext, loop);
    var c2 := c1 + [Instr(LenLocal(n), line)];
    shapes := SpansThen(Frag(c2, [], [], []), p, shapes, x, Taller(x, 2), OpCode.Lt, line, [], Taller(x, 1), ext, loop);
    var c3 := c2 + [Instr(OpCode.Lt, line)];
    shapes := SpansThen(Frag(c3, [], [], []), p, shapes, x, Taller(x, 1), JumpIfFalse(exit), line, [], x, ext, loop);
    assert ForTest(n, exit, line).code[..4] == c3 + [Instr(JumpIfFalse(exit), line)];
  }

  lemma ElementFlows(n: nat, ip: nat, handlers: seq<Handler>, ext: World)
    requires Catches(handlers, n, ext)
    ensures Flows(IndexLocal(n), ip, Shape(n + 3, handlers), ext + {(ip + 1, Shape(n + 3, handlers))})
  {
  }

  lemma LocalFlows(n: nat, ip: nat, x: Shape, ext: World)
    requires n + 1 < x.height
    ensures Flows(GetLocal(n + 1), ip, x, ext + {(ip + 1, Taller(x, 1))})
    ensures Flows(SetLocal(n + 1), ip, x, ext + {(ip + 1, x)})
  {
  }

  lemma PopFlows(ip: nat, x: Shape, ext: World)
    requires x.height > 0
    ensures Flows(Pop, ip, x, ext + {(ip + 1, Shape(x.height - 1, x.handlers))})
  {
  }

  lemma AddFlows(n: nat, ip: nat, handlers: seq<Handler>, ext: World)
    requires Catches(handlers, n, ext)
    ensures Flows(OpCode.Add, ip, Shape(n + 5, handlers), ext + {(ip + 1, Shape(n + 4, handlers))})
  {
  }

  lemma FetchSpans(n: nat, exit: nat, line: nat, p: nat, handlers: seq<Handler>, ext: World, loop: Option<Shape>)
    returns (shapes: seq<Shape>)
    requires Catches(handlers, n, ext)
    ensures Spans(Frag(ForTest(n, exit, line).code[4..], [], [], []), p, shapes, Shape(n + 3, handlers), Shape(n + 3, handlers), ext, loop)
  {
    hide Spans, Pairs, Flows, Catches;
    var x, y := Shape(n + 3, handlers), Shape(n + 2, handlers);
    ElementFlows(n, p + 2, handlers, ext);
    LocalFlows(n, p + 1, y, ext);
    PopFlows(p, x, ext);
    shapes := SpansNone(p, x, ext, loop);
    shapes := SpansThen(EMPTY, p, shapes, x, x, Pop, line, [], y, ext, loop);
    var c1 := [] + [Instr(Pop, line)];
    shapes := SpansThen(Frag(c1, [], [], []), p, shapes, x, y, GetLocal(n + 1), line, [], x, ext, loop);
    var c2 := c1 + [Instr(GetLocal(n + 1), line)];
    shapes := SpansThen(Frag(c2, [], [], []), p, shapes, x, x, IndexLocal(n), line, [], x, ext, loop);
    assert ForTest(n, exit, line).code[4..] == c2 + [Instr(IndexLocal(n), line)];
  }

  lemma TestSpans(n: nat, exit: nat, line: nat, p: nat, handlers: seq<Handler>, ext: World, loop: Option<Shape>) returns (shapes: seq<Shape>)
    requires Catches(handlers, n, ext) && (exit, Shape(n + 3, handlers)) in ext
    ensures Spans(ForTest(n, exit, line), p, shapes, Shape(n + 3, handlers), Shape(n + 3, handlers), ext, loop)
  {
    hide Spans, Pairs, Flows;
    var x := Shape(n + 3, handlers);
    var code := ForTest(n, exit, line).code;
    var a := CompareSpans(n, exit, line, p, handlers, ext, loop);
    var b := FetchSpans(n, exit, line, p + 4, handlers, ext, loop);
    shapes := SpansCat(Frag(code[..4], [], [], []), Frag(code[4..], [], [], []), p, a, b, x, x, x, ext, loop);
    assert code == code[..4] + code[4..];
    assert Cat(Frag(code[..4], [], [], []), Frag(code[4..], [], [], [])) == ForTest(n, exit, line);
  }

  lemma ConstFlows(k: nat, ip: nat, x: Shape, ext: World)
    ensures Flows(LoadConst(k), ip, x, ext + {(ip + 1, Taller(x, 1))})
  {
  }

  lemma LoopFlows(start: nat, ip: nat, x: Shape, ext: World)
    requires (start, x) in ext
    ensures Flows(Loop(start), ip, x, ext + {(ip + 1, x)})
  {
  }

  lemma NextSpans(n: nat, start: nat, line: nat, k: nat, p: nat, handlers: seq<Handler>, ext: World, loop: Option<Shape>) returns (shapes: seq<Shape>)
    requires Catches(handlers, n, ext) && (start, Shape(n + 3, handlers)) in ext
    ensures Spans(ForNext(n, start, line, k), p, shapes, Shape(n + 3, handlers), Shape(n + 3, handlers), ext, loop)
  {
    hide Spans, Pairs, Flows, Catches;
    var x := Shape(n + 3, handlers);
    LocalFlows(n, p, x, ext);
    ConstFlows(k, p + 1, Taller(x, 1), ext);
    AddFlows(n, p + 2, handlers, ext);
    LocalFlows(n, p + 3, Taller(x, 1), ext);
    PopFlows(p + 4, Taller(x, 1), ext);
    LoopFlows(start, p + 5, x, ext);
    shapes := SpansNone(p, x, ext, loop);
    shapes := SpansThen(EMPTY, p, shapes, x, x, GetLocal(n + 1), line, [], Taller(x, 1), ext, loop);
    var c1 := [] + [Instr(GetLocal(n + 1), line)];
    shapes := SpansThen(Frag(c1, [], [], []), p, shapes, x, Taller(x, 1), LoadConst(k), line, [], Taller(x, 2), ext, loop);
    var c2 := c1 + [Instr(LoadConst(k), line)];
    shapes := SpansThen(Frag(c2, [], [], []), p, shapes, x, Taller(x, 2), OpCode.Add, line, [], Taller(x, 1), ext, loop);
    var c3 := c2 + [Instr(OpCode.Add, line)];
    shapes := SpansThen(Frag(c3, [], [], []), p, shapes, x, Taller(x, 1), SetLocal(n + 1), line, [], Taller(x, 1), ext, loop);
    var c4 := c3 + [Instr(SetLocal(n + 1), line)];
    shapes := SpansThen(Frag(c4, [], [], []), p, shapes, x, Taller(x, 1), Pop, line, [], x, ext, loop);
    var c5 := c4 + [Instr(Pop, line)];
    shapes := SpansThen(Frag(c5, [], [], []), p, shapes, x, x, Loop(start), line, [VInt(1)], x, ext, loop);
    assert ForNext(n, start, line, k) == Frag(c5 + [Instr(Loop(start), line)], [VInt(1)], [], []);
  }

  lemma EntrySpans(s: Stmt, names: seq<string>, p: nat, k: nat, handlers: seq<Handler>, ext: World, loop: Option<Shape>)
    returns (shapes: seq<Shape>)
    requires s.For? && Catches(handlers, |names|, ext)
    ensures var it := GenExpr(s.iter, names, s.line, p, k);
            var f := Cat(it, ForEnter(|names|, s.line, k + |it.consts|));
            Spans(f, p, shapes, Shape(|names|, handlers), Shape(|names| + 3, handlers), ext, loop) && SitesIn(f, p) && |f.code| == |it.code| + 3
  {
    hide Spans, GenExpr, Pairs, ForEnter, ForTest, ForNext, Flows;
    var n, sh := |names|, Shape(|names|, handlers);
    var it := GenExpr(s.iter, names, s.line, p, k);
    var enter := ForEnter(n, s.line, k + |it.consts|);
    var si := ExprSpans(s.iter, names, s.line, p, k, sh, ext, loop);
    var se := EnterSpans(n, s.line, k + |it.consts|, p + |it.code|, handlers, ext, loop);
    ForSizes(n, 0, 0, s.line, k + |it.consts|);
    shapes := SpansCat(it, enter, p, si, se, sh, Taller(sh, 1), Taller(sh, 3), ext, loop);
  }

  lemma {:induction false} ForLoopSpans(s: Stmt, names: seq<string>, p: nat, k: nat, handlers: seq<Handler>, ext: World, loop: Option<Shape>)
    returns (shapes: seq<Shape>)
    requires s.For? && Compilable(s, true) && Catches(handlers, |names|, ext)
    ensures Spans(GenFor(s, names, p, k), p, shapes, Shape(|names|, handlers), Shape(|names|, handlers), ext, loop)
    decreases s, 0
  {
    hide Spans, GenExpr, Pairs, ForEnter, Flows, Rounds, GenFor, Cat;
    var n, sh := |names|, Shape(|names|, handlers);
    UnfoldFor(s, names, p, k);
    var it := GenExpr(s.iter, names, s.line, p, k);
    var entry := Cat(it, ForEnter(n, s.line, k + |it.consts|));
    var rounds := Rounds(s, names, p + |it.code| + 3, k + |it.consts| + 2);
    var s1 := EntrySpans(s, names, p, k, handlers, ext, loop);
    var sl := RoundsSpan(s, names, p + |it.code| + 3, k + |it.consts| + 2, handlers, ext, loop);
    var s2 := SpansCat(entry, rounds, p, s1, sl, sh, Taller(sh, 3), Taller(sh, 3), ext, loop);
    CatSize(entry, rounds);
    var sp := SpansPlain(PopN(3), s.line, p + |it.code| + 3 + |rounds.code|, Taller(sh, 3), ext, loop);
    shapes := SpansCat(Cat(entry, rounds), One(PopN(3), s.line), p, s2, sp, sh, Taller(sh, 3), sh, ext, loop);
  }

  lemma ForSizes(n: nat, exit: nat, start: nat, line: nat, k: nat)
    ensures |ForEnter(n, line, k).code| == 3 && NoSites(ForEnter(n, line, k)) && |ForEnter(n, line, k).consts| == 2
    ensures |ForTest(n, exit, line).code| == 7 && NoSites(ForTest(n, exit, line)) && |ForTest(n, exit, line).consts| == 0
    ensures |ForNext(n, start, line, k).code| == 6 && NoSites(ForNext(n, start, line, k))
  {
  }

  /** A `for` between its entry and its final pop. */
  function Rounds(s: Stmt, names: seq<string>, start: nat, k: nat): (f: Frag)
    requires s.For? && Compilable(s, true)
    ensures NoSites(f)
  {
    var n := |names|;
    var b := GenScoped(s.body, ForNames(s, names), n + 3, Some(ForInfo(s, names)), s.line, start + 7, k);
    var inc := start + 7 + |b.code|;
    Cat(ForTest(n, inc + 6, s.line), Cat(Closed(b, start + 7, inc + 6, inc), ForNext(n, start, s.line, k + |b.consts|)))
  }

  lemma UnfoldFor(s: Stmt, names: seq<string>, p: nat, k: nat)
    requires s.For? && Compilable(s, true)
    ensures var it := GenExpr(s.iter, names, s.line, p, k);
            GenFor(s, names, p, k) ==
            Cat(Cat(Cat(it, ForEnter(|names|, s.line, k + |it.consts|)), Rounds(s, names, p + |it.code| + 3, k + |it.consts| + 2)), One(PopN(3), s.line))
  {
    hide GenExpr, GenScoped, Closed, ForEnter, ForTest, ForNext, Cat;
    var n := |names|;
    var it := GenExpr(s.iter, names, s.line, p, k);
    var a := Cat(it, ForEnter(n, s.line, k + |it.consts|));
    var start := p + |it.code| + 3;
    var b := GenScoped(s.body, ForNames(s, names), n + 3, Some(ForInfo(s, names)), s.line, start + 7, k + |it.consts| + 2);
    var inc := start + 7 + |b.code|;
    var test, body := ForTest(n, inc + 6, s.line), Closed(b, start + 7, inc + 6, inc);
    var next := ForNext(n, start, s.line, k + |it.consts| + 2 + |b.consts|);
    CatAssoc(a, test, Cat(body, next));
    CatAssoc(Cat(a, test), body, next);
  }

  lemma {:induction false} RoundsSpan(s: Stmt, names: seq<string>, start: nat, k: nat, handlers: seq<Handler>, ext: World, loop: Option<Shape>)
    returns (shapes: seq<Shape>)
    requires s.For? && Compilable(s, true) && Catches(handlers, |names|, ext)
    ensures Spans(Rounds(s, names, start, k), start, shapes, Shape(|names| + 3, handlers), Shape(|names| + 3, handlers), ext, loop)
    decreases s, 0, 0
  {
    hide Spans, GenScoped, Closed, Pairs, ForTest, ForNext, Flows;
    var n, x := |names|, Shape(|names| + 3, handlers);
    assert handlers[..|handlers|] == handlers;
    var info := Some(ForInfo(s, names));
    var b := GenScoped(s.body, ForNames(s, names), n + 3, info, s.line, start + 7, k);
    var inc := start + 7 + |b.code|;
    var exit := inc + 6;
    var wide := ext + {(start, x), (inc, x), (exit, x)};
    CatchesWider(handlers, n, n, ext, wide);
    CatchesWider(handlers, n, n + 3, ext, wide);
    var st := TestSpans(n, exit, s.line, start, handlers, wide, loop);
    var sb := ScopedSpans(s.body, ForNames(s, names), n + 3, info, s.line, start + 7, k, handlers, wide);
    ClosedSpans(b, start + 7, sb, x, x, x, exit, inc, wide, loop);
    ClosedSites(b, start + 7, exit, inc);
    var sn := NextSpans(n, start, s.line, k + |b.consts|, inc, handlers, wide, loop);
    ForSizes(n, exit, start, s.line, k + |b.consts|);
    var body, next := Closed(b, start + 7, exit, inc), ForNext(n, start, s.line, k + |b.consts|);
    SpansLength(next, inc, sn, x, x, wide, loop);
    var s1 := SpansCat(body, next, start + 7, sb, sn, x, x, x, wide, loop);
    shapes := SpansCat(ForTest(n, exit, s.line), Cat(body, next), start, st, s1, x, x, x, wide, loop);
    SpansLength(Rounds(s, names, start, k), start, shapes, x, x, wide, loop);
    SpansWithin(Rounds(s, names, start, k), start, shapes, x, x, wide, ext, loop);
  }

  // ----- `try` -----

  lemma {:induction false} TrySpans(s: Stmt, names: seq<string>, top: bool, lp: Option<LoopInfo>, p: nat, k: nat, handlers: seq<Handler>, ext: World)
    returns (shapes: seq<Shape>)
    requires s.TryCatch? && Compilable(s, lp.Some?) && Surrounds(lp, names, handlers, ext)
    ensures StmtSpan(s, names, top, lp, p, k, handlers, ext, shapes)
    decreases s, 1
  {
    hide Spans, GenTry;
    shapes := TryCatchSpans(s, names, lp, p, k, handlers, ext);
  }

  lemma ProtectedSurrounds(lp: Option<LoopInfo>, names: seq<string>, handlers: seq<Handler>, h: Handler, ext: World)
    requires Surrounds(lp, names, handlers, ext)
    requires h.stackDepth == |names| && (h.catchIp, Shape(|names| + 1, handlers)) in ext
    ensures Surrounds(DeeperTry(lp), names, handlers + [h], ext)
    ensures LoopShape(DeeperTry(lp), handlers + [h]) == LoopShape(lp, handlers)
  {
    hide Catches;
    CatchesNew(handlers, h, ext);
    if lp.Some? {
      PrefixKept(handlers, h, |handlers| - lp.value.tryDepth);
    }
  }

  lemma CatchesNew(handlers: seq<Handler>, h: Handler, ext: World)
    requires (h.catchIp, Shape(h.stackDepth + 1, handlers)) in ext
    ensures Catches(handlers + [h], h.stackDepth, ext)
  {
    assert (handlers + [h])[..|handlers|] == handlers;
  }

  lemma PrefixKept(handlers: seq<Handler>, h: Handler, n: nat)
    requires n <= |handlers|
    ensures (handlers + [h])[..n] == handlers[..n]
  {
  }

  lemma SetupSizes(catchAt: nat, line: nat, t: Frag)
    ensures |One(SetupTry(catchAt), line).code| == 1
    ensures |Cat(One(SetupTry(catchAt), line), t).code| == 1 + |t.code|
  {
  }

  /** The protected block with the instructions around it. Its errors find the catch block one slot above
      what was there before. */
  lemma {:induction false} ProtectedSpans(
    s: Stmt, names: seq<string>, lp: Option<LoopInfo>, p: nat, k: nat, t: Frag, catchAt: nat, handlers: seq<Handler>, ext: World)
    returns (shapes: seq<Shape>)
    requires s.TryCatch? && Compilable(s, lp.Some?) && Surrounds(lp, names, handlers, ext)
    requires t == GenScoped(s.tryBody, names, |names|, DeeperTry(lp), s.line, p + 1, k)
    requires (catchAt, Shape(|names| + 1, handlers)) in ext
    ensures var sh := Shape(|names|, handlers);
            var f := Cat(Cat(One(SetupTry(catchAt), s.line), t), One(TeardownTry, s.line));
            Spans(f, p, shapes, sh, sh, ext, LoopShape(lp, handlers)) && SitesIn(f, p)
    decreases s, 0, 0
  {
    hide Spans, GenScoped, Pairs, Flows, Cat, One, SitesIn, Catches, LoopShape;
    SetupSizes(catchAt, s.line, t);
    var sh, loop := Shape(|names|, handlers), LoopShape(lp, handlers);
    var h := Handler(catchAt, |names|);
    var deep := Shape(|names|, handlers + [h]);
    assert deep.handlers[..|deep.handlers| - 1] == handlers;
    ProtectedSurrounds(lp, names, handlers, h, ext);
    var ss := SpansSetup(catchAt, s.line, p, sh, ext, loop);
    var st := ScopedSpans(s.tryBody, names, |names|, DeeperTry(lp), s.line, p + 1, k, handlers + [h], ext);
    var sd := SpansTeardown(s.line, p + 1 + |t.code|, sh, h, ext, loop);
    var s1 := SpansCat(One(SetupTry(catchAt), s.line), t, p, ss, st, sh, deep, deep, ext, loop);
    shapes := SpansCat(Cat(One(SetupTry(catchAt), s.line), t), One(TeardownTry, s.line), p, s1, sd, sh, deep, sh, ext, loop);
  }

  lemma {:induction false} TryCatchSpans(s: Stmt, names: seq<string>, lp: Option<LoopInfo>, p: nat, k: nat, handlers: seq<Handler>, ext: World)
    returns (shapes: seq<Shape>)
    requires s.TryCatch? && Compilable(s, lp.Some?) && Surrounds(lp, names, handlers, ext)
    ensures Spans(GenTry(s, names, lp, p, k), p, shapes, Shape(|names|, handlers), Shape(|names|, handlers), ext, LoopShape(lp, handlers))
    decreases s, 0, 1
  {
    hide Spans, GenScoped, Pairs, Flows, Catches, SitesIn, LoopShape;
    var sh, loop := Shape(|names|, handlers), LoopShape(lp, handlers);
    var t := GenScoped(s.tryBody, names, |names|, DeeperTry(lp), s.line, p + 1, k);
    var catchAt := p + 1 + |t.code| + 2;
    var c := GenScoped(s.catchBody, names + [s.binder], |names|, lp, s.line, catchAt, k + |t.consts|);
    var end := catchAt + |c.code|;
    var caught := Taller(sh, 1);
    var wide := ext + {(catchAt, caught), (end, sh)};
    SurroundsMore(lp, names, names, handlers, ext, wide);
    SurroundsMore(lp, names, names + [s.binder], handlers, ext, wide);
    var a := Cat(Cat(One(SetupTry(catchAt), s.line), t), One(TeardownTry, s.line));
    var over := One(Jump(end), s.line);
    var sa := ProtectedSpans(s, names, lp, p, k, t, catchAt, handlers, wide);
    var so := SpansJump(Jump(end), end, s.line, catchAt - 1, sh, caught, wide, loop);
    var sc := ScopedSpans(s.catchBody, names + [s.binder], |names|, lp, s.line, catchAt, k + |t.consts|, handlers, wide);
    SpansLength(c, catchAt, sc, caught, sh, wide, loop);
    var s1 := SpansCat(a, over, p, sa, so, sh, sh, caught, wide, loop);
    shapes := SpansCat(Cat(a, over), c, p, s1, sc, sh, caught, sh, wide, loop);
    CatAssoc(Cat(One(SetupTry(catchAt), s.line), t), One(TeardownTry, s.line), over);
    SpansWithin(GenTry(s, names, lp, p, k), p, shapes, sh, sh, wide, ext, loop);
  }
}

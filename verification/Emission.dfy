/** What the compiler has built so far, as a value, and how the code generator's fragments extend it. */
module Emission {
  import opened Lang
  import opened Slots
  import opened Machine
  import opened CodeGen
  import opened Chunks

  datatype Local = Local(name: string, depth: nat)

  datatype LoopState = LoopState(
    continueTarget: nat, breaks: seq<nat>, continues: seq<nat>, localsCount: nat,
    continueResolved: bool, tryDepth: nat, line: nat)

  datatype Emitted = Emitted(
    code: seq<Instr>, consts: seq<Value>, locals: seq<Local>, depth: nat, loops: seq<LoopState>)

  function Names(locals: seq<Local>): (r: seq<string>)
    ensures |r| == |locals| && forall i :: 0 <= i < |r| ==> r[i] == locals[i].name
  {
    seq(|locals|, i requires 0 <= i < |locals| => locals[i].name)
  }

  function Info(l: LoopState): LoopInfo {
    LoopInfo(l.continueTarget, l.localsCount, l.continueResolved, l.tryDepth, l.line)
  }

  function Innermost(loops: seq<LoopState>): Option<LoopInfo> {
    if loops == [] then None else Some(Info(loops[|loops| - 1]))
  }

  function Recorded(loops: seq<LoopState>, f: Frag): seq<LoopState> {
    if loops == [] then loops
    else
      var last := |loops| - 1;
      loops[last := loops[last].(breaks := loops[last].breaks + f.breaks, continues := loops[last].continues + f.conts)]
  }

  function Extend(e: Emitted, f: Frag): (r: Emitted)
    ensures r.locals == e.locals && r.depth == e.depth && |r.loops| == |e.loops|
    ensures |r.code| == |e.code| + |f.code| && |r.consts| == |e.consts| + |f.consts|
    ensures Innermost(r.loops) == Innermost(e.loops)
  {
    e.(code := e.code + f.code, consts := e.consts + f.consts, loops := Recorded(e.loops, f))
  }

  lemma ExtendCat(e: Emitted, a: Frag, b: Frag)
    ensures Extend(Extend(e, a), b) == Extend(e, Cat(a, b))
  {
    assert e.code + a.code + b.code == e.code + (a.code + b.code);
    assert e.consts + a.consts + b.consts == e.consts + (a.consts + b.consts);
    if e.loops != [] {
      var last := e.loops[|e.loops| - 1];
      assert last.breaks + a.breaks + b.breaks == last.breaks + (a.breaks + b.breaks);
      assert last.continues + a.conts + b.conts == last.continues + (a.conts + b.conts);
      assert Recorded(Recorded(e.loops, a), b) == Recorded(e.loops, Cat(a, b));
    }
  }

  lemma ExtendNothing(e: Emitted)
    ensures Extend(e, EMPTY) == e
  {
    assert e.code + [] == e.code && e.consts + [] == e.consts;
    if e.loops != [] {
      var last := e.loops[|e.loops| - 1];
      assert last.breaks + [] == last.breaks && last.continues + [] == last.continues;
      assert Recorded(e.loops, EMPTY) == e.loops;
    }
  }

  function Max(a: nat, b: nat): nat { if a < b then b else a }

  function Named(e: Emitted, name: string): (r: Emitted)
    ensures |r.locals| == |e.locals| + 1
  {
    e.(locals := e.locals + [Local(name, e.depth)])
  }

  // ----- Invariant -----

  ghost predicate SitesAreJumps(code: seq<Instr>, sites: seq<nat>) {
    forall s :: s in sites ==> s < |code| && code[s].op.Jump?
  }

  ghost predicate LoopFine(e: Emitted, l: LoopState) {
    l.localsCount <= |e.locals| && SitesAreJumps(e.code, l.breaks) && SitesAreJumps(e.code, l.continues)
  }

  ghost predicate Nested(locals: seq<Local>, depth: nat) {
    && (forall i :: 0 <= i < |locals| ==> locals[i].depth <= depth)
    && (forall i, j :: 0 <= i < j < |locals| ==> locals[i].depth <= locals[j].depth)
  }

  /** Every recorded site is a jump of the code, inner locals come after outer ones, and every loop was
      entered with locals that are still there. */
  ghost predicate Sound(e: Emitted) {
    && Nested(e.locals, e.depth)
    && (forall l :: l in e.loops ==> LoopFine(e, l))
  }

  lemma ExtendSound(e: Emitted, f: Frag)
    requires Sound(e)
    requires SitesAreJumps(e.code + f.code, f.breaks) && SitesAreJumps(e.code + f.code, f.conts)
    ensures Sound(Extend(e, f))
    ensures Innermost(Extend(e, f).loops) == Innermost(e.loops)
  {
    var r := Extend(e, f);
    forall l | l in r.loops
      ensures LoopFine(r, l)
    {
      var i :| 0 <= i < |r.loops| && r.loops[i] == l;
      assert e.loops[i] in e.loops;
      assert LoopFine(e, e.loops[i]);
    }
  }

  /** A fragment without sites leaves the loops alone. */
  lemma ExtendPlain(e: Emitted, f: Frag)
    requires NoSites(f)
    ensures Extend(e, f).loops == e.loops
  {
    if e.loops != [] {
      var last := e.loops[|e.loops| - 1];
      assert last.breaks + [] == last.breaks && last.continues + [] == last.continues;
    }
  }

  lemma NamedSound(e: Emitted, name: string)
    requires Sound(e)
    ensures Sound(Named(e, name))
  {
    forall l | l in e.loops
      ensures LoopFine(Named(e, name), l)
    {
      assert LoopFine(e, l);
    }
  }

  lemma DepthSound(e: Emitted, depth: nat)
    requires Sound(e) && e.depth <= depth
    ensures Sound(e.(depth := depth))
  {
    forall l | l in e.loops
      ensures LoopFine(e.(depth := depth), l)
    {
      assert LoopFine(e, l);
    }
  }

  /** The jump at `offset` now leads to the end of the code. */
  function Aim(e: Emitted, offset: nat): (r: Emitted)
    requires offset < |e.code| && IsJump(e.code[offset].op)
    ensures r.loops == e.loops && r.locals == e.locals && r.depth == e.depth && |r.code| == |e.code|
  {
    e.(code := e.code[offset := Instr(Aimed(e.code[offset].op, |e.code|), e.code[offset].line)])
  }

  lemma AimSound(e: Emitted, offset: nat)
    requires Sound(e) && offset < |e.code| && IsJump(e.code[offset].op)
    ensures Sound(Aim(e, offset))
  {
    forall l | l in e.loops
      ensures LoopFine(Aim(e, offset), l)
    {
      assert LoopFine(e, l);
    }
  }

  // ----- Where `break` and `continue` are refused -----

  /** The first `break` or `continue` that stands outside every loop. */
  function Misplaced(s: Stmt, inLoop: bool): (r: Option<Fault>)
    ensures r.None? <==> Compilable(s, inLoop)
    decreases s, 1
  {
    match s
    case Break(line) => if inLoop then None else Some(Fault(BreakOutsideLoop, line))
    case Continue(line) => if inLoop then None else Some(Fault(ContinueOutsideLoop, line))
    case If(_, t, e, _) => var r := MisplacedIn(t, inLoop); if r.Some? then r else MisplacedIn(e, inLoop)
    case While(_, b, _) => MisplacedIn(b, true)
    case For(_, _, b, _) => MisplacedIn(b, true)
    case TryCatch(t, _, c, _) => var r := MisplacedIn(t, inLoop); if r.Some? then r else MisplacedIn(c, inLoop)
    case _ => None
  }

  function MisplacedIn(ss: seq<Stmt>, inLoop: bool): (r: Option<Fault>)
    ensures r.None? <==> CompilableAll(ss, inLoop)
    decreases ss, 0
  {
    if ss == [] then None
    else
      var r := Misplaced(ss[0], inLoop);
      if r.Some? then r else MisplacedIn(ss[1..], inLoop)
  }

  // ----- The local table -----

  /** The longest the local table gets while a statement is compiled, starting from `n` entries. */
  function Peak(s: Stmt, n: nat): (r: nat)
    ensures r >= n
    decreases s, 1
  {
    match s
    case Let(_, _, _) => n + 1
    case If(_, t, e, _) => Max(PeakIn(t, n), PeakIn(e, n))
    case While(_, b, _) => PeakIn(b, n)
    case For(_, _, b, _) => PeakIn(b, n + 3)
    case TryCatch(t, _, c, _) => Max(PeakIn(t, n), PeakIn(c, n + 1))
    case _ => n
  }

  function Declared(s: Stmt): nat { if s.Let? then 1 else 0 }

  function PeakIn(ss: seq<Stmt>, n: nat): (r: nat)
    ensures r >= n
    decreases ss, 0
  {
    if ss == [] then n else Max(Peak(ss[0], n), PeakIn(ss[1..], n + Declared(ss[0])))
  }

  function LocalsOf(s: Stmt, depth: nat): seq<Local> { if s.Let? then [Local(s.name, depth)] else [] }

  function LocalsIn(ss: seq<Stmt>, depth: nat): (r: seq<Local>)
    ensures forall l :: l in r ==> l.depth == depth
  {
    if ss == [] then [] else LocalsOf(ss[0], depth) + LocalsIn(ss[1..], depth)
  }

  lemma NamesOf(locals: seq<Local>, s: Stmt, depth: nat)
    ensures Names(locals + LocalsOf(s, depth)) == NamesAfterStmt(s, Names(locals))
  {
    if s.Let? {
      assert Names(locals + [Local(s.name, depth)]) == Names(locals) + [s.name];
    } else {
      assert locals + [] == locals;
    }
  }

  lemma {:induction false} NamesIn(locals: seq<Local>, ss: seq<Stmt>, depth: nat)
    ensures Names(locals + LocalsIn(ss, depth)) == NamesAfter(ss, Names(locals))
    decreases ss
  {
    hide Names, LocalsOf, NamesAfterStmt;
    if ss == [] {
      assert locals + [] == locals;
    } else {
      var more := locals + LocalsOf(ss[0], depth);
      NamesOf(locals, ss[0], depth);
      NamesIn(more, ss[1..], depth);
      assert more + LocalsIn(ss[1..], depth) == locals + LocalsIn(ss, depth);
    }
  }

  /** How many locals outlive the scopes deeper than `depth`. */
  function Kept(locals: seq<Local>, depth: nat): (r: nat)
    ensures r <= |locals|
  {
    if locals == [] || locals[|locals| - 1].depth <= depth then |locals| else Kept(locals[..|locals| - 1], depth)
  }

  lemma {:induction false} KeptGrow(locals: seq<Local>, deep: seq<Local>, depth: nat)
    requires forall l :: l in deep ==> l.depth > depth
    ensures Kept(locals + deep, depth) == Kept(locals, depth)
    decreases |deep|
  {
    if deep == [] {
      assert locals + deep == locals;
    } else {
      var all, last := locals + deep, |deep| - 1;
      assert all[|all| - 1] == deep[last] && deep[last] in deep;
      assert all[..|all| - 1] == locals + deep[..last];
      KeptGrow(locals, deep[..last], depth);
    }
  }

  lemma {:induction false} KeptShallow(locals: seq<Local>, depth: nat)
    ensures var n := Kept(locals, depth); n > 0 ==> locals[n - 1].depth <= depth
    decreases |locals|
  {
    if locals != [] && locals[|locals| - 1].depth > depth {
      KeptShallow(locals[..|locals| - 1], depth);
    }
  }

  lemma LeaveSound(e: Emitted, depth: nat)
    requires Sound(e) && depth <= e.depth
    requires forall l :: l in e.loops ==> l.localsCount <= Kept(e.locals, depth)
    ensures Sound(e.(locals := e.locals[..Kept(e.locals, depth)], depth := depth))
  {
    KeptShallow(e.locals, depth);
    var r := e.(locals := e.locals[..Kept(e.locals, depth)], depth := depth);
    forall l | l in r.loops
      ensures LoopFine(r, l)
    {
      assert LoopFine(e, l);
    }
  }

  // ----- What compiling a statement makes of what was emitted before -----

  function CodeOf(e: Emitted, s: Stmt): Frag
    requires Compilable(s, e.loops != []) && LoopFits(Innermost(e.loops), Names(e.locals))
  {
    GenStmt(s, Names(e.locals), e.depth == 0, Innermost(e.loops), |e.code|, |e.consts|)
  }

  function Compiled(e: Emitted, s: Stmt): Emitted
    requires Compilable(s, e.loops != []) && LoopFits(Innermost(e.loops), Names(e.locals))
  {
    Extend(e, CodeOf(e, s)).(locals := e.locals + LocalsOf(s, e.depth))
  }

  function CodeIn(e: Emitted, ss: seq<Stmt>): Frag
    requires CompilableAll(ss, e.loops != []) && LoopFits(Innermost(e.loops), Names(e.locals))
  {
    GenBlock(ss, Names(e.locals), e.depth == 0, Innermost(e.loops), |e.code|, |e.consts|)
  }

  function CompiledIn(e: Emitted, ss: seq<Stmt>): Emitted
    requires CompilableAll(ss, e.loops != []) && LoopFits(Innermost(e.loops), Names(e.locals))
  {
    Extend(e, CodeIn(e, ss)).(locals := e.locals + LocalsIn(ss, e.depth))
  }

  lemma CompiledFits(e: Emitted, s: Stmt)
    requires Compilable(s, e.loops != []) && LoopFits(Innermost(e.loops), Names(e.locals))
    ensures Innermost(Compiled(e, s).loops) == Innermost(e.loops)
    ensures LoopFits(Innermost(e.loops), Names(Compiled(e, s).locals))
  {
    hide GenStmt, Peak;
  }

  lemma CodeFirst(e: Emitted, ss: seq<Stmt>)
    requires ss != [] && CompilableAll(ss, e.loops != []) && LoopFits(Innermost(e.loops), Names(e.locals))
    ensures Innermost(Compiled(e, ss[0]).loops) == Innermost(e.loops)
    ensures LoopFits(Innermost(Compiled(e, ss[0]).loops), Names(Compiled(e, ss[0]).locals))
    ensures CodeIn(e, ss) == Cat(CodeOf(e, ss[0]), CodeIn(Compiled(e, ss[0]), ss[1..]))
  {
    hide GenStmt, Peak, Names, NamesAfterStmt, LocalsOf, Recorded;
    CompiledFits(e, ss[0]);
    NamesOf(e.locals, ss[0], e.depth);
  }

  /** The local table is beside what `Extend` changes. */
  lemma ExtendTwice(e: Emitted, f: Frag, locals1: seq<Local>, g: Frag, locals: seq<Local>)
    ensures Extend(Extend(e, f).(locals := locals1), g).(locals := locals) == Extend(e, Cat(f, g)).(locals := locals)
  {
    ExtendCat(e, f, g);
  }

  lemma CompiledFirst(e: Emitted, ss: seq<Stmt>)
    requires ss != [] && CompilableAll(ss, e.loops != []) && LoopFits(Innermost(e.loops), Names(e.locals))
    ensures Innermost(Compiled(e, ss[0]).loops) == Innermost(e.loops)
    ensures LoopFits(Innermost(Compiled(e, ss[0]).loops), Names(Compiled(e, ss[0]).locals))
    ensures CompiledIn(Compiled(e, ss[0]), ss[1..]) == CompiledIn(e, ss)
  {
    hide CodeOf, CodeIn, Names, Extend, Cat, Innermost, LocalsOf, Compilable, Peak, GenStmt;
    CodeFirst(e, ss);
    var e1 := Compiled(e, ss[0]);
    var locals := e1.locals + LocalsIn(ss[1..], e.depth);
    assert locals == e.locals + LocalsIn(ss, e.depth);
    ExtendTwice(e, CodeOf(e, ss[0]), e1.locals, CodeIn(e1, ss[1..]), locals);
  }

  lemma CompiledNone(e: Emitted)
    requires LoopFits(Innermost(e.loops), Names(e.locals))
    ensures CompiledIn(e, []) == e
  {
    ExtendNothing(e);
    assert e.locals + [] == e.locals;
  }

  lemma SoundFits(e: Emitted)
    requires Sound(e)
    ensures LoopFits(Innermost(e.loops), Names(e.locals))
  {
    if e.loops != [] {
      assert LoopFine(e, e.loops[|e.loops| - 1]);
    }
  }

  /** `after` is what compiling the statement makes of `e`. */
  predicate Becomes(e: Emitted, s: Stmt, after: Emitted) {
    && Compilable(s, e.loops != []) && LoopFits(Innermost(e.loops), Names(e.locals))
    && after == Compiled(e, s)
  }

  predicate BecomesIn(e: Emitted, ss: seq<Stmt>, after: Emitted) {
    && CompilableAll(ss, e.loops != []) && LoopFits(Innermost(e.loops), Names(e.locals))
    && after == CompiledIn(e, ss)
  }

  // ----- Scopes -----

  function ScopeCode(e: Emitted, more: seq<Local>, ss: seq<Stmt>, line: nat): Frag
    requires CompilableAll(ss, e.loops != []) && LoopFits(Innermost(e.loops), Names(e.locals))
  {
    GenScoped(ss, Names(e.locals + more), |e.locals|, Innermost(e.loops), line, |e.code|, |e.consts|)
  }

  /** A block in a scope of its own inside `e`, which begins with the locals `more`. */
  predicate BecomesScope(e: Emitted, more: seq<Local>, ss: seq<Stmt>, line: nat, after: Emitted) {
    && CompilableAll(ss, e.loops != []) && LoopFits(Innermost(e.loops), Names(e.locals))
    && after == Extend(e, ScopeCode(e, more, ss, line))
  }

  /** The state around the innermost scope, and the locals of that scope. */
  function Around(e: Emitted): (r: Emitted)
    requires e.depth > 0
  {
    e.(locals := e.locals[..Kept(e.locals, e.depth - 1)], depth := e.depth - 1)
  }

  function Within(e: Emitted): seq<Local>
    requires e.depth > 0
  {
    e.locals[Kept(e.locals, e.depth - 1)..]
  }

  lemma ScopeLocals(e: Emitted, ss: seq<Stmt>)
    requires e.depth > 0
    ensures var locals := e.locals + LocalsIn(ss, e.depth);
            && Kept(locals, e.depth - 1) == |Around(e).locals|
            && locals[..|Around(e).locals|] == Around(e).locals
            && |locals| == |NamesAfter(ss, Names(e.locals))|
    ensures Around(e).locals + Within(e) == e.locals
  {
    hide Kept, LocalsIn, NamesAfter, Names;
    NamesIn(e.locals, ss, e.depth);
    KeptGrow(e.locals, LocalsIn(ss, e.depth), e.depth - 1);
  }

  lemma ScopeEnds(e: Emitted, ss: seq<Stmt>, line: nat)
    requires e.depth > 0
    requires CompilableAll(ss, e.loops != []) && LoopFits(Innermost(e.loops), Names(e.locals))
    requires LoopFits(Innermost(e.loops), Names(Around(e).locals))
    ensures var keep := |Around(e).locals|;
            var body := CompiledIn(e, ss);
            && Kept(body.locals, e.depth - 1) == keep
            && BecomesScope(Around(e), Within(e), ss, line,
                            Extend(body, PopSlots(|body.locals| - keep, line)).(locals := body.locals[..keep], depth := e.depth - 1))
  {
    hide GenBlock, Names, Extend, Cat, Recorded, Kept, Sound, LocalsIn;
    var body := CompiledIn(e, ss);
    ScopeLocals(e, ss);
    var pop := PopSlots(|body.locals| - |Around(e).locals|, line);
    ExtendAside(e, CodeIn(e, ss), body.locals, pop, Around(e).locals, e.depth - 1);
    assert ScopeCode(Around(e), Within(e), ss, line) == Cat(CodeIn(e, ss), pop);
  }

  lemma ExtendAside(e: Emitted, f: Frag, locals1: seq<Local>, g: Frag, locals: seq<Local>, depth: nat)
    ensures Extend(Extend(e, f).(locals := locals1), g).(locals := locals, depth := depth) ==
            Extend(e.(locals := locals, depth := depth), Cat(f, g))
  {
    ExtendCat(e, f, g);
  }

  // ----- Patching -----

  lemma PatchedInside(pre: seq<Instr>, f: seq<Instr>, post: seq<Instr>, sites: seq<nat>, to: nat)
    requires forall s :: s in sites ==> |pre| <= s < |pre| + |f|
    ensures Patched(pre + f + post, 0, sites, to) == pre + Patched(f, |pre|, sites, to) + post
  {
  }

  lemma PatchedOne(code: seq<Instr>, sites: seq<nat>, i: nat, to: nat)
    requires i < |sites| && sites[i] < |code| && code[sites[i]].op.Jump?
    ensures Patched(code, 0, sites[..i], to)[sites[i] := Instr(Jump(to), code[sites[i]].line)] == Patched(code, 0, sites[..i + 1], to)
  {
    assert sites[..i + 1] == sites[..i] + [sites[i]];
  }

  /** Patching the jump between two fragments to lead behind the second. */
  lemma AimOver(e: Emitted, a: Frag, op: OpCode, line: nat, b: Frag)
    requires IsJump(op)
    ensures var st := Extend(Extend(Extend(e, a), One(op, line)), b);
            var at := |e.code| + |a.code|;
            && at < |st.code| && st.code[at] == Instr(op, line)
            && Aim(st, at) == Extend(e, Cat(Cat(a, One(Aimed(op, at + 1 + |b.code|), line)), b))
  {
    var at := |e.code| + |a.code|;
    var aimed := One(Aimed(op, at + 1 + |b.code|), line);
    var st := Extend(Extend(Extend(e, a), One(op, line)), b);
    ExtendCat(e, a, One(op, line));
    ExtendCat(e, Cat(a, One(op, line)), b);
    assert st.code == e.code + a.code + [Instr(op, line)] + b.code;
    assert Extend(e, Cat(Cat(a, aimed), b)).code == e.code + a.code + aimed.code + b.code;
    assert st.code[at := aimed.code[0]] == e.code + a.code + aimed.code + b.code;
  }

  // ----- Emitting an expression part by part emits the generator's fragment -----

  function ExprCode(st: Emitted, e: Expr, line: nat): (f: Frag)
    ensures NoSites(f)
  {
    GenExpr(e, Names(st.locals), line, |st.code|, |st.consts|)
  }

  function WithExpr(st: Emitted, e: Expr, line: nat): (r: Emitted)
    ensures r.locals == st.locals && r.depth == st.depth && |r.loops| == |st.loops|
    ensures Innermost(r.loops) == Innermost(st.loops)
  {
    Extend(st, ExprCode(st, e, line))
  }

  function With(st: Emitted, op: OpCode, line: nat): (r: Emitted)
    ensures r.locals == st.locals && |r.code| == |st.code| + 1 && |r.consts| == |st.consts|
    ensures r.depth == st.depth && |r.loops| == |st.loops| && Innermost(r.loops) == Innermost(st.loops)
  {
    Extend(st, One(op, line))
  }

  function WithConst(st: Emitted, v: Value, line: nat): (r: Emitted)
    ensures r.locals == st.locals && |r.code| == |st.code| + 1 && |r.consts| == |st.consts| + 1
    ensures r.depth == st.depth && |r.loops| == |st.loops| && Innermost(r.loops) == Innermost(st.loops)
  {
    Extend(st, Const(v, line, |st.consts|))
  }

  function WithArgs(st: Emitted, es: seq<Expr>, line: nat): Emitted {
    Extend(st, GenArgs(es, Names(st.locals), line, |st.code|, |st.consts|))
  }

  function WithElements(st: Emitted, es: seq<Expr>, line: nat): Emitted {
    Extend(st, GenElements(es, Names(st.locals), line, |st.code|, |st.consts|))
  }

  lemma UnaryEmits(st: Emitted, e: Expr, line: nat)
    requires e.Unary?
    ensures With(WithExpr(st, e.operand, line), if e.uop.Neg? then Negate else OpCode.Not, line) == WithExpr(st, e, line)
  {
    hide Extend, Cat;
    ExtendCat(st, ExprCode(st, e.operand, line), One(if e.uop.Neg? then Negate else OpCode.Not, line));
  }

  predicate Shorts(e: Expr) { e.Binary? && (e.op.And? || e.op.Or?) }

  function Test(e: Expr, to: nat): OpCode
    requires Shorts(e)
  {
    if e.op.And? then JumpIfFalseKeep(to) else JumpIfTrueKeep(to)
  }

  lemma UnfoldShortCircuit(st: Emitted, e: Expr, line: nat)
    requires Shorts(e)
    ensures var l := ExprCode(st, e.left, line);
            var r := ExprCode(With(With(WithExpr(st, e.left, line), Test(e, 0), line), Pop, line), e.right, line);
            ExprCode(st, e, line) ==
            Cat(Cat(l, Cat(One(Test(e, |st.code| + |l.code| + 2 + |r.code|), line), One(Pop, line))), r)
  {
    hide Extend, Cat;
  }

  lemma ShortCircuitEmits(st: Emitted, e: Expr, line: nat)
    requires Shorts(e)
    ensures var st1 := WithExpr(st, e.left, line);
            var st4 := WithExpr(With(With(st1, Test(e, 0), line), Pop, line), e.right, line);
            && |st1.code| < |st4.code| && IsJump(st4.code[|st1.code|].op)
            && Aim(st4, |st1.code|) == WithExpr(st, e, line)
  {
    hide ExprCode, Extend, Aim;
    UnfoldShortCircuit(st, e, line);
    var l := ExprCode(st, e.left, line);
    var st2 := With(WithExpr(st, e.left, line), Test(e, 0), line);
    var r := ExprCode(With(st2, Pop, line), e.right, line);
    var aimed := One(Test(e, |st.code| + |l.code| + 2 + |r.code|), line);
    ExtendCat(st2, One(Pop, line), r);
    AimOver(st, l, Test(e, 0), line, Cat(One(Pop, line), r));
    CatAssoc(Cat(l, aimed), One(Pop, line), r);
    CatAssoc(l, aimed, One(Pop, line));
  }

  lemma UnfoldOperator(st: Emitted, e: Expr, line: nat)
    requires e.Binary? && !Shorts(e)
    ensures ExprCode(st, e, line) ==
            Cat(Cat(ExprCode(st, e.left, line), ExprCode(WithExpr(st, e.left, line), e.right, line)), One(BinaryOpCode(e.op), line))
  {
    hide Extend, Cat;
  }

  lemma OperatorEmits(st: Emitted, e: Expr, line: nat)
    requires e.Binary? && !Shorts(e)
    ensures With(WithExpr(WithExpr(st, e.left, line), e.right, line), BinaryOpCode(e.op), line) == WithExpr(st, e, line)
  {
    hide ExprCode, Extend, Cat;
    UnfoldOperator(st, e, line);
    var l, r := ExprCode(st, e.left, line), ExprCode(WithExpr(st, e.left, line), e.right, line);
    ExtendCat(st, l, r);
    ExtendCat(st, Cat(l, r), One(BinaryOpCode(e.op), line));
  }

  lemma UnfoldPrint(st: Emitted, e: Expr, line: nat)
    requires e.Print?
    ensures var a := GenArgs(e.args, Names(st.locals), line, |st.code|, |st.consts|);
            ExprCode(st, e, line) == Cat(Cat(a, One(OpCode.Print(|e.args|), line)), Const(VNull, line, |st.consts| + |a.consts|))
  {
  }

  lemma PrintEmits(st: Emitted, e: Expr, line: nat)
    requires e.Print?
    ensures WithConst(With(WithArgs(st, e.args, line), OpCode.Print(|e.args|), line), VNull, line) == WithExpr(st, e, line)
  {
    hide ExprCode, Extend, Cat, GenArgs;
    UnfoldPrint(st, e, line);
    var a := GenArgs(e.args, Names(st.locals), line, |st.code|, |st.consts|);
    ExtendCat(st, a, One(OpCode.Print(|e.args|), line));
    ExtendCat(st, Cat(a, One(OpCode.Print(|e.args|), line)), Const(VNull, line, |st.consts| + |a.consts|));
  }

  lemma ListEmits(st: Emitted, e: Expr, line: nat)
    requires e.ListLit?
    ensures WithElements(WithConst(st, VList([]), line), e.items, line) == WithExpr(st, e, line)
  {
    hide Extend, Cat;
    ExtendCat(st, Const(VList([]), line, |st.consts|), GenElements(e.items, Names(st.locals), line, |st.code| + 1, |st.consts| + 1));
  }

  predicate ReadsSlot(st: Emitted, e: Expr)
    requires e.Index?
  {
    e.base.Ident? && IsSideEffectFree(e.index) && Resolve(Names(st.locals), e.base.name).Some?
  }

  lemma UnfoldIndex(st: Emitted, e: Expr, line: nat)
    requires e.Index?
    ensures ReadsSlot(st, e) ==>
              ExprCode(st, e, line) == Cat(ExprCode(st, e.index, line), One(IndexLocal(Resolve(Names(st.locals), e.base.name).value), line))
    ensures !ReadsSlot(st, e) ==>
              ExprCode(st, e, line) ==
              Cat(Cat(ExprCode(st, e.base, line), ExprCode(WithExpr(st, e.base, line), e.index, line)), One(OpCode.Index, line))
  {
    hide Extend, Cat;
  }

  lemma IndexEmits(st: Emitted, e: Expr, line: nat)
    requires e.Index?
    ensures ReadsSlot(st, e) ==>
              With(WithExpr(st, e.index, line), IndexLocal(Resolve(Names(st.locals), e.base.name).value), line) == WithExpr(st, e, line)
    ensures !ReadsSlot(st, e) ==>
              With(WithExpr(WithExpr(st, e.base, line), e.index, line), OpCode.Index, line) == WithExpr(st, e, line)
  {
    hide ExprCode, Extend, Cat;
    UnfoldIndex(st, e, line);
    if ReadsSlot(st, e) {
      ExtendCat(st, ExprCode(st, e.index, line), One(IndexLocal(Resolve(Names(st.locals), e.base.name).value), line));
    } else {
      var b, i := ExprCode(st, e.base, line), ExprCode(WithExpr(st, e.base, line), e.index, line);
      ExtendCat(st, b, i);
      ExtendCat(st, Cat(b, i), One(OpCode.Index, line));
    }
  }

  lemma ArgsFirst(st: Emitted, es: seq<Expr>, line: nat)
    requires es != []
    ensures WithArgs(WithExpr(st, es[0], line), es[1..], line) == WithArgs(st, es, line)
  {
    hide GenExpr, Extend, Cat;
    var st1 := WithExpr(st, es[0], line);
    ExtendCat(st, ExprCode(st, es[0], line), GenArgs(es[1..], Names(st.locals), line, |st1.code|, |st1.consts|));
  }

  lemma ArgsNone(st: Emitted, line: nat)
    ensures WithArgs(st, [], line) == st && WithElements(st, [], line) == st
  {
    ExtendNothing(st);
  }

  lemma UnfoldElements(st: Emitted, es: seq<Expr>, line: nat)
    requires es != []
    ensures GenElements(es, Names(st.locals), line, |st.code|, |st.consts|) ==
            (var e := Cat(ExprCode(st, es[0], line), One(ListPush, line));
             Cat(e, GenElements(es[1..], Names(st.locals), line, |st.code| + |e.code|, |st.consts| + |e.consts|)))
  {
    hide GenExpr, Cat;
  }

  lemma ElementsFirst(st: Emitted, es: seq<Expr>, line: nat)
    requires es != []
    ensures WithElements(With(WithExpr(st, es[0], line), ListPush, line), es[1..], line) == WithElements(st, es, line)
  {
    hide ExprCode, Extend, GenElements;
    UnfoldElements(st, es, line);
    var e := ExprCode(st, es[0], line);
    var st1 := With(WithExpr(st, es[0], line), ListPush, line);
    ExtendCat(st, e, One(ListPush, line));
    ExtendCat(st, Cat(e, One(ListPush, line)), GenElements(es[1..], Names(st.locals), line, |st1.code|, |st1.consts|));
  }

  // ----- Emitting a statement part by part emits the generator's fragment -----

  predicate Fits(e: Emitted) { LoopFits(Innermost(e.loops), Names(e.locals)) }

  lemma LetEmits(st: Emitted, s: Stmt)
    requires s.Let? && Fits(st)
    ensures var st1 := Named(WithExpr(st, s.value, s.line), s.name);
            Becomes(st, s, if st.depth == 0 then With(st1, RegisterGlobal(s.name, |st.locals|), s.line) else st1)
  {
    hide GenExpr, Extend, Cat;
    var v := ExprCode(st, s.value, s.line);
    var named := Named(WithExpr(st, s.value, s.line), s.name).locals;
    if st.depth == 0 {
      ExtendTwice(st, v, named, One(RegisterGlobal(s.name, |st.locals|), s.line), named);
    }
  }

  function StoreOp(name: string, names: seq<string>): OpCode {
    match Resolve(names, name) case Some(slot) => SetLocal(slot) case None => SetGlobal(name)
  }

  lemma AssignEmits(st: Emitted, s: Stmt)
    requires s.Assign? && Fits(st)
    ensures Becomes(st, s, With(With(WithExpr(st, s.value, s.line), StoreOp(s.name, Names(st.locals)), s.line), Pop, s.line))
  {
    hide GenExpr, Extend, Cat;
    var v, store := ExprCode(st, s.value, s.line), One(StoreOp(s.name, Names(st.locals)), s.line);
    ExtendCat(st, v, store);
    ExtendCat(st, Cat(v, store), One(Pop, s.line));
    CatAssoc(v, store, One(Pop, s.line));
    assert st.locals + [] == st.locals;
  }

  lemma ExprStmtEmits(st: Emitted, s: Stmt)
    requires s.ExprStmt? && Fits(st)
    ensures Becomes(st, s, With(WithExpr(st, s.expr, s.line), Pop, s.line))
  {
    hide GenExpr, Extend, Cat;
    ExtendCat(st, ExprCode(st, s.expr, s.line), One(Pop, s.line));
    assert st.locals + [] == st.locals;
  }

  lemma ReturnEmits(st: Emitted, s: Stmt)
    requires s.Return? && Fits(st)
    ensures Becomes(st, s, With(WithExpr(st, s.value, s.line), ReturnValue, s.line))
  {
    hide GenExpr, Extend, Cat;
    ExtendCat(st, ExprCode(st, s.value, s.line), One(ReturnValue, s.line));
    assert st.locals + [] == st.locals;
  }

  /** `RequireGlobal` goes first when the target is not a local. */
  function Checked(st: Emitted, s: Stmt): (r: Emitted)
    requires s.IndexAssign?
    ensures r.locals == st.locals
  {
    if Target(s.name, Names(st.locals)).GlobalTarget? then With(st, RequireGlobal(s.name), s.line) else st
  }

  lemma IndexAssignEmits(st: Emitted, s: Stmt)
    requires s.IndexAssign? && Fits(st)
    ensures Becomes(st, s, With(WithExpr(WithExpr(Checked(st, s), s.index, s.line), s.value, s.line), SetIndex(Target(s.name, Names(st.locals))), s.line))
  {
    hide GenExpr, Extend, Cat;
    var dest := Target(s.name, Names(st.locals));
    var check := if dest.GlobalTarget? then One(RequireGlobal(s.name), s.line) else EMPTY;
    var st1 := Checked(st, s);
    var i := ExprCode(st1, s.index, s.line);
    var v := ExprCode(WithExpr(st1, s.index, s.line), s.value, s.line);
    ExtendNothing(st);
    assert st1 == Extend(st, check);
    ExtendCat(st, check, i);
    ExtendCat(st, Cat(check, i), v);
    ExtendCat(st, Cat(Cat(check, i), v), One(SetIndex(dest), s.line));
    assert st.locals + [] == st.locals;
  }

  // ----- `break` and `continue` -----

  function Unwinding(st: Emitted, line: nat): Emitted
    requires st.loops != [] && Fits(st)
  {
    Extend(st, Unwind(Names(st.locals), Innermost(st.loops).value, line))
  }

  function BreakAt(loops: seq<LoopState>, site: nat): seq<LoopState>
    requires loops != []
  {
    var last := |loops| - 1;
    loops[last := loops[last].(breaks := loops[last].breaks + [site])]
  }

  function ContinueAt(loops: seq<LoopState>, site: nat): seq<LoopState>
    requires loops != []
  {
    var last := |loops| - 1;
    loops[last := loops[last].(continues := loops[last].continues + [site])]
  }

  lemma BreakEmits(st: Emitted, s: Stmt)
    requires s.Break? && st.loops != [] && Fits(st)
    ensures var st1 := Unwinding(st, s.line);
            Becomes(st, s, With(st1, Jump(0), s.line).(loops := BreakAt(st1.loops, |st1.code|)))
  {
    hide Unwind, Cat;
    var u := Unwind(Names(st.locals), Innermost(st.loops).value, s.line);
    var site := Frag([Instr(Jump(0), s.line)], [], [|st.code| + |u.code|], []);
    ExtendCat(st, u, site);
    assert st.locals + [] == st.locals;
    var last := Extend(st, u).loops[|st.loops| - 1];
    assert last.continues + [] == last.continues;
  }

  lemma ContinueEmits(st: Emitted, s: Stmt)
    requires s.Continue? && st.loops != [] && Fits(st)
    ensures var st1 := Unwinding(st, s.line);
            var loop := Innermost(st.loops).value;
            Becomes(st, s, if loop.resolved then With(st1, Loop(loop.contTarget), loop.line)
                           else With(st1, Jump(0), s.line).(loops := ContinueAt(st1.loops, |st1.code|)))
  {
    hide Unwind, Cat;
    var loop := Innermost(st.loops).value;
    var u := Unwind(Names(st.locals), loop, s.line);
    ExtendCat(st, u, One(Loop(loop.contTarget), loop.line));
    var site := Frag([Instr(Jump(0), s.line)], [], [], [|st.code| + |u.code|]);
    ExtendCat(st, u, site);
    assert st.locals + [] == st.locals;
    var last := Extend(st, u).loops[|st.loops| - 1];
    assert last.breaks + [] == last.breaks;
  }

  // ----- `if` -----

  /** A scope entered where no local is deeper yet. */
  lemma ScopeBegins(e: Emitted)
    requires Sound(e)
    ensures Around(e.(depth := e.depth + 1)) == e && Within(e.(depth := e.depth + 1)) == []
  {
    assert e.locals[..|e.locals|] == e.locals;
  }

  function Tested(st: Emitted, s: Stmt): Emitted
    requires s.If?
  {
    With(WithExpr(st, s.cond, s.line), JumpIfFalse(0), s.line)
  }

  lemma DeclaresNothing(st: Emitted, s: Stmt, after: Emitted)
    requires !s.Let? && Fits(st) && Compilable(s, st.loops != [])
    requires after == Extend(st, CodeOf(st, s))
    ensures Becomes(st, s, after)
  {
    hide CodeOf, Extend, Compilable;
    assert st.locals + [] == st.locals;
  }

  lemma CodeOfIf(st: Emitted, s: Stmt)
    requires s.If? && Compilable(s, st.loops != []) && Fits(st)
    ensures CodeOf(st, s) == GenIf(s, Names(st.locals), Innermost(st.loops), |st.code|, |st.consts|)
  {
    hide GenIf;
  }

  /** A scope without locals of its own, in a state with the locals and loops of `st`. */
  lemma ScopeCodeAt(st: Emitted, e: Emitted, ss: seq<Stmt>, line: nat)
    requires CompilableAll(ss, st.loops != []) && Fits(st)
    requires e.locals == st.locals && Innermost(e.loops) == Innermost(st.loops)
    ensures CompilableAll(ss, e.loops != []) && Fits(e)
    ensures ScopeCode(e, [], ss, line) ==
            GenScoped(ss, Names(st.locals), |Names(st.locals)|, Innermost(st.loops), line, |e.code|, |e.consts|)
  {
    hide GenScoped;
    assert st.locals + [] == st.locals;
  }

  lemma UnfoldIfOnly(st: Emitted, s: Stmt)
    requires s.If? && s.elseBody == [] && Fits(st) && CompilableAll(s.thenBody, st.loops != [])
    ensures var c := ExprCode(st, s.cond, s.line);
            var t := ScopeCode(Tested(st, s), [], s.thenBody, s.line);
            CodeOf(st, s) == Cat(Cat(c, One(JumpIfFalse(|st.code| + |c.code| + 1 + |t.code|), s.line)), t)
  {
    hide CodeOf, GenExpr, GenScoped, Extend, Cat, ScopeCode;
    CodeOfIf(st, s);
    ScopeCodeAt(st, Tested(st, s), s.thenBody, s.line);
  }

  lemma IfOnlyEmits(st: Emitted, s: Stmt, st3: Emitted)
    requires s.If? && s.elseBody == [] && Fits(st)
    requires BecomesScope(Tested(st, s), [], s.thenBody, s.line, st3)
    ensures var at := |WithExpr(st, s.cond, s.line).code|;
            at < |st3.code| && IsJump(st3.code[at].op) && Becomes(st, s, Aim(st3, at))
  {
    hide CodeOf, ScopeCode, GenExpr, Extend, Cat, Aim;
    UnfoldIfOnly(st, s);
    AimOver(st, ExprCode(st, s.cond, s.line), JumpIfFalse(0), s.line, ScopeCode(Tested(st, s), [], s.thenBody, s.line));
    assert Compilable(s, st.loops != []);
    DeclaresNothing(st, s, Aim(st3, |WithExpr(st, s.cond, s.line).code|));
  }

  lemma GenIfElse(s: Stmt, names: seq<string>, lp: Option<LoopInfo>, p: nat, k: nat, q: nat, j: nat)
    requires s.If? && s.elseBody != [] && Compilable(s, lp.Some?) && LoopFits(lp, names)
    requires var c := GenExpr(s.cond, names, s.line, p, k);
             var t := GenScoped(s.thenBody, names, |names|, lp, s.line, p + |c.code| + 1, k + |c.consts|);
             q == p + |c.code| + |t.code| + 2 && j == k + |c.consts| + |t.consts|
    ensures var c := GenExpr(s.cond, names, s.line, p, k);
            var t := GenScoped(s.thenBody, names, |names|, lp, s.line, p + |c.code| + 1, k + |c.consts|);
            var e := GenScoped(s.elseBody, names, |names|, lp, s.line, q, j);
            GenIf(s, names, lp, p, k) == Cat(Cat(Cat(c, One(JumpIfFalse(q), s.line)), t), Cat(One(Jump(q + |e.code|), s.line), e))
  {
    hide GenExpr, GenScoped, Cat, One;
  }

  function ThenCode(st: Emitted, s: Stmt): Frag
    requires s.If? && Fits(st) && CompilableAll(s.thenBody, st.loops != [])
  {
    var c := ExprCode(st, s.cond, s.line);
    GenScoped(s.thenBody, Names(st.locals), |Names(st.locals)|, Innermost(st.loops), s.line, |st.code| + |c.code| + 1, |st.consts| + |c.consts|)
  }

  function ElseCode(st: Emitted, s: Stmt, q: nat, j: nat): Frag
    requires s.If? && Fits(st) && CompilableAll(s.elseBody, st.loops != [])
  {
    GenScoped(s.elseBody, Names(st.locals), |Names(st.locals)|, Innermost(st.loops), s.line, q, j)
  }

  lemma UnfoldIfElse(st: Emitted, s: Stmt, q: nat, j: nat)
    requires s.If? && s.elseBody != [] && Fits(st)
    requires CompilableAll(s.thenBody, st.loops != []) && CompilableAll(s.elseBody, st.loops != [])
    requires q == |st.code| + |ExprCode(st, s.cond, s.line).code| + |ThenCode(st, s).code| + 2
    requires j == |st.consts| + |ExprCode(st, s.cond, s.line).consts| + |ThenCode(st, s).consts|
    ensures var c, t, e := ExprCode(st, s.cond, s.line), ThenCode(st, s), ElseCode(st, s, q, j);
            CodeOf(st, s) == Cat(Cat(Cat(c, One(JumpIfFalse(q), s.line)), t), Cat(One(Jump(q + |e.code|), s.line), e))
  {
    hide GenIf, CodeOf, GenExpr, GenScoped, Cat, One, Names;
    GenIfElse(s, Names(st.locals), Innermost(st.loops), |st.code|, |st.consts|, q, j);
    CodeOfIf(st, s);
  }

  lemma ThenCodeAt(st: Emitted, s: Stmt)
    requires s.If? && Fits(st) && CompilableAll(s.thenBody, st.loops != [])
    ensures CompilableAll(s.thenBody, Tested(st, s).loops != []) && Fits(Tested(st, s))
    ensures ScopeCode(Tested(st, s), [], s.thenBody, s.line) == ThenCode(st, s)
  {
    hide GenScoped, ScopeCode, Extend;
    ScopeCodeAt(st, Tested(st, s), s.thenBody, s.line);
  }

  lemma IfElseEmits(st: Emitted, s: Stmt, st3: Emitted, st5: Emitted)
    requires s.If? && s.elseBody != [] && Fits(st)
    requires BecomesScope(Tested(st, s), [], s.thenBody, s.line, st3)
    ensures var at := |WithExpr(st, s.cond, s.line).code|;
            var st4 := With(st3, Jump(0), s.line);
            && at < |st4.code| && IsJump(st4.code[at].op)
            && (BecomesScope(Aim(st4, at), [], s.elseBody, s.line, st5) ==>
                  |st3.code| < |st5.code| && IsJump(st5.code[|st3.code|].op) && Becomes(st, s, Aim(st5, |st3.code|)))
  {
    hide GenScoped, CodeOf, ExprCode, Extend, ThenCode, Aim;
    var c, over := ExprCode(st, s.cond, s.line), One(Jump(0), s.line);
    ThenCodeAt(st, s);
    var t := ThenCode(st, s);
    assert st3 == Extend(Tested(st, s), t);
    var at := |WithExpr(st, s.cond, s.line).code|;
    var st4 := With(st3, Jump(0), s.line);
    var a := Cat(Cat(c, One(JumpIfFalse(|st4.code|), s.line)), t);
    ExtendCat(Tested(st, s), t, over);
    AimOver(st, c, JumpIfFalse(0), s.line, Cat(t, over));
    CatAssoc(Cat(c, One(JumpIfFalse(|st4.code|), s.line)), t, over);
    assert Aim(st4, at) == Extend(st, Cat(a, over));
    ExtendCat(st, a, over);
    if BecomesScope(Aim(st4, at), [], s.elseBody, s.line, st5) {
      ElseEmits(st, s, st3, a, t, st5);
    }
  }

  lemma ElseEmits(st: Emitted, s: Stmt, st3: Emitted, a: Frag, t: Frag, st5: Emitted)
    requires s.If? && s.elseBody != [] && Fits(st) && Compilable(s, st.loops != [])
    requires t == ThenCode(st, s) && st3 == Extend(Tested(st, s), t)
    requires a == Cat(Cat(ExprCode(st, s.cond, s.line), One(JumpIfFalse(|st3.code| + 1), s.line)), t)
    requires BecomesScope(Extend(Extend(st, a), One(Jump(0), s.line)), [], s.elseBody, s.line, st5)
    ensures |st3.code| < |st5.code| && IsJump(st5.code[|st3.code|].op) && Becomes(st, s, Aim(st5, |st3.code|))
  {
    hide GenScoped, CodeOf, ExprCode, Extend, ThenCode, Aim;
    var st4 := Extend(Extend(st, a), One(Jump(0), s.line));
    ScopeCodeAt(st, st4, s.elseBody, s.line);
    UnfoldIfElse(st, s, |st4.code|, |st4.consts|);
    var e := ElseCode(st, s, |st4.code|, |st4.consts|);
    AimOver(st, a, Jump(0), s.line, e);
    CatAssoc(a, One(Jump(|st4.code| + |e.code|), s.line), e);
    DeclaresNothing(st, s, Aim(st5, |st3.code|));
  }

  // ----- Loops -----

  function InLoop(st: Emitted, contTarget: nat, resolved: bool, line: nat): (r: Emitted)
    ensures r.loops != [] && Innermost(r.loops) == Some(LoopInfo(contTarget, |st.locals|, resolved, 0, line)) && Fits(r)
  {
    st.(loops := st.loops + [LoopState(contTarget, [], [], |st.locals|, resolved, 0, line)])
  }

  function LastLoop(e: Emitted): LoopState
    requires e.loops != []
  {
    e.loops[|e.loops| - 1]
  }

  function OutOfLoop(e: Emitted): Emitted
    requires e.loops != []
  {
    e.(loops := e.loops[..|e.loops| - 1])
  }

  /** Every site now leads to the end of the code. */
  function AimAll(e: Emitted, sites: seq<nat>): Emitted {
    e.(code := Patched(e.code, 0, sites, |e.code|))
  }

  /** A loop body whose `continue` is a back edge leaves no forward `continue` behind. */
  lemma {:induction false} NoForwardContinue(s: Stmt, names: seq<string>, top: bool, lp: Option<LoopInfo>, p: nat, k: nat)
    requires Compilable(s, lp.Some?) && LoopFits(lp, names)
    requires lp.Some? ==> lp.value.resolved
    ensures GenStmt(s, names, top, lp, p, k).conts == []
    decreases s, 2
  {
    match s
    case If(_, _, _, _) => NoForwardInIf(s, names, lp, p, k);
    case TryCatch(_, _, _, _) => NoForwardInTry(s, names, lp, p, k);
    case _ =>
  }

  lemma {:induction false} NoForwardInIf(s: Stmt, names: seq<string>, lp: Option<LoopInfo>, p: nat, k: nat)
    requires s.If? && Compilable(s, lp.Some?) && LoopFits(lp, names)
    requires lp.Some? ==> lp.value.resolved
    ensures GenIf(s, names, lp, p, k).conts == []
    decreases s, 1
  {
    hide GenExpr, GenScoped;
    var c := GenExpr(s.cond, names, s.line, p, k);
    var t := GenScoped(s.thenBody, names, |names|, lp, s.line, p + |c.code| + 1, k + |c.consts|);
    NoForwardInScope(s.thenBody, names, |names|, lp, s.line, p + |c.code| + 1, k + |c.consts|);
    NoForwardInScope(s.elseBody, names, |names|, lp, s.line, p + |c.code| + 1 + |t.code| + 1, k + |c.consts| + |t.consts|);
  }

  lemma {:induction false} NoForwardInTry(s: Stmt, names: seq<string>, lp: Option<LoopInfo>, p: nat, k: nat)
    requires s.TryCatch? && Compilable(s, lp.Some?) && LoopFits(lp, names)
    requires lp.Some? ==> lp.value.resolved
    ensures GenTry(s, names, lp, p, k).conts == []
    decreases s, 1
  {
    hide GenScoped;
    var t := GenScoped(s.tryBody, names, |names|, DeeperTry(lp), s.line, p + 1, k);
    NoForwardInScope(s.tryBody, names, |names|, DeeperTry(lp), s.line, p + 1, k);
    NoForwardInScope(s.catchBody, names + [s.binder], |names|, lp, s.line, p + 1 + |t.code| + 2, k + |t.consts|);
  }

  lemma {:induction false} NoForwardInBlock(ss: seq<Stmt>, names: seq<string>, top: bool, lp: Option<LoopInfo>, p: nat, k: nat)
    requires CompilableAll(ss, lp.Some?) && LoopFits(lp, names)
    requires lp.Some? ==> lp.value.resolved
    ensures GenBlock(ss, names, top, lp, p, k).conts == []
    decreases ss, 0
  {
    hide GenStmt;
    if ss != [] {
      var f := GenStmt(ss[0], names, top, lp, p, k);
      NoForwardContinue(ss[0], names, top, lp, p, k);
      NoForwardInBlock(ss[1..], NamesAfterStmt(ss[0], names), top, lp, p + |f.code|, k + |f.consts|);
    }
  }

  lemma {:induction false} NoForwardInScope(ss: seq<Stmt>, names: seq<string>, keep: nat, lp: Option<LoopInfo>, line: nat, p: nat, k: nat)
    requires CompilableAll(ss, lp.Some?) && LoopFits(lp, names) && keep <= |names|
    requires lp.Some? ==> lp.value.resolved
    ensures GenScoped(ss, names, keep, lp, line, p, k).conts == []
    decreases ss, 1
  {
    hide GenBlock;
    NoForwardInBlock(ss, names, false, lp, p, k);
  }

  /** Closing a loop: aim its exit jump, then its `break` sites, at what follows the back edge. */
  lemma LoopCloses(pre: seq<Instr>, line: nat, mid: seq<Instr>, body: seq<Instr>, sites: seq<nat>, next: seq<Instr>)
    requires forall b :: b in sites ==> |pre| + 1 + |mid| <= b < |pre| + 1 + |mid| + |body|
    ensures var code := pre + [Instr(JumpIfFalse(0), line)] + mid + body + next;
            var exit := |code|;
            Patched(code[|pre| := Instr(JumpIfFalse(exit), line)], 0, sites, exit) ==
            pre + [Instr(JumpIfFalse(exit), line)] + mid + Patched(body, |pre| + 1 + |mid|, sites, exit) + next
  {
    hide Patched;
    var code := pre + [Instr(JumpIfFalse(0), line)] + mid + body + next;
    var front := pre + [Instr(JumpIfFalse(|code|), line)] + mid;
    assert code[|pre| := Instr(JumpIfFalse(|code|), line)] == front + body + next;
    PatchedInside(front, body, next, sites, |code|);
  }

  // ----- `while` -----

  function WhileTested(st: Emitted, s: Stmt): Emitted
    requires s.While?
  {
    With(WithExpr(InLoop(st, |st.code|, true, s.line), s.cond, s.line), JumpIfFalse(0), s.line)
  }

  lemma WhileCode(st: Emitted, s: Stmt)
    requires s.While? && CompilableAll(s.body, true) && Fits(st)
    ensures CompilableAll(s.body, WhileTested(st, s).loops != []) && Fits(WhileTested(st, s))
    ensures var b := ScopeCode(WhileTested(st, s), [], s.body, s.line);
            b.conts == [] && SitesIn(b, |st.code| + |ExprCode(st, s.cond, s.line).code| + 1)
    ensures var c := ExprCode(st, s.cond, s.line);
            var b := ScopeCode(WhileTested(st, s), [], s.body, s.line);
            var at := |st.code| + |c.code| + 1;
            var exit := at + |b.code| + 1;
            GenWhile(s, Names(st.locals), |st.code|, |st.consts|) ==
            Cat(Cat(Cat(c, One(JumpIfFalse(exit), s.line)), Closed(b, at, exit, |st.code|)), One(Loop(|st.code|), s.line))
  {
    hide GenExpr, GenScoped, Cat, Closed, Extend;
    assert st.locals + [] == st.locals;
    var c := ExprCode(st, s.cond, s.line);
    NoForwardInScope(s.body, Names(st.locals), |st.locals|, Some(WhileInfo(s, Names(st.locals), |st.code|)), s.line,
                     |st.code| + |c.code| + 1, |st.consts| + |c.consts|);
  }

  /** `after` is `st` with code, constants and one more loop, whose waiting `break` sites are `sites`. */
  predicate Grown(st: Emitted, code: seq<Instr>, consts: seq<Value>, sites: seq<nat>, after: Emitted) {
    && after.code == st.code + code && after.consts == st.consts + consts
    && after.locals == st.locals && after.depth == st.depth
    && |after.loops| == |st.loops| + 1 && after.loops[..|st.loops|] == st.loops
    && LastLoop(after).breaks == sites
  }

  lemma GrowsBy(st: Emitted, code: seq<Instr>, consts: seq<Value>, sites: seq<nat>, e: Emitted, f: Frag)
    requires Grown(st, code, consts, sites, e)
    ensures Grown(st, code + f.code, consts + f.consts, sites + f.breaks, Extend(e, f))
  {
    assert st.code + code + f.code == st.code + (code + f.code);
    assert st.consts + consts + f.consts == st.consts + (consts + f.consts);
  }

  lemma WhileGrows(st: Emitted, s: Stmt, c: Frag, b: Frag)
    requires s.While? && c == ExprCode(st, s.cond, s.line)
    ensures var st1 := InLoop(st, |st.code|, true, s.line);
            var st4 := Extend(WhileTested(st, s), b);
            && |WhileTested(st, s).code| == |st.code| + |c.code| + 1
            && Grown(st, c.code + [Instr(JumpIfFalse(0), s.line)] + b.code + [Instr(Loop(|st.code|), s.line)], c.consts + b.consts,
                     b.breaks, With(st4, Loop(|st.code|), s.line))
  {
    hide GenExpr, Extend, Grown;
    var st1 := InLoop(st, |st.code|, true, s.line);
    assert ExprCode(st1, s.cond, s.line) == c;
    GrowsStart(st, |st.code|, true, s.line);
    GrowsBy(st, [], [], [], st1, c);
    GrowsBy(st, [] + c.code, [] + c.consts, [] + [], Extend(st1, c), One(JumpIfFalse(0), s.line));
    var code := [] + c.code + [Instr(JumpIfFalse(0), s.line)];
    var consts := [] + c.consts + [];
    GrowsBy(st, code, consts, [] + [] + [], WhileTested(st, s), b);
    GrowsBy(st, code + b.code, consts + b.consts, [] + [] + [] + b.breaks, Extend(WhileTested(st, s), b), One(Loop(|st.code|), s.line));
    assert code == c.code + [Instr(JumpIfFalse(0), s.line)];
    assert consts + b.consts + [] == c.consts + b.consts;
    assert [] + [] + [] + b.breaks + [] == b.breaks;
  }

  lemma GrowsStart(st: Emitted, contTarget: nat, resolved: bool, line: nat)
    ensures Grown(st, [], [], [], InLoop(st, contTarget, resolved, line))
  {
    assert st.code + [] == st.code && st.consts + [] == st.consts;
  }

  /** Leaving a loop: aim its exit jump and its `break` sites. */
  lemma LoopLeaves(st: Emitted, c: Frag, line: nat, mid: seq<Instr>, body: seq<Instr>, next: seq<Instr>, consts: seq<Value>, sites: seq<nat>, e: Emitted)
    requires Grown(st, c.code + [Instr(JumpIfFalse(0), line)] + mid + body + next, consts, sites, e)
    requires var p := |st.code| + |c.code| + 1 + |mid|; forall b :: b in sites ==> p <= b < p + |body|
    ensures var at, exit := |st.code| + |c.code|, |e.code|;
            && at < |e.code| && e.code[at] == Instr(JumpIfFalse(0), line) && e.loops != []
            && LastLoop(e).breaks == sites
            && AimAll(OutOfLoop(Aim(e, at)), sites) ==
               st.(code := st.code + (c.code + [Instr(JumpIfFalse(exit), line)] + mid + Patched(body, at + 1 + |mid|, sites, exit) + next),
                   consts := st.consts + consts)
  {
    hide Patched;
    var at, exit := |st.code| + |c.code|, |e.code|;
    var pre := st.code + c.code;
    assert e.code == pre + [Instr(JumpIfFalse(0), line)] + mid + body + next;
    LoopCloses(pre, line, mid, body, sites, next);
    assert pre + [Instr(JumpIfFalse(exit), line)] + mid + Patched(body, |pre| + 1 + |mid|, sites, exit) + next ==
           st.code + (c.code + [Instr(JumpIfFalse(exit), line)] + mid + Patched(body, at + 1 + |mid|, sites, exit) + next);
  }

  lemma WhileEmits(st: Emitted, s: Stmt, st4: Emitted)
    requires s.While? && CompilableAll(s.body, true) && Fits(st)
    requires BecomesScope(WhileTested(st, s), [], s.body, s.line, st4)
    ensures var at := |st.code| + |ExprCode(st, s.cond, s.line).code|;
            var st5 := With(st4, Loop(|st.code|), s.line);
            && at < |st5.code| && IsJump(st5.code[at].op) && st5.loops != []
            && Becomes(st, s, AimAll(OutOfLoop(Aim(st5, at)), LastLoop(st5).breaks))
  {
    hide ExprCode, ScopeCode, GenWhile, Patched, Extend, Grown, Aim, AimAll, OutOfLoop, WhileTested;
    WhileCode(st, s);
    var c, b := ExprCode(st, s.cond, s.line), ScopeCode(WhileTested(st, s), [], s.body, s.line);
    var back := Instr(Loop(|st.code|), s.line);
    WhileGrows(st, s, c, b);
    assert c.code + [Instr(JumpIfFalse(0), s.line)] + [] + b.code + [back] == c.code + [Instr(JumpIfFalse(0), s.line)] + b.code + [back];
    var st5 := With(st4, Loop(|st.code|), s.line);
    LoopLeaves(st, c, s.line, [], b.code, [back], c.consts + b.consts, b.breaks, st5);
    PatchedNowhere(b.code, |st.code| + |c.code| + 1, |st.code|);
    var at, exit := |st.code| + |c.code|, |st5.code|;
    var all := GenWhile(s, Names(st.locals), |st.code|, |st.consts|);
    assert all.code == c.code + [Instr(JumpIfFalse(exit), s.line)] + [] + Patched(b.code, at + 1, b.breaks, exit) + [back];
    assert all.consts == c.consts + b.consts;
    ExtendQuietly(st, all);
    CodeOfWhile(st, s);
    DeclaresNothing(st, s, Extend(st, all));
  }

  lemma CodeOfWhile(st: Emitted, s: Stmt)
    requires s.While? && Compilable(s, st.loops != []) && Fits(st)
    ensures CodeOf(st, s) == GenWhile(s, Names(st.locals), |st.code|, |st.consts|)
  {
    hide GenWhile;
  }

  lemma ExtendQuietly(st: Emitted, f: Frag)
    requires NoSites(f)
    ensures Extend(st, f) == st.(code := st.code + f.code, consts := st.consts + f.consts)
  {
    ExtendPlain(st, f);
  }

  lemma PatchedNowhere(code: seq<Instr>, p: nat, to: nat)
    ensures Patched(code, p, [], to) == code
  {
  }

  // ----- `for` -----

  function ForLocals(st: Emitted, s: Stmt): seq<Local>
    requires s.For?
  {
    st.locals + [Local(COLLECTION, st.depth + 1)] + [Local(INDEX, st.depth + 1)] + [Local(s.binder, st.depth + 1)]
  }

  /** The list, the counter and the loop variable are in their slots. */
  function ForEntered(st: Emitted, s: Stmt): Emitted
    requires s.For?
  {
    var listed := Named(With(WithExpr(st.(depth := st.depth + 1), s.iter, s.line), ToIterList, s.line), COLLECTION);
    var counted := Named(WithConst(listed, VInt(0), s.line), INDEX);
    Named(WithConst(counted, VNull, s.line), s.binder)
  }

  lemma ForEnters(st: Emitted, s: Stmt)
    requires s.For?
    ensures var it := ExprCode(st, s.iter, s.line);
            var enter := ForEnter(|st.locals|, s.line, |st.consts| + |it.consts|);
            && NoSites(enter) && ForEntered(st, s).loops == st.loops
            && ForEntered(st, s) == Extend(st, Cat(it, enter)).(depth := st.depth + 1, locals := ForLocals(st, s))
  {
    hide GenExpr;
    var it := ExprCode(st, s.iter, s.line);
    var enter := ForEnter(|st.locals|, s.line, |st.consts| + |it.consts|);
    assert ExprCode(st.(depth := st.depth + 1), s.iter, s.line) == it;
    ExtendQuietly(st, Cat(it, enter));
    QuietSteps(st, s, it);
    assert enter.code == [Instr(ToIterList, s.line), Instr(LoadConst(|st.consts| + |it.consts|), s.line),
                          Instr(LoadConst(|st.consts| + |it.consts| + 1), s.line)];
    assert st.code + it.code + [Instr(ToIterList, s.line)] + [Instr(LoadConst(|st.consts| + |it.consts|), s.line)]
           + [Instr(LoadConst(|st.consts| + |it.consts| + 1), s.line)] == st.code + (it.code + enter.code);
    assert st.consts + it.consts + [VInt(0)] + [VNull] == st.consts + (it.consts + enter.consts);
  }

  lemma QuietSteps(st: Emitted, s: Stmt, it: Frag)
    requires s.For? && it == ExprCode(st.(depth := st.depth + 1), s.iter, s.line)
    ensures ForEntered(st, s) ==
            Emitted(st.code + it.code + [Instr(ToIterList, s.line)] + [Instr(LoadConst(|st.consts| + |it.consts|), s.line)]
                    + [Instr(LoadConst(|st.consts| + |it.consts| + 1), s.line)],
                    st.consts + it.consts + [VInt(0)] + [VNull], ForLocals(st, s), st.depth + 1, st.loops)
  {
    hide GenExpr, Extend;
    var st0 := st.(depth := st.depth + 1);
    var st1 := Extend(st0, it);
    ExtendQuietly(st0, it);
    ExtendQuietly(st1, One(ToIterList, s.line));
    var st2 := Named(With(st1, ToIterList, s.line), COLLECTION);
    ExtendQuietly(st2, Const(VInt(0), s.line, |st2.consts|));
    assert st1.consts + [] == st1.consts;
    var st3 := Named(WithConst(st2, VInt(0), s.line), INDEX);
    ExtendQuietly(st3, Const(VNull, s.line, |st3.consts|));
  }

  /** Compare the counter with the length, leave or fetch the next element. */
  function ForTested(e: Emitted, n: nat, line: nat): (r: Emitted)
    ensures r.locals == e.locals && r.depth == e.depth && |r.code| == |e.code| + 7
    ensures |r.loops| == |e.loops| && Innermost(r.loops) == Innermost(e.loops)
  {
    var tested := With(With(With(With(e, GetLocal(n + 1), line), LenLocal(n), line), OpCode.Lt, line), JumpIfFalse(0), line);
    With(With(With(tested, Pop, line), GetLocal(n + 1), line), IndexLocal(n), line)
  }

  lemma ExtendOnes(e: Emitted, a: Frag, op: OpCode, line: nat)
    ensures With(Extend(e, a), op, line) == Extend(e, Frag(a.code + [Instr(op, line)], a.consts, a.breaks, a.conts))
  {
    ExtendCat(e, a, One(op, line));
    assert a.consts + [] == a.consts && a.breaks + [] == a.breaks && a.conts + [] == a.conts;
  }

  lemma ForTestedEmits(e: Emitted, n: nat, line: nat)
    ensures ForTested(e, n, line) == Extend(e, ForTest(n, 0, line))
  {
    hide Extend;
    ExtendNothing(e);
    ExtendOnes(e, EMPTY, GetLocal(n + 1), line);
    var a := Frag([Instr(GetLocal(n + 1), line)], [], [], []);
    assert [] + [Instr(GetLocal(n + 1), line)] == a.code;
    ExtendOnes(e, a, LenLocal(n), line);
    assert a.code + [Instr(LenLocal(n), line)] == [Instr(GetLocal(n + 1), line), Instr(LenLocal(n), line)];
    var b := Frag([Instr(GetLocal(n + 1), line), Instr(LenLocal(n), line)], [], [], []);
    ExtendOnes(e, b, OpCode.Lt, line);
    assert b.code + [Instr(OpCode.Lt, line)] == [Instr(GetLocal(n + 1), line), Instr(LenLocal(n), line), Instr(OpCode.Lt, line)];
    var c := Frag([Instr(GetLocal(n + 1), line), Instr(LenLocal(n), line), Instr(OpCode.Lt, line)], [], [], []);
    ExtendOnes(e, c, JumpIfFalse(0), line);
    var d := Frag(c.code + [Instr(JumpIfFalse(0), line)], [], [], []);
    ExtendOnes(e, d, Pop, line);
    var f := Frag(d.code + [Instr(Pop, line)], [], [], []);
    ExtendOnes(e, f, GetLocal(n + 1), line);
    ExtendOnes(e, Frag(f.code + [Instr(GetLocal(n + 1), line)], [], [], []), IndexLocal(n), line);
    assert ForTest(n, 0, line).code == f.code + [Instr(GetLocal(n + 1), line)] + [Instr(IndexLocal(n), line)];
  }

  /** Count on and go back. */
  function ForStep(e: Emitted, n: nat, start: nat, line: nat): Emitted {
    var summed := With(WithConst(With(e, GetLocal(n + 1), line), VInt(1), line), OpCode.Add, line);
    With(With(With(summed, SetLocal(n + 1), line), Pop, line), Loop(start), line)
  }

  lemma ForStepEmits(e: Emitted, n: nat, start: nat, line: nat)
    ensures ForStep(e, n, start, line) == Extend(e, ForNext(n, start, line, |e.consts|))
  {
    hide Extend;
    var get := Instr(GetLocal(n + 1), line);
    var load := Instr(LoadConst(|e.consts|), line);
    ExtendCat(e, One(GetLocal(n + 1), line), Const(VInt(1), line, |e.consts|));
    var a := Frag([get, load], [VInt(1)], [], []);
    assert Cat(One(GetLocal(n + 1), line), Const(VInt(1), line, |e.consts|)) == a;
    ExtendOnes(e, a, OpCode.Add, line);
    assert a.code + [Instr(OpCode.Add, line)] == [get, load, Instr(OpCode.Add, line)];
    var b := Frag([get, load, Instr(OpCode.Add, line)], [VInt(1)], [], []);
    ExtendOnes(e, b, SetLocal(n + 1), line);
    var c := Frag(b.code + [Instr(SetLocal(n + 1), line)], [VInt(1)], [], []);
    ExtendOnes(e, c, Pop, line);
    ExtendOnes(e, Frag(c.code + [Instr(Pop, line)], [VInt(1)], [], []), Loop(start), line);
    assert ForNext(n, start, line, |e.consts|).code == c.code + [Instr(Pop, line)] + [Instr(Loop(start), line)];
  }

  function ForReady(st: Emitted, s: Stmt): Emitted
    requires s.For?
  {
    ForTested(InLoop(ForEntered(st, s), 0, false, s.line), |st.locals|, s.line)
  }

  /** The `continue` sites of the innermost loop now lead to the end of the code. */
  function Continued(e: Emitted): Emitted
    requires e.loops != []
  {
    var last := LastLoop(e);
    AimAll(e.(loops := e.loops[|e.loops| - 1 := last.(continueTarget := |e.code|, continues := [])]), last.continues)
  }

  lemma ForNamesAre(st: Emitted, s: Stmt)
    requires s.For?
    ensures Names(ForLocals(st, s) + []) == ForNames(s, Names(st.locals))
  {
  }

  lemma ForReadyIs(st: Emitted, s: Stmt)
    requires s.For?
    ensures var it, r := ExprCode(st, s.iter, s.line), ForReady(st, s);
            && r.locals == ForLocals(st, s) && |r.locals| == |st.locals| + 3 && |r.code| == |st.code| + |it.code| + 10 && |r.consts| == |st.consts| + |it.consts| + 2
            && |ForEntered(st, s).code| == |st.code| + |it.code| + 3
            && r.loops != [] && Innermost(r.loops) == Some(ForInfo(s, Names(st.locals))) && Fits(r)
  {
    hide GenExpr, Extend, ForEntered;
    ForEnters(st, s);
  }

  lemma ForCode(st: Emitted, s: Stmt)
    requires s.For? && CompilableAll(s.body, true) && Fits(st)
    ensures CompilableAll(s.body, ForReady(st, s).loops != []) && Fits(ForReady(st, s))
    ensures var it, b := ExprCode(st, s.iter, s.line), ScopeCode(ForReady(st, s), [], s.body, s.line);
            var n, start := |st.locals|, |st.code| + |it.code| + 3;
            var inc := start + 7 + |b.code|;
            var k := |st.consts| + |it.consts|;
            && SitesIn(b, start + 7)
            && CodeOf(st, s) ==
               Cat(Cat(Cat(Cat(Cat(it, ForEnter(n, s.line, k)), ForTest(n, inc + 6, s.line)), Closed(b, start + 7, inc + 6, inc)),
                       ForNext(n, start, s.line, k + 2 + |b.consts|)), One(PopN(3), s.line))
  {
    hide GenExpr, GenScoped, Cat, Closed, Extend, ForEntered, ForReady, ForLocals, ForNames, ForEnter, ForTest, ForNext;
    ForReadyIs(st, s);
    ForNamesAre(st, s);
    CodeOfFor(st, s);
  }

  lemma CodeOfFor(st: Emitted, s: Stmt)
    requires s.For? && Compilable(s, st.loops != []) && Fits(st)
    ensures CodeOf(st, s) == GenFor(s, Names(st.locals), |st.code|, |st.consts|)
  {
    hide GenFor;
  }

  lemma ContinuedGrows(st: Emitted, code: seq<Instr>, b: Frag, consts: seq<Value>, e: Emitted)
    requires SitesIn(b, |st.code| + |code|)
    requires Grown(st, code + b.code, consts, b.breaks, e) && LastLoop(e).continues == b.conts
    ensures Grown(st, code + Patched(b.code, |st.code| + |code|, b.conts, |e.code|), consts, b.breaks, Continued(e))
  {
    hide Patched;
    var pre := st.code + code;
    assert e.code == pre + b.code + [];
    PatchedInside(pre, b.code, [], b.conts, |e.code|);
    var body := Patched(b.code, |pre|, b.conts, |e.code|);
    assert pre + body + [] == st.code + (code + body);
  }

  lemma ForGrows(st: Emitted, s: Stmt, b: Frag)
    requires s.For?
    requires SitesIn(b, |ForReady(st, s).code|)
    ensures var n, st1 := |st.locals|, ForEntered(st, s);
            var st4 := Extend(ForReady(st, s), b);
            && st4.loops != []
            && Grown(st1, ForTest(n, 0, s.line).code + Patched(b.code, |st1.code| + 7, b.conts, |st4.code|)
                          + ForNext(n, |st1.code|, s.line, |st4.consts|).code,
                     b.consts + [VInt(1)], b.breaks, ForStep(Continued(st4), n, |st1.code|, s.line))
            && |ForStep(Continued(st4), n, |st1.code|, s.line).code| == |st4.code| + 6
  {
    hide Extend, ForEntered, Grown, Continued, ForStep, ForTested, Patched;
    var n, st1 := |st.locals|, ForEntered(st, s);
    var st2 := InLoop(st1, 0, false, s.line);
    ForTestedEmits(st2, n, s.line);
    var test := ForTest(n, 0, s.line);
    GrowsStart(st1, 0, false, s.line);
    GrowsBy(st1, [], [], [], st2, test);
    assert [] + test.code == test.code && [] + b.consts == b.consts && [] + b.breaks == b.breaks;
    GrowsBy(st1, test.code, [], [], Extend(st2, test), b);
    var st4 := Extend(Extend(st2, test), b);
    WaitingContinues(st2, test, b);
    ContinuedGrows(st1, test.code, b, b.consts, st4);
    var body := Patched(b.code, |st1.code| + 7, b.conts, |st4.code|);
    ContinuedSize(st4);
    ForStepEmits(Continued(st4), n, |st1.code|, s.line);
    var next := ForNext(n, |st1.code|, s.line, |st4.consts|);
    GrowsBy(st1, test.code + body, b.consts, b.breaks, Continued(st4), next);
    assert b.breaks + [] == b.breaks;
  }

  lemma WaitingContinues(e: Emitted, a: Frag, b: Frag)
    requires e.loops != [] && LastLoop(e).continues == [] && NoSites(a)
    ensures LastLoop(Extend(Extend(e, a), b)).continues == b.conts
  {
  }

  lemma ContinuedSize(e: Emitted)
    requires e.loops != []
    ensures |Continued(e).code| == |e.code| && Continued(e).consts == e.consts && |Continued(e).loops| == |e.loops|
  {
  }

  /** The whole of a `for`, from its parts. */
  lemma ForAssembled(st: Emitted, line: nat, it: Frag, enter: Frag, n: nat, exit: nat, body: Frag, next: Frag, st1: Emitted, st7: Emitted)
    requires NoSites(it) && NoSites(enter) && NoSites(body) && NoSites(next)
    requires st1 == Extend(st, Cat(it, enter)).(depth := st1.depth, locals := st1.locals)
    requires var test := ForTest(n, 0, line).code;
             st7 == st1.(code := st1.code + (test[..3] + [Instr(JumpIfFalse(exit), line)] + test[4..] + body.code + next.code),
                         consts := st1.consts + (body.consts + next.consts))
    ensures With(st7, PopN(3), line).(locals := st.locals, depth := st.depth) ==
            Extend(st, Cat(Cat(Cat(Cat(Cat(it, enter), ForTest(n, exit, line)), body), next), One(PopN(3), line)))
  {
    hide Extend;
    var all := Cat(Cat(Cat(Cat(Cat(it, enter), ForTest(n, exit, line)), body), next), One(PopN(3), line));
    ExtendQuietly(st, Cat(it, enter));
    ExtendQuietly(st, all);
    ExtendQuietly(st7, One(PopN(3), line));
    var test := ForTest(n, 0, line).code;
    assert test[..3] + [Instr(JumpIfFalse(exit), line)] + test[4..] == ForTest(n, exit, line).code;
    assert st7.code + [Instr(PopN(3), line)] == st.code + all.code;
    assert st7.consts + [] == st.consts + all.consts;
  }

  lemma ForEmits(st: Emitted, s: Stmt, st4: Emitted)
    requires s.For? && CompilableAll(s.body, true) && Fits(st)
    requires BecomesScope(ForReady(st, s), [], s.body, s.line, st4)
    ensures var n, start := |st.locals|, |ForEntered(st, s).code|;
            && st4.loops != []
            && (var st6 := ForStep(Continued(st4), n, start, s.line);
                && start + 3 < |st6.code| && IsJump(st6.code[start + 3].op) && st6.loops != []
                && (var st7 := AimAll(OutOfLoop(Aim(st6, start + 3)), LastLoop(st6).breaks);
                    && st7.locals == ForLocals(st, s) && st7.loops == st.loops && st7.depth == st.depth + 1
                    && Becomes(st, s, With(st7, PopN(3), s.line).(locals := st.locals, depth := st.depth))))
  {
    hide ExprCode, ScopeCode, CodeOf, Extend, Grown, Aim, AimAll, OutOfLoop, ForEntered, ForReady, Patched, Continued, ForStep, ForLocals, Cat;
    ForCode(st, s);
    ForReadyIs(st, s);
    var it, b := ExprCode(st, s.iter, s.line), ScopeCode(ForReady(st, s), [], s.body, s.line);
    var n, st1 := |st.locals|, ForEntered(st, s);
    var start := |st1.code|;
    var inc := start + 7 + |b.code|;
    ForGrows(st, s, b);
    var st6 := ForStep(Continued(st4), n, start, s.line);
    var test := ForTest(n, 0, s.line).code;
    var body := Patched(b.code, start + 7, b.conts, inc);
    var next := ForNext(n, start, s.line, |st4.consts|).code;
    assert test[..3] + [Instr(JumpIfFalse(0), s.line)] + test[4..] + body + next == test + body + next;
    var front := Frag(test[..3], [], [], []);
    LoopLeaves(st1, front, s.line, test[4..], body, next, b.consts + [VInt(1)], b.breaks, st6);
    ForEnters(st, s);
    var enter := ForEnter(n, s.line, |st.consts| + |it.consts|);
    var st7 := AimAll(OutOfLoop(Aim(st6, start + 3)), b.breaks);
    ForAssembled(st, s.line, it, enter, n, inc + 6, Closed(b, start + 7, inc + 6, inc), ForNext(n, start, s.line, |st4.consts|), st1, st7);
    DeclaresNothing(st, s, With(st7, PopN(3), s.line).(locals := st.locals, depth := st.depth));
  }

  // ----- `try` -----

  /** The innermost loop counts one more active `try`. */
  function TryDeeper(loops: seq<LoopState>): seq<LoopState> {
    if loops == [] then []
    else
      var last := |loops| - 1;
      loops[last := loops[last].(tryDepth := loops[last].tryDepth + 1)]
  }

  function TryShallower(loops: seq<LoopState>): seq<LoopState>
    requires loops != [] ==> loops[|loops| - 1].tryDepth > 0
  {
    if loops == [] then []
    else
      var last := |loops| - 1;
      loops[last := loops[last].(tryDepth := loops[last].tryDepth - 1)]
  }

  function TryEntered(st: Emitted, s: Stmt): Emitted
    requires s.TryCatch?
  {
    var st1 := With(st, SetupTry(0), s.line);
    st1.(loops := TryDeeper(st1.loops))
  }

  lemma TryEnters(st: Emitted, s: Stmt)
    requires s.TryCatch? && Fits(st)
    ensures var e := TryEntered(st, s);
            && e.locals == st.locals && e.depth == st.depth && |e.code| == |st.code| + 1 && |e.consts| == |st.consts|
            && |e.loops| == |st.loops| && Innermost(e.loops) == DeeperTry(Innermost(st.loops)) && Fits(e)
  {
  }

  /** Leaving the protected block: the loops are as if it had been compiled without the deeper count. */
  lemma TryLeaves(st: Emitted, s: Stmt, t: Frag, op: OpCode)
    requires s.TryCatch?
    ensures var st4 := With(Extend(TryEntered(st, s), t), op, s.line);
            && (st4.loops != [] ==> LastLoop(st4).tryDepth > 0)
            && st4.(loops := TryShallower(st4.loops)) == With(Extend(With(st, SetupTry(0), s.line), t), op, s.line)
  {
    var st1 := With(st, SetupTry(0), s.line);
    var e1, e2 := Extend(TryEntered(st, s), t), Extend(st1, t);
    ExtendPlain(e1, One(op, s.line));
    ExtendPlain(e2, One(op, s.line));
    if st1.loops != [] {
      assert TryShallower(e1.loops) == e2.loops;
    }
  }

  /** The handler of the `SetupTry` at `offset` now begins at the end of the code. */
  function Caught(e: Emitted, offset: nat): (r: Emitted)
    requires offset < |e.code|
    ensures r.locals == e.locals && r.depth == e.depth && r.loops == e.loops && |r.code| == |e.code|
  {
    e.(code := e.code[offset := Instr(SetupTry(|e.code|), e.code[offset].line)])
  }

  lemma UnfoldTry(st: Emitted, s: Stmt, q: nat, j: nat)
    requires s.TryCatch? && Compilable(s, st.loops != []) && Fits(st)
    requires CompilableAll(s.tryBody, TryEntered(st, s).loops != []) && Fits(TryEntered(st, s))
    requires var t := ScopeCode(TryEntered(st, s), [], s.tryBody, s.line);
             q == |st.code| + 1 + |t.code| + 2 && j == |st.consts| + |t.consts|
    ensures var names, lp := Names(st.locals), Innermost(st.loops);
            var t := ScopeCode(TryEntered(st, s), [], s.tryBody, s.line);
            var c := GenScoped(s.catchBody, names + [s.binder], |names|, lp, s.line, q, j);
            CodeOf(st, s) ==
            Cat(Cat(Cat(One(SetupTry(q), s.line), t), Cat(One(TeardownTry, s.line), One(Jump(q + |c.code|), s.line))), c)
  {
    hide GenScoped, Cat, Extend, TryEntered;
    TryEnters(st, s);
    CodeOfTry(st, s);
    assert st.locals + [] == st.locals;
  }

  lemma CodeOfTry(st: Emitted, s: Stmt)
    requires s.TryCatch? && Compilable(s, st.loops != []) && Fits(st)
    ensures CodeOf(st, s) == GenTry(s, Names(st.locals), Innermost(st.loops), |st.code|, |st.consts|)
  {
    hide GenTry;
  }

  /** Up to the catch block: what stands there once the handler is known. */
  function TryDone(st: Emitted, s: Stmt, t: Frag): Emitted
    requires s.TryCatch?
  {
    With(With(Extend(With(st, SetupTry(0), s.line), t), TeardownTry, s.line), Jump(0), s.line)
  }

  lemma TryDoneIs(st: Emitted, s: Stmt, t: Frag)
    requires s.TryCatch?
    ensures var a := Cat(Cat(One(SetupTry(|st.code| + |t.code| + 3), s.line), t), One(TeardownTry, s.line));
            && |TryDone(st, s, t).code| == |st.code| + |t.code| + 3
            && TryDone(st, s, t).code[|st.code|].op == SetupTry(0)
            && |a.code| == |t.code| + 2
            && Caught(TryDone(st, s, t), |st.code|) == With(Extend(st, a), Jump(0), s.line)
  {
    hide Recorded;
    var a0 := Cat(Cat(One(SetupTry(0), s.line), t), One(TeardownTry, s.line));
    var a := Cat(Cat(One(SetupTry(|st.code| + |t.code| + 3), s.line), t), One(TeardownTry, s.line));
    ExtendCat(st, One(SetupTry(0), s.line), t);
    ExtendCat(st, Cat(One(SetupTry(0), s.line), t), One(TeardownTry, s.line));
    assert TryDone(st, s, t) == With(Extend(st, a0), Jump(0), s.line);
    assert a.breaks == a0.breaks && a.conts == a0.conts;
    SameSites(st.loops, a0, a);
    assert (st.code + a0.code + [Instr(Jump(0), s.line)])[|st.code| := a.code[0]] == st.code + a.code + [Instr(Jump(0), s.line)];
    SameSites(Extend(st, a0).loops, One(Jump(0), s.line), One(Jump(0), s.line));
  }

  lemma SameSites(loops: seq<LoopState>, a: Frag, b: Frag)
    requires a.breaks == b.breaks && a.conts == b.conts
    ensures Recorded(loops, a) == Recorded(loops, b)
  {
  }

  lemma TryEmits(st: Emitted, s: Stmt, st3: Emitted, st8: Emitted)
    requires s.TryCatch? && Compilable(s, st.loops != []) && Fits(st)
    requires BecomesScope(TryEntered(st, s), [], s.tryBody, s.line, st3)
    ensures var t := ScopeCode(TryEntered(st, s), [], s.tryBody, s.line);
            && st3 == Extend(TryEntered(st, s), t)
            && (var st7 := Caught(TryDone(st, s, t), |st.code|);
                BecomesScope(st7, [Local(s.binder, st.depth + 1)], s.catchBody, s.line, st8) ==>
                  && |st7.code| - 1 < |st8.code| && IsJump(st8.code[|st7.code| - 1].op)
                  && Becomes(st, s, Aim(st8, |st7.code| - 1)))
  {
    hide ScopeCode, CodeOf, Extend, Aim, Caught, TryEntered;
    var t := ScopeCode(TryEntered(st, s), [], s.tryBody, s.line);
    TryDoneIs(st, s, t);
    var st7 := Caught(TryDone(st, s, t), |st.code|);
    if BecomesScope(st7, [Local(s.binder, st.depth + 1)], s.catchBody, s.line, st8) {
      CatchEmits(st, s, t, st7, st8);
    }
  }

  lemma CatchEmits(st: Emitted, s: Stmt, t: Frag, st7: Emitted, st8: Emitted)
    requires s.TryCatch? && Compilable(s, st.loops != []) && Fits(st)
    requires CompilableAll(s.tryBody, TryEntered(st, s).loops != []) && Fits(TryEntered(st, s))
    requires t == ScopeCode(TryEntered(st, s), [], s.tryBody, s.line)
    requires st7 == Caught(TryDone(st, s, t), |st.code|)
    requires BecomesScope(st7, [Local(s.binder, st.depth + 1)], s.catchBody, s.line, st8)
    ensures |st7.code| - 1 < |st8.code| && IsJump(st8.code[|st7.code| - 1].op)
    ensures Becomes(st, s, Aim(st8, |st7.code| - 1))
  {
    hide GenScoped, CodeOf, Extend, Aim, Caught, TryEntered, TryDone;
    TryDoneIs(st, s, t);
    var a := Cat(Cat(One(SetupTry(|st.code| + |t.code| + 3), s.line), t), One(TeardownTry, s.line));
    var q, j := |st7.code|, |st7.consts|;
    assert j == |st.consts| + |t.consts|;
    UnfoldTry(st, s, q, j);
    CatchNames(st, s);
    var c := GenScoped(s.catchBody, Names(st.locals) + [s.binder], |st.locals|, Innermost(st.loops), s.line, q, j);
    assert st8 == Extend(st7, c);
    AimOver(st, a, Jump(0), s.line, c);
    var over := One(Jump(q + |c.code|), s.line);
    CatAssoc(Cat(One(SetupTry(q), s.line), t), One(TeardownTry, s.line), over);
    DeclaresNothing(st, s, Aim(st8, q - 1));
  }

  lemma CatchNames(st: Emitted, s: Stmt)
    requires s.TryCatch?
    ensures Names(st.locals + [Local(s.binder, st.depth + 1)]) == Names(st.locals) + [s.binder]
  {
  }

  // ----- The invariant over whole constructs -----

  lemma InLoopSound(st: Emitted, contTarget: nat, resolved: bool, line: nat)
    requires Sound(st)
    ensures Sound(InLoop(st, contTarget, resolved, line))
  {
    var r := InLoop(st, contTarget, resolved, line);
    forall l | l in r.loops
      ensures LoopFine(r, l)
    {
      if l in st.loops {
        assert LoopFine(st, l);
      }
    }
  }

  /** Replacing the innermost loop state by one with no other sites and no larger table. */
  lemma LoopsSound(e: Emitted, loops: seq<LoopState>)
    requires Sound(e) && |loops| <= |e.loops|
    requires forall i :: 0 <= i < |loops| ==>
               && loops[i].localsCount <= |e.locals|
               && SitesAreJumps(e.code, loops[i].breaks) && SitesAreJumps(e.code, loops[i].continues)
    ensures Sound(e.(loops := loops))
  {
    hide SitesAreJumps;
    var r := e.(loops := loops);
    forall l | l in r.loops
      ensures LoopFine(r, l)
    {
    }
  }

  predicate LoopsWithin(loops: seq<LoopState>, n: nat) {
    forall l :: l in loops ==> l.localsCount <= n
  }

  lemma WithinExtended(e: Emitted, f: Frag, n: nat)
    requires LoopsWithin(e.loops, n)
    ensures LoopsWithin(Extend(e, f).loops, n)
  {
    var r := Extend(e, f).loops;
    forall l | l in r
      ensures l.localsCount <= n
    {
      var i :| 0 <= i < |r| && r[i] == l;
      assert e.loops[i] in e.loops;
    }
  }

  lemma SoundWithin(e: Emitted)
    requires Sound(e)
    ensures LoopsWithin(e.loops, |e.locals|)
  {
    forall l | l in e.loops
      ensures l.localsCount <= |e.locals|
    {
      assert LoopFine(e, l);
    }
  }

  lemma WithinFits(e: Emitted)
    requires LoopsWithin(e.loops, |e.locals|)
    ensures Fits(e)
  {
    if e.loops != [] {
      assert LastLoop(e) in e.loops;
    }
  }

  /** Compiling `rest` from `e` gives what compiling all of `ss` from `e0` gives. */
  predicate Remaining(e0: Emitted, ss: seq<Stmt>, e: Emitted, rest: seq<Stmt>) {
    && Fits(e0) && Fits(e) && (e.loops != [] <==> e0.loops != [])
    && MisplacedIn(rest, e.loops != []) == MisplacedIn(ss, e0.loops != [])
    && (CompilableAll(ss, e0.loops != []) ==> CompiledIn(e, rest) == CompiledIn(e0, ss))
  }

  lemma RemainingNext(e0: Emitted, ss: seq<Stmt>, e: Emitted, rest: seq<Stmt>, after: Emitted)
    requires Remaining(e0, ss, e, rest) && rest != [] && Becomes(e, rest[0], after)
    ensures Remaining(e0, ss, after, rest[1..])
  {
    hide Compiled, CompiledIn, Misplaced;
    CompiledFits(e, rest[0]);
    if CompilableAll(ss, e0.loops != []) {
      CompiledFirst(e, rest);
    }
  }

  lemma RemainingNone(e0: Emitted, ss: seq<Stmt>, e: Emitted)
    requires Remaining(e0, ss, e, [])
    ensures BecomesIn(e0, ss, e)
  {
    hide CompiledIn;
    CompiledNone(e);
  }

  lemma MisplacedFirst(ss: seq<Stmt>, inLoop: bool)
    requires ss != []
    ensures Misplaced(ss[0], inLoop).Some? ==> MisplacedIn(ss, inLoop) == Misplaced(ss[0], inLoop)
    ensures Misplaced(ss[0], inLoop).None? ==> MisplacedIn(ss, inLoop) == MisplacedIn(ss[1..], inLoop)
  {
  }

  lemma PeakFirst(e: Emitted, ss: seq<Stmt>, after: Emitted)
    requires ss != [] && Becomes(e, ss[0], after)
    ensures PeakIn(ss, |e.locals|) == Max(Peak(ss[0], |e.locals|), PeakIn(ss[1..], |after.locals|))
  {
    hide Peak;
  }

  lemma NothingMore(n: nat, inLoop: bool)
    ensures PeakIn([], n) == n && MisplacedIn([], inLoop) == None
  {
  }

  lemma TrySound(st: Emitted, s: Stmt)
    requires Sound(st) && s.TryCatch?
    ensures Sound(With(st, SetupTry(0), s.line)) ==> Sound(TryEntered(st, s))
  {
    var e := With(st, SetupTry(0), s.line);
    if Sound(e) {
      SitesOf(e);
      LoopsSound(e, TryDeeper(e.loops));
    }
  }

  lemma SitesOf(e: Emitted)
    requires Sound(e)
    ensures forall i :: 0 <= i < |e.loops| ==>
              && e.loops[i].localsCount <= |e.locals|
              && SitesAreJumps(e.code, e.loops[i].breaks) && SitesAreJumps(e.code, e.loops[i].continues)
  {
    forall i | 0 <= i < |e.loops|
      ensures LoopFine(e, e.loops[i])
    {
      assert e.loops[i] in e.loops;
    }
  }

  lemma ShallowerSound(e: Emitted)
    requires Sound(e) && (e.loops != [] ==> LastLoop(e).tryDepth > 0)
    ensures Sound(e.(loops := TryShallower(e.loops)))
  {
    SitesOf(e);
    LoopsSound(e, TryShallower(e.loops));
  }

  lemma CaughtSound(e: Emitted, offset: nat)
    requires Sound(e) && offset < |e.code| && e.code[offset].op.SetupTry?
    ensures Sound(Caught(e, offset))
  {
    forall l | l in e.loops
      ensures LoopFine(Caught(e, offset), l)
    {
      assert LoopFine(e, l);
    }
  }

  /** The scope of a catch block begins with its binder. */
  lemma BinderScope(e: Emitted, binder: string)
    requires Sound(e)
    ensures var inner := Named(e.(depth := e.depth + 1), binder);
            Kept(inner.locals, e.depth) == |e.locals| && Around(inner) == e && Within(inner) == [Local(binder, e.depth + 1)]
  {
    KeptGrow(e.locals, [Local(binder, e.depth + 1)], e.depth);
    var inner := Named(e.(depth := e.depth + 1), binder);
    assert inner.locals[..|e.locals|] == e.locals;
  }

  lemma OutOfLoopSound(e: Emitted)
    requires Sound(e) && e.loops != []
    ensures Sound(OutOfLoop(e))
    ensures SitesAreJumps(e.code, LastLoop(e).breaks) && SitesAreJumps(e.code, LastLoop(e).continues)
  {
    SitesOf(e);
    LoopsSound(e, e.loops[..|e.loops| - 1]);
  }

  lemma BreakSound(e: Emitted)
    requires Sound(e) && e.loops != [] && e.code != [] && e.code[|e.code| - 1].op.Jump?
    ensures Sound(e.(loops := BreakAt(e.loops, |e.code| - 1))) && Sound(e.(loops := ContinueAt(e.loops, |e.code| - 1)))
  {
    SitesOf(e);
    LoopsSound(e, BreakAt(e.loops, |e.code| - 1));
    LoopsSound(e, ContinueAt(e.loops, |e.code| - 1));
  }

  lemma ContinuedSound(e: Emitted)
    requires Sound(e) && e.loops != []
    ensures var last := LastLoop(e);
            Sound(e.(loops := e.loops[|e.loops| - 1 := last.(continueTarget := |e.code|, continues := [])]))
  {
    SitesOf(e);
    var last := LastLoop(e);
    LoopsSound(e, e.loops[|e.loops| - 1 := last.(continueTarget := |e.code|, continues := [])]);
  }

  lemma LastOp(e: Emitted, op: OpCode, line: nat)
    ensures With(e, op, line).code[|e.code|] == Instr(op, line)
    ensures With(e, op, line).loops == e.loops
  {
    ExtendPlain(e, One(op, line));
  }

  lemma UnwindingEmits(st: Emitted, line: nat)
    requires st.loops != [] && Fits(st)
    ensures var loop := Innermost(st.loops).value;
            var n := |st.locals| - loop.localsCount;
            var torn := Extend(st, Teardowns(loop.tryDepth, line));
            Unwinding(st, line) == if n > 0 then With(torn, PopN(n), line) else torn
  {
    hide Teardowns;
    var loop := Innermost(st.loops).value;
    var n := |st.locals| - loop.localsCount;
    ExtendCat(st, Teardowns(loop.tryDepth, line), PopSlots(n, line));
    ExtendNothing(Extend(st, Teardowns(loop.tryDepth, line)));
  }

  lemma TeardownNext(st: Emitted, n: nat, line: nat)
    ensures With(Extend(st, Teardowns(n, line)), TeardownTry, line) == Extend(st, Teardowns(n + 1, line))
  {
    ExtendCat(st, Teardowns(n, line), One(TeardownTry, line));
  }

  lemma LastSites(e: Emitted)
    requires Sound(e) && e.loops != []
    ensures SitesAreJumps(e.code, LastLoop(e).continues)
  {
    SitesOf(e);
  }

  lemma NoTeardowns(line: nat)
    ensures Teardowns(0, line) == EMPTY
  {
  }

  /** Ending the scope of a `for` leaves the locals that were there before it. */
  lemma ForKept(st: Emitted, s: Stmt)
    requires Sound(st) && s.For?
    ensures Kept(ForLocals(st, s), st.depth) == |st.locals|
    ensures ForLocals(st, s)[..|st.locals|] == st.locals && |ForLocals(st, s)| == |st.locals| + 3
  {
    var d := st.depth + 1;
    var more := [Local(COLLECTION, d)] + [Local(INDEX, d)] + [Local(s.binder, d)];
    assert ForLocals(st, s) == st.locals + more;
    KeptGrow(st.locals, more, st.depth);
  }

  lemma SameExprCode(e1: Emitted, e2: Emitted, e: Expr, line: nat)
    requires e1.locals == e2.locals && |e1.code| == |e2.code| && |e1.consts| == |e2.consts|
    ensures ExprCode(e1, e, line) == ExprCode(e2, e, line)
  {
  }
}

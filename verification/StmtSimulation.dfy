/** Statements: running the emitted code has exactly the effect of the slot semantics, for every way
    a statement can end, including fuel, output, handlers and the watchdog. */
module StmtSimulation {
  import opened Lang
  import T = Tree
  import opened Slots
  import opened Machine
  import opened CodeGen
  import opened ExprSimulation

  // ----- The machine state that stands for a frame -----

  function Ticks(prog: Program, fuel: nat): nat {
    if fuel <= prog.totalFuel then prog.totalFuel - fuel else 0
  }

  /** The machine `vm`, moved to `ip` with the slots, fuel and output of the frame. Every unit of fuel
      spent is one backward jump, which is what the watchdog counts. */
  function Moved(prog: Program, vm: Vm, ip: nat, fr: Frame): Vm {
    vm.(ip := ip, stack := fr.vals, fuel := fr.fuel, ticks := Ticks(prog, fr.fuel), out := fr.out)
  }

  /** What stays fixed while a fragment runs: the program, how many slots survive an error, whether the
      fragment is at top level, and the enclosing loop with the targets of its jumps. */
  datatype Place = Place(host: Host, prog: Program, keep: nat, top: bool, lp: Option<LoopInfo>, bt: nat, ct: nat)

  /** Everything a fragment may rely on when it starts at `p` and ends at `end`. */
  ghost predicate Stands(w: Place, fr: Frame, vm: Vm, p: nat, end: nat) {
    && fr.Valid() && w.keep <= |fr.names| && p <= end
    && fr.fuel <= w.prog.totalFuel
    && vm == Moved(w.prog, vm, p, fr)
    && GlobalsKnown(vm.globals, fr.names)
    && Shielded(vm.handlers, w.keep, end)
    && (w.top ==> vm.handlers == [] && w.lp.None?)
    && (w.lp.Some? ==> InLoop(w, w.lp.value, vm, p, end))
  }

  ghost predicate InLoop(w: Place, lp: LoopInfo, vm: Vm, p: nat, end: nat) {
    && lp.localsCount <= w.keep
    && lp.tryDepth <= |vm.handlers|
    && end <= w.bt
    && (if lp.resolved then lp.contTarget <= p else end <= w.ct)
  }

  /** Where a `continue` leaves the machine: at the increment of a `for`, or in front of the back edge
      of a `while`. */
  ghost predicate AtContinue(w: Place, lp: LoopInfo, ip: nat) {
    if lp.resolved then lp.contTarget <= ip < |w.prog.code| && w.prog.code[ip] == Instr(Loop(lp.contTarget), lp.line)
    else ip == w.ct
  }

  function Unwound(vm: Vm, lp: LoopInfo): Vm
    requires lp.tryDepth <= |vm.handlers|
  {
    vm.(handlers := vm.handlers[..|vm.handlers| - lp.tryDepth])
  }

  /** What running a fragment has to amount to, by the way it ends. */
  ghost predicate Lands(w: Place, vm: Vm, n: nat, end: nat, globals: map<string, nat>, r: SlotStep)
    requires w.lp.Some? ==> w.lp.value.tryDepth <= |vm.handlers|
  {
    var c := Steps(w.host, w.prog, Running(vm), n);
    match r.flow
    case Normal => c == Running(Moved(w.prog, vm, end, r.fr).(globals := globals))
    case Returning(_) => c == Finished(r.fr.fuel, r.fr.out)
    case Failing(f) => c == Raise(w.host, f, Moved(w.prog, vm, 0, Shrink(r.fr, w.keep)))
    case Breaking(_) =>
      && w.lp.Some?
      && c == Running(Moved(w.prog, Unwound(vm, w.lp.value), w.bt, Shrink(r.fr, w.lp.value.localsCount)))
    case Continuing(_) =>
      && w.lp.Some? && c.Running?
      && AtContinue(w, w.lp.value, c.vm.ip)
      && c == Running(Moved(w.prog, Unwound(vm, w.lp.value), c.vm.ip, Shrink(r.fr, w.lp.value.localsCount)))
  }

  /** The registry after a statement of the top level has run to its end. */
  function GlobalsAfterStmt(s: Stmt, top: bool, names: seq<string>, globals: map<string, nat>): map<string, nat> {
    if top && s.Let? then globals[s.name := |names|] else globals
  }

  function GlobalsAfter(ss: seq<Stmt>, top: bool, names: seq<string>, globals: map<string, nat>): map<string, nat> {
    if ss == [] then globals
    else GlobalsAfter(ss[1..], top, NamesAfterStmt(ss[0], names), GlobalsAfterStmt(ss[0], top, names, globals))
  }

  // ----- Raising -----

  /** An unwinding to `keep` slots forgets what else the frame holds. With no handler it only keeps
      fuel and output. */
  lemma RaiseFrom(host: Host, prog: Program, f: Fault, vm: Vm, keep: nat, a: Vm, fr: Frame)
    requires Shielded(vm.handlers, keep, 0) && fr.Valid() && keep <= |fr.vals|
    requires a.handlers == vm.handlers && (vm.handlers != [] ==> a.globals == vm.globals)
    requires a.fuel == fr.fuel && a.ticks == Ticks(prog, fr.fuel) && a.out == fr.out
    requires keep <= |a.stack| && a.stack[..keep] == fr.vals[..keep]
    ensures Raise(host, f, a) == Raise(host, f, Moved(prog, vm, 0, Shrink(fr, keep)))
  {
    if vm.handlers != [] {
      RaiseForgets(host, f, a, Moved(prog, vm, 0, Shrink(fr, keep)), keep);
    }
  }

  /** An expression, seen from the frame it runs in. */
  lemma EvalRuns(w: Place, e: Expr, line: nat, fr: Frame, p: nat, k: nat, vm: Vm) returns (n: nat)
    requires fr.Valid() && w.keep <= |fr.names| && vm == Moved(w.prog, vm, p, fr)
    requires GlobalsKnown(vm.globals, fr.names)
    requires At(w.prog, p, k, GenExpr(e, fr.names, line, p, k), w.bt, w.ct)
    requires Shielded(vm.handlers, w.keep, p + |GenExpr(e, fr.names, line, p, k).code|)
    ensures var v := Eval(w.host, e, line, fr);
            Steps(w.host, w.prog, Running(vm), n) ==
            match v.result
            case Good(x) => Running(Pushed(vm, p + |GenExpr(e, fr.names, line, p, k).code|, x, v.out))
            case Bad(f) => Raise(w.host, f, Moved(w.prog, vm, 0, Shrink(fr.(out := v.out), w.keep)))
  {
    hide GenExpr, T.EvalExpr, Bindings, Steps, Raise, At;
    assert vm.stack[..|fr.names|] == fr.vals;
    n := ExprRuns(w.host, w.prog, e, fr.names, line, p, k, vm, w.bt, w.ct);
    var v := Eval(w.host, e, line, fr);
    if v.result.Bad? {
      RaiseFrom(w.host, w.prog, v.result.fault, vm, w.keep, vm.(out := v.out), fr.(out := v.out));
    }
  }

  // ----- The claim, for a statement, a block, and a block with a scope -----

  ghost predicate StmtPre(w: Place, s: Stmt, fr: Frame, p: nat, k: nat, vm: Vm) {
    && Compilable(s, w.lp.Some?) && LoopFits(w.lp, fr.names)
    && var f := GenStmt(s, fr.names, w.top, w.lp, p, k);
       At(w.prog, p, k, f, w.bt, w.ct) && Stands(w, fr, vm, p, p + |f.code|)
  }

  ghost predicate StmtPost(w: Place, s: Stmt, fr: Frame, p: nat, k: nat, vm: Vm, n: nat)
    requires StmtPre(w, s, fr, p, k, vm)
  {
    Lands(w, vm, n, p + |GenStmt(s, fr.names, w.top, w.lp, p, k).code|,
          GlobalsAfterStmt(s, w.top, fr.names, vm.globals), Slots.ExecStmt(w.host, s, fr))
  }

  ghost predicate BlockPre(w: Place, ss: seq<Stmt>, fr: Frame, p: nat, k: nat, vm: Vm) {
    && CompilableAll(ss, w.lp.Some?) && LoopFits(w.lp, fr.names)
    && var f := GenBlock(ss, fr.names, w.top, w.lp, p, k);
       At(w.prog, p, k, f, w.bt, w.ct) && Stands(w, fr, vm, p, p + |f.code|)
  }

  ghost predicate BlockPost(w: Place, ss: seq<Stmt>, fr: Frame, p: nat, k: nat, vm: Vm, n: nat)
    requires BlockPre(w, ss, fr, p, k, vm)
  {
    Lands(w, vm, n, p + |GenBlock(ss, fr.names, w.top, w.lp, p, k).code|,
          GlobalsAfter(ss, w.top, fr.names, vm.globals), Slots.ExecBlock(w.host, ss, fr))
  }

  ghost predicate ScopedPre(w: Place, ss: seq<Stmt>, fr: Frame, line: nat, p: nat, k: nat, vm: Vm) {
    && CompilableAll(ss, w.lp.Some?) && LoopFits(w.lp, fr.names) && w.keep <= |fr.names| && !w.top
    && var f := GenScoped(ss, fr.names, w.keep, w.lp, line, p, k);
       At(w.prog, p, k, f, w.bt, w.ct) && Stands(w, fr, vm, p, p + |f.code|)
  }

  ghost predicate ScopedPost(w: Place, ss: seq<Stmt>, fr: Frame, line: nat, p: nat, k: nat, vm: Vm, n: nat)
    requires ScopedPre(w, ss, fr, line, p, k, vm)
  {
    Lands(w, vm, n, p + |GenScoped(ss, fr.names, w.keep, w.lp, line, p, k).code|,
          vm.globals, Slots.ExecScoped(w.host, ss, fr, w.keep))
  }

  // ----- Single instructions -----

  lemma GetLocalStep(host: Host, prog: Program, vm: Vm, slot: nat, line: nat)
    requires vm.ip < |prog.code| && prog.code[vm.ip] == Instr(GetLocal(slot), line) && slot < |vm.stack|
    ensures Steps(host, prog, Running(vm), 1) == Running(vm.(ip := vm.ip + 1, stack := vm.stack + [vm.stack[slot]]))
  {
    hide Steps, Raise;
    Advance(host, prog, vm, 0);
  }

  lemma PopStep(host: Host, prog: Program, vm: Vm, line: nat)
    requires vm.ip < |prog.code| && prog.code[vm.ip] == Instr(Pop, line) && vm.stack != []
    ensures Steps(host, prog, Running(vm), 1) == Running(vm.(ip := vm.ip + 1, stack := vm.stack[..|vm.stack| - 1]))
  {
    hide Steps, Raise;
    Advance(host, prog, vm, 0);
  }

  lemma SetLocalStep(host: Host, prog: Program, vm: Vm, slot: nat, line: nat)
    requires vm.ip < |prog.code| && prog.code[vm.ip] == Instr(SetLocal(slot), line) && slot < |vm.stack|
    ensures Steps(host, prog, Running(vm), 1) == Running(vm.(ip := vm.ip + 1, stack := vm.stack[slot := Top(vm)]))
  {
    hide Steps, Raise;
    Advance(host, prog, vm, 0);
  }

  lemma SetGlobalStep(host: Host, prog: Program, vm: Vm, name: string, line: nat, keep: nat)
    requires vm.ip < |prog.code| && prog.code[vm.ip] == Instr(SetGlobal(name), line)
    requires name !in vm.globals && vm.stack != [] && Shielded(vm.handlers, keep, vm.ip + 1)
    ensures Steps(host, prog, Running(vm), 1) == Raise(host, Fault(AssignUndefined(name), line), vm.(ip := vm.ip + 1))
  {
    hide Steps, Raise;
    Advance(host, prog, vm, keep);
  }

  // ----- Statements without a body -----

  lemma UnfoldLet(w: Place, s: Stmt, fr: Frame, p: nat, k: nat)
    requires s.Let? && Compilable(s, w.lp.Some?) && LoopFits(w.lp, fr.names) && fr.Valid()
    ensures var v := GenExpr(s.value, fr.names, s.line, p, k);
            GenStmt(s, fr.names, w.top, w.lp, p, k) ==
            if w.top then Cat(v, One(RegisterGlobal(s.name, |fr.names|), s.line)) else v
    ensures var v := Eval(w.host, s.value, s.line, fr);
            var fr' := fr.(out := v.out);
            Slots.ExecStmt(w.host, s, fr) ==
            if v.result.Bad? then SlotStep(T.Failing(v.result.fault), fr')
            else SlotStep(T.Normal, Declare(fr', s.name, v.result.value))
  {
    hide GenExpr, T.EvalExpr, Bindings;
  }

  lemma LetRuns(w: Place, s: Stmt, fr: Frame, p: nat, k: nat, vm: Vm) returns (n: nat)
    requires s.Let?
    requires StmtPre(w, s, fr, p, k, vm)
    ensures StmtPost(w, s, fr, p, k, vm, n)
  {
    hide GenStmt, GenExpr, Slots.ExecStmt, T.EvalExpr, Bindings, Steps, Raise, At, Dispatch, Compilable;
    UnfoldLet(w, s, fr, p, k);
    var f := GenExpr(s.value, fr.names, s.line, p, k);
    var at := p + |f.code|;
    if w.top {
      AtCat(w.prog, p, k, f, One(RegisterGlobal(s.name, |fr.names|), s.line), w.bt, w.ct);
      AtOne(w.prog, at, k + |f.consts|, RegisterGlobal(s.name, |fr.names|), s.line, w.bt, w.ct);
      ShieldedSooner(vm.handlers, w.keep, at, at + 1);
    }
    n := EvalRuns(w, s.value, s.line, fr, p, k, vm);
    var v := Eval(w.host, s.value, s.line, fr);
    if v.result.Good? && w.top {
      var vm1 := Pushed(vm, at, v.result.value, v.out);
      RegisterStep(w.host, w.prog, vm1, s.name, |fr.names|, s.line);
      Then(w.host, w.prog, Running(vm), n, Running(vm1), 1, Running(vm1.(ip := at + 1, globals := vm.globals[s.name := |fr.names|])));
      n := n + 1;
    }
  }

  lemma RegisterStep(host: Host, prog: Program, vm: Vm, name: string, slot: nat, line: nat)
    requires vm.ip < |prog.code| && prog.code[vm.ip] == Instr(RegisterGlobal(name, slot), line) && slot < |vm.stack|
    ensures Steps(host, prog, Running(vm), 1) == Running(vm.(ip := vm.ip + 1, globals := vm.globals[name := slot]))
  {
    hide Steps, Raise;
    Advance(host, prog, vm, 0);
  }

  lemma AssignRuns(w: Place, s: Stmt, fr: Frame, p: nat, k: nat, vm: Vm) returns (n: nat)
    requires s.Assign?
    requires StmtPre(w, s, fr, p, k, vm)
    ensures StmtPost(w, s, fr, p, k, vm, n)
  {
    hide GenExpr, T.EvalExpr, Bindings, Steps, Raise, At;
    var f := GenExpr(s.value, fr.names, s.line, p, k);
    var at := p + |f.code|;
    var slot := Resolve(fr.names, s.name);
    var store := if slot.Some? then SetLocal(slot.value) else SetGlobal(s.name);
    AtCat(w.prog, p, k, f, Cat(One(store, s.line), One(Pop, s.line)), w.bt, w.ct);
    AtCat(w.prog, at, k + |f.consts|, One(store, s.line), One(Pop, s.line), w.bt, w.ct);
    AtOne(w.prog, at, k + |f.consts|, store, s.line, w.bt, w.ct);
    AtOne(w.prog, at + 1, k + |f.consts|, Pop, s.line, w.bt, w.ct);
    n := EvalRuns(w, s.value, s.line, fr, p, k, vm);
    var v := Eval(w.host, s.value, s.line, fr);
    if v.result.Good? {
      var vm1 := Pushed(vm, at, v.result.value, v.out);
      var m := StoreRuns(w, fr, s.name, slot, v.result.value, v.out, s.line, vm, vm1);
      Then(w.host, w.prog, Running(vm), n, Running(vm1), m, Steps(w.host, w.prog, Running(vm1), m));
      n := n + m;
    }
  }

  /** `SetLocal` or `SetGlobal`, then `Pop`. The name of a `SetGlobal` is never registered. */
  lemma StoreRuns(w: Place, fr: Frame, name: string, slot: Option<nat>, v: Value, out: seq<string>, line: nat, vm: Vm, vm1: Vm)
    returns (m: nat)
    requires fr.Valid() && w.keep <= |fr.names| && vm == Moved(w.prog, vm, vm.ip, fr)
    requires GlobalsKnown(vm.globals, fr.names) && slot == Resolve(fr.names, name)
    requires vm1 == Pushed(vm, vm1.ip, v, out) && vm1.ip + 1 < |w.prog.code|
    requires Shielded(vm.handlers, w.keep, vm1.ip + 2)
    requires w.prog.code[vm1.ip] == Instr(if slot.Some? then SetLocal(slot.value) else SetGlobal(name), line)
    requires w.prog.code[vm1.ip + 1] == Instr(Pop, line)
    ensures Steps(w.host, w.prog, Running(vm1), m) ==
            match slot
            case Some(i) => Running(Moved(w.prog, vm, vm1.ip + 2, fr.(vals := fr.vals[i := v], out := out)))
            case None => Raise(w.host, Fault(AssignUndefined(name), line), Moved(w.prog, vm, 0, Shrink(fr.(out := out), w.keep)))
  {
    hide Bindings, Steps, Raise, Dispatch;
    match slot
    case Some(i) =>
      SetLocalStep(w.host, w.prog, vm1, i, line);
      var vm2 := vm1.(ip := vm1.ip + 1, stack := fr.vals[i := v] + [v]);
      assert vm1.stack[i := v] == vm2.stack;
      PopStep(w.host, w.prog, vm2, line);
      assert vm2.stack[..|vm2.stack| - 1] == fr.vals[i := v];
      Then(w.host, w.prog, Running(vm1), 1, Running(vm2), 1, Running(Moved(w.prog, vm, vm1.ip + 2, fr.(vals := fr.vals[i := v], out := out))));
      m := 2;
    case None =>
      SetGlobalStep(w.host, w.prog, vm1, name, line, w.keep);
      RaiseFrom(w.host, w.prog, Fault(AssignUndefined(name), line), vm, w.keep, vm1.(ip := vm1.ip + 1), fr.(out := out));
      m := 1;
  }

  lemma ExprStmtRuns(w: Place, s: Stmt, fr: Frame, p: nat, k: nat, vm: Vm) returns (n: nat)
    requires s.ExprStmt?
    requires StmtPre(w, s, fr, p, k, vm)
    ensures StmtPost(w, s, fr, p, k, vm, n)
  {
    hide GenExpr, T.EvalExpr, Bindings, Steps, Raise, At;
    var f := GenExpr(s.expr, fr.names, s.line, p, k);
    var at := p + |f.code|;
    AtCat(w.prog, p, k, f, One(Pop, s.line), w.bt, w.ct);
    AtOne(w.prog, at, k + |f.consts|, Pop, s.line, w.bt, w.ct);
    n := EvalRuns(w, s.expr, s.line, fr, p, k, vm);
    var v := Eval(w.host, s.expr, s.line, fr);
    if v.result.Good? {
      var vm1 := Pushed(vm, at, v.result.value, v.out);
      Advance(w.host, w.prog, vm1, w.keep);
      assert vm1.stack[..|vm1.stack| - 1] == fr.vals;
      Then(w.host, w.prog, Running(vm), n, Running(vm1), 1, Running(Moved(w.prog, vm, at + 1, fr.(out := v.out))));
      n := n + 1;
    }
  }

  lemma ReturnRuns(w: Place, s: Stmt, fr: Frame, p: nat, k: nat, vm: Vm) returns (n: nat)
    requires s.Return?
    requires StmtPre(w, s, fr, p, k, vm)
    ensures StmtPost(w, s, fr, p, k, vm, n)
  {
    hide GenExpr, T.EvalExpr, Bindings, Steps, Raise, At;
    var f := GenExpr(s.value, fr.names, s.line, p, k);
    var at := p + |f.code|;
    AtCat(w.prog, p, k, f, One(ReturnValue, s.line), w.bt, w.ct);
    AtOne(w.prog, at, k + |f.consts|, ReturnValue, s.line, w.bt, w.ct);
    n := EvalRuns(w, s.value, s.line, fr, p, k, vm);
    var v := Eval(w.host, s.value, s.line, fr);
    if v.result.Good? {
      var vm1 := Pushed(vm, at, v.result.value, v.out);
      Advance(w.host, w.prog, vm1, w.keep);
      Then(w.host, w.prog, Running(vm), n, Running(vm1), 1, Finished(fr.fuel, v.out));
      n := n + 1;
    }
  }

  // ----- break and continue -----

  /** The active handlers of the loop go, one instruction each. */
  lemma {:induction false} TeardownsRun(w: Place, d: nat, line: nat, p: nat, k: nat, vm: Vm)
    requires At(w.prog, p, k, Teardowns(d, line), w.bt, w.ct)
    requires vm.ip == p && d <= |vm.handlers|
    ensures Steps(w.host, w.prog, Running(vm), d) == Running(vm.(ip := p + d, handlers := vm.handlers[..|vm.handlers| - d]))
  {
    hide At, Step;
    if d > 0 {
      AtCat(w.prog, p, k, Teardowns(d - 1, line), One(TeardownTry, line), w.bt, w.ct);
      AtOne(w.prog, p + d - 1, k, TeardownTry, line, w.bt, w.ct);
      TeardownsRun(w, d - 1, line, p, k, vm);
      var vm1 := vm.(ip := p + d - 1, handlers := vm.handlers[..|vm.handlers| - (d - 1)]);
      Advance(w.host, w.prog, vm1, 0);
      assert vm1.handlers[..|vm1.handlers| - 1] == vm.handlers[..|vm.handlers| - d];
      Then(w.host, w.prog, Running(vm), d - 1, Running(vm1), 1, Running(vm.(ip := p + d, handlers := vm.handlers[..|vm.handlers| - d])));
    } else {
      assert vm.handlers[..|vm.handlers|] == vm.handlers;
    }
  }

  lemma PopSlotsRun(w: Place, fr: Frame, keep: nat, line: nat, p: nat, k: nat, vm: Vm) returns (n: nat)
    requires fr.Valid() && keep <= |fr.names|
    requires At(w.prog, p, k, PopSlots(|fr.names| - keep, line), w.bt, w.ct)
    requires vm == Moved(w.prog, vm, p, fr)
    ensures Steps(w.host, w.prog, Running(vm), n) ==
            Running(Moved(w.prog, vm, p + |PopSlots(|fr.names| - keep, line).code|, Shrink(fr, keep)))
  {
    hide At, Step;
    if |fr.names| == keep {
      n := 0;
      assert fr.vals[..keep] == fr.vals;
    } else {
      AtOne(w.prog, p, k, PopN(|fr.names| - keep), line, w.bt, w.ct);
      Advance(w.host, w.prog, vm, 0);
      n := 1;
    }
  }

  lemma UnwindRuns(w: Place, lp: LoopInfo, fr: Frame, line: nat, p: nat, k: nat, vm: Vm) returns (n: nat)
    requires fr.Valid() && lp.localsCount <= |fr.names| && lp.tryDepth <= |vm.handlers|
    requires At(w.prog, p, k, Unwind(fr.names, lp, line), w.bt, w.ct)
    requires vm == Moved(w.prog, vm, p, fr)
    ensures Steps(w.host, w.prog, Running(vm), n) ==
            Running(Moved(w.prog, Unwound(vm, lp), p + |Unwind(fr.names, lp, line).code|, Shrink(fr, lp.localsCount)))
  {
    hide At, Steps, Teardowns;
    AtCat(w.prog, p, k, Teardowns(lp.tryDepth, line), PopSlots(|fr.names| - lp.localsCount, line), w.bt, w.ct);
    TeardownsRun(w, lp.tryDepth, line, p, k, vm);
    var vm1 := Unwound(vm, lp).(ip := p + lp.tryDepth);
    var m := PopSlotsRun(w, fr, lp.localsCount, line, p + lp.tryDepth, k, vm1);
    Then(w.host, w.prog, Running(vm), lp.tryDepth, Running(vm1), m, Steps(w.host, w.prog, Running(vm1), m));
    n := lp.tryDepth + m;
  }

  /** A jump that waits for its target. */
  lemma AtSite(prog: Program, p: nat, k: nat, line: nat, isBreak: bool, bt: nat, ct: nat)
    requires At(prog, p, k, Frag([Instr(Jump(0), line)], [], if isBreak then [p] else [], if isBreak then [] else [p]), bt, ct)
    ensures p < |prog.code| && prog.code[p] == Instr(Jump(if isBreak then bt else ct), line)
  {
    var f := Frag([Instr(Jump(0), line)], [], if isBreak then [p] else [], if isBreak then [] else [p]);
    assert prog.code[p + 0] == Linked(f, p, 0, bt, ct);
  }

  lemma BreakRuns(w: Place, s: Stmt, fr: Frame, p: nat, k: nat, vm: Vm) returns (n: nat)
    requires s.Break?
    requires StmtPre(w, s, fr, p, k, vm)
    ensures StmtPost(w, s, fr, p, k, vm, n)
  {
    hide At, Steps, Teardowns, Raise;
    var lp := w.lp.value;
    var u := Unwind(fr.names, lp, s.line);
    var at := p + |u.code|;
    AtCat(w.prog, p, k, u, Frag([Instr(Jump(0), s.line)], [], [at], []), w.bt, w.ct);
    AtSite(w.prog, at, k + |u.consts|, s.line, true, w.bt, w.ct);
    n := UnwindRuns(w, lp, fr, s.line, p, k, vm);
    var vm1 := Moved(w.prog, Unwound(vm, lp), at, Shrink(fr, lp.localsCount));
    Advance(w.host, w.prog, vm1, 0);
    Then(w.host, w.prog, Running(vm), n, Running(vm1), 1, Running(vm1.(ip := w.bt)));
    n := n + 1;
  }

  lemma ContinueRuns(w: Place, s: Stmt, fr: Frame, p: nat, k: nat, vm: Vm) returns (n: nat)
    requires s.Continue?
    requires StmtPre(w, s, fr, p, k, vm)
    ensures StmtPost(w, s, fr, p, k, vm, n)
  {
    hide *;
    if ContinuesBack(w) {
      n := ContinueBackRuns(w, s, fr, p, k, vm);
    } else {
      n := ContinueForwardRuns(w, s, fr, p, k, vm);
    }
  }

  predicate ContinuesBack(w: Place) { w.lp.Some? && w.lp.value.resolved }

  lemma ContinueBackRuns(w: Place, s: Stmt, fr: Frame, p: nat, k: nat, vm: Vm) returns (n: nat)
    requires s.Continue? && ContinuesBack(w)
    requires StmtPre(w, s, fr, p, k, vm)
    ensures StmtPost(w, s, fr, p, k, vm, n)
  {
    hide At, Steps, Teardowns, Raise, Dispatch;
    var lp := w.lp.value;
    var u := Unwind(fr.names, lp, s.line);
    var at := p + |u.code|;
    AtCat(w.prog, p, k, u, One(Loop(lp.contTarget), lp.line), w.bt, w.ct);
    AtOne(w.prog, at, k + |u.consts|, Loop(lp.contTarget), lp.line, w.bt, w.ct);
    n := UnwindRuns(w, lp, fr, s.line, p, k, vm);
  }

  lemma ContinueForwardRuns(w: Place, s: Stmt, fr: Frame, p: nat, k: nat, vm: Vm) returns (n: nat)
    requires s.Continue? && !ContinuesBack(w)
    requires StmtPre(w, s, fr, p, k, vm)
    ensures StmtPost(w, s, fr, p, k, vm, n)
  {
    hide At, Steps, Teardowns, Raise;
    var lp := w.lp.value;
    var u := Unwind(fr.names, lp, s.line);
    var at := p + |u.code|;
    var vm1 := Moved(w.prog, Unwound(vm, lp), at, Shrink(fr, lp.localsCount));
    AtCat(w.prog, p, k, u, Frag([Instr(Jump(0), s.line)], [], [], [at]), w.bt, w.ct);
    AtSite(w.prog, at, k + |u.consts|, s.line, false, w.bt, w.ct);
    n := UnwindRuns(w, lp, fr, s.line, p, k, vm);
    Advance(w.host, w.prog, vm1, 0);
    Then(w.host, w.prog, Running(vm), n, Running(vm1), 1, Running(vm1.(ip := w.ct)));
    n := n + 1;
  }

  // ----- Index assignment -----

  lemma IndexAssignRuns(w: Place, s: Stmt, fr: Frame, p: nat, k: nat, vm: Vm) returns (n: nat)
    requires s.IndexAssign?
    requires StmtPre(w, s, fr, p, k, vm)
    ensures StmtPost(w, s, fr, p, k, vm, n)
  {
    hide GenExpr, T.EvalExpr, Bindings, Steps, Raise, At, AssignIndex, Dispatch;
    match Resolve(fr.names, s.name)
    case Some(slot) =>
      n := SlotAssignRuns(w, s, slot, fr, p, k, vm);
    case None =>
      n := NoSlotRuns(w, s, fr, p, k, vm);
  }

  /** Without a slot the name is not registered either, so the check in front of the operands raises. */
  lemma NoSlotRuns(w: Place, s: Stmt, fr: Frame, p: nat, k: nat, vm: Vm) returns (n: nat)
    requires s.IndexAssign? && Resolve(fr.names, s.name).None?
    requires StmtPre(w, s, fr, p, k, vm)
    ensures StmtPost(w, s, fr, p, k, vm, n)
  {
    hide GenExpr, T.EvalExpr, Bindings, Steps, Raise, At, AssignIndex, Dispatch;
    var check := One(RequireGlobal(s.name), s.line);
    var i := GenExpr(s.index, fr.names, s.line, p + 1, k);
    var v := GenExpr(s.value, fr.names, s.line, p + 1 + |i.code|, k + |i.consts|);
    AtCat(w.prog, p, k, Cat(Cat(check, i), v), One(SetIndex(GlobalTarget(s.name)), s.line), w.bt, w.ct);
    AtCat(w.prog, p, k, Cat(check, i), v, w.bt, w.ct);
    AtCat(w.prog, p, k, check, i, w.bt, w.ct);
    AtOne(w.prog, p, k, RequireGlobal(s.name), s.line, w.bt, w.ct);
    RequireStep(w, fr, s.name, s.line, vm);
    n := 1;
  }

  lemma RequireStep(w: Place, fr: Frame, name: string, line: nat, vm: Vm)
    requires fr.Valid() && w.keep <= |fr.names| && vm == Moved(w.prog, vm, vm.ip, fr) && name !in vm.globals
    requires vm.ip < |w.prog.code| && w.prog.code[vm.ip] == Instr(RequireGlobal(name), line)
    requires Shielded(vm.handlers, w.keep, vm.ip + 1)
    ensures Steps(w.host, w.prog, Running(vm), 1) ==
            Raise(w.host, Fault(UndefinedName(name), line), Moved(w.prog, vm, 0, Shrink(fr, w.keep)))
  {
    hide Steps, Raise, DispatchPlain, DispatchCollection, DispatchSetIndex, DispatchJump;
    Advance(w.host, w.prog, vm, w.keep);
    RaiseFrom(w.host, w.prog, Fault(UndefinedName(name), line), vm, w.keep, vm.(ip := vm.ip + 1), fr);
  }

  lemma UnfoldSlotAssign(w: Place, s: Stmt, slot: nat, fr: Frame, p: nat, k: nat)
    requires s.IndexAssign? && Resolve(fr.names, s.name) == Some(slot)
    requires Compilable(s, w.lp.Some?) && LoopFits(w.lp, fr.names) && fr.Valid()
    ensures var i := GenExpr(s.index, fr.names, s.line, p, k);
            var v := GenExpr(s.value, fr.names, s.line, p + |i.code|, k + |i.consts|);
            GenStmt(s, fr.names, w.top, w.lp, p, k) == Cat(Cat(i, v), One(SetIndex(LocalTarget(slot)), s.line))
    ensures Slots.ExecStmt(w.host, s, fr) == Slots.ExecIndexAssign(w.host, s.name, s.index, s.value, s.line, fr)
  {
    hide GenExpr, T.EvalExpr, Bindings, AssignIndex;
    var i := GenExpr(s.index, fr.names, s.line, p, k);
    assert Cat(EMPTY, i) == i;
  }

  lemma SlotAssignRuns(w: Place, s: Stmt, slot: nat, fr: Frame, p: nat, k: nat, vm: Vm) returns (n: nat)
    requires s.IndexAssign? && Resolve(fr.names, s.name) == Some(slot)
    requires StmtPre(w, s, fr, p, k, vm)
    ensures StmtPost(w, s, fr, p, k, vm, n)
  {
    hide GenStmt, GenExpr, Slots.ExecStmt, T.EvalExpr, Bindings, Steps, Raise, At, AssignIndex, Dispatch, Compilable;
    UnfoldSlotAssign(w, s, slot, fr, p, k);
    var i := GenExpr(s.index, fr.names, s.line, p, k);
    var mid := p + |i.code|;
    var v := GenExpr(s.value, fr.names, s.line, mid, k + |i.consts|);
    var at := mid + |v.code|;
    AtCat(w.prog, p, k, Cat(i, v), One(SetIndex(LocalTarget(slot)), s.line), w.bt, w.ct);
    AtCat(w.prog, p, k, i, v, w.bt, w.ct);
    AtOne(w.prog, at, k + |i.consts| + |v.consts|, SetIndex(LocalTarget(slot)), s.line, w.bt, w.ct);
    n := EvalRuns(w, s.index, s.line, fr, p, k, vm);
    var a := Eval(w.host, s.index, s.line, fr);
    if a.result.Good? {
      var vm1 := Pushed(vm, mid, a.result.value, a.out);
      PushedKeeps(fr.names, vm, mid, a.result.value, a.out);
      assert vm.stack[..|fr.names|] == fr.vals;
      var m := ExprRuns(w.host, w.prog, s.value, fr.names, s.line, mid, k + |i.consts|, vm1, w.bt, w.ct);
      var b := Eval(w.host, s.value, s.line, fr.(out := a.out));
      if b.result.Bad? {
        RaiseFrom(w.host, w.prog, b.result.fault, vm, w.keep, vm1.(out := b.out), fr.(out := b.out));
        Then(w.host, w.prog, Running(vm), n, Running(vm1), m, Steps(w.host, w.prog, Running(vm1), m));
        n := n + m;
      } else {
        var vm2 := Pushed(vm1, at, b.result.value, b.out);
        Then(w.host, w.prog, Running(vm), n, Running(vm1), m, Running(vm2));
        SetIndexStep(w, fr, slot, a.result.value, b.result.value, b.out, s.line, vm, vm2);
        Then(w.host, w.prog, Running(vm), n + m, Running(vm2), 1, Steps(w.host, w.prog, Running(vm2), 1));
        n := n + m + 1;
      }
    }
  }

  lemma SetIndexStep(w: Place, fr: Frame, slot: nat, i: Value, v: Value, out: seq<string>, line: nat, vm: Vm, vm2: Vm)
    requires fr.Valid() && w.keep <= |fr.names| && vm == Moved(w.prog, vm, vm.ip, fr) && slot < |fr.names|
    requires vm2 == vm.(ip := vm2.ip, stack := vm.stack + [i] + [v], out := out)
    requires vm2.ip < |w.prog.code| && w.prog.code[vm2.ip] == Instr(SetIndex(LocalTarget(slot)), line)
    requires Shielded(vm.handlers, w.keep, vm2.ip + 1)
    ensures Steps(w.host, w.prog, Running(vm2), 1) ==
            match AssignIndex(fr.vals[slot], i, v, line)
            case Good(x) => Running(Moved(w.prog, vm, vm2.ip + 1, fr.(vals := fr.vals[slot := x], out := out)))
            case Bad(f) => Raise(w.host, f, Moved(w.prog, vm, 0, Shrink(fr.(out := out), w.keep)))
  {
    hide Bindings, Steps, Raise, AssignIndex, DispatchPlain, Shrink;
    assert vm2.stack[..|vm2.stack| - 2] == fr.vals;
    Advance(w.host, w.prog, vm2, w.keep);
    var updated := AssignIndex(fr.vals[slot], i, v, line);
    if updated.Bad? {
      RaiseFrom(w.host, w.prog, updated.fault, vm, w.keep, Drop(vm2, 2).(ip := vm2.ip + 1), fr.(out := out));
    }
  }

  // ----- Blocks -----

  lemma ShrinkTwice(fr: Frame, m: nat, n: nat)
    requires fr.Valid() && n <= m <= |fr.names|
    ensures Shrink(Shrink(fr, m), n) == Shrink(fr, n)
  {
  }

  /** A landing seen with fewer kept slots, from the state before, or from another start registry. */
  lemma LandsFrom(w: Place, w': Place, vm: Vm, m: nat, vm': Vm, n: nat, end: nat, end': nat, globals: map<string, nat>, r: SlotStep)
    requires w'.host == w.host && w'.prog == w.prog && w'.lp == w.lp && w'.bt == w.bt && w'.ct == w.ct
    requires r.fr.Valid() && w.keep <= w'.keep <= |r.fr.names|
    requires Shielded(vm.handlers, w.keep, 0) && vm'.handlers == vm.handlers
    requires vm'.globals == vm.globals || (vm.handlers == [] && w.lp.None?)
    requires w.lp.Some? ==> w.lp.value.tryDepth <= |vm.handlers|
    requires Steps(w.host, w.prog, Running(vm), m) == Running(vm')
    requires Lands(w', vm', n, end', globals, r)
    requires r.flow.Normal? ==> end == end'
    ensures Lands(w, vm, m + n, end, globals, r)
  {
    hide Steps, Raise;
    Then(w.host, w.prog, Running(vm), m, Running(vm'), n, Steps(w.host, w.prog, Running(vm'), n));
    if r.flow.Failing? {
      RaiseFrom(w.host, w.prog, r.flow.fault, vm, w.keep, Moved(w.prog, vm', 0, Shrink(r.fr, w'.keep)), r.fr);
    }
  }

  lemma UnfoldBlock(w: Place, ss: seq<Stmt>, fr: Frame, p: nat, k: nat)
    requires ss != [] && CompilableAll(ss, w.lp.Some?) && LoopFits(w.lp, fr.names) && fr.Valid()
    ensures Compilable(ss[0], w.lp.Some?) && CompilableAll(ss[1..], w.lp.Some?)
    ensures var names' := NamesAfterStmt(ss[0], fr.names);
            var f := GenStmt(ss[0], fr.names, w.top, w.lp, p, k);
            && LoopFits(w.lp, names')
            && GenBlock(ss, fr.names, w.top, w.lp, p, k) ==
               Cat(f, GenBlock(ss[1..], names', w.top, w.lp, p + |f.code|, k + |f.consts|))
    ensures var r := Slots.ExecStmt(w.host, ss[0], fr);
            Slots.ExecBlock(w.host, ss, fr) == if r.flow.Normal? then Slots.ExecBlock(w.host, ss[1..], r.fr) else r
  {
    hide GenStmt, GenBlock, Slots.ExecStmt, Slots.ExecBlock, Cat, Compilable, CompilableAll, NamesAfterStmt, LoopFits;
    BlockCompiles(ss, w.lp, fr.names);
    UnfoldGenBlock(ss, fr.names, w.top, w.lp, p, k);
    UnfoldExecBlock(w, ss, fr);
  }

  lemma BlockCompiles(ss: seq<Stmt>, lp: Option<LoopInfo>, names: seq<string>)
    requires ss != [] && CompilableAll(ss, lp.Some?) && LoopFits(lp, names)
    ensures Compilable(ss[0], lp.Some?) && CompilableAll(ss[1..], lp.Some?)
    ensures LoopFits(lp, NamesAfterStmt(ss[0], names))
  {
    hide Compilable;
  }

  lemma UnfoldGenBlock(ss: seq<Stmt>, names: seq<string>, top: bool, lp: Option<LoopInfo>, p: nat, k: nat)
    requires ss != [] && CompilableAll(ss, lp.Some?) && LoopFits(lp, names)
    requires Compilable(ss[0], lp.Some?) && CompilableAll(ss[1..], lp.Some?)
    requires LoopFits(lp, NamesAfterStmt(ss[0], names))
    ensures var names' := NamesAfterStmt(ss[0], names);
            var f := GenStmt(ss[0], names, top, lp, p, k);
            GenBlock(ss, names, top, lp, p, k) == Cat(f, GenBlock(ss[1..], names', top, lp, p + |f.code|, k + |f.consts|))
  {
    hide GenStmt, Cat, Compilable, CompilableAll, NamesAfterStmt, LoopFits;
  }

  lemma UnfoldExecBlock(w: Place, ss: seq<Stmt>, fr: Frame)
    requires ss != [] && fr.Valid()
    ensures var r := Slots.ExecStmt(w.host, ss[0], fr);
            Slots.ExecBlock(w.host, ss, fr) == if r.flow.Normal? then Slots.ExecBlock(w.host, ss[1..], r.fr) else r
  {
    hide Slots.ExecStmt;
  }

  lemma {:induction false} BlockRuns(w: Place, ss: seq<Stmt>, fr: Frame, p: nat, k: nat, vm: Vm) returns (n: nat)
    requires BlockPre(w, ss, fr, p, k, vm)
    ensures BlockPost(w, ss, fr, p, k, vm, n)
    decreases fr.fuel, ss, 1
  {
    hide GenBlock, GenStmt, Slots.ExecStmt, Slots.ExecBlock, GlobalsAfter, Steps, Raise, At, Compilable, CompilableAll;
    if ss == [] {
      n := 0;
      UnfoldEmpty(w, fr, p, k, vm);
    } else {
      n := BlockStepRuns(w, ss, fr, p, k, vm);
    }
  }

  lemma {:induction false} BlockStepRuns(w: Place, ss: seq<Stmt>, fr: Frame, p: nat, k: nat, vm: Vm) returns (n: nat)
    requires ss != []
    requires BlockPre(w, ss, fr, p, k, vm)
    ensures BlockPost(w, ss, fr, p, k, vm, n)
    decreases fr.fuel, ss, 0
  {
    hide GenStmt, GenBlock, Slots.ExecStmt, Slots.ExecBlock, Steps, Raise, At, Compilable, CompilableAll;
    UnfoldBlock(w, ss, fr, p, k);
    var f := GenStmt(ss[0], fr.names, w.top, w.lp, p, k);
    var names' := NamesAfterStmt(ss[0], fr.names);
    var mid := p + |f.code|;
    var rest := GenBlock(ss[1..], names', w.top, w.lp, mid, k + |f.consts|);
    var end := mid + |rest.code|;
    AtCat(w.prog, p, k, f, rest, w.bt, w.ct);
    ShieldedSooner(vm.handlers, w.keep, mid, end);
    n := StmtRuns(w, ss[0], fr, p, k, vm);
    var r := Slots.ExecStmt(w.host, ss[0], fr);
    if r.flow.Normal? {
      var g := GlobalsAfterStmt(ss[0], w.top, fr.names, vm.globals);
      var vm1 := Moved(w.prog, vm, mid, r.fr).(globals := g);
      var m := BlockRuns(w, ss[1..], r.fr, mid, k + |f.consts|, vm1);
      LandsFrom(w, w, vm, n, vm1, m, end, end, GlobalsAfter(ss[1..], w.top, names', g), Slots.ExecBlock(w.host, ss[1..], r.fr));
      n := n + m;
    }
  }

  lemma UnfoldEmpty(w: Place, fr: Frame, p: nat, k: nat, vm: Vm)
    requires LoopFits(w.lp, fr.names) && fr.Valid()
    ensures GenBlock([], fr.names, w.top, w.lp, p, k) == EMPTY
    ensures Slots.ExecBlock(w.host, [], fr) == SlotStep(T.Normal, fr)
    ensures GlobalsAfter([], w.top, fr.names, vm.globals) == vm.globals
    ensures Steps(w.host, w.prog, Running(vm), 0) == Running(vm)
  {
  }

  lemma ShieldedSooner(handlers: seq<Handler>, depth: nat, sooner: nat, later: nat)
    requires Shielded(handlers, depth, later) && sooner <= later
    ensures forall deeper | depth <= deeper :: Shielded(handlers, deeper, sooner)
  {
  }

  lemma {:induction false} ScopedRuns(w: Place, ss: seq<Stmt>, fr: Frame, line: nat, p: nat, k: nat, vm: Vm) returns (n: nat)
    requires ScopedPre(w, ss, fr, line, p, k, vm)
    ensures ScopedPost(w, ss, fr, line, p, k, vm, n)
    decreases fr.fuel, ss, 2
  {
    hide GenBlock, Slots.ExecBlock, GlobalsAfter, Steps, Raise, At;
    var b := GenBlock(ss, fr.names, false, w.lp, p, k);
    var after := NamesAfter(ss, fr.names);
    var pop := PopSlots(|after| - w.keep, line);
    AtCat(w.prog, p, k, b, pop, w.bt, w.ct);
    ShieldedSooner(vm.handlers, w.keep, p + |b.code|, p + |b.code| + |pop.code|);
    NestedGlobals(ss, fr.names, vm.globals);
    n := BlockRuns(w, ss, fr, p, k, vm);
    var r := Slots.ExecBlock(w.host, ss, fr);
    match r.flow {
      case Normal =>
        var vm1 := Moved(w.prog, vm, p + |b.code|, r.fr);
        var m := PopSlotsRun(w, r.fr, w.keep, line, p + |b.code|, k + |b.consts|, vm1);
        Then(w.host, w.prog, Running(vm), n, Running(vm1), m, Steps(w.host, w.prog, Running(vm1), m));
        n := n + m;
      case Failing(_) => ShrinkTwice(r.fr, w.keep, w.keep);
      case Returning(_) =>
      case _ => ShrinkTwice(r.fr, w.keep, w.lp.value.localsCount);
    }
  }

  lemma {:induction false} NestedGlobals(ss: seq<Stmt>, names: seq<string>, globals: map<string, nat>)
    ensures GlobalsAfter(ss, false, names, globals) == globals
  {
    if ss != [] {
      NestedGlobals(ss[1..], NamesAfterStmt(ss[0], names), globals);
    }
  }

  // ----- if -----

  /** The place of a block one scope further in, with the same enclosing loop. */
  function Inner(w: Place, fr: Frame): Place { w.(keep := |fr.names|, top := false) }

  lemma UnfoldIf(w: Place, s: Stmt, fr: Frame, p: nat, k: nat)
    requires s.If? && Compilable(s, w.lp.Some?) && LoopFits(w.lp, fr.names) && fr.Valid()
    ensures CompilableAll(s.thenBody, w.lp.Some?) && CompilableAll(s.elseBody, w.lp.Some?)
    ensures GenStmt(s, fr.names, w.top, w.lp, p, k) == GenIf(s, fr.names, w.lp, p, k)
    ensures var v := Eval(w.host, s.cond, s.line, fr);
            var fr' := fr.(out := v.out);
            Slots.ExecStmt(w.host, s, fr) ==
            if v.result.Bad? then SlotStep(T.Failing(v.result.fault), fr')
            else Slots.ExecScoped(w.host, if Truthy(v.result.value) then s.thenBody else s.elseBody, fr', |fr.names|)
  {
    hide GenIf, Slots.ExecScoped, T.EvalExpr, Bindings;
  }

  /** The condition and the conditional jump in front of a branch. */
  lemma TestRuns(w: Place, cond: Expr, line: nat, target: nat, fr: Frame, p: nat, k: nat, vm: Vm) returns (n: nat)
    requires fr.Valid() && w.keep <= |fr.names| && vm == Moved(w.prog, vm, p, fr)
    requires GlobalsKnown(vm.globals, fr.names)
    requires At(w.prog, p, k, Cat(GenExpr(cond, fr.names, line, p, k), One(JumpIfFalse(target), line)), w.bt, w.ct)
    requires p + |GenExpr(cond, fr.names, line, p, k).code| < target
    requires Shielded(vm.handlers, w.keep, p + |GenExpr(cond, fr.names, line, p, k).code| + 1)
    ensures var v := Eval(w.host, cond, line, fr);
            var fr' := fr.(out := v.out);
            Steps(w.host, w.prog, Running(vm), n) ==
            match v.result
            case Good(x) =>
              Running(Moved(w.prog, vm, if Truthy(x) then p + |GenExpr(cond, fr.names, line, p, k).code| + 1 else target, fr'))
            case Bad(f) => Raise(w.host, f, Moved(w.prog, vm, 0, Shrink(fr', w.keep)))
  {
    hide GenExpr, T.EvalExpr, Bindings, Steps, Raise, At;
    var f := GenExpr(cond, fr.names, line, p, k);
    var at := p + |f.code|;
    AtCat(w.prog, p, k, f, One(JumpIfFalse(target), line), w.bt, w.ct);
    AtOne(w.prog, at, k + |f.consts|, JumpIfFalse(target), line, w.bt, w.ct);
    n := EvalRuns(w, cond, line, fr, p, k, vm);
    var v := Eval(w.host, cond, line, fr);
    if v.result.Good? {
      var vm1 := Pushed(vm, at, v.result.value, v.out);
      Advance(w.host, w.prog, vm1, w.keep);
      assert vm1.stack[..|vm1.stack| - 1] == fr.vals;
      Then(w.host, w.prog, Running(vm), n, Running(vm1), 1,
           Running(Moved(w.prog, vm, if Truthy(v.result.value) then at + 1 else target, fr.(out := v.out))));
      n := n + 1;
    }
  }

  lemma JumpRuns(w: Place, target: nat, line: nat, vm: Vm)
    requires vm.ip < |w.prog.code| && w.prog.code[vm.ip] == Instr(Jump(target), line) && vm.ip < target
    ensures Steps(w.host, w.prog, Running(vm), 1) == Running(vm.(ip := target))
  {
    Advance(w.host, w.prog, vm, 0);
  }

  /** A block in a scope of its own, entered after `m` steps; the loop around it stays the same. */
  lemma {:induction false} InnerRuns(w: Place, ss: seq<Stmt>, fr: Frame, line: nat, q: nat, k: nat, vm: Vm, m: nat) returns (n: nat)
    requires CompilableAll(ss, w.lp.Some?) && LoopFits(w.lp, fr.names)
    requires w.keep <= |fr.names|
    requires var f := GenScoped(ss, fr.names, |fr.names|, w.lp, line, q, k);
             && At(w.prog, q, k, f, w.bt, w.ct)
             && Stands(w, fr, Moved(w.prog, vm, q, fr), q, q + |f.code|)
    requires Steps(w.host, w.prog, Running(vm), m) == Running(Moved(w.prog, vm, q, fr))
    ensures Lands(w, vm, n, q + |GenScoped(ss, fr.names, |fr.names|, w.lp, line, q, k).code|, vm.globals,
                  Slots.ExecScoped(w.host, ss, fr, |fr.names|))
    decreases fr.fuel, ss, 3
  {
    hide GenScoped, Slots.ExecScoped, Steps, Raise, At;
    var end := q + |GenScoped(ss, fr.names, |fr.names|, w.lp, line, q, k).code|;
    var vm1 := Moved(w.prog, vm, q, fr);
    var j := ScopedRuns(Inner(w, fr), ss, fr, line, q, k, vm1);
    LandsFrom(w, Inner(w, fr), vm, m, vm1, j, end, end, vm.globals, Slots.ExecScoped(w.host, ss, fr, |fr.names|));
    n := m + j;
  }

  lemma EmptyScoped(host: Host, fr: Frame)
    requires fr.Valid()
    ensures Slots.ExecScoped(host, [], fr, |fr.names|) == SlotStep(T.Normal, fr)
  {
  }

  lemma {:induction false} IfRuns(w: Place, s: Stmt, fr: Frame, p: nat, k: nat, vm: Vm) returns (n: nat)
    requires s.If?
    requires StmtPre(w, s, fr, p, k, vm)
    ensures StmtPost(w, s, fr, p, k, vm, n)
    decreases fr.fuel, s, 1
  {
    hide GenStmt, GenScoped, GenExpr, Slots.ExecStmt, Slots.ExecScoped, T.EvalExpr, Bindings, Steps, Raise, At, Dispatch, Compilable, CompilableAll;
    if s.elseBody == [] {
      n := IfOnlyRuns(w, s, fr, p, k, vm);
    } else {
      n := IfElseRuns(w, s, fr, p, k, vm);
    }
  }

  lemma {:induction false} IfOnlyRuns(w: Place, s: Stmt, fr: Frame, p: nat, k: nat, vm: Vm) returns (n: nat)
    requires s.If? && s.elseBody == []
    requires StmtPre(w, s, fr, p, k, vm)
    ensures StmtPost(w, s, fr, p, k, vm, n)
    decreases fr.fuel, s, 0
  {
    hide GenStmt, GenScoped, GenExpr, Slots.ExecStmt, Slots.ExecScoped, T.EvalExpr, Bindings, Steps, Raise, At, Dispatch, Compilable, CompilableAll;
    UnfoldIf(w, s, fr, p, k);
    var c := GenExpr(s.cond, fr.names, s.line, p, k);
    var at := p + |c.code| + 1;
    var t := GenScoped(s.thenBody, fr.names, |fr.names|, w.lp, s.line, at, k + |c.consts|);
    var end := at + |t.code|;
    AtCat(w.prog, p, k, Cat(c, One(JumpIfFalse(end), s.line)), t, w.bt, w.ct);
    ShieldedSooner(vm.handlers, w.keep, at, end);
    n := TestRuns(w, s.cond, s.line, end, fr, p, k, vm);
    var v := Eval(w.host, s.cond, s.line, fr);
    if v.result.Good? {
      if Truthy(v.result.value) {
        n := InnerRuns(w, s.thenBody, fr.(out := v.out), s.line, at, k + |c.consts|, vm, n);
      } else {
        EmptyScoped(w.host, fr.(out := v.out));
      }
    }
  }

  /** Where the parts of an `if` with an `else` sit. */
  lemma AtIfElse(prog: Program, p: nat, k: nat, test: Frag, t: Frag, over: OpCode, line: nat, e: Frag, bt: nat, ct: nat)
    requires At(prog, p, k, Cat(Cat(test, t), Cat(One(over, line), e)), bt, ct)
    requires SitesIn(test, p) && SitesIn(t, p + |test.code|) && SitesIn(e, p + |test.code| + |t.code| + 1)
    ensures At(prog, p, k, test, bt, ct)
    ensures At(prog, p + |test.code|, k + |test.consts|, t, bt, ct)
    ensures p + |test.code| + |t.code| < |prog.code| && prog.code[p + |test.code| + |t.code|] == Instr(over, line)
    ensures At(prog, p + |test.code| + |t.code| + 1, k + |test.consts| + |t.consts|, e, bt, ct)
  {
    hide At;
    AtCat(prog, p, k, Cat(test, t), Cat(One(over, line), e), bt, ct);
    AtCat(prog, p, k, test, t, bt, ct);
    AtCat(prog, p + |test.code| + |t.code|, k + |test.consts| + |t.consts|, One(over, line), e, bt, ct);
    AtOne(prog, p + |test.code| + |t.code|, k + |test.consts| + |t.consts|, over, line, bt, ct);
  }

  lemma IfElseCode(s: Stmt, names: seq<string>, lp: Option<LoopInfo>, p: nat, k: nat)
    requires s.If? && s.elseBody != [] && Compilable(s, lp.Some?) && LoopFits(lp, names)
    ensures var c := GenExpr(s.cond, names, s.line, p, k);
            var at := p + |c.code| + 1;
            var t := GenScoped(s.thenBody, names, |names|, lp, s.line, at, k + |c.consts|);
            var e := GenScoped(s.elseBody, names, |names|, lp, s.line, at + |t.code| + 1, k + |c.consts| + |t.consts|);
            var end := at + |t.code| + 1 + |e.code|;
            var test := Cat(c, One(JumpIfFalse(at + |t.code| + 1), s.line));
            && GenIf(s, names, lp, p, k) == Cat(Cat(test, t), Cat(One(Jump(end), s.line), e))
            && p + |GenIf(s, names, lp, p, k).code| == end
            && |test.code| == |c.code| + 1 && |test.consts| == |c.consts| && SitesIn(test, p)
  {
    hide GenExpr, GenScoped, Cat, One, SitesIn;
    var c := GenExpr(s.cond, names, s.line, p, k);
    var at := p + |c.code| + 1;
    var t := GenScoped(s.thenBody, names, |names|, lp, s.line, at, k + |c.consts|);
    var e := GenScoped(s.elseBody, names, |names|, lp, s.line, at + |t.code| + 1, k + |c.consts| + |t.consts|);
    TestSizes(c, JumpIfFalse(at + |t.code| + 1), s.line, p);
    BranchSizes(Cat(c, One(JumpIfFalse(at + |t.code| + 1), s.line)), t, Jump(at + |t.code| + 1 + |e.code|), s.line, e);
  }

  lemma TestSizes(c: Frag, op: OpCode, line: nat, p: nat)
    requires NoSites(c)
    ensures var test := Cat(c, One(op, line));
            |test.code| == |c.code| + 1 && |test.consts| == |c.consts| && SitesIn(test, p)
  {
  }

  lemma BranchSizes(test: Frag, t: Frag, over: OpCode, line: nat, e: Frag)
    ensures |Cat(Cat(test, t), Cat(One(over, line), e)).code| == |test.code| + |t.code| + 1 + |e.code|
  {
  }

  lemma {:induction false} IfElseRuns(w: Place, s: Stmt, fr: Frame, p: nat, k: nat, vm: Vm) returns (n: nat)
    requires s.If? && s.elseBody != []
    requires StmtPre(w, s, fr, p, k, vm)
    ensures StmtPost(w, s, fr, p, k, vm, n)
    decreases fr.fuel, s, 0
  {
    hide GenStmt, GenScoped, GenExpr, Slots.ExecStmt, Slots.ExecScoped, T.EvalExpr, Bindings, Steps, Raise, At,
         Dispatch, Compilable, CompilableAll, Truthy, GenIf, Cat, One;
    UnfoldIf(w, s, fr, p, k);
    IfElseCode(s, fr.names, w.lp, p, k);
    var c := GenExpr(s.cond, fr.names, s.line, p, k);
    var at := p + |c.code| + 1;
    var t := GenScoped(s.thenBody, fr.names, |fr.names|, w.lp, s.line, at, k + |c.consts|);
    var afterThen := at + |t.code|;
    var k' := k + |c.consts| + |t.consts|;
    var e := GenScoped(s.elseBody, fr.names, |fr.names|, w.lp, s.line, afterThen + 1, k');
    var end := afterThen + 1 + |e.code|;
    AtIfElse(w.prog, p, k, Cat(c, One(JumpIfFalse(afterThen + 1), s.line)), t, Jump(end), s.line, e, w.bt, w.ct);
    ShieldedSooner(vm.handlers, w.keep, at, end);
    n := TestRuns(w, s.cond, s.line, afterThen + 1, fr, p, k, vm);
    var v := Eval(w.host, s.cond, s.line, fr);
    if v.result.Good? {
      if Truthy(v.result.value) {
        n := ThenRuns(w, s.thenBody, fr.(out := v.out), s.line, at, k + |c.consts|, end, vm, n);
      } else {
        n := InnerRuns(w, s.elseBody, fr.(out := v.out), s.line, afterThen + 1, k', vm, n);
      }
    }
  }

  /** The first branch, which jumps over the second when it ends normally. */
  lemma {:induction false} ThenRuns(w: Place, ss: seq<Stmt>, fr: Frame, line: nat, at: nat, k: nat, end: nat, vm: Vm, m: nat) returns (n: nat)
    requires CompilableAll(ss, w.lp.Some?) && LoopFits(w.lp, fr.names) && w.keep <= |fr.names|
    requires var t := GenScoped(ss, fr.names, |fr.names|, w.lp, line, at, k);
             var afterThen := at + |t.code|;
             && At(w.prog, at, k, t, w.bt, w.ct)
             && Stands(w, fr, Moved(w.prog, vm, at, fr), at, end)
             && afterThen < end && afterThen < |w.prog.code| && w.prog.code[afterThen] == Instr(Jump(end), line)
    requires Steps(w.host, w.prog, Running(vm), m) == Running(Moved(w.prog, vm, at, fr))
    ensures Lands(w, vm, n, end, vm.globals, Slots.ExecScoped(w.host, ss, fr, |fr.names|))
    decreases fr.fuel, ss, 4
  {
    hide GenScoped, Slots.ExecScoped, Steps, Raise, At, CompilableAll, Dispatch;
    var afterThen := at + |GenScoped(ss, fr.names, |fr.names|, w.lp, line, at, k).code|;
    ShieldedSooner(vm.handlers, w.keep, afterThen, end);
    n := InnerRuns(w, ss, fr, line, at, k, vm, m);
    n := JumpOver(w, vm, n, afterThen, end, line, Slots.ExecScoped(w.host, ss, fr, |fr.names|));
  }

  /** A branch that ended normally jumps over what follows it. */
  lemma JumpOver(w: Place, vm: Vm, m: nat, at: nat, end: nat, line: nat, r: SlotStep) returns (n: nat)
    requires w.lp.Some? ==> w.lp.value.tryDepth <= |vm.handlers|
    requires at < |w.prog.code| && w.prog.code[at] == Instr(Jump(end), line) && at < end
    requires Lands(w, vm, m, at, vm.globals, r)
    ensures Lands(w, vm, n, end, vm.globals, r)
  {
    hide Steps, Raise, Dispatch;
    n := m;
    if r.flow.Normal? {
      JumpRuns(w, end, line, Moved(w.prog, vm, at, r.fr));
      Then(w.host, w.prog, Running(vm), m, Running(Moved(w.prog, vm, at, r.fr)), 1, Running(Moved(w.prog, vm, end, r.fr)));
      n := m + 1;
    }
  }

  // ----- while -----

  /** A loop body, once its jumps know their targets. */
  lemma AtClosed(prog: Program, p: nat, k: nat, f: Frag, breakTo: nat, contTo: nat, bt: nat, ct: nat)
    requires At(prog, p, k, Closed(f, p, breakTo, contTo), bt, ct)
    ensures At(prog, p, k, f, breakTo, contTo)
  {
    var g := Closed(f, p, breakTo, contTo);
    forall i {:trigger Linked(f, p, i, breakTo, contTo)} | 0 <= i < |f.code|
      ensures prog.code[p + i] == Linked(f, p, i, breakTo, contTo)
    {
      assert prog.code[p + i] == Linked(g, p, i, bt, ct) == g.code[i];
    }
    forall i {:trigger f.consts[i]} | 0 <= i < |f.consts|
      ensures prog.constants[k + i] == f.consts[i]
    {
      assert g.consts[i] == f.consts[i];
    }
  }

  /** The back edge: one unit of fuel, and one tick of the watchdog, which never fires before the fuel
      is gone. */
  lemma LoopStep(w: Place, fr: Frame, start: nat, line: nat, vm: Vm)
    requires fr.Valid() && fr.fuel <= w.prog.totalFuel
    requires vm == Moved(w.prog, vm, vm.ip, fr)
    requires start <= vm.ip < |w.prog.code| && w.prog.code[vm.ip] == Instr(Loop(start), line)
    ensures Steps(w.host, w.prog, Running(vm), 1) ==
            if fr.fuel > 0 then Running(Moved(w.prog, vm, start, Slots.Charge(fr, line).fr))
            else Stopped(Fault(StepLimit, line), fr.fuel, fr.out)
  {
    hide Steps, Step;
    BackEdge(w.host, w.prog, start, line, vm);
  }

  lemma BackEdge(host: Host, prog: Program, start: nat, line: nat, vm: Vm)
    requires start <= vm.ip < |prog.code| && prog.code[vm.ip] == Instr(Loop(start), line)
    requires vm.ticks + 1 <= WatchdogLimit(prog)
    ensures Steps(host, prog, Running(vm), 1) ==
            if vm.fuel > 0 then Running(vm.(ip := start, fuel := vm.fuel - 1, ticks := vm.ticks + 1))
            else Stopped(Fault(StepLimit, line), vm.fuel, vm.out)
  {
    hide Dispatch, WatchdogLimit;
    LoopDispatch(host, prog, start, line, vm.(ip := vm.ip + 1));
    assert Steps(host, prog, Running(vm), 1) == Steps(host, prog, Step(host, prog, Running(vm)), 0);
  }

  lemma LoopDispatch(host: Host, prog: Program, start: nat, line: nat, vm: Vm)
    ensures Dispatch(host, prog, Instr(Loop(start), line), vm) ==
            if vm.fuel == 0 then Fails(StepLimit, vm) else Next(vm.(ip := start, fuel := vm.fuel - 1))
  {
  }

  lemma {:induction false} StmtRuns(w: Place, s: Stmt, fr: Frame, p: nat, k: nat, vm: Vm) returns (n: nat)
    requires StmtPre(w, s, fr, p, k, vm)
    ensures StmtPost(w, s, fr, p, k, vm, n)
    decreases fr.fuel, s, 2
  {
    hide *;
    match s
    case Let(_, _, _) => n := LetRuns(w, s, fr, p, k, vm);
    case Assign(_, _, _) => n := AssignRuns(w, s, fr, p, k, vm);
    case IndexAssign(_, _, _, _) => n := IndexAssignRuns(w, s, fr, p, k, vm);
    case ExprStmt(_, _) => n := ExprStmtRuns(w, s, fr, p, k, vm);
    case If(_, _, _, _) => n := IfRuns(w, s, fr, p, k, vm);
    case While(_, _, _) => n := WhileRuns(w, s, fr, p, k, vm);
    case For(_, _, _, _) => n := ForRuns(w, s, fr, p, k, vm);
    case Break(_) => n := BreakRuns(w, s, fr, p, k, vm);
    case Continue(_) => n := ContinueRuns(w, s, fr, p, k, vm);
    case TryCatch(_, _, _, _) => n := TryRuns(w, s, fr, p, k, vm);
    case Return(_, _) => n := ReturnRuns(w, s, fr, p, k, vm);
  }

  lemma UnfoldWhile(w: Place, s: Stmt, fr: Frame, p: nat, k: nat)
    requires s.While? && Compilable(s, w.lp.Some?) && LoopFits(w.lp, fr.names) && fr.Valid()
    ensures CompilableAll(s.body, true)
    ensures GenStmt(s, fr.names, w.top, w.lp, p, k) == GenWhile(s, fr.names, p, k)
    ensures Slots.ExecStmt(w.host, s, fr) == Slots.WhileLoop(w.host, s, fr)
  {
    hide GenWhile, Slots.WhileLoop;
  }

  lemma {:induction false} WhileRuns(w: Place, s: Stmt, fr: Frame, p: nat, k: nat, vm: Vm) returns (n: nat)
    requires s.While?
    requires StmtPre(w, s, fr, p, k, vm)
    ensures StmtPost(w, s, fr, p, k, vm, n)
    decreases fr.fuel, s, 1
  {
    hide GenStmt, GenWhile, Slots.ExecStmt, Slots.WhileLoop, Steps, Raise, At, Compilable, CompilableAll;
    UnfoldWhile(w, s, fr, p, k);
    n := WhileLoopRuns(w, s, fr, p, k, vm);
  }

  /** Where the parts of a `while` sit. */
  lemma AtWhile(prog: Program, p: nat, k: nat, test: Frag, b: Frag, exit: nat, line: nat, bt: nat, ct: nat)
    requires At(prog, p, k, Cat(Cat(test, Closed(b, p + |test.code|, exit, p)), One(Loop(p), line)), bt, ct)
    requires SitesIn(test, p)
    ensures At(prog, p, k, test, bt, ct)
    ensures At(prog, p + |test.code|, k + |test.consts|, b, exit, p)
    ensures var end := p + |test.code| + |b.code|; end < |prog.code| && prog.code[end] == Instr(Loop(p), line)
  {
    hide At;
    var at := p + |test.code|;
    var closed := Closed(b, at, exit, p);
    AtCat(prog, p, k, Cat(test, closed), One(Loop(p), line), bt, ct);
    AtCat(prog, p, k, test, closed, bt, ct);
    AtClosed(prog, at, k + |test.consts|, b, exit, p, bt, ct);
    AtOne(prog, at + |b.code|, k + |test.consts| + |b.consts|, Loop(p), line, bt, ct);
  }

  /** The place of the body of a `while` that starts at `p`. */
  function WhileBody(w: Place, s: Stmt, names: seq<string>, p: nat, exit: nat): Place
    requires s.While?
  {
    Place(w.host, w.prog, |names|, false, Some(WhileInfo(s, names, p)), exit, p)
  }

  lemma UnfoldWhileLoop(host: Host, s: Stmt, fr: Frame)
    requires s.While? && fr.Valid()
    ensures var v := Eval(host, s.cond, s.line, fr);
            var fr' := fr.(out := v.out);
            Slots.WhileLoop(host, s, fr) ==
            if v.result.Bad? then SlotStep(T.Failing(v.result.fault), fr')
            else if !Truthy(v.result.value) then SlotStep(T.Normal, fr')
            else AfterIteration(host, s, Slots.ExecScoped(host, s.body, fr', |fr.names|))
  {
    hide Slots.ExecScoped, T.EvalExpr, Bindings;
  }

  function AfterIteration(host: Host, s: Stmt, b: SlotStep): SlotStep
    requires s.While? && b.fr.Valid()
  {
    match b.flow
    case Breaking(_) => SlotStep(T.Normal, b.fr)
    case Returning(_) => b
    case Failing(_) => b
    case _ =>
      var c := Slots.Charge(b.fr, s.line);
      if c.flow.Normal? then Slots.WhileLoop(host, s, c.fr) else c
  }

  /** The body of a loop is over, one way or another. A normal end and `continue` both stand in front
      of a back edge. */
  lemma BodyOver(w: Place, wb: Place, info: LoopInfo, vm: Vm, n: nat, vm1: Vm, m: nat, end: nat, b: SlotStep) returns (ip: nat)
    requires wb == w.(keep := info.localsCount, top := false, lp := Some(info), bt := wb.bt, ct := wb.ct)
    requires info.tryDepth == 0 && b.fr.Valid() && |b.fr.names| == info.localsCount
    requires w.keep <= info.localsCount && Shielded(vm.handlers, w.keep, 0)
    requires vm1 == vm.(ip := vm1.ip, stack := vm1.stack, fuel := vm1.fuel, ticks := vm1.ticks, out := vm1.out)
    requires Steps(w.host, w.prog, Running(vm), n) == Running(vm1)
    requires Lands(wb, vm1, m, end, vm.globals, b)
    ensures var c := Steps(w.host, w.prog, Running(vm), n + m);
            match b.flow
            case Normal => ip == end && c == Running(Moved(w.prog, vm, ip, b.fr))
            case Continuing(_) => AtContinue(wb, info, ip) && c == Running(Moved(w.prog, vm, ip, b.fr))
            case Breaking(_) => ip == wb.bt && c == Running(Moved(w.prog, vm, ip, b.fr))
            case Returning(_) => c == Finished(b.fr.fuel, b.fr.out)
            case Failing(f) => c == Raise(w.host, f, Moved(w.prog, vm, 0, Shrink(b.fr, w.keep)))
  {
    hide Steps, Raise;
    var c := Steps(w.host, w.prog, Running(vm1), m);
    Then(w.host, w.prog, Running(vm), n, Running(vm1), m, c);
    ip := if c.Running? then c.vm.ip else 0;
    assert b.fr.vals[..info.localsCount] == b.fr.vals;
    assert b.fr.names[..info.localsCount] == b.fr.names;
    assert vm1.handlers[..|vm1.handlers| - 0] == vm1.handlers;
    if b.flow.Failing? {
      RaiseFrom(w.host, w.prog, b.flow.fault, vm, w.keep, Moved(w.prog, vm1, 0, Shrink(b.fr, info.localsCount)), b.fr);
    }
  }

  lemma {:induction false} WhileLoopRuns(w: Place, s: Stmt, fr: Frame, p: nat, k: nat, vm: Vm) returns (n: nat)
    requires s.While? && CompilableAll(s.body, true)
    requires At(w.prog, p, k, GenWhile(s, fr.names, p, k), w.bt, w.ct)
    requires Stands(w, fr, vm, p, p + |GenWhile(s, fr.names, p, k).code|)
    ensures Lands(w, vm, n, p + |GenWhile(s, fr.names, p, k).code|, vm.globals, Slots.WhileLoop(w.host, s, fr))
    decreases fr.fuel, s, 0, 1
  {
    hide GenScoped, GenExpr, Slots.ExecScoped, Slots.WhileLoop, AfterIteration, T.EvalExpr, Bindings, Steps, Raise, At, CompilableAll, Dispatch;
    UnfoldWhileLoop(w.host, s, fr);
    var c := GenExpr(s.cond, fr.names, s.line, p, k);
    var at := p + |c.code| + 1;
    var b := GenScoped(s.body, fr.names, |fr.names|, Some(WhileInfo(s, fr.names, p)), s.line, at, k + |c.consts|);
    var end := at + |b.code|;
    AtWhile(w.prog, p, k, Cat(c, One(JumpIfFalse(end + 1), s.line)), b, end + 1, s.line, w.bt, w.ct);
    ShieldedSooner(vm.handlers, w.keep, at, end + 1);
    n := TestRuns(w, s.cond, s.line, end + 1, fr, p, k, vm);
    var v := Eval(w.host, s.cond, s.line, fr);
    if v.result.Good? && Truthy(v.result.value) {
      var fr1 := fr.(out := v.out);
      var vm1 := Moved(w.prog, vm, at, fr1);
      ShieldedSooner(vm.handlers, w.keep, end, end + 1);
      var m := ScopedRuns(WhileBody(w, s, fr.names, p, end + 1), s.body, fr1, s.line, at, k + |c.consts|, vm1);
      n := IterationRuns(w, s, fr, p, k, vm, n, vm1, m, end, Slots.ExecScoped(w.host, s.body, fr1, |fr.names|));
    }
  }

  lemma {:induction false} IterationRuns(
    w: Place, s: Stmt, fr: Frame, p: nat, k: nat, vm: Vm, n: nat, vm1: Vm, m: nat, end: nat, b: SlotStep) returns (j: nat)
    requires s.While? && CompilableAll(s.body, true)
    requires At(w.prog, p, k, GenWhile(s, fr.names, p, k), w.bt, w.ct)
    requires p <= end && end + 1 == p + |GenWhile(s, fr.names, p, k).code|
    requires Stands(w, fr, vm, p, end + 1)
    requires end < |w.prog.code| && w.prog.code[end] == Instr(Loop(p), s.line)
    requires vm1 == vm.(ip := vm1.ip, stack := vm1.stack, fuel := vm1.fuel, ticks := vm1.ticks, out := vm1.out)
    requires Steps(w.host, w.prog, Running(vm), n) == Running(vm1)
    requires b.fr.Valid() && b.fr.names == fr.names && b.fr.fuel <= fr.fuel
    requires Lands(WhileBody(w, s, fr.names, p, end + 1), vm1, m, end, vm.globals, b)
    ensures Lands(w, vm, j, end + 1, vm.globals, AfterIteration(w.host, s, b))
    decreases fr.fuel, s, 0, 0
  {
    hide GenWhile, Slots.WhileLoop, Steps, Raise, At, CompilableAll, Dispatch;
    ShieldedSooner(vm.handlers, w.keep, 0, end + 1);
    var ip := BodyOver(w, WhileBody(w, s, fr.names, p, end + 1), WhileInfo(s, fr.names, p), vm, n, vm1, m, end, b);
    j := n + m;
    if b.flow.Normal? || b.flow.Continuing? {
      var vm2 := Moved(w.prog, vm, ip, b.fr);
      LoopStep(w, b.fr, p, s.line, vm2);
      Then(w.host, w.prog, Running(vm), j, Running(vm2), 1, Steps(w.host, w.prog, Running(vm2), 1));
      j := j + 1;
      if b.fr.fuel > 0 {
        var fr' := Slots.Charge(b.fr, s.line).fr;
        var vm3 := Moved(w.prog, vm, p, fr');
        var i := WhileLoopRuns(w, s, fr', p, k, vm3);
        LandsFrom(w, w, vm, j, vm3, i, end + 1, end + 1, vm.globals, Slots.WhileLoop(w.host, s, fr'));
        j := j + i;
      } else {
        RaiseTerminal(w.host, Fault(StepLimit, s.line), Moved(w.prog, vm, 0, Shrink(b.fr, w.keep)));
      }
    }
  }

  lemma RaiseTerminal(host: Host, f: Fault, vm: Vm)
    requires IsUncatchable(f.cause)
    ensures Raise(host, f, vm) == Stopped(f, vm.fuel, vm.out)
  {
  }

  // ----- for -----

  lemma UnfoldFor(w: Place, s: Stmt, fr: Frame, p: nat, k: nat)
    requires s.For? && Compilable(s, w.lp.Some?) && LoopFits(w.lp, fr.names) && fr.Valid()
    ensures CompilableAll(s.body, true)
    ensures GenStmt(s, fr.names, w.top, w.lp, p, k) == GenFor(s, fr.names, p, k)
    ensures var v := Eval(w.host, s.iter, s.line, fr);
            var fr' := fr.(out := v.out);
            Slots.ExecStmt(w.host, s, fr) ==
            if v.result.Bad? then SlotStep(T.Failing(v.result.fault), fr')
            else
              var items := IterItems(w.host, v.result.value, s.line);
              if items.Bad? then SlotStep(T.Failing(items.fault), fr')
              else
                var r := Slots.ForLoop(w.host, s, |fr.names|, Entered(fr', s.binder, items.value));
                r.(fr := Shrink(r.fr, |fr.names|))
  {
    hide GenFor, Slots.ForLoop, T.EvalExpr, Bindings;
  }

  function Entered(fr: Frame, binder: string, items: seq<Value>): Frame {
    Declare(Declare(Declare(fr, COLLECTION, VList(items)), INDEX, VInt(0)), binder, VNull)
  }

  /** Where the parts of a `for` sit. */
  lemma AtFor(prog: Program, p: nat, k: nat, it: Frag, enter: Frag, test: Frag, b: Frag, next: Frag, line: nat, exit: nat, inc: nat, bt: nat, ct: nat)
    requires NoSites(it) && NoSites(enter) && NoSites(test) && NoSites(next)
    requires var start := p + |it.code| + |enter.code| + |test.code|;
             At(prog, p, k, Cat(Cat(Cat(Cat(Cat(it, enter), test), Closed(b, start, exit, inc)), next), One(PopN(3), line)), bt, ct)
    ensures At(prog, p, k, it, bt, ct)
    ensures At(prog, p + |it.code|, k + |it.consts|, enter, bt, ct)
    ensures At(prog, p + |it.code| + |enter.code|, k + |it.consts| + |enter.consts|, test, bt, ct)
    ensures At(prog, p + |it.code| + |enter.code| + |test.code|, k + |it.consts| + |enter.consts| + |test.consts|, b, exit, inc)
    ensures At(prog, p + |it.code| + |enter.code| + |test.code| + |b.code|,
               k + |it.consts| + |enter.consts| + |test.consts| + |b.consts|, next, bt, ct)
    ensures var end := p + |it.code| + |enter.code| + |test.code| + |b.code| + |next.code|;
            end < |prog.code| && prog.code[end] == Instr(PopN(3), line)
  {
    hide At;
    var q1, k1 := p + |it.code|, k + |it.consts|;
    var q2, k2 := q1 + |enter.code|, k1 + |enter.consts|;
    var q3, k3 := q2 + |test.code|, k2 + |test.consts|;
    var closed := Closed(b, q3, exit, inc);
    var head := Cat(Cat(it, enter), test);
    AtCat(prog, p, k, Cat(Cat(head, closed), next), One(PopN(3), line), bt, ct);
    AtOne(prog, q3 + |b.code| + |next.code|, k3 + |b.consts| + |next.consts|, PopN(3), line, bt, ct);
    AtCat(prog, p, k, Cat(head, closed), next, bt, ct);
    AtCat(prog, p, k, head, closed, bt, ct);
    AtClosed(prog, q3, k3, b, exit, inc, bt, ct);
    AtCat(prog, p, k, Cat(it, enter), test, bt, ct);
    AtCat(prog, p, k, it, enter, bt, ct);
  }

  lemma AtForEnter(prog: Program, q: nat, k: nat, n: nat, line: nat, bt: nat, ct: nat)
    requires At(prog, q, k, ForEnter(n, line, k), bt, ct)
    ensures q + 3 <= |prog.code| && k + 2 <= |prog.constants|
    ensures prog.code[q] == Instr(ToIterList, line)
    ensures prog.code[q + 1] == Instr(LoadConst(k), line) && prog.constants[k] == VInt(0)
    ensures prog.code[q + 2] == Instr(LoadConst(k + 1), line) && prog.constants[k + 1] == VNull
  {
    hide At;
    AtCat(prog, q, k, Cat(One(ToIterList, line), Const(VInt(0), line, k)), Const(VNull, line, k + 1), bt, ct);
    AtCat(prog, q, k, One(ToIterList, line), Const(VInt(0), line, k), bt, ct);
    AtOne(prog, q, k, ToIterList, line, bt, ct);
    AtConst(prog, q + 1, k, VInt(0), line, k, bt, ct);
    AtConst(prog, q + 2, k + 1, VNull, line, k + 1, bt, ct);
  }

  lemma AtForTest(prog: Program, q: nat, k: nat, n: nat, exit: nat, line: nat, bt: nat, ct: nat)
    requires At(prog, q, k, ForTest(n, exit, line), bt, ct)
    ensures q + 7 <= |prog.code|
    ensures prog.code[q] == Instr(GetLocal(n + 1), line)
    ensures prog.code[q + 1] == Instr(LenLocal(n), line)
    ensures prog.code[q + 2] == Instr(OpCode.Lt, line)
    ensures prog.code[q + 3] == Instr(JumpIfFalse(exit), line)
    ensures prog.code[q + 4] == Instr(Pop, line)
    ensures prog.code[q + 5] == Instr(GetLocal(n + 1), line)
    ensures prog.code[q + 6] == Instr(IndexLocal(n), line)
  {
    var f := ForTest(n, exit, line);
    assert Linked(f, q, 0, bt, ct) == Instr(GetLocal(n + 1), line);
    assert Linked(f, q, 1, bt, ct) == Instr(LenLocal(n), line);
    assert Linked(f, q, 2, bt, ct) == Instr(OpCode.Lt, line);
    assert Linked(f, q, 3, bt, ct) == Instr(JumpIfFalse(exit), line);
    assert Linked(f, q, 4, bt, ct) == Instr(Pop, line);
    assert Linked(f, q, 5, bt, ct) == Instr(GetLocal(n + 1), line);
    assert Linked(f, q, 6, bt, ct) == Instr(IndexLocal(n), line);
  }

  lemma AtForNext(prog: Program, q: nat, k: nat, n: nat, start: nat, line: nat, bt: nat, ct: nat)
    requires At(prog, q, k, ForNext(n, start, line, k), bt, ct)
    ensures q + 6 <= |prog.code| && k < |prog.constants| && prog.constants[k] == VInt(1)
    ensures prog.code[q] == Instr(GetLocal(n + 1), line)
    ensures prog.code[q + 1] == Instr(LoadConst(k), line)
    ensures prog.code[q + 2] == Instr(OpCode.Add, line)
    ensures prog.code[q + 3] == Instr(SetLocal(n + 1), line)
    ensures prog.code[q + 4] == Instr(Pop, line)
    ensures prog.code[q + 5] == Instr(Loop(start), line)
  {
    var f := ForNext(n, start, line, k);
    assert Linked(f, q, 0, bt, ct) == Instr(GetLocal(n + 1), line);
    assert Linked(f, q, 1, bt, ct) == Instr(LoadConst(k), line);
    assert Linked(f, q, 2, bt, ct) == Instr(OpCode.Add, line);
    assert Linked(f, q, 3, bt, ct) == Instr(SetLocal(n + 1), line);
    assert Linked(f, q, 4, bt, ct) == Instr(Pop, line);
    assert Linked(f, q, 5, bt, ct) == Instr(Loop(start), line);
    assert f.consts[0] == VInt(1) && prog.constants[k + 0] == f.consts[0];
  }

  /** The iterated value becomes a list, and the three slots of the loop are set up. */
  lemma EnterRuns(w: Place, binder: string, fr: Frame, v: Value, line: nat, q: nat, k: nat, vm: Vm) returns (n: nat)
    requires fr.Valid() && w.keep <= |fr.names| && vm == Moved(w.prog, vm, vm.ip, fr)
    requires At(w.prog, q, k, ForEnter(|fr.names|, line, k), w.bt, w.ct)
    requires Shielded(vm.handlers, w.keep, q + 1)
    ensures Steps(w.host, w.prog, Running(Pushed(vm, q, v, fr.out)), n) ==
            match IterItems(w.host, v, line)
            case Good(items) => Running(Moved(w.prog, vm, q + 3, Entered(fr, binder, items)))
            case Bad(f) => Raise(w.host, f, Moved(w.prog, vm, 0, Shrink(fr, w.keep)))
  {
    hide At, Steps, Raise, IterItems;
    AtForEnter(w.prog, q, k, |fr.names|, line, w.bt, w.ct);
    var vm1 := Pushed(vm, q, v, fr.out);
    Advance(w.host, w.prog, vm1, w.keep);
    assert vm1.stack[..|vm1.stack| - 1] == fr.vals;
    var items := IterItems(w.host, v, line);
    n := 1;
    if items.Bad? {
      RaiseFrom(w.host, w.prog, items.fault, vm, w.keep, Drop(vm1, 1).(ip := q + 1), fr);
    } else {
      var vm2 := Pushed(vm, q + 1, VList(items.value), fr.out);
      ConstantsRun(w, vm2, k, line);
      Then(w.host, w.prog, Running(vm1), 1, Running(vm2), 2, Steps(w.host, w.prog, Running(vm2), 2));
      n := 3;
    }
  }

  lemma ConstantsRun(w: Place, vm: Vm, k: nat, line: nat)
    requires vm.ip + 2 <= |w.prog.code| && k + 2 <= |w.prog.constants|
    requires w.prog.code[vm.ip] == Instr(LoadConst(k), line) && w.prog.code[vm.ip + 1] == Instr(LoadConst(k + 1), line)
    ensures Steps(w.host, w.prog, Running(vm), 2) ==
            Running(vm.(ip := vm.ip + 2, stack := vm.stack + [w.prog.constants[k]] + [w.prog.constants[k + 1]]))
  {
    hide Steps, Raise;
    Advance(w.host, w.prog, vm, 0);
    var vm1 := vm.(ip := vm.ip + 1, stack := vm.stack + [w.prog.constants[k]]);
    Advance(w.host, w.prog, vm1, 0);
    Then(w.host, w.prog, Running(vm), 1, Running(vm1), 1, Steps(w.host, w.prog, Running(vm1), 1));
  }
  /** The counter is compared with the length of the list. */
  lemma CompareRuns(w: Place, n: nat, fr: Frame, exit: nat, line: nat, vm: Vm) returns (m: nat)
    requires fr.Valid() && n + 3 == |fr.names| && w.keep <= |fr.names| && vm == Moved(w.prog, vm, vm.ip, fr)
    requires vm.ip + 4 <= |w.prog.code| && vm.ip + 3 < exit
    requires w.prog.code[vm.ip] == Instr(GetLocal(n + 1), line)
    requires w.prog.code[vm.ip + 1] == Instr(LenLocal(n), line)
    requires w.prog.code[vm.ip + 2] == Instr(OpCode.Lt, line)
    requires w.prog.code[vm.ip + 3] == Instr(JumpIfFalse(exit), line)
    requires Shielded(vm.handlers, w.keep, vm.ip + 4)
    ensures var len := Len(fr.vals[n], line);
            var more := T.EvalComparison(BinOp.Lt, fr.vals[n + 1], if len.Good? then len.value else VNull, line);
            Steps(w.host, w.prog, Running(vm), m) ==
            if len.Bad? then Raise(w.host, len.fault, Moved(w.prog, vm, 0, Shrink(fr, w.keep)))
            else if more.Bad? then Raise(w.host, more.fault, Moved(w.prog, vm, 0, Shrink(fr, w.keep)))
            else Running(vm.(ip := if Truthy(more.value) then vm.ip + 4 else exit))
  {
    hide Steps, Raise, Dispatch, Len;
    var len := Len(fr.vals[n], line);
    LenRuns(w, n, fr, line, vm);
    m := 2;
    if len.Good? {
      var vm2 := vm.(ip := vm.ip + 2, stack := fr.vals + [fr.vals[n + 1]] + [len.value]);
      LessRuns(w, fr, fr.vals[n + 1], len.value, exit, line, vm, vm2);
      var j := if T.EvalComparison(BinOp.Lt, fr.vals[n + 1], len.value, line).Good? then 2 else 1;
      Then(w.host, w.prog, Running(vm), 2, Running(vm2), j, Steps(w.host, w.prog, Running(vm2), j));
      m := 2 + j;
    }
  }

  lemma LenRuns(w: Place, n: nat, fr: Frame, line: nat, vm: Vm)
    requires fr.Valid() && n + 3 == |fr.names| && w.keep <= |fr.names| && vm == Moved(w.prog, vm, vm.ip, fr)
    requires vm.ip + 2 <= |w.prog.code|
    requires w.prog.code[vm.ip] == Instr(GetLocal(n + 1), line)
    requires w.prog.code[vm.ip + 1] == Instr(LenLocal(n), line)
    requires Shielded(vm.handlers, w.keep, vm.ip + 2)
    ensures Steps(w.host, w.prog, Running(vm), 2) ==
            match Len(fr.vals[n], line)
            case Good(v) => Running(vm.(ip := vm.ip + 2, stack := fr.vals + [fr.vals[n + 1]] + [v]))
            case Bad(f) => Raise(w.host, f, Moved(w.prog, vm, 0, Shrink(fr, w.keep)))
  {
    hide Steps, Raise, Len, Dispatch;
    GetLocalStep(w.host, w.prog, vm, n + 1, line);
    var vm1 := vm.(ip := vm.ip + 1, stack := fr.vals + [fr.vals[n + 1]]);
    LenStep(w, n, fr, line, vm, vm1);
    Then(w.host, w.prog, Running(vm), 1, Running(vm1), 1, Steps(w.host, w.prog, Running(vm1), 1));
  }

  lemma LenStep(w: Place, n: nat, fr: Frame, line: nat, vm: Vm, vm1: Vm)
    requires fr.Valid() && n < |fr.names| && w.keep <= |fr.names| && vm == Moved(w.prog, vm, vm.ip, fr)
    requires |fr.vals| <= |vm1.stack| && vm1 == vm.(ip := vm1.ip, stack := fr.vals + vm1.stack[|fr.vals|..])
    requires vm1.ip < |w.prog.code| && w.prog.code[vm1.ip] == Instr(LenLocal(n), line)
    requires Shielded(vm.handlers, w.keep, vm1.ip + 1)
    ensures Steps(w.host, w.prog, Running(vm1), 1) ==
            match Len(fr.vals[n], line)
            case Good(v) => Running(vm1.(ip := vm1.ip + 1, stack := vm1.stack + [v]))
            case Bad(f) => Raise(w.host, f, Moved(w.prog, vm, 0, Shrink(fr, w.keep)))
  {
    hide Steps, Raise, Len;
    Advance(w.host, w.prog, vm1, w.keep);
    var len := Len(fr.vals[n], line);
    if len.Bad? {
      RaiseFrom(w.host, w.prog, len.fault, vm, w.keep, vm1.(ip := vm1.ip + 1), fr);
    }
  }

  lemma LessRuns(w: Place, fr: Frame, a: Value, b: Value, exit: nat, line: nat, vm: Vm, vm2: Vm)
    requires fr.Valid() && w.keep <= |fr.names| && vm == Moved(w.prog, vm, vm.ip, fr)
    requires vm2 == vm.(ip := vm2.ip, stack := fr.vals + [a] + [b])
    requires vm2.ip + 2 <= |w.prog.code| && vm2.ip + 1 < exit
    requires w.prog.code[vm2.ip] == Instr(OpCode.Lt, line)
    requires w.prog.code[vm2.ip + 1] == Instr(JumpIfFalse(exit), line)
    requires Shielded(vm.handlers, w.keep, vm2.ip + 2)
    ensures var more := T.EvalComparison(BinOp.Lt, a, b, line);
            && (more.Bad? ==> Steps(w.host, w.prog, Running(vm2), 1) == Raise(w.host, more.fault, Moved(w.prog, vm, 0, Shrink(fr, w.keep))))
            && (more.Good? ==> Steps(w.host, w.prog, Running(vm2), 2) == Running(vm.(ip := if Truthy(more.value) then vm2.ip + 2 else exit)))
  {
    hide Steps, Raise, DispatchCollection, DispatchGlobal, Truthy;
    Advance(w.host, w.prog, vm2, w.keep);
    assert vm2.stack[..|vm2.stack| - 2] == fr.vals;
    var more := T.EvalComparison(BinOp.Lt, a, b, line);
    if more.Bad? {
      RaiseFrom(w.host, w.prog, more.fault, vm, w.keep, vm2.(ip := vm2.ip + 1, stack := fr.vals), fr);
    } else {
      var vm3 := vm.(ip := vm2.ip + 1, stack := fr.vals + [more.value]);
      Advance(w.host, w.prog, vm3, w.keep);
      assert vm3.stack[..|vm3.stack| - 1] == fr.vals;
      Then(w.host, w.prog, Running(vm2), 1, Running(vm3), 1, Steps(w.host, w.prog, Running(vm3), 1));
    }
  }

  /** The old value of the loop variable goes, the next element comes. */
  lemma FetchRuns(w: Place, n: nat, fr: Frame, line: nat, vm: Vm)
    requires fr.Valid() && n + 3 == |fr.names| && w.keep <= n && vm == Moved(w.prog, vm, vm.ip, fr)
    requires vm.ip + 3 <= |w.prog.code|
    requires w.prog.code[vm.ip] == Instr(Pop, line)
    requires w.prog.code[vm.ip + 1] == Instr(GetLocal(n + 1), line)
    requires w.prog.code[vm.ip + 2] == Instr(IndexLocal(n), line)
    requires Shielded(vm.handlers, w.keep, vm.ip + 3)
    ensures Steps(w.host, w.prog, Running(vm), 3) ==
            match EvalIndex(w.host, fr.vals[n], fr.vals[n + 1], line)
            case Good(v) => Running(vm.(ip := vm.ip + 3, stack := fr.vals[n + 2 := v]))
            case Bad(f) => Raise(w.host, f, Moved(w.prog, vm, 0, Shrink(fr, w.keep)))
  {
    hide Steps, Raise, EvalIndex, Dispatch;
    var base := fr.vals[..n + 2];
    PopStep(w.host, w.prog, vm, line);
    var vm1 := vm.(ip := vm.ip + 1, stack := base);
    GetLocalStep(w.host, w.prog, vm1, n + 1, line);
    var vm2 := vm.(ip := vm.ip + 2, stack := base + [fr.vals[n + 1]]);
    Then(w.host, w.prog, Running(vm), 1, Running(vm1), 1, Running(vm2));
    ElementStep(w, n, fr, line, vm, vm2);
    Then(w.host, w.prog, Running(vm), 2, Running(vm2), 1, Steps(w.host, w.prog, Running(vm2), 1));
  }

  lemma ElementStep(w: Place, n: nat, fr: Frame, line: nat, vm: Vm, vm2: Vm)
    requires fr.Valid() && n + 3 == |fr.names| && w.keep <= n && vm == Moved(w.prog, vm, vm.ip, fr)
    requires vm2 == vm.(ip := vm2.ip, stack := fr.vals[..n + 2] + [fr.vals[n + 1]])
    requires vm2.ip < |w.prog.code| && w.prog.code[vm2.ip] == Instr(IndexLocal(n), line)
    requires Shielded(vm.handlers, w.keep, vm2.ip + 1)
    ensures Steps(w.host, w.prog, Running(vm2), 1) ==
            match EvalIndex(w.host, fr.vals[n], fr.vals[n + 1], line)
            case Good(v) => Running(vm.(ip := vm2.ip + 1, stack := fr.vals[n + 2 := v]))
            case Bad(f) => Raise(w.host, f, Moved(w.prog, vm, 0, Shrink(fr, w.keep)))
  {
    hide Steps, Raise, EvalIndex;
    var base := fr.vals[..n + 2];
    Advance(w.host, w.prog, vm2, w.keep);
    assert vm2.stack[..|vm2.stack| - 1] == base;
    var item := EvalIndex(w.host, fr.vals[n], fr.vals[n + 1], line);
    if item.Bad? {
      RaiseFrom(w.host, w.prog, item.fault, vm, w.keep, vm2.(ip := vm2.ip + 1, stack := base), fr);
    } else {
      assert base + [item.value] == fr.vals[n + 2 := item.value];
    }
  }

  /** The counter goes up by one. */
  lemma CountRuns(w: Place, n: nat, fr: Frame, k: nat, line: nat, vm: Vm) returns (m: nat)
    requires fr.Valid() && n + 3 == |fr.names| && w.keep <= |fr.names| && vm == Moved(w.prog, vm, vm.ip, fr)
    requires vm.ip + 5 <= |w.prog.code| && k < |w.prog.constants| && w.prog.constants[k] == VInt(1)
    requires w.prog.code[vm.ip] == Instr(GetLocal(n + 1), line)
    requires w.prog.code[vm.ip + 1] == Instr(LoadConst(k), line)
    requires w.prog.code[vm.ip + 2] == Instr(OpCode.Add, line)
    requires w.prog.code[vm.ip + 3] == Instr(SetLocal(n + 1), line)
    requires w.prog.code[vm.ip + 4] == Instr(Pop, line)
    requires Shielded(vm.handlers, w.keep, vm.ip + 5)
    ensures Steps(w.host, w.prog, Running(vm), m) ==
            match T.EvalArithmetic(BinOp.Add, fr.vals[n + 1], VInt(1), line)
            case Good(v) => Running(vm.(ip := vm.ip + 5, stack := fr.vals[n + 1 := v]))
            case Bad(f) => Raise(w.host, f, Moved(w.prog, vm, 0, Shrink(fr, w.keep)))
  {
    hide Steps, Raise, T.EvalArithmetic, Dispatch;
    SumRuns(w, n, fr, k, line, vm);
    m := 3;
    var next := T.EvalArithmetic(BinOp.Add, fr.vals[n + 1], VInt(1), line);
    if next.Good? {
      var vm3 := vm.(ip := vm.ip + 3, stack := fr.vals + [next.value]);
      KeepRuns(w, n, fr, next.value, line, vm, vm3);
      Then(w.host, w.prog, Running(vm), 3, Running(vm3), 2, Steps(w.host, w.prog, Running(vm3), 2));
      m := 5;
    }
  }

  lemma SumRuns(w: Place, n: nat, fr: Frame, k: nat, line: nat, vm: Vm)
    requires fr.Valid() && n + 3 == |fr.names| && w.keep <= |fr.names| && vm == Moved(w.prog, vm, vm.ip, fr)
    requires vm.ip + 3 <= |w.prog.code| && k < |w.prog.constants| && w.prog.constants[k] == VInt(1)
    requires w.prog.code[vm.ip] == Instr(GetLocal(n + 1), line)
    requires w.prog.code[vm.ip + 1] == Instr(LoadConst(k), line)
    requires w.prog.code[vm.ip + 2] == Instr(OpCode.Add, line)
    requires Shielded(vm.handlers, w.keep, vm.ip + 3)
    ensures Steps(w.host, w.prog, Running(vm), 3) ==
            match T.EvalArithmetic(BinOp.Add, fr.vals[n + 1], VInt(1), line)
            case Good(v) => Running(vm.(ip := vm.ip + 3, stack := fr.vals + [v]))
            case Bad(f) => Raise(w.host, f, Moved(w.prog, vm, 0, Shrink(fr, w.keep)))
  {
    hide Steps, Raise, Dispatch;
    GetLocalStep(w.host, w.prog, vm, n + 1, line);
    var vm1 := vm.(ip := vm.ip + 1, stack := fr.vals + [fr.vals[n + 1]]);
    LoadStep(w.host, w.prog, vm1, k, line);
    var vm2 := vm.(ip := vm.ip + 2, stack := fr.vals + [fr.vals[n + 1]] + [VInt(1)]);
    Then(w.host, w.prog, Running(vm), 1, Running(vm1), 1, Running(vm2));
    AddStep(w, fr, fr.vals[n + 1], VInt(1), line, vm, vm2);
    Then(w.host, w.prog, Running(vm), 2, Running(vm2), 1, Steps(w.host, w.prog, Running(vm2), 1));
  }

  lemma LoadStep(host: Host, prog: Program, vm: Vm, k: nat, line: nat)
    requires vm.ip < |prog.code| && prog.code[vm.ip] == Instr(LoadConst(k), line) && k < |prog.constants|
    ensures Steps(host, prog, Running(vm), 1) == Running(vm.(ip := vm.ip + 1, stack := vm.stack + [prog.constants[k]]))
  {
    hide Steps, Raise;
    Advance(host, prog, vm, 0);
  }

  lemma AddStep(w: Place, fr: Frame, a: Value, b: Value, line: nat, vm: Vm, vm2: Vm)
    requires fr.Valid() && w.keep <= |fr.names| && vm == Moved(w.prog, vm, vm.ip, fr)
    requires vm2 == vm.(ip := vm2.ip, stack := fr.vals + [a] + [b])
    requires vm2.ip < |w.prog.code| && w.prog.code[vm2.ip] == Instr(OpCode.Add, line)
    requires Shielded(vm.handlers, w.keep, vm2.ip + 1)
    ensures Steps(w.host, w.prog, Running(vm2), 1) ==
            match T.EvalArithmetic(BinOp.Add, a, b, line)
            case Good(v) => Running(vm.(ip := vm2.ip + 1, stack := fr.vals + [v]))
            case Bad(f) => Raise(w.host, f, Moved(w.prog, vm, 0, Shrink(fr, w.keep)))
  {
    hide Steps, Raise;
    Advance(w.host, w.prog, vm2, w.keep);
    assert vm2.stack[..|vm2.stack| - 2] == fr.vals;
    var next := T.EvalArithmetic(BinOp.Add, a, b, line);
    if next.Bad? {
      RaiseFrom(w.host, w.prog, next.fault, vm, w.keep, vm2.(ip := vm2.ip + 1, stack := fr.vals), fr);
    }
  }

  lemma KeepRuns(w: Place, n: nat, fr: Frame, v: Value, line: nat, vm: Vm, vm3: Vm)
    requires fr.Valid() && n + 3 == |fr.names| && vm == Moved(w.prog, vm, vm.ip, fr)
    requires vm3 == vm.(ip := vm3.ip, stack := fr.vals + [v])
    requires vm3.ip + 2 <= |w.prog.code|
    requires w.prog.code[vm3.ip] == Instr(SetLocal(n + 1), line)
    requires w.prog.code[vm3.ip + 1] == Instr(Pop, line)
    ensures Steps(w.host, w.prog, Running(vm3), 2) == Running(vm.(ip := vm3.ip + 2, stack := fr.vals[n + 1 := v]))
  {
    hide Steps, Raise, Dispatch;
    SetLocalStep(w.host, w.prog, vm3, n + 1, line);
    var vm4 := vm.(ip := vm3.ip + 1, stack := fr.vals[n + 1 := v] + [v]);
    assert vm3.stack[n + 1 := v] == vm4.stack;
    PopStep(w.host, w.prog, vm4, line);
    assert vm4.stack[..|vm4.stack| - 1] == fr.vals[n + 1 := v];
    Then(w.host, w.prog, Running(vm3), 1, Running(vm4), 1, Steps(w.host, w.prog, Running(vm4), 1));
  }

  /** The loop head: leave the loop, or put the next element into the loop variable. */
  lemma HeadRuns(w: Place, n: nat, fr: Frame, exit: nat, k: nat, line: nat, vm: Vm) returns (m: nat)
    requires fr.Valid() && n + 3 == |fr.names| && w.keep <= n && vm == Moved(w.prog, vm, vm.ip, fr)
    requires At(w.prog, vm.ip, k, ForTest(n, exit, line), w.bt, w.ct) && vm.ip + 7 <= exit
    requires Shielded(vm.handlers, w.keep, vm.ip + 7)
    ensures Steps(w.host, w.prog, Running(vm), m) ==
            match Slots.ForHead(w.host, n, line, fr)
            case Good(None) => Running(vm.(ip := exit))
            case Good(Some(v)) => Running(Moved(w.prog, vm, vm.ip + 7, fr.(vals := fr.vals[n + 2 := v])))
            case Bad(f) => Raise(w.host, f, Moved(w.prog, vm, 0, Shrink(fr, w.keep)))
  {
    hide Steps, Raise, At, Dispatch, Len, EvalIndex, ForTest, T.EvalComparison;
    AtForTest(w.prog, vm.ip, k, n, exit, line, w.bt, w.ct);
    ShieldedSooner(vm.handlers, w.keep, vm.ip + 4, vm.ip + 7);
    m := CompareRuns(w, n, fr, exit, line, vm);
    var len := Len(fr.vals[n], line);
    if len.Good? {
      var more := T.EvalComparison(BinOp.Lt, fr.vals[n + 1], len.value, line);
      if more.Good? && Truthy(more.value) {
        var vm4 := vm.(ip := vm.ip + 4);
        FetchRuns(w, n, fr, line, vm4);
        Then(w.host, w.prog, Running(vm), m, Running(vm4), 3, Steps(w.host, w.prog, Running(vm4), 3));
        m := m + 3;
      }
    }
  }

  /** Where the parts of the loop of a `for` sit; `names` are the slots outside the loop. */
  ghost predicate ForPlaced(w: Place, s: Stmt, names: seq<string>, start: nat, k: nat)
    requires s.For? && CompilableAll(s.body, true)
  {
    var n := |names|;
    var b := GenScoped(s.body, ForNames(s, names), n + 3, Some(ForInfo(s, names)), s.line, start + 7, k);
    var inc := start + 7 + |b.code|;
    && At(w.prog, start, k, ForTest(n, inc + 6, s.line), w.bt, w.ct)
    && At(w.prog, start + 7, k, b, inc + 6, inc)
    && At(w.prog, inc, k + |b.consts|, ForNext(n, start, s.line, k + |b.consts|), w.bt, w.ct)
  }

  function ForIncrement(s: Stmt, names: seq<string>, start: nat, k: nat): nat
    requires s.For? && CompilableAll(s.body, true)
  {
    start + 7 + |GenScoped(s.body, ForNames(s, names), |names| + 3, Some(ForInfo(s, names)), s.line, start + 7, k).code|
  }

  function ForBody(w: Place, s: Stmt, names: seq<string>, inc: nat): Place
    requires s.For?
  {
    Place(w.host, w.prog, |names| + 3, false, Some(ForInfo(s, names)), inc + 6, inc)
  }

  function AfterForIteration(host: Host, s: Stmt, n: nat, b: SlotStep): SlotStep
    requires s.For? && b.fr.Valid() && n + 3 == |b.fr.names|
  {
    match b.flow
    case Breaking(_) => SlotStep(T.Normal, b.fr)
    case Returning(_) => b
    case Failing(_) => b
    case _ =>
      var next := T.EvalArithmetic(BinOp.Add, b.fr.vals[n + 1], VInt(1), s.line);
      if next.Bad? then SlotStep(T.Failing(next.fault), b.fr)
      else
        var c := Slots.Charge(b.fr.(vals := b.fr.vals[n + 1 := next.value]), s.line);
        if c.flow.Normal? then Slots.ForLoop(host, s, n, c.fr) else c
  }

  lemma UnfoldForLoop(host: Host, s: Stmt, n: nat, fr: Frame)
    requires s.For? && fr.Valid() && n + 3 == |fr.names|
    ensures var head := Slots.ForHead(host, n, s.line, fr);
            Slots.ForLoop(host, s, n, fr) ==
            if head.Bad? then SlotStep(T.Failing(head.fault), fr)
            else if head.value.None? then SlotStep(T.Normal, fr)
            else AfterForIteration(host, s, n, Slots.ExecScoped(host, s.body, fr.(vals := fr.vals[n + 2 := head.value.value]), n + 3))
  {
    hide Slots.ExecScoped, Slots.ForHead, T.EvalArithmetic;
  }

  lemma {:induction false} ForLoopRuns(w: Place, s: Stmt, names: seq<string>, fr: Frame, start: nat, k: nat, vm: Vm) returns (m: nat)
    requires s.For? && CompilableAll(s.body, true) && ForPlaced(w, s, names, start, k)
    requires fr.Valid() && fr.names == ForNames(s, names) && fr.fuel <= w.prog.totalFuel && w.keep <= |names|
    requires vm == Moved(w.prog, vm, start, fr) && GlobalsKnown(vm.globals, fr.names)
    requires Shielded(vm.handlers, w.keep, ForIncrement(s, names, start, k) + 6)
    requires w.lp.Some? ==> w.lp.value.tryDepth <= |vm.handlers|
    ensures Lands(w, vm, m, ForIncrement(s, names, start, k) + 6, vm.globals, Slots.ForLoop(w.host, s, |names|, fr))
    decreases fr.fuel, s, 0, 2
  {
    hide GenScoped, Slots.ExecScoped, Slots.ForLoop, Slots.ForHead, AfterForIteration, Steps, Raise, At, CompilableAll, Dispatch, ForTest, ForNext;
    var n := |names|;
    UnfoldForLoop(w.host, s, n, fr);
    var inc := ForIncrement(s, names, start, k);
    ShieldedSooner(vm.handlers, w.keep, start + 7, inc + 6);
    m := HeadRuns(w, n, fr, inc + 6, k, s.line, vm);
    var head := Slots.ForHead(w.host, n, s.line, fr);
    if head.Good? && head.value.Some? {
      var fr1 := fr.(vals := fr.vals[n + 2 := head.value.value]);
      var vm1 := Moved(w.prog, vm, start + 7, fr1);
      ShieldedSooner(vm.handlers, w.keep, inc, inc + 6);
      var j := ScopedRuns(ForBody(w, s, names, inc), s.body, fr1, s.line, start + 7, k, vm1);
      m := ForIterationRuns(w, s, names, fr, start, k, vm, m, vm1, j, inc, Slots.ExecScoped(w.host, s.body, fr1, n + 3));
    }
  }

  lemma {:induction false} ForIterationRuns(
    w: Place, s: Stmt, names: seq<string>, fr: Frame, start: nat, k: nat, vm: Vm, m: nat, vm1: Vm, j: nat, inc: nat, b: SlotStep)
    returns (i: nat)
    requires s.For? && CompilableAll(s.body, true) && ForPlaced(w, s, names, start, k)
    requires fr.Valid() && fr.names == ForNames(s, names) && fr.fuel <= w.prog.totalFuel && w.keep <= |names|
    requires vm == Moved(w.prog, vm, start, fr) && GlobalsKnown(vm.globals, fr.names)
    requires inc == ForIncrement(s, names, start, k) && Shielded(vm.handlers, w.keep, inc + 6)
    requires w.lp.Some? ==> w.lp.value.tryDepth <= |vm.handlers|
    requires vm1 == vm.(ip := vm1.ip, stack := vm1.stack, fuel := vm1.fuel, ticks := vm1.ticks, out := vm1.out)
    requires Steps(w.host, w.prog, Running(vm), m) == Running(vm1)
    requires b.fr.Valid() && b.fr.names == fr.names && b.fr.fuel <= fr.fuel
    requires Lands(ForBody(w, s, names, inc), vm1, j, inc, vm.globals, b)
    ensures Lands(w, vm, i, inc + 6, vm.globals, AfterForIteration(w.host, s, |names|, b))
    decreases fr.fuel, s, 0, 1
  {
    hide GenScoped, Slots.ForLoop, Steps, Raise, At, CompilableAll, Dispatch, ForTest, ForNext, T.EvalArithmetic;
    ShieldedSooner(vm.handlers, w.keep, 0, inc + 6);
    var ip := BodyOver(w, ForBody(w, s, names, inc), ForInfo(s, names), vm, m, vm1, j, inc, b);
    i := m + j;
    if b.flow.Normal? || b.flow.Continuing? {
      i := NextRoundRuns(w, s, names, fr, start, k, vm, i, inc, b);
    }
  }

  /** After the body: the increment, and the next round if there is fuel for it. */
  lemma {:induction false} NextRoundRuns(
    w: Place, s: Stmt, names: seq<string>, fr: Frame, start: nat, k: nat, vm: Vm, m: nat, inc: nat, b: SlotStep)
    returns (i: nat)
    requires s.For? && CompilableAll(s.body, true) && ForPlaced(w, s, names, start, k)
    requires fr.Valid() && fr.names == ForNames(s, names) && fr.fuel <= w.prog.totalFuel && w.keep <= |names|
    requires vm == Moved(w.prog, vm, start, fr) && GlobalsKnown(vm.globals, fr.names)
    requires inc == ForIncrement(s, names, start, k) && Shielded(vm.handlers, w.keep, inc + 6)
    requires w.lp.Some? ==> w.lp.value.tryDepth <= |vm.handlers|
    requires b.fr.Valid() && b.fr.names == fr.names && b.fr.fuel <= fr.fuel && (b.flow.Normal? || b.flow.Continuing?)
    requires Steps(w.host, w.prog, Running(vm), m) == Running(Moved(w.prog, vm, inc, b.fr))
    ensures Lands(w, vm, i, inc + 6, vm.globals, AfterForIteration(w.host, s, |names|, b))
    decreases fr.fuel, s, 0, 0
  {
    hide GenScoped, Slots.ForLoop, Steps, Raise, At, CompilableAll, Dispatch, ForTest, ForNext, T.EvalArithmetic;
    var n := |names|;
    ShieldedSooner(vm.handlers, w.keep, 0, inc + 6);
    var vm2 := Moved(w.prog, vm, inc, b.fr);
    var e := IncrementRuns(w, s, n, b.fr, start, inc, k + |GenScoped(s.body, ForNames(s, names), n + 3, Some(ForInfo(s, names)), s.line, start + 7, k).consts|, vm2);
    Then(w.host, w.prog, Running(vm), m, Running(vm2), e, Steps(w.host, w.prog, Running(vm2), e));
    i := m + e;
    var next := T.EvalArithmetic(BinOp.Add, b.fr.vals[n + 1], VInt(1), s.line);
    if next.Good? && b.fr.fuel > 0 {
      var fr' := Slots.Charge(b.fr.(vals := b.fr.vals[n + 1 := next.value]), s.line).fr;
      var vm3 := Moved(w.prog, vm, start, fr');
      var r := ForLoopRuns(w, s, names, fr', start, k, vm3);
      LandsFrom(w, w, vm, i, vm3, r, inc + 6, inc + 6, vm.globals, Slots.ForLoop(w.host, s, n, fr'));
      i := i + r;
    } else if next.Good? {
      RaiseTerminal(w.host, Fault(StepLimit, s.line), Moved(w.prog, vm, 0, Shrink(b.fr.(vals := b.fr.vals[n + 1 := next.value]), w.keep)));
    }
  }

  /** The increment and the back edge of a `for`. */
  lemma IncrementRuns(w: Place, s: Stmt, n: nat, fr: Frame, start: nat, inc: nat, k: nat, vm: Vm) returns (m: nat)
    requires s.For? && fr.Valid() && n + 3 == |fr.names| && w.keep <= |fr.names| && fr.fuel <= w.prog.totalFuel
    requires vm == Moved(w.prog, vm, inc, fr) && start <= inc
    requires At(w.prog, inc, k, ForNext(n, start, s.line, k), w.bt, w.ct)
    requires Shielded(vm.handlers, w.keep, inc + 6)
    ensures var next := T.EvalArithmetic(BinOp.Add, fr.vals[n + 1], VInt(1), s.line);
            var fr' := fr.(vals := fr.vals[n + 1 := if next.Good? then next.value else VNull]);
            Steps(w.host, w.prog, Running(vm), m) ==
            if next.Bad? then Raise(w.host, next.fault, Moved(w.prog, vm, 0, Shrink(fr, w.keep)))
            else if fr.fuel > 0 then Running(Moved(w.prog, vm, start, Slots.Charge(fr', s.line).fr))
            else Stopped(Fault(StepLimit, s.line), fr.fuel, fr.out)
  {
    hide Steps, Raise, At, Dispatch, ForNext, T.EvalArithmetic;
    AtForNext(w.prog, inc, k, n, start, s.line, w.bt, w.ct);
    ShieldedSooner(vm.handlers, w.keep, inc + 5, inc + 6);
    m := CountRuns(w, n, fr, k, s.line, vm);
    var next := T.EvalArithmetic(BinOp.Add, fr.vals[n + 1], VInt(1), s.line);
    if next.Good? {
      var fr' := fr.(vals := fr.vals[n + 1 := next.value]);
      var vm' := Moved(w.prog, vm, inc + 5, fr');
      LoopStep(w, fr', start, s.line, vm');
      Then(w.host, w.prog, Running(vm), m, Running(vm'), 1, Steps(w.host, w.prog, Running(vm'), 1));
      m := m + 1;
    }
  }

  lemma {:induction false} ForRuns(w: Place, s: Stmt, fr: Frame, p: nat, k: nat, vm: Vm) returns (n: nat)
    requires s.For?
    requires StmtPre(w, s, fr, p, k, vm)
    ensures StmtPost(w, s, fr, p, k, vm, n)
    decreases fr.fuel, s, 1
  {
    hide GenStmt, GenScoped, GenExpr, ForEnter, ForTest, ForNext, Slots.ExecStmt, Slots.ForLoop, T.EvalExpr, Bindings, IterItems,
         Steps, Raise, At, Compilable, CompilableAll, Dispatch;
    UnfoldFor(w, s, fr, p, k);
    var it := GenExpr(s.iter, fr.names, s.line, p, k);
    var k1 := k + |it.consts|;
    var q := p + |it.code|;
    PlaceFor(w, s, fr.names, p, k);
    var inc := ForIncrement(s, fr.names, q + 3, k1 + 2);
    ShieldedSooner(vm.handlers, w.keep, q, inc + 7);
    ShieldedSooner(vm.handlers, w.keep, q + 1, inc + 7);
    n := EvalRuns(w, s.iter, s.line, fr, p, k, vm);
    var v := Eval(w.host, s.iter, s.line, fr);
    if v.result.Good? {
      var fr1 := fr.(out := v.out);
      var vm1 := Pushed(vm, q, v.result.value, v.out);
      var m := EnterRuns(w, s.binder, fr1, v.result.value, s.line, q, k1, Moved(w.prog, vm, p, fr1));
      Then(w.host, w.prog, Running(vm), n, Running(vm1), m, Steps(w.host, w.prog, Running(vm1), m));
      n := n + m;
      var items := IterItems(w.host, v.result.value, s.line);
      if items.Good? {
        ShieldedSooner(vm.handlers, w.keep, inc + 6, inc + 7);
        n := ForBodyRuns(w, s, fr.names, Entered(fr1, s.binder, items.value), q + 3, k1 + 2, vm, n);
      }
    }
  }

  lemma PlaceFor(w: Place, s: Stmt, names: seq<string>, p: nat, k: nat)
    requires s.For? && CompilableAll(s.body, true)
    requires At(w.prog, p, k, GenFor(s, names, p, k), w.bt, w.ct)
    ensures var it := GenExpr(s.iter, names, s.line, p, k);
            var q, k1 := p + |it.code|, k + |it.consts|;
            var inc := ForIncrement(s, names, q + 3, k1 + 2);
            && At(w.prog, p, k, it, w.bt, w.ct)
            && At(w.prog, q, k1, ForEnter(|names|, s.line, k1), w.bt, w.ct)
            && ForPlaced(w, s, names, q + 3, k1 + 2)
            && inc + 6 < |w.prog.code| && w.prog.code[inc + 6] == Instr(PopN(3), s.line)
            && |GenFor(s, names, p, k).code| == inc + 7 - p
  {
    hide At, GenExpr, GenScoped, CompilableAll;
    var n := |names|;
    var it := GenExpr(s.iter, names, s.line, p, k);
    var q, k1 := p + |it.code|, k + |it.consts|;
    var b := GenScoped(s.body, ForNames(s, names), n + 3, Some(ForInfo(s, names)), s.line, q + 10, k1 + 2);
    var inc := q + 10 + |b.code|;
    AtFor(w.prog, p, k, it, ForEnter(n, s.line, k1), ForTest(n, inc + 6, s.line), b, ForNext(n, q + 3, s.line, k1 + 2 + |b.consts|),
          s.line, inc + 6, inc, w.bt, w.ct);
  }

  /** The loop of a `for` from its head on, and the three slots given back. */
  /** The exit of the loop pops the list, the counter and the loop variable. */
  lemma LocalsGivenBack(w: Place, n: nat, line: nat, fr: Frame, exit: nat, vm: Vm, m: nat)
    requires fr.Valid() && |fr.names| == n + 3
    requires exit < |w.prog.code| && w.prog.code[exit] == Instr(PopN(3), line)
    requires Steps(w.host, w.prog, Running(vm), m) == Running(Moved(w.prog, vm, exit, fr))
    ensures Steps(w.host, w.prog, Running(vm), m + 1) == Running(Moved(w.prog, vm, exit + 1, Shrink(fr, n)))
  {
    hide Steps, Raise;
    var vm2 := Moved(w.prog, vm, exit, fr);
    Advance(w.host, w.prog, vm2, w.keep);
    Then(w.host, w.prog, Running(vm), m, Running(vm2), 1, Running(Moved(w.prog, vm, exit + 1, Shrink(fr, n))));
  }

  lemma {:induction false} ForBodyRuns(w: Place, s: Stmt, names: seq<string>, fr: Frame, start: nat, k: nat, vm: Vm, m: nat) returns (n: nat)
    requires s.For? && CompilableAll(s.body, true) && ForPlaced(w, s, names, start, k)
    requires fr.Valid() && fr.names == ForNames(s, names) && fr.fuel <= w.prog.totalFuel && w.keep <= |names|
    requires GlobalsKnown(vm.globals, names)
    requires Shielded(vm.handlers, w.keep, ForIncrement(s, names, start, k) + 6)
    requires w.lp.Some? ==> w.lp.value.tryDepth <= |vm.handlers|
    requires var exit := ForIncrement(s, names, start, k) + 6;
             exit < |w.prog.code| && w.prog.code[exit] == Instr(PopN(3), s.line)
    requires Steps(w.host, w.prog, Running(vm), m) == Running(Moved(w.prog, vm, start, fr))
    ensures var r := Slots.ForLoop(w.host, s, |names|, fr);
            Lands(w, vm, n, ForIncrement(s, names, start, k) + 7, vm.globals, r.(fr := Shrink(r.fr, |names|)))
    decreases fr.fuel, s, 0, 3
  {
    hide GenScoped, Slots.ForLoop, Steps, Raise, At, CompilableAll, ForPlaced, ForIncrement;
    var exit := ForIncrement(s, names, start, k) + 6;
    var vm1 := Moved(w.prog, vm, start, fr);
    var j := ForLoopRuns(w, s, names, fr, start, k, vm1);
    var r := Slots.ForLoop(w.host, s, |names|, fr);
    LandsFrom(w, w, vm, m, vm1, j, exit, exit, vm.globals, r);
    n := m + j;
    if r.flow.Normal? {
      LocalsGivenBack(w, |names|, s.line, r.fr, exit, vm, n);
      n := n + 1;
    } else {
      ShrinkTwice(r.fr, |names|, w.keep);
    }
  }

  // ----- try -----

  lemma UnfoldTry(w: Place, s: Stmt, fr: Frame, p: nat, k: nat)
    requires s.TryCatch? && Compilable(s, w.lp.Some?) && LoopFits(w.lp, fr.names) && fr.Valid()
    ensures CompilableAll(s.tryBody, w.lp.Some?) && CompilableAll(s.catchBody, w.lp.Some?)
    ensures GenStmt(s, fr.names, w.top, w.lp, p, k) == GenTry(s, fr.names, w.lp, p, k)
    ensures var r := Slots.ExecScoped(w.host, s.tryBody, fr, |fr.names|);
            Slots.ExecStmt(w.host, s, fr) ==
            if Catches(r.flow) then
              Slots.ExecScoped(w.host, s.catchBody, Declare(r.fr, s.binder, ErrorValue(w.host, r.flow.fault)), |fr.names|)
            else r
  {
    hide GenTry, Slots.ExecScoped;
  }

  predicate Catches(flow: T.Flow) { flow.Failing? && !IsUncatchable(flow.fault.cause) }

  /** Where the parts of a `try` sit. */
  lemma AtTry(prog: Program, p: nat, k: nat, setup: OpCode, t: Frag, over: OpCode, c: Frag, line: nat, bt: nat, ct: nat)
    requires At(prog, p, k, Cat(Cat(Cat(One(setup, line), t), Cat(One(TeardownTry, line), One(over, line))), c), bt, ct)
    requires SitesIn(t, p + 1) && SitesIn(c, p + |t.code| + 3)
    ensures p < |prog.code| && prog.code[p] == Instr(setup, line)
    ensures At(prog, p + 1, k, t, bt, ct)
    ensures var q := p + 1 + |t.code|;
            && q + 1 < |prog.code| && prog.code[q] == Instr(TeardownTry, line) && prog.code[q + 1] == Instr(over, line)
            && At(prog, q + 2, k + |t.consts|, c, bt, ct)
  {
    hide At;
    var q := p + 1 + |t.code|;
    var leave := Cat(One(TeardownTry, line), One(over, line));
    AtCat(prog, p, k, Cat(Cat(One(setup, line), t), leave), c, bt, ct);
    AtCat(prog, p, k, Cat(One(setup, line), t), leave, bt, ct);
    AtCat(prog, p, k, One(setup, line), t, bt, ct);
    AtOne(prog, p, k, setup, line, bt, ct);
    AtCat(prog, q, k + |t.consts|, One(TeardownTry, line), One(over, line), bt, ct);
    AtOne(prog, q, k + |t.consts|, TeardownTry, line, bt, ct);
    AtOne(prog, q + 1, k + |t.consts|, over, line, bt, ct);
  }

  /** The place of a `try` body: one handler more to leave on the way out of the loop. */
  function TryPlace(w: Place, fr: Frame): Place { Place(w.host, w.prog, |fr.names|, false, DeeperTry(w.lp), w.bt, w.ct) }

  function Guarded(vm: Vm, ip: nat, catchAt: nat): Vm {
    vm.(ip := ip, handlers := vm.handlers + [Handler(catchAt, |vm.stack|)])
  }

  lemma SetupStep(host: Host, prog: Program, vm: Vm, catchAt: nat, line: nat)
    requires vm.ip < |prog.code| && prog.code[vm.ip] == Instr(SetupTry(catchAt), line)
    ensures Steps(host, prog, Running(vm), 1) == Running(Guarded(vm, vm.ip + 1, catchAt))
  {
    hide Steps, Raise;
    Advance(host, prog, vm, 0);
  }

  lemma TeardownStep(host: Host, prog: Program, vm: Vm, catchAt: nat, handlers: seq<Handler>, line: nat)
    requires vm.ip < |prog.code| && prog.code[vm.ip] == Instr(TeardownTry, line)
    requires exists h :: vm.handlers == handlers + [h]
    ensures Steps(host, prog, Running(vm), 1) == Running(vm.(ip := vm.ip + 1, handlers := handlers))
  {
    hide Steps, Raise;
    Advance(host, prog, vm, 0);
    assert vm.handlers[..|vm.handlers| - 1] == handlers;
  }

  lemma TryCode(s: Stmt, names: seq<string>, lp: Option<LoopInfo>, p: nat, k: nat)
    requires s.TryCatch? && Compilable(s, lp.Some?) && LoopFits(lp, names)
    ensures var t := GenScoped(s.tryBody, names, |names|, DeeperTry(lp), s.line, p + 1, k);
            var q := p + 1 + |t.code|;
            var c := GenScoped(s.catchBody, names + [s.binder], |names|, lp, s.line, q + 2, k + |t.consts|);
            var end := q + 2 + |c.code|;
            && GenTry(s, names, lp, p, k) ==
               Cat(Cat(Cat(One(SetupTry(q + 2), s.line), t), Cat(One(TeardownTry, s.line), One(Jump(end), s.line))), c)
            && p + |GenTry(s, names, lp, p, k).code| == end
  {
    hide GenScoped, Cat, One, SitesIn;
    var t := GenScoped(s.tryBody, names, |names|, DeeperTry(lp), s.line, p + 1, k);
    var q := p + 1 + |t.code|;
    var c := GenScoped(s.catchBody, names + [s.binder], |names|, lp, s.line, q + 2, k + |t.consts|);
    TrySizes(SetupTry(q + 2), t, Jump(q + 2 + |c.code|), c, s.line);
  }

  lemma TrySizes(setup: OpCode, t: Frag, over: OpCode, c: Frag, line: nat)
    ensures |Cat(Cat(Cat(One(setup, line), t), Cat(One(TeardownTry, line), One(over, line))), c).code| == |t.code| + |c.code| + 3
  {
  }

  lemma {:induction false} TryRuns(w: Place, s: Stmt, fr: Frame, p: nat, k: nat, vm: Vm) returns (n: nat)
    requires s.TryCatch?
    requires StmtPre(w, s, fr, p, k, vm)
    ensures StmtPost(w, s, fr, p, k, vm, n)
    decreases fr.fuel, s, 1
  {
    hide GenStmt, GenScoped, Slots.ExecStmt, Slots.ExecScoped, Steps, Raise, At, Compilable, CompilableAll, Dispatch,
         ErrorValue, GenTry, Cat, One;
    UnfoldTry(w, s, fr, p, k);
    TryCode(s, fr.names, w.lp, p, k);
    var t := GenScoped(s.tryBody, fr.names, |fr.names|, DeeperTry(w.lp), s.line, p + 1, k);
    var q := p + 1 + |t.code|;
    var c := GenScoped(s.catchBody, fr.names + [s.binder], |fr.names|, w.lp, s.line, q + 2, k + |t.consts|);
    var end := q + 2 + |c.code|;
    AtTry(w.prog, p, k, SetupTry(q + 2), t, Jump(end), c, s.line, w.bt, w.ct);
    ShieldedSooner(vm.handlers, w.keep, q, end);
    n := GuardedRuns(w, s, fr, p, k, end, vm);
    var r := Slots.ExecScoped(w.host, s.tryBody, fr, |fr.names|);
    if Catches(r.flow) {
      n := CatchRuns(w, s, fr, Declare(r.fr, s.binder, ErrorValue(w.host, r.flow.fault)), q + 2, k + |t.consts|, vm, n);
    }
  }

  lemma {:induction false} GuardedRuns(w: Place, s: Stmt, fr: Frame, p: nat, k: nat, end: nat, vm: Vm) returns (n: nat)
    requires s.TryCatch? && fr.Valid() && w.keep <= |fr.names| && fr.fuel <= w.prog.totalFuel && LoopFits(w.lp, fr.names)
    requires CompilableAll(s.tryBody, w.lp.Some?) && vm == Moved(w.prog, vm, p, fr) && GlobalsKnown(vm.globals, fr.names)
    requires var t := GenScoped(s.tryBody, fr.names, |fr.names|, DeeperTry(w.lp), s.line, p + 1, k);
             var q := p + 1 + |t.code|;
             && At(w.prog, p + 1, k, t, w.bt, w.ct) && q + 1 < |w.prog.code| && q + 1 < end
             && w.prog.code[p] == Instr(SetupTry(q + 2), s.line)
             && w.prog.code[q] == Instr(TeardownTry, s.line) && w.prog.code[q + 1] == Instr(Jump(end), s.line)
             && Shielded(vm.handlers, w.keep, q)
             && (w.lp.Some? ==> InLoop(w, w.lp.value, vm, p, end))
    ensures var r := Slots.ExecScoped(w.host, s.tryBody, fr, |fr.names|);
            && (!Catches(r.flow) ==> Lands(w, vm, n, end, vm.globals, r))
            && (Catches(r.flow) ==>
                  var q := p + 1 + |GenScoped(s.tryBody, fr.names, |fr.names|, DeeperTry(w.lp), s.line, p + 1, k).code|;
                  Steps(w.host, w.prog, Running(vm), n) ==
                  Running(Moved(w.prog, vm, q + 2, Declare(r.fr, "", ErrorValue(w.host, r.flow.fault)))))
    decreases fr.fuel, s, 0
  {
    hide GenScoped, Slots.ExecScoped, Steps, Raise, At, CompilableAll, Dispatch;
    var q := p + 1 + |GenScoped(s.tryBody, fr.names, |fr.names|, DeeperTry(w.lp), s.line, p + 1, k).code|;
    SetupStep(w.host, w.prog, vm, q + 2, s.line);
    var vm1 := Guarded(vm, p + 1, q + 2);
    ShieldedSooner(vm.handlers, w.keep, 0, q);
    var j := ScopedRuns(TryPlace(w, fr), s.tryBody, fr, s.line, p + 1, k, vm1);
    n := AfterTryRuns(w, fr, q, end, s.line, vm, vm1, j, Slots.ExecScoped(w.host, s.tryBody, fr, |fr.names|));
  }

  lemma {:induction false} CatchRuns(w: Place, s: Stmt, fr: Frame, fr2: Frame, at: nat, k: nat, vm: Vm, m: nat) returns (n: nat)
    requires s.TryCatch? && fr.Valid() && w.keep <= |fr.names| && LoopFits(w.lp, fr.names)
    requires CompilableAll(s.catchBody, w.lp.Some?)
    requires fr2.Valid() && fr2.names == fr.names + [s.binder] && fr2.fuel <= fr.fuel <= w.prog.totalFuel
    requires GlobalsKnown(vm.globals, fr.names)
    requires var c := GenScoped(s.catchBody, fr.names + [s.binder], |fr.names|, w.lp, s.line, at, k);
             && At(w.prog, at, k, c, w.bt, w.ct)
             && Shielded(vm.handlers, w.keep, at + |c.code|)
             && (w.lp.Some? ==> InLoop(w, w.lp.value, vm, at, at + |c.code|))
    requires Steps(w.host, w.prog, Running(vm), m) == Running(Moved(w.prog, vm, at, fr2))
    ensures Lands(w, vm, n, at + |GenScoped(s.catchBody, fr.names + [s.binder], |fr.names|, w.lp, s.line, at, k).code|, vm.globals,
                  Slots.ExecScoped(w.host, s.catchBody, fr2, |fr.names|))
    decreases fr.fuel, s, 0
  {
    hide GenScoped, Slots.ExecScoped, Steps, Raise, At, CompilableAll;
    var end := at + |GenScoped(s.catchBody, fr.names + [s.binder], |fr.names|, w.lp, s.line, at, k).code|;
    var vm2 := Moved(w.prog, vm, at, fr2);
    var i := ScopedRuns(Inner(w, fr), s.catchBody, fr2, s.line, at, k, vm2);
    ShieldedSooner(vm.handlers, w.keep, 0, end);
    LandsFrom(w, Inner(w, fr), vm, m, vm2, i, end, end, vm.globals, Slots.ExecScoped(w.host, s.catchBody, fr2, |fr.names|));
    n := m + i;
  }

  /** The protected body is over: either the handler is taken down and the `catch` skipped, or the
      `catch` starts with the error on top of the slots, or the jump out has left the handler too. */
  lemma AfterTryRuns(w: Place, fr: Frame, q: nat, end: nat, line: nat, vm: Vm, vm1: Vm, j: nat, r: SlotStep) returns (n: nat)
    requires fr.Valid() && w.keep <= |fr.names| && vm == Moved(w.prog, vm, vm.ip, fr)
    requires vm1 == Guarded(vm, vm.ip + 1, q + 2)
    requires q + 1 < |w.prog.code| && w.prog.code[q] == Instr(TeardownTry, line) && w.prog.code[q + 1] == Instr(Jump(end), line) && q + 1 < end
    requires Shielded(vm.handlers, w.keep, 0)
    requires w.lp.Some? ==> w.lp.value.tryDepth <= |vm.handlers|
    requires Steps(w.host, w.prog, Running(vm), 1) == Running(vm1)
    requires r.fr.Valid() && r.fr.names == fr.names
    requires Lands(TryPlace(w, fr), vm1, j, q, vm.globals, r)
    ensures !Catches(r.flow) ==> Lands(w, vm, n, end, vm.globals, r)
    ensures Catches(r.flow) ==>
              Steps(w.host, w.prog, Running(vm), n) ==
              Running(Moved(w.prog, vm, q + 2, Declare(r.fr, "", ErrorValue(w.host, r.flow.fault))))
  {
    hide Steps, Raise, Dispatch;
    Then(w.host, w.prog, Running(vm), 1, Running(vm1), j, Steps(w.host, w.prog, Running(vm1), j));
    n := 1 + j;
    match r.flow {
      case Normal =>
        var vm2 := Moved(w.prog, vm1, q, r.fr);
        TeardownStep(w.host, w.prog, vm2, q + 2, vm.handlers, line);
        var vm3 := Moved(w.prog, vm, q + 1, r.fr);
        Then(w.host, w.prog, Running(vm), n, Running(vm2), 1, Running(vm3));
        JumpRuns(w, end, line, vm3);
        Then(w.host, w.prog, Running(vm), n + 1, Running(vm3), 1, Running(Moved(w.prog, vm, end, r.fr)));
        n := n + 2;
      case Failing(f) => CatchStep(w, fr, q, vm, vm1, f, r);
      case Returning(_) =>
      case _ => UnwoundPastTry(vm, vm1, w.lp.value);
    }
  }

  lemma UnwoundPastTry(vm: Vm, vm1: Vm, lp: LoopInfo)
    requires lp.tryDepth <= |vm.handlers| && (exists h :: vm1.handlers == vm.handlers + [h])
    ensures vm1.handlers[..|vm1.handlers| - (lp.tryDepth + 1)] == vm.handlers[..|vm.handlers| - lp.tryDepth]
  {
  }

  lemma CatchStep(w: Place, fr: Frame, q: nat, vm: Vm, vm1: Vm, f: Fault, r: SlotStep)
    requires fr.Valid() && w.keep <= |fr.names| && vm == Moved(w.prog, vm, vm.ip, fr)
    requires vm1 == Guarded(vm, vm.ip + 1, q + 2)
    requires r.fr.Valid() && r.fr.names == fr.names
    ensures Raise(w.host, f, Moved(w.prog, vm1, 0, Shrink(r.fr, |fr.names|))) ==
            if IsUncatchable(f.cause) then Raise(w.host, f, Moved(w.prog, vm, 0, Shrink(r.fr, w.keep)))
            else Running(Moved(w.prog, vm, q + 2, Declare(r.fr, "", ErrorValue(w.host, f))))
  {
    hide Steps, Dispatch;
    assert vm1.handlers[..|vm1.handlers| - 1] == vm.handlers;
    assert r.fr.vals[..|fr.names|] == r.fr.vals;
  }
}

/** Expressions: the emitted code leaves exactly the value of the expression on the stack, or raises
    its error, with the same output. */
module ExprSimulation {
  import opened Lang
  import T = Tree
  import opened Slots
  import opened Machine
  import opened CodeGen

  // ----- Where a fragment sits in a program -----

  /** An instruction of a fragment once the targets of its waiting jumps are known. */
  function Linked(f: Frag, p: nat, i: nat, breakTo: nat, contTo: nat): Instr
    requires i < |f.code|
  {
    if p + i in f.breaks then Instr(Jump(breakTo), f.code[i].line)
    else if p + i in f.conts then Instr(Jump(contTo), f.code[i].line)
    else f.code[i]
  }

  ghost predicate At(prog: Program, p: nat, k: nat, f: Frag, breakTo: nat, contTo: nat) {
    && p + |f.code| <= |prog.code|
    && k + |f.consts| <= |prog.constants|
    && (forall i {:trigger Linked(f, p, i, breakTo, contTo)} :: 0 <= i < |f.code| ==> prog.code[p + i] == Linked(f, p, i, breakTo, contTo))
    && (forall i {:trigger f.consts[i]} :: 0 <= i < |f.consts| ==> prog.constants[k + i] == f.consts[i])
  }

  lemma AtCat(prog: Program, p: nat, k: nat, a: Frag, b: Frag, breakTo: nat, contTo: nat)
    requires At(prog, p, k, Cat(a, b), breakTo, contTo)
    requires SitesIn(a, p) && SitesIn(b, p + |a.code|)
    ensures At(prog, p, k, a, breakTo, contTo)
    ensures At(prog, p + |a.code|, k + |a.consts|, b, breakTo, contTo)
  {
    var f := Cat(a, b);
    forall i {:trigger Linked(a, p, i, breakTo, contTo)} | 0 <= i < |a.code|
      ensures prog.code[p + i] == Linked(a, p, i, breakTo, contTo)
    {
      assert f.code[i] == a.code[i];
      assert prog.code[p + i] == Linked(f, p, i, breakTo, contTo);
      assert p + i !in b.breaks && p + i !in b.conts;
    }
    forall i {:trigger Linked(b, p + |a.code|, i, breakTo, contTo)} | 0 <= i < |b.code|
      ensures prog.code[p + |a.code| + i] == Linked(b, p + |a.code|, i, breakTo, contTo)
    {
      var j := |a.code| + i;
      assert f.code[j] == b.code[i];
      assert prog.code[p + j] == Linked(f, p, j, breakTo, contTo);
      assert p + j !in a.breaks && p + j !in a.conts;
    }
    forall i {:trigger a.consts[i]} | 0 <= i < |a.consts|
      ensures prog.constants[k + i] == a.consts[i]
    {
      assert f.consts[i] == a.consts[i];
    }
    forall i {:trigger b.consts[i]} | 0 <= i < |b.consts|
      ensures prog.constants[k + |a.consts| + i] == b.consts[i]
    {
      assert f.consts[|a.consts| + i] == b.consts[i];
    }
  }

  lemma AtOne(prog: Program, p: nat, k: nat, op: OpCode, line: nat, breakTo: nat, contTo: nat)
    requires At(prog, p, k, One(op, line), breakTo, contTo)
    ensures p < |prog.code| && prog.code[p] == Instr(op, line)
  {
    assert Linked(One(op, line), p, 0, breakTo, contTo) == Instr(op, line);
  }

  lemma AtConst(prog: Program, p: nat, k: nat, v: Value, line: nat, j: nat, breakTo: nat, contTo: nat)
    requires At(prog, p, k, Const(v, line, j), breakTo, contTo)
    ensures p < |prog.code| && prog.code[p] == Instr(LoadConst(j), line)
    ensures k < |prog.constants| && prog.constants[k] == v
  {
    assert Linked(Const(v, line, j), p, 0, breakTo, contTo) == Instr(LoadConst(j), line);
    assert Const(v, line, j).consts[0] == v;
  }

  // ----- Handlers and errors -----

  /** Every active handler keeps at most `depth` stack slots and catches at `ahead` or later. */
  ghost predicate Shielded(handlers: seq<Handler>, depth: nat, ahead: nat) {
    forall h :: h in handlers ==> h.stackDepth <= depth && h.catchIp >= ahead
  }

  /** An unwinding forgets where it started and everything above the handlers. */
  lemma RaiseForgets(host: Host, f: Fault, a: Vm, b: Vm, depth: nat)
    requires Shielded(a.handlers, depth, 0)
    requires a.handlers == b.handlers && a.globals == b.globals && a.fuel == b.fuel && a.ticks == b.ticks && a.out == b.out
    requires depth <= |a.stack| && depth <= |b.stack| && a.stack[..depth] == b.stack[..depth]
    ensures Raise(host, f, a) == Raise(host, f, b)
  {
    if a.handlers != [] {
      var h := a.handlers[|a.handlers| - 1];
      assert h in a.handlers;
      assert a.stack[..h.stackDepth] == a.stack[..depth][..h.stackDepth];
      assert b.stack[..h.stackDepth] == b.stack[..depth][..h.stackDepth];
    }
  }

  // ----- Single steps -----

  /** One instruction, when it moves forward or raises. */
  lemma Advance(host: Host, prog: Program, vm: Vm, depth: nat)
    requires vm.ip < |prog.code|
    ensures var instr := prog.code[vm.ip];
            var d := Dispatch(host, prog, instr, vm.(ip := vm.ip + 1));
            && (d.Next? && d.vm.ip > vm.ip ==> Steps(host, prog, Running(vm), 1) == Running(d.vm))
            && (d.Fails? && Shielded(d.vm.handlers, depth, vm.ip + 1) ==>
                  Steps(host, prog, Running(vm), 1) == Raise(host, Fault(d.cause, instr.line), d.vm))
            && (d.Done? ==> Steps(host, prog, Running(vm), 1) == Finished(d.vm.fuel, d.vm.out))
  {
    hide Dispatch;
    var instr := prog.code[vm.ip];
    var d := Dispatch(host, prog, instr, vm.(ip := vm.ip + 1));
    assert Steps(host, prog, Running(vm), 1) == Steps(host, prog, Step(host, prog, Running(vm)), 0);
    if d.Fails? && d.vm.handlers != [] {
      assert d.vm.handlers[|d.vm.handlers| - 1] in d.vm.handlers;
    }
  }

  lemma Then(host: Host, prog: Program, c: Config, m: nat, c1: Config, n: nat, c2: Config)
    requires Steps(host, prog, c, m) == c1 && Steps(host, prog, c1, n) == c2
    ensures Steps(host, prog, c, m + n) == c2
  {
    StepsAdd(host, prog, c, m, n);
  }

  // ----- Expressions -----

  ghost predicate GlobalsKnown(globals: map<string, nat>, names: seq<string>) {
    forall g :: g in globals ==> g in names
  }

  /** The machine is about to run code that ends at `end`, with the named slots at the stack bottom. */
  ghost predicate Ready(names: seq<string>, vm: Vm, p: nat, end: nat) {
    && vm.ip == p
    && |names| <= |vm.stack|
    && GlobalsKnown(vm.globals, names)
    && Shielded(vm.handlers, |names|, end)
  }

  function EnvOf(names: seq<string>, vm: Vm): T.Scope
    requires |names| <= |vm.stack|
  {
    Bindings(names, vm.stack[..|names|])
  }

  /** What running an expression's code has to amount to. */
  ghost predicate Delivers(host: Host, prog: Program, vm: Vm, n: nat, end: nat, r: T.Evaluated<Value>) {
    Steps(host, prog, Running(vm), n)
    == match r.result
       case Good(v) => Running(vm.(ip := end, stack := vm.stack + [v], out := r.out))
       case Bad(f) => Raise(host, f, vm.(out := r.out))
  }

  /** The VM's arithmetic agrees with the tree evaluator's. */
  lemma BinaryAgrees(op: BinOp, l: Value, r: Value, line: nat)
    requires !op.And? && !op.Or?
    ensures IsBinary(BinaryOpCode(op))
    ensures ApplyBinary(BinaryOpCode(op), l, r, line) == T.EvalBinop(op, l, r, line)
  {
  }

  /** A subexpression failed: so does the whole, whatever lies above the named slots. */
  lemma Propagate(host: Host, prog: Program, names: seq<string>, vm: Vm, m: nat, vm1: Vm, n: nat, end: nat, r: T.Evaluated<Value>, end': nat)
    requires |names| <= |vm.stack| && Shielded(vm.handlers, |names|, 0) && r.result.Bad?
    requires Steps(host, prog, Running(vm), m) == Running(vm1)
    requires SameBase(vm, vm1, |names|)
    requires Delivers(host, prog, vm1, n, end, r)
    ensures Delivers(host, prog, vm, m + n, end', r)
  {
    Then(host, prog, Running(vm), m, Running(vm1), n, Raise(host, r.result.fault, vm1.(out := r.out)));
    RaiseForgets(host, r.result.fault, vm1.(out := r.out), vm.(out := r.out), |names|);
  }

  /** Same machine up to position, output, and what lies above the first `depth` slots. */
  ghost predicate SameBase(a: Vm, b: Vm, depth: nat) {
    && a.handlers == b.handlers && a.globals == b.globals && a.fuel == b.fuel && a.ticks == b.ticks
    && depth <= |a.stack| && depth <= |b.stack| && a.stack[..depth] == b.stack[..depth]
  }

  /** The last instruction of an expression, which puts the result in place of its operands. */
  lemma Conclude(host: Host, prog: Program, names: seq<string>, vm: Vm, m: nat, vm1: Vm, r: Outcome<Value>, failed: Vm)
    requires |names| <= |vm.stack| && Shielded(vm.handlers, |names|, vm1.ip + 1)
    requires Steps(host, prog, Running(vm), m) == Running(vm1)
    requires vm1.ip < |prog.code|
    requires match r
             case Good(v) => Dispatch(host, prog, prog.code[vm1.ip], vm1.(ip := vm1.ip + 1)) ==
             Next(vm.(ip := vm1.ip + 1, stack := vm.stack + [v], out := vm1.out))
             case Bad(f) => Dispatch(host, prog, prog.code[vm1.ip], vm1.(ip := vm1.ip + 1)) == Fails(f.cause, failed)
                            && f.line == prog.code[vm1.ip].line && failed.out == vm1.out && SameBase(failed, vm, |names|)
    ensures Delivers(host, prog, vm, m + 1, vm1.ip + 1, T.Evaluated(r, vm1.out))
  {
    hide Dispatch, Steps, Raise, Bindings;
    Advance(host, prog, vm1, |names|);
    Then(host, prog, Running(vm), m, Running(vm1), 1, Steps(host, prog, Running(vm1), 1));
    if r.Bad? {
      RaiseForgets(host, r.fault, failed, vm.(out := vm1.out), |names|);
    }
  }

  // ----- One unfolding of the generator and of the evaluator, by kind of expression -----

  lemma UnfoldUnary(host: Host, env: T.Scope, e: Expr, names: seq<string>, line: nat, p: nat, k: nat, out: seq<string>)
    requires e.Unary?
    ensures GenExpr(e, names, line, p, k) ==
            Cat(GenExpr(e.operand, names, line, p, k), One(if e.uop.Neg? then Negate else OpCode.Not, line))
    ensures var v := T.EvalExpr(host, env, e.operand, line, out);
            T.EvalExpr(host, env, e, line, out) ==
            if v.result.Bad? then v else T.Evaluated(EvalUnary(e.uop, v.result.value, line), v.out)
  {
  }

  lemma UnfoldShortCircuit(host: Host, env: T.Scope, e: Expr, names: seq<string>, line: nat, p: nat, k: nat, out: seq<string>)
    requires e.Binary? && (e.op.And? || e.op.Or?)
    ensures var l := GenExpr(e.left, names, line, p, k);
            var r := GenExpr(e.right, names, line, p + |l.code| + 2, k + |l.consts|);
            var end := p + |l.code| + 2 + |r.code|;
            var test := if e.op.And? then JumpIfFalseKeep(end) else JumpIfTrueKeep(end);
            GenExpr(e, names, line, p, k) == Cat(Cat(l, Cat(One(test, line), One(Pop, line))), r)
    ensures var l := T.EvalExpr(host, env, e.left, line, out);
            T.EvalExpr(host, env, e, line, out) ==
            if l.result.Bad? || Truthy(l.result.value) == e.op.Or? then l
            else T.EvalExpr(host, env, e.right, line, l.out)
  {
  }

  lemma UnfoldPrint(host: Host, env: T.Scope, e: Expr, names: seq<string>, line: nat, p: nat, k: nat, out: seq<string>)
    requires e.Print?
    ensures var a := GenArgs(e.args, names, line, p, k);
            GenExpr(e, names, line, p, k) ==
            Cat(Cat(a, One(OpCode.Print(|e.args|), line)), Const(VNull, line, k + |a.consts|))
    ensures var vs := T.EvalArgs(host, env, e.args, line, out);
            T.EvalExpr(host, env, e, line, out) ==
            if vs.result.Bad? then T.Evaluated(Bad(vs.result.fault), vs.out)
            else T.Evaluated(Good(VNull), vs.out + [Joined(host, vs.result.value)])
  {
    hide Joined;
  }

  lemma UnfoldList(host: Host, env: T.Scope, e: Expr, names: seq<string>, line: nat, p: nat, k: nat, out: seq<string>)
    requires e.ListLit?
    ensures GenExpr(e, names, line, p, k) ==
            Cat(Const(VList([]), line, k), GenElements(e.items, names, line, p + 1, k + 1))
    ensures var vs := T.EvalElements(host, env, e.items, [], line, out);
            T.EvalExpr(host, env, e, line, out) ==
            T.Evaluated(if vs.result.Good? then Good(VList(vs.result.value)) else Bad(vs.result.fault), vs.out)
  {
  }

  predicate ReadsSlot(e: Expr, names: seq<string>)
    requires e.Index?
  {
    e.base.Ident? && IsSideEffectFree(e.index) && Resolve(names, e.base.name).Some?
  }

  lemma UnfoldIndex(host: Host, env: T.Scope, e: Expr, names: seq<string>, line: nat, p: nat, k: nat, out: seq<string>)
    requires e.Index?
    ensures ReadsSlot(e, names) ==>
              GenExpr(e, names, line, p, k) ==
              Cat(GenExpr(e.index, names, line, p, k), One(IndexLocal(Resolve(names, e.base.name).value), line))
    ensures !ReadsSlot(e, names) ==>
              (var b := GenExpr(e.base, names, line, p, k);
               var i := GenExpr(e.index, names, line, p + |b.code|, k + |b.consts|);
               GenExpr(e, names, line, p, k) == Cat(Cat(b, i), One(OpCode.Index, line)))
    ensures e.base.Ident? && IsSideEffectFree(e.index) && e.base.name in env ==>
              (var i := T.EvalExpr(host, env, e.index, line, out);
               T.EvalExpr(host, env, e, line, out) ==
               if i.result.Bad? then i else T.Evaluated(EvalIndex(host, env[e.base.name], i.result.value, line), i.out))
    ensures !(e.base.Ident? && IsSideEffectFree(e.index) && e.base.name in env) ==>
              (var b := T.EvalExpr(host, env, e.base, line, out);
               T.EvalExpr(host, env, e, line, out) ==
               if b.result.Bad? then b
               else
                 var i := T.EvalExpr(host, env, e.index, line, b.out);
                 if i.result.Bad? then i
                 else T.Evaluated(EvalIndex(host, b.result.value, i.result.value, line), i.out))
  {
    hide EvalIndex, Resolve;
  }

  lemma UnfoldArgs(host: Host, env: T.Scope, es: seq<Expr>, names: seq<string>, line: nat, p: nat, k: nat, out: seq<string>)
    ensures es == [] ==> GenArgs(es, names, line, p, k) == EMPTY && T.EvalArgs(host, env, es, line, out) == T.Evaluated(Good([]), out)
    ensures es != [] ==>
              (var e := GenExpr(es[0], names, line, p, k);
               GenArgs(es, names, line, p, k) == Cat(e, GenArgs(es[1..], names, line, p + |e.code|, k + |e.consts|)))
    ensures es != [] ==>
              (var v := T.EvalExpr(host, env, es[0], line, out);
               T.EvalArgs(host, env, es, line, out) ==
               if v.result.Bad? then T.Evaluated(Bad(v.result.fault), v.out)
               else
                 var vs := T.EvalArgs(host, env, es[1..], line, v.out);
                 if vs.result.Bad? then vs else T.Evaluated(Good([v.result.value] + vs.result.value), vs.out))
  {
    hide GenExpr, T.EvalExpr;
  }

  lemma UnfoldElements(host: Host, env: T.Scope, es: seq<Expr>, list: seq<Value>, names: seq<string>, line: nat, p: nat, k: nat, out: seq<string>)
    ensures es == [] ==> GenElements(es, names, line, p, k) == EMPTY
                         && T.EvalElements(host, env, es, list, line, out) == T.Evaluated(Good(list), out)
    ensures es != [] ==>
              (var e := Cat(GenExpr(es[0], names, line, p, k), One(ListPush, line));
               GenElements(es, names, line, p, k) == Cat(e, GenElements(es[1..], names, line, p + |e.code|, k + |e.consts|)))
    ensures es != [] ==>
              (var v := T.EvalExpr(host, env, es[0], line, out);
               T.EvalElements(host, env, es, list, line, out) ==
               if v.result.Bad? then T.Evaluated(Bad(v.result.fault), v.out)
               else
                 var longer := AppendElement(host, list, v.result.value, line);
                 if longer.Bad? then T.Evaluated(Bad(longer.fault), v.out)
                 else T.EvalElements(host, env, es[1..], longer.value, line, v.out))
  {
    hide GenExpr, T.EvalExpr, AppendElement;
  }

  // ----- The last instruction, by kind -----

  lemma BinaryStep(host: Host, prog: Program, names: seq<string>, vm: Vm, m: nat, vm2: Vm, op: BinOp, a: Value, b: Value, line: nat)
    requires !op.And? && !op.Or?
    requires |names| <= |vm.stack| && Shielded(vm.handlers, |names|, vm2.ip + 1)
    requires Steps(host, prog, Running(vm), m) == Running(vm2)
    requires vm2 == vm.(ip := vm2.ip, stack := vm.stack + [a] + [b], out := vm2.out)
    requires vm2.ip < |prog.code| && prog.code[vm2.ip] == Instr(BinaryOpCode(op), line)
    ensures Delivers(host, prog, vm, m + 1, vm2.ip + 1, T.Evaluated(T.EvalBinop(op, a, b, line), vm2.out))
  {
    hide Steps, Raise, BinaryOpCode, ApplyBinary, T.EvalBinop, Delivers;
    BinaryAgrees(op, a, b, line);
    assert vm2.stack[..|vm2.stack| - 2] == vm.stack;
    Conclude(host, prog, names, vm, m, vm2, T.EvalBinop(op, a, b, line), Drop(vm2, 2).(ip := vm2.ip + 1));
  }

  lemma UnaryStep(host: Host, prog: Program, names: seq<string>, vm: Vm, m: nat, vm1: Vm, uop: UnaryOp, v: Value, line: nat)
    requires |names| <= |vm.stack| && Shielded(vm.handlers, |names|, vm1.ip + 1)
    requires Steps(host, prog, Running(vm), m) == Running(vm1)
    requires vm1 == vm.(ip := vm1.ip, stack := vm.stack + [v], out := vm1.out)
    requires vm1.ip < |prog.code| && prog.code[vm1.ip] == Instr(if uop.Neg? then Negate else OpCode.Not, line)
    ensures Delivers(host, prog, vm, m + 1, vm1.ip + 1, T.Evaluated(EvalUnary(uop, v, line), vm1.out))
  {
    hide Steps, Raise, Delivers;
    assert vm1.stack[..|vm1.stack| - 1] == vm.stack;
    Conclude(host, prog, names, vm, m, vm1, EvalUnary(uop, v, line), Drop(vm1, 1).(ip := vm1.ip + 1));
  }

  lemma IndexStep(host: Host, prog: Program, names: seq<string>, vm: Vm, m: nat, vm2: Vm, a: Value, b: Value, line: nat)
    requires |names| <= |vm.stack| && Shielded(vm.handlers, |names|, vm2.ip + 1)
    requires Steps(host, prog, Running(vm), m) == Running(vm2)
    requires vm2 == vm.(ip := vm2.ip, stack := vm.stack + [a] + [b], out := vm2.out)
    requires vm2.ip < |prog.code| && prog.code[vm2.ip] == Instr(OpCode.Index, line)
    ensures Delivers(host, prog, vm, m + 1, vm2.ip + 1, T.Evaluated(EvalIndex(host, a, b, line), vm2.out))
  {
    hide Steps, Raise, EvalIndex, Delivers;
    assert vm2.stack[..|vm2.stack| - 2] == vm.stack;
    Conclude(host, prog, names, vm, m, vm2, EvalIndex(host, a, b, line), Drop(vm2, 2).(ip := vm2.ip + 1));
  }

  lemma IndexLocalStep(host: Host, prog: Program, names: seq<string>, vm: Vm, m: nat, vm1: Vm, slot: nat, v: Value, line: nat)
    requires slot < |names| <= |vm.stack| && Shielded(vm.handlers, |names|, vm1.ip + 1)
    requires Steps(host, prog, Running(vm), m) == Running(vm1)
    requires vm1 == vm.(ip := vm1.ip, stack := vm.stack + [v], out := vm1.out)
    requires vm1.ip < |prog.code| && prog.code[vm1.ip] == Instr(IndexLocal(slot), line)
    ensures Delivers(host, prog, vm, m + 1, vm1.ip + 1, T.Evaluated(EvalIndex(host, vm.stack[slot], v, line), vm1.out))
  {
    hide Steps, Raise, EvalIndex, Delivers;
    assert vm1.stack[..|vm1.stack| - 1] == vm.stack;
    Conclude(host, prog, names, vm, m, vm1, EvalIndex(host, vm.stack[slot], v, line), Drop(vm1, 1).(ip := vm1.ip + 1));
  }

  /** A jump that keeps the tested value, followed by the `Pop` that drops it when the jump is not taken. */
  lemma TestStep(host: Host, prog: Program, names: seq<string>, vm: Vm, m: nat, vm1: Vm, onTrue: bool, end: nat, v: Value, line: nat)
    returns (n: nat)
    requires |names| <= |vm.stack| && Shielded(vm.handlers, |names|, vm1.ip + 2)
    requires Steps(host, prog, Running(vm), m) == Running(vm1)
    requires vm1 == vm.(ip := vm1.ip, stack := vm.stack + [v], out := vm1.out)
    requires vm1.ip + 1 < |prog.code| && end > vm1.ip
    requires prog.code[vm1.ip] == Instr(if onTrue then JumpIfTrueKeep(end) else JumpIfFalseKeep(end), line)
    requires prog.code[vm1.ip + 1] == Instr(Pop, line)
    ensures Steps(host, prog, Running(vm), n) ==
            if Truthy(v) == onTrue then Running(vm1.(ip := end))
            else Running(vm.(ip := vm1.ip + 2, out := vm1.out))
  {
    hide Steps, Raise;
    Advance(host, prog, vm1, |names|);
    n := m + 1;
    if Truthy(v) == onTrue {
      Then(host, prog, Running(vm), m, Running(vm1), 1, Running(vm1.(ip := end)));
    } else {
      var vm2 := vm1.(ip := vm1.ip + 1);
      Then(host, prog, Running(vm), m, Running(vm1), 1, Running(vm2));
      Advance(host, prog, vm2, |names|);
      assert vm2.stack[..|vm2.stack| - 1] == vm.stack;
      Then(host, prog, Running(vm), m + 1, Running(vm2), 1, Running(vm.(ip := vm1.ip + 2, out := vm1.out)));
      n := m + 2;
    }
  }

  lemma PrintStep(host: Host, prog: Program, names: seq<string>, vm: Vm, m: nat, vm1: Vm, values: seq<Value>, line: nat, k: nat)
    requires |names| <= |vm.stack| && Shielded(vm.handlers, |names|, vm1.ip + 2)
    requires Steps(host, prog, Running(vm), m) == Running(vm1)
    requires vm1 == vm.(ip := vm1.ip, stack := vm.stack + values, out := vm1.out)
    requires vm1.ip + 1 < |prog.code| && k < |prog.constants| && prog.constants[k] == VNull
    requires prog.code[vm1.ip] == Instr(OpCode.Print(|values|), line) && prog.code[vm1.ip + 1] == Instr(LoadConst(k), line)
    ensures Delivers(host, prog, vm, m + 2, vm1.ip + 2, T.Evaluated(Good(VNull), vm1.out + [Joined(host, values)]))
  {
    hide Steps, Raise, Joined, Delivers;
    assert vm1.stack[|vm1.stack| - |values|..] == values;
    assert vm1.stack[..|vm1.stack| - |values|] == vm.stack;
    Advance(host, prog, vm1, |names|);
    var vm2 := vm.(ip := vm1.ip + 1, out := vm1.out + [Joined(host, values)]);
    Then(host, prog, Running(vm), m, Running(vm1), 1, Running(vm2));
    Conclude(host, prog, names, vm, m + 1, vm2, Good(VNull), vm2);
  }

  lemma {:induction false} ExprRuns(host: Host, prog: Program, e: Expr, names: seq<string>, line: nat, p: nat, k: nat, vm: Vm, bt: nat, ct: nat)
    returns (n: nat)
    requires At(prog, p, k, GenExpr(e, names, line, p, k), bt, ct)
    requires Ready(names, vm, p, p + |GenExpr(e, names, line, p, k).code|)
    ensures Delivers(host, prog, vm, n, p + |GenExpr(e, names, line, p, k).code|, T.EvalExpr(host, EnvOf(names, vm), e, line, vm.out))
    decreases e, 1
  {
    match e
    case IntLit(i) => n := ConstRuns(host, prog, names, VInt(i), line, p, k, vm, bt, ct);
    case StrLit(s) => n := ConstRuns(host, prog, names, VStr(s), line, p, k, vm, bt, ct);
    case BoolLit(b) => n := ConstRuns(host, prog, names, VBool(b), line, p, k, vm, bt, ct);
    case NullLit => n := ConstRuns(host, prog, names, VNull, line, p, k, vm, bt, ct);
    case Ident(name) => n := NameRuns(host, prog, name, names, line, p, k, vm, bt, ct);
    case Binary(op, _, _) =>
      if op.And? || op.Or? {
        n := ShortCircuitRuns(host, prog, e, names, line, p, k, vm, bt, ct);
      } else {
        n := BinaryRuns(host, prog, e, names, line, p, k, vm, bt, ct);
      }
    case Unary(_, _) => n := UnaryRuns(host, prog, e, names, line, p, k, vm, bt, ct);
    case Print(_) => n := PrintRuns(host, prog, e, names, line, p, k, vm, bt, ct);
    case ListLit(_) => n := ListRuns(host, prog, e, names, line, p, k, vm, bt, ct);
    case Index(_, _) => n := IndexRuns(host, prog, e, names, line, p, k, vm, bt, ct);
  }

  lemma ConstRuns(host: Host, prog: Program, names: seq<string>, v: Value, line: nat, p: nat, k: nat, vm: Vm, bt: nat, ct: nat)
    returns (n: nat)
    requires At(prog, p, k, Const(v, line, k), bt, ct)
    requires Ready(names, vm, p, p + 1)
    ensures Delivers(host, prog, vm, n, p + 1, T.Evaluated(Good(v), vm.out))
  {
    AtConst(prog, p, k, v, line, k, bt, ct);
    Conclude(host, prog, names, vm, 0, vm, Good(v), vm);
    n := 1;
  }

  lemma NameRuns(host: Host, prog: Program, name: string, names: seq<string>, line: nat, p: nat, k: nat, vm: Vm, bt: nat, ct: nat)
    returns (n: nat)
    requires At(prog, p, k, One(NameRead(name, names), line), bt, ct)
    requires Ready(names, vm, p, p + 1)
    ensures Delivers(host, prog, vm, n, p + 1, T.Evaluated(T.Read(EnvOf(names, vm), name, line), vm.out))
  {
    hide Raise;
    AtOne(prog, p, k, NameRead(name, names), line, bt, ct);
    BindingsAt(names, vm.stack[..|names|], name);
    Conclude(host, prog, names, vm, 0, vm, T.Read(EnvOf(names, vm), name, line), vm.(ip := p + 1));
    n := 1;
  }

  lemma {:induction false} UnaryRuns(host: Host, prog: Program, e: Expr, names: seq<string>, line: nat, p: nat, k: nat, vm: Vm, bt: nat, ct: nat)
    returns (n: nat)
    requires e.Unary?
    requires At(prog, p, k, GenExpr(e, names, line, p, k), bt, ct)
    requires Ready(names, vm, p, p + |GenExpr(e, names, line, p, k).code|)
    ensures Delivers(host, prog, vm, n, p + |GenExpr(e, names, line, p, k).code|, T.EvalExpr(host, EnvOf(names, vm), e, line, vm.out))
    decreases e, 0
  {
    hide GenExpr, GenArgs, GenElements, T.EvalExpr, T.EvalArgs, T.EvalElements, At, Steps, Raise, Bindings, Dispatch;
    UnfoldUnary(host, EnvOf(names, vm), e, names, line, p, k, vm.out);
    var f := GenExpr(e.operand, names, line, p, k);
    var op := if e.uop.Neg? then Negate else OpCode.Not;
    AtCat(prog, p, k, f, One(op, line), bt, ct);
    AtOne(prog, p + |f.code|, k + |f.consts|, op, line, bt, ct);
    var m := ExprRuns(host, prog, e.operand, names, line, p, k, vm, bt, ct);
    var r := T.EvalExpr(host, EnvOf(names, vm), e.operand, line, vm.out);
    if r.result.Bad? {
      n := m;
    } else {
      var vm1 := vm.(ip := p + |f.code|, stack := vm.stack + [r.result.value], out := r.out);
      UnaryStep(host, prog, names, vm, m, vm1, e.uop, r.result.value, line);
      n := m + 1;
    }
  }

  /** The machine after a subexpression delivered a value. */
  function Pushed(vm: Vm, ip: nat, v: Value, out: seq<string>): Vm {
    vm.(ip := ip, stack := vm.stack + [v], out := out)
  }

  lemma PushedKeeps(names: seq<string>, vm: Vm, ip: nat, v: Value, out: seq<string>)
    requires |names| <= |vm.stack|
    ensures SameBase(vm.(out := out), Pushed(vm, ip, v, out), |names|)
    ensures EnvOf(names, Pushed(vm, ip, v, out)) == EnvOf(names, vm)
  {
    assert (vm.stack + [v])[..|names|] == vm.stack[..|names|];
  }

  lemma UnfoldBinary(host: Host, env: T.Scope, e: Expr, names: seq<string>, line: nat, p: nat, k: nat, out: seq<string>)
    requires e.Binary? && !e.op.And? && !e.op.Or?
    ensures var l := GenExpr(e.left, names, line, p, k);
            var r := GenExpr(e.right, names, line, p + |l.code|, k + |l.consts|);
            GenExpr(e, names, line, p, k) == Cat(Cat(l, r), One(BinaryOpCode(e.op), line))
    ensures var a := T.EvalExpr(host, env, e.left, line, out);
            T.EvalExpr(host, env, e, line, out) ==
            if a.result.Bad? then a
            else
              var b := T.EvalExpr(host, env, e.right, line, a.out);
              if b.result.Bad? then b
              else T.Evaluated(T.EvalBinop(e.op, a.result.value, b.result.value, line), b.out)
  {
    hide T.EvalBinop, BinaryOpCode;
  }

  lemma {:induction false} BinaryRuns(host: Host, prog: Program, e: Expr, names: seq<string>, line: nat, p: nat, k: nat, vm: Vm, bt: nat, ct: nat)
    returns (n: nat)
    requires e.Binary? && !e.op.And? && !e.op.Or?
    requires At(prog, p, k, GenExpr(e, names, line, p, k), bt, ct)
    requires Ready(names, vm, p, p + |GenExpr(e, names, line, p, k).code|)
    ensures Delivers(host, prog, vm, n, p + |GenExpr(e, names, line, p, k).code|, T.EvalExpr(host, EnvOf(names, vm), e, line, vm.out))
    decreases e, 0
  {
    hide GenExpr, GenArgs, GenElements, T.EvalExpr, T.EvalArgs, T.EvalElements, At, Steps, Raise, Bindings, Dispatch, BinaryOpCode, ApplyBinary, T.EvalBinop;
    UnfoldBinary(host, EnvOf(names, vm), e, names, line, p, k, vm.out);
    var l := GenExpr(e.left, names, line, p, k);
    var r := GenExpr(e.right, names, line, p + |l.code|, k + |l.consts|);
    var mid, at := p + |l.code|, p + |l.code| + |r.code|;
    var op := BinaryOpCode(e.op);
    AtCat(prog, p, k, Cat(l, r), One(op, line), bt, ct);
    AtCat(prog, p, k, l, r, bt, ct);
    AtOne(prog, at, k + |l.consts| + |r.consts|, op, line, bt, ct);
    var env := EnvOf(names, vm);
    var a := T.EvalExpr(host, env, e.left, line, vm.out);
    n := ExprRuns(host, prog, e.left, names, line, p, k, vm, bt, ct);
    if a.result.Good? {
      var vm1 := Pushed(vm, mid, a.result.value, a.out);
      PushedKeeps(names, vm, mid, a.result.value, a.out);
      var b := T.EvalExpr(host, env, e.right, line, a.out);
      var m := ExprRuns(host, prog, e.right, names, line, mid, k + |l.consts|, vm1, bt, ct);
      if b.result.Bad? {
        Propagate(host, prog, names, vm, n, vm1, m, at, b, at + 1);
        n := n + m;
      } else {
        var vm2 := Pushed(vm1, at, b.result.value, b.out);
        Then(host, prog, Running(vm), n, Running(vm1), m, Running(vm2));
        BinaryStep(host, prog, names, vm, n + m, vm2, e.op, a.result.value, b.result.value, line);
        n := n + m + 1;
      }
    }
  }

  lemma {:induction false} ShortCircuitRuns(host: Host, prog: Program, e: Expr, names: seq<string>, line: nat, p: nat, k: nat, vm: Vm, bt: nat, ct: nat)
    returns (n: nat)
    requires e.Binary? && (e.op.And? || e.op.Or?)
    requires At(prog, p, k, GenExpr(e, names, line, p, k), bt, ct)
    requires Ready(names, vm, p, p + |GenExpr(e, names, line, p, k).code|)
    ensures Delivers(host, prog, vm, n, p + |GenExpr(e, names, line, p, k).code|, T.EvalExpr(host, EnvOf(names, vm), e, line, vm.out))
    decreases e, 0
  {
    hide GenExpr, GenArgs, GenElements, T.EvalExpr, T.EvalArgs, T.EvalElements, At, Steps, Raise, Bindings, Dispatch;
    UnfoldShortCircuit(host, EnvOf(names, vm), e, names, line, p, k, vm.out);
    var l := GenExpr(e.left, names, line, p, k);
    var mid := p + |l.code|;
    var r := GenExpr(e.right, names, line, mid + 2, k + |l.consts|);
    var end := mid + 2 + |r.code|;
    var test := if e.op.And? then JumpIfFalseKeep(end) else JumpIfTrueKeep(end);
    AtCat(prog, p, k, Cat(l, Cat(One(test, line), One(Pop, line))), r, bt, ct);
    AtCat(prog, p, k, l, Cat(One(test, line), One(Pop, line)), bt, ct);
    AtCat(prog, mid, k + |l.consts|, One(test, line), One(Pop, line), bt, ct);
    AtOne(prog, mid, k + |l.consts|, test, line, bt, ct);
    AtOne(prog, mid + 1, k + |l.consts|, Pop, line, bt, ct);
    var env := EnvOf(names, vm);
    var a := T.EvalExpr(host, env, e.left, line, vm.out);
    n := ExprRuns(host, prog, e.left, names, line, p, k, vm, bt, ct);
    if a.result.Good? {
      var vm1 := Pushed(vm, mid, a.result.value, a.out);
      n := TestStep(host, prog, names, vm, n, vm1, e.op.Or?, end, a.result.value, line);
      if Truthy(a.result.value) != e.op.Or? {
        var vm3 := vm.(ip := mid + 2, out := a.out);
        var m := ExprRuns(host, prog, e.right, names, line, mid + 2, k + |l.consts|, vm3, bt, ct);
        var b := T.EvalExpr(host, env, e.right, line, a.out);
        if b.result.Bad? {
          Propagate(host, prog, names, vm, n, vm3, m, end, b, end);
        } else {
          Then(host, prog, Running(vm), n, Running(vm3), m, Running(Pushed(vm, end, b.result.value, b.out)));
        }
        n := n + m;
      }
    }
  }

  lemma {:induction false} IndexRuns(host: Host, prog: Program, e: Expr, names: seq<string>, line: nat, p: nat, k: nat, vm: Vm, bt: nat, ct: nat)
    returns (n: nat)
    requires e.Index?
    requires At(prog, p, k, GenExpr(e, names, line, p, k), bt, ct)
    requires Ready(names, vm, p, p + |GenExpr(e, names, line, p, k).code|)
    ensures Delivers(host, prog, vm, n, p + |GenExpr(e, names, line, p, k).code|, T.EvalExpr(host, EnvOf(names, vm), e, line, vm.out))
    decreases e, 0, 1
  {
    hide GenExpr, GenArgs, GenElements, T.EvalExpr, T.EvalArgs, T.EvalElements, At, Steps, Raise, Bindings, Dispatch, EvalIndex;
    UnfoldIndex(host, EnvOf(names, vm), e, names, line, p, k, vm.out);
    var env := EnvOf(names, vm);
    if e.base.Ident? {
      BindingsAt(names, vm.stack[..|names|], e.base.name);
    }
    if e.base.Ident? && IsSideEffectFree(e.index) && Resolve(names, e.base.name).Some? {
      var slot := Resolve(names, e.base.name).value;
      var f := GenExpr(e.index, names, line, p, k);
      AtCat(prog, p, k, f, One(IndexLocal(slot), line), bt, ct);
      AtOne(prog, p + |f.code|, k + |f.consts|, IndexLocal(slot), line, bt, ct);
      var i := T.EvalExpr(host, env, e.index, line, vm.out);
      n := ExprRuns(host, prog, e.index, names, line, p, k, vm, bt, ct);
      if i.result.Good? {
        var vm1 := Pushed(vm, p + |f.code|, i.result.value, i.out);
        IndexLocalStep(host, prog, names, vm, n, vm1, slot, i.result.value, line);
        n := n + 1;
      }
    } else {
      n := SlowIndexRuns(host, prog, e, names, line, p, k, vm, bt, ct);
    }
  }

  lemma {:induction false} SlowIndexRuns(host: Host, prog: Program, e: Expr, names: seq<string>, line: nat, p: nat, k: nat, vm: Vm, bt: nat, ct: nat)
    returns (n: nat)
    requires e.Index? && !(e.base.Ident? && IsSideEffectFree(e.index) && Resolve(names, e.base.name).Some?)
    requires At(prog, p, k, GenExpr(e, names, line, p, k), bt, ct)
    requires Ready(names, vm, p, p + |GenExpr(e, names, line, p, k).code|)
    ensures Delivers(host, prog, vm, n, p + |GenExpr(e, names, line, p, k).code|, T.EvalExpr(host, EnvOf(names, vm), e, line, vm.out))
    decreases e, 0, 0
  {
    hide GenExpr, GenArgs, GenElements, T.EvalExpr, T.EvalArgs, T.EvalElements, At, Steps, Raise, Bindings, Dispatch, EvalIndex;
    UnfoldIndex(host, EnvOf(names, vm), e, names, line, p, k, vm.out);
    if e.base.Ident? {
      BindingsAt(names, vm.stack[..|names|], e.base.name);
    }
    var env := EnvOf(names, vm);
    var l := GenExpr(e.base, names, line, p, k);
    var r := GenExpr(e.index, names, line, p + |l.code|, k + |l.consts|);
    var mid, at := p + |l.code|, p + |l.code| + |r.code|;
    AtCat(prog, p, k, Cat(l, r), One(OpCode.Index, line), bt, ct);
    AtCat(prog, p, k, l, r, bt, ct);
    AtOne(prog, at, k + |l.consts| + |r.consts|, OpCode.Index, line, bt, ct);
    var a := T.EvalExpr(host, env, e.base, line, vm.out);
    n := ExprRuns(host, prog, e.base, names, line, p, k, vm, bt, ct);
    if a.result.Good? {
      var vm1 := Pushed(vm, mid, a.result.value, a.out);
      PushedKeeps(names, vm, mid, a.result.value, a.out);
      var b := T.EvalExpr(host, env, e.index, line, a.out);
      var m := ExprRuns(host, prog, e.index, names, line, mid, k + |l.consts|, vm1, bt, ct);
      if b.result.Bad? {
        Propagate(host, prog, names, vm, n, vm1, m, at, b, at + 1);
        n := n + m;
      } else {
        var vm2 := Pushed(vm1, at, b.result.value, b.out);
        Then(host, prog, Running(vm), n, Running(vm1), m, Running(vm2));
        IndexStep(host, prog, names, vm, n + m, vm2, a.result.value, b.result.value, line);
        n := n + m + 1;
      }
    }
  }

  lemma {:induction false} PrintRuns(host: Host, prog: Program, e: Expr, names: seq<string>, line: nat, p: nat, k: nat, vm: Vm, bt: nat, ct: nat)
    returns (n: nat)
    requires e.Print?
    requires At(prog, p, k, GenExpr(e, names, line, p, k), bt, ct)
    requires Ready(names, vm, p, p + |GenExpr(e, names, line, p, k).code|)
    ensures Delivers(host, prog, vm, n, p + |GenExpr(e, names, line, p, k).code|, T.EvalExpr(host, EnvOf(names, vm), e, line, vm.out))
    decreases e, 0
  {
    hide GenExpr, GenArgs, GenElements, T.EvalExpr, T.EvalArgs, T.EvalElements, At, Steps, Raise, Bindings, Dispatch, Joined;
    UnfoldPrint(host, EnvOf(names, vm), e, names, line, p, k, vm.out);
    var a := GenArgs(e.args, names, line, p, k);
    var at := p + |a.code|;
    AtCat(prog, p, k, Cat(a, One(OpCode.Print(|e.args|), line)), Const(VNull, line, k + |a.consts|), bt, ct);
    AtCat(prog, p, k, a, One(OpCode.Print(|e.args|), line), bt, ct);
    AtOne(prog, at, k + |a.consts|, OpCode.Print(|e.args|), line, bt, ct);
    AtConst(prog, at + 1, k + |a.consts|, VNull, line, k + |a.consts|, bt, ct);
    var vs := T.EvalArgs(host, EnvOf(names, vm), e.args, line, vm.out);
    n := ArgsRun(host, prog, e.args, names, line, p, k, vm, bt, ct);
    if vs.result.Good? {
      var values := vs.result.value;
      var vm1 := vm.(ip := at, stack := vm.stack + values, out := vs.out);
      PrintStep(host, prog, names, vm, n, vm1, values, line, k + |a.consts|);
      n := n + 2;
    }
  }

  lemma {:induction false} ListRuns(host: Host, prog: Program, e: Expr, names: seq<string>, line: nat, p: nat, k: nat, vm: Vm, bt: nat, ct: nat)
    returns (n: nat)
    requires e.ListLit?
    requires At(prog, p, k, GenExpr(e, names, line, p, k), bt, ct)
    requires Ready(names, vm, p, p + |GenExpr(e, names, line, p, k).code|)
    ensures Delivers(host, prog, vm, n, p + |GenExpr(e, names, line, p, k).code|, T.EvalExpr(host, EnvOf(names, vm), e, line, vm.out))
    decreases e, 0
  {
    hide GenExpr, GenArgs, GenElements, T.EvalExpr, T.EvalArgs, T.EvalElements, At, Steps, Raise, Bindings, Dispatch;
    UnfoldList(host, EnvOf(names, vm), e, names, line, p, k, vm.out);
    var f := GenElements(e.items, names, line, p + 1, k + 1);
    AtCat(prog, p, k, Const(VList([]), line, k), f, bt, ct);
    var vm1 := Pushed(vm, p + 1, VList([]), vm.out);
    var m := ConstRuns(host, prog, names, VList([]), line, p, k, vm, bt, ct);
    n := ElementsRun(host, prog, e.items, names, line, p + 1, k + 1, vm, [], m, vm1, bt, ct);
  }

  /** Arguments from left to right: their values end up on the stack in order. */
  ghost predicate DeliversAll(host: Host, prog: Program, vm: Vm, n: nat, end: nat, r: T.Evaluated<seq<Value>>) {
    Steps(host, prog, Running(vm), n)
    == match r.result
       case Good(vs) => Running(vm.(ip := end, stack := vm.stack + vs, out := r.out))
       case Bad(f) => Raise(host, f, vm.(out := r.out))
  }

  lemma {:induction false} ArgsRun(host: Host, prog: Program, es: seq<Expr>, names: seq<string>, line: nat, p: nat, k: nat, vm: Vm, bt: nat, ct: nat)
    returns (n: nat)
    requires At(prog, p, k, GenArgs(es, names, line, p, k), bt, ct)
    requires Ready(names, vm, p, p + |GenArgs(es, names, line, p, k).code|)
    ensures DeliversAll(host, prog, vm, n, p + |GenArgs(es, names, line, p, k).code|, T.EvalArgs(host, EnvOf(names, vm), es, line, vm.out))
    ensures var r := T.EvalArgs(host, EnvOf(names, vm), es, line, vm.out); r.result.Good? ==> |r.result.value| == |es|
    decreases es, 0
  {
    hide GenExpr, GenArgs, GenElements, T.EvalExpr, T.EvalArgs, T.EvalElements, At, Step, Raise, Bindings, Dispatch;
    UnfoldArgs(host, EnvOf(names, vm), es, names, line, p, k, vm.out);
    if es == [] {
      n := 0;
      assert vm.stack + [] == vm.stack;
    } else {
      var env := EnvOf(names, vm);
      var f := GenExpr(es[0], names, line, p, k);
      var rest := GenArgs(es[1..], names, line, p + |f.code|, k + |f.consts|);
      var mid, end := p + |f.code|, p + |f.code| + |rest.code|;
      AtCat(prog, p, k, f, rest, bt, ct);
      var a := T.EvalExpr(host, env, es[0], line, vm.out);
      n := ExprRuns(host, prog, es[0], names, line, p, k, vm, bt, ct);
      if a.result.Good? {
        var vm1 := Pushed(vm, mid, a.result.value, a.out);
        PushedKeeps(names, vm, mid, a.result.value, a.out);
        var m := ArgsRun(host, prog, es[1..], names, line, mid, k + |f.consts|, vm1, bt, ct);
        var b := T.EvalArgs(host, env, es[1..], line, a.out);
        StepsAdd(host, prog, Running(vm), n, m);
        if b.result.Bad? {
          RaiseForgets(host, b.result.fault, vm1.(out := b.out), vm.(out := b.out), |names|);
        } else {
          assert vm1.stack + b.result.value == vm.stack + ([a.result.value] + b.result.value);
        }
        n := n + m;
      }
    }
  }

  /** Elements of a list literal: each is appended to the list that waits on the stack. */
  lemma {:induction false} ElementsRun(
    host: Host, prog: Program, es: seq<Expr>, names: seq<string>, line: nat, p: nat, k: nat,
    vm: Vm, list: seq<Value>, m: nat, vm1: Vm, bt: nat, ct: nat)
    returns (n: nat)
    requires At(prog, p, k, GenElements(es, names, line, p, k), bt, ct)
    requires |names| <= |vm.stack| && GlobalsKnown(vm.globals, names)
    requires Shielded(vm.handlers, |names|, p + |GenElements(es, names, line, p, k).code|)
    requires vm1 == Pushed(vm, p, VList(list), vm1.out) && Steps(host, prog, Running(vm), m) == Running(vm1)
    ensures var r := T.EvalElements(host, EnvOf(names, vm), es, list, line, vm1.out);
            Delivers(host, prog, vm, n, p + |GenElements(es, names, line, p, k).code|,
                     T.Evaluated(if r.result.Good? then Good(VList(r.result.value)) else Bad(r.result.fault), r.out))
    decreases es, 0
  {
    hide GenExpr, GenArgs, GenElements, T.EvalExpr, T.EvalArgs, T.EvalElements, At, Steps, Raise, Bindings, Dispatch, AppendElement;
    UnfoldElements(host, EnvOf(names, vm), es, list, names, line, p, k, vm1.out);
    n := m;
    if es != [] {
      var env := EnvOf(names, vm);
      var f := GenExpr(es[0], names, line, p, k);
      var first := Cat(f, One(ListPush, line));
      var rest := GenElements(es[1..], names, line, p + |first.code|, k + |first.consts|);
      AtCat(prog, p, k, first, rest, bt, ct);
      AtCat(prog, p, k, f, One(ListPush, line), bt, ct);
      AtOne(prog, p + |f.code|, k + |f.consts|, ListPush, line, bt, ct);
      PushedKeeps(names, vm, p, VList(list), vm1.out);
      var a := T.EvalExpr(host, env, es[0], line, vm1.out);
      var j := ExprRuns(host, prog, es[0], names, line, p, k, vm1, bt, ct);
      if a.result.Bad? {
        Propagate(host, prog, names, vm, m, vm1, j, p + |f.code|, a, p + |first.code| + |rest.code|);
        n := m + j;
      } else {
        var vm2 := Pushed(vm1, p + |f.code|, a.result.value, a.out);
        Then(host, prog, Running(vm), m, Running(vm1), j, Running(vm2));
        n := AppendRuns(host, prog, names, line, vm, list, a.result.value, m + j, vm2);
        var longer := AppendElement(host, list, a.result.value, line);
        if longer.Good? {
          var vm3 := Pushed(vm, p + |first.code|, VList(longer.value), a.out);
          n := ElementsRun(host, prog, es[1..], names, line, p + |first.code|, k + |first.consts|, vm, longer.value, n, vm3, bt, ct);
        }
      }
    }
  }

  lemma AppendRuns(host: Host, prog: Program, names: seq<string>, line: nat, vm: Vm, list: seq<Value>, v: Value, m: nat, vm2: Vm)
    returns (n: nat)
    requires |names| <= |vm.stack| && Shielded(vm.handlers, |names|, vm2.ip + 1)
    requires vm2 == vm.(ip := vm2.ip, stack := vm.stack + [VList(list)] + [v], out := vm2.out)
    requires Steps(host, prog, Running(vm), m) == Running(vm2)
    requires vm2.ip < |prog.code| && prog.code[vm2.ip] == Instr(ListPush, line)
    ensures var r := AppendElement(host, list, v, line);
            Delivers(host, prog, vm, n, vm2.ip + 1,
                     T.Evaluated(if r.Good? then Good(VList(r.value)) else Bad(r.fault), vm2.out))
  {
    hide Raise, Steps, Depth;
    var r := AppendElement(host, list, v, line);
    var at := |vm.stack|;
    assert vm2.stack[at] == VList(list) && vm2.stack[at + 1] == v;
    assert vm2.stack[..at] == vm.stack;
    Conclude(host, prog, names, vm, m, vm2, if r.Good? then Good(VList(r.value)) else Bad(r.fault), Drop(vm2, 1).(ip := vm2.ip + 1));
    n := m + 1;
  }
}

/** The part of the virtual machine (`src/vm.rs`, `src/opcode.rs`) that runs one call frame: value
    stack, try handlers, the registry of runtime globals, fuel, and the instruction watchdog. */
module Machine {
  import opened Lang

  datatype MutationTarget = LocalTarget(slot: nat) | GlobalTarget(name: string)

  datatype OpCode =
    | LoadConst(index: nat)
    | Add | Sub | Mul | Div | Mod | Eq | NotEq | Lt | Gt | LtEq | GtEq
    | Not | Negate
    | GetLocal(slot: nat)
    | SetLocal(slot: nat)
    | GetGlobal(name: string)
    | SetGlobal(name: string)
    | RegisterGlobal(name: string, slot: nat)
    | RequireGlobal(name: string)
    | Jump(target: nat)
    | JumpIfFalse(target: nat)
    | JumpIfFalseKeep(target: nat)
    | JumpIfTrueKeep(target: nat)
    | Loop(target: nat)
    | ReturnValue
    | Print(count: nat)
    | Pop
    | PopN(count: nat)
    | LenLocal(slot: nat)
    | Index
    | IndexLocal(slot: nat)
    | ListPush
    | SetIndex(dest: MutationTarget)
    | ToIterList
    | Return
    | SetupTry(target: nat)
    | TeardownTry

  /** A chunk, with each instruction beside its source line. */
  datatype Instr = Instr(op: OpCode, line: nat)
  datatype Program = Program(code: seq<Instr>, constants: seq<Value>, totalFuel: nat)

  datatype Handler = Handler(catchIp: nat, stackDepth: nat)

  datatype Vm = Vm(
    ip: nat, stack: seq<Value>, handlers: seq<Handler>, globals: map<string, nat>,
    fuel: nat, ticks: nat, out: seq<string>)

  datatype Config =
    | Running(vm: Vm)
    | Finished(fuel: nat, out: seq<string>)
    | Stopped(fault: Fault, fuel: nat, out: seq<string>)

  // ----- Arithmetic, as the VM dispatches it -----

  function BinaryAdd(l: Value, r: Value, line: nat): Outcome<Value> {
    match (l, r)
    case (VInt(a), VInt(b)) => Checked(a + b, OnAdd, line)
    case (VStr(a), VStr(b)) => Good(VStr(a + b))
    case (VStr(a), VError(_, m, _)) => Good(VStr(a + m))
    case (VError(_, m, _), VStr(b)) => Good(VStr(m + b))
    case _ => Bad(Fault(ArithmeticType(BinOp.Add, TypeOf(l), TypeOf(r)), line))
  }

  function BinarySub(l: Value, r: Value, line: nat): Outcome<Value> {
    match (l, r)
    case (VInt(a), VInt(b)) => Checked(a - b, OnSub, line)
    case _ => Bad(Fault(ArithmeticType(BinOp.Sub, TypeOf(l), TypeOf(r)), line))
  }

  function BinaryMul(l: Value, r: Value, line: nat): Outcome<Value> {
    match (l, r)
    case (VInt(a), VInt(b)) => Checked(a * b, OnMul, line)
    case _ => Bad(Fault(ArithmeticType(BinOp.Mul, TypeOf(l), TypeOf(r)), line))
  }

  function BinaryDiv(l: Value, r: Value, line: nat): Outcome<Value> {
    match (l, r)
    case (VInt(a), VInt(b)) =>
      if b == 0 then Bad(Fault(ZeroDivision, line)) else Checked(TruncDiv(a, b), OnDiv, line)
    case _ => Bad(Fault(ArithmeticType(BinOp.Div, TypeOf(l), TypeOf(r)), line))
  }

  function BinaryMod(l: Value, r: Value, line: nat): Outcome<Value> {
    match (l, r)
    case (VInt(a), VInt(b)) =>
      if b == 0 then Bad(Fault(ZeroDivision, line))
      else if !InI64(TruncDiv(a, b)) then Bad(Fault(IntOverflow(OnMod), line))
      else Good(VInt(TruncRem(a, b)))
    case _ => Bad(Fault(ArithmeticType(BinOp.Mod, TypeOf(l), TypeOf(r)), line))
  }

  function Compare(op: BinOp, less: bool, equal: bool, greater: bool, l: Value, r: Value, line: nat): Outcome<Value> {
    if l.VInt? && r.VInt? then
      Good(VBool(if l.n < r.n then less else if l.n == r.n then equal else greater))
    else Bad(Fault(ComparisonType(op, TypeOf(l), TypeOf(r)), line))
  }

  function Negated(v: Value, line: nat): Outcome<Value> {
    match v
    case VInt(n) => Checked(-n, OnNegate, line)
    case _ => Bad(Fault(UnaryType(Neg, TypeOf(v)), line))
  }

  /** The instructions that replace two operands by a result. */
  predicate IsBinary(op: OpCode) {
    op.Add? || op.Sub? || op.Mul? || op.Div? || op.Mod? || op.Eq? || op.NotEq?
    || op.Lt? || op.Gt? || op.LtEq? || op.GtEq?
  }

  function ApplyBinary(op: OpCode, l: Value, r: Value, line: nat): Outcome<Value>
    requires IsBinary(op)
  {
    match op
    case Add => BinaryAdd(l, r, line)
    case Sub => BinarySub(l, r, line)
    case Mul => BinaryMul(l, r, line)
    case Div => BinaryDiv(l, r, line)
    case Mod => BinaryMod(l, r, line)
    case Eq => Good(VBool(l == r))
    case NotEq => Good(VBool(!(l == r)))
    case Lt => Compare(BinOp.Lt, true, false, false, l, r, line)
    case Gt => Compare(BinOp.Gt, false, false, true, l, r, line)
    case LtEq => Compare(BinOp.LtEq, true, true, false, l, r, line)
    case GtEq => Compare(BinOp.GtEq, false, true, true, l, r, line)
  }

  // ----- Dispatch of one instruction -----

  datatype Dispatched = Next(vm: Vm) | Done(vm: Vm) | Fails(cause: Cause, vm: Vm)

  function Push(vm: Vm, v: Value): Vm { vm.(stack := vm.stack + [v]) }

  function Drop(vm: Vm, n: nat): Vm
    requires n <= |vm.stack|
  {
    vm.(stack := vm.stack[..|vm.stack| - n])
  }

  function Top(vm: Vm): Value
    requires vm.stack != []
  {
    vm.stack[|vm.stack| - 1]
  }

  function Settle(vm: Vm, r: Outcome<Value>): Dispatched {
    match r
    case Good(v) => Next(Push(vm, v))
    case Bad(f) => Fails(f.cause, vm)
  }

  /** One unit of fuel. */
  function CountStep(vm: Vm): Dispatched {
    if vm.fuel == 0 then Fails(StepLimit, vm) else Next(vm.(fuel := vm.fuel - 1))
  }

  /** `vm.ip` already points behind the instruction. */
  function Dispatch(host: Host, prog: Program, instr: Instr, vm: Vm): Dispatched {
    var op := instr.op;
    if op.Jump? || op.JumpIfFalse? || op.JumpIfFalseKeep? || op.JumpIfTrueKeep? || op.Loop? then DispatchJump(op, vm)
    else if op.SetupTry? then
      Next(vm.(handlers := vm.handlers + [Handler(op.target, |vm.stack|)]))
    else if op.TeardownTry? then
      Next(vm.(handlers := if vm.handlers == [] then [] else vm.handlers[..|vm.handlers| - 1]))
    else if op.Return? then Done(vm)
    else if op.ReturnValue? then
      if vm.stack == [] then Fails(Internal, vm) else Done(vm.(stack := [], handlers := []))
    else if IsBinary(op) then
      if |vm.stack| < 2 then Fails(Internal, vm)
      else
        var n := |vm.stack|;
        Settle(Drop(vm, 2), ApplyBinary(op, vm.stack[n - 2], vm.stack[n - 1], instr.line))
    else if op.GetGlobal? || op.SetGlobal? || op.RegisterGlobal? || op.RequireGlobal? then DispatchGlobal(op, vm)
    else if op.LenLocal? || op.Index? || op.IndexLocal? || op.ListPush? || op.SetIndex? || op.ToIterList? then
      DispatchCollection(host, op, instr.line, vm)
    else DispatchPlain(host, prog, op, instr.line, vm)
  }

  function DispatchJump(op: OpCode, vm: Vm): Dispatched
    requires op.Jump? || op.JumpIfFalse? || op.JumpIfFalseKeep? || op.JumpIfTrueKeep? || op.Loop?
  {
    match op
    case Jump(t) => Next(vm.(ip := t))
    case Loop(t) =>
      var charged := CountStep(vm);
      if charged.Next? then Next(charged.vm.(ip := t)) else charged
    case JumpIfFalse(t) =>
      if vm.stack == [] then Fails(Internal, vm)
      else if Truthy(Top(vm)) then Next(Drop(vm, 1))
      else Next(Drop(vm, 1).(ip := t))
    case JumpIfFalseKeep(t) =>
      if vm.stack == [] then Fails(Internal, vm)
      else if Truthy(Top(vm)) then Next(vm)
      else Next(vm.(ip := t))
    case JumpIfTrueKeep(t) =>
      if vm.stack == [] then Fails(Internal, vm)
      else if Truthy(Top(vm)) then Next(vm.(ip := t))
      else Next(vm)
  }

  function DispatchGlobal(op: OpCode, vm: Vm): Dispatched
    requires op.GetGlobal? || op.SetGlobal? || op.RegisterGlobal? || op.RequireGlobal?
  {
    match op
    case GetGlobal(name) =>
      if name !in vm.globals then Fails(UndefinedName(name), vm)
      else if vm.globals[name] < |vm.stack| then Next(Push(vm, vm.stack[vm.globals[name]]))
      else Fails(Internal, vm)
    case SetGlobal(name) =>
      if vm.stack == [] then Fails(Internal, vm)
      else if name !in vm.globals then Fails(AssignUndefined(name), vm)
      else if vm.globals[name] < |vm.stack| then Next(vm.(stack := vm.stack[vm.globals[name] := Top(vm)]))
      else Fails(Internal, vm)
    case RegisterGlobal(name, slot) =>
      if slot < |vm.stack| then Next(vm.(globals := vm.globals[name := slot])) else Fails(Internal, vm)
    case RequireGlobal(name) =>
      if name in vm.globals then Next(vm) else Fails(UndefinedName(name), vm)
  }

  function DispatchCollection(host: Host, op: OpCode, line: nat, vm: Vm): Dispatched
    requires op.LenLocal? || op.Index? || op.IndexLocal? || op.ListPush? || op.SetIndex? || op.ToIterList?
  {
    var n := |vm.stack|;
    match op
    case LenLocal(slot) =>
      if slot < n then Settle(vm, Len(vm.stack[slot], line)) else Fails(Internal, vm)
    case Index =>
      if n < 2 then Fails(Internal, vm)
      else Settle(Drop(vm, 2), EvalIndex(host, vm.stack[n - 2], vm.stack[n - 1], line))
    case IndexLocal(slot) =>
      if n < 1 || slot >= n - 1 then Fails(Internal, vm)
      else Settle(Drop(vm, 1), EvalIndex(host, vm.stack[slot], vm.stack[n - 1], line))
    case ListPush =>
      if n < 2 || !vm.stack[n - 2].VList? then Fails(Internal, vm)
      else
        var longer := AppendElement(host, vm.stack[n - 2].elements, vm.stack[n - 1], line);
        if longer.Bad? then Fails(longer.fault.cause, Drop(vm, 1))
        else Next(Push(Drop(vm, 2), VList(longer.value)))
    case SetIndex(dest) =>
      if n < 2 then Fails(Internal, vm)
      else DispatchSetIndex(dest, vm.stack[n - 2], vm.stack[n - 1], line, Drop(vm, 2))
    case ToIterList =>
      if n < 1 then Fails(Internal, vm)
      else
        var items := IterItems(host, Top(vm), line);
        if items.Bad? then Fails(items.fault.cause, Drop(vm, 1))
        else Next(Push(Drop(vm, 1), VList(items.value)))
  }

  function DispatchSetIndex(dest: MutationTarget, index: Value, v: Value, line: nat, vm: Vm): Dispatched {
    if dest.GlobalTarget? && dest.name !in vm.globals then Fails(UndefinedName(dest.name), vm)
    else
      var slot := if dest.LocalTarget? then dest.slot else vm.globals[dest.name];
      if slot >= |vm.stack| then Fails(Internal, vm)
      else
        var updated := AssignIndex(vm.stack[slot], index, v, line);
        if updated.Bad? then Fails(updated.fault.cause, vm)
        else Next(vm.(stack := vm.stack[slot := updated.value]))
  }

  function DispatchPlain(host: Host, prog: Program, op: OpCode, line: nat, vm: Vm): Dispatched {
    match op
    case LoadConst(index) =>
      if index < |prog.constants| then Next(Push(vm, prog.constants[index])) else Fails(Internal, vm)
    case Not =>
      if vm.stack == [] then Fails(Internal, vm) else Next(Push(Drop(vm, 1), VBool(!Truthy(Top(vm)))))
    case Negate =>
      if vm.stack == [] then Fails(Internal, vm) else Settle(Drop(vm, 1), Negated(Top(vm), line))
    case GetLocal(slot) =>
      if slot < |vm.stack| then Next(Push(vm, vm.stack[slot])) else Fails(Internal, vm)
    case SetLocal(slot) =>
      if vm.stack == [] || slot >= |vm.stack| then Fails(Internal, vm)
      else Next(vm.(stack := vm.stack[slot := Top(vm)]))
    case Print(count) =>
      if count > |vm.stack| then Fails(Internal, vm)
      else
        var payload := Joined(host, vm.stack[|vm.stack| - count..]);
        Next(Drop(vm, count).(out := vm.out + [payload]))
    case Pop =>
      if vm.stack == [] then Fails(Internal, vm) else Next(Drop(vm, 1))
    case PopN(count) =>
      if count > |vm.stack| then Fails(Internal, vm) else Next(Drop(vm, count))
    case _ => Fails(Internal, vm)
  }

  // ----- The run loop -----

  /** An error unwinds to the innermost handler, unless no handler may see it. */
  function Raise(host: Host, f: Fault, vm: Vm): Config {
    if IsUncatchable(f.cause) || vm.handlers == [] then Stopped(f, vm.fuel, vm.out)
    else
      var h := vm.handlers[|vm.handlers| - 1];
      var kept := if h.stackDepth <= |vm.stack| then vm.stack[..h.stackDepth] else vm.stack;
      Running(vm.(
        ip := h.catchIp,
        stack := kept + [ErrorValue(host, f)],
        handlers := vm.handlers[..|vm.handlers| - 1]))
  }

  function WatchdogLimit(prog: Program): nat { prog.totalFuel * 2 + 16 }

  /** An instruction that did not move forward counts against the watchdog. */
  function Watch(prog: Program, before: nat, line: nat, c: Config): Config {
    if c.Running? && c.vm.ip <= before then
      var vm := c.vm.(ticks := c.vm.ticks + 1);
      if vm.ticks > WatchdogLimit(prog) then Stopped(Fault(StepLimit, line), vm.fuel, vm.out) else Running(vm)
    else c
  }

  function Step(host: Host, prog: Program, c: Config): Config {
    if !c.Running? then c
    else if c.vm.ip >= |prog.code| then Finished(c.vm.fuel, c.vm.out)
    else
      var instr := prog.code[c.vm.ip];
      match Dispatch(host, prog, instr, c.vm.(ip := c.vm.ip + 1))
      case Next(vm) => Watch(prog, c.vm.ip, instr.line, Running(vm))
      case Done(vm) => Finished(vm.fuel, vm.out)
      case Fails(cause, vm) => Watch(prog, c.vm.ip, instr.line, Raise(host, Fault(cause, instr.line), vm))
  }

  function Steps(host: Host, prog: Program, c: Config, n: nat): Config
    decreases n
  {
    if n == 0 then c else Steps(host, prog, Step(host, prog, c), n - 1)
  }

  lemma {:induction false} StepsAdd(host: Host, prog: Program, c: Config, m: nat, n: nat)
    ensures Steps(host, prog, c, m + n) == Steps(host, prog, Steps(host, prog, c, m), n)
    decreases m
  {
    if m > 0 {
      StepsAdd(host, prog, Step(host, prog, c), m - 1, n);
    }
  }

  function Start(fuel: nat): Config {
    Running(Vm(0, [], [], map[], fuel, 0, []))
  }
}

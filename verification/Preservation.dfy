/** The main results about the compiler: what the virtual machine does with the emitted code is what
    the tree evaluator does with the program. */
module Preservation {
  import opened Lang
  import T = Tree
  import S = Slots
  import opened Machine
  import opened CodeGen
  import opened ExprSimulation
  import opened StmtSimulation
  import Agreement

  /** The chunk of a program, with the fuel it is given. */
  function Compiled(program: seq<Stmt>, fuel: nat): Program
    requires CompilableAll(program, false)
  {
    var f := GenProgram(program);
    Program(f.code, f.consts, fuel)
  }

  /** What an embedder sees of a machine that has come to rest. */
  function ReportOf(c: Config): Option<T.Report> {
    match c
    case Running(_) => None
    case Finished(fuel, out) => Some(T.Report(None, fuel, out))
    case Stopped(f, fuel, out) => Some(T.Report(Some(f), fuel, out))
  }

  /** The machine, started on the chunk, comes to rest with this report. */
  ghost predicate Reports(host: Host, prog: Program, r: T.Report) {
    exists n: nat :: ReportOf(Steps(host, prog, Start(prog.totalFuel), n)) == Some(r)
  }

  lemma {:induction false} RestIsFinal(host: Host, prog: Program, c: Config, n: nat)
    requires !c.Running?
    ensures Steps(host, prog, c, n) == c
    decreases n
  {
    if n > 0 {
      RestIsFinal(host, prog, c, n - 1);
    }
  }

  /** A machine comes to rest in one way only. */
  lemma ReportIsUnique(host: Host, prog: Program, a: T.Report, b: T.Report)
    requires Reports(host, prog, a) && Reports(host, prog, b)
    ensures a == b
  {
    hide Step;
    var c := Start(prog.totalFuel);
    var m: nat :| ReportOf(Steps(host, prog, c, m)) == Some(a);
    var n: nat :| ReportOf(Steps(host, prog, c, n)) == Some(b);
    if m <= n {
      StepsAdd(host, prog, c, m, n - m);
      RestIsFinal(host, prog, Steps(host, prog, c, m), n - m);
    } else {
      StepsAdd(host, prog, c, n, m - n);
      RestIsFinal(host, prog, Steps(host, prog, c, n), m - n);
    }
  }

  /** The whole program sits at the start of its own chunk. */
  lemma WholeProgramAt(program: seq<Stmt>, fuel: nat)
    requires CompilableAll(program, false)
    ensures At(Compiled(program, fuel), 0, 0, GenProgram(program), 0, 0)
  {
    hide GenBlock, CompilableAll;
    var f := GenProgram(program);
    forall i {:trigger Linked(f, 0, i, 0, 0)} | 0 <= i < |f.code|
      ensures f.code[0 + i] == Linked(f, 0, i, 0, 0)
    {
    }
  }

  /** Every compilable program, with any amount of fuel: the machine comes to rest with the report of
      the slot semantics. No hidden-name or purity condition is needed here. */
  lemma SlotsReport(host: Host, program: seq<Stmt>, fuel: nat)
    requires CompilableAll(program, false)
    ensures Reports(host, Compiled(program, fuel), S.RunProgram(host, program, fuel))
  {
    hide GenBlock, CompilableAll, S.ExecBlock, Steps, At, Raise, Dispatch;
    var prog := Compiled(program, fuel);
    var f := GenBlock(program, [], true, None, 0, 0);
    WholeProgramAt(program, fuel);
    AtCat(prog, 0, 0, f, One(OpCode.Return, 0), 0, 0);
    AtOne(prog, |f.code|, |f.consts|, OpCode.Return, 0, 0, 0);
    var w := Place(host, prog, 0, true, None, 0, 0);
    var fr := S.Frame([], [], fuel, []);
    var vm := Start(fuel).vm;
    var n := BlockRuns(w, program, fr, 0, 0, vm);
    var r := S.ExecBlock(host, program, fr);
    if r.flow.Normal? {
      var vm1 := Moved(prog, vm, |f.code|, r.fr).(globals := GlobalsAfter(program, true, [], map[]));
      ReturnStep(host, prog, vm1);
      Then(host, prog, Running(vm), n, Running(vm1), 1, Finished(r.fr.fuel, r.fr.out));
      n := n + 1;
    } else if r.flow.Failing? {
      Unhandled(host, r.flow.fault, Moved(prog, vm, 0, S.Shrink(r.fr, 0)));
    }
    assert ReportOf(Steps(host, prog, Start(fuel), n)) == Some(S.RunProgram(host, program, fuel));
  }

  lemma ReturnStep(host: Host, prog: Program, vm: Vm)
    requires vm.ip < |prog.code| && prog.code[vm.ip] == Instr(OpCode.Return, 0)
    ensures Steps(host, prog, Running(vm), 1) == Finished(vm.fuel, vm.out)
  {
    hide Steps;
    Advance(host, prog, vm, 0);
  }

  lemma Unhandled(host: Host, f: Fault, vm: Vm)
    requires vm.handlers == []
    ensures Raise(host, f, vm) == Stopped(f, vm.fuel, vm.out)
  {
  }

  /** Compilation preserves meaning: same error with the same line, same remaining fuel, same output,
      with any amount of fuel, for every program that names no hidden loop local. Under the evaluator
      that repeats `while` conditions on entry, these conditions must contain no call. */
  lemma CompilationPreservesMeaning(host: Host, program: seq<Stmt>, fuel: nat)
    requires CompilableAll(program, false) && Agreement.FitAll(host, program)
    ensures Reports(host, Compiled(program, fuel), T.RunProgram(host, program, fuel))
    ensures forall r :: Reports(host, Compiled(program, fuel), r) ==> r == T.RunProgram(host, program, fuel)
  {
    hide Compiled, S.RunProgram, T.RunProgram, Reports, CompilableAll;
    SlotsReport(host, program, fuel);
    Agreement.ProgramAgrees(host, program, fuel);
    forall r | Reports(host, Compiled(program, fuel), r)
      ensures r == T.RunProgram(host, program, fuel)
    {
      ReportIsUnique(host, Compiled(program, fuel), r, T.RunProgram(host, program, fuel));
    }
  }

  /** The defensive branches of the machine are out of reach of compiled code: no compilable program
      ends with an internal error, whatever names it uses. */
  lemma NoInternalError(host: Host, program: seq<Stmt>, fuel: nat, r: T.Report)
    requires CompilableAll(program, false) && Reports(host, Compiled(program, fuel), r)
    ensures r.fault.Some? ==> r.fault.value.cause != Internal
  {
    hide Compiled, Reports, CompilableAll, S.ExecBlock;
    SlotsReport(host, program, fuel);
    ReportIsUnique(host, Compiled(program, fuel), r, S.RunProgram(host, program, fuel));
  }
}

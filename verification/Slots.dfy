/** The same statements over numbered slots: what the lowering in `src/compiler.rs` makes of scopes.
    A name means the last slot that carries it, a block gives its slots back when it is left, and a
    `for` keeps its list and its counter in two slots of its own. */
module Slots {
  import opened Lang
  import opened Tree

  const COLLECTION: string := "__collection__"
  const INDEX: string := "__index__"

  /** The last slot carrying the name (`resolve_local`). */
  function Resolve(names: seq<string>, name: string): (r: Option<nat>)
    ensures r.Some? ==> r.value < |names| && names[r.value] == name
    ensures r.Some? ==> forall i :: r.value < i < |names| ==> names[i] != name
    ensures r.None? ==> name !in names
  {
    if names == [] then None
    else if names[|names| - 1] == name then Some(|names| - 1)
    else Resolve(names[..|names| - 1], name)
  }

  /** The bindings that the slots stand for. */
  function Bindings(names: seq<string>, vals: seq<Value>): (m: Scope)
    requires |names| == |vals|
    ensures forall n :: n in m <==> n in names
  {
    if names == [] then map[]
    else
      var last := |names| - 1;
      Bindings(names[..last], vals[..last])[names[last] := vals[last]]
  }

  lemma {:induction false} BindingsAt(names: seq<string>, vals: seq<Value>, name: string)
    requires |names| == |vals|
    ensures match Resolve(names, name)
            case Some(i) => name in Bindings(names, vals) && Bindings(names, vals)[name] == vals[i]
            case None => name !in Bindings(names, vals)
  {
    if names != [] {
      BindingsAt(names[..|names| - 1], vals[..|names| - 1], name);
    }
  }

  datatype Frame = Frame(names: seq<string>, vals: seq<Value>, fuel: nat, out: seq<string>)
  {
    predicate Valid() { |names| == |vals| }

    function Env(): Scope requires Valid() { Bindings(names, vals) }
  }

  datatype SlotStep = SlotStep(flow: Flow, fr: Frame)

  /** An error, if any, is one that the language defines. */
  predicate SourceFault(flow: Flow) { flow.Failing? ==> flow.fault.cause != Internal }

  /** What every execution keeps: the slots in use at the start stay, with their names. */
  ghost predicate Extends(fr: Frame, r: SlotStep) {
    && r.fr.Valid()
    && SourceFault(r.flow)
    && fr.names <= r.fr.names
    && r.fr.fuel <= fr.fuel
  }

  function Declare(fr: Frame, name: string, v: Value): Frame {
    fr.(names := fr.names + [name], vals := fr.vals + [v])
  }

  /** Give back every slot from `n` on. */
  function Shrink(fr: Frame, n: nat): Frame {
    if n <= |fr.names| && n <= |fr.vals| then fr.(names := fr.names[..n], vals := fr.vals[..n]) else fr
  }

  function Eval(host: Host, e: Expr, line: nat, fr: Frame): Evaluated<Value>
    requires fr.Valid()
  {
    EvalExpr(host, fr.Env(), e, line, fr.out)
  }

  function NamesAfterStmt(s: Stmt, names: seq<string>): seq<string> {
    if s.Let? then names + [s.name] else names
  }

  function NamesAfter(ss: seq<Stmt>, names: seq<string>): (r: seq<string>)
    ensures names <= r
  {
    if ss == [] then names else NamesAfter(ss[1..], NamesAfterStmt(ss[0], names))
  }

  function ExecStmt(host: Host, s: Stmt, fr: Frame): (r: SlotStep)
    requires fr.Valid()
    ensures Extends(fr, r)
    ensures r.flow.Normal? ==> r.fr.names == NamesAfterStmt(s, fr.names)
    decreases fr.fuel, s, 2
  {
    match s
    case Let(name, value, line) =>
      var v := Eval(host, value, line, fr);
      var fr' := fr.(out := v.out);
      if v.result.Bad? then SlotStep(Failing(v.result.fault), fr')
      else SlotStep(Normal, Declare(fr', name, v.result.value))
    case Assign(name, value, line) =>
      var v := Eval(host, value, line, fr);
      var fr' := fr.(out := v.out);
      if v.result.Bad? then SlotStep(Failing(v.result.fault), fr')
      else
        (match Resolve(fr.names, name)
         case None => SlotStep(Failing(Fault(AssignUndefined(name), line)), fr')
         case Some(slot) => SlotStep(Normal, fr'.(vals := fr.vals[slot := v.result.value])))
    case IndexAssign(name, index, value, line) => ExecIndexAssign(host, name, index, value, line, fr)
    case ExprStmt(expr, line) =>
      var v := Eval(host, expr, line, fr);
      var fr' := fr.(out := v.out);
      if v.result.Bad? then SlotStep(Failing(v.result.fault), fr') else SlotStep(Normal, fr')
    case If(cond, thenBody, elseBody, line) =>
      var v := Eval(host, cond, line, fr);
      var fr' := fr.(out := v.out);
      if v.result.Bad? then SlotStep(Failing(v.result.fault), fr')
      else if Truthy(v.result.value) then ExecScoped(host, thenBody, fr', |fr.names|)
      else ExecScoped(host, elseBody, fr', |fr.names|)
    case While(cond, body, line) => WhileLoop(host, s, fr)
    case For(binder, iter, body, line) =>
      var v := Eval(host, iter, line, fr);
      var fr' := fr.(out := v.out);
      if v.result.Bad? then SlotStep(Failing(v.result.fault), fr')
      else
        var items := IterItems(host, v.result.value, line);
        if items.Bad? then SlotStep(Failing(items.fault), fr')
        else
          var entered := Declare(Declare(Declare(fr', COLLECTION, VList(items.value)), INDEX, VInt(0)), binder, VNull);
          var r := ForLoop(host, s, |fr.names|, entered);
          r.(fr := Shrink(r.fr, |fr.names|))
    case Break(line) => SlotStep(Breaking(line), fr)
    case Continue(line) => SlotStep(Continuing(line), fr)
    case TryCatch(tryBody, binder, catchBody, line) =>
      var r := ExecScoped(host, tryBody, fr, |fr.names|);
      if r.flow.Failing? && !IsUncatchable(r.flow.fault.cause) then
        ExecScoped(host, catchBody, Declare(r.fr, binder, ErrorValue(host, r.flow.fault)), |fr.names|)
      else r
    case Return(value, line) =>
      var v := Eval(host, value, line, fr);
      var fr' := fr.(out := v.out);
      if v.result.Bad? then SlotStep(Failing(v.result.fault), fr') else SlotStep(Returning(v.result.value), fr')
  }

  function ExecIndexAssign(host: Host, name: string, index: Expr, value: Expr, line: nat, fr: Frame): (r: SlotStep)
    requires fr.Valid()
    ensures Extends(fr, r) && r.fr.names == fr.names
  {
    match Resolve(fr.names, name)
    case None => SlotStep(Failing(Fault(UndefinedName(name), line)), fr)
    case Some(slot) =>
      var i := Eval(host, index, line, fr);
      if i.result.Bad? then SlotStep(Failing(i.result.fault), fr.(out := i.out))
      else
        var v := Eval(host, value, line, fr.(out := i.out));
        var fr' := fr.(out := v.out);
        if v.result.Bad? then SlotStep(Failing(v.result.fault), fr')
        else
          var updated := AssignIndex(fr.vals[slot], i.result.value, v.result.value, line);
          if updated.Bad? then SlotStep(Failing(updated.fault), fr')
          else SlotStep(Normal, fr'.(vals := fr.vals[slot := updated.value]))
  }

  function ExecBlock(host: Host, ss: seq<Stmt>, fr: Frame): (r: SlotStep)
    requires fr.Valid()
    ensures Extends(fr, r)
    ensures r.flow.Normal? ==> r.fr.names == NamesAfter(ss, fr.names)
    decreases fr.fuel, ss, 0
  {
    if ss == [] then SlotStep(Normal, fr)
    else
      var r := ExecStmt(host, ss[0], fr);
      if r.flow.Normal? then ExecBlock(host, ss[1..], r.fr) else r
  }

  /** A block whose slots, from slot `keep` on, are given back when it is left. */
  function ExecScoped(host: Host, ss: seq<Stmt>, fr: Frame, keep: nat): (r: SlotStep)
    requires fr.Valid() && keep <= |fr.names|
    ensures r.fr.Valid() && r.fr.names == fr.names[..keep] && r.fr.fuel <= fr.fuel && SourceFault(r.flow)
    decreases fr.fuel, ss, 1
  {
    var r := ExecBlock(host, ss, fr);
    r.(fr := Shrink(r.fr, keep))
  }

  function Charge(fr: Frame, line: nat): (r: SlotStep)
    ensures r.fr.names == fr.names && r.fr.vals == fr.vals && r.fr.out == fr.out
    ensures r.flow.Normal? ==> r.fr.fuel + 1 == fr.fuel
    ensures !r.flow.Normal? ==> r == SlotStep(Failing(Fault(StepLimit, line)), fr)
  {
    if fr.fuel == 0 then SlotStep(Failing(Fault(StepLimit, line)), fr)
    else SlotStep(Normal, fr.(fuel := fr.fuel - 1))
  }

  function WhileLoop(host: Host, s: Stmt, fr: Frame): (r: SlotStep)
    requires s.While? && fr.Valid()
    ensures r.fr.Valid() && r.fr.names == fr.names && r.fr.fuel <= fr.fuel && SourceFault(r.flow)
    ensures !r.flow.Breaking? && !r.flow.Continuing?
    decreases fr.fuel, s, 1
  {
    var v := Eval(host, s.cond, s.line, fr);
    var fr' := fr.(out := v.out);
    if v.result.Bad? then SlotStep(Failing(v.result.fault), fr')
    else if !Truthy(v.result.value) then SlotStep(Normal, fr')
    else
      var b := ExecScoped(host, s.body, fr', |fr.names|);
      match b.flow
      case Breaking(_) => SlotStep(Normal, b.fr)
      case Returning(_) => b
      case Failing(_) => b
      case _ =>
        var c := Charge(b.fr, s.line);
        if c.flow.Normal? then WhileLoop(host, s, c.fr) else c
  }

  /** The loop head of a `for`: slot `at` holds the list, `at + 1` the counter, `at + 2` the variable. */
  function ForHead(host: Host, at: nat, line: nat, fr: Frame): (r: Outcome<Option<Value>>)
    requires fr.Valid() && at + 3 == |fr.names|
    ensures r.Bad? ==> r.fault.cause != Internal
  {
    var len := Len(fr.vals[at], line);
    if len.Bad? then Bad(len.fault)
    else
      var more := EvalComparison(Lt, fr.vals[at + 1], len.value, line);
      if more.Bad? then Bad(more.fault)
      else if !Truthy(more.value) then Good(None)
      else
        var item := EvalIndex(host, fr.vals[at], fr.vals[at + 1], line);
        if item.Bad? then Bad(item.fault) else Good(Some(item.value))
  }

  function ForLoop(host: Host, s: Stmt, at: nat, fr: Frame): (r: SlotStep)
    requires s.For? && fr.Valid() && at + 3 == |fr.names|
    ensures r.fr.Valid() && r.fr.names == fr.names && r.fr.fuel <= fr.fuel && SourceFault(r.flow)
    ensures !r.flow.Breaking? && !r.flow.Continuing?
    decreases fr.fuel, s, 1
  {
    var head := ForHead(host, at, s.line, fr);
    if head.Bad? then SlotStep(Failing(head.fault), fr)
    else if head.value.None? then SlotStep(Normal, fr)
    else
      var b := ExecScoped(host, s.body, fr.(vals := fr.vals[at + 2 := head.value.value]), at + 3);
      match b.flow
      case Breaking(_) => SlotStep(Normal, b.fr)
      case Returning(_) => b
      case Failing(_) => b
      case _ =>
        var next := EvalArithmetic(Add, b.fr.vals[at + 1], VInt(1), s.line);
        if next.Bad? then SlotStep(Failing(next.fault), b.fr)
        else
          var c := Charge(b.fr.(vals := b.fr.vals[at + 1 := next.value]), s.line);
          if c.flow.Normal? then ForLoop(host, s, at, c.fr) else c
  }

  function RunProgram(host: Host, program: seq<Stmt>, fuel: nat): Report {
    var r := ExecBlock(host, program, Frame([], [], fuel, []));
    Report(FaultOf(r.flow), r.fr.fuel, r.fr.out)
  }
}

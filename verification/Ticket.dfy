/** The ticket that an audit sink completes and the driver polls (`src/audit.rs`, `AuditTicket` and
    `AuditCompleter`): a lock over result, waker and cancel flag, and a flag `ready` beside it. Each call is
    split at its lock sections and its accesses to the flag; every interleaving of these steps is a schedule. */
module Ticket {

  datatype Option<+T> = None | Some(value: T)

  /** The ack or sink error that the completer stores. */
  type Outcome = int

  /** A waker is told apart by the call that registers it. */
  type CallId = nat

  datatype Kind = RegisterWaker | TryTake | Cancel

  /** Where a call is. */
  datatype Pc =
    | Storing           // register_waker, before its lock section
    | Rechecking        // register_waker, before it loads `ready`
    | WakingSelf        // register_waker, before it wakes its own waker
    | Probing           // try_take, before it loads `ready`
    | Taking            // try_take, before its lock section
    | Cancelling        // cancel, before its lock section
    | Returned(result: Option<Outcome>)

  datatype Call = Call(kind: Kind, pc: Pc)

  datatype CompleterPc =
    | Filling                           // before the result is stored
    | Announcing                        // before `ready` is set
    | Fetching                          // before the waker is read
    | Waking(waker: Option<CallId>)     // before the waker that was read is woken
    | Finished

  /** What happens, in the order it happens. */
  datatype Event = Stored(o: Outcome) | Readied | Woke(waker: CallId) | Cancelled(call: CallId) | Took(taker: CallId, o: Outcome)

  datatype State = State(
    result: Option<Outcome>, waker: Option<CallId>, cancelled: bool, ready: bool,
    completer: CompleterPc, calls: map<CallId, Call>, log: seq<Event>)

  /** `new_audit_ticket`: nothing stored, nobody waiting, the completer yet to run. */
  const INITIAL: State := State(None, None, false, false, Filling, map[], [])

  /** Who moves next: the completer, a call already begun, or a new call. */
  datatype Move = Complete | Continue(id: CallId) | Begin(id: CallId, kind: Kind)

  function Step(s: State, outcome: Outcome, m: Move): State {
    match m
    case Complete => CompleterStep(s, outcome)
    case Continue(id) => if id in s.calls then CallStep(s, id) else s
    case Begin(id, kind) =>
      if id in s.calls then s
      else
        var pc := match kind case RegisterWaker => Storing case TryTake => Probing case Cancel => Cancelling;
        s.(calls := s.calls[id := Call(kind, pc)])
  }

  /** `complete`: store once, announce, and only then look for the waker. */
  function CompleterStep(s: State, outcome: Outcome): State {
    match s.completer
    case Filling =>
      if s.result.Some? then s.(completer := Finished)
      else s.(result := Some(outcome), completer := Announcing, log := s.log + [Stored(outcome)])
    case Announcing => s.(ready := true, completer := Fetching, log := s.log + [Readied])
    case Fetching => s.(completer := Waking(s.waker))
    case Waking(None) => s.(completer := Finished)
    case Waking(Some(id)) => s.(completer := Finished, log := s.log + [Woke(id)])
    case Finished => s
  }

  function At(s: State, id: CallId, pc: Pc): map<CallId, Call>
    requires id in s.calls
  {
    s.calls[id := Call(s.calls[id].kind, pc)]
  }

  function CallStep(s: State, id: CallId): State
    requires id in s.calls
  {
    match s.calls[id].pc
    case Storing => s.(waker := Some(id), calls := At(s, id, Rechecking))
    case Rechecking => s.(calls := At(s, id, if s.ready then WakingSelf else Returned(None)))
    case WakingSelf => s.(calls := At(s, id, Returned(None)), log := s.log + [Woke(id)])
    case Probing => s.(calls := At(s, id, if s.ready then Taking else Returned(None)))
    case Taking =>
      if s.cancelled then s.(result := None, calls := At(s, id, Returned(None)))
      else
        s.(result := None, calls := At(s, id, Returned(s.result)),
           log := if s.result.Some? then s.log + [Took(id, s.result.value)] else s.log)
    case Cancelling =>
      s.(cancelled := true, result := None, calls := At(s, id, Returned(None)), log := s.log + [Cancelled(id)])
    case Returned(_) => s
  }

  function Run(s: State, outcome: Outcome, schedule: seq<Move>): State
    decreases |schedule|
  {
    if schedule == [] then s else Run(Step(s, outcome, schedule[0]), outcome, schedule[1..])
  }

  // ----- What every step keeps -----

  /** The waker was woken when the result could already be taken. */
  ghost predicate WokenInTime(log: seq<Event>, id: CallId) {
    exists i, j :: 0 <= i < j < |log| && log[i] == Readied && log[j] == Woke(id)
  }

  /** Once the flag is up, the waker in the slot has been woken since or is about to be: by its own call, which has
      yet to look at the flag, or by the completer, which has yet to read the slot or has read this waker. */
  ghost predicate WakeOwed(s: State) {
    s.ready && s.waker.Some? ==>
      || WokenInTime(s.log, s.waker.value)
      || (s.waker.value in s.calls && (s.calls[s.waker.value].pc.Rechecking? || s.calls[s.waker.value].pc.WakingSelf?))
      || s.completer.Fetching?
      || s.completer == Waking(s.waker)
  }

  /** The flag is up exactly from the announcement on, which follows the storing; and only then are wakers woken. */
  ghost predicate Announced(s: State) {
    && (s.ready <==> s.completer.Fetching? || s.completer.Waking? || s.completer.Finished?)
    && (s.ready <==> Readied in s.log)
    && (s.completer.Filling? ==> s.result.None?)
    && (forall id :: id in s.calls && (s.calls[id].pc.WakingSelf? || s.calls[id].pc.Taking?) ==> s.ready)
    && (forall j :: 0 <= j < |s.log| && s.log[j].Woke? ==> exists i :: 0 <= i < j && s.log[i] == Readied)
  }

  function Takes(log: seq<Event>): nat {
    if log == [] then 0 else Takes(log[..|log| - 1]) + if log[|log| - 1].Took? then 1 else 0
  }

  /** What was taken was returned by the call that took it. */
  ghost predicate TakesReturned(s: State, outcome: Outcome) {
    forall i :: 0 <= i < |s.log| && s.log[i].Took? ==>
      s.log[i].o == outcome && s.log[i].taker in s.calls && s.calls[s.log[i].taker] == Call(TryTake, Returned(Some(outcome)))
  }

  predicate Got(s: State, id: CallId) { id in s.calls && s.calls[id].pc.Returned? && s.calls[id].pc.result.Some? }

  /** What was returned was taken. */
  ghost predicate ReturnsTaken(s: State) {
    forall id :: Got(s, id) ==> Took(id, s.calls[id].pc.result.value) in s.log
  }

  /** A call does what it was begun for, and a cancellation that has returned took effect. */
  predicate CallFits(c: Call, id: CallId, log: seq<Event>) {
    && (c.pc.Probing? || c.pc.Taking? ==> c.kind.TryTake?)
    && (c.kind.Cancel? ==> c.pc.Cancelling? || (c.pc.Returned? && Cancelled(id) in log))
  }

  ghost predicate KindsFit(s: State) { forall id :: id in s.calls ==> CallFits(s.calls[id], id, s.log) }

  /** A call returned a result exactly when the log has it taking that result. */
  ghost predicate Answered(s: State, outcome: Outcome) {
    TakesReturned(s, outcome) && ReturnsTaken(s) && KindsFit(s)
  }

  /** The flag in the ticket shows the cancellations that took effect, and nothing was taken after one. */
  ghost predicate CancelsFinal(s: State) {
    && (forall i, j :: 0 <= j < i < |s.log| && s.log[i].Took? ==> !s.log[j].Cancelled?)
    && (s.cancelled <==> exists j :: 0 <= j < |s.log| && s.log[j].Cancelled?)
  }

  /** The result is stored at most once and taken at most once. */
  predicate Counted(s: State, outcome: Outcome) {
    && (s.result.Some? ==> s.result.value == outcome && Takes(s.log) == 0)
    && (s.completer.Filling? ==> Takes(s.log) == 0 && s.result.None?)
    && Takes(s.log) <= 1
    && (!s.completer.Filling? && !s.cancelled && Takes(s.log) == 0 ==> s.result.Some?)
  }

  ghost predicate Recorded(s: State, outcome: Outcome) { CancelsFinal(s) && Counted(s, outcome) }

  ghost predicate Inv(s: State, outcome: Outcome) {
    WakeOwed(s) && Announced(s) && Answered(s, outcome) && Recorded(s, outcome)
  }

  lemma TakesSnoc(log: seq<Event>, e: Event)
    ensures Takes(log + [e]) == Takes(log) + if e.Took? then 1 else 0
  {
    assert (log + [e])[..|log|] == log;
  }

  lemma InTimeSnoc(log: seq<Event>, e: Event, id: CallId)
    ensures WokenInTime(log, id) ==> WokenInTime(log + [e], id)
    ensures e == Woke(id) && Readied in log ==> WokenInTime(log + [e], id)
  {
    var more := log + [e];
    if WokenInTime(log, id) {
      var i, j :| 0 <= i < j < |log| && log[i] == Readied && log[j] == Woke(id);
      assert more[i] == Readied && more[j] == Woke(id);
    }
    if e == Woke(id) && Readied in log {
      var i :| 0 <= i < |log| && log[i] == Readied;
      assert more[i] == Readied && more[|log|] == Woke(id);
    }
  }

  /** The log that a step leaves. */
  lemma LogGrows(s: State, outcome: Outcome, m: Move)
    ensures Step(s, outcome, m).log == s.log || exists e :: Step(s, outcome, m).log == s.log + [e]
  {
  }

  lemma OwedKept(s: State, outcome: Outcome, m: Move)
    requires WakeOwed(s) && Announced(s)
    ensures WakeOwed(Step(s, outcome, m))
  {
    hide WakeOwed, Announced, CompleterStep, CallStep;
    match m {
      case Complete => CompleterOwes(s, outcome);
      case Continue(id) => {
        if id in s.calls {
          CallOwes(s, id);
        }
      }
      case Begin(id, kind) => BeginOwes(s, outcome, id, kind);
    }
  }

  lemma BeginOwes(s: State, outcome: Outcome, id: CallId, kind: Kind)
    requires WakeOwed(s)
    ensures WakeOwed(Step(s, outcome, Begin(id, kind)))
  {
    hide WokenInTime;
  }

  lemma CompleterOwes(s: State, outcome: Outcome)
    requires WakeOwed(s) && Announced(s)
    ensures WakeOwed(CompleterStep(s, outcome))
  {
    hide WokenInTime;
    var t := CompleterStep(s, outcome);
    if t.waker.Some? && t.log != s.log {
      InTimeSnoc(s.log, t.log[|s.log|], t.waker.value);
      assert t.log == s.log + [t.log[|s.log|]];
    }
  }

  lemma CallOwes(s: State, id: CallId)
    requires WakeOwed(s) && Announced(s) && id in s.calls
    ensures WakeOwed(CallStep(s, id))
  {
    hide WokenInTime;
    var t := CallStep(s, id);
    if t.waker.Some? && t.log != s.log {
      InTimeSnoc(s.log, t.log[|s.log|], t.waker.value);
      assert t.log == s.log + [t.log[|s.log|]];
    }
  }

  lemma AnnouncedKept(s: State, outcome: Outcome, m: Move)
    requires Announced(s)
    ensures Announced(Step(s, outcome, m))
  {
    var t := Step(s, outcome, m);
    LogGrows(s, outcome, m);
    forall j | 0 <= j < |t.log| && t.log[j].Woke?
      ensures exists i :: 0 <= i < j && t.log[i] == Readied
    {
      if j < |s.log| {
        assert t.log[j] == s.log[j];
        var i :| 0 <= i < j && s.log[i] == Readied;
        assert t.log[i] == Readied;
      } else {
        assert Readied in s.log;
        var i :| 0 <= i < |s.log| && s.log[i] == Readied;
        assert t.log[i] == Readied;
      }
    }
  }

  lemma TakesReturnedKept(s: State, outcome: Outcome, m: Move)
    requires TakesReturned(s, outcome) && KindsFit(s) && (s.result.Some? ==> s.result.value == outcome)
    ensures TakesReturned(Step(s, outcome, m), outcome)
  {
    var t := Step(s, outcome, m);
    LogGrows(s, outcome, m);
    forall i | 0 <= i < |t.log| && t.log[i].Took?
      ensures t.log[i].o == outcome && t.log[i].taker in t.calls
      ensures t.calls[t.log[i].taker] == Call(TryTake, Returned(Some(outcome)))
    {
      if i < |s.log| {
        assert t.log[i] == s.log[i];
      }
    }
  }

  lemma ReturnsTakenKept(s: State, outcome: Outcome, m: Move)
    requires ReturnsTaken(s)
    ensures ReturnsTaken(Step(s, outcome, m))
  {
    var t := Step(s, outcome, m);
    LogGrows(s, outcome, m);
    forall id | Got(t, id)
      ensures Took(id, t.calls[id].pc.result.value) in t.log
    {
      if Got(s, id) {
        assert Took(id, t.calls[id].pc.result.value) in s.log;
      } else {
        assert t.log[|s.log|] == Took(id, t.calls[id].pc.result.value);
      }
    }
  }

  lemma FitsLonger(c: Call, id: CallId, log: seq<Event>, e: Event)
    requires CallFits(c, id, log)
    ensures CallFits(c, id, log + [e])
  {
  }

  lemma FitsCancelled(c: Call, id: CallId, log: seq<Event>)
    requires c.kind.Cancel? && c.pc.Returned?
    ensures CallFits(c, id, log + [Cancelled(id)])
  {
    assert (log + [Cancelled(id)])[|log|] == Cancelled(id);
  }

  lemma KindsFitKept(s: State, outcome: Outcome, m: Move)
    requires KindsFit(s)
    ensures KindsFit(Step(s, outcome, m))
  {
    var t := Step(s, outcome, m);
    LogGrows(s, outcome, m);
    forall id | id in t.calls
      ensures CallFits(t.calls[id], id, t.log)
    {
      if id in s.calls {
        assert CallFits(s.calls[id], id, s.log);
        if t.log != s.log {
          var e := t.log[|s.log|];
          assert t.log == s.log + [e];
          FitsLonger(s.calls[id], id, s.log, e);
          if e == Cancelled(id) && t.calls[id].kind.Cancel? && t.calls[id].pc.Returned? {
            FitsCancelled(t.calls[id], id, s.log);
          }
        }
      }
    }
  }

  lemma CancelsFinalKept(s: State, outcome: Outcome, m: Move)
    requires CancelsFinal(s)
    ensures CancelsFinal(Step(s, outcome, m))
  {
    var t := Step(s, outcome, m);
    LogGrows(s, outcome, m);
    assert forall i :: 0 <= i < |s.log| ==> t.log[i] == s.log[i];
    if t.cancelled && !s.cancelled {
      assert t.log[|s.log|].Cancelled?;
    } else if t.cancelled {
      var j :| 0 <= j < |s.log| && s.log[j].Cancelled?;
      assert t.log[j].Cancelled?;
    }
  }

  lemma CountedKept(s: State, outcome: Outcome, m: Move)
    requires Counted(s, outcome)
    ensures Counted(Step(s, outcome, m), outcome)
  {
    hide Takes;
    var t := Step(s, outcome, m);
    if t.log != s.log {
      assert t.log == s.log + [t.log[|s.log|]];
      TakesSnoc(s.log, t.log[|s.log|]);
    }
  }

  lemma StepKeeps(s: State, outcome: Outcome, m: Move)
    requires Inv(s, outcome)
    ensures Inv(Step(s, outcome, m), outcome)
  {
    hide Step, WakeOwed, Announced, TakesReturned, ReturnsTaken, KindsFit, CancelsFinal, Takes;
    OwedKept(s, outcome, m);
    AnnouncedKept(s, outcome, m);
    TakesReturnedKept(s, outcome, m);
    ReturnsTakenKept(s, outcome, m);
    KindsFitKept(s, outcome, m);
    CancelsFinalKept(s, outcome, m);
    CountedKept(s, outcome, m);
  }

  lemma {:induction false} RunKeeps(s: State, outcome: Outcome, schedule: seq<Move>)
    requires Inv(s, outcome)
    ensures Inv(Run(s, outcome, schedule), outcome)
    decreases schedule
  {
    hide Inv, Step;
    if schedule != [] {
      StepKeeps(s, outcome, schedule[0]);
      RunKeeps(Step(s, outcome, schedule[0]), outcome, schedule[1..]);
    }
  }

  lemma InitialInv(outcome: Outcome)
    ensures Inv(INITIAL, outcome)
  {
  }

  lemma Reached(outcome: Outcome, schedule: seq<Move>)
    ensures Inv(Run(INITIAL, outcome, schedule), outcome)
  {
    hide Inv, Run;
    InitialInv(outcome);
    RunKeeps(INITIAL, outcome, schedule);
  }

  // ----- Wakes -----

  /** Every call that has begun has returned, and so has `complete`. */
  predicate Quiet(s: State) {
    s.completer.Finished? && forall id :: id in s.calls ==> s.calls[id].pc.Returned?
  }

  // ----- The slot -----

  /** This move is a registration passing its lock section. */
  predicate Registers(s: State, m: Move, id: CallId) {
    m == Continue(id) && id in s.calls && s.calls[id].pc.Storing?
  }

  /** The registration that passed its lock section last, read off the schedule. */
  function LastRegistered(outcome: Outcome, schedule: seq<Move>): Option<CallId> {
    if schedule == [] then None
    else
      var before, m := schedule[..|schedule| - 1], schedule[|schedule| - 1];
      if m.Continue? && Registers(Run(INITIAL, outcome, before), m, m.id) then Some(m.id) else LastRegistered(outcome, before)
  }

  lemma {:induction false} RunSnoc(s: State, outcome: Outcome, schedule: seq<Move>, m: Move)
    ensures Run(s, outcome, schedule + [m]) == Step(Run(s, outcome, schedule), outcome, m)
    decreases |schedule|
  {
    hide Step;
    if schedule == [] {
      assert schedule + [m] == [m] && [m][1..] == [];
    } else {
      assert (schedule + [m])[1..] == schedule[1..] + [m];
      RunSnoc(Step(s, outcome, schedule[0]), outcome, schedule[1..], m);
    }
  }

  /** Each registration puts itself into the slot, whoever was there, and nothing else ever touches the slot. */
  lemma {:induction false} SlotHoldsLast(outcome: Outcome, schedule: seq<Move>)
    ensures Run(INITIAL, outcome, schedule).waker == LastRegistered(outcome, schedule)
    decreases |schedule|
  {
    hide Run;
    if schedule == [] {
      NoMoves(outcome);
    } else {
      var before, m := schedule[..|schedule| - 1], schedule[|schedule| - 1];
      SlotHoldsLast(outcome, before);
      RunSnoc(INITIAL, outcome, before, m);
      assert before + [m] == schedule;
    }
  }

  lemma NoMoves(outcome: Outcome)
    ensures Run(INITIAL, outcome, []) == INITIAL
  {
  }

  /** From its lock section until another registration passes its own, a registration is in the slot. */
  lemma {:induction false} SlotKept(outcome: Outcome, s: State, id: CallId, more: seq<Move>)
    requires Registers(s, Continue(id), id)
    requires forall k, other :: 0 <= k < |more| && Registers(Run(Step(s, outcome, Continue(id)), outcome, more[..k]), more[k], other) ==> other == id
    ensures Run(Step(s, outcome, Continue(id)), outcome, more).waker == Some(id)
    decreases |more|
  {
    hide Run;
    var t := Step(s, outcome, Continue(id));
    if more == [] {
      NoMovesFrom(t, outcome);
    } else {
      var before, m := more[..|more| - 1], more[|more| - 1];
      forall k, other | 0 <= k < |before| && Registers(Run(t, outcome, before[..k]), before[k], other)
        ensures other == id
      {
        assert before[..k] == more[..k] && before[k] == more[k];
      }
      SlotKept(outcome, s, id, before);
      RunSnoc(t, outcome, before, m);
      if m.Continue? && Registers(Run(t, outcome, before), m, m.id) {
        assert Registers(Run(t, outcome, more[..|before|]), more[|before|], m.id);
      }
      assert before + [m] == more;
    }
  }

  lemma NoMovesFrom(s: State, outcome: Outcome)
    ensures Run(s, outcome, []) == s
  {
  }

  /** Registrations that have passed their lock section left some registration in the slot. */
  ghost predicate Registered(s: State) {
    && (forall id :: id in s.calls && s.calls[id].kind.RegisterWaker? && !s.calls[id].pc.Storing? ==> s.waker.Some?)
    && (s.waker.Some? ==> s.waker.value in s.calls && s.calls[s.waker.value].kind.RegisterWaker?)
    && (forall id :: id in s.calls && s.calls[id].pc.Storing? ==> s.calls[id].kind.RegisterWaker?)
  }

  lemma {:induction false} RegisteredRuns(s: State, outcome: Outcome, schedule: seq<Move>)
    requires Registered(s)
    ensures Registered(Run(s, outcome, schedule))
    decreases |schedule|
  {
    hide Registered, Step;
    if schedule != [] {
      RegisteredKept(s, outcome, schedule[0]);
      RegisteredRuns(Step(s, outcome, schedule[0]), outcome, schedule[1..]);
    }
  }

  lemma RegisteredKept(s: State, outcome: Outcome, m: Move)
    requires Registered(s)
    ensures Registered(Step(s, outcome, m))
  {
    hide CompleterStep, CallStep;
    if m.Complete? {
      RegisteredCompletes(s, outcome);
    } else if m.Continue? && m.id in s.calls {
      RegisteredContinues(s, m.id);
    }
  }

  lemma RegisteredCompletes(s: State, outcome: Outcome)
    requires Registered(s)
    ensures Registered(CompleterStep(s, outcome))
  {
  }

  lemma RegisteredContinues(s: State, id: CallId)
    requires Registered(s) && id in s.calls
    ensures Registered(CallStep(s, id))
  {
  }

  /** No wake is lost, in any interleaving of one `complete` with any number of other calls: when all have
      returned, and some waker was registered, the slot holds a registered waker, and it was woken after the
      result had become ready. */
  lemma NoLostWake(outcome: Outcome, schedule: seq<Move>)
    ensures var s := Run(INITIAL, outcome, schedule);
            Quiet(s) && s.waker.Some? ==> WokenInTime(s.log, s.waker.value)
    ensures var s := Run(INITIAL, outcome, schedule);
            Quiet(s) && (exists id :: id in s.calls && s.calls[id].kind.RegisterWaker?) ==>
              && s.waker.Some? && s.waker.value in s.calls && s.calls[s.waker.value].kind.RegisterWaker?
              && WokenInTime(s.log, s.waker.value)
  {
    hide Run, WokenInTime, Answered, Recorded;
    Reached(outcome, schedule);
    RegisteredRuns(INITIAL, outcome, schedule);
  }

  // ----- What is gone stays gone -----

  /** A take and a cancellation both empty the ticket, and what they removed never comes back. */
  lemma GoneForGood(s: State, outcome: Outcome, id: CallId, more: seq<Move>)
    requires id in s.calls && (s.calls[id].pc.Taking? || s.calls[id].pc.Cancelling?) && !s.completer.Filling?
    ensures Run(Step(s, outcome, Continue(id)), outcome, more).result.None?
  {
    hide Run;
    StaysEmpty(Step(s, outcome, Continue(id)), outcome, more);
  }

  lemma {:induction false} StaysEmpty(s: State, outcome: Outcome, schedule: seq<Move>)
    requires s.result.None? && !s.completer.Filling?
    ensures Run(s, outcome, schedule).result.None?
    decreases |schedule|
  {
    if schedule != [] {
      StaysEmpty(Step(s, outcome, schedule[0]), outcome, schedule[1..]);
    }
  }

  // ----- Every call returns -----

  /** The steps a call still needs, whatever the others do. */
  function StepsLeft(pc: Pc): nat {
    match pc
    case Storing => 3
    case Rechecking => 2
    case WakingSelf => 1
    case Probing => 2
    case Taking => 1
    case Cancelling => 1
    case Returned(_) => 0
  }

  function CompleterLeft(pc: CompleterPc): nat {
    match pc
    case Filling => 4
    case Announcing => 3
    case Fetching => 2
    case Waking(_) => 1
    case Finished => 0
  }

  function Times(schedule: seq<Move>, m: Move): nat {
    if schedule == [] then 0 else Times(schedule[1..], m) + if schedule[0] == m then 1 else 0
  }

  /** Nothing waits for anything: a call that was begun returns with its third step at the latest, whatever happens
      between its steps, and so does `complete` with its fourth. */
  lemma {:induction false} EveryCallReturns(s: State, outcome: Outcome, schedule: seq<Move>, id: CallId)
    requires id in s.calls
    ensures var t := Run(s, outcome, schedule);
            && id in t.calls && t.calls[id].kind == s.calls[id].kind
            && (Times(schedule, Continue(id)) >= 3 ==> t.calls[id].pc.Returned?)
            && (Times(schedule, Complete) >= 4 ==> t.completer.Finished?)
            && (Times(schedule, Continue(id)) >= StepsLeft(s.calls[id].pc) ==> t.calls[id].pc.Returned?)
            && (Times(schedule, Complete) >= CompleterLeft(s.completer) ==> t.completer.Finished?)
    decreases |schedule|
  {
    hide Step;
    if schedule != [] {
      OneStepLess(s, outcome, schedule[0], id);
      EveryCallReturns(Step(s, outcome, schedule[0]), outcome, schedule[1..], id);
    }
  }

  lemma OneStepLess(s: State, outcome: Outcome, m: Move, id: CallId)
    requires id in s.calls
    ensures var t := Step(s, outcome, m);
            && id in t.calls && t.calls[id].kind == s.calls[id].kind
            && StepsLeft(t.calls[id].pc) <= StepsLeft(s.calls[id].pc) - (if m == Continue(id) && !s.calls[id].pc.Returned? then 1 else 0)
            && CompleterLeft(t.completer) <= CompleterLeft(s.completer) - (if m == Complete && !s.completer.Finished? then 1 else 0)
  {
  }

  /** And no waker is ever woken before that. */
  lemma NoEarlyWake(outcome: Outcome, schedule: seq<Move>)
    ensures var log := Run(INITIAL, outcome, schedule).log;
            forall j :: 0 <= j < |log| && log[j].Woke? ==> exists i :: 0 <= i < j && log[i] == Readied
  {
    hide Run, WakeOwed, Answered, Recorded;
    Reached(outcome, schedule);
  }

  // ----- Delivery -----

  lemma {:induction false} TakesOf(log: seq<Event>, i: nat, j: nat)
    requires i < j < |log| && log[i].Took? && log[j].Took?
    ensures Takes(log) >= 2
    decreases |log|
  {
    var last := |log| - 1;
    if j < last {
      TakesOf(log[..last], i, j);
    } else {
      TakesOne(log[..last], i);
    }
  }

  lemma {:induction false} TakesOne(log: seq<Event>, i: nat)
    requires i < |log| && log[i].Took?
    ensures Takes(log) >= 1
    decreases |log|
  {
    var last := |log| - 1;
    if i < last {
      TakesOne(log[..last], i);
    }
  }

  /** At most one call returns a result, it is a take, and the result is the one that was stored, unchanged. */
  lemma DeliveredAtMostOnce(outcome: Outcome, schedule: seq<Move>)
    ensures var s := Run(INITIAL, outcome, schedule);
            && (forall a :: Got(s, a) ==> s.calls[a] == Call(TryTake, Returned(Some(outcome))))
            && (forall a, b :: Got(s, a) && Got(s, b) ==> a == b)
  {
    hide Run, WakeOwed, Announced, Takes;
    Reached(outcome, schedule);
    var s := Run(INITIAL, outcome, schedule);
    forall a, b | Got(s, a) && Got(s, b)
      ensures a == b
    {
      var i :| 0 <= i < |s.log| && s.log[i] == Took(a, s.calls[a].pc.result.value);
      var j :| 0 <= j < |s.log| && s.log[j] == Took(b, s.calls[b].pc.result.value);
      if i < j {
        TakesOf(s.log, i, j);
      } else if j < i {
        TakesOf(s.log, j, i);
      }
    }
  }

  /** A call that returned a result took it at one point of the run, and no cancellation had taken effect by then. A
      cancellation takes effect at one point of every call of `cancel` that has returned. */
  lemma NotAfterCancel(outcome: Outcome, schedule: seq<Move>, id: CallId)
    requires Got(Run(INITIAL, outcome, schedule), id)
    ensures var s := Run(INITIAL, outcome, schedule);
            exists i :: && 0 <= i < |s.log| && s.log[i] == Took(id, outcome)
                        && (forall j :: 0 <= j < i ==> !s.log[j].Cancelled?)
                        && (forall j :: 0 <= j < |s.log| && s.log[j].Took? ==> j == i)
    ensures var s := Run(INITIAL, outcome, schedule);
            forall c :: c in s.calls && s.calls[c].kind.Cancel? && s.calls[c].pc.Returned? ==> Cancelled(c) in s.log
  {
    hide Run, WakeOwed, Announced, Takes;
    Reached(outcome, schedule);
    var s := Run(INITIAL, outcome, schedule);
    var i :| 0 <= i < |s.log| && s.log[i] == Took(id, s.calls[id].pc.result.value);
    forall j | 0 <= j < |s.log| && s.log[j].Took?
      ensures j == i
    {
      if i < j {
        TakesOf(s.log, i, j);
      } else if j < i {
        TakesOf(s.log, j, i);
      }
    }
  }

  /** A take that begins when the result is ready, as far as it has come: if it returned without the result, the
      ticket was cancelled or another call took it. */
  ghost predicate Promised(s: State, outcome: Outcome, id: CallId) {
    && s.ready
    && (id in s.calls && s.calls[id].kind.TryTake? ==>
          || s.calls[id].pc.Probing? || s.calls[id].pc.Taking?
          || s.calls[id].pc == Returned(Some(outcome))
          || (s.calls[id].pc == Returned(None) && (s.cancelled || exists e :: e in s.log && e.Took? && e.taker != id)))
  }

  lemma {:induction false} TakesSome(log: seq<Event>) returns (i: nat)
    requires Takes(log) > 0
    ensures i < |log| && log[i].Took?
    decreases |log|
  {
    var last := |log| - 1;
    if log[last].Took? {
      i := last;
    } else {
      i := TakesSome(log[..last]);
    }
  }

  /** A result that is ready and gone, without a cancellation, was taken. */
  lemma TakenEarlier(s: State, outcome: Outcome)
    requires Inv(s, outcome) && s.ready && !s.cancelled && s.result.None?
    ensures Takes(s.log) > 0
  {
    hide WakeOwed, Takes;
  }

  lemma PromiseKept(s: State, outcome: Outcome, id: CallId, m: Move)
    requires Inv(s, outcome) && Promised(s, outcome, id)
    ensures Promised(Step(s, outcome, m), outcome, id)
  {
    hide Inv, Promised, Step;
    if m == Continue(id) && id in s.calls {
      PromiseOwn(s, outcome, id);
    } else {
      PromiseOthers(s, outcome, id, m);
    }
  }

  /** The call itself goes on. */
  lemma PromiseOwn(s: State, outcome: Outcome, id: CallId)
    requires Inv(s, outcome) && Promised(s, outcome, id) && id in s.calls
    ensures Promised(Step(s, outcome, Continue(id)), outcome, id)
  {
    hide WakeOwed, Takes;
    var t := Step(s, outcome, Continue(id));
    LogGrows(s, outcome, Continue(id));
    assert forall e :: e in s.log ==> e in t.log;
    if s.calls[id].pc.Taking? && !s.cancelled && s.result.None? {
      TakenEarlier(s, outcome);
      var i := TakesSome(s.log);
      assert s.log[i] in t.log && s.log[i].taker != id;
    }
  }

  /** Anything else goes on beside it. */
  lemma PromiseOthers(s: State, outcome: Outcome, id: CallId, m: Move)
    requires Promised(s, outcome, id) && !(m == Continue(id) && id in s.calls)
    ensures Promised(Step(s, outcome, m), outcome, id)
  {
    LogGrows(s, outcome, m);
    assert forall e :: e in s.log ==> e in Step(s, outcome, m).log;
  }

  lemma {:induction false} PromiseRuns(s: State, outcome: Outcome, id: CallId, schedule: seq<Move>)
    requires Inv(s, outcome) && Promised(s, outcome, id)
    ensures Promised(Run(s, outcome, schedule), outcome, id)
    decreases schedule
  {
    hide Inv, Step, Promised;
    if schedule != [] {
      StepKeeps(s, outcome, schedule[0]);
      PromiseKept(s, outcome, id, schedule[0]);
      PromiseRuns(Step(s, outcome, schedule[0]), outcome, id, schedule[1..]);
    }
  }

  /** Whatever has happened and whatever goes on beside it: a take that begins when the result is ready, and returns,
      returns the result, unless a cancellation took effect or another call took it. */
  lemma NextTakeDelivers(outcome: Outcome, schedule: seq<Move>, id: CallId, more: seq<Move>)
    requires Run(INITIAL, outcome, schedule).ready && id !in Run(INITIAL, outcome, schedule).calls
    ensures var t := Run(Run(INITIAL, outcome, schedule), outcome, more);
            id in t.calls && t.calls[id].kind.TryTake? && t.calls[id].pc.Returned? ==>
              || t.calls[id].pc.result == Some(outcome)
              || t.cancelled
              || exists e :: e in t.log && e.Took? && e.taker != id
  {
    hide Run, Inv;
    Reached(outcome, schedule);
    PromiseRuns(Run(INITIAL, outcome, schedule), outcome, id, more);
  }
}

/** The bounded audit journal (`src/audit.rs`, `AuditBudget` and `AuditJournal`). It trusts no caller: it
    checks kind and sequence of every envelope, and keeps room for the one Terminal event. */
module Journal {
  import opened Cbor
  import opened AuditEncoding
  import opened Accumulator

  const KIB: nat := 1024
  const HOST_CALL_STARTED_MAX_BYTES: nat := 60 * KIB

  datatype AuditBudget = AuditBudget(
    maxEvents: U64, maxEncodedBytes: U64, terminalReserveEvents: U64, terminalReserveBytes: U64,
    hostCallCloseReserveEvents: U64, hostCallCloseReserveBytes: U64)

  datatype AuditConfigError =
    | MaxEventsTooSmall
    | TerminalReserveEventsNotOne
    | TerminalReserveBytesTooSmall
    | HostCallCloseReserveEventsNotTwo
    | HostCallCloseReserveBytesTooSmall

  /** The first rule a configuration breaks. */
  function Validate(b: AuditBudget): (r: Option<AuditConfigError>)
    ensures r.None? <==>
            && b.maxEvents >= 2 && b.terminalReserveEvents == 1 && b.hostCallCloseReserveEvents == 2
            && b.terminalReserveBytes >= 64 * KIB && b.hostCallCloseReserveBytes >= 128 * KIB
    ensures r == Some(MaxEventsTooSmall) <==> b.maxEvents < 2
    ensures r == Some(TerminalReserveEventsNotOne) <==> b.maxEvents >= 2 && b.terminalReserveEvents != 1
    ensures r == Some(TerminalReserveBytesTooSmall) <==>
            b.maxEvents >= 2 && b.terminalReserveEvents == 1 && b.terminalReserveBytes < 0x1_0000
    ensures r == Some(HostCallCloseReserveEventsNotTwo) <==>
            && b.maxEvents >= 2 && b.terminalReserveEvents == 1 && b.terminalReserveBytes >= 0x1_0000
            && b.hostCallCloseReserveEvents != 2
  {
    if b.maxEvents < 2 then Some(MaxEventsTooSmall)
    else if b.terminalReserveEvents != 1 then Some(TerminalReserveEventsNotOne)
    else if b.terminalReserveBytes < 64 * KIB then Some(TerminalReserveBytesTooSmall)
    else if b.hostCallCloseReserveEvents != 2 then Some(HostCallCloseReserveEventsNotTwo)
    else if b.hostCallCloseReserveBytes < 128 * KIB then Some(HostCallCloseReserveBytesTooSmall)
    else None
  }

  datatype AuditFailure = SequenceExhausted | BudgetExceededFailure | EventTooLarge | InvariantViolation

  datatype Appended = Numbered(n: U64) | Failed(failure: AuditFailure)

  function SaturatingSub(a: nat, b: nat): nat { if a < b then 0 else a - b }

  /** Fixed part of an envelope plus its event. */
  function EstimateEncodedBytes(e: AuditEnvelope): U64 {
    SaturatingAdd(SaturatingAdd(74, |e.languageRevision|), EstimateEventBytes(e.event))
  }

  /** What an event counts besides its envelope, by its kind. */
  function Content(e: AuditEvent): nat {
    if e.ExecutionStarted? then 256 + |e.engineVersion| + |e.redactionPolicyId|
    else if e.Terminal? && e.error.Some? && e.error.value.Full? then
      128 + |e.error.value.error.code| + |e.error.value.error.messageId| + Frames(e.error.value.error.trace)
    else if e.Terminal? && e.error.Some? then 168 + |e.error.value.code| + |e.error.value.messageId|
    else 128
  }

  /** Sixteen bytes and its name for each frame. */
  function Frames(trace: seq<AuditFrame>): nat {
    if trace == [] then 0 else Frames(trace[..|trace| - 1]) + 16 + |trace[|trace| - 1].function_|
  }

  /** The nested saturating sums are the true sum, cut off once. */
  lemma EstimateSaturates(e: AuditEnvelope)
    ensures EstimateEncodedBytes(e) == Capped(74 + |e.languageRevision| + Content(e.event))
    ensures EstimateEncodedBytes(e) >= 74
  {
    if e.event.Terminal? && e.event.error.Some? && e.event.error.value.Full? {
      FramesAgree(e.event.error.value.error.trace);
    }
  }

  lemma {:induction false} FramesAgree(trace: seq<AuditFrame>)
    ensures FrameBytes(trace) == Frames(trace)
    decreases |trace|
  {
    if trace != [] {
      var init, last := trace[..|trace| - 1], trace[|trace| - 1];
      FramesAgree(init);
      FrameSnoc(init, last);
      assert init + [last] == trace;
    }
  }

  lemma {:induction false} FrameSnoc(trace: seq<AuditFrame>, f: AuditFrame)
    ensures FrameBytes(trace + [f]) == FrameBytes(trace) + 16 + |f.function_|
    decreases |trace|
  {
    if trace == [] {
      assert trace + [f] == [f] && [f][1..] == [];
    } else {
      assert (trace + [f])[1..] == trace[1..] + [f];
      FrameSnoc(trace[1..], f);
    }
  }

  function TotalBytes(entries: seq<AuditEnvelope>): nat {
    if entries == [] then 0
    else TotalBytes(entries[..|entries| - 1]) + EstimateEncodedBytes(entries[|entries| - 1])
  }

  /** What an auditor may rely on: numbered without gaps, begun by the one Started, ended by the one Terminal. */
  predicate WellFormed(entries: seq<AuditEnvelope>) {
    && (forall i :: 0 <= i < |entries| ==> entries[i].sequence == i)
    && (forall i :: 0 <= i < |entries| ==> (entries[i].event.ExecutionStarted? <==> i == 0))
    && (forall i :: 0 <= i < |entries| && entries[i].event.Terminal? ==> i == |entries| - 1)
  }

  class AuditJournal {
    const budget: AuditBudget
    var nextSequence: U64
    var committedEvents: U64
    var committedBytes: U64
    var started: bool
    var terminated: bool
    /** Every envelope accepted so far. */
    ghost var entries: seq<AuditEnvelope>

    function NormalEventLimit(): nat { SaturatingSub(budget.maxEvents, budget.terminalReserveEvents) }

    function NormalByteLimit(): nat { SaturatingSub(budget.maxEncodedBytes, budget.terminalReserveBytes) }

    /** The events that use the normal share, all but Terminal. */
    ghost function Normal(): seq<AuditEnvelope>
      requires terminated ==> entries != []
      reads this
    {
      if terminated then entries[..|entries| - 1] else entries
    }

    ghost predicate Valid()
      reads this
    {
      && Validate(budget).None?
      && WellFormed(entries)
      && nextSequence == |entries|
      && (started <==> entries != [])
      && (terminated <==> entries != [] && entries[|entries| - 1].event.Terminal?)
      && committedEvents == |Normal()| <= NormalEventLimit()
      && committedBytes == TotalBytes(Normal()) <= NormalByteLimit()
    }

    constructor (budget: AuditBudget)
      requires Validate(budget).None?
      ensures Valid() && entries == [] && this.budget == budget
    {
      this.budget := budget;
      nextSequence, committedEvents, committedBytes := 0, 0, 0;
      started, terminated := false, false;
      entries := [];
    }

    /** The next number, or a failure that leaves it unused. */
    method TakeSequence() returns (r: Appended)
      modifies this`nextSequence
      ensures old(nextSequence) < U64_MAX ==> r == Numbered(old(nextSequence)) && nextSequence == old(nextSequence) + 1
      ensures old(nextSequence) == U64_MAX ==> r == Failed(SequenceExhausted) && nextSequence == old(nextSequence)
    {
      var next := nextSequence;
      if next == U64_MAX {
        return Failed(SequenceExhausted);
      }
      nextSequence := next + 1;
      return Numbered(next);
    }

    /** Envelopes in their place: not after the end, with the number that is due, and the first one Started. */
    ghost predicate InPlace(e: AuditEnvelope)
      reads this
    {
      !terminated && !e.event.Terminal? && e.sequence == nextSequence && (e.event.ExecutionStarted? <==> !started)
    }

    /** Envelopes the journal takes as normal events: in their place, with room left for the one Terminal. */
    ghost predicate Acceptable(e: AuditEnvelope)
      reads this
    {
      && InPlace(e)
      && committedEvents + 1 + budget.terminalReserveEvents <= budget.maxEvents
      && committedBytes + EstimateEncodedBytes(e) + budget.terminalReserveBytes <= budget.maxEncodedBytes
    }

    /** Accepted exactly when it continues the record and fits the normal share; a rejected envelope changes
        nothing, and numbers never run out. */
    method AppendNormal(e: AuditEnvelope) returns (r: Appended)
      requires Valid()
      modifies this
      ensures Valid()
      ensures r.Numbered? <==> old(Acceptable(e))
      ensures r.Numbered? ==> r.n == |old(entries)| && entries == old(entries) + [e]
      ensures r.Numbered? ==>
                && committedEvents == old(committedEvents) + 1
                && committedBytes == old(committedBytes) + EstimateEncodedBytes(e)
                && started && !terminated
      ensures r.Failed? ==> entries == old(entries) && unchanged(this)
      ensures r != Failed(SequenceExhausted)
      ensures r == Failed(EventTooLarge) <==>
              old(InPlace(e)) && EstimateEncodedBytes(e) + budget.terminalReserveBytes > budget.maxEncodedBytes
      ensures r == Failed(InvariantViolation) <==> !old(terminated) && (e.event.Terminal? || e.sequence != old(nextSequence))
    {
      hide EstimateEncodedBytes;
      EstimateSaturates(e);
      if terminated {
        return Failed(BudgetExceededFailure);
      }
      if e.event.Terminal? || e.sequence != nextSequence {
        return Failed(InvariantViolation);
      }
      var isStarted := e.event.ExecutionStarted?;
      if isStarted {
        if started || nextSequence != 0 {
          return Failed(BudgetExceededFailure);
        }
      } else if !started {
        return Failed(BudgetExceededFailure);
      }
      var eventBytes := EstimateEncodedBytes(e);
      if eventBytes > NormalByteLimit() {
        return Failed(EventTooLarge);
      }
      if committedEvents == U64_MAX || committedEvents + 1 > NormalEventLimit() {
        return Failed(BudgetExceededFailure);
      }
      if committedBytes + eventBytes > U64_MAX || committedBytes + eventBytes > NormalByteLimit() {
        return Failed(BudgetExceededFailure);
      }
      r := TakeSequence();
      if r.Failed? {
        return;
      }
      committedEvents := committedEvents + 1;
      committedBytes := committedBytes + eventBytes;
      if isStarted {
        started := true;
      }
      entries := entries + [e];
      assert entries[..|entries| - 1] == old(entries);
    }

    /** Whether a whole host call, its start and the two events that close it, fits the normal share. */
    function CanReserveHostCall(): (r: bool)
      reads this
      ensures Validate(budget).None? ==>
                (r <==>
                 && !terminated
                 && committedEvents + 3 + budget.terminalReserveEvents <= budget.maxEvents
                 && committedBytes + budget.hostCallCloseReserveBytes + 60 * 1024 + budget.terminalReserveBytes
                    <= budget.maxEncodedBytes)
    {
      && !terminated
      && SaturatingAdd(committedEvents, SaturatingAdd(budget.hostCallCloseReserveEvents, 1)) <= NormalEventLimit()
      && SaturatingAdd(committedBytes, SaturatingAdd(budget.hostCallCloseReserveBytes, HOST_CALL_STARTED_MAX_BYTES)) <= NormalByteLimit()
    }

    /** The one Terminal takes the room kept for it: started and not terminated, the next Terminal envelope is
        always accepted, however full the journal is. */
    method AppendTerminal(e: AuditEnvelope) returns (r: Appended)
      requires Valid()
      modifies this
      ensures Valid()
      ensures r.Numbered? <==> e.event.Terminal? && old(started) && !old(terminated) && e.sequence == old(nextSequence)
      ensures r.Numbered? ==> r.n == |old(entries)| && entries == old(entries) + [e] && terminated
      ensures r.Numbered? ==> |entries| <= budget.maxEvents
      ensures r.Numbered? && EstimateEncodedBytes(e) <= budget.terminalReserveBytes ==>
                TotalBytes(entries) <= budget.maxEncodedBytes
      ensures r.Failed? ==> entries == old(entries) && unchanged(this)
      ensures r == Failed(InvariantViolation) <==>
              !e.event.Terminal? || (old(started) && !old(terminated) && e.sequence != old(nextSequence))
      ensures r != Failed(SequenceExhausted)
    {
      hide EstimateEncodedBytes;
      if entries != [] {
        EstimateSaturates(entries[|entries| - 1]);
      }
      if !e.event.Terminal? {
        return Failed(InvariantViolation);
      }
      if !started || terminated {
        return Failed(BudgetExceededFailure);
      }
      if e.sequence != nextSequence {
        return Failed(InvariantViolation);
      }
      r := TakeSequence();
      if r.Failed? {
        return;
      }
      terminated := true;
      entries := entries + [e];
      assert entries[..|entries| - 1] == old(entries);
    }

    /** A host call that was granted room: its three events, with the next three numbers and within the
        reserved sizes, are all accepted, and the Terminal still is. */
    method RecordHostCall(begun: AuditEnvelope, decided: AuditEnvelope, finished: AuditEnvelope) returns (a: Appended, b: Appended, c: Appended)
      requires Valid() && started && CanReserveHostCall()
      requires PlainEvent(begun, nextSequence as nat) && PlainEvent(decided, nextSequence as nat + 1) && PlainEvent(finished, nextSequence as nat + 2)
      requires EstimateEncodedBytes(begun) <= HOST_CALL_STARTED_MAX_BYTES
      requires EstimateEncodedBytes(decided) + EstimateEncodedBytes(finished) <= budget.hostCallCloseReserveBytes
      modifies this
      ensures Valid() && a.Numbered? && b.Numbered? && c.Numbered? && !terminated
      ensures entries == old(entries) + [begun, decided, finished]
    {
      hide EstimateEncodedBytes, TotalBytes, WellFormed;
      RoomForThree(committedEvents, committedBytes, budget, NormalEventLimit(), NormalByteLimit());
      a := AppendNormal(begun);
      b := AppendNormal(decided);
      c := AppendNormal(finished);
    }

    /** Any attempts whatsoever, as normal or as terminal events: the record stays well formed and only grows. */
    method Attempt(attempts: seq<(AuditEnvelope, bool)>)
      requires Valid()
      modifies this
      ensures Valid() && old(entries) <= entries
    {
      for i := 0 to |attempts|
        invariant Valid() && old(entries) <= entries
      {
        var (e, terminal) := attempts[i];
        var r: Appended;
        if terminal {
          r := AppendTerminal(e);
        } else {
          r := AppendNormal(e);
        }
      }
    }
  }

  /** Neither the first nor the last event of a journal, with the number that is due. */
  predicate PlainEvent(e: AuditEnvelope, sequence: nat) {
    !e.event.Terminal? && !e.event.ExecutionStarted? && e.sequence == sequence
  }

  /** Saturation does not let a reservation through that is not there. */
  lemma RoomForThree(events: U64, bytes: U64, b: AuditBudget, eventLimit: nat, byteLimit: nat)
    requires b.hostCallCloseReserveEvents == 2 && eventLimit < U64_MAX && byteLimit < U64_MAX
    requires SaturatingAdd(events, SaturatingAdd(b.hostCallCloseReserveEvents, 1)) <= eventLimit
    requires SaturatingAdd(bytes, SaturatingAdd(b.hostCallCloseReserveBytes, HOST_CALL_STARTED_MAX_BYTES)) <= byteLimit
    ensures events + 3 <= eventLimit
    ensures bytes + b.hostCallCloseReserveBytes + HOST_CALL_STARTED_MAX_BYTES <= byteLimit
  {
  }
}

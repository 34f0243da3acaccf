/** Aggregation of budget charges for the audit log (`src/audit.rs`, `BudgetChargeAccumulator`). */
module Accumulator {
  import opened Cbor
  import opened AuditEncoding

  datatype ChargeGroup = ChargeGroup(
    resource: BudgetResource, reason: BudgetChargeReason, committedDelta: U64, releasedDelta: U64,
    usageAfter: U64, peakAfter: Option<U64>, chargeCount: U64)

  const CHARGE_FLUSH_THRESHOLD: nat := 256

  function SaturatingAdd(a: U64, b: nat): U64 { if a + b > U64_MAX then U64_MAX else a + b }

  function IntoEvent(g: ChargeGroup): AuditEvent {
    BudgetCharged(g.resource, g.committedDelta, g.releasedDelta, g.usageAfter, g.peakAfter, g.chargeCount, g.reason)
  }

  /** The estimate of an event's encoded size, without its envelope. Fixed parts are counted as constants. */
  function EstimateEventBytes(e: AuditEvent): nat {
    match e
    case ExecutionStarted(version, _, _, _, _, _, policy, _) => 256 + |version| + |policy|
    case Terminal(_, None, _, _, _, _) => 128
    case Terminal(_, Some(Full(error)), _, _, _, _) => 128 + |error.code| + |error.messageId| + FrameBytes(error.trace)
    case Terminal(_, Some(Emergency(code, messageId, _, _)), _, _, _, _) => 128 + |code| + |messageId| + 40
    case _ => 128
  }

  function FrameBytes(trace: seq<AuditFrame>): nat {
    if trace == [] then 0 else |trace[0].function_| + 16 + FrameBytes(trace[1..])
  }

  function EstimatedBytes(events: seq<AuditEvent>): nat {
    if events == [] then 0 else EstimatedBytes(events[..|events| - 1]) + EstimateEventBytes(events[|events| - 1])
  }

  // ----- What is noted -----

  datatype Note =
    | Charged(resource: BudgetResource, reason: BudgetChargeReason, delta: U64, usageAfter: U64)
    | Released(resource: BudgetResource, reason: BudgetChargeReason, delta: U64, usageAfter: U64, peakAfter: U64)

  type Key = (BudgetResource, BudgetChargeReason)

  function KeyOf(n: Note): Key { (n.resource, n.reason) }

  function GroupKey(g: ChargeGroup): Key { (g.resource, g.reason) }

  function Begun(n: Note): ChargeGroup {
    match n
    case Charged(resource, reason, delta, usageAfter) => ChargeGroup(resource, reason, delta, 0, usageAfter, None, 1)
    case Released(resource, reason, delta, live, peak) => ChargeGroup(resource, reason, 0, delta, live, Some(peak), 1)
  }

  function Absorbed(g: ChargeGroup, n: Note): ChargeGroup {
    match n
    case Charged(_, _, delta, usageAfter) =>
      g.(committedDelta := SaturatingAdd(g.committedDelta, delta), usageAfter := usageAfter, chargeCount := SaturatingAdd(g.chargeCount, 1))
    case Released(_, _, delta, live, peak) =>
      g.(releasedDelta := SaturatingAdd(g.releasedDelta, delta), usageAfter := live, peakAfter := Some(peak),
         chargeCount := SaturatingAdd(g.chargeCount, 1))
  }

  /** The life of one group: begun by a note, cut off at the threshold. */
  function Next(open: Option<ChargeGroup>, n: Note): Option<ChargeGroup> {
    match open
    case None => Some(Begun(n))
    case Some(g) => if Absorbed(g, n).chargeCount >= CHARGE_FLUSH_THRESHOLD then None else Some(Absorbed(g, n))
  }

  // ----- The accumulator as a value -----

  datatype Acc = Acc(groups: seq<ChargeGroup>, finalized: seq<AuditEvent>)

  function Position(groups: seq<ChargeGroup>, key: Key): (r: Option<nat>)
    ensures r.Some? ==> r.value < |groups| && GroupKey(groups[r.value]) == key
    ensures r.Some? ==> forall i :: 0 <= i < r.value ==> GroupKey(groups[i]) != key
    ensures r.None? ==> forall i :: 0 <= i < |groups| ==> GroupKey(groups[i]) != key
  {
    if groups == [] then None
    else if GroupKey(groups[0]) == key then Some(0)
    else
      match Position(groups[1..], key)
      case None => None
      case Some(i) => Some(i + 1)
  }

  function Without(groups: seq<ChargeGroup>, i: nat): seq<ChargeGroup>
    requires i < |groups|
  {
    groups[..i] + groups[i + 1..]
  }

  function Noted(a: Acc, n: Note): Acc {
    match Position(a.groups, KeyOf(n))
    case None => a.(groups := a.groups + [Begun(n)])
    case Some(i) =>
      var g := Absorbed(a.groups[i], n);
      if g.chargeCount >= CHARGE_FLUSH_THRESHOLD then Acc(Without(a.groups, i), a.finalized + [IntoEvent(g)])
      else a.(groups := a.groups[i := g])
  }

  function NotedAll(a: Acc, ns: seq<Note>): Acc
    decreases |ns|
  {
    if ns == [] then a else NotedAll(Noted(a, ns[0]), ns[1..])
  }

  /** Open groups never share a key. */
  predicate Distinct(groups: seq<ChargeGroup>) {
    forall i, j :: 0 <= i < j < |groups| ==> GroupKey(groups[i]) != GroupKey(groups[j])
  }

  predicate BelowThreshold(groups: seq<ChargeGroup>) {
    forall g :: g in groups ==> g.chargeCount < CHARGE_FLUSH_THRESHOLD
  }

  function Open(groups: seq<ChargeGroup>, key: Key): Option<ChargeGroup> {
    match Position(groups, key)
    case None => None
    case Some(i) => Some(groups[i])
  }

  lemma OpenIs(groups: seq<ChargeGroup>, i: nat)
    requires Distinct(groups) && i < |groups|
    ensures Open(groups, GroupKey(groups[i])) == Some(groups[i])
  {
  }

  lemma OpenOnly(groups: seq<ChargeGroup>, key: Key, o: Option<ChargeGroup>)
    requires Distinct(groups)
    requires match o case Some(g) => g in groups && GroupKey(g) == key case None => forall g :: g in groups ==> GroupKey(g) != key
    ensures Open(groups, key) == o
  {
    if o.Some? {
      var i :| 0 <= i < |groups| && groups[i] == o.value;
      OpenIs(groups, i);
    }
  }

  /** A note moves its own group and leaves every other key alone. */
  lemma NotedOpen(a: Acc, n: Note, key: Key)
    requires Distinct(a.groups)
    ensures Distinct(Noted(a, n).groups)
    ensures Open(Noted(a, n).groups, key) == if key == KeyOf(n) then Next(Open(a.groups, key), n) else Open(a.groups, key)
    ensures BelowThreshold(a.groups) ==> BelowThreshold(Noted(a, n).groups)
  {
    hide Position;
    var b := Noted(a, n);
    match Position(a.groups, KeyOf(n)) {
      case None =>
        if key != KeyOf(n) {
          OpenElsewhere(a.groups, b.groups, key);
        } else {
          OpenOnly(b.groups, key, Some(Begun(n)));
        }
      case Some(i) =>
        var g := Absorbed(a.groups[i], n);
        assert GroupKey(g) == KeyOf(n);
        if key != KeyOf(n) {
          SameMembers(a.groups, i, g, key);
          OpenElsewhere(a.groups, b.groups, key);
        } else if g.chargeCount >= CHARGE_FLUSH_THRESHOLD {
          OpenOnly(b.groups, key, None);
        } else {
          assert b.groups[i] == g;
          OpenOnly(b.groups, key, Some(g));
        }
    }
  }

  /** Removing or replacing a group of another key. */
  lemma SameMembers(groups: seq<ChargeGroup>, i: nat, g: ChargeGroup, key: Key)
    requires i < |groups| && GroupKey(groups[i]) == GroupKey(g) != key
    ensures forall h :: GroupKey(h) == key ==> (h in groups <==> h in Without(groups, i))
    ensures forall h :: GroupKey(h) == key ==> (h in groups <==> h in groups[i := g])
  {
    assert groups == groups[..i] + [groups[i]] + groups[i + 1..];
    assert groups[i := g] == groups[..i] + [g] + groups[i + 1..];
  }

  lemma OpenElsewhere(before: seq<ChargeGroup>, after: seq<ChargeGroup>, key: Key)
    requires Distinct(before) && Distinct(after)
    requires forall g :: GroupKey(g) == key ==> (g in before <==> g in after)
    ensures Open(after, key) == Open(before, key)
  {
    hide Position;
    OpenFound(before, key);
    OpenOnly(after, key, Open(before, key));
  }

  lemma OpenFound(groups: seq<ChargeGroup>, key: Key)
    ensures match Open(groups, key)
            case Some(g) => g in groups && GroupKey(g) == key
            case None => forall g :: g in groups ==> GroupKey(g) != key
  {
  }

  // ----- The class -----

  class BudgetChargeAccumulator {
    var groups: seq<ChargeGroup>
    var finalized: seq<AuditEvent>
    var finalizedEventBytes: U64
    /** Every note since the last flush. */
    ghost var notes: seq<Note>

    function State(): Acc
      reads this
    {
      Acc(groups, finalized)
    }

    /** Keys are distinct, groups are below the threshold, the byte count is that of the finished events, and the notes
        since the last flush led here. */
    ghost predicate Valid()
      reads this
    {
      && Distinct(groups) && BelowThreshold(groups)
      && State() == NotedAll(Acc([], []), notes)
      && finalizedEventBytes == SaturatingAdd(0, EstimatedBytes(finalized))
    }

    constructor ()
      ensures Valid() && State() == Acc([], []) && notes == []
    {
      groups, finalized, finalizedEventBytes := [], [], 0;
      notes := [];
    }

    method FindPosition(key: Key) returns (r: Option<nat>)
      ensures r == Position(groups, key)
    {
      assert groups[0..] == groups;
      for i := 0 to |groups|
        invariant Position(groups, key) == match Position(groups[i..], key) case None => None case Some(j) => Some(i + j)
      {
        assert groups[i..][1..] == groups[i + 1..];
        if GroupKey(groups[i]) == key {
          return Some(i);
        }
      }
      return None;
    }

    /** The queue of finished events is counted with 128 bytes for each, as far as that fits. */
    lemma QueueBytes()
      requires Valid()
      ensures finalizedEventBytes == Capped(128 * |finalized|)
    {
      hide NotedAll;
      FinishedBytes(notes);
    }

    method PushFinalized(event: AuditEvent)
      requires finalizedEventBytes == SaturatingAdd(0, EstimatedBytes(finalized))
      modifies this`finalized, this`finalizedEventBytes
      ensures finalized == old(finalized) + [event]
      ensures finalizedEventBytes == SaturatingAdd(0, EstimatedBytes(finalized))
    {
      finalizedEventBytes := SaturatingAdd(finalizedEventBytes, EstimateEventBytes(event));
      finalized := finalized + [event];
      assert finalized[..|finalized| - 1] == old(finalized);
    }

    /** Add a note to the open group of its key, or begin one; cut the group off when it is full. */
    method Record(n: Note)
      requires Valid()
      modifies this
      ensures Valid() && State() == Noted(old(State()), n) && notes == old(notes) + [n]
    {
      hide NotedAll;
      NotedOpen(State(), n, KeyOf(n));
      NotedSnoc(Acc([], []), notes, n);
      notes := notes + [n];
      var position := FindPosition(KeyOf(n));
      match position
      case Some(i) =>
        var g := Absorbed(groups[i], n);
        if g.chargeCount >= CHARGE_FLUSH_THRESHOLD {
          groups := Without(groups, i);
          PushFinalized(IntoEvent(g));
        } else {
          groups := groups[i := g];
        }
      case None =>
        groups := groups + [Begun(n)];
    }

    method NoteCharge(resource: BudgetResource, reason: BudgetChargeReason, delta: U64, usageAfter: U64)
      requires Valid()
      modifies this
      ensures Valid() && State() == Noted(old(State()), Charged(resource, reason, delta, usageAfter))
      ensures notes == old(notes) + [Charged(resource, reason, delta, usageAfter)]
    {
      Record(Charged(resource, reason, delta, usageAfter));
    }

    method NoteRelease(resource: BudgetResource, reason: BudgetChargeReason, delta: U64, live: U64, peak: U64)
      requires Valid()
      modifies this
      ensures Valid() && State() == Noted(old(State()), Released(resource, reason, delta, live, peak))
      ensures notes == old(notes) + [Released(resource, reason, delta, live, peak)]
    {
      Record(Released(resource, reason, delta, live, peak));
    }

    /** The finished events in their order, then the open groups in key order. The events of each key sum up its
        notes, in pieces of 256. */
    method Flush() returns (events: seq<AuditEvent>)
      requires Valid()
      modifies this
      ensures Valid() && State() == Acc([], []) && notes == []
      ensures forall key :: EventsOf(events, key) == Pieces(ForKey(old(notes), key))
      ensures events == Flushed(old(State()))
      ensures exists rest :: Residual(old(groups), rest) && events == old(finalized) + IntoEvents(rest)
    {
      events := finalized;
      finalized, finalizedEventBytes := [], 0;
      var rest := SortByKey(groups);
      groups := [];
      for i := 0 to |rest|
        invariant events == old(finalized) + IntoEvents(rest[..i])
      {
        events := events + [IntoEvent(rest[i])];
        assert rest[..i + 1][..i] == rest[..i];
      }
      assert rest[..|rest|] == rest;
      SortKeeps(old(groups));
      assert Residual(old(groups), rest);
      FlushSumsUp(notes);
      notes := [];
    }
  }

  function IntoEvents(groups: seq<ChargeGroup>): seq<AuditEvent> {
    if groups == [] then [] else IntoEvents(groups[..|groups| - 1]) + [IntoEvent(groups[|groups| - 1])]
  }

  // ----- What the stream says -----

  function ChargedIn(ns: seq<Note>): nat {
    if ns == [] then 0 else ChargedIn(ns[..|ns| - 1]) + if ns[|ns| - 1].Charged? then ns[|ns| - 1].delta else 0
  }

  function ReleasedIn(ns: seq<Note>): nat {
    if ns == [] then 0 else ReleasedIn(ns[..|ns| - 1]) + if ns[|ns| - 1].Released? then ns[|ns| - 1].delta else 0
  }

  /** The peak that the last release tells, if there was one. */
  function LastPeak(ns: seq<Note>): Option<U64> {
    if ns == [] then None
    else if ns[|ns| - 1].Released? then Some(ns[|ns| - 1].peakAfter)
    else LastPeak(ns[..|ns| - 1])
  }

  function Capped(n: nat): U64 { if n > U64_MAX then U64_MAX else n }

  /** Notes of one key as one event: all that was charged, all that was released, and how things stood after the last. */
  function Summary(ns: seq<Note>): AuditEvent
    requires ns != []
  {
    BudgetCharged(ns[0].resource, Capped(ChargedIn(ns)), Capped(ReleasedIn(ns)), ns[|ns| - 1].usageAfter, LastPeak(ns),
                  Capped(|ns|), ns[0].reason)
  }

  /** Pieces of 256 notes, the last one of what is left over. */
  function Pieces(ns: seq<Note>): seq<AuditEvent>
    decreases |ns|
  {
    Whole(ns) + if Rest(ns) == [] then [] else [Summary(Rest(ns))]
  }

  function Whole(ns: seq<Note>): seq<AuditEvent>
    decreases |ns|
  {
    if |ns| < 256 then [] else [Summary(ns[..256])] + Whole(ns[256..])
  }

  function Rest(ns: seq<Note>): seq<Note> { ns[|ns| - |ns| % 256..] }

  predicate IsOf(e: AuditEvent, key: Key) { e.BudgetCharged? && (e.resource, e.reason) == key }

  function EventsOf(events: seq<AuditEvent>, key: Key): seq<AuditEvent> {
    if events == [] then []
    else EventsOf(events[..|events| - 1], key) + if IsOf(events[|events| - 1], key) then [events[|events| - 1]] else []
  }

  lemma EventsOfSnoc(events: seq<AuditEvent>, e: AuditEvent, key: Key)
    ensures EventsOf(events + [e], key) == EventsOf(events, key) + if IsOf(e, key) then [e] else []
  {
    assert (events + [e])[..|events|] == events;
  }

  lemma {:induction false} NotedSnoc(a: Acc, ns: seq<Note>, n: Note)
    ensures NotedAll(a, ns + [n]) == Noted(NotedAll(a, ns), n)
    decreases |ns|
  {
    hide Noted;
    if ns == [] {
      assert ns + [n] == [n] && [n][1..] == [];
    } else {
      assert (ns + [n])[1..] == ns[1..] + [n];
      NotedSnoc(Noted(a, ns[0]), ns[1..], n);
    }
  }

  lemma {:induction false} ForKeySnoc(ns: seq<Note>, n: Note, key: Key)
    ensures ForKey(ns + [n], key) == ForKey(ns, key) + if KeyOf(n) == key then [n] else []
    decreases |ns|
  {
    if ns == [] {
      assert ns + [n] == [n] && [n][1..] == [];
    } else {
      assert (ns + [n])[1..] == ns[1..] + [n];
      ForKeySnoc(ns[1..], n, key);
    }
  }

  lemma {:induction false} ForKeyKeys(ns: seq<Note>, key: Key)
    ensures forall i :: 0 <= i < |ForKey(ns, key)| ==> KeyOf(ForKey(ns, key)[i]) == key
  {
    if ns != [] {
      ForKeyKeys(ns[1..], key);
    }
  }

  /** What a note adds to the finished events. */
  lemma NotedFinalized(a: Acc, n: Note)
    requires Distinct(a.groups)
    ensures var open := Open(a.groups, KeyOf(n));
            Noted(a, n).finalized ==
            if open.Some? && Absorbed(open.value, n).chargeCount >= CHARGE_FLUSH_THRESHOLD
            then a.finalized + [IntoEvent(Absorbed(open.value, n))] else a.finalized
  {
  }

  lemma RestSnoc(ns: seq<Note>, n: Note)
    ensures Rest(ns + [n]) == if |Rest(ns)| == 255 then [] else Rest(ns) + [n]
    ensures |Rest(ns)| < 256
  {
    var k := |ns| % 256;
    if k == 255 {
      assert (|ns| + 1) % 256 == 0;
    } else {
      assert (|ns| + 1) % 256 == k + 1;
    }
  }

  lemma RestShift(ns: seq<Note>)
    requires |ns| >= 256
    ensures Rest(ns[256..]) == Rest(ns)
  {
    assert |ns| == |ns[256..]| + 256;
    assert |ns[256..]| % 256 == |ns| % 256;
  }

  lemma RestAll(ns: seq<Note>)
    requires |ns| < 256
    ensures Rest(ns) == ns
  {
  }

  lemma {:induction false} WholeSnoc(ns: seq<Note>, n: Note)
    ensures Whole(ns + [n]) == Whole(ns) + if |Rest(ns)| == 255 then [Summary(Rest(ns) + [n])] else []
    decreases |ns|
  {
    hide Summary;
    var more := ns + [n];
    if |ns| < 255 {
    } else if |ns| == 255 {
      assert Rest(ns) == ns && more[..256] == more && more[256..] == [];
    } else {
      assert more[..256] == ns[..256] && more[256..] == ns[256..] + [n];
      RestShift(ns);
      WholeSnoc(ns[256..], n);
    }
  }

  /** A group that sums up some notes, and one more. */
  lemma AbsorbedSummary(g: ChargeGroup, ns: seq<Note>, n: Note)
    requires ns != [] && |ns| < 256 && IntoEvent(g) == Summary(ns)
    ensures IntoEvent(Absorbed(g, n)) == Summary(ns + [n]) && Absorbed(g, n).chargeCount == |ns| + 1
  {
    assert (ns + [n])[..|ns|] == ns;
  }

  lemma BegunSummary(n: Note)
    ensures IntoEvent(Begun(n)) == Summary([n])
  {
    assert [n][..0] == [];
    NoNotes();
    assert ReleasedIn([n]) == (if n.Released? then n.delta else 0) && ChargedIn([n]) == (if n.Charged? then n.delta else 0);
    assert LastPeak([]) == None;
  }

  /** Whatever was noted, in whatever order: the finished events of a key are its notes in pieces of 256, each summed
      up, and its open group sums up the rest. */
  lemma {:induction false} StreamSumsUp(ns: seq<Note>, key: Key)
    ensures var a := NotedAll(Acc([], []), ns);
            && Distinct(a.groups)
            && EventsOf(a.finalized, key) == Whole(ForKey(ns, key))
            && match Open(a.groups, key)
               case None => Rest(ForKey(ns, key)) == []
               case Some(g) => Rest(ForKey(ns, key)) != [] && IntoEvent(g) == Summary(Rest(ForKey(ns, key)))
    decreases |ns|
  {
    hide Noted, Open, Distinct, Summary, Absorbed, Whole, Rest, IntoEvent, ForKey;
    if ns == [] {
      NothingNoted(key);
    } else {
      var init, n := ns[..|ns| - 1], ns[|ns| - 1];
      var a := NotedAll(Acc([], []), init);
      assert init + [n] == ns;
      StreamSumsUp(init, key);
      NotedSnoc(Acc([], []), init, n);
      ForKeySnoc(init, n, key);
      NotedOpen(a, n, key);
      NotedFinalized(a, n);
      if KeyOf(n) == key {
        NextSumsUp(a, ForKey(init, key), n);
      } else {
        assert ForKey(init, key) + [] == ForKey(init, key);
        OtherKey(a, n, key);
      }
    }
  }

  lemma NothingNoted(key: Key)
    ensures NotedAll(Acc([], []), []) == Acc([], []) && ForKey([], key) == [] && EventsOf([], key) == []
    ensures Whole([]) == [] && Rest([]) == [] && Open([], key) == None && Distinct([])
  {
  }

  /** A note of another key finishes no event of this one. */
  lemma OtherKey(a: Acc, n: Note, key: Key)
    requires Distinct(a.groups) && KeyOf(n) != key
    ensures EventsOf(Noted(a, n).finalized, key) == EventsOf(a.finalized, key)
  {
    hide Noted, Distinct, EventsOf, Position;
    NotedFinalized(a, n);
    OpenFound(a.groups, KeyOf(n));
    var open := Open(a.groups, KeyOf(n));
    if open.Some? {
      var e := IntoEvent(Absorbed(open.value, n));
      EventsOfSnoc(a.finalized, e, key);
      assert EventsOf(a.finalized, key) + [] == EventsOf(a.finalized, key);
    }
  }

  lemma NextSumsUp(a: Acc, ks: seq<Note>, n: Note)
    requires Distinct(a.groups) && EventsOf(a.finalized, KeyOf(n)) == Whole(ks)
    requires match Open(a.groups, KeyOf(n))
             case None => Rest(ks) == []
             case Some(g) => Rest(ks) != [] && IntoEvent(g) == Summary(Rest(ks))
    ensures EventsOf(Noted(a, n).finalized, KeyOf(n)) == Whole(ks + [n])
    ensures match Next(Open(a.groups, KeyOf(n)), n)
            case None => Rest(ks + [n]) == []
            case Some(g) => Rest(ks + [n]) != [] && IntoEvent(g) == Summary(Rest(ks + [n]))
  {
    hide Noted, Open, Distinct, Summary, Absorbed, Whole, Rest, EventsOf, IntoEvent, Begun;
    var open := Open(a.groups, KeyOf(n));
    NotedFinalized(a, n);
    RestSnoc(ks, n);
    WholeSnoc(ks, n);
    match open {
      case None => {
        BegunSummary(n);
        assert [] + [n] == [n] && Whole(ks) + [] == Whole(ks);
      }
      case Some(g) => {
        AbsorbedSummary(g, Rest(ks), n);
        var e := IntoEvent(Absorbed(g, n));
        EventsOfSnoc(a.finalized, e, KeyOf(n));
        EventKey(a.groups, n);
        assert Whole(ks) + [] == Whole(ks);
      }
    }
  }

  lemma EventKey(groups: seq<ChargeGroup>, n: Note)
    requires Open(groups, KeyOf(n)).Some?
    ensures IsOf(IntoEvent(Absorbed(Open(groups, KeyOf(n)).value, n)), KeyOf(n))
  {
    hide Position;
    OpenFound(groups, KeyOf(n));
  }

  // ----- Bytes of the finished events -----

  lemma EstimatedSnoc(events: seq<AuditEvent>, e: AuditEvent)
    ensures EstimatedBytes(events + [e]) == EstimatedBytes(events) + EstimateEventBytes(e)
  {
    assert (events + [e])[..|events|] == events;
  }

  /** Every finished event is counted with the same 128 bytes. */
  lemma {:induction false} FinishedBytes(ns: seq<Note>)
    ensures var a := NotedAll(Acc([], []), ns);
            Distinct(a.groups) && EstimatedBytes(a.finalized) == 128 * |a.finalized|
    decreases |ns|
  {
    hide Noted, Distinct, Open, EstimatedBytes, Absorbed;
    if ns == [] {
      NothingNoted((Fuel, Operation));
      assert EstimatedBytes([]) == 0 by {
        NoBytes();
      }
    } else {
      var init, n := ns[..|ns| - 1], ns[|ns| - 1];
      var a := NotedAll(Acc([], []), init);
      assert init + [n] == ns;
      FinishedBytes(init);
      NotedSnoc(Acc([], []), init, n);
      NotedOpen(a, n, KeyOf(n));
      NotedFinalized(a, n);
      var open := Open(a.groups, KeyOf(n));
      if open.Some? {
        EstimatedSnoc(a.finalized, IntoEvent(Absorbed(open.value, n)));
      }
    }
  }

  lemma NoBytes()
    ensures EstimatedBytes([]) == 0
  {
  }

  // ----- Flushing -----

  lemma {:induction false} EventsOfCat(xs: seq<AuditEvent>, ys: seq<AuditEvent>, key: Key)
    ensures EventsOf(xs + ys, key) == EventsOf(xs, key) + EventsOf(ys, key)
    decreases |ys|
  {
    if ys == [] {
      assert xs + [] == xs && EventsOf(xs, key) + [] == EventsOf(xs, key);
    } else {
      var init, last := ys[..|ys| - 1], ys[|ys| - 1];
      assert xs + ys == (xs + init) + [last];
      EventsOfSnoc(xs + init, last, key);
      EventsOfCat(xs, init, key);
    }
  }

  /** Groups with distinct keys: one event for each key that has a group. */
  lemma {:induction false} GroupEvents(groups: seq<ChargeGroup>, key: Key)
    requires Distinct(groups)
    ensures EventsOf(IntoEvents(groups), key) ==
            match Open(groups, key) case None => [] case Some(g) => [IntoEvent(g)]
    decreases |groups|
  {
    hide Position;
    OpenFound(groups, key);
    if groups != [] {
      var init, last := groups[..|groups| - 1], groups[|groups| - 1];
      assert groups == init + [last];
      GroupEvents(init, key);
      OpenFound(init, key);
      EventsOfSnoc(IntoEvents(init), IntoEvent(last), key);
      if GroupKey(last) == key {
        assert forall g :: g in init ==> GroupKey(g) != key;
        OpenOnly(groups, key, Some(last));
      } else {
        OpenElsewhere(groups, init, key);
      }
    }
  }

  lemma FlushSumsUp(ns: seq<Note>)
    ensures forall key :: EventsOf(Flushed(NotedAll(Acc([], []), ns)), key) == Pieces(ForKey(ns, key))
  {
    hide NotedAll, Open, Distinct, Summary, Whole, Rest, EventsOf, IntoEvent, IntoEvents, SortByKey, ForKey;
    var a := NotedAll(Acc([], []), ns);
    forall key
      ensures EventsOf(Flushed(a), key) == Pieces(ForKey(ns, key))
    {
      StreamSumsUp(ns, key);
      SortedEvents(a.groups, key);
      EventsOfCat(a.finalized, IntoEvents(SortByKey(a.groups)), key);
    }
  }

  lemma SortedEvents(groups: seq<ChargeGroup>, key: Key)
    requires Distinct(groups)
    ensures EventsOf(IntoEvents(SortByKey(groups)), key) ==
            match Open(groups, key) case None => [] case Some(g) => [IntoEvent(g)]
  {
    hide Open, EventsOf, IntoEvent, IntoEvents, SortByKey, Rank;
    SortKeeps(groups);
    AscendingDistinct(SortByKey(groups));
    GroupEvents(SortByKey(groups), key);
    OpenElsewhere(groups, SortByKey(groups), key);
  }

  lemma AscendingDistinct(groups: seq<ChargeGroup>)
    requires Ascending(groups)
    ensures Distinct(groups)
  {
    forall i, j | 0 <= i < j < |groups|
      ensures GroupKey(groups[i]) != GroupKey(groups[j])
    {
      RankIsKey(groups[i], groups[j]);
    }
  }

  // ----- Nothing is lost -----

  function SumCommitted(events: seq<AuditEvent>): nat {
    if events == [] then 0
    else SumCommitted(events[..|events| - 1]) + if events[|events| - 1].BudgetCharged? then events[|events| - 1].committedDelta else 0
  }

  function SumReleased(events: seq<AuditEvent>): nat {
    if events == [] then 0
    else SumReleased(events[..|events| - 1]) + if events[|events| - 1].BudgetCharged? then events[|events| - 1].releasedDelta else 0
  }

  lemma {:induction false} SumsCat(xs: seq<AuditEvent>, ys: seq<AuditEvent>)
    ensures SumReleased(xs + ys) == SumReleased(xs) + SumReleased(ys)
    ensures SumCommitted(xs + ys) == SumCommitted(xs) + SumCommitted(ys)
    decreases |ys|
  {
    if ys == [] {
      assert xs + [] == xs;
    } else {
      var init, last := ys[..|ys| - 1], ys[|ys| - 1];
      assert (xs + ys)[..|xs + ys| - 1] == xs + init;
      SumsCat(xs, init);
    }
  }

  lemma {:induction false} NotesCat(xs: seq<Note>, ys: seq<Note>)
    ensures ReleasedIn(xs + ys) == ReleasedIn(xs) + ReleasedIn(ys)
    ensures ChargedIn(xs + ys) == ChargedIn(xs) + ChargedIn(ys)
    decreases |ys|
  {
    if ys == [] {
      assert xs + [] == xs;
    } else {
      var init, last := ys[..|ys| - 1], ys[|ys| - 1];
      assert (xs + ys)[..|xs + ys| - 1] == xs + init;
      NotesCat(xs, init);
    }
  }

  lemma OneSum(e: AuditEvent)
    requires e.BudgetCharged?
    ensures SumReleased([e]) == e.releasedDelta && SumCommitted([e]) == e.committedDelta
  {
    assert [e][..0] == [];
  }

  lemma {:induction false} WholeSum(ns: seq<Note>)
    ensures ReleasedIn(ns) <= U64_MAX ==> SumReleased(Whole(ns)) + ReleasedIn(Rest(ns)) == ReleasedIn(ns)
    ensures ChargedIn(ns) <= U64_MAX ==> SumCommitted(Whole(ns)) + ChargedIn(Rest(ns)) == ChargedIn(ns)
    decreases |ns|
  {
    hide SumReleased, SumCommitted, ReleasedIn, ChargedIn, LastPeak, Rest;
    if |ns| < 256 {
      RestAll(ns);
      NoSum();
    } else {
      var first, others := ns[..256], ns[256..];
      assert ns == first + others;
      NotesCat(first, others);
      WholeSum(others);
      RestShift(ns);
      OneSum(Summary(first));
      SumsCat([Summary(first)], Whole(others));
    }
  }

  lemma NoSum()
    ensures SumReleased([]) == 0 && SumCommitted([]) == 0
  {
  }

  /** As long as the sums fit 64 bits: what the finished events of a key and its open group say was released is all that
      was noted as released, and likewise what was committed. */
  lemma NothingLost(ns: seq<Note>, key: Key)
    ensures var a, ks := NotedAll(Acc([], []), ns), ForKey(ns, key);
            var open := Open(a.groups, key);
            && (ReleasedIn(ks) <= U64_MAX ==>
                  SumReleased(EventsOf(a.finalized, key)) + (if open.Some? then open.value.releasedDelta else 0) == ReleasedIn(ks))
            && (ChargedIn(ks) <= U64_MAX ==>
                  SumCommitted(EventsOf(a.finalized, key)) + (if open.Some? then open.value.committedDelta else 0) == ChargedIn(ks))
  {
    hide NotedAll, Open, EventsOf, SumReleased, SumCommitted, ReleasedIn, ChargedIn, Whole, Rest, ForKey, LastPeak;
    StreamSumsUp(ns, key);
    WholeSum(ForKey(ns, key));
    NoNotes();
  }

  lemma NoNotes()
    ensures ReleasedIn([]) == 0 && ChargedIn([]) == 0
  {
  }

  /** After a flush, the events of a key say all of it. */
  lemma PiecesSum(ns: seq<Note>)
    ensures ReleasedIn(ns) <= U64_MAX ==> SumReleased(Pieces(ns)) == ReleasedIn(ns)
    ensures ChargedIn(ns) <= U64_MAX ==> SumCommitted(Pieces(ns)) == ChargedIn(ns)
  {
    hide SumReleased, SumCommitted, ReleasedIn, ChargedIn, Whole, Rest, LastPeak;
    WholeSum(ns);
    NoNotes();
    if Rest(ns) != [] {
      SumsCat(Whole(ns), [Summary(Rest(ns))]);
      OneSum(Summary(Rest(ns)));
    } else {
      assert Whole(ns) + [] == Whole(ns);
    }
  }

  // ----- Order of the residual groups -----

  /** The sort key: resource first, then reason, both in declaration order. */
  function Rank(g: ChargeGroup): nat { BudgetResourceTag(g.resource) * 12 + BudgetChargeReasonTag(g.reason) }

  lemma RankIsKey(g: ChargeGroup, h: ChargeGroup)
    ensures Rank(g) == Rank(h) <==> GroupKey(g) == GroupKey(h)
    ensures Rank(g) < Rank(h) <==>
            || BudgetResourceTag(g.resource) < BudgetResourceTag(h.resource)
            || (g.resource == h.resource && BudgetChargeReasonTag(g.reason) < BudgetChargeReasonTag(h.reason))
  {
  }

  function Insert(g: ChargeGroup, sorted: seq<ChargeGroup>): seq<ChargeGroup> {
    if sorted == [] || Rank(g) <= Rank(sorted[0]) then [g] + sorted else [sorted[0]] + Insert(g, sorted[1..])
  }

  function SortByKey(groups: seq<ChargeGroup>): seq<ChargeGroup> {
    if groups == [] then [] else Insert(groups[0], SortByKey(groups[1..]))
  }

  function Flushed(a: Acc): seq<AuditEvent> { a.finalized + IntoEvents(SortByKey(a.groups)) }

  /** The same groups, in strictly ascending order of their keys. There is only one such list (`AscendingUnique`). */
  ghost predicate Residual(groups: seq<ChargeGroup>, rest: seq<ChargeGroup>) {
    Ascending(rest) && forall g :: g in rest <==> g in groups
  }

  predicate Ascending(groups: seq<ChargeGroup>) {
    forall i, j :: 0 <= i < j < |groups| ==> Rank(groups[i]) < Rank(groups[j])
  }

  lemma {:induction false} InsertKeeps(g: ChargeGroup, sorted: seq<ChargeGroup>)
    requires Ascending(sorted) && forall h :: h in sorted ==> Rank(h) != Rank(g)
    ensures Ascending(Insert(g, sorted))
    ensures forall h :: h in Insert(g, sorted) <==> h == g || h in sorted
    decreases |sorted|
  {
    hide Rank;
    if sorted != [] && Rank(g) > Rank(sorted[0]) {
      InsertKeeps(g, sorted[1..]);
      var rest := Insert(g, sorted[1..]);
      assert sorted == [sorted[0]] + sorted[1..];
      forall h | h in rest
        ensures Rank(sorted[0]) < Rank(h)
      {
        if h != g {
          var i :| 0 <= i < |sorted[1..]| && sorted[1..][i] == h;
          assert Rank(sorted[0]) < Rank(sorted[i + 1]);
        }
      }
    } else if sorted != [] {
      assert sorted[0] in sorted;
    }
  }

  lemma {:induction false} SortKeeps(groups: seq<ChargeGroup>)
    requires Distinct(groups)
    ensures Ascending(SortByKey(groups))
    ensures forall h :: h in SortByKey(groups) <==> h in groups
    decreases |groups|
  {
    if groups != [] {
      SortKeeps(groups[1..]);
      forall h | h in SortByKey(groups[1..])
        ensures Rank(h) != Rank(groups[0])
      {
        var i :| 0 <= i < |groups[1..]| && groups[1..][i] == h;
        RankIsKey(groups[0], groups[i + 1]);
      }
      InsertKeeps(groups[0], SortByKey(groups[1..]));
    }
  }

  /** An ascending list is determined by what is in it. */
  lemma {:induction false} AscendingUnique(xs: seq<ChargeGroup>, ys: seq<ChargeGroup>)
    requires Ascending(xs) && Ascending(ys) && forall h :: h in xs <==> h in ys
    ensures xs == ys
    decreases |xs|
  {
    hide Rank;
    assert (xs != [] ==> xs[0] in xs) && (ys != [] ==> ys[0] in ys);
    if xs != [] {
      var j :| 0 <= j < |ys| && ys[j] == xs[0];
      var i :| 0 <= i < |xs| && xs[i] == ys[0];
      assert i == 0 && j == 0;
      forall h
        ensures h in xs[1..] <==> h in ys[1..]
      {
        assert xs == [xs[0]] + xs[1..] && ys == [ys[0]] + ys[1..];
        HeadOnce(xs, h);
        HeadOnce(ys, h);
      }
      AscendingUnique(xs[1..], ys[1..]);
    }
  }

  lemma HeadOnce(xs: seq<ChargeGroup>, h: ChargeGroup)
    requires xs != [] && Ascending(xs)
    ensures h in xs[1..] <==> h in xs && h != xs[0]
  {
    if h in xs[1..] {
      var i :| 0 <= i < |xs[1..]| && xs[1..][i] == h;
      assert Rank(xs[0]) < Rank(xs[i + 1]);
    }
  }

  // ----- Independence of interleaving -----

  function ForKey(ns: seq<Note>, key: Key): seq<Note> {
    if ns == [] then [] else (if KeyOf(ns[0]) == key then [ns[0]] else []) + ForKey(ns[1..], key)
  }

  function NextAll(open: Option<ChargeGroup>, ns: seq<Note>): Option<ChargeGroup>
    decreases |ns|
  {
    if ns == [] then open else NextAll(Next(open, ns[0]), ns[1..])
  }

  /** The open group of a key depends only on the notes for that key. */
  lemma {:induction false} OpenAfter(a: Acc, ns: seq<Note>, key: Key)
    requires Distinct(a.groups)
    ensures Distinct(NotedAll(a, ns).groups)
    ensures Open(NotedAll(a, ns).groups, key) == NextAll(Open(a.groups, key), ForKey(ns, key))
    decreases |ns|
  {
    hide Noted, Next, Open, Distinct;
    if ns != [] {
      NotedOpen(a, ns[0], key);
      OpenAfter(Noted(a, ns[0]), ns[1..], key);
      if KeyOf(ns[0]) == key {
        assert ForKey(ns, key) == [ns[0]] + ForKey(ns[1..], key);
        assert ([ns[0]] + ForKey(ns[1..], key))[1..] == ForKey(ns[1..], key);
      } else {
        assert ForKey(ns, key) == ForKey(ns[1..], key);
      }
    }
  }

  /** Two histories with the same notes for each key leave the same residual groups, in the same order,
      however differently the keys were interleaved. */
  lemma ResidualIsIndependent(ns: seq<Note>, ms: seq<Note>)
    requires forall key :: ForKey(ns, key) == ForKey(ms, key)
    ensures SortByKey(NotedAll(Acc([], []), ns).groups) == SortByKey(NotedAll(Acc([], []), ms).groups)
  {
    hide NotedAll, SortByKey, Rank, Open, NextAll;
    var a, b := NotedAll(Acc([], []), ns).groups, NotedAll(Acc([], []), ms).groups;
    OpenAfter(Acc([], []), ns, (Fuel, Operation));
    OpenAfter(Acc([], []), ms, (Fuel, Operation));
    forall h
      ensures h in a <==> h in b
    {
      OpenAfter(Acc([], []), ns, GroupKey(h));
      OpenAfter(Acc([], []), ms, GroupKey(h));
      OpenMember(a, h);
      OpenMember(b, h);
    }
    SortKeeps(a);
    SortKeeps(b);
    AscendingUnique(SortByKey(a), SortByKey(b));
  }

  lemma OpenMember(groups: seq<ChargeGroup>, h: ChargeGroup)
    requires Distinct(groups)
    ensures h in groups <==> Open(groups, GroupKey(h)) == Some(h)
  {
    hide Position;
    OpenFound(groups, GroupKey(h));
    if h in groups {
      var i :| 0 <= i < |groups| && groups[i] == h;
      OpenIs(groups, i);
    }
  }
}

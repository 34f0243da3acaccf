/** The budget ledger (`src/budget.rs`, `BudgetLedger`): atomic reservations over several counters, and the
    audit notes that follow every commitment. */
module Ledger {
  import opened Cbor
  import opened AuditEncoding
  import opened Accumulator

  // ----- Resources -----

  /** The resources that have a cumulative counter. The others are limited per item. */
  predicate Cumulative(r: BudgetResource) {
    !r.HeapBytes? && !r.SingleStringBytes? && !r.SingleSourceBytes? && !r.CollectionElements?
  }

  /** Two counters are 32 bits wide. */
  predicate Narrow(r: BudgetResource) { r.SourceCount? || r.ImportCount? }

  const U32_MAX: nat := 0xffff_ffff

  /** What fits the counter of a resource: the rest is cut off. */
  function CutOff(r: BudgetResource, n: nat): U64 {
    if Narrow(r) then n % (U32_MAX + 1) else n % (U64_MAX + 1)
  }

  /** Nothing grows, and what fits is kept. */
  lemma CutDown(r: BudgetResource, n: nat)
    ensures CutOff(r, n) <= n
    ensures n <= (if Narrow(r) then U32_MAX else U64_MAX) ==> CutOff(r, n) == n
  {
  }

  function Priority(r: BudgetResource): nat { BudgetResourceTag(r) + 1 }

  datatype BudgetUnit = FuelUnit | BytesUnit | CountUnit | ElementsUnit

  function UnitOf(r: BudgetResource): BudgetUnit {
    match r
    case Fuel => FuelUnit
    case SourceCount => CountUnit
    case ImportCount => CountUnit
    case StringAllocations => CountUnit
    case InputCalls => CountUnit
    case OutputCalls => CountUnit
    case HostCalls => CountUnit
    case CollectionElements => ElementsUnit
    case _ => BytesUnit
  }

  /** The reason under which commitments of a resource are aggregated: one for each resource. */
  function ReasonFor(r: BudgetResource): BudgetChargeReason {
    match r
    case Fuel => Operation
    case StringAllocations => Allocation
    case StringBytes => BulkBytes
    case SourceCount => Source
    case SourceBytes => Source
    case ImportCount => Source
    case ImportBytes => Source
    case InputCalls => Input
    case InputBytes => Input
    case OutputCalls => Output
    case OutputBytes => Output
    case HostCalls => HostCall
    case HostRequestBytes => HostCall
    case HostResponseBytes => HostCall
    case HostCallBytes => HostCall
    case _ => Allocation
  }

  /** Counters wrap at their width: 32 bits for the two that count sources and imports, 64 for the others. */
  lemma CountersWrap(r: BudgetResource, n: nat)
    ensures var w := if r in {SourceCount, ImportCount} then 0x1_0000_0000 else 0x1_0000_0000_0000_0000;
            CutOff(r, n) < w && (n < w ==> CutOff(r, n) == n) && CutOff(r, n + w) == CutOff(r, n)
  {
  }

  /** The order of priority is that of the declaration, beginning with 1. */
  lemma PriorityIsDeclared(r: BudgetResource, s: BudgetResource)
    ensures 1 <= Priority(r) <= |RESOURCES| && RESOURCES[Priority(r) - 1] == r
    ensures Priority(r) == Priority(s) <==> r == s
  {
    TagsCountDeclarations();
    assert InOrder(RESOURCES, BudgetResourceTag(r), r) && InOrder(RESOURCES, BudgetResourceTag(s), s);
  }

  /** Which resources are counted in which unit, and which are reported for which reason. */
  lemma ResourceTables(r: BudgetResource)
    ensures UnitOf(r).FuelUnit? <==> r.Fuel?
    ensures UnitOf(r).ElementsUnit? <==> r.CollectionElements?
    ensures UnitOf(r).CountUnit? <==>
            r in {SourceCount, ImportCount, StringAllocations, InputCalls, OutputCalls, HostCalls}
    ensures ReasonFor(r).Operation? <==> r.Fuel?
    ensures ReasonFor(r).BulkBytes? <==> r.StringBytes?
    ensures ReasonFor(r).Source? <==> r in {SourceCount, SourceBytes, ImportCount, ImportBytes}
    ensures ReasonFor(r).Input? <==> r in {InputCalls, InputBytes}
    ensures ReasonFor(r).Output? <==> r in {OutputCalls, OutputBytes}
    ensures ReasonFor(r).HostCall? <==> r in {HostCalls, HostRequestBytes, HostResponseBytes, HostCallBytes}
    ensures ReasonFor(r) in {Operation, BulkBytes, Source, Input, Output, BudgetChargeReason.HostCall, Allocation}
    ensures Narrow(r) <==> r in {SourceCount, ImportCount}
    ensures !Cumulative(r) <==> r in {HeapBytes, SingleStringBytes, SingleSourceBytes, CollectionElements}
  {
  }

  datatype ExecutionPhase = CompilePhase | LinkPhase | RunPhase | HostCallPhase | CommitPhase

  datatype Exceeded = Exceeded(
    resource: BudgetResource, limit: U64, used: U64, reserved: U64, requested: U64, unit: BudgetUnit, phase: ExecutionPhase)

  datatype ControlStop =
    | CancelledStop
    | DeadlineStop(deadline: U64, observed: U64)
    | ExceededStop(exceeded: Exceeded)

  datatype Control = Continue | Stop(stop: ControlStop)

  datatype Request = Request(resource: BudgetResource, amount: U64)

  type Counters = map<BudgetResource, U64>

  /** A counter that was never touched is zero, and so is one that does not exist. */
  function Get(c: Counters, r: BudgetResource): U64 { if Cumulative(r) && r in c then c[r] else 0 }

  function Set(c: Counters, r: BudgetResource, n: U64): (d: Counters)
    ensures forall s :: Get(d, s) == if s == r && Cumulative(r) then n else Get(c, s)
  {
    if Cumulative(r) then c[r := n] else c
  }

  // ----- Requests -----

  predicate Allowed(committed: Counters, reserved: Counters, limits: map<BudgetResource, U64>, req: Request) {
    Get(committed, req.resource) + Get(reserved, req.resource) + req.amount <= LimitOf(limits, req.resource)
  }

  function LimitOf(limits: map<BudgetResource, U64>, r: BudgetResource): U64 { if r in limits then limits[r] else 0 }

  /** The report for one request that does not fit. When the sum itself overflows, the request is reported as
      the largest number. */
  function ExceededBy(committed: Counters, reserved: Counters, limits: map<BudgetResource, U64>, req: Request, phase: ExecutionPhase): Exceeded {
    var used, held := Get(committed, req.resource), Get(reserved, req.resource);
    Exceeded(req.resource, LimitOf(limits, req.resource), used, held,
             if used + held + req.amount > U64_MAX then U64_MAX else req.amount, UnitOf(req.resource), phase)
  }

  /** Of the failing requests among the first `n`, none comes before request `i` in the fixed order of
      resources, and none of the same rank stands earlier in the list. */
  predicate ComesFirst(committed: Counters, reserved: Counters, limits: map<BudgetResource, U64>, reqs: seq<Request>, i: nat, n: nat)
    requires i < n <= |reqs|
  {
    forall j :: 0 <= j < n && j != i && !Allowed(committed, reserved, limits, reqs[j]) ==>
                  if j < i then Priority(reqs[i].resource) < Priority(reqs[j].resource)
                  else Priority(reqs[i].resource) <= Priority(reqs[j].resource)
  }

  /** A reserved counter after a list was added to it, in its own width. */
  function Held(start: U64, reqs: seq<Request>, r: BudgetResource): U64 {
    if reqs == [] then start
    else
      var last := reqs[|reqs| - 1];
      var before := Held(start, reqs[..|reqs| - 1], r);
      if last.resource == r && Cumulative(r) then CutOff(r, before + CutOff(r, last.amount)) else before
  }

  /** No resource is named twice. */
  predicate NamedOnce(reqs: seq<Request>) {
    forall i, j :: 0 <= i < j < |reqs| ==> reqs[i].resource != reqs[j].resource
  }

  /** How much a list asks of a resource. */
  function Asked(reqs: seq<Request>, r: BudgetResource): nat {
    if reqs == [] then 0
    else Asked(reqs[..|reqs| - 1], r) + if reqs[|reqs| - 1].resource == r then reqs[|reqs| - 1].amount else 0
  }

  /** All that is used, reserved and asked of a resource together stays within its limit. */
  predicate FitsTogether(committed: Counters, reserved: Counters, limits: map<BudgetResource, U64>, reqs: seq<Request>) {
    forall r :: Cumulative(r) ==> Get(committed, r) + Get(reserved, r) + Asked(reqs, r) <= LimitOf(limits, r)
  }

  /** A counter took in the whole list, and its limit is kept. */
  predicate HeldInFull(committed: Counters, reserved: Counters, limits: map<BudgetResource, U64>, reqs: seq<Request>, r: BudgetResource) {
    && Held(Get(reserved, r), reqs, r) == Get(reserved, r) + Asked(reqs, r)
    && Get(committed, r) + Held(Get(reserved, r), reqs, r) <= LimitOf(limits, r)
  }

  lemma {:induction false} AskedOnce(reqs: seq<Request>, i: nat)
    requires NamedOnce(reqs) && i < |reqs|
    ensures Asked(reqs, reqs[i].resource) == reqs[i].amount
    decreases |reqs|
  {
    var last := |reqs| - 1;
    if i < last {
      AskedOnce(reqs[..last], i);
    } else {
      AskedNever(reqs[..last], reqs[i].resource);
    }
  }

  lemma {:induction false} AskedNever(reqs: seq<Request>, r: BudgetResource)
    requires forall i :: 0 <= i < |reqs| ==> reqs[i].resource != r
    ensures Asked(reqs, r) == 0
    decreases |reqs|
  {
    if reqs != [] {
      AskedNever(reqs[..|reqs| - 1], r);
    }
  }

  lemma AskedNothing()
    ensures forall r :: Asked([], r) == 0
  {
  }

  lemma AskedSnoc(reqs: seq<Request>, i: nat)
    requires i < |reqs|
    ensures forall r :: Asked(reqs[..i + 1], r) == Asked(reqs[..i], r) + if reqs[i].resource == r then reqs[i].amount else 0
  {
    assert reqs[..i + 1][..i] == reqs[..i];
  }

  // ----- What operations charge -----

  datatype Charge =
    | FuelCharge(amount: U64)
    | StringCharge(bytes: U64)
    | SourceCharge(bytes: U64)
    | ImportCharge(bytes: U64)
    | InputCharge(bytes: U64)
    | OutputCharge(bytes: U64)
    | HostRequestCharge(bytes: U64)
    | HostResponseCharge(bytes: U64)

  function RequestsOf(c: Charge): seq<Request> {
    match c
    case FuelCharge(n) => [Request(Fuel, n)]
    case StringCharge(n) => [Request(StringAllocations, 1), Request(StringBytes, n)]
    case SourceCharge(n) => [Request(SourceCount, 1), Request(SourceBytes, n)]
    case ImportCharge(n) => [Request(ImportCount, 1), Request(ImportBytes, n)]
    case InputCharge(n) =>
      [Request(InputCalls, 1), Request(InputBytes, n), Request(HostCalls, 1), Request(HostResponseBytes, n), Request(HostCallBytes, n)]
    case OutputCharge(n) =>
      [Request(OutputCalls, 1), Request(OutputBytes, n), Request(HostCalls, 1), Request(HostRequestBytes, n), Request(HostCallBytes, n)]
    case HostRequestCharge(n) => [Request(HostCalls, 1), Request(HostRequestBytes, n), Request(HostCallBytes, n)]
    case HostResponseCharge(n) => [Request(HostResponseBytes, n), Request(HostCallBytes, n)]
  }

  /** The same, resource by resource. */
  function AmountOf(c: Charge, r: BudgetResource): nat {
    match c
    case FuelCharge(n) => if r.Fuel? then n else 0
    case StringCharge(n) => if r.StringAllocations? then 1 else if r.StringBytes? then n else 0
    case SourceCharge(n) => if r.SourceCount? then 1 else if r.SourceBytes? then n else 0
    case ImportCharge(n) => if r.ImportCount? then 1 else if r.ImportBytes? then n else 0
    case InputCharge(n) =>
      if r.InputCalls? || r.HostCalls? then 1 else if r.InputBytes? || r.HostResponseBytes? || r.HostCallBytes? then n else 0
    case OutputCharge(n) =>
      if r.OutputCalls? || r.HostCalls? then 1 else if r.OutputBytes? || r.HostRequestBytes? || r.HostCallBytes? then n else 0
    case HostRequestCharge(n) => if r.HostCalls? then 1 else if r.HostRequestBytes? || r.HostCallBytes? then n else 0
    case HostResponseCharge(n) => if r.HostResponseBytes? || r.HostCallBytes? then n else 0
  }

  /** Whatever a charge asks for, calls and allocations are counted one by one, and bytes and fuel by their amount. */
  lemma ChargedByUnit(c: Charge)
    ensures var size := if c.FuelCharge? then c.amount else c.bytes;
            forall r :: AmountOf(c, r) in {0, if UnitOf(r).CountUnit? then 1 else size}
  {
  }

  function MaxU64(a: U64, b: U64): U64 { if a < b then b else a }

  lemma RequestsAsk(c: Charge)
    ensures NamedOnce(RequestsOf(c))
    ensures forall r :: (if Cumulative(r) then Asked(RequestsOf(c), r) else 0) == AmountOf(c, r)
  {
    hide Asked;
    var reqs := RequestsOf(c);
    forall r
      ensures (if Cumulative(r) then Asked(reqs, r) else 0) == AmountOf(c, r)
    {
      if i :| 0 <= i < |reqs| && reqs[i].resource == r {
        AskedOnce(reqs, i);
      } else {
        AskedNever(reqs, r);
        assert forall i :: 0 <= i < |reqs| ==> reqs[i].resource != r;
        NotAsked(c, r);
      }
    }
  }

  lemma NotAsked(c: Charge, r: BudgetResource)
    requires forall i :: 0 <= i < |RequestsOf(c)| ==> RequestsOf(c)[i].resource != r
    ensures AmountOf(c, r) == 0
  {
    var reqs := RequestsOf(c);
    assert reqs[0].resource != r;
    if |reqs| > 1 {
      assert reqs[1].resource != r;
    }
    if |reqs| > 2 {
      assert reqs[2].resource != r;
    }
    if |reqs| > 4 {
      assert reqs[3].resource != r && reqs[4].resource != r;
    }
  }

  /** Nothing is reserved, and the host counters agree with each other. */
  ghost predicate Balanced(committed: Counters, reserved: Counters) {
    && (forall r :: Get(reserved, r) == 0)
    && Get(committed, HostCallBytes) == Get(committed, HostRequestBytes) + Get(committed, HostResponseBytes)
    && Get(committed, InputCalls) + Get(committed, OutputCalls) <= Get(committed, HostCalls)
    && Get(committed, InputBytes) <= Get(committed, HostResponseBytes)
    && Get(committed, OutputBytes) <= Get(committed, HostRequestBytes)
  }

  lemma BalanceKept(c: Charge, before: Counters, held: Counters, after: Counters, holds: Counters, done: bool)
    requires Balanced(before, held) && forall r :: Get(holds, r) == Get(held, r)
    requires forall r :: Get(after, r) == Get(before, r) + if done then AmountOf(c, r) else 0
    ensures Balanced(after, holds)
  {
    hide Get;
  }

  // ----- The audit stream as a record of the counters -----

  /** Read a stream of events back: the usage of a resource, provided that every event continues where the
      one before it stopped and aggregates at most 256 charges. */
  function Replayed(events: seq<AuditEvent>, r: BudgetResource): Option<nat> {
    if events == [] then Some(0)
    else
      var e := events[|events| - 1];
      match Replayed(events[..|events| - 1], r)
      case None => None
      case Some(u) =>
        if !(e.BudgetCharged? && e.resource == r) then Some(u)
        else if e.usageAfter == u + e.committedDelta && 1 <= e.chargeCount <= CHARGE_FLUSH_THRESHOLD then Some(e.usageAfter)
        else None
  }

  function SumDeltas(events: seq<AuditEvent>, r: BudgetResource): nat {
    if events == [] then 0
    else
      var e := events[|events| - 1];
      SumDeltas(events[..|events| - 1], r) + if e.BudgetCharged? && e.resource == r then e.committedDelta else 0
  }

  /** A stream that replays adds up. */
  lemma {:induction false} ReplayAddsUp(events: seq<AuditEvent>, r: BudgetResource)
    requires Replayed(events, r).Some?
    ensures Replayed(events, r).value == SumDeltas(events, r)
    decreases |events|
  {
    if events != [] {
      ReplayAddsUp(events[..|events| - 1], r);
    }
  }

  lemma ReplaySnoc(events: seq<AuditEvent>, e: AuditEvent, r: BudgetResource)
    ensures Replayed(events + [e], r) ==
            match Replayed(events, r)
            case None => None
            case Some(u) =>
              if !(e.BudgetCharged? && e.resource == r) then Some(u)
              else if e.usageAfter == u + e.committedDelta && 1 <= e.chargeCount <= CHARGE_FLUSH_THRESHOLD then Some(e.usageAfter)
              else None
  {
    assert (events + [e])[..|events|] == events;
  }

  /** Closed events reach `base`; the open group of the resource, if any, goes on from there to `now`. */
  predicate Continues(closed: seq<AuditEvent>, open: Option<ChargeGroup>, r: BudgetResource, now: nat) {
    && Replayed(closed, r).Some?
    && match open
       case None => Replayed(closed, r).value == now
       case Some(g) => g.usageAfter == now == Replayed(closed, r).value + g.committedDelta && g.chargeCount >= 1
  }

  /** Every resource keeps to its reason, so it has at most one open group. */
  predicate OneReason(groups: seq<ChargeGroup>) {
    forall g :: g in groups ==> g.reason == ReasonFor(g.resource)
  }

  ghost predicate Recorded(drained: seq<AuditEvent>, a: Acc, committed: Counters) {
    && Distinct(a.groups) && OneReason(a.groups) && BelowThreshold(a.groups)
    && forall r :: Cumulative(r) ==> Continues(drained + a.finalized, Open(a.groups, (r, ReasonFor(r))), r, Get(committed, r))
  }

  lemma OneReasonKept(a: Acc, n: Note)
    requires OneReason(a.groups) && n.reason == ReasonFor(n.resource)
    ensures OneReason(Noted(a, n).groups)
  {
    hide Position;
    var b := Noted(a, n);
    forall g | g in b.groups
      ensures g.reason == ReasonFor(g.resource)
    {
      match Position(a.groups, KeyOf(n))
      case None =>
      case Some(i) =>
        var h := Absorbed(a.groups[i], n);
        assert GroupKey(h) == KeyOf(n);
        assert g in a.groups || g == h;
    }
  }

  /** A commitment, and the note that reports it, keep the record. */
  lemma ChargeRecorded(drained: seq<AuditEvent>, a: Acc, committed: Counters, r: BudgetResource, amount: U64, after: Counters)
    requires Recorded(drained, a, committed) && Cumulative(r) && amount > 0
    requires Get(committed, r) + amount <= U64_MAX
    requires forall s :: Get(after, s) == if s == r then Get(committed, r) + amount else Get(committed, s)
    ensures Recorded(drained, Noted(a, Charged(r, ReasonFor(r), amount, Get(after, r))), after)
  {
    hide Noted, Open, Distinct, Replayed;
    var n := Charged(r, ReasonFor(r), amount, Get(after, r));
    var b := Noted(a, n);
    NotedOpen(a, n, KeyOf(n));
    OneReasonKept(a, n);
    NotedFinalized(a, n);
    forall s | Cumulative(s)
      ensures Continues(drained + b.finalized, Open(b.groups, (s, ReasonFor(s))), s, Get(after, s))
    {
      NotedOpen(a, n, (s, ReasonFor(s)));
      var open := Open(a.groups, KeyOf(n));
      if open.Some? {
        OpenCount(a, KeyOf(n));
        var e := IntoEvent(Absorbed(open.value, n));
        ReplaySnoc(drained + a.finalized, e, s);
        assert drained + (a.finalized + [e]) == drained + a.finalized + [e];
        OpenFound(a.groups, KeyOf(n));
      }
    }
  }

  lemma OpenCount(a: Acc, key: Key)
    requires BelowThreshold(a.groups)
    ensures Open(a.groups, key).Some? ==> Open(a.groups, key).value.chargeCount < CHARGE_FLUSH_THRESHOLD
  {
    OpenFound(a.groups, key);
  }

  /** A heap release is noted beside the record and leaves it alone. */
  lemma ReleaseRecorded(drained: seq<AuditEvent>, a: Acc, committed: Counters, n: Note)
    requires Recorded(drained, a, committed) && n.Released? && n.resource == HeapBytes && n.reason == Allocation
    ensures Recorded(drained, Noted(a, n), committed)
  {
    hide Noted, Open, Distinct, Replayed;
    var b := Noted(a, n);
    NotedOpen(a, n, KeyOf(n));
    OneReasonKept(a, n);
    NotedFinalized(a, n);
    forall s | Cumulative(s)
      ensures Continues(drained + b.finalized, Open(b.groups, (s, ReasonFor(s))), s, Get(committed, s))
    {
      NotedOpen(a, n, (s, ReasonFor(s)));
      var open := Open(a.groups, KeyOf(n));
      if open.Some? {
        OpenFound(a.groups, KeyOf(n));
        var e := IntoEvent(Absorbed(open.value, n));
        ReplaySnoc(drained + a.finalized, e, s);
        assert drained + (a.finalized + [e]) == drained + a.finalized + [e];
      }
    }
  }

  // ----- Draining -----

  lemma {:induction false} ReplayPast(events: seq<AuditEvent>, groups: seq<ChargeGroup>, r: BudgetResource)
    requires forall g :: g in groups ==> g.resource != r
    ensures Replayed(events + IntoEvents(groups), r) == Replayed(events, r)
    decreases |groups|
  {
    if groups == [] {
      assert events + [] == events;
    } else {
      var init, last := groups[..|groups| - 1], groups[|groups| - 1];
      assert last in groups;
      ReplayPast(events, init, r);
      ReplaySnoc(events + IntoEvents(init), IntoEvent(last), r);
      assert events + IntoEvents(groups) == events + IntoEvents(init) + [IntoEvent(last)];
    }
  }

  lemma {:induction false} IntoEventsCat(xs: seq<ChargeGroup>, ys: seq<ChargeGroup>)
    ensures IntoEvents(xs + ys) == IntoEvents(xs) + IntoEvents(ys)
    decreases |ys|
  {
    if ys == [] {
      assert xs + [] == xs && IntoEvents(xs) + [] == IntoEvents(xs);
    } else {
      var init, last := ys[..|ys| - 1], ys[|ys| - 1];
      assert (xs + ys)[..|xs + ys| - 1] == xs + init;
      IntoEventsCat(xs, init);
      assert IntoEvents(xs) + IntoEvents(init) + [IntoEvent(last)] == IntoEvents(xs) + (IntoEvents(init) + [IntoEvent(last)]);
    }
  }

  /** The one group of a resource, wherever it stands. */
  lemma SplitAt(groups: seq<ChargeGroup>, g: ChargeGroup) returns (pre: seq<ChargeGroup>, post: seq<ChargeGroup>)
    requires Distinct(groups) && OneReason(groups) && g in groups
    ensures groups == pre + [g] + post
    ensures forall h :: h in pre || h in post ==> h.resource != g.resource
  {
    var i :| 0 <= i < |groups| && groups[i] == g;
    pre, post := groups[..i], groups[i + 1..];
    forall h | h in pre || h in post
      ensures h.resource != g.resource
    {
      assert h in groups;
      var j :| 0 <= j < |groups| && j != i && groups[j] == h;
      assert GroupKey(groups[j]) != GroupKey(groups[i]);
    }
  }

  lemma IntoEventsAround(pre: seq<ChargeGroup>, g: ChargeGroup, post: seq<ChargeGroup>)
    ensures IntoEvents(pre + [g] + post) == IntoEvents(pre) + [IntoEvent(g)] + IntoEvents(post)
  {
    IntoEventsCat(pre + [g], post);
    IntoEventsCat(pre, [g]);
    OneEvent(g);
  }

  /** It brings the stream up to the present. */
  lemma ReplayGroups(closed: seq<AuditEvent>, groups: seq<ChargeGroup>, r: BudgetResource, now: nat)
    requires Distinct(groups) && OneReason(groups) && BelowThreshold(groups)
    requires Continues(closed, Open(groups, (r, ReasonFor(r))), r, now)
    ensures Replayed(closed + IntoEvents(groups), r) == Some(now)
  {
    hide Replayed, IntoEvents, Position, Distinct;
    var key := (r, ReasonFor(r));
    OpenFound(groups, key);
    match Open(groups, key)
    case None => ReplayPast(closed, groups, r);
    case Some(g) =>
      var pre, post := SplitAt(groups, g);
      IntoEventsAround(pre, g, post);
      ReplayPast(closed, pre, r);
      ReplaySnoc(closed + IntoEvents(pre), IntoEvent(g), r);
      ReplayPast(closed + IntoEvents(pre) + [IntoEvent(g)], post, r);
      assert closed + IntoEvents(groups) == closed + IntoEvents(pre) + [IntoEvent(g)] + IntoEvents(post);
  }

  lemma OneEvent(g: ChargeGroup)
    ensures IntoEvents([g]) == [IntoEvent(g)]
  {
    assert [g][..0] == [];
  }

  /** Draining closes every group; the stream then replays to the counters exactly. */
  lemma DrainRecorded(drained: seq<AuditEvent>, a: Acc, committed: Counters)
    requires Recorded(drained, a, committed)
    ensures Recorded(drained + Flushed(a), Acc([], []), committed)
    ensures forall r :: Cumulative(r) ==> Replayed(drained + Flushed(a), r) == Some(Get(committed, r))
  {
    hide Replayed, IntoEvents, Position, SortByKey, Continues, Rank;
    var sorted := SortByKey(a.groups);
    SortKeeps(a.groups);
    AscendingDistinct(sorted);
    forall r | Cumulative(r)
      ensures Replayed(drained + Flushed(a), r) == Some(Get(committed, r))
    {
      OpenElsewhere(a.groups, sorted, (r, ReasonFor(r)));
      ReplayGroups(drained + a.finalized, sorted, r, Get(committed, r));
      assert drained + Flushed(a) == drained + a.finalized + IntoEvents(sorted);
    }
    NothingOpen(drained + Flushed(a), committed);
  }

  lemma NothingOpen(closed: seq<AuditEvent>, committed: Counters)
    requires forall r :: Cumulative(r) ==> Replayed(closed, r) == Some(Get(committed, r))
    ensures Recorded(closed, Acc([], []), committed)
  {
    assert closed + [] == closed;
  }

  // ----- Releases of live heap -----

  const HEAP_KEY: Key := (HeapBytes, Allocation)

  /** What the stream drained so far and the notes not yet drained say was released is what was released, as long as it
      can be counted in 64 bits. */
  predicate ReleasesKept(drained: seq<AuditEvent>, notes: seq<Note>, released: nat) {
    released <= U64_MAX ==> SumReleased(EventsOf(drained, HEAP_KEY)) + ReleasedIn(ForKey(notes, HEAP_KEY)) == released
  }

  lemma NoteKeepsReleases(drained: seq<AuditEvent>, notes: seq<Note>, released: nat, n: Note)
    requires ReleasesKept(drained, notes, released)
    ensures ReleasesKept(drained, notes + [n], released + if n.Released? && KeyOf(n) == HEAP_KEY then n.delta else 0)
  {
    hide SumReleased, EventsOf, ForKey, ReleasedIn;
    ForKeySnoc(notes, n, HEAP_KEY);
    NotesCat(ForKey(notes, HEAP_KEY), [n]);
    OneNote(n);
    assert ForKey(notes, HEAP_KEY) + [] == ForKey(notes, HEAP_KEY);
  }

  lemma OneNote(n: Note)
    ensures ReleasedIn([n]) == if n.Released? then n.delta else 0
  {
    assert [n][..0] == [];
  }

  lemma FlushKeepsReleases(drained: seq<AuditEvent>, notes: seq<Note>, released: nat, events: seq<AuditEvent>)
    requires ReleasesKept(drained, notes, released) && EventsOf(events, HEAP_KEY) == Pieces(ForKey(notes, HEAP_KEY))
    ensures ReleasesKept(drained + events, [], released)
    ensures released <= U64_MAX ==> SumReleased(EventsOf(drained + events, HEAP_KEY)) == released
  {
    hide SumReleased, EventsOf, ReleasedIn, Pieces, ForKey;
    PiecesSum(ForKey(notes, HEAP_KEY));
    EventsOfCat(drained, events, HEAP_KEY);
    SumsCat(EventsOf(drained, HEAP_KEY), EventsOf(events, HEAP_KEY));
    NoNotes();
    assert ForKey([], HEAP_KEY) == [] by {
      NothingNoted(HEAP_KEY);
    }
  }

  lemma NothingReleased()
    ensures ReleasesKept([], [], 0)
  {
  }

  // ----- The ledger -----

  class BudgetLedger {
    const limits: map<BudgetResource, U64>
    const deadline: U64
    var committed: Counters
    var reserved: Counters
    var cancelled: bool
    var peakString: U64
    var peakSource: U64
    const accumulator: BudgetChargeAccumulator
    /** Every event handed out so far. */
    ghost var drained: seq<AuditEvent>
    /** All bytes of live heap that were reported as released. */
    ghost var released: nat

    /** Committed and reserved together stay within every limit, no counter has lost a bit, and the audit
        stream is a complete record of what was committed and of what was released. */
    ghost predicate Valid()
      reads this, accumulator
    {
      && accumulator.Valid()
      && (forall r :: Narrow(r) ==> LimitOf(limits, r) <= U32_MAX)
      && (forall r :: Cumulative(r) ==> Get(committed, r) + Get(reserved, r) <= LimitOf(limits, r))
      && Recorded(drained, accumulator.State(), committed)
      && ReleasesKept(drained, accumulator.notes, released)
    }

    constructor (limits: map<BudgetResource, U64>, deadline: U64)
      requires forall r :: Narrow(r) ==> LimitOf(limits, r) <= U32_MAX
      ensures Valid() && fresh(accumulator)
      ensures forall r :: Get(committed, r) == 0 && Get(reserved, r) == 0
    {
      this.limits, this.deadline := limits, deadline;
      committed, reserved := map[], map[];
      cancelled, peakString, peakSource := false, 0, 0;
      accumulator := new BudgetChargeAccumulator();
      drained, released := [], 0;
      new;
      NothingOpen([], committed);
      NothingReleased();
    }

    /** Cancellation is looked at first, then the deadline, if there is a clock. */
    method CheckSignals(now: Option<U64>) returns (r: Control)
      ensures r == if cancelled then Stop(CancelledStop)
                   else if now.Some? && now.value >= deadline then Stop(DeadlineStop(deadline, now.value))
                   else Continue
    {
      if cancelled {
        return Stop(CancelledStop);
      }
      if now.Some? && now.value >= deadline {
        return Stop(DeadlineStop(deadline, now.value));
      }
      return Continue;
    }

    /** One request against the limit, with every sum checked for overflow. */
    method ReserveOne(req: Request, phase: ExecutionPhase) returns (r: Option<Exceeded>)
      ensures r.None? <==> Allowed(committed, reserved, limits, req)
      ensures r.Some? ==> r.value == ExceededBy(committed, reserved, limits, req, phase)
    {
      var limit := LimitOf(limits, req.resource);
      var used, held := Get(committed, req.resource), Get(reserved, req.resource);
      if used + held > U64_MAX || used + held + req.amount > U64_MAX {
        return Some(Exceeded(req.resource, limit, used, held, U64_MAX, UnitOf(req.resource), phase));
      }
      if used + held + req.amount <= limit {
        return None;
      }
      return Some(Exceeded(req.resource, limit, used, held, req.amount, UnitOf(req.resource), phase));
    }

    method AddReserved(r: BudgetResource, amount: U64)
      modifies this`reserved
      ensures forall s :: Get(reserved, s) ==
                          if s == r && Cumulative(r) then CutOff(r, Get(old(reserved), r) + CutOff(r, amount)) else Get(old(reserved), s)
    {
      reserved := Set(reserved, r, CutOff(r, Get(reserved, r) + CutOff(r, amount)));
    }

    /** Reserve a list of requests as one: either all of it, or nothing and a report of the failing resource
        that comes first in the fixed order. Requests are looked at one by one, so the limits are kept and
        nothing is cut off exactly for the lists that also fit together. */
    method ReserveAll(reqs: seq<Request>, phase: ExecutionPhase, now: Option<U64>) returns (r: Control)
      requires Valid()
      modifies this`reserved
      ensures r.Continue? <==>
              && !cancelled && (now.Some? ==> now.value < deadline)
              && forall i :: 0 <= i < |reqs| ==> Allowed(committed, old(reserved), limits, reqs[i])
      ensures r.Stop? ==> reserved == old(reserved)
      ensures r.Continue? ==> forall s :: Get(reserved, s) == Held(Get(old(reserved), s), reqs, s)
      ensures r.Stop? ==> Valid()
      ensures r.Continue? ==>
                (FitsTogether(committed, old(reserved), limits, reqs)
                 <==> && Valid()
                      && forall s :: Get(reserved, s) == Get(old(reserved), s) + if Cumulative(s) then Asked(reqs, s) else 0)
      ensures r.Continue? && NamedOnce(reqs) ==> FitsTogether(committed, old(reserved), limits, reqs)
      ensures r.Stop? && r.stop.ExceededStop? ==>
                exists i :: && 0 <= i < |reqs| && !Allowed(committed, reserved, limits, reqs[i])
                            && r.stop.exceeded == ExceededBy(committed, reserved, limits, reqs[i], phase)
                            && ComesFirst(committed, reserved, limits, reqs, i, |reqs|)
    {
      hide CutOff, Get, Set, Recorded, Asked, ExceededBy, Held, ComesFirst;
      r := CheckSignals(now);
      if r.Stop? {
        return;
      }
      var worst := FindWorst(reqs, phase);
      if worst.Some? {
        return Stop(ExceededStop(worst.value));
      }
      ghost var before := reserved;
      AddAll(reqs);
      if NamedOnce(reqs) {
        OnceFits(committed, before, limits, reqs);
      }
      KeepsLimitsIff(committed, before, limits, reqs);
      forall s | !Cumulative(s)
        ensures Get(reserved, s) == Get(before, s)
      {
        GetNone(reserved, s);
        GetNone(before, s);
      }
      return Continue;
    }

    method AddAll(reqs: seq<Request>)
      modifies this`reserved
      ensures forall s :: Get(reserved, s) == Held(Get(old(reserved), s), reqs, s)
    {
      hide CutOff, Get, Set;
      for i := 0 to |reqs|
        invariant forall s :: Get(reserved, s) == Held(Get(old(reserved), s), reqs[..i], s)
      {
        AddReserved(reqs[i].resource, reqs[i].amount);
        assert reqs[..i + 1][..i] == reqs[..i];
      }
      assert reqs[..|reqs|] == reqs;
    }

    /** The failing request whose resource comes first, if any fails. */
    method FindWorst(reqs: seq<Request>, phase: ExecutionPhase) returns (worst: Option<Exceeded>)
      ensures worst.None? <==> forall i :: 0 <= i < |reqs| ==> Allowed(committed, reserved, limits, reqs[i])
      ensures worst.Some? ==>
                exists i :: && 0 <= i < |reqs| && !Allowed(committed, reserved, limits, reqs[i])
                            && worst.value == ExceededBy(committed, reserved, limits, reqs[i], phase)
                            && ComesFirst(committed, reserved, limits, reqs, i, |reqs|)
    {
      worst := None;
      ghost var at := 0;
      for i := 0 to |reqs|
        invariant worst.None? <==> forall j :: 0 <= j < i ==> Allowed(committed, reserved, limits, reqs[j])
        invariant worst.Some? ==>
                    && at < i && !Allowed(committed, reserved, limits, reqs[at])
                    && worst.value == ExceededBy(committed, reserved, limits, reqs[at], phase)
                    && ComesFirst(committed, reserved, limits, reqs, at, i)
      {
        var exceeded := ReserveOne(reqs[i], phase);
        if exceeded.Some? && (worst.None? || Priority(exceeded.value.resource) < Priority(worst.value.resource)) {
          worst := exceeded;
          at := i;
        }
      }
    }

    /** Turn a reservation into a commitment of at most as much, and note it. */
    method Commit(r: BudgetResource, reservedAmount: U64, actual: U64)
      requires Valid() && actual <= reservedAmount <= Get(reserved, r)
      modifies this`committed, this`reserved, accumulator
      ensures Valid()
      ensures forall s :: Get(committed, s) == Get(old(committed), s) + if s == r && Cumulative(r) then actual else 0
      ensures forall s :: Get(reserved, s) == Get(old(reserved), s) - if s == r && Cumulative(r) then reservedAmount else 0
    {
      hide CutOff, Get, Set, Recorded, Noted, Cumulative, ReleasesKept;
      ghost var before := committed;
      GetNone(committed, r);
      GetNone(reserved, r);
      CutDown(r, reservedAmount);
      CutDown(r, actual);
      CutDown(r, Get(committed, r) + actual);
      reserved := Set(reserved, r, Get(reserved, r) - CutOff(r, reservedAmount));
      committed := Set(committed, r, CutOff(r, Get(committed, r) + CutOff(r, actual)));
      if actual > 0 {
        ChargeRecorded(drained, accumulator.State(), before, r, actual, committed);
        NoteKeepsReleases(drained, accumulator.notes, released, Charged(r, ReasonFor(r), actual, Get(committed, r)));
        accumulator.NoteCharge(r, ReasonFor(r), actual, Get(committed, r));
      } else {
        SameRecord(drained, accumulator.State(), before, committed);
      }
    }

    /** Give a reservation back in full. */
    method Refund(r: BudgetResource, reservedAmount: U64)
      requires Valid() && reservedAmount <= Get(reserved, r)
      modifies this`reserved
      ensures Valid()
      ensures forall s :: Get(reserved, s) == Get(old(reserved), s) - if s == r && Cumulative(r) then reservedAmount else 0
    {
      hide CutOff, Get, Set, Recorded;
      GetNone(reserved, r);
      CutDown(r, reservedAmount);
      reserved := Set(reserved, r, Get(reserved, r) - CutOff(r, reservedAmount));
    }

    /** Reserve a list and commit it in full. */
    method ReserveAndCommit(reqs: seq<Request>, phase: ExecutionPhase, now: Option<U64>) returns (r: Control)
      requires Valid() && NamedOnce(reqs)
      modifies this`committed, this`reserved, accumulator
      ensures Valid()
      ensures forall s :: Get(reserved, s) == Get(old(reserved), s)
      ensures forall s :: Get(committed, s) == Get(old(committed), s) + if r.Continue? && Cumulative(s) then Asked(reqs, s) else 0
    {
      hide Get, Recorded, Asked, Held, Allowed, ComesFirst;
      r := ReserveAll(reqs, phase, now);
      if r.Stop? {
        return;
      }
      AskedNothing();
      ghost var start := old(reserved);
      for i := 0 to |reqs|
        invariant Valid()
        invariant forall s :: Get(reserved, s) == Get(start, s) + if Cumulative(s) then Asked(reqs, s) - Asked(reqs[..i], s) else 0
        invariant forall s :: Get(committed, s) == Get(old(committed), s) + if Cumulative(s) then Asked(reqs[..i], s) else 0
      {
        AskedOnce(reqs, i);
        NamedPrefix(reqs, i);
        AskedSnoc(reqs, i);
        CommitOne(reqs[i]);
      }
      assert reqs[..|reqs|] == reqs;
    }

    /** Commit a request of a list. One without a counter was only checked. */
    method CommitOne(req: Request)
      requires Valid() && (Cumulative(req.resource) ==> req.amount <= Get(reserved, req.resource))
      modifies this`committed, this`reserved, accumulator
      ensures Valid()
      ensures forall s :: Get(committed, s) == Get(old(committed), s) + if s == req.resource && Cumulative(s) then req.amount else 0
      ensures forall s :: Get(reserved, s) == Get(old(reserved), s) - if s == req.resource && Cumulative(s) then req.amount else 0
    {
      hide Recorded;
      if Cumulative(req.resource) {
        Commit(req.resource, req.amount, req.amount);
      }
    }

    /** One operation of the program, with its counters charged as one. */
    method Charge(c: Charge, phase: ExecutionPhase, now: Option<U64>) returns (r: Control)
      requires Valid()
      modifies this`committed, this`reserved, this`peakString, this`peakSource, accumulator
      ensures Valid()
      ensures forall s :: Get(reserved, s) == Get(old(reserved), s)
      ensures forall s :: Get(committed, s) == Get(old(committed), s) + if r.Continue? then AmountOf(c, s) else 0
      ensures r.Continue? && c.StringCharge? ==> c.bytes <= LimitOf(limits, SingleStringBytes) && peakString == MaxU64(old(peakString), c.bytes)
      ensures r.Continue? && c.SourceCharge? ==> c.bytes <= LimitOf(limits, SingleSourceBytes) && peakSource == MaxU64(old(peakSource), c.bytes)
    {
      hide Get, Recorded, Asked, NamedOnce, AmountOf, RequestsOf;
      var single := if c.StringCharge? then Some(SingleStringBytes) else if c.SourceCharge? then Some(SingleSourceBytes) else None;
      if single.Some? && c.bytes > LimitOf(limits, single.value) {
        if cancelled {
          return Stop(CancelledStop);
        }
        return Stop(ExceededStop(Exceeded(single.value, LimitOf(limits, single.value), 0, 0, c.bytes, BytesUnit, phase)));
      }
      RequestsAsk(c);
      r := ReserveAndCommit(RequestsOf(c), phase, now);
      if r.Continue? && c.StringCharge? {
        peakString := MaxU64(peakString, c.bytes);
      }
      if r.Continue? && c.SourceCharge? {
        peakSource := MaxU64(peakSource, c.bytes);
      }
    }

    /** Any number of operations, until one is stopped: between them nothing is reserved, host bytes are the
        sum of what went out and what came in, and every input or output was counted as a host call. */
    method Run(charges: seq<Charge>, phase: ExecutionPhase, now: Option<U64>) returns (r: Control)
      requires Valid() && Balanced(committed, reserved)
      modifies this`committed, this`reserved, this`peakString, this`peakSource, accumulator
      ensures Valid() && Balanced(committed, reserved)
    {
      hide Get, Recorded;
      for i := 0 to |charges|
        invariant Valid() && Balanced(committed, reserved)
      {
        ghost var before, held := committed, reserved;
        r := Charge(charges[i], phase, now);
        BalanceKept(charges[i], before, held, committed, reserved, r.Continue?);
        if r.Stop? {
          return;
        }
      }
      return Continue;
    }

    /** A release of live heap is reported in the stream, beside the counters. */
    method NoteHeapRelease(bytes: U64, live: U64, peak: U64)
      requires Valid()
      modifies this`released, accumulator
      ensures Valid() && released == old(released) + bytes
      ensures accumulator.notes ==
              old(accumulator.notes) + if bytes > 0 then [Released(HeapBytes, Allocation, bytes, live, peak)] else []
    {
      hide Recorded, ReleasesKept;
      if bytes > 0 {
        var n := Released(HeapBytes, Allocation, bytes, live, peak);
        ReleaseRecorded(drained, accumulator.State(), committed, n);
        NoteKeepsReleases(drained, accumulator.notes, released, n);
        accumulator.NoteRelease(HeapBytes, ReasonFor(HeapBytes), bytes, live, peak);
        released := released + bytes;
      }
    }

    /** What is reported but not drained yet: the finished events and the open group of the heap account for the rest of
        what was released. */
    lemma PendingReleases()
      requires Valid()
      ensures var open := Open(accumulator.groups, HEAP_KEY);
              released <= U64_MAX ==>
                SumReleased(EventsOf(drained, HEAP_KEY)) + SumReleased(EventsOf(accumulator.finalized, HEAP_KEY))
                + (if open.Some? then open.value.releasedDelta else 0) == released
    {
      hide Recorded, SumReleased, EventsOf, ForKey, ReleasedIn, Open, NotedAll;
      NothingLost(accumulator.notes, HEAP_KEY);
    }

    /** Hand out everything noted so far. The whole stream then replays to the counters, tells of all heap that was
        released, and the events handed out sum up the notes of each key. */
    method DrainBudgetCharges() returns (events: seq<AuditEvent>)
      requires Valid()
      modifies this`drained, accumulator
      ensures Valid() && drained == old(drained) + events && accumulator.State() == Acc([], [])
      ensures forall r :: Cumulative(r) ==> Replayed(drained, r) == Some(Get(committed, r))
      ensures released <= U64_MAX ==> SumReleased(EventsOf(drained, HEAP_KEY)) == released
      ensures forall key :: EventsOf(events, key) == Pieces(ForKey(old(accumulator.notes), key))
    {
      hide Recorded, ReleasesKept, Replayed;
      DrainRecorded(drained, accumulator.State(), committed);
      ghost var notes := accumulator.notes;
      events := accumulator.Flush();
      FlushKeepsReleases(drained, notes, released, events);
      drained := drained + events;
    }
  }

  /** A resource without a counter reads as zero. */
  lemma GetNone(c: Counters, r: BudgetResource)
    ensures !Cumulative(r) ==> Get(c, r) == 0
  {
  }

  lemma NamedPrefix(reqs: seq<Request>, i: nat)
    requires NamedOnce(reqs) && i < |reqs|
    ensures Asked(reqs[..i], reqs[i].resource) == 0
  {
    AskedNever(reqs[..i], reqs[i].resource);
  }

  /** Nothing is ever added beyond the sum, and the sum is reached when it fits the counter. */
  lemma {:induction false} HeldSum(start: U64, reqs: seq<Request>, r: BudgetResource)
    requires Cumulative(r)
    ensures Held(start, reqs, r) <= start + Asked(reqs, r)
    ensures start + Asked(reqs, r) <= (if Narrow(r) then U32_MAX else U64_MAX) ==> Held(start, reqs, r) == start + Asked(reqs, r)
    decreases |reqs|
  {
    hide CutOff;
    if reqs != [] {
      var last := reqs[|reqs| - 1];
      var before := Held(start, reqs[..|reqs| - 1], r);
      HeldSum(start, reqs[..|reqs| - 1], r);
      CutDown(r, last.amount);
      CutDown(r, before + CutOff(r, last.amount));
    }
  }

  /** Which lists keep every limit with nothing cut off: exactly those that fit together. */
  lemma KeepsLimitsIff(committed: Counters, reserved: Counters, limits: map<BudgetResource, U64>, reqs: seq<Request>)
    requires forall r :: Narrow(r) ==> LimitOf(limits, r) <= U32_MAX
    ensures (forall r :: Cumulative(r) ==> HeldInFull(committed, reserved, limits, reqs, r))
       <==> FitsTogether(committed, reserved, limits, reqs)
  {
    hide Held, Asked, Get, LimitOf;
    forall r | Cumulative(r)
      ensures HeldInFull(committed, reserved, limits, reqs, r)
         <==> Get(committed, r) + Get(reserved, r) + Asked(reqs, r) <= LimitOf(limits, r)
    {
      HeldSum(Get(reserved, r), reqs, r);
    }
  }

  /** A list that names no resource twice and passes request by request fits together. */
  lemma OnceFits(committed: Counters, reserved: Counters, limits: map<BudgetResource, U64>, reqs: seq<Request>)
    requires NamedOnce(reqs)
    requires forall r :: Cumulative(r) ==> Get(committed, r) + Get(reserved, r) <= LimitOf(limits, r)
    requires forall i :: 0 <= i < |reqs| ==> Allowed(committed, reserved, limits, reqs[i])
    ensures FitsTogether(committed, reserved, limits, reqs)
  {
    hide Asked, Get, LimitOf, NamedOnce;
    forall r | Cumulative(r)
      ensures Get(committed, r) + Get(reserved, r) + Asked(reqs, r) <= LimitOf(limits, r)
    {
      AskedWithin(reqs, r);
    }
  }

  /** Two requests for the same resource can each fit and together exceed its limit: the list is accepted. */
  lemma TwiceNamedOverruns()
    ensures var limits: map<BudgetResource, U64> := map[Fuel := 10];
            var reqs := [Request(Fuel, 6), Request(Fuel, 6)];
            && (forall i :: 0 <= i < |reqs| ==> Allowed(map[], map[], limits, reqs[i]))
            && Held(0, reqs, Fuel) == 12 > LimitOf(limits, Fuel)
  {
    var reqs := [Request(Fuel, 6), Request(Fuel, 6)];
    assert reqs[..1] == [Request(Fuel, 6)] && [Request(Fuel, 6)][..0] == [];
    assert Held(0, reqs[..1], Fuel) == 6;
  }

  /** A list that names a resource at most once asks for one amount of it, or none. */
  lemma AskedWithin(reqs: seq<Request>, r: BudgetResource)
    requires NamedOnce(reqs)
    ensures Asked(reqs, r) == 0 || exists i :: 0 <= i < |reqs| && reqs[i].resource == r && Asked(reqs, r) == reqs[i].amount
  {
    if i :| 0 <= i < |reqs| && reqs[i].resource == r {
      AskedOnce(reqs, i);
    } else {
      AskedNever(reqs, r);
    }
  }

  lemma SameRecord(drained: seq<AuditEvent>, a: Acc, before: Counters, after: Counters)
    requires Recorded(drained, a, before) && forall r :: Get(after, r) == Get(before, r)
    ensures Recorded(drained, a, after)
  {
  }
}

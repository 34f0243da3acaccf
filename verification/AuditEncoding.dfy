/** Schema version 1 of the audit log (`src/audit.rs`): every type as the CBOR item that encodes it. Distinct
    values have distinct encodings, except that deadlines are compared by their tick alone. */
module AuditEncoding {
  import opened Cbor

  datatype Option<+T> = None | Some(value: T)

  /** UTF-8 bytes of a string. */
  type Utf8 = seq<Byte>

  type Digest = d: seq<Byte> | |d| == 32 witness seq(32, _ => 0)

  const I128_MIN: int := -0x8000_0000_0000_0000_0000_0000_0000_0000
  const I128_MAX: int := 0x7fff_ffff_ffff_ffff_ffff_ffff_ffff_ffff

  type U8 = n: nat | n <= 0xff
  type U16 = n: nat | n <= 0xffff
  type U32 = n: nat | n <= 0xffff_ffff
  type I64 = n: int | -0x8000_0000_0000_0000 <= n <= 0x7fff_ffff_ffff_ffff
  type I128 = n: int | I128_MIN <= n <= I128_MAX
  type NonZeroU128 = n: nat | 0 < n < 0x1_0000_0000_0000_0000_0000_0000_0000_0000 witness 1

  // ----- Composition -----

  function Tagged(tag: U64, fields: seq<Item>): Item { Array([UInt(tag)] + fields) }

  function OptionItem<T>(o: Option<T>, f: T -> Item): Item {
    match o
    case None => Tagged(0, [])
    case Some(v) => Tagged(1, [f(v)])
  }

  lemma TaggedInjective(tag1: U64, fields1: seq<Item>, tag2: U64, fields2: seq<Item>)
    requires Tagged(tag1, fields1) == Tagged(tag2, fields2)
    ensures tag1 == tag2 && fields1 == fields2
  {
    var a, b := [UInt(tag1)] + fields1, [UInt(tag2)] + fields2;
    assert a[0] == b[0];
    assert a[1..] == fields1 && b[1..] == fields2;
  }

  function IntItem(v: I64): Item { if v >= 0 then UInt(v) else Negative(-1 - v) }

  /** A 128-bit two's complement number. */
  function Wrapped(v: I128): nat { if v >= 0 then v else v + 0x1_0000_0000_0000_0000_0000_0000_0000_0000 }

  lemma Powers128()
    ensures Power256(16) == 0x1_0000_0000_0000_0000_0000_0000_0000_0000
  {
    Powers();
    assert Power256(9) == 0x100_0000_0000_0000_0000 && Power256(10) == 0x1_0000_0000_0000_0000_0000;
    assert Power256(11) == 0x100_0000_0000_0000_0000_0000 && Power256(12) == 0x1_0000_0000_0000_0000_0000_0000;
    assert Power256(13) == 0x100_0000_0000_0000_0000_0000_0000 && Power256(14) == 0x1_0000_0000_0000_0000_0000_0000_0000;
    assert Power256(15) == 0x100_0000_0000_0000_0000_0000_0000_0000;
  }

  lemma WideInjective(a: nat, b: nat, k: nat)
    requires a < Power256(k) && b < Power256(k) && BigEndian(a, k) == BigEndian(b, k)
    ensures a == b
  {
    BigEndianValue(a, k);
    BigEndianValue(b, k);
  }

  // ----- Enumerations: the tag alone -----

  datatype Backend =
    | TreeWalk | VmExperimental

  function BackendTag(v: Backend): U64 {
    match v
    case TreeWalk => 0
    case VmExperimental => 1
  }

  datatype AdmissionPhase =
    | Created | Linked

  function AdmissionPhaseTag(v: AdmissionPhase): U64 {
    match v
    case Created => 0
    case Linked => 1
  }

  datatype ExecutionMode =
    | Live | Record | Replay

  function ExecutionModeTag(v: ExecutionMode): U64 {
    match v
    case Live => 0
    case Record => 1
    case Replay => 2
  }

  datatype CapabilityDecisionKind =
    | Allow | Deny

  function CapabilityDecisionKindTag(v: CapabilityDecisionKind): U64 {
    match v
    case Allow => 0
    case Deny => 1
  }

  datatype HostCallOutcome =
    | Success | Denied | HostError | Cancelled | Detached

  function HostCallOutcomeTag(v: HostCallOutcome): U64 {
    match v
    case Success => 0
    case Denied => 1
    case HostError => 2
    case Cancelled => 3
    case Detached => 4
  }

  datatype EffectStatus =
    | NoEffect | Committed | Unknown

  function EffectStatusTag(v: EffectStatus): U64 {
    match v
    case NoEffect => 0
    case Committed => 1
    case Unknown => 2
  }

  datatype AuditFieldClass =
    | Public | Identifier | Path | Body | Secret

  function AuditFieldClassTag(v: AuditFieldClass): U64 {
    match v
    case Public => 0
    case Identifier => 1
    case Path => 2
    case Body => 3
    case Secret => 4
  }

  datatype BudgetChargeReason =
    | Statement | Expression | Operation | Function | Loop | HostCall | BulkElements | BulkBytes | Allocation
    | Source | Input | Output

  function BudgetChargeReasonTag(v: BudgetChargeReason): U64 {
    match v
    case Statement => 0
    case Expression => 1
    case Operation => 2
    case Function => 3
    case Loop => 4
    case HostCall => 5
    case BulkElements => 6
    case BulkBytes => 7
    case Allocation => 8
    case Source => 9
    case Input => 10
    case Output => 11
  }

  datatype BudgetResource =
    | Fuel | HeapBytes | SingleStringBytes | StringAllocations | StringBytes | SingleSourceBytes | SourceCount
    | SourceBytes | ImportCount | ImportBytes | CollectionElements | InputCalls | InputBytes | OutputCalls
    | OutputBytes | HostCalls | HostRequestBytes | HostResponseBytes | HostCallBytes

  function BudgetResourceTag(v: BudgetResource): U64 {
    match v
    case Fuel => 0
    case HeapBytes => 1
    case SingleStringBytes => 2
    case StringAllocations => 3
    case StringBytes => 4
    case SingleSourceBytes => 5
    case SourceCount => 6
    case SourceBytes => 7
    case ImportCount => 8
    case ImportBytes => 9
    case CollectionElements => 10
    case InputCalls => 11
    case InputBytes => 12
    case OutputCalls => 13
    case OutputBytes => 14
    case HostCalls => 15
    case HostRequestBytes => 16
    case HostResponseBytes => 17
    case HostCallBytes => 18
  }

  /** The variants of each enumeration in declaration order. */
  const BACKENDS := [TreeWalk, VmExperimental]
  const ADMISSION_PHASES := [Created, Linked]
  const EXECUTION_MODES := [Live, Record, Replay]
  const DECISIONS := [Allow, Deny]
  const HOST_CALL_OUTCOMES := [Success, HostCallOutcome.Denied, HostError, HostCallOutcome.Cancelled, Detached]
  const EFFECT_STATUSES := [NoEffect, Committed, Unknown]
  const FIELD_CLASSES := [Public, Identifier, Path, Body, Secret]
  const CHARGE_REASONS := [
    Statement, Expression, Operation, Function, Loop, BudgetChargeReason.HostCall, BulkElements, BulkBytes, Allocation,
    Source, Input, Output]
  const RESOURCES := [
    Fuel, HeapBytes, SingleStringBytes, StringAllocations, StringBytes, SingleSourceBytes, SourceCount, SourceBytes,
    ImportCount, ImportBytes, CollectionElements, InputCalls, InputBytes, OutputCalls, OutputBytes, HostCalls,
    HostRequestBytes, HostResponseBytes, HostCallBytes]

  /** The tag of a variant is its place in the declaration, counted from 0. */
  predicate InOrder<T(==)>(variants: seq<T>, tag: U64, v: T) { tag < |variants| && variants[tag] == v }

  lemma TagsCountDeclarations()
    ensures forall v :: InOrder(BACKENDS, BackendTag(v), v)
    ensures forall v :: InOrder(ADMISSION_PHASES, AdmissionPhaseTag(v), v)
    ensures forall v :: InOrder(EXECUTION_MODES, ExecutionModeTag(v), v)
    ensures forall v :: InOrder(DECISIONS, CapabilityDecisionKindTag(v), v)
    ensures forall v :: InOrder(HOST_CALL_OUTCOMES, HostCallOutcomeTag(v), v)
    ensures forall v :: InOrder(EFFECT_STATUSES, EffectStatusTag(v), v)
    ensures forall v :: InOrder(FIELD_CLASSES, AuditFieldClassTag(v), v)
    ensures forall v :: InOrder(CHARGE_REASONS, BudgetChargeReasonTag(v), v)
    ensures forall v :: InOrder(RESOURCES, BudgetResourceTag(v), v)
    ensures |BACKENDS| == |ADMISSION_PHASES| == |DECISIONS| == 2 && |EXECUTION_MODES| == |EFFECT_STATUSES| == 3
    ensures |HOST_CALL_OUTCOMES| == |FIELD_CLASSES| == 5 && |CHARGE_REASONS| == 12 && |RESOURCES| == 19
  {
  }

  // ----- Structures: an array of the fields in declaration order -----

  datatype MonotonicInstant = MonotonicInstant(clock: U64, nanos: U64)

  /** Equal options hold contents with equal items. */
  lemma OptionInjective<T>(a: Option<T>, b: Option<T>, f: T -> Item)
    requires OptionItem(a, f) == OptionItem(b, f)
    ensures a.Some? == b.Some? && (a.Some? ==> f(a.value) == f(b.value))
  {
    TaggedInjective(if a.None? then 0 else 1, if a.None? then [] else [f(a.value)], if b.None? then 0 else 1, if b.None? then [] else [f(b.value)]);
    if a.Some? {
      assert [f(a.value)][0] == [f(b.value)][0];
    }
  }

  datatype BudgetConfig = BudgetConfig(
    heapAccountingRevision: U32, totalFuel: U64, maxLiveHeapBytes: U64, maxStringAllocations: U64,
    maxStringBytes: U64, maxSingleStringBytes: U64, maxSourceCount: U32, maxSourceBytes: U64,
    maxSingleSourceBytes: U64, maxImportCount: U32, maxImportBytes: U64, maxCollectionElements: U64,
    maxInputCalls: U64, maxInputBytes: U64, maxOutputCalls: U64, maxOutputBytes: U64, maxHostCalls: U64,
    maxHostRequestBytes: U64, maxHostResponseBytes: U64, maxHostCallBytes: U64, deadline: MonotonicInstant)

  function BudgetConfigItem(v: BudgetConfig): Item {
    Array([
      UInt(v.heapAccountingRevision), UInt(v.totalFuel), UInt(v.maxLiveHeapBytes),
      UInt(v.maxStringAllocations), UInt(v.maxStringBytes), UInt(v.maxSingleStringBytes),
      UInt(v.maxSourceCount), UInt(v.maxSourceBytes), UInt(v.maxSingleSourceBytes), UInt(v.maxImportCount),
      UInt(v.maxImportBytes), UInt(v.maxCollectionElements), UInt(v.maxInputCalls), UInt(v.maxInputBytes),
      UInt(v.maxOutputCalls), UInt(v.maxOutputBytes), UInt(v.maxHostCalls), UInt(v.maxHostRequestBytes),
      UInt(v.maxHostResponseBytes), UInt(v.maxHostCallBytes), UInt(v.deadline.nanos)])
  }

  lemma BudgetConfigInjective(a: BudgetConfig, b: BudgetConfig)
    requires BudgetConfigItem(a) == BudgetConfigItem(b)
    ensures a == b.(deadline := b.deadline.(clock := a.deadline.clock))
  {
    var xs, ys := BudgetConfigItem(a).items, BudgetConfigItem(b).items;
    assert xs[0] == ys[0] && xs[1] == ys[1] && xs[2] == ys[2] && xs[3] == ys[3] && xs[4] == ys[4] && xs[5] == ys[5] &&
           xs[6] == ys[6] && xs[7] == ys[7] && xs[8] == ys[8] && xs[9] == ys[9] && xs[10] == ys[10] && xs[11] == ys[11] &&
           xs[12] == ys[12] && xs[13] == ys[13] && xs[14] == ys[14] && xs[15] == ys[15] && xs[16] == ys[16] &&
           xs[17] == ys[17] && xs[18] == ys[18] && xs[19] == ys[19] && xs[20] == ys[20];
  }

  datatype BudgetCounters = BudgetCounters(
    fuel: U64, stringAllocations: U64, stringBytes: U64, sourceCount: U32, sourceBytes: U64, importCount: U32,
    importBytes: U64, inputCalls: U64, inputBytes: U64, outputCalls: U64, outputBytes: U64, hostCalls: U64,
    hostRequestBytes: U64, hostResponseBytes: U64, hostCallBytes: U64)

  function BudgetCountersItem(v: BudgetCounters): Item {
    Array([
      UInt(v.fuel), UInt(v.stringAllocations), UInt(v.stringBytes), UInt(v.sourceCount), UInt(v.sourceBytes),
      UInt(v.importCount), UInt(v.importBytes), UInt(v.inputCalls), UInt(v.inputBytes), UInt(v.outputCalls),
      UInt(v.outputBytes), UInt(v.hostCalls), UInt(v.hostRequestBytes), UInt(v.hostResponseBytes),
      UInt(v.hostCallBytes)])
  }

  lemma BudgetCountersInjective(a: BudgetCounters, b: BudgetCounters)
    requires BudgetCountersItem(a) == BudgetCountersItem(b)
    ensures a == b
  {
    var xs, ys := BudgetCountersItem(a).items, BudgetCountersItem(b).items;
    assert xs[0] == ys[0] && xs[1] == ys[1] && xs[2] == ys[2] && xs[3] == ys[3] && xs[4] == ys[4] && xs[5] == ys[5] &&
           xs[6] == ys[6] && xs[7] == ys[7] && xs[8] == ys[8] && xs[9] == ys[9] && xs[10] == ys[10] && xs[11] == ys[11] &&
           xs[12] == ys[12] && xs[13] == ys[13] && xs[14] == ys[14];
  }

  datatype BudgetPeaks = BudgetPeaks(
    singleStringBytes: U64, singleSourceBytes: U64, collectionElements: U64)

  function BudgetPeaksItem(v: BudgetPeaks): Item {
    Array([
      UInt(v.singleStringBytes), UInt(v.singleSourceBytes), UInt(v.collectionElements)])
  }

  lemma BudgetPeaksInjective(a: BudgetPeaks, b: BudgetPeaks)
    requires BudgetPeaksItem(a) == BudgetPeaksItem(b)
    ensures a == b
  {
    var xs, ys := BudgetPeaksItem(a).items, BudgetPeaksItem(b).items;
    assert xs[0] == ys[0] && xs[1] == ys[1] && xs[2] == ys[2];
  }

  datatype BudgetUsage = BudgetUsage(
    committed: BudgetCounters, reserved: BudgetCounters, liveHeapBytes: U64, reservedHeapBytes: U64,
    peakHeapBytes: U64, peaks: BudgetPeaks)

  function BudgetUsageItem(v: BudgetUsage): Item {
    Array([
      BudgetCountersItem(v.committed), BudgetCountersItem(v.reserved), UInt(v.liveHeapBytes),
      UInt(v.reservedHeapBytes), UInt(v.peakHeapBytes), BudgetPeaksItem(v.peaks)])
  }

  lemma BudgetUsageInjective(a: BudgetUsage, b: BudgetUsage)
    requires BudgetUsageItem(a) == BudgetUsageItem(b)
    ensures a == b
  {
    var xs, ys := BudgetUsageItem(a).items, BudgetUsageItem(b).items;
    assert xs[0] == ys[0] && xs[1] == ys[1] && xs[2] == ys[2] && xs[3] == ys[3] && xs[4] == ys[4] && xs[5] == ys[5];
    BudgetCountersInjective(a.committed, b.committed);
    BudgetCountersInjective(a.reserved, b.reserved);
    BudgetPeaksInjective(a.peaks, b.peaks);
  }

  datatype AuditFrame = AuditFrame(
    function_: Utf8, moduleId: Utf8, line: U32)

  function AuditFrameItem(v: AuditFrame): Item {
    Array([
      Text(v.function_), Text(v.moduleId), UInt(v.line)])
  }

  lemma AuditFrameInjective(a: AuditFrame, b: AuditFrame)
    requires AuditFrameItem(a) == AuditFrameItem(b)
    ensures a == b
  {
    var xs, ys := AuditFrameItem(a).items, AuditFrameItem(b).items;
    assert xs[0] == ys[0] && xs[1] == ys[1] && xs[2] == ys[2];
  }

  function FrameItems(fs: seq<AuditFrame>): (r: seq<Item>)
    ensures |r| == |fs| && forall i :: 0 <= i < |fs| ==> r[i] == AuditFrameItem(fs[i])
  {
    seq(|fs|, i requires 0 <= i < |fs| => AuditFrameItem(fs[i]))
  }

  lemma FramesInjective(a: seq<AuditFrame>, b: seq<AuditFrame>)
    requires FrameItems(a) == FrameItems(b)
    ensures a == b
  {
    hide AuditFrameItem;
    assert |FrameItems(a)| == |FrameItems(b)|;
    forall i | 0 <= i < |a|
      ensures a[i] == b[i]
    {
      assert FrameItems(a)[i] == FrameItems(b)[i];
      AuditFrameInjective(a[i], b[i]);
    }
  }

  datatype AuditError = AuditError(
    code: Utf8, messageId: Utf8, moduleId: Option<Utf8>, line: Option<U32>, column: Option<U32>,
    trace: seq<AuditFrame>, omittedTraceFrames: U32)

  function AuditErrorItem(v: AuditError): Item {
    Array([
      Text(v.code), Text(v.messageId), OptionItem(v.moduleId, (v: Utf8) => Text(v)),
      OptionItem(v.line, (v: U32) => UInt(v)), OptionItem(v.column, (v: U32) => UInt(v)),
      Array(FrameItems(v.trace)), UInt(v.omittedTraceFrames)])
  }

  lemma AuditErrorInjective(a: AuditError, b: AuditError)
    requires AuditErrorItem(a) == AuditErrorItem(b)
    ensures a == b
  {
    var xs, ys := AuditErrorItem(a).items, AuditErrorItem(b).items;
    assert xs[0] == ys[0] && xs[1] == ys[1] && xs[2] == ys[2] && xs[3] == ys[3] && xs[4] == ys[4] && xs[5] == ys[5] &&
           xs[6] == ys[6];
    OptionInjective(a.moduleId, b.moduleId, (v: Utf8) => Text(v));
    OptionInjective(a.line, b.line, (v: U32) => UInt(v));
    OptionInjective(a.column, b.column, (v: U32) => UInt(v));
    FramesInjective(a.trace, b.trace);
  }

  // ----- Variants: the tag, then the fields -----

  datatype AuditYieldReason =
    | AdmissionQueued(resumeTo: AdmissionPhase)
    | SliceFuelExhausted
    | ExplicitYield
    | HostCallPending(callId: U64)
    | AuditBackpressure
    | SchedulerPreempted
    | HostPaused

  function AuditYieldReasonItem(v: AuditYieldReason): Item {
    match v
    case AdmissionQueued(resumeTo) =>
      Tagged(0, [Tagged(AdmissionPhaseTag(resumeTo), [])])
    case SliceFuelExhausted => Tagged(1, [])
    case ExplicitYield => Tagged(2, [])
    case HostCallPending(callId) =>
      Tagged(3, [UInt(callId)])
    case AuditBackpressure => Tagged(4, [])
    case SchedulerPreempted => Tagged(5, [])
    case HostPaused => Tagged(6, [])
  }

  function AuditYieldReasonTag(v: AuditYieldReason): U64 {
    match v
    case AdmissionQueued(_) => 0
    case SliceFuelExhausted => 1
    case ExplicitYield => 2
    case HostCallPending(_) => 3
    case AuditBackpressure => 4
    case SchedulerPreempted => 5
    case HostPaused => 6
  }

  lemma AdmissionQueuedInjective(a: AuditYieldReason, b: AuditYieldReason)
    requires a.AdmissionQueued? && b.AdmissionQueued? && AuditYieldReasonItem(a) == AuditYieldReasonItem(b)
    ensures a == b
  {
    var xs, ys := AuditYieldReasonItem(a).items, AuditYieldReasonItem(b).items;
    assert xs[1] == ys[1];
    TaggedInjective(AdmissionPhaseTag(a.resumeTo), [], AdmissionPhaseTag(b.resumeTo), []);
  }

  lemma HostCallPendingInjective(a: AuditYieldReason, b: AuditYieldReason)
    requires a.HostCallPending? && b.HostCallPending? && AuditYieldReasonItem(a) == AuditYieldReasonItem(b)
    ensures a == b
  {
    var xs, ys := AuditYieldReasonItem(a).items, AuditYieldReasonItem(b).items;
    assert xs[1] == ys[1];
  }

  lemma AuditYieldReasonInjective(a: AuditYieldReason, b: AuditYieldReason)
    requires AuditYieldReasonItem(a) == AuditYieldReasonItem(b)
    ensures a == b
  {
    assert AuditYieldReasonItem(a).items[0] == UInt(AuditYieldReasonTag(a)) && AuditYieldReasonItem(b).items[0] == UInt(AuditYieldReasonTag(b));
    match a
    case AdmissionQueued(_) => AdmissionQueuedInjective(a, b);
    case SliceFuelExhausted =>
    case ExplicitYield =>
    case HostCallPending(_) => HostCallPendingInjective(a, b);
    case AuditBackpressure =>
    case SchedulerPreempted =>
    case HostPaused =>
  }

  datatype TerminalOutcome =
    | Completed
    | Exited(code: U8)
    | DeniedOutcome
    | LinkError
    | RuntimeError
    | HostErrorOutcome
    | BudgetExceeded(resource: BudgetResource)
    | DeadlineExceeded
    | CancelledOutcome
    | AuditFailure
    | InternalFailure
    | RecordFailure
    | ReplayMismatch

  function TerminalOutcomeItem(v: TerminalOutcome): Item {
    match v
    case Completed => Tagged(0, [])
    case Exited(code) =>
      Tagged(1, [UInt(code)])
    case DeniedOutcome => Tagged(2, [])
    case LinkError => Tagged(3, [])
    case RuntimeError => Tagged(4, [])
    case HostErrorOutcome => Tagged(5, [])
    case BudgetExceeded(resource) =>
      Tagged(6, [Tagged(BudgetResourceTag(resource), [])])
    case DeadlineExceeded => Tagged(7, [])
    case CancelledOutcome => Tagged(8, [])
    case AuditFailure => Tagged(9, [])
    case InternalFailure => Tagged(10, [])
    case RecordFailure => Tagged(11, [])
    case ReplayMismatch => Tagged(12, [])
  }

  function TerminalOutcomeTag(v: TerminalOutcome): U64 {
    match v
    case Completed => 0
    case Exited(_) => 1
    case DeniedOutcome => 2
    case LinkError => 3
    case RuntimeError => 4
    case HostErrorOutcome => 5
    case BudgetExceeded(_) => 6
    case DeadlineExceeded => 7
    case CancelledOutcome => 8
    case AuditFailure => 9
    case InternalFailure => 10
    case RecordFailure => 11
    case ReplayMismatch => 12
  }

  lemma ExitedInjective(a: TerminalOutcome, b: TerminalOutcome)
    requires a.Exited? && b.Exited? && TerminalOutcomeItem(a) == TerminalOutcomeItem(b)
    ensures a == b
  {
    var xs, ys := TerminalOutcomeItem(a).items, TerminalOutcomeItem(b).items;
    assert xs[1] == ys[1];
  }

  lemma BudgetExceededInjective(a: TerminalOutcome, b: TerminalOutcome)
    requires a.BudgetExceeded? && b.BudgetExceeded? && TerminalOutcomeItem(a) == TerminalOutcomeItem(b)
    ensures a == b
  {
    var xs, ys := TerminalOutcomeItem(a).items, TerminalOutcomeItem(b).items;
    assert xs[1] == ys[1];
    TaggedInjective(BudgetResourceTag(a.resource), [], BudgetResourceTag(b.resource), []);
  }

  lemma TerminalOutcomeInjective(a: TerminalOutcome, b: TerminalOutcome)
    requires TerminalOutcomeItem(a) == TerminalOutcomeItem(b)
    ensures a == b
  {
    assert TerminalOutcomeItem(a).items[0] == UInt(TerminalOutcomeTag(a)) && TerminalOutcomeItem(b).items[0] == UInt(TerminalOutcomeTag(b));
    match a
    case Completed =>
    case Exited(_) => ExitedInjective(a, b);
    case DeniedOutcome =>
    case LinkError =>
    case RuntimeError =>
    case HostErrorOutcome =>
    case BudgetExceeded(_) => BudgetExceededInjective(a, b);
    case DeadlineExceeded =>
    case CancelledOutcome =>
    case AuditFailure =>
    case InternalFailure =>
    case RecordFailure =>
    case ReplayMismatch =>
  }

  datatype AuditErrorPayload =
    | Full(error: AuditError)
    | Emergency(code: Utf8, messageId: Utf8, fullErrorBytes: U64, fullErrorSha256: Digest)

  function AuditErrorPayloadItem(v: AuditErrorPayload): Item {
    match v
    case Full(error) =>
      Tagged(0, [AuditErrorItem(error)])
    case Emergency(code, messageId, fullErrorBytes, fullErrorSha256) =>
      Tagged(1, [Text(code), Text(messageId), UInt(fullErrorBytes), Bytes(fullErrorSha256)])
  }

  function AuditErrorPayloadTag(v: AuditErrorPayload): U64 {
    match v
    case Full(_) => 0
    case Emergency(_, _, _, _) => 1
  }

  lemma AuditErrorPayloadFullInjective(a: AuditErrorPayload, b: AuditErrorPayload)
    requires a.Full? && b.Full? && AuditErrorPayloadItem(a) == AuditErrorPayloadItem(b)
    ensures a == b
  {
    var xs, ys := AuditErrorPayloadItem(a).items, AuditErrorPayloadItem(b).items;
    assert xs[1] == ys[1];
    AuditErrorInjective(a.error, b.error);
  }

  lemma EmergencyInjective(a: AuditErrorPayload, b: AuditErrorPayload)
    requires a.Emergency? && b.Emergency? && AuditErrorPayloadItem(a) == AuditErrorPayloadItem(b)
    ensures a == b
  {
    var xs, ys := AuditErrorPayloadItem(a).items, AuditErrorPayloadItem(b).items;
    assert xs[1] == ys[1] && xs[2] == ys[2] && xs[3] == ys[3] && xs[4] == ys[4];
  }

  lemma AuditErrorPayloadInjective(a: AuditErrorPayload, b: AuditErrorPayload)
    requires AuditErrorPayloadItem(a) == AuditErrorPayloadItem(b)
    ensures a == b
  {
    assert AuditErrorPayloadItem(a).items[0] == UInt(AuditErrorPayloadTag(a)) && AuditErrorPayloadItem(b).items[0] == UInt(AuditErrorPayloadTag(b));
    match a
    case Full(_) => AuditErrorPayloadFullInjective(a, b);
    case Emergency(_, _, _, _) => EmergencyInjective(a, b);
  }

  // ----- Redacted payloads -----

  datatype AuditScalar =
    | NullScalar
    | BoolScalar(b: bool)
    | IntScalar(n: I64)
    | FloatScalar(bits: U64)
    | Utf8Scalar(s: Utf8)
    | BytesScalar(bytes: seq<Byte>)

  datatype AuditValue = ScalarValue(scalar: AuditScalar) | Sequence(fields: seq<AuditField>) | Object(entries: seq<Entry>)

  /** One entry of a map. A map is the sequence of its entries in key order. */
  datatype Entry = Entry(key: Utf8, field: AuditField)

  datatype AuditField =
    | Revealed(class_: AuditFieldClass, value: AuditValue, originalBytes: U64)
    | HmacSha256(class_: AuditFieldClass, digest: Digest, originalBytes: U64)
    | Omitted(class_: AuditFieldClass, originalBytes: U64)

  datatype AuditPayload = AuditPayload(fields: seq<Entry>)

  function AuditScalarItem(v: AuditScalar): Item {
    match v
    case NullScalar => Tagged(0, [])
    case BoolScalar(b) => Tagged(1, [Bool(b)])
    case IntScalar(n) => Tagged(2, [IntItem(n)])
    case FloatScalar(bits) => Tagged(3, [Bytes(BigEndian(bits, 8))])
    case Utf8Scalar(s) => Tagged(4, [Text(s)])
    case BytesScalar(bs) => Tagged(5, [Bytes(bs)])
  }

  lemma AuditScalarInjective(a: AuditScalar, b: AuditScalar)
    requires AuditScalarItem(a) == AuditScalarItem(b)
    ensures a == b
  {
    hide BigEndian;
    var xs, ys := AuditScalarItem(a).items, AuditScalarItem(b).items;
    assert xs[0] == ys[0];
    if !a.NullScalar? {
      assert xs[1] == ys[1];
    }
    if a.FloatScalar? {
      Powers();
      WideInjective(a.bits, b.bits, 8);
    }
  }

  function AuditValueItem(v: AuditValue): Item
    decreases v, 0
  {
    match v
    case ScalarValue(s) => Tagged(0, [AuditScalarItem(s)])
    case Sequence(fs) => Tagged(1, [Array(FieldItems(fs))])
    case Object(es) => Tagged(2, [Array(EntryItems(es))])
  }

  function FieldItems(fs: seq<AuditField>): seq<Item>
    decreases fs, 1
  {
    if fs == [] then [] else [AuditFieldItem(fs[0])] + FieldItems(fs[1..])
  }

  function EntryItems(es: seq<Entry>): seq<Item>
    decreases es, 1
  {
    if es == [] then []
    else [Array([Text(es[0].key), AuditFieldItem(es[0].field)])] + EntryItems(es[1..])
  }

  function AuditFieldItem(f: AuditField): Item
    decreases f, 0
  {
    match f
    case Revealed(c, v, n) => Tagged(0, [Tagged(AuditFieldClassTag(c), []), AuditValueItem(v), UInt(n)])
    case HmacSha256(c, d, n) => Tagged(1, [Tagged(AuditFieldClassTag(c), []), Bytes(d), UInt(n)])
    case Omitted(c, n) => Tagged(2, [Tagged(AuditFieldClassTag(c), []), UInt(n)])
  }

  lemma {:induction false} AuditValueInjective(a: AuditValue, b: AuditValue)
    requires AuditValueItem(a) == AuditValueItem(b)
    ensures a == b
    decreases a, 0
  {
    hide AuditScalarItem, FieldItems, EntryItems;
    var xs, ys := AuditValueItem(a).items, AuditValueItem(b).items;
    assert xs[0] == ys[0] && xs[1] == ys[1];
    match a
    case ScalarValue(s) => AuditScalarInjective(s, b.scalar);
    case Sequence(fs) => FieldsInjective(fs, b.fields);
    case Object(es) => EntriesInjective(es, b.entries);
  }

  lemma {:induction false} FieldsInjective(a: seq<AuditField>, b: seq<AuditField>)
    requires FieldItems(a) == FieldItems(b)
    ensures a == b
    decreases a, 1
  {
    hide AuditFieldItem;
    if a != [] && b != [] {
      var xs, ys := FieldItems(a), FieldItems(b);
      assert xs[0] == ys[0] && xs[1..] == ys[1..];
      assert xs[1..] == FieldItems(a[1..]) && ys[1..] == FieldItems(b[1..]);
      AuditFieldInjective(a[0], b[0]);
      FieldsInjective(a[1..], b[1..]);
      assert a == [a[0]] + a[1..] && b == [b[0]] + b[1..];
    }
  }

  lemma {:induction false} EntriesInjective(a: seq<Entry>, b: seq<Entry>)
    requires EntryItems(a) == EntryItems(b)
    ensures a == b
    decreases a, 1
  {
    hide AuditFieldItem;
    if a != [] && b != [] {
      var xs, ys := EntryItems(a), EntryItems(b);
      assert xs[0] == ys[0] && xs[1..] == ys[1..];
      assert xs[1..] == EntryItems(a[1..]) && ys[1..] == EntryItems(b[1..]);
      assert xs[0].items[0] == ys[0].items[0] && xs[0].items[1] == ys[0].items[1];
      AuditFieldInjective(a[0].field, b[0].field);
      EntriesInjective(a[1..], b[1..]);
      assert a == [a[0]] + a[1..] && b == [b[0]] + b[1..];
    }
  }

  lemma {:induction false} AuditFieldInjective(a: AuditField, b: AuditField)
    requires AuditFieldItem(a) == AuditFieldItem(b)
    ensures a == b
    decreases a, 0
  {
    hide AuditValueItem;
    var xs, ys := AuditFieldItem(a).items, AuditFieldItem(b).items;
    assert xs[0] == ys[0] && xs[1] == ys[1] && xs[2] == ys[2];
    TaggedInjective(AuditFieldClassTag(a.class_), [], AuditFieldClassTag(b.class_), []);
    if !a.Omitted? {
      assert xs[3] == ys[3];
    }
    if a.Revealed? {
      AuditValueInjective(a.value, b.value);
    }
  }

  function AuditPayloadItem(p: AuditPayload): Item { Array([Array(EntryItems(p.fields))]) }

  lemma AuditPayloadInjective(a: AuditPayload, b: AuditPayload)
    requires AuditPayloadItem(a) == AuditPayloadItem(b)
    ensures a == b
  {
    hide EntryItems;
    assert AuditPayloadItem(a).items[0] == AuditPayloadItem(b).items[0];
    EntriesInjective(a.fields, b.fields);
  }

  // ----- Events and envelopes -----

  /** The event with the clock of its deadline, if it has one, taken from another event. */
  function OnClockOf(a: AuditEvent, b: AuditEvent): AuditEvent {
    if a.ExecutionStarted? && b.ExecutionStarted? then
      b.(budget := b.budget.(deadline := b.budget.deadline.(clock := a.budget.deadline.clock)))
    else b
  }

  datatype AuditEvent =
    | ExecutionStarted(engineVersion: Utf8, backend: Backend, rulesRevision: U32, heapAccountingRevision: U32,
        budget: BudgetConfig, capabilityPolicyHash: Digest, redactionPolicyId: Utf8, mode: ExecutionMode)
    | CapabilityDecision(operationId: U64, callId: Option<U64>, capability: Utf8, action: Utf8, resourcePayload: AuditPayload,
        decision: CapabilityDecisionKind, ruleId: Utf8)
    | HostCallStarted(operationId: U64, startedCallId: U64, function_: Utf8, request: AuditPayload, requestBytes: U64)
    | HostCallFinished(operationId: U64, startedCallId: U64, outcome: HostCallOutcome, response: AuditPayload,
        responseBytes: U64, errorCode: Option<Utf8>, effectStatus: EffectStatus)
    | BudgetCharged(resource: BudgetResource, committedDelta: U64, releasedDelta: U64, usageAfter: U64,
        peakAfter: Option<U64>, chargeCount: U64, reason: BudgetChargeReason)
    | Yielded(yieldReason: AuditYieldReason, pollIndex: U64, usage: BudgetUsage)
    | Resumed(yieldReason: AuditYieldReason, pollIndex: U64, usage: BudgetUsage)
    | Terminal(terminal: TerminalOutcome, error: Option<AuditErrorPayload>, usage: BudgetUsage,
        importGraphHash: Option<Digest>, contextCommitted: bool, hostEffectsMayRemain: bool)

  function AuditEventItem(v: AuditEvent): Item {
    match v
    case ExecutionStarted(engineVersion, backend, rulesRevision, heapAccountingRevision, budget, capabilityPolicyHash, redactionPolicyId, mode) =>
      Tagged(0, [Text(engineVersion), Tagged(BackendTag(backend), []), UInt(rulesRevision),
        UInt(heapAccountingRevision), BudgetConfigItem(budget), Bytes(capabilityPolicyHash),
        Text(redactionPolicyId), Tagged(ExecutionModeTag(mode), [])])
    case CapabilityDecision(operationId, callId, capability, action, resourcePayload, decision, ruleId) =>
      Tagged(1, [UInt(operationId), OptionItem(callId, (v: U64) => UInt(v)), Text(capability), Text(action),
        AuditPayloadItem(resourcePayload), Tagged(CapabilityDecisionKindTag(decision), []), Text(ruleId)])
    case HostCallStarted(operationId, startedCallId, function_, request, requestBytes) =>
      Tagged(2, [UInt(operationId), UInt(startedCallId), Text(function_), AuditPayloadItem(request), UInt(requestBytes)])
    case HostCallFinished(operationId, startedCallId, outcome, response, responseBytes, errorCode, effectStatus) =>
      Tagged(3, [UInt(operationId), UInt(startedCallId), Tagged(HostCallOutcomeTag(outcome), []),
        AuditPayloadItem(response), UInt(responseBytes), OptionItem(errorCode, (v: Utf8) => Text(v)),
        Tagged(EffectStatusTag(effectStatus), [])])
    case BudgetCharged(resource, committedDelta, releasedDelta, usageAfter, peakAfter, chargeCount, reason) =>
      Tagged(4, [Tagged(BudgetResourceTag(resource), []), UInt(committedDelta), UInt(releasedDelta), UInt(usageAfter),
        OptionItem(peakAfter, (v: U64) => UInt(v)), UInt(chargeCount),
        Tagged(BudgetChargeReasonTag(reason), [])])
    case Yielded(yieldReason, pollIndex, usage) =>
      Tagged(5, [AuditYieldReasonItem(yieldReason), UInt(pollIndex), BudgetUsageItem(usage)])
    case Resumed(yieldReason, pollIndex, usage) =>
      Tagged(6, [AuditYieldReasonItem(yieldReason), UInt(pollIndex), BudgetUsageItem(usage)])
    case Terminal(terminal, error, usage, importGraphHash, contextCommitted, hostEffectsMayRemain) =>
      Tagged(7, [TerminalOutcomeItem(terminal), OptionItem(error, (v: AuditErrorPayload) => AuditErrorPayloadItem(v)),
        BudgetUsageItem(usage), OptionItem(importGraphHash, (v: Digest) => Bytes(v)), Bool(contextCommitted),
        Bool(hostEffectsMayRemain)])
  }

  function AuditEventTag(v: AuditEvent): U64 {
    match v
    case ExecutionStarted(_, _, _, _, _, _, _, _) => 0
    case CapabilityDecision(_, _, _, _, _, _, _) => 1
    case HostCallStarted(_, _, _, _, _) => 2
    case HostCallFinished(_, _, _, _, _, _, _) => 3
    case BudgetCharged(_, _, _, _, _, _, _) => 4
    case Yielded(_, _, _) => 5
    case Resumed(_, _, _) => 6
    case Terminal(_, _, _, _, _, _) => 7
  }

  lemma ExecutionStartedInjective(a: AuditEvent, b: AuditEvent)
    requires a.ExecutionStarted? && b.ExecutionStarted? && AuditEventItem(a) == AuditEventItem(b)
    ensures a == OnClockOf(a, b)
  {
    var xs, ys := AuditEventItem(a).items, AuditEventItem(b).items;
    assert xs[1] == ys[1] && xs[2] == ys[2] && xs[3] == ys[3] && xs[4] == ys[4] && xs[5] == ys[5] && xs[6] == ys[6] &&
           xs[7] == ys[7] && xs[8] == ys[8];
    TaggedInjective(BackendTag(a.backend), [], BackendTag(b.backend), []);
    BudgetConfigInjective(a.budget, b.budget);
    TaggedInjective(ExecutionModeTag(a.mode), [], ExecutionModeTag(b.mode), []);
  }

  lemma CapabilityDecisionInjective(a: AuditEvent, b: AuditEvent)
    requires a.CapabilityDecision? && b.CapabilityDecision? && AuditEventItem(a) == AuditEventItem(b)
    ensures a == OnClockOf(a, b)
  {
    var xs, ys := AuditEventItem(a).items, AuditEventItem(b).items;
    assert xs[1] == ys[1] && xs[2] == ys[2] && xs[3] == ys[3] && xs[4] == ys[4] && xs[5] == ys[5] && xs[6] == ys[6] &&
           xs[7] == ys[7];
    OptionInjective(a.callId, b.callId, (v: U64) => UInt(v));
    AuditPayloadInjective(a.resourcePayload, b.resourcePayload);
    TaggedInjective(CapabilityDecisionKindTag(a.decision), [], CapabilityDecisionKindTag(b.decision), []);
  }

  lemma HostCallStartedInjective(a: AuditEvent, b: AuditEvent)
    requires a.HostCallStarted? && b.HostCallStarted? && AuditEventItem(a) == AuditEventItem(b)
    ensures a == OnClockOf(a, b)
  {
    var xs, ys := AuditEventItem(a).items, AuditEventItem(b).items;
    assert xs[1] == ys[1] && xs[2] == ys[2] && xs[3] == ys[3] && xs[4] == ys[4] && xs[5] == ys[5];
    AuditPayloadInjective(a.request, b.request);
  }

  lemma HostCallFinishedInjective(a: AuditEvent, b: AuditEvent)
    requires a.HostCallFinished? && b.HostCallFinished? && AuditEventItem(a) == AuditEventItem(b)
    ensures a == OnClockOf(a, b)
  {
    var xs, ys := AuditEventItem(a).items, AuditEventItem(b).items;
    assert xs[1] == ys[1] && xs[2] == ys[2] && xs[3] == ys[3] && xs[4] == ys[4] && xs[5] == ys[5] && xs[6] == ys[6] &&
           xs[7] == ys[7];
    TaggedInjective(HostCallOutcomeTag(a.outcome), [], HostCallOutcomeTag(b.outcome), []);
    AuditPayloadInjective(a.response, b.response);
    OptionInjective(a.errorCode, b.errorCode, (v: Utf8) => Text(v));
    TaggedInjective(EffectStatusTag(a.effectStatus), [], EffectStatusTag(b.effectStatus), []);
  }

  lemma BudgetChargedInjective(a: AuditEvent, b: AuditEvent)
    requires a.BudgetCharged? && b.BudgetCharged? && AuditEventItem(a) == AuditEventItem(b)
    ensures a == OnClockOf(a, b)
  {
    var xs, ys := AuditEventItem(a).items, AuditEventItem(b).items;
    assert xs[1] == ys[1] && xs[2] == ys[2] && xs[3] == ys[3] && xs[4] == ys[4] && xs[5] == ys[5] && xs[6] == ys[6] &&
           xs[7] == ys[7];
    TaggedInjective(BudgetResourceTag(a.resource), [], BudgetResourceTag(b.resource), []);
    OptionInjective(a.peakAfter, b.peakAfter, (v: U64) => UInt(v));
    TaggedInjective(BudgetChargeReasonTag(a.reason), [], BudgetChargeReasonTag(b.reason), []);
  }

  lemma YieldedInjective(a: AuditEvent, b: AuditEvent)
    requires a.Yielded? && b.Yielded? && AuditEventItem(a) == AuditEventItem(b)
    ensures a == OnClockOf(a, b)
  {
    var xs, ys := AuditEventItem(a).items, AuditEventItem(b).items;
    assert xs[1] == ys[1] && xs[2] == ys[2] && xs[3] == ys[3];
    AuditYieldReasonInjective(a.yieldReason, b.yieldReason);
    BudgetUsageInjective(a.usage, b.usage);
  }

  lemma ResumedInjective(a: AuditEvent, b: AuditEvent)
    requires a.Resumed? && b.Resumed? && AuditEventItem(a) == AuditEventItem(b)
    ensures a == OnClockOf(a, b)
  {
    var xs, ys := AuditEventItem(a).items, AuditEventItem(b).items;
    assert xs[1] == ys[1] && xs[2] == ys[2] && xs[3] == ys[3];
    AuditYieldReasonInjective(a.yieldReason, b.yieldReason);
    BudgetUsageInjective(a.usage, b.usage);
  }

  lemma TerminalInjective(a: AuditEvent, b: AuditEvent)
    requires a.Terminal? && b.Terminal? && AuditEventItem(a) == AuditEventItem(b)
    ensures a == OnClockOf(a, b)
  {
    var xs, ys := AuditEventItem(a).items, AuditEventItem(b).items;
    assert xs[1] == ys[1] && xs[2] == ys[2] && xs[3] == ys[3] && xs[4] == ys[4] && xs[5] == ys[5] && xs[6] == ys[6];
    TerminalOutcomeInjective(a.terminal, b.terminal);
    OptionInjective(a.error, b.error, (v: AuditErrorPayload) => AuditErrorPayloadItem(v));
    if a.error.Some? {
      AuditErrorPayloadInjective(a.error.value, b.error.value);
    }
    BudgetUsageInjective(a.usage, b.usage);
    OptionInjective(a.importGraphHash, b.importGraphHash, (v: Digest) => Bytes(v));
  }

  lemma AuditEventInjective(a: AuditEvent, b: AuditEvent)
    requires AuditEventItem(a) == AuditEventItem(b)
    ensures a == OnClockOf(a, b)
  {
    assert AuditEventItem(a).items[0] == UInt(AuditEventTag(a)) && AuditEventItem(b).items[0] == UInt(AuditEventTag(b));
    match a
    case ExecutionStarted(_, _, _, _, _, _, _, _) => ExecutionStartedInjective(a, b);
    case CapabilityDecision(_, _, _, _, _, _, _) => CapabilityDecisionInjective(a, b);
    case HostCallStarted(_, _, _, _, _) => HostCallStartedInjective(a, b);
    case HostCallFinished(_, _, _, _, _, _, _) => HostCallFinishedInjective(a, b);
    case BudgetCharged(_, _, _, _, _, _, _) => BudgetChargedInjective(a, b);
    case Yielded(_, _, _) => YieldedInjective(a, b);
    case Resumed(_, _, _) => ResumedInjective(a, b);
    case Terminal(_, _, _, _, _, _) => TerminalInjective(a, b);
  }

  datatype AuditEnvelope = AuditEnvelope(
    schemaVersion: U16, executionId: NonZeroU128, sourceHash: Digest, languageRevision: Utf8, sequence: U64,
    unixNanoseconds: I128, event: AuditEvent)

  function TimestampItem(ns: I128): Item { Array([Bytes(BigEndian(Wrapped(ns), 16))]) }

  function AuditEnvelopeItem(v: AuditEnvelope): Item {
    Array([
      UInt(v.schemaVersion), Bytes(BigEndian(v.executionId, 16)), Bytes(v.sourceHash), Text(v.languageRevision),
      UInt(v.sequence), TimestampItem(v.unixNanoseconds), AuditEventItem(v.event)])
  }

  lemma AuditEnvelopeInjective(a: AuditEnvelope, b: AuditEnvelope)
    requires AuditEnvelopeItem(a) == AuditEnvelopeItem(b)
    ensures a == b.(event := OnClockOf(a.event, b.event))
  {
    hide BigEndian, AuditEventItem, Power256;
    var xs, ys := AuditEnvelopeItem(a).items, AuditEnvelopeItem(b).items;
    assert xs[0] == ys[0] && xs[1] == ys[1] && xs[2] == ys[2] && xs[3] == ys[3] && xs[4] == ys[4] && xs[5] == ys[5] && xs[6] == ys[6];
    assert xs[5].items[0] == ys[5].items[0];
    Powers128();
    WideInjective(a.executionId, b.executionId, 16);
    WideInjective(Wrapped(a.unixNanoseconds), Wrapped(b.unixNanoseconds), 16);
    AuditEventInjective(a.event, b.event);
  }

  /** Two envelopes whose encodings begin two equal byte streams are equal, up to the clock of a deadline, and
      the rests of the streams are equal. */
  lemma EnvelopesPrefixFree(a: AuditEnvelope, s: seq<Byte>, b: AuditEnvelope, t: seq<Byte>)
    requires Fits(AuditEnvelopeItem(a)) && Fits(AuditEnvelopeItem(b))
    requires Encoding(AuditEnvelopeItem(a)) + s == Encoding(AuditEnvelopeItem(b)) + t
    ensures a == b.(event := OnClockOf(a.event, b.event)) && s == t
  {
    hide AuditEnvelopeItem, Encoding;
    PrefixFree(AuditEnvelopeItem(a), s, AuditEnvelopeItem(b), t);
    AuditEnvelopeInjective(a, b);
  }

  /** The clock of a deadline is the one thing that an encoding does not show. */
  lemma ClockIsInvisible(a: AuditEnvelope, b: AuditEnvelope)
    requires a == b.(event := OnClockOf(a.event, b.event))
    ensures AuditEnvelopeItem(a) == AuditEnvelopeItem(b)
  {
    hide BigEndian, AuditPayloadItem, BudgetUsageItem;
  }

  // ----- The bound on the fixed part of an envelope -----

  /** `envelope_fixed_len_upper_bound`: everything but the event, with the sequence at its widest. */
  function FixedPart(languageRevision: Utf8): (r: seq<Item>)
  {
    [UInt(1), Bytes(seq(16, _ => 0)), Bytes(seq(32, _ => 0)), Text(languageRevision), UInt(U64_MAX), TimestampItem(0)]
  }

  function FixedLenBound(languageRevision: Utf8): nat
    requires |languageRevision| <= U64_MAX
  {
    |HeadBytes(4, 7)| + |Encodings(FixedPart(languageRevision))|
  }

  lemma {:induction false} EncodingsCat(xs: seq<Item>, ys: seq<Item>)
    requires (forall j :: 0 <= j < |xs| ==> Fits(xs[j])) && (forall j :: 0 <= j < |ys| ==> Fits(ys[j]))
    ensures Encodings(xs + ys) == Encodings(xs) + Encodings(ys)
    decreases |xs|
  {
    hide Encoding;
    if xs == [] {
      assert xs + ys == ys;
    } else {
      assert (xs + ys)[1..] == xs[1..] + ys;
      EncodingsCat(xs[1..], ys);
    }
  }

  function SumLen(items: seq<Item>): nat
    requires forall j :: 0 <= j < |items| ==> Fits(items[j])
  {
    if items == [] then 0 else |Encoding(items[0])| + SumLen(items[1..])
  }

  lemma {:induction false} EncodingsLen(items: seq<Item>)
    requires forall j :: 0 <= j < |items| ==> Fits(items[j])
    ensures |Encodings(items)| == SumLen(items)
    decreases |items|
  {
    hide Encoding;
    if items != [] {
      EncodingsLen(items[1..]);
    }
  }

  /** The bound plus the event is never short, and long by exactly what the sequence leaves of its nine bytes. */
  lemma BoundIsTight(v: AuditEnvelope)
    requires v.schemaVersion == 1 && Fits(AuditEnvelopeItem(v))
    ensures Fits(AuditEventItem(v.event)) && |v.languageRevision| <= U64_MAX
    ensures var bound := FixedLenBound(v.languageRevision) + |Encoding(AuditEventItem(v.event))|;
            var actual := |Encoding(AuditEnvelopeItem(v))|;
            && bound == actual + 9 - |HeadBytes(0, v.sequence)|
            && actual <= bound <= actual + 8
            && (bound == actual <==> v.sequence > 0xffff_ffff)
  {
    hide BigEndian, AuditEventItem;
    var xs := AuditEnvelopeItem(v).items;
    assert Fits(xs[3]) && Fits(xs[6]);
    var head := xs[..6];
    assert xs == head + [xs[6]];
    EncodingsCat(head, [xs[6]]);
    assert [xs[6]][1..] == [];
    assert Encodings([xs[6]]) == Encoding(xs[6]) + [];
    HeadLens(v, head);
  }

  lemma HeadLens(v: AuditEnvelope, head: seq<Item>)
    requires v.schemaVersion == 1 && Fits(AuditEnvelopeItem(v)) && head == AuditEnvelopeItem(v).items[..6]
    ensures (forall j :: 0 <= j < |head| ==> Fits(head[j])) && |v.languageRevision| <= U64_MAX
    ensures |Encodings(FixedPart(v.languageRevision))| == |Encodings(head)| + 9 - |HeadBytes(0, v.sequence)|
  {
    hide BigEndian, HeadBytes;
    var xs := AuditEnvelopeItem(v).items;
    assert Fits(xs[3]);
    var fixed := FixedPart(v.languageRevision);
    assert head[0] == fixed[0] && head[3] == fixed[3];
    SplitSix(head);
    SplitSix(fixed);
    WidestHead();
    TimestampLen(v.unixNanoseconds);
    TimestampLen(0);
  }

  lemma WidestHead()
    ensures |HeadBytes(0, U64_MAX)| == 9
  {
  }

  lemma TimestampLen(ns: I128)
    ensures |Encoding(TimestampItem(ns))| == 18
  {
    hide BigEndian;
    var inner := TimestampItem(ns).items;
    assert inner[1..] == [];
    assert |HeadBytes(4, 1)| == 1 && |HeadBytes(2, 16)| == 1;
    assert |Encoding(inner[0])| == 17;
    assert Encodings(inner) == Encoding(inner[0]) + [];
  }

  lemma SplitSix(xs: seq<Item>)
    requires |xs| == 6 && forall j :: 0 <= j < 6 ==> Fits(xs[j])
    ensures |Encodings(xs)| == |Encoding(xs[0])| + |Encoding(xs[1])| + |Encoding(xs[2])| + |Encoding(xs[3])| + |Encoding(xs[4])| + |Encoding(xs[5])|
  {
    hide Encoding;
    EncodingsLen(xs);
    assert xs[1..][1..] == xs[2..] && xs[2..][1..] == xs[3..] && xs[3..][1..] == xs[4..] && xs[4..][1..] == xs[5..] && xs[5..][1..] == [];
    assert SumLen(xs[5..]) == |Encoding(xs[5])|;
    assert SumLen(xs[4..]) == |Encoding(xs[4])| + SumLen(xs[5..]);
    assert SumLen(xs[3..]) == |Encoding(xs[3])| + SumLen(xs[4..]);
    assert SumLen(xs[2..]) == |Encoding(xs[2])| + SumLen(xs[3..]);
    assert SumLen(xs[1..]) == |Encoding(xs[1])| + SumLen(xs[2..]);
  }
}

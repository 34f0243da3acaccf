/** A reader of the audit schema (version 1): arrays in declaration order, variants by their leading tag. Applied to
    what the encoders of `src/audit.rs` write it gives back the envelope that was encoded. */
module AuditReader {
  import opened Cbor
  import opened AuditEncoding
  import opened AuditWriters
  import opened CborReader

  /** The result of reading: data of another shape cannot be read. */
  datatype Maybe<+T> = Unreadable | Found(value: T) {
    predicate IsFailure() { Unreadable? }

    function PropagateFailure<U>(): Maybe<U>
      requires Unreadable?
    {
      Unreadable
    }

    function Extract(): T
      requires Found?
    {
      value
    }
  }

  // ----- Pieces -----

  function Elements(d: Data, n: nat): (r: Maybe<seq<Data>>)
    ensures r.Found? ==> |r.value| == n && d.List? && r.value == d.elements
  {
    if d.List? && |d.elements| == n then Found(d.elements) else Unreadable
  }

  predicate IsUint(d: Data, max: nat) { d.Integer? && 0 <= d.n <= max }

  predicate Uints(ds: seq<Data>) { forall k :: 0 <= k < |ds| ==> IsUint(ds[k], U64_MAX) }

  const U32_TOP: nat := 0xffff_ffff

  function U64Of(d: Data): Maybe<U64> { if IsUint(d, U64_MAX) then Found(d.n) else Unreadable }

  function U32Of(d: Data): Maybe<U32> { if IsUint(d, U32_TOP) then Found(d.n) else Unreadable }

  function TextOf(d: Data): Maybe<Utf8> { if d.TextString? then Found(d.utf8) else Unreadable }

  function BytesOf(d: Data): Maybe<seq<Byte>> { if d.ByteString? then Found(d.bytes) else Unreadable }

  function DigestOf(d: Data): Maybe<Digest> { if d.ByteString? && |d.bytes| == 32 then Found(d.bytes) else Unreadable }

  function BoolOf(d: Data): Maybe<bool> { if d.True? then Found(true) else if d.False? then Found(false) else Unreadable }

  /** A variant without fields, by its place in the declaration. */
  function VariantOf<T>(d: Data, variants: seq<T>): Maybe<T> {
    var e :- Elements(d, 1);
    if e[0].Integer? && 0 <= e[0].n < |variants| then Found(variants[e[0].n]) else Unreadable
  }

  /** A variant whose tag is known, and which has no fields. */
  function BareOf<T>(d: Data, v: T): Maybe<T> {
    var e :- Elements(d, 1);
    Found(v)
  }

  function OptionOf<T>(d: Data, read: Data -> Maybe<T>): Maybe<Option<T>> {
    if d == List([Integer(0)]) then Found(None)
    else
      var e :- Elements(d, 2);
      if e[0] != Integer(1) then Unreadable
      else
        var v :- read(e[1]);
        Found(Some(v))
  }

  /** The tag of a variant, or -1. */
  function TagOf(d: Data): int {
    if d.List? && d.elements != [] && d.elements[0].Integer? then d.elements[0].n else -1
  }

  // ----- Structures -----

  /** A deadline is read as its tick; its clock is not in the data. */
  function ConfigOf(d: Data): Maybe<BudgetConfig> {
    var e :- Elements(d, 21);
    if Uints(e) && e[0].n <= U32_TOP && e[6].n <= U32_TOP && e[9].n <= U32_TOP then
      Found(BudgetConfig(e[0].n, e[1].n, e[2].n, e[3].n, e[4].n, e[5].n, e[6].n, e[7].n, e[8].n, e[9].n, e[10].n, e[11].n,
                         e[12].n, e[13].n, e[14].n, e[15].n, e[16].n, e[17].n, e[18].n, e[19].n, MonotonicInstant(0, e[20].n)))
    else Unreadable
  }

  function CountersOf(d: Data): Maybe<BudgetCounters> {
    var e :- Elements(d, 15);
    if Uints(e) && e[3].n <= U32_TOP && e[5].n <= U32_TOP then
      Found(BudgetCounters(e[0].n, e[1].n, e[2].n, e[3].n, e[4].n, e[5].n, e[6].n, e[7].n, e[8].n, e[9].n, e[10].n, e[11].n,
                           e[12].n, e[13].n, e[14].n))
    else Unreadable
  }

  function PeaksOf(d: Data): Maybe<BudgetPeaks> {
    var e :- Elements(d, 3);
    if Uints(e) then Found(BudgetPeaks(e[0].n, e[1].n, e[2].n)) else Unreadable
  }

  function UsageOf(d: Data): Maybe<BudgetUsage> {
    var e :- Elements(d, 6);
    var committed :- CountersOf(e[0]);
    var reserved :- CountersOf(e[1]);
    var peaks :- PeaksOf(e[5]);
    if Uints(e[2..5]) then Found(BudgetUsage(committed, reserved, e[2..5][0].n, e[2..5][1].n, e[2..5][2].n, peaks)) else Unreadable
  }

  function FrameOf(d: Data): Maybe<AuditFrame> {
    var e :- Elements(d, 3);
    var function_ :- TextOf(e[0]);
    var moduleId :- TextOf(e[1]);
    var line :- U32Of(e[2]);
    Found(AuditFrame(function_, moduleId, line))
  }

  function FramesOf(ds: seq<Data>): Maybe<seq<AuditFrame>> {
    if ds == [] then Found([])
    else
      var first :- FrameOf(ds[0]);
      var others :- FramesOf(ds[1..]);
      Found([first] + others)
  }

  function ErrorOf(d: Data): Maybe<AuditError> {
    var e :- Elements(d, 7);
    var code :- TextOf(e[0]);
    var messageId :- TextOf(e[1]);
    var moduleId :- OptionOf(e[2], TextOf);
    var line :- OptionOf(e[3], U32Of);
    var column :- OptionOf(e[4], U32Of);
    var trace :- if e[5].List? then FramesOf(e[5].elements) else Unreadable;
    var omitted :- U32Of(e[6]);
    Found(AuditError(code, messageId, moduleId, line, column, trace, omitted))
  }

  // ----- Variants -----

  function YieldReasonOf(d: Data): Maybe<AuditYieldReason> {
    match TagOf(d)
    case 0 =>
      var e :- Elements(d, 2);
      var resumeTo :- VariantOf(e[1], ADMISSION_PHASES);
      Found(AdmissionQueued(resumeTo))
    case 3 =>
      var e :- Elements(d, 2);
      var callId :- U64Of(e[1]);
      Found(HostCallPending(callId))
    case 1 => BareOf(d, SliceFuelExhausted)
    case 2 => BareOf(d, ExplicitYield)
    case 4 => BareOf(d, AuditBackpressure)
    case 5 => BareOf(d, SchedulerPreempted)
    case 6 => BareOf(d, HostPaused)
    case _ => Unreadable
  }

  function OutcomeOf(d: Data): Maybe<TerminalOutcome> {
    match TagOf(d)
    case 1 =>
      var e :- Elements(d, 2);
      if IsUint(e[1], 0xff) then Found(Exited(e[1].n)) else Unreadable
    case 6 =>
      var e :- Elements(d, 2);
      var resource :- VariantOf(e[1], RESOURCES);
      Found(BudgetExceeded(resource))
    case 0 => BareOf(d, Completed)
    case 2 => BareOf(d, DeniedOutcome)
    case 3 => BareOf(d, LinkError)
    case 4 => BareOf(d, RuntimeError)
    case 5 => BareOf(d, HostErrorOutcome)
    case 7 => BareOf(d, DeadlineExceeded)
    case 8 => BareOf(d, CancelledOutcome)
    case 9 => BareOf(d, AuditFailure)
    case 10 => BareOf(d, InternalFailure)
    case 11 => BareOf(d, RecordFailure)
    case 12 => BareOf(d, ReplayMismatch)
    case _ => Unreadable
  }

  function ErrorPayloadOf(d: Data): Maybe<AuditErrorPayload> {
    match TagOf(d)
    case 0 =>
      var e :- Elements(d, 2);
      var error :- ErrorOf(e[1]);
      Found(Full(error))
    case 1 =>
      var e :- Elements(d, 5);
      var code :- TextOf(e[1]);
      var messageId :- TextOf(e[2]);
      var fullErrorBytes :- U64Of(e[3]);
      var fullErrorSha256 :- DigestOf(e[4]);
      Found(Emergency(code, messageId, fullErrorBytes, fullErrorSha256))
    case _ => Unreadable
  }

  function ScalarOf(d: Data): Maybe<AuditScalar> {
    if d == List([Integer(0)]) then Found(NullScalar)
    else
      var e :- Elements(d, 2);
      match TagOf(d)
      case 1 =>
        var b :- BoolOf(e[1]);
        Found(BoolScalar(b))
      case 2 =>
        if e[1].Integer? && -0x8000_0000_0000_0000 <= e[1].n <= 0x7fff_ffff_ffff_ffff then Found(IntScalar(e[1].n)) else Unreadable
      case 3 =>
        if e[1].ByteString? && |e[1].bytes| == 8 && Number(e[1].bytes, 0) <= U64_MAX
        then Found(FloatScalar(Number(e[1].bytes, 0))) else Unreadable
      case 4 =>
        var s :- TextOf(e[1]);
        Found(Utf8Scalar(s))
      case 5 =>
        var bs :- BytesOf(e[1]);
        Found(BytesScalar(bs))
      case _ => Unreadable
  }

  function ValueOf(d: Data): Maybe<AuditValue>
    decreases d, 0
  {
    var e :- Elements(d, 2);
    match TagOf(d)
    case 0 =>
      var s :- ScalarOf(e[1]);
      Found(ScalarValue(s))
    case 1 =>
      var fs :- if e[1].List? then FieldsOf(e[1].elements) else Unreadable;
      Found(Sequence(fs))
    case 2 =>
      var es :- if e[1].List? then EntriesOf(e[1].elements) else Unreadable;
      Found(Object(es))
    case _ => Unreadable
  }

  function FieldsOf(ds: seq<Data>): Maybe<seq<AuditField>>
    decreases ds, 1
  {
    if ds == [] then Found([])
    else
      var first :- FieldOf(ds[0]);
      var others :- FieldsOf(ds[1..]);
      Found([first] + others)
  }

  function EntriesOf(ds: seq<Data>): Maybe<seq<Entry>>
    decreases ds, 1
  {
    if ds == [] then Found([])
    else
      var e :- Elements(ds[0], 2);
      var key :- TextOf(e[0]);
      var field :- FieldOf(e[1]);
      var others :- EntriesOf(ds[1..]);
      Found([Entry(key, field)] + others)
  }

  function FieldOf(d: Data): Maybe<AuditField>
    decreases d, 0
  {
    match TagOf(d)
    case 0 =>
      var e :- Elements(d, 4);
      var class_ :- VariantOf(e[1], FIELD_CLASSES);
      var value :- ValueOf(e[2]);
      var originalBytes :- U64Of(e[3]);
      Found(Revealed(class_, value, originalBytes))
    case 1 =>
      var e :- Elements(d, 4);
      var class_ :- VariantOf(e[1], FIELD_CLASSES);
      var digest :- DigestOf(e[2]);
      var originalBytes :- U64Of(e[3]);
      Found(HmacSha256(class_, digest, originalBytes))
    case 2 =>
      var e :- Elements(d, 3);
      var class_ :- VariantOf(e[1], FIELD_CLASSES);
      var originalBytes :- U64Of(e[2]);
      Found(Omitted(class_, originalBytes))
    case _ => Unreadable
  }

  function PayloadOf(d: Data): Maybe<AuditPayload> {
    var e :- Elements(d, 1);
    var fields :- if e[0].List? then EntriesOf(e[0].elements) else Unreadable;
    Found(AuditPayload(fields))
  }

  function StartedOf(d: Data): Maybe<AuditEvent> {
    var e :- Elements(d, 9);
    var engineVersion :- TextOf(e[1]);
    var backend :- VariantOf(e[2], BACKENDS);
    var rulesRevision :- U32Of(e[3]);
    var heapAccountingRevision :- U32Of(e[4]);
    var budget :- ConfigOf(e[5]);
    var capabilityPolicyHash :- DigestOf(e[6]);
    var redactionPolicyId :- TextOf(e[7]);
    var mode :- VariantOf(e[8], EXECUTION_MODES);
    Found(ExecutionStarted(engineVersion, backend, rulesRevision, heapAccountingRevision, budget, capabilityPolicyHash,
                           redactionPolicyId, mode))
  }

  function DecisionOf(d: Data): Maybe<AuditEvent> {
    var e :- Elements(d, 8);
    var operationId :- U64Of(e[1]);
    var callId :- OptionOf(e[2], U64Of);
    var capability :- TextOf(e[3]);
    var action :- TextOf(e[4]);
    var resourcePayload :- PayloadOf(e[5]);
    var decision :- VariantOf(e[6], DECISIONS);
    var ruleId :- TextOf(e[7]);
    Found(CapabilityDecision(operationId, callId, capability, action, resourcePayload, decision, ruleId))
  }

  function CallStartedOf(d: Data): Maybe<AuditEvent> {
    var e :- Elements(d, 6);
    var operationId :- U64Of(e[1]);
    var callId :- U64Of(e[2]);
    var function_ :- TextOf(e[3]);
    var request :- PayloadOf(e[4]);
    var requestBytes :- U64Of(e[5]);
    Found(HostCallStarted(operationId, callId, function_, request, requestBytes))
  }

  function CallFinishedOf(d: Data): Maybe<AuditEvent> {
    var e :- Elements(d, 8);
    var operationId :- U64Of(e[1]);
    var callId :- U64Of(e[2]);
    var outcome :- VariantOf(e[3], HOST_CALL_OUTCOMES);
    var response :- PayloadOf(e[4]);
    var responseBytes :- U64Of(e[5]);
    var errorCode :- OptionOf(e[6], TextOf);
    var effectStatus :- VariantOf(e[7], EFFECT_STATUSES);
    Found(HostCallFinished(operationId, callId, outcome, response, responseBytes, errorCode, effectStatus))
  }

  function ChargedOf(d: Data): Maybe<AuditEvent> {
    var e :- Elements(d, 8);
    var resource :- VariantOf(e[1], RESOURCES);
    var committedDelta :- U64Of(e[2]);
    var releasedDelta :- U64Of(e[3]);
    var usageAfter :- U64Of(e[4]);
    var peakAfter :- OptionOf(e[5], U64Of);
    var chargeCount :- U64Of(e[6]);
    var reason :- VariantOf(e[7], CHARGE_REASONS);
    Found(BudgetCharged(resource, committedDelta, releasedDelta, usageAfter, peakAfter, chargeCount, reason))
  }

  function PausedOf(d: Data): Maybe<(AuditYieldReason, U64, BudgetUsage)> {
    var e :- Elements(d, 4);
    var reason :- YieldReasonOf(e[1]);
    var pollIndex :- U64Of(e[2]);
    var usage :- UsageOf(e[3]);
    Found((reason, pollIndex, usage))
  }

  function TerminalOf(d: Data): Maybe<AuditEvent> {
    var e :- Elements(d, 7);
    var terminal :- OutcomeOf(e[1]);
    var error :- OptionOf(e[2], ErrorPayloadOf);
    var usage :- UsageOf(e[3]);
    var importGraphHash :- OptionOf(e[4], DigestOf);
    var contextCommitted :- BoolOf(e[5]);
    var hostEffectsMayRemain :- BoolOf(e[6]);
    Found(Terminal(terminal, error, usage, importGraphHash, contextCommitted, hostEffectsMayRemain))
  }

  function EventOf(d: Data): Maybe<AuditEvent> {
    match TagOf(d)
    case 0 => StartedOf(d)
    case 1 => DecisionOf(d)
    case 2 => CallStartedOf(d)
    case 3 => CallFinishedOf(d)
    case 4 => ChargedOf(d)
    case 5 =>
      var p :- PausedOf(d);
      Found(Yielded(p.0, p.1, p.2))
    case 6 =>
      var p :- PausedOf(d);
      Found(Resumed(p.0, p.1, p.2))
    case 7 => TerminalOf(d)
    case _ => Unreadable
  }

  /** A number in two's complement. */
  function Signed(n: nat): int {
    if n < 0x8000_0000_0000_0000_0000_0000_0000_0000 then n else n - 0x1_0000_0000_0000_0000_0000_0000_0000_0000
  }

  /** A timestamp is an array of one string: sixteen bytes, read as one signed number. */
  function TimestampOf(d: Data): Maybe<I128> {
    var e :- Elements(d, 1);
    var bs :- BytesOf(e[0]);
    if |bs| == 16 && I128_MIN <= Signed(Number(bs, 0)) <= I128_MAX then Found(Signed(Number(bs, 0))) else Unreadable
  }

  function IdOf(d: Data): Maybe<NonZeroU128> {
    var bs :- BytesOf(d);
    if |bs| == 16 && 0 < Number(bs, 0) < 0x1_0000_0000_0000_0000_0000_0000_0000_0000 then Found(Number(bs, 0)) else Unreadable
  }

  function EnvelopeOf(d: Data): Maybe<AuditEnvelope> {
    var e :- Elements(d, 7);
    var executionId :- IdOf(e[1]);
    var sourceHash :- DigestOf(e[2]);
    var languageRevision :- TextOf(e[3]);
    var sequence :- U64Of(e[4]);
    var time :- TimestampOf(e[5]);
    var event :- EventOf(e[6]);
    if IsUint(e[0], 0xffff)
    then Found(AuditEnvelope(e[0].n, executionId, sourceHash, languageRevision, sequence, time, event)) else Unreadable
  }

  /** The next envelope of a stream, and what follows it. */
  function Decode(stream: seq<Byte>): Maybe<(AuditEnvelope, seq<Byte>)> {
    match ReadItem(stream)
    case None => Unreadable
    case Some((d, rest)) =>
      var v :- EnvelopeOf(d);
      Found((v, rest))
  }

  // ----- What was written is read -----

  /** The data of an array, element by element. */
  lemma ArrayData(items: seq<Item>)
    ensures DataOf(Array(items)) == List(DataOfAll(items)) && |DataOfAll(items)| == |items|
    ensures forall k :: 0 <= k < |items| ==> DataOfAll(items)[k] == DataOf(items[k])
  {
    hide DataOf;
    ArrayIsItsData(items);
    if items == [] {
      NoData();
    } else {
      DataAt(items, 0);
      forall k | 0 <= k < |items|
        ensures DataOfAll(items)[k] == DataOf(items[k])
      {
        DataAt(items, k);
      }
    }
  }

  lemma Primitives()
    ensures forall n: U64 :: DataOf(UInt(n)) == Integer(n)
    ensures forall n: I64 :: DataOf(IntItem(n)) == Integer(n)
    ensures forall bs: seq<Byte> :: DataOf(Bytes(bs)) == ByteString(bs)
    ensures forall bs: seq<Byte> :: DataOf(Text(bs)) == TextString(bs)
    ensures forall b :: DataOf(Bool(b)) == if b then True else False
  {
  }

  /** A variant without fields. */
  lemma VariantRead<T>(variants: seq<T>, tag: U64, v: T)
    requires tag < |variants| && variants[tag] == v
    ensures VariantOf(DataOf(Tagged(tag, [])), variants) == Found(v)
    ensures DataOf(Tagged(tag, [])) == List([Integer(tag)])
  {
    hide DataOf, DataOfAll;
    DataOfTagged(tag, []);
    NoData();
  }

  lemma OptionRead<T>(v: Option<T>, f: T -> Item, read: Data -> Maybe<T>)
    requires v.Some? ==> read(DataOf(f(v.value))) == Found(v.value)
    ensures OptionOf(DataOf(OptionItem(v, f)), read) == Found(v)
  {
    hide DataOf, DataOfAll;
    match v
    case None =>
      DataOfTagged(0, []);
      NoData();
    case Some(x) =>
      DataOfTagged(1, [f(x)]);
      DataOfOne(f(x));
  }

  /** The configuration as far as it is written. */
  function Unclocked(b: BudgetConfig): BudgetConfig { b.(deadline := MonotonicInstant(0, b.deadline.nanos)) }

  function Numbers(items: seq<Item>): (r: seq<Data>)
    requires forall k :: 0 <= k < |items| ==> items[k].UInt?
    ensures |r| == |items| && forall k :: 0 <= k < |r| ==> r[k] == Integer(items[k].n)
  {
    seq(|items|, k requires 0 <= k < |items| => Integer(items[k].n))
  }

  /** An array of unsigned numbers. */
  lemma NumbersData(items: seq<Item>)
    requires forall k :: 0 <= k < |items| ==> items[k].UInt?
    ensures DataOf(Array(items)) == List(Numbers(items)) && Uints(Numbers(items))
  {
    ArrayData(items);
    forall k | 0 <= k < |items|
      ensures DataOfAll(items)[k] == Numbers(items)[k]
    {
      assert DataOf(items[k]) == Integer(items[k].n);
    }
    assert DataOfAll(items) == Numbers(items);
  }

  lemma ConfigRead(v: BudgetConfig)
    ensures ConfigOf(DataOf(BudgetConfigItem(v))) == Found(Unclocked(v))
  {
    hide DataOf, DataOfAll, Uints;
    NumbersData(BudgetConfigItem(v).items);
  }

  lemma CountersRead(v: BudgetCounters)
    ensures CountersOf(DataOf(BudgetCountersItem(v))) == Found(v)
  {
    hide DataOf, DataOfAll, Uints;
    NumbersData(BudgetCountersItem(v).items);
  }

  lemma PeaksRead(v: BudgetPeaks)
    ensures PeaksOf(DataOf(BudgetPeaksItem(v))) == Found(v)
  {
    hide DataOf, DataOfAll, Uints;
    NumbersData(BudgetPeaksItem(v).items);
  }

  lemma UsageRead(v: BudgetUsage)
    ensures UsageOf(DataOf(BudgetUsageItem(v))) == Found(v)
  {
    hide DataOf, DataOfAll, CountersOf, PeaksOf, BudgetCountersItem, BudgetPeaksItem;
    Primitives();
    ArrayData(BudgetUsageItem(v).items);
    CountersRead(v.committed);
    CountersRead(v.reserved);
    PeaksRead(v.peaks);
  }

  lemma FrameRead(v: AuditFrame)
    ensures FrameOf(DataOf(AuditFrameItem(v))) == Found(v)
  {
    hide DataOf, DataOfAll;
    Primitives();
    ArrayData(AuditFrameItem(v).items);
  }

  lemma {:induction false} FramesRead(fs: seq<AuditFrame>)
    ensures FramesOf(DataOfAll(FrameItems(fs))) == Found(fs)
    decreases |fs|
  {
    hide DataOf, AuditFrameItem, FrameOf;
    if fs == [] {
      assert FrameItems(fs) == [];
    } else {
      FrameRead(fs[0]);
      FramesRead(fs[1..]);
      assert FrameItems(fs)[1..] == FrameItems(fs[1..]);
      assert fs == [fs[0]] + fs[1..];
    }
  }

  lemma ErrorRead(v: AuditError)
    ensures ErrorOf(DataOf(AuditErrorItem(v))) == Found(v)
  {
    hide DataOf, DataOfAll, OptionOf, FramesOf, OptionItem, FrameItems;
    Primitives();
    ArrayData(AuditErrorItem(v).items);
    ArrayData(FrameItems(v.trace));
    OptionRead(v.moduleId, (v: Utf8) => Text(v), TextOf);
    OptionRead(v.line, (v: U32) => UInt(v), U32Of);
    OptionRead(v.column, (v: U32) => UInt(v), U32Of);
    FramesRead(v.trace);
  }

  lemma YieldReasonRead(v: AuditYieldReason)
    ensures YieldReasonOf(DataOf(AuditYieldReasonItem(v))) == Found(v)
  {
    hide DataOf, DataOfAll, VariantOf;
    Primitives();
    ArrayData(AuditYieldReasonItem(v).items);
    if v.AdmissionQueued? {
      TagsCountDeclarations();
      assert InOrder(ADMISSION_PHASES, AdmissionPhaseTag(v.resumeTo), v.resumeTo);
      VariantRead(ADMISSION_PHASES, AdmissionPhaseTag(v.resumeTo), v.resumeTo);
    }
  }

  lemma ResourceRead(r: BudgetResource)
    ensures VariantOf(DataOf(Tagged(BudgetResourceTag(r), [])), RESOURCES) == Found(r)
  {
    hide DataOf, VariantOf, BudgetResourceTag;
    TagsCountDeclarations();
    assert InOrder(RESOURCES, BudgetResourceTag(r), r);
    VariantRead(RESOURCES, BudgetResourceTag(r), r);
  }

  lemma OutcomeRead(v: TerminalOutcome)
    ensures OutcomeOf(DataOf(TerminalOutcomeItem(v))) == Found(v)
  {
    hide DataOf, DataOfAll, VariantOf, BudgetResourceTag;
    Primitives();
    ArrayData(TerminalOutcomeItem(v).items);
    if v.BudgetExceeded? {
      ResourceRead(v.resource);
    }
  }

  lemma ErrorPayloadRead(v: AuditErrorPayload)
    ensures ErrorPayloadOf(DataOf(AuditErrorPayloadItem(v))) == Found(v)
  {
    hide DataOf, DataOfAll, ErrorOf, AuditErrorItem;
    Primitives();
    ArrayData(AuditErrorPayloadItem(v).items);
    if v.Full? {
      ErrorRead(v.error);
    }
  }

  lemma ScalarRead(v: AuditScalar)
    ensures ScalarOf(DataOf(AuditScalarItem(v))) == Found(v)
  {
    hide DataOf, DataOfAll, BigEndian, Number, Power256, IntItem;
    Primitives();
    ArrayData(AuditScalarItem(v).items);
    Powers();
    if v.FloatScalar? {
      BigEndianReads(v.bits, 8);
    }
  }

  lemma ClassRead(c: AuditFieldClass)
    ensures VariantOf(DataOf(Tagged(AuditFieldClassTag(c), [])), FIELD_CLASSES) == Found(c)
  {
    hide DataOf, VariantOf;
    TagsCountDeclarations();
    assert InOrder(FIELD_CLASSES, AuditFieldClassTag(c), c);
    VariantRead(FIELD_CLASSES, AuditFieldClassTag(c), c);
  }

  lemma {:induction false} ValueRead(v: AuditValue)
    ensures ValueOf(DataOf(AuditValueItem(v))) == Found(v)
    decreases v, 0
  {
    hide DataOf, DataOfAll, ScalarOf, AuditScalarItem, FieldsOf, EntriesOf, FieldItems, EntryItems;
    Primitives();
    ArrayData(AuditValueItem(v).items);
    match v {
      case ScalarValue(s) => ScalarRead(s);
      case Sequence(fs) => {
        ArrayIsItsData(FieldItems(fs));
        FieldsRead(fs);
      }
      case Object(es) => {
        ArrayIsItsData(EntryItems(es));
        EntriesRead(es);
      }
    }
  }

  lemma {:induction false} FieldsRead(fs: seq<AuditField>)
    ensures FieldsOf(DataOfAll(FieldItems(fs))) == Found(fs)
    decreases fs, 1
  {
    hide DataOf, AuditFieldItem, FieldOf;
    if fs != [] {
      FieldRead(fs[0]);
      FieldsRead(fs[1..]);
      assert FieldItems(fs)[1..] == FieldItems(fs[1..]);
      assert fs == [fs[0]] + fs[1..];
    }
  }

  lemma {:induction false} EntriesRead(es: seq<Entry>)
    ensures EntriesOf(DataOfAll(EntryItems(es))) == Found(es)
    decreases es, 1
  {
    hide DataOf, AuditFieldItem, FieldOf;
    if es != [] {
      var first := [Text(es[0].key), AuditFieldItem(es[0].field)];
      Primitives();
      ArrayData(first);
      FieldRead(es[0].field);
      EntriesRead(es[1..]);
      assert EntryItems(es)[0] == Array(first) && EntryItems(es)[1..] == EntryItems(es[1..]);
      assert es == [es[0]] + es[1..];
    }
  }

  lemma {:induction false} FieldRead(f: AuditField)
    ensures FieldOf(DataOf(AuditFieldItem(f))) == Found(f)
    decreases f, 0
  {
    hide DataOf, DataOfAll, VariantOf, ValueOf, AuditValueItem, AuditFieldClassTag;
    Primitives();
    ArrayData(AuditFieldItem(f).items);
    ClassRead(f.class_);
    if f.Revealed? {
      ValueRead(f.value);
    }
  }

  lemma PayloadRead(p: AuditPayload)
    ensures PayloadOf(DataOf(AuditPayloadItem(p))) == Found(p)
  {
    hide DataOf, DataOfAll, EntriesOf, EntryItems;
    ArrayData(AuditPayloadItem(p).items);
    ArrayIsItsData(EntryItems(p.fields));
    EntriesRead(p.fields);
  }

  // ----- Events -----

  /** The event as far as it is written: without the clock of a deadline. */
  function Legible(e: AuditEvent): AuditEvent {
    if e.ExecutionStarted? then e.(budget := Unclocked(e.budget)) else e
  }

  lemma StartedRead(v: AuditEvent)
    requires v.ExecutionStarted?
    ensures EventOf(DataOf(AuditEventItem(v))) == Found(Legible(v))
  {
    hide DataOf, DataOfAll, VariantOf, ConfigOf, BudgetConfigItem, Unclocked;
    Primitives();
    ArrayData(AuditEventItem(v).items);
    TagsCountDeclarations();
    assert InOrder(BACKENDS, BackendTag(v.backend), v.backend) && InOrder(EXECUTION_MODES, ExecutionModeTag(v.mode), v.mode);
    VariantRead(BACKENDS, BackendTag(v.backend), v.backend);
    VariantRead(EXECUTION_MODES, ExecutionModeTag(v.mode), v.mode);
    ConfigRead(v.budget);
  }

  lemma DecisionRead(v: AuditEvent)
    requires v.CapabilityDecision?
    ensures EventOf(DataOf(AuditEventItem(v))) == Found(v)
  {
    hide DataOf, DataOfAll, VariantOf, PayloadOf, AuditPayloadItem, OptionOf, OptionItem;
    Primitives();
    ArrayData(AuditEventItem(v).items);
    TagsCountDeclarations();
    assert InOrder(DECISIONS, CapabilityDecisionKindTag(v.decision), v.decision);
    VariantRead(DECISIONS, CapabilityDecisionKindTag(v.decision), v.decision);
    OptionRead(v.callId, (v: U64) => UInt(v), U64Of);
    PayloadRead(v.resourcePayload);
  }

  lemma CallStartedRead(v: AuditEvent)
    requires v.HostCallStarted?
    ensures EventOf(DataOf(AuditEventItem(v))) == Found(v)
  {
    hide DataOf, DataOfAll, PayloadOf, AuditPayloadItem;
    Primitives();
    ArrayData(AuditEventItem(v).items);
    PayloadRead(v.request);
  }

  lemma CallFinishedRead(v: AuditEvent)
    requires v.HostCallFinished?
    ensures EventOf(DataOf(AuditEventItem(v))) == Found(v)
  {
    hide DataOf, DataOfAll, VariantOf, PayloadOf, AuditPayloadItem, OptionOf, OptionItem;
    Primitives();
    ArrayData(AuditEventItem(v).items);
    TagsCountDeclarations();
    assert InOrder(HOST_CALL_OUTCOMES, HostCallOutcomeTag(v.outcome), v.outcome);
    assert InOrder(EFFECT_STATUSES, EffectStatusTag(v.effectStatus), v.effectStatus);
    VariantRead(HOST_CALL_OUTCOMES, HostCallOutcomeTag(v.outcome), v.outcome);
    VariantRead(EFFECT_STATUSES, EffectStatusTag(v.effectStatus), v.effectStatus);
    OptionRead(v.errorCode, (v: Utf8) => Text(v), TextOf);
    PayloadRead(v.response);
  }

  lemma ReasonRead(r: BudgetChargeReason)
    ensures VariantOf(DataOf(Tagged(BudgetChargeReasonTag(r), [])), CHARGE_REASONS) == Found(r)
  {
    hide DataOf, VariantOf, BudgetChargeReasonTag;
    TagsCountDeclarations();
    assert InOrder(CHARGE_REASONS, BudgetChargeReasonTag(r), r);
    VariantRead(CHARGE_REASONS, BudgetChargeReasonTag(r), r);
  }

  lemma ChargedRead(v: AuditEvent)
    requires v.BudgetCharged?
    ensures EventOf(DataOf(AuditEventItem(v))) == Found(v)
  {
    hide DataOf, DataOfAll, VariantOf, OptionOf, OptionItem, BudgetResourceTag, BudgetChargeReasonTag;
    Primitives();
    ArrayData(AuditEventItem(v).items);
    ResourceRead(v.resource);
    ReasonRead(v.reason);
    OptionRead(v.peakAfter, (v: U64) => UInt(v), U64Of);
  }

  lemma PausedRead(v: AuditEvent)
    requires v.Yielded? || v.Resumed?
    ensures EventOf(DataOf(AuditEventItem(v))) == Found(v)
  {
    hide DataOf, DataOfAll, YieldReasonOf, AuditYieldReasonItem, UsageOf, BudgetUsageItem;
    Primitives();
    ArrayData(AuditEventItem(v).items);
    YieldReasonRead(v.yieldReason);
    UsageRead(v.usage);
  }

  lemma TerminalRead(v: AuditEvent)
    requires v.Terminal?
    ensures EventOf(DataOf(AuditEventItem(v))) == Found(v)
  {
    hide DataOf, DataOfAll, OutcomeOf, TerminalOutcomeItem, UsageOf, BudgetUsageItem, OptionOf, OptionItem, ErrorPayloadOf,
         AuditErrorPayloadItem;
    Primitives();
    ArrayData(AuditEventItem(v).items);
    OutcomeRead(v.terminal);
    UsageRead(v.usage);
    if v.error.Some? {
      ErrorPayloadRead(v.error.value);
    }
    OptionRead(v.error, (v: AuditErrorPayload) => AuditErrorPayloadItem(v), ErrorPayloadOf);
    OptionRead(v.importGraphHash, (v: Digest) => Bytes(v), DigestOf);
  }

  lemma EventRead(v: AuditEvent)
    ensures EventOf(DataOf(AuditEventItem(v))) == Found(Legible(v))
  {
    hide DataOf, AuditEventItem, EventOf;
    match v {
      case ExecutionStarted(_, _, _, _, _, _, _, _) => StartedRead(v);
      case CapabilityDecision(_, _, _, _, _, _, _) => DecisionRead(v);
      case HostCallStarted(_, _, _, _, _) => CallStartedRead(v);
      case HostCallFinished(_, _, _, _, _, _, _) => CallFinishedRead(v);
      case BudgetCharged(_, _, _, _, _, _, _) => ChargedRead(v);
      case Yielded(_, _, _) => PausedRead(v);
      case Resumed(_, _, _) => PausedRead(v);
      case Terminal(_, _, _, _, _, _) => TerminalRead(v);
    }
  }

  // ----- Envelopes -----

  lemma TimestampRead(ns: I128)
    ensures TimestampOf(DataOf(TimestampItem(ns))) == Found(ns)
  {
    hide DataOf, DataOfAll, BigEndian, Number, Power256;
    Primitives();
    ArrayData(TimestampItem(ns).items);
    Powers128();
    BigEndianReads(AuditEncoding.Wrapped(ns), 16);
  }

  lemma EnvelopeRead(v: AuditEnvelope)
    ensures EnvelopeOf(DataOf(AuditEnvelopeItem(v))) == Found(v.(event := Legible(v.event)))
  {
    hide DataOf, DataOfAll, BigEndian, Number, Power256, EventOf, AuditEventItem, TimestampOf, TimestampItem, Legible;
    Primitives();
    ArrayData(AuditEnvelopeItem(v).items);
    Powers128();
    BigEndianReads(v.executionId, 16);
    TimestampRead(v.unixNanoseconds);
    EventRead(v.event);
  }

  /** Whatever envelope is encoded, and whatever follows it in the stream: a reader of the schema gets the envelope back,
      all but the clock of a deadline, and is left with what follows. */
  lemma EncodedReadsBack(v: AuditEnvelope, rest: seq<Byte>)
    requires Representable(v) && EncodeToVec(v).Ok?
    ensures Decode(EncodeToVec(v).value + rest) == Found((v.(event := Legible(v.event)), rest))
  {
    hide EncodeToVec, EncodedLen, Encoding, ReadItem, EnvelopeOf, DataOf, AuditEnvelopeItem, Legible;
    PassesAgree(v);
    ItemReads(AuditEnvelopeItem(v), rest);
    EnvelopeRead(v);
  }
}

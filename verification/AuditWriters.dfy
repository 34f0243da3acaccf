/** The encoders of the audit types (`src/audit.rs`, module `cbor`), each writing its own counts and tags and then
    its fields, one after the other. What they write is the encoding of the item of `AuditEncoding`, so distinct
    values are written differently, and the pass that counts and the pass that writes agree. */
module AuditWriters {
  import opened Cbor
  import opened AuditEncoding

  // ----- Primitives -----

  function UintOut(out: Out, v: U64): Result<Out> { Head(out, 0, v) }

  function IntOut(out: Out, v: I64): Result<Out> { if v >= 0 then Head(out, 0, v) else Head(out, 1, -1 - v) }

  function BytesOut(out: Out, v: seq<Byte>): Result<Out> { StringOut(out, 2, v) }

  function TextOut(out: Out, v: Utf8): Result<Out> { StringOut(out, 3, v) }

  function ArrayHeader(out: Out, len: nat): Result<Out> { Head(out, 4, AsU64(len)) }

  function BooleanOut(out: Out, v: bool): Result<Out> { Put(out, [if v then 0xf5 else 0xf4]) }

  /** The header of `[tag, field, ...]`. */
  function TaggedOut(out: Out, tag: U64, fields: nat): Result<Out> {
    var o :- ArrayHeader(out, 1 + fields);
    UintOut(o, tag)
  }

  function WriteOption<T>(out: Out, v: Option<T>, write: (Out, T) -> Result<Out>): Result<Out> {
    match v
    case None => TaggedOut(out, 0, 0)
    case Some(x) =>
      var o :- TaggedOut(out, 1, 1);
      write(o, x)
  }

  // ----- Writing an array piece by piece -----

  predicate AllFit(items: seq<Item>) { |items| <= U64_MAX && forall j :: 0 <= j < |items| ==> Fits(items[j]) }

  /** The output when the header and the first elements of an array are written. */
  function Begun(out: Out, items: seq<Item>, k: nat): Result<Out>
    requires AllFit(items) && k <= |items|
  {
    Put(out, HeadBytes(4, |items|) + Encodings(items[..k]))
  }

  lemma {:induction false} EncodingsSnoc(items: seq<Item>, i: Item)
    requires AllFit(items) && Fits(i)
    ensures Encodings(items + [i]) == Encodings(items) + Encoding(i)
    decreases |items|
  {
    hide Encoding;
    if items == [] {
      assert [i][1..] == [];
      assert Encodings([i]) == Encoding(i) + [];
      assert items + [i] == [i];
    } else {
      assert (items + [i])[1..] == items[1..] + [i];
      EncodingsSnoc(items[1..], i);
      assert Encoding(items[0]) + (Encodings(items[1..]) + Encoding(i)) == Encoding(items[0]) + Encodings(items[1..]) + Encoding(i);
    }
  }

  /** The next element follows the ones before it. */
  lemma Next(out: Out, items: seq<Item>, k: nat)
    requires AllFit(items) && k < |items|
    ensures Begun(out, items, k + 1) ==
            match Begun(out, items, k)
            case Err(e) => Err(e)
            case Ok(o) => Put(o, Encoding(items[k]))
  {
    hide Encoding, Encodings, HeadBytes, Put;
    EncodingsSnoc(items[..k], items[k]);
    assert items[..k + 1] == items[..k] + [items[k]];
    var h, a, b := HeadBytes(4, |items|), Encodings(items[..k]), Encoding(items[k]);
    assert h + (a + b) == (h + a) + b;
    PutTwice(out, h + a, b);
  }

  lemma Opened(out: Out, items: seq<Item>)
    requires AllFit(items)
    ensures ArrayHeader(out, |items|) == Begun(out, items, 0)
  {
    hide Encoding, HeadBytes, Put;
    assert items[..0] == [];
    assert HeadBytes(4, |items|) + [] == HeadBytes(4, |items|);
  }

  lemma Closed(out: Out, items: seq<Item>)
    requires AllFit(items)
    ensures Begun(out, items, |items|) == Put(out, Encoding(Array(items)))
  {
    hide HeadBytes, Put;
    assert items[..|items|] == items;
  }

  /** A tagged header writes the array's header and the tag. */
  lemma OpenedTagged(out: Out, tag: U64, fields: seq<Item>)
    requires AllFit([UInt(tag)] + fields)
    ensures TaggedOut(out, tag, |fields|) == Begun(out, [UInt(tag)] + fields, 1)
  {
    hide HeadBytes, Put, Encodings, Begun;
    var items := [UInt(tag)] + fields;
    Opened(out, items);
    Next(out, items, 0);
  }

  lemma TagAlone(out: Out, tag: U64)
    ensures TaggedOut(out, tag, 0) == Put(out, Encoding(Tagged(tag, [])))
  {
    hide TaggedOut, Put, Encoding, Begun;
    var items := [UInt(tag)];
    assert items == [UInt(tag)] + [];
    OpenedTagged(out, tag, []);
    Closed(out, items);
  }

  /** Each primitive writes the encoding of its item. */
  lemma PrimitivesPut()
    ensures forall out, n: U64 :: UintOut(out, n) == Put(out, Encoding(UInt(n)))
    ensures forall out, n: I64 :: IntOut(out, n) == Put(out, Encoding(IntItem(n)))
    ensures forall out, b :: BooleanOut(out, b) == Put(out, Encoding(Bool(b)))
    ensures forall out, tag: U64 :: TaggedOut(out, tag, 0) == Put(out, Encoding(Tagged(tag, [])))
    ensures forall out, s: seq<Byte> :: |s| <= U64_MAX ==> BytesOut(out, s) == Put(out, Encoding(Bytes(s)))
    ensures forall out, s: seq<Byte> :: |s| <= U64_MAX ==> TextOut(out, s) == Put(out, Encoding(Text(s)))
  {
    hide HeadBytes, Put, TaggedOut;
    forall out: Out, tag: U64
      ensures TaggedOut(out, tag, 0) == Put(out, Encoding(Tagged(tag, [])))
    {
      TagAlone(out, tag);
    }
    forall out: Out, s: seq<Byte> | |s| <= U64_MAX
      ensures BytesOut(out, s) == Put(out, Encoding(Bytes(s))) && TextOut(out, s) == Put(out, Encoding(Text(s)))
    {
      PutTwice(out, HeadBytes(2, |s|), s);
      PutTwice(out, HeadBytes(3, |s|), s);
    }
  }

  lemma OptionPuts<T>(out: Out, v: Option<T>, write: (Out, T) -> Result<Out>, f: T -> Item)
    requires Fits(OptionItem(v, f))
    requires v.Some? ==> Fits(f(v.value)) && forall o :: write(o, v.value) == Put(o, Encoding(f(v.value)))
    ensures WriteOption(out, v, write) == Put(out, Encoding(OptionItem(v, f)))
  {
    hide Put, Encoding, TaggedOut, Begun;
    match v {
      case None => TagAlone(out, 0);
      case Some(x) => {
        var items := [UInt(1), f(x)];
        assert items == [UInt(1)] + [f(x)];
        OpenedTagged(out, 1, [f(x)]);
        Next(out, items, 1);
        Closed(out, items);
      }
    }
  }

  lemma OptionTextPuts(out: Out, v: Option<Utf8>)
    requires Fits(OptionItem(v, (v: Utf8) => Text(v)))
    ensures WriteOption(out, v, TextOut) == Put(out, Encoding(OptionItem(v, (v: Utf8) => Text(v))))
  {
    hide Put, Encoding, TextOut;
    PrimitivesPut();
    if v.Some? {
      assert OptionItem(v, (v: Utf8) => Text(v)).items[1] == Text(v.value);
    }
    OptionPuts(out, v, TextOut, (v: Utf8) => Text(v));
  }

  lemma OptionU32Puts(out: Out, v: Option<U32>)
    ensures Fits(OptionItem(v, (v: U32) => UInt(v)))
    ensures WriteOption(out, v, (o: Out, n: U32) => UintOut(o, n)) == Put(out, Encoding(OptionItem(v, (v: U32) => UInt(v))))
  {
    hide Put, Encoding, UintOut;
    PrimitivesPut();
    OptionPuts(out, v, (o: Out, n: U32) => UintOut(o, n), (v: U32) => UInt(v));
  }

  lemma OptionU64Puts(out: Out, v: Option<U64>)
    ensures Fits(OptionItem(v, (v: U64) => UInt(v)))
    ensures WriteOption(out, v, (o: Out, n: U64) => UintOut(o, n)) == Put(out, Encoding(OptionItem(v, (v: U64) => UInt(v))))
  {
    hide Put, Encoding, UintOut;
    PrimitivesPut();
    OptionPuts(out, v, (o: Out, n: U64) => UintOut(o, n), (v: U64) => UInt(v));
  }

  lemma OptionDigestPuts(out: Out, v: Option<Digest>)
    ensures Fits(OptionItem(v, (v: Digest) => Bytes(v)))
    ensures WriteOption(out, v, (o: Out, d: Digest) => BytesOut(o, d)) == Put(out, Encoding(OptionItem(v, (v: Digest) => Bytes(v))))
  {
    hide Put, Encoding, BytesOut;
    PrimitivesPut();
    OptionPuts(out, v, (o: Out, d: Digest) => BytesOut(o, d), (v: Digest) => Bytes(v));
  }

  // ----- Enumerations -----

  function WriteBackend(out: Out, v: Backend): Result<Out> { TaggedOut(out, BackendTag(v), 0) }

  function WriteAdmissionPhase(out: Out, v: AdmissionPhase): Result<Out> { TaggedOut(out, AdmissionPhaseTag(v), 0) }

  function WriteExecutionMode(out: Out, v: ExecutionMode): Result<Out> { TaggedOut(out, ExecutionModeTag(v), 0) }

  function WriteCapabilityDecisionKind(out: Out, v: CapabilityDecisionKind): Result<Out> { TaggedOut(out, CapabilityDecisionKindTag(v), 0) }

  function WriteHostCallOutcome(out: Out, v: HostCallOutcome): Result<Out> { TaggedOut(out, HostCallOutcomeTag(v), 0) }

  function WriteEffectStatus(out: Out, v: EffectStatus): Result<Out> { TaggedOut(out, EffectStatusTag(v), 0) }

  function WriteAuditFieldClass(out: Out, v: AuditFieldClass): Result<Out> { TaggedOut(out, AuditFieldClassTag(v), 0) }

  function WriteBudgetChargeReason(out: Out, v: BudgetChargeReason): Result<Out> { TaggedOut(out, BudgetChargeReasonTag(v), 0) }

  function WriteBudgetResource(out: Out, v: BudgetResource): Result<Out> { TaggedOut(out, BudgetResourceTag(v), 0) }

  /** A deadline is written as its tick, without the clock it was read from. */
  function WriteMonotonicInstant(out: Out, v: MonotonicInstant): Result<Out> { UintOut(out, v.nanos) }

  // ----- Structures: the number of fields, then each field -----

  function WriteBudgetConfig(out: Out, v: BudgetConfig): Result<Out> {
    var o :- ArrayHeader(out, 21);
    var o :- UintOut(o, v.heapAccountingRevision);
    var o :- UintOut(o, v.totalFuel);
    var o :- UintOut(o, v.maxLiveHeapBytes);
    WriteBudgetConfigFromMaxStringAllocations(o, v)
  }

  /** The fields from `maxStringAllocations` on. */
  function WriteBudgetConfigFromMaxStringAllocations(out: Out, v: BudgetConfig): Result<Out> {
    var o :- UintOut(out, v.maxStringAllocations);
    var o :- UintOut(o, v.maxStringBytes);
    var o :- UintOut(o, v.maxSingleStringBytes);
    WriteBudgetConfigFromMaxSourceCount(o, v)
  }

  /** The fields from `maxSourceCount` on. */
  function WriteBudgetConfigFromMaxSourceCount(out: Out, v: BudgetConfig): Result<Out> {
    var o :- UintOut(out, v.maxSourceCount);
    var o :- UintOut(o, v.maxSourceBytes);
    var o :- UintOut(o, v.maxSingleSourceBytes);
    WriteBudgetConfigFromMaxImportCount(o, v)
  }

  /** The fields from `maxImportCount` on. */
  function WriteBudgetConfigFromMaxImportCount(out: Out, v: BudgetConfig): Result<Out> {
    var o :- UintOut(out, v.maxImportCount);
    var o :- UintOut(o, v.maxImportBytes);
    var o :- UintOut(o, v.maxCollectionElements);
    WriteBudgetConfigFromMaxInputCalls(o, v)
  }

  /** The fields from `maxInputCalls` on. */
  function WriteBudgetConfigFromMaxInputCalls(out: Out, v: BudgetConfig): Result<Out> {
    var o :- UintOut(out, v.maxInputCalls);
    var o :- UintOut(o, v.maxInputBytes);
    var o :- UintOut(o, v.maxOutputCalls);
    WriteBudgetConfigFromMaxOutputBytes(o, v)
  }

  /** The fields from `maxOutputBytes` on. */
  function WriteBudgetConfigFromMaxOutputBytes(out: Out, v: BudgetConfig): Result<Out> {
    var o :- UintOut(out, v.maxOutputBytes);
    var o :- UintOut(o, v.maxHostCalls);
    var o :- UintOut(o, v.maxHostRequestBytes);
    WriteBudgetConfigFromMaxHostResponseBytes(o, v)
  }

  /** The fields from `maxHostResponseBytes` on. */
  function WriteBudgetConfigFromMaxHostResponseBytes(out: Out, v: BudgetConfig): Result<Out> {
    var o :- UintOut(out, v.maxHostResponseBytes);
    var o :- UintOut(o, v.maxHostCallBytes);
    WriteMonotonicInstant(o, v.deadline)
  }

  lemma BudgetConfigFromMaxHostResponseBytesPuts(out: Out, v: BudgetConfig)
    requires Fits(BudgetConfigItem(v))
    ensures var items := BudgetConfigItem(v).items;
            match Begun(out, items, 18)
            case Err(e) => Put(out, Encoding(BudgetConfigItem(v))) == Err(e)
            case Ok(o) => WriteBudgetConfigFromMaxHostResponseBytes(o, v) == Put(out, Encoding(BudgetConfigItem(v)))
  {
    hide Put, Encoding, Encodings, Begun, ArrayHeader, TaggedOut, UintOut, TextOut, BytesOut, BooleanOut;
    var items := BudgetConfigItem(v).items;
    assert |items| == 21;
    PrimitivesPut();
    Next(out, items, 18);
    Next(out, items, 19);
    Next(out, items, 20);
    Closed(out, items);
  }

  lemma BudgetConfigFromMaxOutputBytesPuts(out: Out, v: BudgetConfig)
    requires Fits(BudgetConfigItem(v))
    ensures var items := BudgetConfigItem(v).items;
            match Begun(out, items, 15)
            case Err(e) => Put(out, Encoding(BudgetConfigItem(v))) == Err(e)
            case Ok(o) => WriteBudgetConfigFromMaxOutputBytes(o, v) == Put(out, Encoding(BudgetConfigItem(v)))
  {
    hide Put, Encoding, Encodings, Begun, ArrayHeader, TaggedOut, UintOut, TextOut, BytesOut, BooleanOut,
         WriteBudgetConfigFromMaxHostResponseBytes;
    var items := BudgetConfigItem(v).items;
    assert |items| == 21;
    PrimitivesPut();
    Next(out, items, 15);
    Next(out, items, 16);
    Next(out, items, 17);
    BudgetConfigFromMaxHostResponseBytesPuts(out, v);
  }

  lemma BudgetConfigFromMaxInputCallsPuts(out: Out, v: BudgetConfig)
    requires Fits(BudgetConfigItem(v))
    ensures var items := BudgetConfigItem(v).items;
            match Begun(out, items, 12)
            case Err(e) => Put(out, Encoding(BudgetConfigItem(v))) == Err(e)
            case Ok(o) => WriteBudgetConfigFromMaxInputCalls(o, v) == Put(out, Encoding(BudgetConfigItem(v)))
  {
    hide Put, Encoding, Encodings, Begun, ArrayHeader, TaggedOut, UintOut, TextOut, BytesOut, BooleanOut,
         WriteBudgetConfigFromMaxOutputBytes;
    var items := BudgetConfigItem(v).items;
    assert |items| == 21;
    PrimitivesPut();
    Next(out, items, 12);
    Next(out, items, 13);
    Next(out, items, 14);
    BudgetConfigFromMaxOutputBytesPuts(out, v);
  }

  lemma BudgetConfigFromMaxImportCountPuts(out: Out, v: BudgetConfig)
    requires Fits(BudgetConfigItem(v))
    ensures var items := BudgetConfigItem(v).items;
            match Begun(out, items, 9)
            case Err(e) => Put(out, Encoding(BudgetConfigItem(v))) == Err(e)
            case Ok(o) => WriteBudgetConfigFromMaxImportCount(o, v) == Put(out, Encoding(BudgetConfigItem(v)))
  {
    hide Put, Encoding, Encodings, Begun, ArrayHeader, TaggedOut, UintOut, TextOut, BytesOut, BooleanOut,
         WriteBudgetConfigFromMaxInputCalls;
    var items := BudgetConfigItem(v).items;
    assert |items| == 21;
    PrimitivesPut();
    Next(out, items, 9);
    Next(out, items, 10);
    Next(out, items, 11);
    BudgetConfigFromMaxInputCallsPuts(out, v);
  }

  lemma BudgetConfigFromMaxSourceCountPuts(out: Out, v: BudgetConfig)
    requires Fits(BudgetConfigItem(v))
    ensures var items := BudgetConfigItem(v).items;
            match Begun(out, items, 6)
            case Err(e) => Put(out, Encoding(BudgetConfigItem(v))) == Err(e)
            case Ok(o) => WriteBudgetConfigFromMaxSourceCount(o, v) == Put(out, Encoding(BudgetConfigItem(v)))
  {
    hide Put, Encoding, Encodings, Begun, ArrayHeader, TaggedOut, UintOut, TextOut, BytesOut, BooleanOut,
         WriteBudgetConfigFromMaxImportCount;
    var items := BudgetConfigItem(v).items;
    assert |items| == 21;
    PrimitivesPut();
    Next(out, items, 6);
    Next(out, items, 7);
    Next(out, items, 8);
    BudgetConfigFromMaxImportCountPuts(out, v);
  }

  lemma BudgetConfigFromMaxStringAllocationsPuts(out: Out, v: BudgetConfig)
    requires Fits(BudgetConfigItem(v))
    ensures var items := BudgetConfigItem(v).items;
            match Begun(out, items, 3)
            case Err(e) => Put(out, Encoding(BudgetConfigItem(v))) == Err(e)
            case Ok(o) => WriteBudgetConfigFromMaxStringAllocations(o, v) == Put(out, Encoding(BudgetConfigItem(v)))
  {
    hide Put, Encoding, Encodings, Begun, ArrayHeader, TaggedOut, UintOut, TextOut, BytesOut, BooleanOut,
         WriteBudgetConfigFromMaxSourceCount;
    var items := BudgetConfigItem(v).items;
    assert |items| == 21;
    PrimitivesPut();
    Next(out, items, 3);
    Next(out, items, 4);
    Next(out, items, 5);
    BudgetConfigFromMaxSourceCountPuts(out, v);
  }

  lemma BudgetConfigPuts(out: Out, v: BudgetConfig)
    requires Fits(BudgetConfigItem(v))
    ensures WriteBudgetConfig(out, v) == Put(out, Encoding(BudgetConfigItem(v)))
  {
    hide Put, Encoding, Encodings, Begun, ArrayHeader, TaggedOut, UintOut, TextOut, BytesOut, BooleanOut,
         WriteBudgetConfigFromMaxStringAllocations;
    var items := BudgetConfigItem(v).items;
    assert |items| == 21;
    PrimitivesPut();
    Opened(out, items);
    Next(out, items, 0);
    Next(out, items, 1);
    Next(out, items, 2);
    BudgetConfigFromMaxStringAllocationsPuts(out, v);
  }

  function WriteBudgetCounters(out: Out, v: BudgetCounters): Result<Out> {
    var o :- ArrayHeader(out, 15);
    var o :- UintOut(o, v.fuel);
    var o :- UintOut(o, v.stringAllocations);
    var o :- UintOut(o, v.stringBytes);
    WriteBudgetCountersFromSourceCount(o, v)
  }

  /** The fields from `sourceCount` on. */
  function WriteBudgetCountersFromSourceCount(out: Out, v: BudgetCounters): Result<Out> {
    var o :- UintOut(out, v.sourceCount);
    var o :- UintOut(o, v.sourceBytes);
    var o :- UintOut(o, v.importCount);
    WriteBudgetCountersFromImportBytes(o, v)
  }

  /** The fields from `importBytes` on. */
  function WriteBudgetCountersFromImportBytes(out: Out, v: BudgetCounters): Result<Out> {
    var o :- UintOut(out, v.importBytes);
    var o :- UintOut(o, v.inputCalls);
    var o :- UintOut(o, v.inputBytes);
    WriteBudgetCountersFromOutputCalls(o, v)
  }

  /** The fields from `outputCalls` on. */
  function WriteBudgetCountersFromOutputCalls(out: Out, v: BudgetCounters): Result<Out> {
    var o :- UintOut(out, v.outputCalls);
    var o :- UintOut(o, v.outputBytes);
    var o :- UintOut(o, v.hostCalls);
    WriteBudgetCountersFromHostRequestBytes(o, v)
  }

  /** The fields from `hostRequestBytes` on. */
  function WriteBudgetCountersFromHostRequestBytes(out: Out, v: BudgetCounters): Result<Out> {
    var o :- UintOut(out, v.hostRequestBytes);
    var o :- UintOut(o, v.hostResponseBytes);
    UintOut(o, v.hostCallBytes)
  }

  lemma BudgetCountersFromHostRequestBytesPuts(out: Out, v: BudgetCounters)
    requires Fits(BudgetCountersItem(v))
    ensures var items := BudgetCountersItem(v).items;
            match Begun(out, items, 12)
            case Err(e) => Put(out, Encoding(BudgetCountersItem(v))) == Err(e)
            case Ok(o) => WriteBudgetCountersFromHostRequestBytes(o, v) == Put(out, Encoding(BudgetCountersItem(v)))
  {
    hide Put, Encoding, Encodings, Begun, ArrayHeader, TaggedOut, UintOut, TextOut, BytesOut, BooleanOut;
    var items := BudgetCountersItem(v).items;
    assert |items| == 15;
    PrimitivesPut();
    Next(out, items, 12);
    Next(out, items, 13);
    Next(out, items, 14);
    Closed(out, items);
  }

  lemma BudgetCountersFromOutputCallsPuts(out: Out, v: BudgetCounters)
    requires Fits(BudgetCountersItem(v))
    ensures var items := BudgetCountersItem(v).items;
            match Begun(out, items, 9)
            case Err(e) => Put(out, Encoding(BudgetCountersItem(v))) == Err(e)
            case Ok(o) => WriteBudgetCountersFromOutputCalls(o, v) == Put(out, Encoding(BudgetCountersItem(v)))
  {
    hide Put, Encoding, Encodings, Begun, ArrayHeader, TaggedOut, UintOut, TextOut, BytesOut, BooleanOut,
         WriteBudgetCountersFromHostRequestBytes;
    var items := BudgetCountersItem(v).items;
    assert |items| == 15;
    PrimitivesPut();
    Next(out, items, 9);
    Next(out, items, 10);
    Next(out, items, 11);
    BudgetCountersFromHostRequestBytesPuts(out, v);
  }

  lemma BudgetCountersFromImportBytesPuts(out: Out, v: BudgetCounters)
    requires Fits(BudgetCountersItem(v))
    ensures var items := BudgetCountersItem(v).items;
            match Begun(out, items, 6)
            case Err(e) => Put(out, Encoding(BudgetCountersItem(v))) == Err(e)
            case Ok(o) => WriteBudgetCountersFromImportBytes(o, v) == Put(out, Encoding(BudgetCountersItem(v)))
  {
    hide Put, Encoding, Encodings, Begun, ArrayHeader, TaggedOut, UintOut, TextOut, BytesOut, BooleanOut,
         WriteBudgetCountersFromOutputCalls;
    var items := BudgetCountersItem(v).items;
    assert |items| == 15;
    PrimitivesPut();
    Next(out, items, 6);
    Next(out, items, 7);
    Next(out, items, 8);
    BudgetCountersFromOutputCallsPuts(out, v);
  }

  lemma BudgetCountersFromSourceCountPuts(out: Out, v: BudgetCounters)
    requires Fits(BudgetCountersItem(v))
    ensures var items := BudgetCountersItem(v).items;
            match Begun(out, items, 3)
            case Err(e) => Put(out, Encoding(BudgetCountersItem(v))) == Err(e)
            case Ok(o) => WriteBudgetCountersFromSourceCount(o, v) == Put(out, Encoding(BudgetCountersItem(v)))
  {
    hide Put, Encoding, Encodings, Begun, ArrayHeader, TaggedOut, UintOut, TextOut, BytesOut, BooleanOut,
         WriteBudgetCountersFromImportBytes;
    var items := BudgetCountersItem(v).items;
    assert |items| == 15;
    PrimitivesPut();
    Next(out, items, 3);
    Next(out, items, 4);
    Next(out, items, 5);
    BudgetCountersFromImportBytesPuts(out, v);
  }

  lemma BudgetCountersPuts(out: Out, v: BudgetCounters)
    requires Fits(BudgetCountersItem(v))
    ensures WriteBudgetCounters(out, v) == Put(out, Encoding(BudgetCountersItem(v)))
  {
    hide Put, Encoding, Encodings, Begun, ArrayHeader, TaggedOut, UintOut, TextOut, BytesOut, BooleanOut,
         WriteBudgetCountersFromSourceCount;
    var items := BudgetCountersItem(v).items;
    assert |items| == 15;
    PrimitivesPut();
    Opened(out, items);
    Next(out, items, 0);
    Next(out, items, 1);
    Next(out, items, 2);
    BudgetCountersFromSourceCountPuts(out, v);
  }

  function WriteBudgetPeaks(out: Out, v: BudgetPeaks): Result<Out> {
    var o :- ArrayHeader(out, 3);
    var o :- UintOut(o, v.singleStringBytes);
    var o :- UintOut(o, v.singleSourceBytes);
    UintOut(o, v.collectionElements)
  }

  lemma BudgetPeaksPuts(out: Out, v: BudgetPeaks)
    requires Fits(BudgetPeaksItem(v))
    ensures WriteBudgetPeaks(out, v) == Put(out, Encoding(BudgetPeaksItem(v)))
  {
    hide Put, Encoding, Encodings, Begun, ArrayHeader, TaggedOut, UintOut, TextOut, BytesOut, BooleanOut;
    var items := BudgetPeaksItem(v).items;
    assert |items| == 3;
    PrimitivesPut();
    Opened(out, items);
    Next(out, items, 0);
    Next(out, items, 1);
    Next(out, items, 2);
    Closed(out, items);
  }

  function WriteBudgetUsage(out: Out, v: BudgetUsage): Result<Out> {
    var o :- ArrayHeader(out, 6);
    var o :- WriteBudgetCounters(o, v.committed);
    var o :- WriteBudgetCounters(o, v.reserved);
    var o :- UintOut(o, v.liveHeapBytes);
    var o :- UintOut(o, v.reservedHeapBytes);
    var o :- UintOut(o, v.peakHeapBytes);
    WriteBudgetPeaks(o, v.peaks)
  }

  lemma BudgetUsagePuts(out: Out, v: BudgetUsage)
    requires Fits(BudgetUsageItem(v))
    ensures WriteBudgetUsage(out, v) == Put(out, Encoding(BudgetUsageItem(v)))
  {
    hide Put, Encoding, Encodings, Begun, ArrayHeader, TaggedOut, UintOut, TextOut, BytesOut, BooleanOut,
         WriteBudgetCounters, BudgetCountersItem, WriteBudgetPeaks, BudgetPeaksItem;
    var items := BudgetUsageItem(v).items;
    assert |items| == 6;
    assert Fits(items[0]);
    assert Fits(items[1]);
    assert Fits(items[5]);
    PrimitivesPut();
    Opened(out, items);
    forall o: Out
      ensures WriteBudgetCounters(o, v.committed) == Put(o, Encoding(items[0]))
    {
      BudgetCountersPuts(o, v.committed);
    }
    Next(out, items, 0);
    forall o: Out
      ensures WriteBudgetCounters(o, v.reserved) == Put(o, Encoding(items[1]))
    {
      BudgetCountersPuts(o, v.reserved);
    }
    Next(out, items, 1);
    Next(out, items, 2);
    Next(out, items, 3);
    Next(out, items, 4);
    forall o: Out
      ensures WriteBudgetPeaks(o, v.peaks) == Put(o, Encoding(items[5]))
    {
      BudgetPeaksPuts(o, v.peaks);
    }
    Next(out, items, 5);
    Closed(out, items);
  }

  function WriteAuditFrame(out: Out, v: AuditFrame): Result<Out> {
    var o :- ArrayHeader(out, 3);
    var o :- TextOut(o, v.function_);
    var o :- TextOut(o, v.moduleId);
    UintOut(o, v.line)
  }

  lemma AuditFramePuts(out: Out, v: AuditFrame)
    requires Fits(AuditFrameItem(v))
    ensures WriteAuditFrame(out, v) == Put(out, Encoding(AuditFrameItem(v)))
  {
    hide Put, Encoding, Encodings, Begun, ArrayHeader, TaggedOut, UintOut, TextOut, BytesOut, BooleanOut;
    var items := AuditFrameItem(v).items;
    assert |items| == 3;
    assert Fits(items[0]);
    assert Fits(items[1]);
    PrimitivesPut();
    Opened(out, items);
    Next(out, items, 0);
    Next(out, items, 1);
    Next(out, items, 2);
    Closed(out, items);
  }

  /** A list: its length, then the elements. */
  function WriteFrames(out: Out, fs: seq<AuditFrame>): Result<Out> {
    var o :- ArrayHeader(out, |fs|);
    WriteEachFrame(o, fs)
  }

  function WriteEachFrame(out: Out, fs: seq<AuditFrame>): Result<Out>
    decreases |fs|
  {
    if fs == [] then Ok(out)
    else
      var o :- WriteAuditFrame(out, fs[0]);
      WriteEachFrame(o, fs[1..])
  }

  lemma NothingPut(out: Out)
    ensures Put(out, []) == Ok(out) && Encodings([]) == []
  {
    if out.VecOut? {
      assert out.buf + [] == out.buf;
    }
  }

  lemma {:induction false} EachFramePuts(out: Out, fs: seq<AuditFrame>)
    requires forall j :: 0 <= j < |fs| ==> Fits(FrameItems(fs)[j])
    ensures WriteEachFrame(out, fs) == Put(out, Encodings(FrameItems(fs)))
    decreases |fs|
  {
    hide Put, Encoding, WriteAuditFrame, AuditFrameItem;
    NothingPut(out);
    if fs != [] {
      assert Fits(FrameItems(fs)[0]);
      assert FrameItems(fs)[1..] == FrameItems(fs[1..]);
      forall j | 0 <= j < |fs| - 1
        ensures Fits(FrameItems(fs[1..])[j])
      {
        assert Fits(FrameItems(fs)[j + 1]);
      }
      AuditFramePuts(out, fs[0]);
      PutTwice(out, Encoding(FrameItems(fs)[0]), Encodings(FrameItems(fs[1..])));
      var r := WriteAuditFrame(out, fs[0]);
      if r.Ok? {
        EachFramePuts(r.value, fs[1..]);
      }
    }
  }

  lemma FramesPut(out: Out, fs: seq<AuditFrame>)
    requires Fits(Array(FrameItems(fs)))
    ensures WriteFrames(out, fs) == Put(out, Encoding(Array(FrameItems(fs))))
  {
    hide Put, HeadBytes, WriteEachFrame, Encodings, FrameItems;
    var r := ArrayHeader(out, |fs|);
    PutTwice(out, HeadBytes(4, |fs|), Encodings(FrameItems(fs)));
    if r.Ok? {
      EachFramePuts(r.value, fs);
    }
  }

  function WriteAuditError(out: Out, v: AuditError): Result<Out> {
    var o :- ArrayHeader(out, 7);
    var o :- TextOut(o, v.code);
    var o :- TextOut(o, v.messageId);
    var o :- WriteOption(o, v.moduleId, TextOut);
    var o :- WriteOption(o, v.line, (o: Out, n: U32) => UintOut(o, n));
    var o :- WriteOption(o, v.column, (o: Out, n: U32) => UintOut(o, n));
    var o :- WriteFrames(o, v.trace);
    UintOut(o, v.omittedTraceFrames)
  }

  lemma AuditErrorPuts(out: Out, v: AuditError)
    requires Fits(AuditErrorItem(v))
    ensures WriteAuditError(out, v) == Put(out, Encoding(AuditErrorItem(v)))
  {
    hide Put, Encoding, Encodings, Begun, ArrayHeader, TaggedOut, UintOut, TextOut, BytesOut, BooleanOut, WriteOption,
         OptionItem, WriteFrames, FrameItems;
    var items := AuditErrorItem(v).items;
    assert |items| == 7;
    assert Fits(items[0]);
    assert Fits(items[1]);
    assert Fits(items[2]);
    assert Fits(items[3]);
    assert Fits(items[4]);
    assert Fits(items[5]);
    PrimitivesPut();
    Opened(out, items);
    Next(out, items, 0);
    Next(out, items, 1);
    forall o: Out
      ensures WriteOption(o, v.moduleId, TextOut) == Put(o, Encoding(items[2]))
    {
      OptionTextPuts(o, v.moduleId);
    }
    Next(out, items, 2);
    forall o: Out
      ensures WriteOption(o, v.line, (o: Out, n: U32) => UintOut(o, n)) == Put(o, Encoding(items[3]))
    {
      OptionU32Puts(o, v.line);
    }
    Next(out, items, 3);
    forall o: Out
      ensures WriteOption(o, v.column, (o: Out, n: U32) => UintOut(o, n)) == Put(o, Encoding(items[4]))
    {
      OptionU32Puts(o, v.column);
    }
    Next(out, items, 4);
    forall o: Out
      ensures WriteFrames(o, v.trace) == Put(o, Encoding(items[5]))
    {
      FramesPut(o, v.trace);
    }
    Next(out, items, 5);
    Next(out, items, 6);
    Closed(out, items);
  }

  // ----- Variants: the number of fields and the tag, then each field -----

  function WriteAuditYieldReason(out: Out, v: AuditYieldReason): Result<Out> {
    match v
    case AdmissionQueued(resumeTo) =>
      var o :- TaggedOut(out, 0, 1);
      WriteAdmissionPhase(o, resumeTo)
    case SliceFuelExhausted => TaggedOut(out, 1, 0)
    case ExplicitYield => TaggedOut(out, 2, 0)
    case HostCallPending(callId) =>
      var o :- TaggedOut(out, 3, 1);
      UintOut(o, callId)
    case AuditBackpressure => TaggedOut(out, 4, 0)
    case SchedulerPreempted => TaggedOut(out, 5, 0)
    case HostPaused => TaggedOut(out, 6, 0)
  }

  lemma AdmissionQueuedPuts(out: Out, v: AuditYieldReason)
    requires v.AdmissionQueued? && Fits(AuditYieldReasonItem(v))
    ensures WriteAuditYieldReason(out, v) == Put(out, Encoding(AuditYieldReasonItem(v)))
  {
    hide Put, Encoding, Encodings, Begun, ArrayHeader, TaggedOut, UintOut, TextOut, BytesOut, BooleanOut;
    var items := AuditYieldReasonItem(v).items;
    var fields := items[1..];
    assert items == [UInt(0)] + fields && |fields| == 1;
    PrimitivesPut();
    OpenedTagged(out, 0, fields);
    Next(out, items, 1);
    Closed(out, items);
  }

  lemma HostCallPendingPuts(out: Out, v: AuditYieldReason)
    requires v.HostCallPending? && Fits(AuditYieldReasonItem(v))
    ensures WriteAuditYieldReason(out, v) == Put(out, Encoding(AuditYieldReasonItem(v)))
  {
    hide Put, Encoding, Encodings, Begun, ArrayHeader, TaggedOut, UintOut, TextOut, BytesOut, BooleanOut;
    var items := AuditYieldReasonItem(v).items;
    var fields := items[1..];
    assert items == [UInt(3)] + fields && |fields| == 1;
    PrimitivesPut();
    OpenedTagged(out, 3, fields);
    Next(out, items, 1);
    Closed(out, items);
  }

  lemma AuditYieldReasonPuts(out: Out, v: AuditYieldReason)
    requires Fits(AuditYieldReasonItem(v))
    ensures WriteAuditYieldReason(out, v) == Put(out, Encoding(AuditYieldReasonItem(v)))
  {
    hide Put, Encoding, TaggedOut;
    match v {
      case AdmissionQueued(_) => AdmissionQueuedPuts(out, v);
      case HostCallPending(_) => HostCallPendingPuts(out, v);
      case SliceFuelExhausted => TagAlone(out, 1);
      case ExplicitYield => TagAlone(out, 2);
      case AuditBackpressure => TagAlone(out, 4);
      case SchedulerPreempted => TagAlone(out, 5);
      case HostPaused => TagAlone(out, 6);
    }
  }

  function WriteTerminalOutcome(out: Out, v: TerminalOutcome): Result<Out> {
    match v
    case Completed => TaggedOut(out, 0, 0)
    case Exited(code) =>
      var o :- TaggedOut(out, 1, 1);
      UintOut(o, code)
    case DeniedOutcome => TaggedOut(out, 2, 0)
    case LinkError => TaggedOut(out, 3, 0)
    case RuntimeError => TaggedOut(out, 4, 0)
    case HostErrorOutcome => TaggedOut(out, 5, 0)
    case BudgetExceeded(resource) =>
      var o :- TaggedOut(out, 6, 1);
      WriteBudgetResource(o, resource)
    case DeadlineExceeded => TaggedOut(out, 7, 0)
    case CancelledOutcome => TaggedOut(out, 8, 0)
    case AuditFailure => TaggedOut(out, 9, 0)
    case InternalFailure => TaggedOut(out, 10, 0)
    case RecordFailure => TaggedOut(out, 11, 0)
    case ReplayMismatch => TaggedOut(out, 12, 0)
  }

  lemma ExitedPuts(out: Out, v: TerminalOutcome)
    requires v.Exited? && Fits(TerminalOutcomeItem(v))
    ensures WriteTerminalOutcome(out, v) == Put(out, Encoding(TerminalOutcomeItem(v)))
  {
    hide Put, Encoding, Encodings, Begun, ArrayHeader, TaggedOut, UintOut, TextOut, BytesOut, BooleanOut;
    var items := TerminalOutcomeItem(v).items;
    var fields := items[1..];
    assert items == [UInt(1)] + fields && |fields| == 1;
    PrimitivesPut();
    OpenedTagged(out, 1, fields);
    Next(out, items, 1);
    Closed(out, items);
  }

  lemma BudgetExceededPuts(out: Out, v: TerminalOutcome)
    requires v.BudgetExceeded? && Fits(TerminalOutcomeItem(v))
    ensures WriteTerminalOutcome(out, v) == Put(out, Encoding(TerminalOutcomeItem(v)))
  {
    hide Put, Encoding, Encodings, Begun, ArrayHeader, TaggedOut, UintOut, TextOut, BytesOut, BooleanOut;
    var items := TerminalOutcomeItem(v).items;
    var fields := items[1..];
    assert items == [UInt(6)] + fields && |fields| == 1;
    PrimitivesPut();
    OpenedTagged(out, 6, fields);
    Next(out, items, 1);
    Closed(out, items);
  }

  lemma TerminalOutcomePuts(out: Out, v: TerminalOutcome)
    requires Fits(TerminalOutcomeItem(v))
    ensures WriteTerminalOutcome(out, v) == Put(out, Encoding(TerminalOutcomeItem(v)))
  {
    hide Put, Encoding, TaggedOut;
    match v {
      case Exited(_) => ExitedPuts(out, v);
      case BudgetExceeded(_) => BudgetExceededPuts(out, v);
      case Completed => TagAlone(out, 0);
      case DeniedOutcome => TagAlone(out, 2);
      case LinkError => TagAlone(out, 3);
      case RuntimeError => TagAlone(out, 4);
      case HostErrorOutcome => TagAlone(out, 5);
      case DeadlineExceeded => TagAlone(out, 7);
      case CancelledOutcome => TagAlone(out, 8);
      case AuditFailure => TagAlone(out, 9);
      case InternalFailure => TagAlone(out, 10);
      case RecordFailure => TagAlone(out, 11);
      case ReplayMismatch => TagAlone(out, 12);
    }
  }

  function WriteAuditErrorPayload(out: Out, v: AuditErrorPayload): Result<Out> {
    match v
    case Full(error) =>
      var o :- TaggedOut(out, 0, 1);
      WriteAuditError(o, error)
    case Emergency(code, messageId, fullErrorBytes, fullErrorSha256) =>
      var o :- TaggedOut(out, 1, 4);
      var o :- TextOut(o, code);
      var o :- TextOut(o, messageId);
      var o :- UintOut(o, fullErrorBytes);
      BytesOut(o, fullErrorSha256)
  }

  lemma AuditErrorPayloadFullPuts(out: Out, v: AuditErrorPayload)
    requires v.Full? && Fits(AuditErrorPayloadItem(v))
    ensures WriteAuditErrorPayload(out, v) == Put(out, Encoding(AuditErrorPayloadItem(v)))
  {
    hide Put, Encoding, Encodings, Begun, ArrayHeader, TaggedOut, UintOut, TextOut, BytesOut, BooleanOut,
         WriteAuditError, AuditErrorItem;
    var items := AuditErrorPayloadItem(v).items;
    var fields := items[1..];
    assert items == [UInt(0)] + fields && |fields| == 1;
    assert Fits(items[1]);
    PrimitivesPut();
    OpenedTagged(out, 0, fields);
    forall o: Out
      ensures WriteAuditError(o, v.error) == Put(o, Encoding(items[1]))
    {
      AuditErrorPuts(o, v.error);
    }
    Next(out, items, 1);
    Closed(out, items);
  }

  lemma AuditErrorPayloadEmergencyPuts(out: Out, v: AuditErrorPayload)
    requires v.Emergency? && Fits(AuditErrorPayloadItem(v))
    ensures WriteAuditErrorPayload(out, v) == Put(out, Encoding(AuditErrorPayloadItem(v)))
  {
    hide Put, Encoding, Encodings, Begun, ArrayHeader, TaggedOut, UintOut, TextOut, BytesOut, BooleanOut;
    var items := AuditErrorPayloadItem(v).items;
    var fields := items[1..];
    assert items == [UInt(1)] + fields && |fields| == 4;
    assert Fits(items[1]);
    assert Fits(items[2]);
    PrimitivesPut();
    OpenedTagged(out, 1, fields);
    Next(out, items, 1);
    Next(out, items, 2);
    Next(out, items, 3);
    Next(out, items, 4);
    Closed(out, items);
  }

  lemma AuditErrorPayloadPuts(out: Out, v: AuditErrorPayload)
    requires Fits(AuditErrorPayloadItem(v))
    ensures WriteAuditErrorPayload(out, v) == Put(out, Encoding(AuditErrorPayloadItem(v)))
  {
    hide Put, Encoding, TaggedOut;
    match v {
      case Full(_) => AuditErrorPayloadFullPuts(out, v);
      case Emergency(_, _, _, _) => AuditErrorPayloadEmergencyPuts(out, v);
    }
  }

  lemma OptionPayloadPuts(out: Out, v: Option<AuditErrorPayload>)
    requires Fits(OptionItem(v, (v: AuditErrorPayload) => AuditErrorPayloadItem(v)))
    ensures WriteOption(out, v, WriteAuditErrorPayload) ==
            Put(out, Encoding(OptionItem(v, (v: AuditErrorPayload) => AuditErrorPayloadItem(v))))
  {
    hide Put, Encoding, WriteAuditErrorPayload, AuditErrorPayloadItem;
    if v.Some? {
      assert OptionItem(v, (v: AuditErrorPayload) => AuditErrorPayloadItem(v)).items[1] == AuditErrorPayloadItem(v.value);
      forall o: Out
        ensures WriteAuditErrorPayload(o, v.value) == Put(o, Encoding(AuditErrorPayloadItem(v.value)))
      {
        AuditErrorPayloadPuts(o, v.value);
      }
    }
    OptionPuts(out, v, WriteAuditErrorPayload, (v: AuditErrorPayload) => AuditErrorPayloadItem(v));
  }

  // ----- Redacted payloads -----

  function WriteAuditScalar(out: Out, v: AuditScalar): Result<Out> {
    match v
    case NullScalar => TaggedOut(out, 0, 0)
    case BoolScalar(b) =>
      var o :- TaggedOut(out, 1, 1);
      BooleanOut(o, b)
    case IntScalar(n) =>
      var o :- TaggedOut(out, 2, 1);
      IntOut(o, n)
    case FloatScalar(bits) =>
      var o :- TaggedOut(out, 3, 1);
      BytesOut(o, BigEndian(bits, 8))
    case Utf8Scalar(s) =>
      var o :- TaggedOut(out, 4, 1);
      TextOut(o, s)
    case BytesScalar(bs) =>
      var o :- TaggedOut(out, 5, 1);
      BytesOut(o, bs)
  }

  lemma AuditScalarPuts(out: Out, v: AuditScalar)
    requires Fits(AuditScalarItem(v))
    ensures WriteAuditScalar(out, v) == Put(out, Encoding(AuditScalarItem(v)))
  {
    hide Put, Encoding, Encodings, Begun, TaggedOut, UintOut, IntOut, TextOut, BytesOut, BooleanOut, BigEndian;
    PrimitivesPut();
    if !v.NullScalar? {
      var items := AuditScalarItem(v).items;
      var fields := items[1..];
      assert |fields| == 1 && items == [items[0]] + fields && Fits(items[1]);
      OpenedTagged(out, items[0].n, fields);
      Next(out, items, 1);
      Closed(out, items);
    }
  }

  function WriteAuditValue(out: Out, v: AuditValue): Result<Out>
    decreases v, 0
  {
    match v
    case ScalarValue(s) =>
      var o :- TaggedOut(out, 0, 1);
      WriteAuditScalar(o, s)
    case Sequence(fs) =>
      var o :- TaggedOut(out, 1, 1);
      var o :- ArrayHeader(o, |fs|);
      WriteEachField(o, fs)
    case Object(es) =>
      var o :- TaggedOut(out, 2, 1);
      var o :- ArrayHeader(o, |es|);
      WriteEachEntry(o, es)
  }

  function WriteEachField(out: Out, fs: seq<AuditField>): Result<Out>
    decreases fs, 1
  {
    if fs == [] then Ok(out)
    else
      var o :- WriteAuditField(out, fs[0]);
      WriteEachField(o, fs[1..])
  }

  /** A map: for each entry an array of the key and the value. */
  function WriteEachEntry(out: Out, es: seq<Entry>): Result<Out>
    decreases es, 2
  {
    if es == [] then Ok(out)
    else
      var o :- WriteEntry(out, es[0]);
      WriteEachEntry(o, es[1..])
  }

  function WriteEntry(out: Out, e: Entry): Result<Out>
    decreases e, 1
  {
    var o :- ArrayHeader(out, 2);
    var o :- TextOut(o, e.key);
    WriteAuditField(o, e.field)
  }

  function WriteAuditField(out: Out, f: AuditField): Result<Out>
    decreases f, 0
  {
    match f
    case Revealed(class_, value, originalBytes) =>
      var o :- TaggedOut(out, 0, 3);
      var o :- WriteAuditFieldClass(o, class_);
      var o :- WriteAuditValue(o, value);
      UintOut(o, originalBytes)
    case HmacSha256(class_, digest, originalBytes) =>
      var o :- TaggedOut(out, 1, 3);
      var o :- WriteAuditFieldClass(o, class_);
      var o :- BytesOut(o, digest);
      UintOut(o, originalBytes)
    case Omitted(class_, originalBytes) =>
      var o :- TaggedOut(out, 2, 2);
      var o :- WriteAuditFieldClass(o, class_);
      UintOut(o, originalBytes)
  }

  function EntryItem(e: Entry): Item { Array([Text(e.key), AuditFieldItem(e.field)]) }

  lemma {:induction false} ItemCounts(fs: seq<AuditField>, es: seq<Entry>)
    ensures |FieldItems(fs)| == |fs| && |EntryItems(es)| == |es|
    decreases |fs| + |es|
  {
    hide AuditFieldItem;
    if fs != [] {
      ItemCounts(fs[1..], es);
    } else if es != [] {
      ItemCounts(fs, es[1..]);
    }
  }

  lemma {:induction false} EachFieldPuts(out: Out, fs: seq<AuditField>)
    requires forall j :: 0 <= j < |FieldItems(fs)| ==> Fits(FieldItems(fs)[j])
    ensures WriteEachField(out, fs) == Put(out, Encodings(FieldItems(fs)))
    decreases fs, 1
  {
    hide Put, Encoding, WriteAuditField, AuditFieldItem;
    NothingPut(out);
    if fs != [] {
      var items := FieldItems(fs);
      assert items[0] == AuditFieldItem(fs[0]) && items[1..] == FieldItems(fs[1..]);
      assert Fits(items[0]) && forall j :: 0 <= j < |items| - 1 ==> items[1..][j] == items[j + 1];
      AuditFieldPuts(out, fs[0]);
      PutTwice(out, Encoding(items[0]), Encodings(items[1..]));
      var r := WriteAuditField(out, fs[0]);
      if r.Ok? {
        EachFieldPuts(r.value, fs[1..]);
      }
    }
  }

  lemma {:induction false} EachEntryPuts(out: Out, es: seq<Entry>)
    requires forall j :: 0 <= j < |EntryItems(es)| ==> Fits(EntryItems(es)[j])
    ensures WriteEachEntry(out, es) == Put(out, Encodings(EntryItems(es)))
    decreases es, 2
  {
    hide Put, Encoding, WriteEntry, AuditFieldItem;
    NothingPut(out);
    if es != [] {
      var items := EntryItems(es);
      assert items[0] == EntryItem(es[0]) && items[1..] == EntryItems(es[1..]);
      assert Fits(items[0]) && forall j :: 0 <= j < |items| - 1 ==> items[1..][j] == items[j + 1];
      EntryPuts(out, es[0]);
      PutTwice(out, Encoding(items[0]), Encodings(items[1..]));
      var r := WriteEntry(out, es[0]);
      if r.Ok? {
        EachEntryPuts(r.value, es[1..]);
      }
    }
  }

  lemma {:induction false} EntryPuts(out: Out, e: Entry)
    requires Fits(EntryItem(e))
    ensures WriteEntry(out, e) == Put(out, Encoding(EntryItem(e)))
    decreases e, 1
  {
    hide Put, Encoding, Encodings, Begun, ArrayHeader, TextOut, WriteAuditField, AuditFieldItem;
    var items := EntryItem(e).items;
    assert |items| == 2 && Fits(items[0]) && Fits(items[1]);
    PrimitivesPut();
    Opened(out, items);
    Next(out, items, 0);
    forall o: Out
      ensures WriteAuditField(o, e.field) == Put(o, Encoding(items[1]))
    {
      AuditFieldPuts(o, e.field);
    }
    Next(out, items, 1);
    Closed(out, items);
  }

  lemma {:induction false} AuditFieldPuts(out: Out, v: AuditField)
    requires Fits(AuditFieldItem(v))
    ensures WriteAuditField(out, v) == Put(out, Encoding(AuditFieldItem(v)))
    decreases v, 0
  {
    hide Put, Encoding, Encodings, Begun, ArrayHeader, TaggedOut, UintOut, BytesOut, WriteAuditValue, AuditValueItem;
    var items := AuditFieldItem(v).items;
    var fields := items[1..];
    assert items == [items[0]] + fields && Fits(items[2]);
    PrimitivesPut();
    OpenedTagged(out, items[0].n, fields);
    Next(out, items, 1);
    if v.Revealed? {
      forall o: Out
        ensures WriteAuditValue(o, v.value) == Put(o, Encoding(items[2]))
      {
        AuditValuePuts(o, v.value);
      }
    }
    Next(out, items, 2);
    if !v.Omitted? {
      Next(out, items, 3);
    }
    Closed(out, items);
  }

  lemma {:induction false} AuditValuePuts(out: Out, v: AuditValue)
    requires Fits(AuditValueItem(v))
    ensures WriteAuditValue(out, v) == Put(out, Encoding(AuditValueItem(v)))
    decreases v, 0
  {
    hide Put, Encoding, Encodings, Begun, ArrayHeader, TaggedOut, WriteAuditScalar, AuditScalarItem,
         WriteEachField, WriteEachEntry, FieldItems, EntryItems;
    var items := AuditValueItem(v).items;
    var fields := items[1..];
    assert |fields| == 1 && items == [items[0]] + fields && Fits(items[1]);
    OpenedTagged(out, items[0].n, fields);
    Next(out, items, 1);
    Closed(out, items);
    var r := Begun(out, items, 1);
    if r.Ok? {
      match v {
        case ScalarValue(s) => AuditScalarPuts(r.value, s);
        case Sequence(fs) => FieldListPuts(r.value, fs);
        case Object(es) => EntryListPuts(r.value, es);
      }
    }
  }

  lemma {:induction false} FieldListPuts(out: Out, fs: seq<AuditField>)
    requires Fits(Array(FieldItems(fs)))
    ensures (match ArrayHeader(out, |fs|) case Err(e) => Err(e) case Ok(o) => WriteEachField(o, fs)) ==
            Put(out, Encoding(Array(FieldItems(fs))))
    decreases fs, 2
  {
    hide Put, HeadBytes, WriteEachField, Encodings, FieldItems;
    ItemCounts(fs, []);
    var r := ArrayHeader(out, |fs|);
    PutTwice(out, HeadBytes(4, |fs|), Encodings(FieldItems(fs)));
    if r.Ok? {
      EachFieldPuts(r.value, fs);
    }
  }

  lemma {:induction false} EntryListPuts(out: Out, es: seq<Entry>)
    requires Fits(Array(EntryItems(es)))
    ensures (match ArrayHeader(out, |es|) case Err(e) => Err(e) case Ok(o) => WriteEachEntry(o, es)) ==
            Put(out, Encoding(Array(EntryItems(es))))
    decreases es, 3
  {
    hide Put, HeadBytes, WriteEachEntry, Encodings, EntryItems;
    ItemCounts([], es);
    var r := ArrayHeader(out, |es|);
    PutTwice(out, HeadBytes(4, |es|), Encodings(EntryItems(es)));
    if r.Ok? {
      EachEntryPuts(r.value, es);
    }
  }

  function WriteAuditPayload(out: Out, v: AuditPayload): Result<Out> {
    var o :- ArrayHeader(out, 1);
    var o :- ArrayHeader(o, |v.fields|);
    WriteEachEntry(o, v.fields)
  }

  lemma AuditPayloadPuts(out: Out, v: AuditPayload)
    requires Fits(AuditPayloadItem(v))
    ensures WriteAuditPayload(out, v) == Put(out, Encoding(AuditPayloadItem(v)))
  {
    hide Put, Encoding, Encodings, Begun, ArrayHeader, WriteEachEntry, EntryItems;
    var items := AuditPayloadItem(v).items;
    assert |items| == 1 && Fits(items[0]);
    Opened(out, items);
    Next(out, items, 0);
    Closed(out, items);
    var r := Begun(out, items, 0);
    if r.Ok? {
      EntryListPuts(r.value, v.fields);
    }
  }

  // ----- Events and envelopes -----

  function WriteAuditEvent(out: Out, v: AuditEvent): Result<Out> {
    match v
    case ExecutionStarted(engineVersion, backend, rulesRevision, heapAccountingRevision, budget, capabilityPolicyHash, redactionPolicyId, mode) =>
      var o :- TaggedOut(out, 0, 8);
      var o :- TextOut(o, engineVersion);
      var o :- WriteBackend(o, backend);
      var o :- UintOut(o, rulesRevision);
      var o :- UintOut(o, heapAccountingRevision);
      var o :- WriteBudgetConfig(o, budget);
      var o :- BytesOut(o, capabilityPolicyHash);
      var o :- TextOut(o, redactionPolicyId);
      WriteExecutionMode(o, mode)
    case CapabilityDecision(operationId, callId, capability, action, resourcePayload, decision, ruleId) =>
      var o :- TaggedOut(out, 1, 7);
      var o :- UintOut(o, operationId);
      var o :- WriteOption(o, callId, (o: Out, n: U64) => UintOut(o, n));
      var o :- TextOut(o, capability);
      var o :- TextOut(o, action);
      var o :- WriteAuditPayload(o, resourcePayload);
      var o :- WriteCapabilityDecisionKind(o, decision);
      TextOut(o, ruleId)
    case HostCallStarted(operationId, startedCallId, function_, request, requestBytes) =>
      var o :- TaggedOut(out, 2, 5);
      var o :- UintOut(o, operationId);
      var o :- UintOut(o, startedCallId);
      var o :- TextOut(o, function_);
      var o :- WriteAuditPayload(o, request);
      UintOut(o, requestBytes)
    case HostCallFinished(operationId, startedCallId, outcome, response, responseBytes, errorCode, effectStatus) =>
      var o :- TaggedOut(out, 3, 7);
      var o :- UintOut(o, operationId);
      var o :- UintOut(o, startedCallId);
      var o :- WriteHostCallOutcome(o, outcome);
      var o :- WriteAuditPayload(o, response);
      var o :- UintOut(o, responseBytes);
      var o :- WriteOption(o, errorCode, TextOut);
      WriteEffectStatus(o, effectStatus)
    case BudgetCharged(resource, committedDelta, releasedDelta, usageAfter, peakAfter, chargeCount, reason) =>
      var o :- TaggedOut(out, 4, 7);
      var o :- WriteBudgetResource(o, resource);
      var o :- UintOut(o, committedDelta);
      var o :- UintOut(o, releasedDelta);
      var o :- UintOut(o, usageAfter);
      var o :- WriteOption(o, peakAfter, (o: Out, n: U64) => UintOut(o, n));
      var o :- UintOut(o, chargeCount);
      WriteBudgetChargeReason(o, reason)
    case Yielded(yieldReason, pollIndex, usage) =>
      var o :- TaggedOut(out, 5, 3);
      var o :- WriteAuditYieldReason(o, yieldReason);
      var o :- UintOut(o, pollIndex);
      WriteBudgetUsage(o, usage)
    case Resumed(yieldReason, pollIndex, usage) =>
      var o :- TaggedOut(out, 6, 3);
      var o :- WriteAuditYieldReason(o, yieldReason);
      var o :- UintOut(o, pollIndex);
      WriteBudgetUsage(o, usage)
    case Terminal(terminal, error, usage, importGraphHash, contextCommitted, hostEffectsMayRemain) =>
      var o :- TaggedOut(out, 7, 6);
      var o :- WriteTerminalOutcome(o, terminal);
      var o :- WriteOption(o, error, WriteAuditErrorPayload);
      var o :- WriteBudgetUsage(o, usage);
      var o :- WriteOption(o, importGraphHash, (o: Out, d: Digest) => BytesOut(o, d));
      var o :- BooleanOut(o, contextCommitted);
      BooleanOut(o, hostEffectsMayRemain)
  }

  lemma ExecutionStartedPuts(out: Out, v: AuditEvent)
    requires v.ExecutionStarted? && Fits(AuditEventItem(v))
    ensures WriteAuditEvent(out, v) == Put(out, Encoding(AuditEventItem(v)))
  {
    hide Put, Encoding, Encodings, Begun, ArrayHeader, TaggedOut, UintOut, TextOut, BytesOut, BooleanOut,
         WriteBudgetConfig, BudgetConfigItem;
    var items := AuditEventItem(v).items;
    var fields := items[1..];
    assert items == [UInt(0)] + fields && |fields| == 8;
    assert Fits(items[1]);
    assert Fits(items[5]);
    assert Fits(items[7]);
    PrimitivesPut();
    OpenedTagged(out, 0, fields);
    Next(out, items, 1);
    Next(out, items, 2);
    Next(out, items, 3);
    Next(out, items, 4);
    forall o: Out
      ensures WriteBudgetConfig(o, v.budget) == Put(o, Encoding(items[5]))
    {
      BudgetConfigPuts(o, v.budget);
    }
    Next(out, items, 5);
    Next(out, items, 6);
    Next(out, items, 7);
    Next(out, items, 8);
    Closed(out, items);
  }

  lemma CapabilityDecisionPuts(out: Out, v: AuditEvent)
    requires v.CapabilityDecision? && Fits(AuditEventItem(v))
    ensures WriteAuditEvent(out, v) == Put(out, Encoding(AuditEventItem(v)))
  {
    hide Put, Encoding, Encodings, Begun, ArrayHeader, TaggedOut, UintOut, TextOut, BytesOut, BooleanOut, WriteOption,
         OptionItem, WriteAuditPayload, AuditPayloadItem;
    var items := AuditEventItem(v).items;
    var fields := items[1..];
    assert items == [UInt(1)] + fields && |fields| == 7;
    assert Fits(items[2]);
    assert Fits(items[3]);
    assert Fits(items[4]);
    assert Fits(items[5]);
    assert Fits(items[7]);
    PrimitivesPut();
    OpenedTagged(out, 1, fields);
    Next(out, items, 1);
    forall o: Out
      ensures WriteOption(o, v.callId, (o: Out, n: U64) => UintOut(o, n)) == Put(o, Encoding(items[2]))
    {
      OptionU64Puts(o, v.callId);
    }
    Next(out, items, 2);
    Next(out, items, 3);
    Next(out, items, 4);
    forall o: Out
      ensures WriteAuditPayload(o, v.resourcePayload) == Put(o, Encoding(items[5]))
    {
      AuditPayloadPuts(o, v.resourcePayload);
    }
    Next(out, items, 5);
    Next(out, items, 6);
    Next(out, items, 7);
    Closed(out, items);
  }

  lemma HostCallStartedPuts(out: Out, v: AuditEvent)
    requires v.HostCallStarted? && Fits(AuditEventItem(v))
    ensures WriteAuditEvent(out, v) == Put(out, Encoding(AuditEventItem(v)))
  {
    hide Put, Encoding, Encodings, Begun, ArrayHeader, TaggedOut, UintOut, TextOut, BytesOut, BooleanOut,
         WriteAuditPayload, AuditPayloadItem;
    var items := AuditEventItem(v).items;
    var fields := items[1..];
    assert items == [UInt(2)] + fields && |fields| == 5;
    assert Fits(items[3]);
    assert Fits(items[4]);
    PrimitivesPut();
    OpenedTagged(out, 2, fields);
    Next(out, items, 1);
    Next(out, items, 2);
    Next(out, items, 3);
    forall o: Out
      ensures WriteAuditPayload(o, v.request) == Put(o, Encoding(items[4]))
    {
      AuditPayloadPuts(o, v.request);
    }
    Next(out, items, 4);
    Next(out, items, 5);
    Closed(out, items);
  }

  lemma HostCallFinishedPuts(out: Out, v: AuditEvent)
    requires v.HostCallFinished? && Fits(AuditEventItem(v))
    ensures WriteAuditEvent(out, v) == Put(out, Encoding(AuditEventItem(v)))
  {
    hide Put, Encoding, Encodings, Begun, ArrayHeader, TaggedOut, UintOut, TextOut, BytesOut, BooleanOut,
         WriteAuditPayload, AuditPayloadItem, WriteOption, OptionItem;
    var items := AuditEventItem(v).items;
    var fields := items[1..];
    assert items == [UInt(3)] + fields && |fields| == 7;
    assert Fits(items[4]);
    assert Fits(items[6]);
    PrimitivesPut();
    OpenedTagged(out, 3, fields);
    Next(out, items, 1);
    Next(out, items, 2);
    Next(out, items, 3);
    forall o: Out
      ensures WriteAuditPayload(o, v.response) == Put(o, Encoding(items[4]))
    {
      AuditPayloadPuts(o, v.response);
    }
    Next(out, items, 4);
    Next(out, items, 5);
    forall o: Out
      ensures WriteOption(o, v.errorCode, TextOut) == Put(o, Encoding(items[6]))
    {
      OptionTextPuts(o, v.errorCode);
    }
    Next(out, items, 6);
    Next(out, items, 7);
    Closed(out, items);
  }

  lemma BudgetChargedPuts(out: Out, v: AuditEvent)
    requires v.BudgetCharged? && Fits(AuditEventItem(v))
    ensures WriteAuditEvent(out, v) == Put(out, Encoding(AuditEventItem(v)))
  {
    hide Put, Encoding, Encodings, Begun, ArrayHeader, TaggedOut, UintOut, TextOut, BytesOut, BooleanOut, WriteOption,
         OptionItem;
    var items := AuditEventItem(v).items;
    var fields := items[1..];
    assert items == [UInt(4)] + fields && |fields| == 7;
    assert Fits(items[5]);
    PrimitivesPut();
    OpenedTagged(out, 4, fields);
    Next(out, items, 1);
    Next(out, items, 2);
    Next(out, items, 3);
    Next(out, items, 4);
    forall o: Out
      ensures WriteOption(o, v.peakAfter, (o: Out, n: U64) => UintOut(o, n)) == Put(o, Encoding(items[5]))
    {
      OptionU64Puts(o, v.peakAfter);
    }
    Next(out, items, 5);
    Next(out, items, 6);
    Next(out, items, 7);
    Closed(out, items);
  }

  lemma YieldedPuts(out: Out, v: AuditEvent)
    requires v.Yielded? && Fits(AuditEventItem(v))
    ensures WriteAuditEvent(out, v) == Put(out, Encoding(AuditEventItem(v)))
  {
    hide Put, Encoding, Encodings, Begun, ArrayHeader, TaggedOut, UintOut, TextOut, BytesOut, BooleanOut,
         WriteAuditYieldReason, AuditYieldReasonItem, WriteBudgetUsage, BudgetUsageItem;
    var items := AuditEventItem(v).items;
    var fields := items[1..];
    assert items == [UInt(5)] + fields && |fields| == 3;
    assert Fits(items[1]);
    assert Fits(items[3]);
    PrimitivesPut();
    OpenedTagged(out, 5, fields);
    forall o: Out
      ensures WriteAuditYieldReason(o, v.yieldReason) == Put(o, Encoding(items[1]))
    {
      AuditYieldReasonPuts(o, v.yieldReason);
    }
    Next(out, items, 1);
    Next(out, items, 2);
    forall o: Out
      ensures WriteBudgetUsage(o, v.usage) == Put(o, Encoding(items[3]))
    {
      BudgetUsagePuts(o, v.usage);
    }
    Next(out, items, 3);
    Closed(out, items);
  }

  lemma ResumedPuts(out: Out, v: AuditEvent)
    requires v.Resumed? && Fits(AuditEventItem(v))
    ensures WriteAuditEvent(out, v) == Put(out, Encoding(AuditEventItem(v)))
  {
    hide Put, Encoding, Encodings, Begun, ArrayHeader, TaggedOut, UintOut, TextOut, BytesOut, BooleanOut,
         WriteAuditYieldReason, AuditYieldReasonItem, WriteBudgetUsage, BudgetUsageItem;
    var items := AuditEventItem(v).items;
    var fields := items[1..];
    assert items == [UInt(6)] + fields && |fields| == 3;
    assert Fits(items[1]);
    assert Fits(items[3]);
    PrimitivesPut();
    OpenedTagged(out, 6, fields);
    forall o: Out
      ensures WriteAuditYieldReason(o, v.yieldReason) == Put(o, Encoding(items[1]))
    {
      AuditYieldReasonPuts(o, v.yieldReason);
    }
    Next(out, items, 1);
    Next(out, items, 2);
    forall o: Out
      ensures WriteBudgetUsage(o, v.usage) == Put(o, Encoding(items[3]))
    {
      BudgetUsagePuts(o, v.usage);
    }
    Next(out, items, 3);
    Closed(out, items);
  }

  lemma TerminalPuts(out: Out, v: AuditEvent)
    requires v.Terminal? && Fits(AuditEventItem(v))
    ensures WriteAuditEvent(out, v) == Put(out, Encoding(AuditEventItem(v)))
  {
    hide Put, Encoding, Encodings, Begun, ArrayHeader, TaggedOut, UintOut, TextOut, BytesOut, BooleanOut,
         WriteTerminalOutcome, TerminalOutcomeItem, WriteAuditErrorPayload, AuditErrorPayloadItem, WriteOption,
         OptionItem, WriteBudgetUsage, BudgetUsageItem;
    var items := AuditEventItem(v).items;
    var fields := items[1..];
    assert items == [UInt(7)] + fields && |fields| == 6;
    assert Fits(items[1]);
    assert Fits(items[2]);
    assert Fits(items[3]);
    assert Fits(items[4]);
    PrimitivesPut();
    OpenedTagged(out, 7, fields);
    forall o: Out
      ensures WriteTerminalOutcome(o, v.terminal) == Put(o, Encoding(items[1]))
    {
      TerminalOutcomePuts(o, v.terminal);
    }
    Next(out, items, 1);
    forall o: Out
      ensures WriteOption(o, v.error, WriteAuditErrorPayload) == Put(o, Encoding(items[2]))
    {
      OptionPayloadPuts(o, v.error);
    }
    Next(out, items, 2);
    forall o: Out
      ensures WriteBudgetUsage(o, v.usage) == Put(o, Encoding(items[3]))
    {
      BudgetUsagePuts(o, v.usage);
    }
    Next(out, items, 3);
    forall o: Out
      ensures WriteOption(o, v.importGraphHash, (o: Out, d: Digest) => BytesOut(o, d)) == Put(o, Encoding(items[4]))
    {
      OptionDigestPuts(o, v.importGraphHash);
    }
    Next(out, items, 4);
    Next(out, items, 5);
    Next(out, items, 6);
    Closed(out, items);
  }

  lemma AuditEventPuts(out: Out, v: AuditEvent)
    requires Fits(AuditEventItem(v))
    ensures WriteAuditEvent(out, v) == Put(out, Encoding(AuditEventItem(v)))
  {
    hide Put, Encoding, TaggedOut, OptionItem, AuditPayloadItem, BudgetUsageItem, BudgetConfigItem, WriteOption;
    match v {
      case ExecutionStarted(_, _, _, _, _, _, _, _) => ExecutionStartedPuts(out, v);
      case CapabilityDecision(_, _, _, _, _, _, _) => CapabilityDecisionPuts(out, v);
      case HostCallStarted(_, _, _, _, _) => HostCallStartedPuts(out, v);
      case HostCallFinished(_, _, _, _, _, _, _) => HostCallFinishedPuts(out, v);
      case BudgetCharged(_, _, _, _, _, _, _) => BudgetChargedPuts(out, v);
      case Yielded(_, _, _) => YieldedPuts(out, v);
      case Resumed(_, _, _) => ResumedPuts(out, v);
      case Terminal(_, _, _, _, _, _) => TerminalPuts(out, v);
    }
  }

  function WriteTimestamp(out: Out, ns: I128): Result<Out> {
    var o :- ArrayHeader(out, 1);
    BytesOut(o, BigEndian(Wrapped(ns), 16))
  }

  lemma TimestampPuts(out: Out, ns: I128)
    ensures Fits(TimestampItem(ns))
    ensures WriteTimestamp(out, ns) == Put(out, Encoding(TimestampItem(ns)))
  {
    hide Put, Encoding, Encodings, Begun, ArrayHeader, BytesOut, BigEndian;
    var items := TimestampItem(ns).items;
    assert |items| == 1 && Fits(items[0]);
    PrimitivesPut();
    Opened(out, items);
    Next(out, items, 0);
    Closed(out, items);
  }

  function WriteAuditEnvelope(out: Out, v: AuditEnvelope): Result<Out> {
    var o :- ArrayHeader(out, 7);
    var o :- UintOut(o, v.schemaVersion);
    var o :- BytesOut(o, BigEndian(v.executionId, 16));
    var o :- BytesOut(o, v.sourceHash);
    var o :- TextOut(o, v.languageRevision);
    var o :- UintOut(o, v.sequence);
    var o :- WriteTimestamp(o, v.unixNanoseconds);
    WriteAuditEvent(o, v.event)
  }

  lemma AuditEnvelopePuts(out: Out, v: AuditEnvelope)
    requires Fits(AuditEnvelopeItem(v))
    ensures WriteAuditEnvelope(out, v) == Put(out, Encoding(AuditEnvelopeItem(v)))
  {
    hide Put, Encoding, Encodings, Begun, ArrayHeader, UintOut, BytesOut, TextOut, BigEndian, WriteTimestamp,
         TimestampItem, WriteAuditEvent, AuditEventItem;
    var items := AuditEnvelopeItem(v).items;
    assert |items| == 7 && Fits(items[3]) && Fits(items[5]) && Fits(items[6]);
    PrimitivesPut();
    Opened(out, items);
    Next(out, items, 0);
    Next(out, items, 1);
    Next(out, items, 2);
    Next(out, items, 3);
    Next(out, items, 4);
    forall o: Out
      ensures WriteTimestamp(o, v.unixNanoseconds) == Put(o, Encoding(items[5]))
    {
      TimestampPuts(o, v.unixNanoseconds);
    }
    Next(out, items, 5);
    forall o: Out
      ensures WriteAuditEvent(o, v.event) == Put(o, Encoding(items[6]))
    {
      AuditEventPuts(o, v.event);
    }
    Next(out, items, 6);
    Closed(out, items);
  }

  // ----- Entry points -----

  /** Values whose lengths a 64-bit machine can hold. */
  predicate Representable(v: AuditEnvelope) { Fits(AuditEnvelopeItem(v)) }

  /** What an envelope is written as. */
  function Written(v: AuditEnvelope): seq<Byte>
    requires Representable(v)
  {
    Encoding(AuditEnvelopeItem(v))
  }

  function CountOf(r: Result<Out>): Result<nat>
    requires r.Ok? ==> r.value.SizeOut?
  {
    var out :- r;
    Ok(out.len)
  }

  lemma EnvelopeKeepsKind(out: Out, v: AuditEnvelope)
    requires Representable(v)
    ensures var r := WriteAuditEnvelope(out, v); r.Ok? ==> r.value.SizeOut? == out.SizeOut?
  {
    hide WriteAuditEnvelope, Encoding, Put, AuditEnvelopeItem;
    AuditEnvelopePuts(out, v);
  }

  lemma EventKeepsKind(out: Out, v: AuditEvent)
    requires Fits(AuditEventItem(v))
    ensures var r := WriteAuditEvent(out, v); r.Ok? ==> r.value.SizeOut? == out.SizeOut?
  {
    hide WriteAuditEvent, Encoding, Put, AuditEventItem;
    AuditEventPuts(out, v);
  }

  /** The size pass. */
  function EncodedLen(v: AuditEnvelope): Result<nat>
    requires Representable(v)
  {
    EnvelopeKeepsKind(SizeOut(0), v);
    CountOf(WriteAuditEnvelope(SizeOut(0), v))
  }

  function EventLen(v: AuditEvent): Result<nat>
    requires Fits(AuditEventItem(v))
  {
    EventKeepsKind(SizeOut(0), v);
    CountOf(WriteAuditEvent(SizeOut(0), v))
  }

  /** The write pass, after a size pass whose count it has to meet. */
  function EncodeToVec(v: AuditEnvelope): Result<seq<Byte>>
    requires Representable(v)
  {
    var len :- EncodedLen(v);
    EnvelopeKeepsKind(VecOut([]), v);
    var out :- WriteAuditEnvelope(VecOut([]), v);
    if |out.buf| != len then Err(LengthMismatch) else Ok(out.buf)
  }

  /** The two passes always agree: the result is what is written, or an overflow exactly when its length does not fit
      64 bits. A mismatch is never reported. */
  lemma PassesAgree(v: AuditEnvelope)
    requires Representable(v)
    ensures EncodedLen(v) == if |Written(v)| > U64_MAX then Err(LengthOverflow) else Ok(|Written(v)|)
    ensures EncodeToVec(v) == if |Written(v)| > U64_MAX then Err(LengthOverflow) else Ok(Written(v))
  {
    hide WriteAuditEnvelope, Encoding, AuditEnvelopeItem;
    AuditEnvelopePuts(SizeOut(0), v);
    AuditEnvelopePuts(VecOut([]), v);
    assert [] + Written(v) == Written(v);
  }

  /** Two streams that begin with the bytes the encoder produced for two envelopes, and are equal, began with equal
      envelopes, up to the clock of a deadline, and go on equally. */
  lemma EncodedPrefixFree(a: AuditEnvelope, s: seq<Byte>, b: AuditEnvelope, t: seq<Byte>)
    requires Representable(a) && Representable(b) && EncodeToVec(a).Ok? && EncodeToVec(b).Ok?
    requires EncodeToVec(a).value + s == EncodeToVec(b).value + t
    ensures a == b.(event := OnClockOf(a.event, b.event)) && s == t
  {
    hide Encoding, AuditEnvelopeItem, EncodeToVec, EncodedLen, OnClockOf;
    PassesAgree(a);
    PassesAgree(b);
    EnvelopesPrefixFree(a, s, b, t);
  }

  // ----- The bound on an envelope before its number is known -----

  /** `envelope_fixed_len_upper_bound`: everything but the event, with the sequence at its widest. */
  function WriteFixedPart(out: Out, languageRevision: Utf8): Result<Out> {
    var o :- ArrayHeader(out, 7);
    var o :- UintOut(o, 1);
    var o :- BytesOut(o, seq(16, _ => 0));
    var o :- BytesOut(o, seq(32, _ => 0));
    var o :- TextOut(o, languageRevision);
    var o :- UintOut(o, U64_MAX);
    WriteTimestamp(o, 0)
  }

  /** The bytes that this counts: the header of seven elements, and the first six. */
  function FixedBytes(languageRevision: Utf8): seq<Byte>
    requires |languageRevision| <= U64_MAX
  {
    HeadBytes(4, 7) + Encodings(FixedPart(languageRevision))
  }

  lemma FixedPartPuts(out: Out, languageRevision: Utf8)
    requires |languageRevision| <= U64_MAX
    ensures WriteFixedPart(out, languageRevision) == Put(out, FixedBytes(languageRevision))
  {
    hide Put, Encoding, Encodings, Begun, ArrayHeader, UintOut, BytesOut, TextOut, BigEndian, WriteTimestamp,
         TimestampItem, HeadBytes;
    var first := FixedPart(languageRevision);
    var items := first + [Null];
    assert |items| == 7 && items[..6] == first;
    TimestampPuts(out, 0);
    assert AllFit(items);
    PrimitivesPut();
    Opened(out, items);
    Next(out, items, 0);
    Next(out, items, 1);
    Next(out, items, 2);
    Next(out, items, 3);
    Next(out, items, 4);
    forall o: Out
      ensures WriteTimestamp(o, 0) == Put(o, Encoding(items[5]))
    {
      TimestampPuts(o, 0);
    }
    Next(out, items, 5);
    BegunIs(out, items, 6);
  }

  lemma BegunIs(out: Out, items: seq<Item>, k: nat)
    requires AllFit(items) && k <= |items|
    ensures Begun(out, items, k) == Put(out, HeadBytes(4, |items|) + Encodings(items[..k]))
  {
  }

  function FixedLenUpperBound(languageRevision: Utf8): Result<nat>
    requires |languageRevision| <= U64_MAX
  {
    FixedPartPuts(SizeOut(0), languageRevision);
    CountOf(WriteFixedPart(SizeOut(0), languageRevision))
  }

  /** The bound and the length of the event add up to at least the length of the envelope, and to at most eight more:
      exactly what the number leaves of its nine bytes. They meet exactly for a number of nine bytes. */
  lemma BoundHolds(v: AuditEnvelope)
    requires Representable(v) && v.schemaVersion == 1
    ensures Fits(AuditEventItem(v.event)) && |v.languageRevision| <= U64_MAX
    ensures EncodedLen(v).Ok? && FixedLenUpperBound(v.languageRevision).Ok? ==>
              EventLen(v.event).Ok?
    ensures EncodedLen(v).Ok? && FixedLenUpperBound(v.languageRevision).Ok? ==>
              var bound := FixedLenUpperBound(v.languageRevision).value + EventLen(v.event).value;
              var actual := EncodedLen(v).value;
              actual <= bound <= actual + 8 && (bound == actual <==> v.sequence > 0xffff_ffff)
  {
    hide WriteAuditEnvelope, WriteAuditEvent, WriteFixedPart, Encoding, Encodings, AuditEnvelopeItem, AuditEventItem, HeadBytes,
         EncodedLen;
    BoundIsTight(v);
    PassesAgree(v);
    FixedPartPuts(SizeOut(0), v.languageRevision);
    AuditEventPuts(SizeOut(0), v.event);
    EventShorter(v);
  }

  /** The event is one of the pieces of the envelope. */
  lemma EventShorter(v: AuditEnvelope)
    requires Representable(v)
    ensures Fits(AuditEventItem(v.event)) && |Encoding(AuditEventItem(v.event))| <= |Encoding(AuditEnvelopeItem(v))|
  {
    hide Encoding, Encodings, AuditEventItem, BigEndian, TimestampItem, HeadBytes;
    var items := AuditEnvelopeItem(v).items;
    assert |items| == 7 && Fits(items[6]);
    EncodingsSnoc(items[..6], items[6]);
    assert items[..6] + [items[6]] == items;
    ArrayEncoding(items);
  }

  lemma ArrayEncoding(items: seq<Item>)
    requires AllFit(items)
    ensures Encoding(Array(items)) == HeadBytes(4, |items|) + Encodings(items)
  {
  }
}

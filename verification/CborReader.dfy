/** A decoder written from RFC 8949 alone (section 3 and appendix C), in the types of its data model, and what it makes of
    the bytes that the encoders of `src/audit.rs` write: each value is read back as itself, and whatever follows is left
    over. */
module CborReader {
  import opened Cbor
  import opened AuditEncoding
  import opened AuditWriters

  // ----- The decoder -----

  datatype Data =
    | Integer(n: int)
    | ByteString(bytes: seq<Byte>)
    | TextString(utf8: seq<Byte>)
    | List(elements: seq<Data>)
    | False
    | True
    | Null

  /** A number in network byte order, behind the digits read so far. */
  function Number(bs: seq<Byte>, sofar: nat): nat {
    if bs == [] then sofar else Number(bs[1..], 256 * sofar + bs[0])
  }

  /** The bytes of the argument that follow the initial byte. */
  function Following(info: nat): Option<nat> {
    if info < 24 then Some(0)
    else if info == 24 then Some(1)
    else if info == 25 then Some(2)
    else if info == 26 then Some(4)
    else if info == 27 then Some(8)
    else None
  }

  datatype Initial = Initial(major: nat, info: nat, argument: nat, rest: seq<Byte>)

  /** The initial byte, taken apart into its three high and its five low bits, and the argument. */
  function ReadInitial(bs: seq<Byte>): (r: Option<Initial>)
    ensures r.Some? ==> |r.value.rest| < |bs|
  {
    if bs == [] then None
    else
      var major, info := bs[0] / 32, bs[0] % 32;
      match Following(info)
      case None => None
      case Some(k) =>
        if |bs| < 1 + k then None
        else Some(Initial(major, info, if k == 0 then info else Number(bs[1..1 + k], 0), bs[1 + k..]))
  }

  /** The next item, and what follows it. */
  function ReadItem(bs: seq<Byte>): (r: Option<(Data, seq<Byte>)>)
    ensures r.Some? ==> |r.value.1| < |bs|
    decreases |bs|, 0
  {
    match ReadInitial(bs)
    case None => None
    case Some(Initial(major, info, argument, rest)) =>
      if major == 0 then Some((Integer(argument), rest))
      else if major == 1 then Some((Integer(-1 - argument), rest))
      else if major == 2 && argument <= |rest| then Some((ByteString(rest[..argument]), rest[argument..]))
      else if major == 3 && argument <= |rest| then Some((TextString(rest[..argument]), rest[argument..]))
      else if major == 4 then
        match ReadItems(rest, argument)
        case None => None
        case Some((elements, after)) => Some((List(elements), after))
      else if major == 7 && info == 20 then Some((False, rest))
      else if major == 7 && info == 21 then Some((True, rest))
      else if major == 7 && info == 22 then Some((Data.Null, rest))
      else None
  }

  function ReadItems(bs: seq<Byte>, n: nat): (r: Option<(seq<Data>, seq<Byte>)>)
    ensures r.Some? ==> |r.value.1| <= |bs|
    decreases |bs|, 1
  {
    if n == 0 then Some(([], bs))
    else
      match ReadItem(bs)
      case None => None
      case Some((first, rest)) =>
        match ReadItems(rest, n - 1)
        case None => None
        case Some((others, after)) => Some(([first] + others, after))
  }

  // ----- What it reads -----

  /** The value that an item of the encoders stands for. */
  function DataOf(i: Item): Data {
    match i
    case UInt(n) => Integer(n)
    case Negative(n) => Integer(-1 - n)
    case Bytes(bs) => ByteString(bs)
    case Text(bs) => TextString(bs)
    case Array(items) => List(DataOfAll(items))
    case Bool(b) => if b then True else False
    case Null => Data.Null
  }

  function DataOfAll(items: seq<Item>): seq<Data> {
    if items == [] then [] else [DataOf(items[0])] + DataOfAll(items[1..])
  }

  lemma {:induction false} NumberSnoc(bs: seq<Byte>, sofar: nat, b: Byte)
    ensures Number(bs + [b], sofar) == 256 * Number(bs, sofar) + b
    decreases |bs|
  {
    if bs == [] {
      assert bs + [b] == [b] && [b][1..] == [];
    } else {
      assert (bs + [b])[1..] == bs[1..] + [b];
      NumberSnoc(bs[1..], 256 * sofar + bs[0], b);
    }
  }

  /** The encoders write the most significant byte first. */
  lemma {:induction false} BigEndianReads(n: nat, k: nat)
    requires n < Power256(k)
    ensures Number(BigEndian(n, k), 0) == n
    decreases k
  {
    if k > 0 {
      BigEndianReads(n / 256, k - 1);
      NumberSnoc(BigEndian(n / 256, k - 1), 0, n % 256);
    }
  }

  lemma HeadReadsInitial(major: nat, argument: U64, rest: seq<Byte>)
    requires major < 8
    ensures ReadInitial(HeadBytes(major, argument) + rest) ==
            Some(Initial(major, HeadBytes(major, argument)[0] % 32, argument, rest))
    ensures argument < 24 ==> HeadBytes(major, argument)[0] % 32 == argument
  {
    hide BigEndian, Number, Power256;
    Powers();
    var h := HeadBytes(major, argument);
    var bs := h + rest;
    var k := |h| - 1;
    assert bs[0] == h[0] && bs[1 + k..] == rest;
    if argument >= 24 {
      BigEndianReads(argument, k);
      assert bs[1..1 + k] == h[1..] == BigEndian(argument, k);
    }
  }

  /** Every item is read back as the value it stands for, whatever follows. */
  lemma {:induction false} ItemReads(i: Item, rest: seq<Byte>)
    requires Fits(i)
    ensures ReadItem(Encoding(i) + rest) == Some((DataOf(i), rest))
    decreases i, 0
  {
    hide HeadBytes, ReadInitial;
    match i
    case UInt(n) => HeadReadsInitial(0, n, rest);
    case Negative(n) => HeadReadsInitial(1, n, rest);
    case Bytes(bs) => StringReads(2, bs, rest);
    case Text(bs) => StringReads(3, bs, rest);
    case Array(items) =>
      assert HeadBytes(4, |items|) + Encodings(items) + rest == HeadBytes(4, |items|) + (Encodings(items) + rest);
      HeadReadsInitial(4, |items|, Encodings(items) + rest);
      ItemsRead(items, rest);
    case Bool(b) => SimpleReads(if b then 0xf5 else 0xf4, rest);
    case Null => SimpleReads(0xf6, rest);
  }

  lemma SimpleReads(b: Byte, rest: seq<Byte>)
    requires 0xf4 <= b <= 0xf6
    ensures ReadInitial([b] + rest) == Some(Initial(7, b - 0xe0, b - 0xe0, rest))
  {
    assert ([b] + rest)[1..] == rest;
  }

  lemma StringReads(major: nat, bs: seq<Byte>, rest: seq<Byte>)
    requires (major == 2 || major == 3) && |bs| <= U64_MAX
    ensures ReadItem(HeadBytes(major, |bs|) + bs + rest) == Some((if major == 2 then ByteString(bs) else TextString(bs), rest))
  {
    hide HeadBytes, ReadInitial;
    assert HeadBytes(major, |bs|) + bs + rest == HeadBytes(major, |bs|) + (bs + rest);
    HeadReadsInitial(major, |bs|, bs + rest);
    assert (bs + rest)[..|bs|] == bs && (bs + rest)[|bs|..] == rest;
  }

  lemma {:induction false} ItemsRead(items: seq<Item>, rest: seq<Byte>)
    requires forall j :: 0 <= j < |items| ==> Fits(items[j])
    ensures ReadItems(Encodings(items) + rest, |items|) == Some((DataOfAll(items), rest))
    decreases items, 1
  {
    hide Encoding, ReadItem, DataOf;
    if items == [] {
      assert [] + rest == rest;
    } else {
      assert Encoding(items[0]) + Encodings(items[1..]) + rest == Encoding(items[0]) + (Encodings(items[1..]) + rest);
      ItemReads(items[0], Encodings(items[1..]) + rest);
      ItemsRead(items[1..], rest);
    }
  }

  // ----- The primitive encoders -----

  /** Behind whatever was written before, exactly one item was added, and it is read as this value. */
  ghost predicate Adds(before: seq<Byte>, after: Result<Out>, d: Data) {
    && after.Ok? && after.value.VecOut? && before <= after.value.buf
    && forall rest :: ReadItem(after.value.buf[|before|..] + rest) == Some((d, rest))
  }

  lemma PutAdds(before: seq<Byte>, i: Item)
    requires Fits(i)
    ensures Adds(before, Put(VecOut(before), Encoding(i)), DataOf(i))
  {
    hide Encoding, ReadItem, DataOf;
    assert (before + Encoding(i))[|before|..] == Encoding(i);
    forall rest
      ensures ReadItem(Encoding(i) + rest) == Some((DataOf(i), rest))
    {
      ItemReads(i, rest);
    }
  }

  /** Integers of either sign are read back as themselves. */
  lemma IntReadsBack(before: seq<Byte>, v: I64)
    ensures Adds(before, IntOut(VecOut(before), v), Integer(v))
  {
    hide Put, Encoding, Adds, IntOut;
    PrimitivesPut();
    PutAdds(before, IntItem(v));
  }

  lemma UintReadsBack(before: seq<Byte>, v: U64)
    ensures Adds(before, UintOut(VecOut(before), v), Integer(v))
  {
    hide Put, Encoding, Adds, UintOut;
    PrimitivesPut();
    PutAdds(before, UInt(v));
  }

  lemma StringsReadBack(before: seq<Byte>, s: seq<Byte>)
    requires |s| <= U64_MAX
    ensures Adds(before, BytesOut(VecOut(before), s), ByteString(s))
    ensures Adds(before, TextOut(VecOut(before), s), TextString(s))
  {
    hide Put, Encoding, Adds, BytesOut, TextOut;
    PrimitivesPut();
    PutAdds(before, Bytes(s));
    PutAdds(before, Text(s));
  }

  /** The simple values 20, 21 and 22. */
  lemma SimpleValuesReadBack(before: seq<Byte>)
    ensures Adds(before, BooleanOut(VecOut(before), false), False)
    ensures Adds(before, BooleanOut(VecOut(before), true), True)
    ensures Adds(before, NullOut(VecOut(before)), Data.Null)
  {
    hide Put, Encoding, Adds, BooleanOut;
    PrimitivesPut();
    PutAdds(before, Bool(false));
    PutAdds(before, Bool(true));
    PutAdds(before, Item.Null);
    NullPuts(VecOut(before));
  }

  /** `null`, simple value 22. */
  function NullOut(out: Out): Result<Out> { Put(out, [0xf6]) }

  lemma NullPuts(out: Out)
    ensures NullOut(out) == Put(out, Encoding(Item.Null))
  {
  }

  /** A header announces the elements that follow it: any items written behind it are read as one array. */
  lemma ArrayReadsBack(before: seq<Byte>, items: seq<Item>)
    requires AllFit(items)
    ensures var o := ArrayHeader(VecOut(before), |items|);
            o.Ok? && Adds(before, Put(o.value, Encodings(items)), List(DataOfAll(items)))
  {
    hide Encoding, Encodings, Adds, HeadBytes, ReadItem, DataOfAll, DataOf;
    ArrayIsItsData(items);
    PutTwice(VecOut(before), HeadBytes(4, |items|), Encodings(items));
    PutAdds(before, Array(items));
    WholeArray(items);
  }

  lemma ArrayIsItsData(items: seq<Item>)
    ensures DataOf(Array(items)) == List(DataOfAll(items))
  {
  }

  lemma WholeArray(items: seq<Item>)
    requires AllFit(items)
    ensures Encoding(Array(items)) == HeadBytes(4, |items|) + Encodings(items)
  {
  }

  // ----- The data of arrays -----

  lemma DataOfOne(i: Item)
    ensures DataOfAll([i]) == [DataOf(i)]
  {
    hide DataOf;
    assert [i][1..] == [];
  }

  lemma DataOfTagged(tag: U64, fields: seq<Item>)
    ensures DataOf(Tagged(tag, fields)) == List([Integer(tag)] + DataOfAll(fields))
  {
    var items := [UInt(tag)] + fields;
    assert items[0] == UInt(tag) && items[1..] == fields;
    assert DataOfAll(items) == [DataOf(UInt(tag))] + DataOfAll(fields);
    assert DataOf(UInt(tag)) == Integer(tag);
  }

  lemma NoData()
    ensures DataOfAll([]) == []
  {
  }

  lemma {:induction false} DataAt(items: seq<Item>, k: nat)
    requires k < |items|
    ensures |DataOfAll(items)| == |items| && DataOfAll(items)[k] == DataOf(items[k])
    decreases |items|
  {
    hide DataOf;
    if |items| == 1 {
      DataOfOne(items[0]);
      assert items == [items[0]];
    } else {
      DataAt(items[1..], if k > 0 then k - 1 else 0);
    }
  }
}

/** The deterministic CBOR encoder (`src/audit.rs`, module `cbor`): one traversal, run once to count and once
    to write. Encodings are prefix-free, and every head has the shortest form that section 4.2.1 of RFC 8949
    asks for. */
module Cbor {

  type Byte = b: int | 0 <= b < 256

  const U64_MAX: nat := 0xffff_ffff_ffff_ffff

  type U64 = n: nat | n <= U64_MAX

  // ----- Output -----

  datatype CborError = LengthOverflow | LengthMismatch

  datatype Result<+T> = Ok(value: T) | Err(error: CborError) {
    predicate IsFailure() { Err? }

    function PropagateFailure<U>(): Result<U>
      requires Err?
    {
      Err(error)
    }

    function Extract(): T
      requires Ok?
    {
      value
    }
  }

  /** The size pass only counts; the write pass keeps the bytes. */
  datatype Out = SizeOut(len: U64) | VecOut(buf: seq<Byte>)

  function Put(out: Out, bytes: seq<Byte>): (r: Result<Out>)
    ensures r.Ok? ==> r.value.SizeOut? == out.SizeOut?
  {
    match out
    case SizeOut(len) => if len + |bytes| > U64_MAX then Err(LengthOverflow) else Ok(SizeOut(len + |bytes|))
    case VecOut(buf) => Ok(VecOut(buf + bytes))
  }

  // ----- Heads -----

  /** Big-endian bytes of a number, `k` of them. */
  function BigEndian(n: nat, k: nat): (r: seq<Byte>)
    ensures |r| == k
    decreases k
  {
    if k == 0 then [] else BigEndian(n / 256, k - 1) + [n % 256]
  }

  function Power256(k: nat): (r: nat)
    ensures r > 0
  {
    if k == 0 then 1 else 256 * Power256(k - 1)
  }

  function FromBytes(bs: seq<Byte>): nat {
    if bs == [] then 0 else FromBytes(bs[..|bs| - 1]) * 256 + bs[|bs| - 1]
  }

  /** Reading the bytes back gives the number. */
  lemma {:induction false} BigEndianValue(n: nat, k: nat)
    requires n < Power256(k)
    ensures FromBytes(BigEndian(n, k)) == n
    decreases k
  {
    if k > 0 {
      BigEndianValue(n / 256, k - 1);
      assert BigEndian(n, k)[..k - 1] == BigEndian(n / 256, k - 1);
    }
  }

  /** The bytes of a head: major type and argument. */
  function HeadBytes(major: nat, arg: U64): (r: seq<Byte>)
    requires major < 8
    ensures 1 <= |r| <= 9
  {
    if arg < 24 then [major * 32 + arg]
    else if arg <= 0xff then [major * 32 + 24] + BigEndian(arg, 1)
    else if arg <= 0xffff then [major * 32 + 25] + BigEndian(arg, 2)
    else if arg <= 0xffff_ffff then [major * 32 + 26] + BigEndian(arg, 4)
    else [major * 32 + 27] + BigEndian(arg, 8)
  }

  /** The number of argument bytes that the low five bits of a first byte announce. */
  function Width(low: nat): nat {
    if low == 24 then 1 else if low == 25 then 2 else if low == 26 then 4 else if low == 27 then 8 else 0
  }

  /** What a decoder that accepts any width, shortest or not, reads from a head. */
  function ReadHead(bs: seq<Byte>): (r: (nat, nat, nat))
    requires bs != [] && bs[0] % 32 < 28 && 1 + Width(bs[0] % 32) <= |bs|
    ensures r.2 == 1 + Width(bs[0] % 32)
  {
    var low := bs[0] % 32;
    (bs[0] / 32, if low < 24 then low else FromBytes(bs[1..1 + Width(low)]), 1 + Width(low))
  }

  lemma Powers()
    ensures Power256(1) == 0x100 && Power256(2) == 0x1_0000 && Power256(4) == 0x1_0000_0000
    ensures Power256(8) == 0x1_0000_0000_0000_0000
  {
    assert Power256(3) == 0x100_0000 && Power256(5) == 0x100_0000_0000 && Power256(6) == 0x1_0000_0000_0000;
    assert Power256(7) == 0x100_0000_0000_0000;
  }

  /** A head can be read back, whatever follows it. */
  lemma HeadReads(major: nat, arg: U64, rest: seq<Byte>)
    requires major < 8
    ensures var h := HeadBytes(major, arg);
            var bs := h + rest;
            && bs[0] % 32 < 28 && 1 + Width(bs[0] % 32) <= |bs|
            && ReadHead(bs) == (major, arg as nat, |h|)
  {
    hide BigEndian, FromBytes, Power256;
    Powers();
    var h := HeadBytes(major, arg);
    var low := h[0] % 32;
    if arg >= 24 {
      var w := |h| - 1;
      BigEndianValue(arg, w);
      assert (h + rest)[1..1 + w] == BigEndian(arg, w);
    }
  }

  lemma HeadPrefixFree(m1: nat, n1: U64, s: seq<Byte>, m2: nat, n2: U64, t: seq<Byte>)
    requires m1 < 8 && m2 < 8 && HeadBytes(m1, n1) + s == HeadBytes(m2, n2) + t
    ensures m1 == m2 && n1 == n2 && s == t
  {
    hide HeadBytes, ReadHead;
    HeadReads(m1, n1, s);
    HeadReads(m2, n2, t);
    var h1, h2 := HeadBytes(m1, n1), HeadBytes(m2, n2);
    assert (h1 + s)[|h1|..] == s && (h2 + t)[|h2|..] == t;
  }

  /** Among all heads that a decoder reads as this major type and argument, the encoder's is the only one of
      its length or shorter. */
  lemma ShortestHead(major: nat, arg: U64, other: seq<Byte>)
    requires major < 8
    requires other != [] && other[0] % 32 < 28 && |other| == 1 + Width(other[0] % 32)
    requires ReadHead(other) == (major, arg as nat, |other|)
    ensures |HeadBytes(major, arg)| <= |other|
    ensures |HeadBytes(major, arg)| == |other| ==> other == HeadBytes(major, arg)
  {
    hide BigEndian, FromBytes, Power256;
    Powers();
    var low := other[0] % 32;
    assert other[0] == (other[0] / 32) * 32 + low;
    if low >= 24 {
      var w := Width(low);
      FromBytesBound(other[1..]);
      assert other[1..1 + w] == other[1..];
      BigEndianUnique(other[1..]);
      assert other == [other[0]] + other[1..];
    } else {
      assert other == [other[0]];
    }
  }

  lemma {:induction false} FromBytesBound(bs: seq<Byte>)
    ensures FromBytes(bs) < Power256(|bs|)
    decreases |bs|
  {
    if bs != [] {
      FromBytesBound(bs[..|bs| - 1]);
    }
  }

  lemma {:induction false} BigEndianUnique(bs: seq<Byte>)
    ensures BigEndian(FromBytes(bs), |bs|) == bs
    decreases |bs|
  {
    if bs != [] {
      var init, last := bs[..|bs| - 1], bs[|bs| - 1];
      BigEndianUnique(init);
      assert (FromBytes(init) * 256 + last) / 256 == FromBytes(init) && (FromBytes(init) * 256 + last) % 256 == last;
      assert bs == init + [last];
    }
  }

  // ----- Items -----

  /** What the encoders put out, as data: the shape that every audit type is encoded with. Text is its UTF-8
      bytes. */
  datatype Item =
    | UInt(n: U64)
    | Negative(n: U64)
    | Bytes(bytes: seq<Byte>)
    | Text(utf8: seq<Byte>)
    | Array(items: seq<Item>)
    | Bool(b: bool)
    | Null

  /** Lengths that a 64-bit head can carry. */
  predicate Fits(i: Item) {
    match i
    case Bytes(bs) => |bs| <= U64_MAX
    case Text(bs) => |bs| <= U64_MAX
    case Array(items) => |items| <= U64_MAX && forall j :: 0 <= j < |items| ==> Fits(items[j])
    case _ => true
  }

  function Encoding(i: Item): (r: seq<Byte>)
    requires Fits(i)
    decreases i, 0
  {
    match i
    case UInt(n) => HeadBytes(0, n)
    case Negative(n) => HeadBytes(1, n)
    case Bytes(bs) => HeadBytes(2, |bs|) + bs
    case Text(bs) => HeadBytes(3, |bs|) + bs
    case Array(items) => HeadBytes(4, |items|) + Encodings(items)
    case Bool(b) => [if b then 0xf5 else 0xf4]
    case Null => [0xf6]
  }

  function Encodings(items: seq<Item>): seq<Byte>
    requires forall j :: 0 <= j < |items| ==> Fits(items[j])
    decreases items, 1
  {
    if items == [] then [] else Encoding(items[0]) + Encodings(items[1..])
  }

  /** No encoding is a prefix of another: what follows an item is determined, and so is the item. */
  lemma {:induction false} PrefixFree(a: Item, s: seq<Byte>, b: Item, t: seq<Byte>)
    requires Fits(a) && Fits(b) && Encoding(a) + s == Encoding(b) + t
    ensures a == b && s == t
    decreases a, 0
  {
    hide HeadBytes;
    Major(a, s);
    Major(b, t);
    match a
    case UInt(n) => HeadPrefixFree(0, n, s, 0, b.n, t);
    case Negative(n) => HeadPrefixFree(1, n, s, 1, b.n, t);
    case Bytes(bs) => StringPrefixFree(2, bs, s, b.bytes, t);
    case Text(bs) => StringPrefixFree(3, bs, s, b.utf8, t);
    case Array(items) => ArrayPrefixFree(items, s, b.items, t);
    case Bool(_) => SimplePrefixFree(Encoding(a)[0], s, Encoding(b)[0], t);
    case Null => SimplePrefixFree(0xf6, s, Encoding(b)[0], t);
  }

  /** The major type is in the first byte, so the kind of an item can be read from it. */
  function MajorOf(i: Item): nat {
    match i
    case UInt(_) => 0
    case Negative(_) => 1
    case Bytes(_) => 2
    case Text(_) => 3
    case Array(_) => 4
    case _ => 7
  }

  lemma Major(i: Item, s: seq<Byte>)
    requires Fits(i)
    ensures Encoding(i) != [] && (Encoding(i) + s)[0] / 32 == MajorOf(i)
    ensures i.Null? <==> (Encoding(i) + s)[0] == 0xf6
  {
    match i
    case UInt(n) => HeadMajor(0, n);
    case Negative(n) => HeadMajor(1, n);
    case Bytes(bs) => HeadMajor(2, |bs|);
    case Text(bs) => HeadMajor(3, |bs|);
    case Array(items) => HeadMajor(4, |items|);
    case _ =>
  }

  lemma HeadMajor(major: nat, arg: U64)
    requires major < 7
    ensures HeadBytes(major, arg)[0] / 32 == major
  {
  }

  lemma SimplePrefixFree(x: Byte, s: seq<Byte>, y: Byte, t: seq<Byte>)
    requires [x] + s == [y] + t
    ensures x == y && s == t
  {
    assert ([x] + s)[0] == x && ([y] + t)[0] == y;
    assert ([x] + s)[1..] == s && ([y] + t)[1..] == t;
  }

  lemma StringPrefixFree(major: nat, xs: seq<Byte>, s: seq<Byte>, ys: seq<Byte>, t: seq<Byte>)
    requires major < 8 && |xs| <= U64_MAX && |ys| <= U64_MAX
    requires HeadBytes(major, |xs|) + xs + s == HeadBytes(major, |ys|) + ys + t
    ensures xs == ys && s == t
  {
    hide HeadBytes;
    assert HeadBytes(major, |xs|) + xs + s == HeadBytes(major, |xs|) + (xs + s);
    assert HeadBytes(major, |ys|) + ys + t == HeadBytes(major, |ys|) + (ys + t);
    HeadPrefixFree(major, |xs|, xs + s, major, |ys|, ys + t);
    assert (xs + s)[..|xs|] == xs && (ys + t)[..|ys|] == ys;
    assert (xs + s)[|xs|..] == s && (ys + t)[|ys|..] == t;
  }

  lemma {:induction false} ArrayPrefixFree(xs: seq<Item>, s: seq<Byte>, ys: seq<Item>, t: seq<Byte>)
    requires Fits(Array(xs)) && Fits(Array(ys)) && Encoding(Array(xs)) + s == Encoding(Array(ys)) + t
    ensures xs == ys && s == t
    decreases xs, 2
  {
    hide HeadBytes;
    var hx, hy := HeadBytes(4, |xs|), HeadBytes(4, |ys|);
    assert hx + Encodings(xs) + s == hx + (Encodings(xs) + s);
    assert hy + Encodings(ys) + t == hy + (Encodings(ys) + t);
    HeadPrefixFree(4, |xs|, Encodings(xs) + s, 4, |ys|, Encodings(ys) + t);
    ItemsPrefixFree(xs, s, ys, t);
  }

  lemma {:induction false} ItemsPrefixFree(xs: seq<Item>, s: seq<Byte>, ys: seq<Item>, t: seq<Byte>)
    requires |xs| == |ys|
    requires (forall j :: 0 <= j < |xs| ==> Fits(xs[j])) && (forall j :: 0 <= j < |ys| ==> Fits(ys[j]))
    requires Encodings(xs) + s == Encodings(ys) + t
    ensures xs == ys && s == t
    decreases xs, 1
  {
    hide Encoding;
    if xs == [] {
      assert [] + s == s && [] + t == t;
    } else {
      assert Encoding(xs[0]) + Encodings(xs[1..]) + s == Encoding(xs[0]) + (Encodings(xs[1..]) + s);
      assert Encoding(ys[0]) + Encodings(ys[1..]) + t == Encoding(ys[0]) + (Encodings(ys[1..]) + t);
      PrefixFree(xs[0], Encodings(xs[1..]) + s, ys[0], Encodings(ys[1..]) + t);
      ItemsPrefixFree(xs[1..], s, ys[1..], t);
      assert xs == [xs[0]] + xs[1..] && ys == [ys[0]] + ys[1..];
    }
  }

  // ----- The traversal -----

  function Head(out: Out, major: nat, arg: U64): (r: Result<Out>)
    requires major < 8
    ensures r.Ok? ==> r.value.SizeOut? == out.SizeOut?
  {
    Put(out, HeadBytes(major, arg))
  }

  /** The cast to 64 bits that every length goes through. */
  function AsU64(n: nat): U64 { n % 0x1_0000_0000_0000_0000 }

  /** A definite-length string: head, then contents. */
  function StringOut(out: Out, major: nat, bs: seq<Byte>): (r: Result<Out>)
    requires major < 8
    ensures r.Ok? ==> r.value.SizeOut? == out.SizeOut?
  {
    var next :- Head(out, major, AsU64(|bs|));
    Put(next, bs)
  }

  /** Putting one piece after the other is putting them together, in either pass. */
  lemma PutTwice(out: Out, a: seq<Byte>, b: seq<Byte>)
    ensures (match Put(out, a) case Err(e) => Err(e) case Ok(next) => Put(next, b)) == Put(out, a + b)
  {
    if out.VecOut? {
      assert out.buf + a + b == out.buf + (a + b);
    }
  }
}

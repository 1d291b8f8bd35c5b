/** The RLP codec for nested items (Appendix B of the Ethereum Yellow Paper), with the strict
    canonical-form checks of the header decoder. */
module Rlp {
  import opened Wrappers

  type Byte = b: nat | b < 256

  type Bytes = seq<Byte>

  /** Lengths are 64-bit. */
  const MAX_LENGTH: nat := 0x1_0000_0000_0000_0000

  datatype Item = Data(bytes: Bytes) | Array(items: seq<Item>)

  datatype Error = InputTooShort | NonCanonicalSingleByte | LeadingZero | NonCanonicalSize

  // ---------------------------------------------------------------------------------------------
  // Big-endian lengths
  // ---------------------------------------------------------------------------------------------

  /** The shortest big-endian form; none for zero. */
  function BigEndian(n: nat): Bytes {
    if n == 0 then [] else BigEndian(n / 256) + [n % 256]
  }

  function FromBigEndian(s: Bytes): nat {
    if s == [] then 0 else FromBigEndian(s[..|s| - 1]) * 256 + s[|s| - 1]
  }

  lemma {:induction false} BigEndianRoundTrip(n: nat)
    ensures FromBigEndian(BigEndian(n)) == n
    ensures n > 0 ==> BigEndian(n) != [] && BigEndian(n)[0] != 0
  {
    if n > 0 {
      BigEndianRoundTrip(n / 256);
      assert BigEndian(n)[..|BigEndian(n)| - 1] == BigEndian(n / 256);
    }
  }

  /** Without a leading zero a big-endian form is the shortest one. */
  lemma {:induction false} BigEndianShortest(s: Bytes)
    requires s != [] ==> s[0] != 0
    ensures BigEndian(FromBigEndian(s)) == s
    ensures s != [] ==> FromBigEndian(s) > 0
  {
    if s != [] {
      var init, last := s[..|s| - 1], s[|s| - 1];
      BigEndianShortest(init);
      var n := FromBigEndian(s);
      assert n / 256 == FromBigEndian(init) && n % 256 == last;
      assert s == init + [last];
      if init == [] {
        assert s[0] == last;
      }
    }
  }

  function Pow256(k: nat): nat {
    if k == 0 then 1 else 256 * Pow256(k - 1)
  }

  lemma {:induction false} FromBigEndianBound(s: Bytes)
    ensures FromBigEndian(s) < Pow256(|s|)
  {
    if s != [] {
      FromBigEndianBound(s[..|s| - 1]);
    }
  }

  lemma {:induction false} BigEndianLength(n: nat, k: nat)
    ensures |BigEndian(n)| <= k <==> n < Pow256(k)
  {
    if n > 0 && k > 0 {
      BigEndianLength(n / 256, k - 1);
    } else if n == 0 {
      PowPositive(k);
    }
  }

  lemma {:induction false} PowPositive(k: nat)
    ensures Pow256(k) >= 1
  {
    if k > 0 {
      PowPositive(k - 1);
    }
  }

  lemma MaxLengthIsEightBytes()
    ensures Pow256(8) == MAX_LENGTH
  {
    assert Pow256(2) == 65536;
    assert Pow256(4) == 65536 * 65536;
    assert Pow256(6) == 65536 * 65536 * 65536;
  }

  // ---------------------------------------------------------------------------------------------
  // Encoding
  // ---------------------------------------------------------------------------------------------

  function HeaderBytes(list: bool, n: nat): (r: Bytes)
    requires n < MAX_LENGTH
    ensures r != []
  {
    if n < 56 then [(if list then 0xC0 else 0x80) + n]
    else
      LengthBytes(n);
      [(if list then 0xF7 else 0xB7) + |BigEndian(n)|] + BigEndian(n)
  }

  lemma LengthBytes(n: nat)
    requires n < MAX_LENGTH
    ensures |BigEndian(n)| <= 8
  {
    MaxLengthIsEightBytes();
    BigEndianLength(n, 8);
  }

  /** A single byte below 0x80 is its own encoding. */
  predicate IsBare(d: Bytes) {
    |d| == 1 && d[0] < 0x80
  }

  /** All lengths involved fit the machine's length type. */
  predicate Fits(item: Item)
    decreases item, 1
  {
    match item
    case Data(d) => |d| < MAX_LENGTH
    case Array(items) => FitsAll(items) && |EncodeAll(items)| < MAX_LENGTH
  }

  predicate FitsAll(items: seq<Item>)
    decreases items, 0
  {
    forall i :: 0 <= i < |items| ==> Fits(items[i])
  }

  function Encode(item: Item): Bytes
    requires Fits(item)
    decreases item, 2
  {
    match item
    case Data(d) => if IsBare(d) then d else HeaderBytes(false, |d|) + d
    case Array(items) => HeaderBytes(true, |EncodeAll(items)|) + EncodeAll(items)
  }

  function EncodeAll(items: seq<Item>): Bytes
    requires FitsAll(items)
    decreases items, 1
  {
    if items == [] then [] else Encode(items[0]) + EncodeAll(items[1..])
  }

  // ---------------------------------------------------------------------------------------------
  // Decoding
  // ---------------------------------------------------------------------------------------------

  datatype Header = Header(list: bool, payload: nat, size: nat)

  function CheckRemaining(buf: Bytes, h: Header): Result<Header, Error> {
    if |buf| < h.size + h.payload then Err(InputTooShort) else Ok(h)
  }

  function DecodeHeader(buf: Bytes): (r: Result<Header, Error>)
    ensures r.Ok? ==> && r.value.size + r.value.payload <= |buf| && r.value.payload < MAX_LENGTH
                      && (r.value.size > 0 || (!r.value.list && r.value.payload == 1))
  {
    MaxLengthIsEightBytes();
    if buf == [] then Err(InputTooShort)
    else
      var b := buf[0];
      if b < 0x80 then CheckRemaining(buf, Header(false, 1, 0))
      else if b < 0xB8 then
        if b == 0x81 && |buf| < 2 then Err(InputTooShort)
        else if b == 0x81 && buf[1] < 0x80 then Err(NonCanonicalSingleByte)
        else CheckRemaining(buf, Header(false, b - 0x80, 1))
      else if b < 0xC0 then DecodeLongHeader(buf, false, b - 0xB7)
      else if b < 0xF8 then CheckRemaining(buf, Header(true, b - 0xC0, 1))
      else DecodeLongHeader(buf, true, b - 0xF7)
  }

  function DecodeLongHeader(buf: Bytes, list: bool, k: nat): (r: Result<Header, Error>)
    requires buf != [] && 1 <= k <= 8
    ensures r.Ok? ==> && r.value.size + r.value.payload <= |buf| && r.value.payload < MAX_LENGTH && r.value.size > 0
  {
    if |buf| - 1 < k then Err(InputTooShort)
    else
      var l := buf[1..1 + k];
      if l[0] == 0 then Err(LeadingZero)
      else
        var n := FromBigEndian(l);
        FromBigEndianBound(l);
        PowMonotone(k, 8);
        MaxLengthIsEightBytes();
        if n < 56 then Err(NonCanonicalSize) else CheckRemaining(buf, Header(list, n, 1 + k))
  }

  lemma {:induction false} PowMonotone(j: nat, k: nat)
    requires j <= k
    ensures Pow256(j) <= Pow256(k)
  {
    if j < k {
      PowMonotone(j, k - 1);
      PowPositive(k - 1);
    }
  }

  /** One item and what follows it. */
  function Decode(buf: Bytes): (r: Result<(Item, Bytes), Error>)
    ensures r.Ok? ==> |r.value.1| < |buf|
    decreases |buf|, 0
  {
    match DecodeHeader(buf)
    case Err(e) => Err(e)
    case Ok(h) =>
      var payload, rest := buf[h.size..h.size + h.payload], buf[h.size + h.payload..];
      if h.list then
        match DecodeAll(payload)
        case Err(e) => Err(e)
        case Ok(items) => Ok((Array(items), rest))
      else Ok((Data(payload), rest))
  }

  /** Items until nothing is left: each takes at least one byte. */
  function DecodeAll(view: Bytes): Result<seq<Item>, Error>
    decreases |view|, 1
  {
    if view == [] then Ok([])
    else
      match Decode(view)
      case Err(e) => Err(e)
      case Ok((item, rest)) =>
        Prepend([item], DecodeAll(rest))
  }

  function Prepend(v: seq<Item>, r: Result<seq<Item>, Error>): Result<seq<Item>, Error> {
    match r
    case Err(e) => Err(e)
    case Ok(items) => Ok(v + items)
  }

  lemma PrependNone(r: Result<seq<Item>, Error>)
    ensures Prepend([], r) == r
  {
    if r.Ok? {
      assert [] + r.value == r.value;
    }
  }

  lemma PrependOne(v: seq<Item>, item: Item, r: Result<seq<Item>, Error>)
    ensures Prepend(v, Prepend([item], r)) == Prepend(v + [item], r)
  {
    if r.Ok? {
      assert v + ([item] + r.value) == (v + [item]) + r.value;
    }
  }

  /** The decoder in its own form: it advances the buffer and pushes into a vector in a loop. */
  method DecodeItem(buf: Bytes) returns (r: Result<Item, Error>, rest: Bytes)
    ensures match Decode(buf)
            case Err(e) => r == Err(e)
            case Ok((item, tail)) => r == Ok(item) && rest == tail
    decreases |buf|
  {
    rest := buf;
    var header := DecodeHeader(buf);
    if header.Err? {
      return Err(header.error), rest;
    }
    var h := header.value;
    rest := rest[h.size..];
    var d := rest[..h.payload];
    assert d == buf[h.size..h.size + h.payload];
    if h.list {
      var view, v := d, [];
      PrependNone(DecodeAll(d));
      while view != []
        invariant |view| <= |d|
        invariant DecodeAll(d) == Prepend(v, DecodeAll(view))
        decreases |view|
      {
        var item, tail := DecodeItem(view);
        if item.Err? {
          return Err(item.error), rest;
        }
        PrependOne(v, item.value, DecodeAll(tail));
        v := v + [item.value];
        view := tail;
      }
      assert v + [] == v;
      r := Ok(Array(v));
    } else {
      r := Ok(Data(d));
    }
    rest := rest[h.payload..];
    assert rest == buf[h.size + h.payload..];
  }

  // ---------------------------------------------------------------------------------------------
  // Round trip
  // ---------------------------------------------------------------------------------------------

  lemma HeaderRoundTrip(list: bool, payload: Bytes, tail: Bytes)
    requires |payload| < MAX_LENGTH && (!list ==> !IsBare(payload))
    ensures var h := HeaderBytes(list, |payload|);
            DecodeHeader(h + payload + tail) == Ok(Header(list, |payload|, |h|))
  {
    var n := |payload|;
    var h := HeaderBytes(list, n);
    var buf := h + payload + tail;
    if n < 56 {
      assert buf[0] == h[0];
      if n == 1 {
        assert buf[1] == payload[0];
      }
    } else {
      LengthBytes(n);
      BigEndianRoundTrip(n);
      var k := |BigEndian(n)|;
      assert buf[0] == h[0];
      assert buf[1..1 + k] == BigEndian(n);
    }
  }

  /** Decoding an encoding followed by anything gives the item back and leaves exactly what follows. */
  lemma {:induction false} RoundTrip(item: Item, tail: Bytes)
    requires Fits(item)
    ensures Decode(Encode(item) + tail) == Ok((item, tail))
    decreases item, 0
  {
    match item
    case Data(d) =>
      if IsBare(d) {
        assert (d + tail)[0] == d[0];
        assert (d + tail)[..1] == d;
        assert (d + tail)[1..] == tail;
      } else {
        HeaderRoundTrip(false, d, tail);
        SplitAfterHeader(HeaderBytes(false, |d|), d, tail);
      }
    case Array(items) =>
      var p := EncodeAll(items);
      HeaderRoundTrip(true, p, tail);
      SplitAfterHeader(HeaderBytes(true, |p|), p, tail);
      RoundTripAll(items);
  }

  lemma SplitAfterHeader(h: Bytes, p: Bytes, tail: Bytes)
    ensures (h + p + tail)[|h|..|h| + |p|] == p
    ensures (h + p + tail)[|h| + |p|..] == tail
  {
  }

  lemma {:induction false} RoundTripAll(items: seq<Item>)
    requires FitsAll(items)
    ensures DecodeAll(EncodeAll(items)) == Ok(items)
    decreases items, 1
  {
    if items != [] {
      RoundTrip(items[0], EncodeAll(items[1..]));
      RoundTripAll(items[1..]);
      assert items == [items[0]] + items[1..];
    }
  }

  // ---------------------------------------------------------------------------------------------
  // Canonical form
  // ---------------------------------------------------------------------------------------------

  lemma HeaderCanonical(buf: Bytes)
    requires DecodeHeader(buf).Ok?
    ensures var h := DecodeHeader(buf).value;
            var payload := buf[h.size..h.size + h.payload];
            && (h.size == 0 ==> !h.list && IsBare(payload))
            && (h.size > 0 ==> buf[..h.size] == HeaderBytes(h.list, h.payload) && (!h.list ==> !IsBare(payload)))
  {
    var b := buf[0];
    if 0xB8 <= b < 0xC0 {
      LongHeaderCanonical(buf, false, b - 0xB7);
    } else if b >= 0xF8 {
      LongHeaderCanonical(buf, true, b - 0xF7);
    } else if b >= 0x80 {
      assert buf[..1] == [b];
    }
  }

  lemma LongHeaderCanonical(buf: Bytes, list: bool, k: nat)
    requires buf != [] && 1 <= k <= 8 && buf[0] == (if list then 0xF7 else 0xB7) + k
    requires DecodeLongHeader(buf, list, k).Ok?
    ensures var h := DecodeLongHeader(buf, list, k).value;
            h.list == list && h.payload >= 56 && buf[..h.size] == HeaderBytes(list, h.payload)
  {
    hide BigEndian, FromBigEndian, Pow256;
    BigEndianShortest(buf[1..1 + k]);
    assert buf[..1 + k] == [buf[0]] + buf[1..1 + k];
  }

  /** Whenever decoding succeeds, encoding the item gives exactly the bytes that were consumed. */
  lemma {:induction false} Canonical(buf: Bytes)
    requires Decode(buf).Ok?
    ensures var (item, rest) := Decode(buf).value; Fits(item) && buf == Encode(item) + rest
    decreases |buf|, 0
  {
    HeaderCanonical(buf);
    var h := DecodeHeader(buf).value;
    var payload, rest := buf[h.size..h.size + h.payload], buf[h.size + h.payload..];
    assert buf == buf[..h.size] + payload + rest;
    if h.list {
      CanonicalAll(payload);
    } else if h.size == 0 {
      assert buf == payload + rest;
    }
  }

  lemma {:induction false} CanonicalAll(view: Bytes)
    requires DecodeAll(view).Ok?
    ensures var items := DecodeAll(view).value; FitsAll(items) && view == EncodeAll(items)
    decreases |view|, 1
  {
    if view != [] {
      Canonical(view);
      var (item, rest) := Decode(view).value;
      CanonicalAll(rest);
      var items := DecodeAll(rest).value;
      assert ([item] + items)[1..] == items;
    }
  }

  /** No encoding is a prefix of another item's encoding; in particular encoding is injective. */
  lemma PrefixFree(x: Item, y: Item, tail: Bytes)
    requires Fits(x) && Fits(y) && Encode(x) + tail == Encode(y)
    ensures x == y && tail == []
  {
    RoundTrip(x, tail);
    RoundTrip(y, []);
    assert Encode(y) + [] == Encode(y);
  }

  /** A buffer decodes exactly when it starts with some item's encoding. */
  lemma DecodesIffStartsWithEncoding(buf: Bytes)
    ensures Decode(buf).Ok? <==> exists item, rest :: Fits(item) && buf == Encode(item) + rest
  {
    if Decode(buf).Ok? {
      Canonical(buf);
    }
    forall item, rest | Fits(item) && buf == Encode(item) + rest
      ensures Decode(buf).Ok?
    {
      RoundTrip(item, rest);
    }
  }
}

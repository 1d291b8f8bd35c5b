/** Printing RLP items as JSON text with hex strings, and converting JSON values to items. */
module RlpText {
  import opened JsonDocument
  import opened Rlp
  import opened Wrappers

  const U256_LIMIT: nat := Pow256(32)

  // ---------------------------------------------------------------------------------------------
  // Hex
  // ---------------------------------------------------------------------------------------------

  const DIGITS: string := "0123456789abcdef"

  function HexDigit(n: nat): char
    requires n < 16
  {
    DIGITS[n]
  }

  function HexValue(c: char): Option<nat> {
    if '0' <= c <= '9' then Some((c - '0') as nat)
    else if 'a' <= c <= 'f' then Some((c - 'a') as nat + 10)
    else if 'A' <= c <= 'F' then Some((c - 'A') as nat + 10)
    else None
  }

  function HexEncode(s: Bytes): string {
    if s == [] then "" else [HexDigit(s[0] / 16), HexDigit(s[0] % 16)] + HexEncode(s[1..])
  }

  function HexPair(a: char, b: char): Option<Byte> {
    var hi, lo := HexValue(a), HexValue(b);
    HexValueBound(a);
    HexValueBound(b);
    if hi.Some? && lo.Some? then Some(hi.value * 16 + lo.value) else None
  }

  function HexPairs(t: string): Option<Bytes> {
    if t == "" then Some([])
    else if |t| == 1 then None
    else
      var first, rest := HexPair(t[0], t[1]), HexPairs(t[2..]);
      if first.Some? && rest.Some? then Some([first.value] + rest.value) else None
  }

  lemma HexValueBound(c: char)
    ensures HexValue(c).Some? ==> HexValue(c).value < 16
  {
  }

  /** A leading `0x` is dropped. */
  function HexDecode(t: string): Option<Bytes> {
    if |t| >= 2 && t[0] == '0' && t[1] == 'x' then HexPairs(t[2..]) else HexPairs(t)
  }

  lemma HexDigitRoundTrip(n: nat)
    requires n < 16
    ensures HexValue(HexDigit(n)) == Some(n)
    ensures HexDigit(n) != '"' && HexDigit(n) != '\\'
  {
    assert DIGITS[0] == '0' && DIGITS[1] == '1' && DIGITS[2] == '2' && DIGITS[3] == '3';
    assert DIGITS[4] == '4' && DIGITS[5] == '5' && DIGITS[6] == '6' && DIGITS[7] == '7';
    assert DIGITS[8] == '8' && DIGITS[9] == '9' && DIGITS[10] == 'a' && DIGITS[11] == 'b';
    assert DIGITS[12] == 'c' && DIGITS[13] == 'd' && DIGITS[14] == 'e' && DIGITS[15] == 'f';
  }

  lemma HexByteRoundTrip(b: Byte)
    ensures HexPair(HexDigit(b / 16), HexDigit(b % 16)) == Some(b)
  {
    HexDigitRoundTrip(b / 16);
    HexDigitRoundTrip(b % 16);
  }

  lemma {:induction false} HexRoundTrip(s: Bytes)
    ensures HexPairs(HexEncode(s)) == Some(s)
  {
    if s != [] {
      HexByteRoundTrip(s[0]);
      HexRoundTrip(s[1..]);
      hide HexPair, HexDigit;
      assert HexEncode(s)[2..] == HexEncode(s[1..]);
      assert s == [s[0]] + s[1..];
    }
  }

  // ---------------------------------------------------------------------------------------------
  // JSON values to items
  // ---------------------------------------------------------------------------------------------

  function ToItem(v: Json): Option<Item> {
    match v
    case Null => Some(Data([]))
    case Bool(_) => None
    case Number(n) => if 0 <= n < U256_LIMIT then Some(Data(BigEndian(n))) else None
    case Fraction(_) => None
    case String(t) => (match HexDecode(t) case None => None case Some(d) => Some(Data(d)))
    case List(vs) => (match ToItems(vs) case None => None case Some(items) => Some(Array(items)))
    case Object(_) => None
  }

  function ToItems(vs: seq<Json>): Option<seq<Item>> {
    if vs == [] then Some([])
    else
      var first, rest := ToItem(vs[0]), ToItems(vs[1..]);
      if first.Some? && rest.Some? then Some([first.value] + rest.value) else None
  }

  predicate Convertible(v: Json) {
    match v
    case Null => true
    case Number(n) => 0 <= n < U256_LIMIT
    case String(t) => HexDecode(t).Some?
    case List(vs) => forall i :: 0 <= i < |vs| ==> Convertible(vs[i])
    case _ => false
  }

  /** Conversion fails exactly when a boolean, an object, bad hex, or a number that is not a 256-bit
      unsigned integer occurs at any depth. */
  lemma {:induction false} ToItemIffConvertible(v: Json)
    ensures ToItem(v).Some? <==> Convertible(v)
    decreases v, 0
  {
    if v.List? {
      ToItemsIffConvertible(v.elements);
    }
  }

  lemma {:induction false} ToItemsIffConvertible(vs: seq<Json>)
    ensures ToItems(vs).Some? <==> forall i :: 0 <= i < |vs| ==> Convertible(vs[i])
    decreases vs, 1
  {
    if vs != [] {
      ToItemIffConvertible(vs[0]);
      ToItemsIffConvertible(vs[1..]);
      assert vs == [vs[0]] + vs[1..];
    }
  }

  /** A number becomes its shortest big-endian form, so it reads back and fits 32 bytes. */
  lemma NumberToItem(n: nat)
    requires n < U256_LIMIT
    ensures ToItem(Number(n)) == Some(Data(BigEndian(n)))
    ensures FromBigEndian(BigEndian(n)) == n && |BigEndian(n)| <= 32
  {
    BigEndianRoundTrip(n);
    BigEndianLength(n, 32);
  }

  // ---------------------------------------------------------------------------------------------
  // Items to text
  // ---------------------------------------------------------------------------------------------

  function Print(item: Item): string {
    match item
    case Data(d) => "\"0x" + HexEncode(d) + "\""
    case Array(items) => "[" + PrintAll(items) + "]"
  }

  function PrintAll(items: seq<Item>): string {
    if items == [] then ""
    else if |items| == 1 then Print(items[0])
    else Print(items[0]) + "," + PrintAll(items[1..])
  }

  /** The JSON value that the printed text denotes. */
  function AsJson(item: Item): Json {
    match item
    case Data(d) => String("0x" + HexEncode(d))
    case Array(items) => List(AsJsonAll(items))
  }

  function AsJsonAll(items: seq<Item>): seq<Json> {
    if items == [] then [] else [AsJson(items[0])] + AsJsonAll(items[1..])
  }

  lemma {:induction false} AsJsonRoundTrip(item: Item)
    ensures ToItem(AsJson(item)) == Some(item)
    decreases item, 0
  {
    match item
    case Data(d) =>
      HexRoundTrip(d);
      assert ("0x" + HexEncode(d))[2..] == HexEncode(d);
    case Array(items) => AsJsonAllRoundTrip(items);
  }

  lemma {:induction false} AsJsonAllRoundTrip(items: seq<Item>)
    ensures ToItems(AsJsonAll(items)) == Some(items)
    decreases items, 1
  {
    if items != [] {
      AsJsonRoundTrip(items[0]);
      AsJsonAllRoundTrip(items[1..]);
      assert items == [items[0]] + items[1..];
      assert AsJsonAll(items)[1..] == AsJsonAll(items[1..]);
    }
  }

  // ---------------------------------------------------------------------------------------------
  // Reading the text back: the part of JSON that printing produces
  // ---------------------------------------------------------------------------------------------

  /** The characters up to the closing quote.  Escapes are not part of what printing produces. */
  function ReadString(t: string): (r: Option<(string, string)>)
    ensures r.Some? ==> |r.value.1| < |t|
  {
    if t == "" || t[0] == '\\' then None
    else if t[0] == '"' then Some(("", t[1..]))
    else
      match ReadString(t[1..])
      case None => None
      case Some((s, rest)) => Some(([t[0]] + s, rest))
  }

  function Read(t: string): (r: Option<(Json, string)>)
    ensures r.Some? ==> |r.value.1| < |t|
    decreases |t|, 0
  {
    if t == "" then None
    else if t[0] == '"' then
      match ReadString(t[1..])
      case None => None
      case Some((s, rest)) => Some((String(s), rest))
    else if t[0] == '[' then
      if |t| > 1 && t[1] == ']' then Some((List([]), t[2..]))
      else
        match ReadElements(t[1..])
        case None => None
        case Some((vs, rest)) => Some((List(vs), rest))
    else None
  }

  /** One or more elements separated by commas, up to and including the closing bracket. */
  function ReadElements(t: string): (r: Option<(seq<Json>, string)>)
    ensures r.Some? ==> |r.value.1| < |t|
    decreases |t|, 1
  {
    match Read(t)
    case None => None
    case Some((v, rest)) =>
      if rest == "" then None
      else if rest[0] == ']' then Some(([v], rest[1..]))
      else if rest[0] == ',' then
        match ReadElements(rest[1..])
        case None => None
        case Some((vs, tail)) => Some(([v] + vs, tail))
      else None
  }

  predicate IsPlain(s: string) {
    forall i :: 0 <= i < |s| ==> s[i] != '"' && s[i] != '\\'
  }

  lemma {:induction false} HexIsPlain(d: Bytes)
    ensures IsPlain(HexEncode(d))
  {
    if d != [] {
      HexDigitRoundTrip(d[0] / 16);
      HexDigitRoundTrip(d[0] % 16);
      HexIsPlain(d[1..]);
    }
  }

  lemma {:induction false} ReadPlain(s: string, tail: string)
    requires IsPlain(s)
    ensures ReadString(s + "\"" + tail) == Some((s, tail))
  {
    var t := s + "\"" + tail;
    if s == "" {
      assert t[1..] == tail;
    } else {
      ReadPlain(s[1..], tail);
      assert t[1..] == s[1..] + "\"" + tail;
      assert s == [s[0]] + s[1..];
    }
  }

  lemma ReadQuoted(d: Bytes, tail: string)
    ensures Read(Print(Data(d)) + tail) == Some((AsJson(Data(d)), tail))
  {
    var body := "0x" + HexEncode(d);
    var t := Print(Data(d)) + tail;
    HexIsPlain(d);
    ReadPlain(body, tail);
    assert t == "\"" + (body + "\"" + tail);
    assert t[1..] == body + "\"" + tail;
  }

  lemma PrintStarts(item: Item)
    ensures Print(item) != "" && (Print(item)[0] == '"' || Print(item)[0] == '[')
  {
  }

  /** Reading printed text gives the value it denotes and leaves exactly what follows. */
  lemma {:induction false} ReadPrinted(item: Item, tail: string)
    ensures Read(Print(item) + tail) == Some((AsJson(item), tail))
    decreases item, 0
  {
    match item
    case Data(d) => ReadQuoted(d, tail);
    case Array(items) =>
      var t := Print(item) + tail;
      if items == [] {
        assert PrintAll(items) == "";
        assert Print(item) == ['[', ']'];
        assert t[2..] == tail;
      } else {
        ReadPrintedElements(items, tail);
        assert t == "[" + (PrintAll(items) + "]" + tail);
        assert t[1..] == PrintAll(items) + "]" + tail;
        PrintStarts(items[0]);
        assert t[1] == Print(items[0])[0];
      }
  }

  lemma {:induction false} ReadPrintedElements(items: seq<Item>, tail: string)
    requires items != []
    ensures ReadElements(PrintAll(items) + "]" + tail) == Some((AsJsonAll(items), tail))
    decreases items, 1
  {
    hide Read, Print, AsJson;
    var t := PrintAll(items) + "]" + tail;
    if |items| == 1 {
      ReadPrinted(items[0], "]" + tail);
      assert t == Print(items[0]) + ("]" + tail);
      assert ("]" + tail)[1..] == tail;
      assert items[1..] == [];
      assert AsJsonAll(items) == [AsJson(items[0])];
    } else {
      var more := PrintAll(items[1..]) + "]" + tail;
      ReadPrinted(items[0], "," + more);
      ReadPrintedElements(items[1..], tail);
      assert t == Print(items[0]) + ("," + more);
      assert ("," + more)[1..] == more;
    }
  }

  /** Printing an item and converting the printed JSON back returns the item. */
  lemma PrintRoundTrip(item: Item)
    ensures Read(Print(item)) == Some((AsJson(item), ""))
    ensures ToItem(AsJson(item)) == Some(item)
  {
    ReadPrinted(item, "");
    assert Print(item) + "" == Print(item);
    AsJsonRoundTrip(item);
  }

  /** So decoding RLP, printing, reading and encoding again reproduces the consumed bytes. */
  lemma DecodePrintEncode(buf: Bytes)
    requires Decode(buf).Ok?
    ensures var (item, rest) := Decode(buf).value;
            && Read(Print(item)).Some?
            && var back := ToItem(Read(Print(item)).value.0);
               back.Some? && Fits(back.value) && buf == Encode(back.value) + rest
  {
    Canonical(buf);
    PrintRoundTrip(Decode(buf).value.0);
  }
}

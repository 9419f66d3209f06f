/**
  JSON values, their bytes as PostgreSQL prints `jsonb`, and the worker's measure of that text.
  Strings are sequences of Unicode scalar values; their bytes are UTF-8 (section 3 of RFC 3629).
*/
module Json {
  import opened Common
  import opened Numerals

  type Byte = b: int | 0 <= b < 256

  datatype Json =
    | Null
    | Bool(value: bool)
    | Number(numeral: Numeral)
    | Str(text: string)
    | Arr(items: seq<Json>)
    | Obj(fields: seq<Field>)

  /** The entries of an object, in its iteration order; an object holds each key once. */
  datatype Field = Field(key: string, value: Json)

  // ----------------------------------------------------------------- UTF-8

  function Utf8(c: char): seq<Byte> {
    var u := c as int;
    if u < 0x80 then [u]
    else if u < 0x800 then [0xC0 + u / 64, 0x80 + u % 64]
    else if u < 0x10000 then [0xE0 + u / 4096, 0x80 + u / 64 % 64, 0x80 + u % 64]
    else [0xF0 + u / 262144, 0x80 + u / 4096 % 64, 0x80 + u / 64 % 64, 0x80 + u % 64]
  }

  function Encode(s: string): seq<Byte> {
    if s == "" then [] else Utf8(s[0]) + Encode(s[1..])
  }

  /** `str::len`. */
  function ByteLen(s: string): nat {
    |Encode(s)|
  }

  lemma {:induction false} EncodeConcat(s: string, t: string)
    ensures Encode(s + t) == Encode(s) + Encode(t)
  {
    if s == "" {
      assert s + t == t;
    } else {
      assert (s + t)[1..] == s[1..] + t;
      EncodeConcat(s[1..], t);
    }
  }

  // ------------------------------------------------------------ jsonb text

  predicate Ascii(s: string) {
    forall i | 0 <= i < |s| :: s[i] as int < 0x80
  }

  function Bytes(s: string): seq<Byte>
    requires Ascii(s)
  {
    seq(|s|, i requires 0 <= i < |s| => s[i] as int)
  }

  function HexDigit(d: nat): Byte
    requires d < 16
  {
    if d < 10 then 0x30 + d else 0x61 + d - 10
  }

  /** Escaping as in section 7 of RFC 8259; only what must be escaped is. */
  function Escaped(c: char): seq<Byte> {
    var u := c as int;
    if c == '\"' || c == '\\' then [0x5C, u]
    else if u == 0x08 then Bytes("\\b")
    else if u == 0x0C then Bytes("\\f")
    else if c == '\n' then Bytes("\\n")
    else if c == '\r' then Bytes("\\r")
    else if c == '\t' then Bytes("\\t")
    else if u < 0x20 then Bytes("\\u00") + [HexDigit(u / 16), HexDigit(u % 16)]
    else Utf8(c)
  }

  function EscapedAll(s: string): seq<Byte> {
    if s == "" then [] else Escaped(s[0]) + EscapedAll(s[1..])
  }

  function Quoted(s: string): seq<Byte> {
    [0x22] + EscapedAll(s) + [0x22]
  }

  lemma PrintIsAscii(negative: bool, whole: Digits, fraction: Digits)
    ensures Ascii(Print(negative, whole, fraction))
  {
  }

  lemma NumericIsAscii(n: Numeral)
    ensures Ascii(NumericOut(n))
  {
    hide Print, Ascii;
    PrintIsAscii(n.negative && !IsZero(AllOf(n)), Stripped(WholePart(AllOf(n), Point(n))), FractionPart(AllOf(n), Point(n)));
  }

  function NumericBytes(n: Numeral): seq<Byte> {
    NumericIsAscii(n);
    Bytes(NumericOut(n))
  }

  /** `value::text`. */
  function Render(v: Json): seq<Byte>
    decreases v
  {
    match v
    case Null => Bytes("null")
    case Bool(b) => if b then Bytes("true") else Bytes("false")
    case Number(n) => NumericBytes(n)
    case Str(s) => Quoted(s)
    case Arr(items) => Bytes("[") + RenderItems(items) + Bytes("]")
    case Obj(fields) => Bytes("{") + RenderFields(fields) + Bytes("}")
  }

  function RenderItems(items: seq<Json>): seq<Byte>
    decreases items
  {
    if items == [] then []
    else Render(items[0]) + (if |items| > 1 then Bytes(", ") else []) + RenderItems(items[1..])
  }

  function RenderFields(fields: seq<Field>): seq<Byte>
    decreases fields
  {
    if fields == [] then []
    else
      Quoted(fields[0].key) + Bytes(": ") + Render(fields[0].value)
      + (if |fields| > 1 then Bytes(", ") else []) + RenderFields(fields[1..])
  }

  // ------------------------------------------------------- the worker's measure

  function CharLen(c: char): nat {
    var u := c as int;
    if c in "\"\\\n\r\t" || u == 0x08 || u == 0x0C then 2
    else if u < 0x20 then 6
    else |Utf8(c)|
  }

  function CharsLen(s: string): nat {
    if s == "" then 0 else CharLen(s[0]) + CharsLen(s[1..])
  }

  function JsonbStringLen(s: string): nat {
    2 + CharsLen(s)
  }

  function JsonbTextLen(v: Json): nat
    decreases v
  {
    match v
    case Null => 4
    case Bool(b) => if b then 4 else 5
    case Number(n) => NumericTextLen(Text(n))
    case Str(s) => JsonbStringLen(s)
    case Arr(items) => 2 + ItemsLen(items) + 2 * Minus(|items|, 1)
    case Obj(fields) => 2 + FieldsLen(fields) + 2 * Minus(|fields|, 1)
  }

  function ItemsLen(items: seq<Json>): nat
    decreases items
  {
    if items == [] then 0 else JsonbTextLen(items[0]) + ItemsLen(items[1..])
  }

  function FieldsLen(fields: seq<Field>): nat
    decreases fields
  {
    if fields == [] then 0
    else JsonbStringLen(fields[0].key) + 2 + JsonbTextLen(fields[0].value) + FieldsLen(fields[1..])
  }

  // --------------------------------------------------------- they agree

  lemma {:induction false} QuotedLength(s: string)
    ensures |Quoted(s)| == JsonbStringLen(s)
  {
    EscapedLength(s);
  }

  lemma {:induction false} EscapedLength(s: string)
    ensures |EscapedAll(s)| == CharsLen(s)
  {
    if s != "" {
      EscapedLength(s[1..]);
    }
  }

  /** Every number in the tree is one PostgreSQL accepts. */
  predicate Storable(v: Json)
    decreases v
  {
    match v
    case Number(n) => Accepted(n)
    case Arr(items) => forall i | 0 <= i < |items| :: Storable(items[i])
    case Obj(fields) => forall i | 0 <= i < |fields| :: Storable(fields[i].value)
    case _ => true
  }

  /** Every number in the tree is one the worker measures exactly. */
  predicate ExactNumbers(v: Json)
    requires Storable(v)
    decreases v
  {
    match v
    case Number(n) => Exact(n)
    case Arr(items) => forall i | 0 <= i < |items| :: ExactNumbers(items[i])
    case Obj(fields) => forall i | 0 <= i < |fields| :: ExactNumbers(fields[i].value)
    case _ => true
  }

  /** The measure is never short of the printed text, and equals it exactly when every number is measured exactly. */
  lemma {:induction false} MeasureExact(v: Json)
    requires Storable(v)
    ensures |Render(v)| <= JsonbTextLen(v)
    ensures |Render(v)| == JsonbTextLen(v) <==> ExactNumbers(v)
    decreases v
  {
    hide NumericOut, NumericTextLen, Accepted, Exact;
    match v
    case Number(n) => LengthExact(n);
    case Str(s) => QuotedLength(s);
    case Arr(items) => ItemsExact(items);
    case Obj(fields) => FieldsExact(fields);
    case _ =>
  }

  lemma {:induction false} ItemsExact(items: seq<Json>)
    requires forall i | 0 <= i < |items| :: Storable(items[i])
    ensures |RenderItems(items)| <= ItemsLen(items) + 2 * Minus(|items|, 1)
    ensures |RenderItems(items)| == ItemsLen(items) + 2 * Minus(|items|, 1)
      <==> forall i | 0 <= i < |items| :: ExactNumbers(items[i])
    decreases items
  {
    if items != [] {
      MeasureExact(items[0]);
      ItemsExact(items[1..]);
      assert forall i | 0 <= i < |items[1..]| :: items[1..][i] == items[i + 1];
      assert (forall i | 0 <= i < |items| :: ExactNumbers(items[i]))
        <==> ExactNumbers(items[0]) && forall i | 0 <= i < |items[1..]| :: ExactNumbers(items[1..][i]);
    }
  }

  lemma {:induction false} FieldsExact(fields: seq<Field>)
    requires forall i | 0 <= i < |fields| :: Storable(fields[i].value)
    ensures |RenderFields(fields)| <= FieldsLen(fields) + 2 * Minus(|fields|, 1)
    ensures |RenderFields(fields)| == FieldsLen(fields) + 2 * Minus(|fields|, 1)
      <==> forall i | 0 <= i < |fields| :: ExactNumbers(fields[i].value)
    decreases fields
  {
    if fields != [] {
      QuotedLength(fields[0].key);
      MeasureExact(fields[0].value);
      FieldsExact(fields[1..]);
      assert forall i | 0 <= i < |fields[1..]| :: fields[1..][i] == fields[i + 1];
      assert (forall i | 0 <= i < |fields| :: ExactNumbers(fields[i].value))
        <==> ExactNumbers(fields[0].value) && forall i | 0 <= i < |fields[1..]| :: ExactNumbers(fields[1..][i].value);
    }
  }
}

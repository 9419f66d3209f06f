/**
  Shortening strings at character boundaries, and finding how far every string of an error must be
  shortened for it to fit. Fitting is not monotone in the cap, because the mark of a cut takes room.
*/
module Truncation {
  import opened Common
  import opened Numerals
  import opened Json
  import opened Outcome

  // ------------------------------------------------------------ one string

  /** As many whole characters as fit in `cap` bytes. */
  function LongestPrefix(s: string, cap: nat): string {
    if s == "" || |Utf8(s[0])| > cap then ""
    else [s[0]] + LongestPrefix(s[1..], cap - |Utf8(s[0])|)
  }

  /** It is a prefix that fits, and one character more would not. */
  lemma {:induction false} PrefixMaximal(s: string, cap: nat)
    ensures var k := |LongestPrefix(s, cap)|;
      && k <= |s| && LongestPrefix(s, cap) == s[..k] && ByteLen(s[..k]) <= cap
      && (k < |s| ==> ByteLen(s[..k + 1]) > cap)
  {
    if s != "" && |Utf8(s[0])| <= cap {
      var rest := cap - |Utf8(s[0])|;
      PrefixMaximal(s[1..], rest);
      var k := |LongestPrefix(s[1..], rest)|;
      assert s[..k + 1] == [s[0]] + s[1..][..k];
      if k + 1 < |s| {
        assert s[..k + 2] == [s[0]] + s[1..][..k + 1];
      }
    } else if s != "" {
      assert s[..1] == [s[0]] && s[..0] == "";
    }
  }

  /** What is kept of a string under a cap. */
  function Truncated(s: string, cap: nat): string {
    if ByteLen(s) <= cap then s else LongestPrefix(s, cap) + ELLIPSIS
  }

  /** `t` is all of `s` if that is within the cap; otherwise the longest beginning of it that is, and the mark of a cut. */
  ghost predicate Shortened(s: string, cap: nat, t: string) {
    if ByteLen(s) <= cap then t == s
    else exists k | 0 <= k < |s| :: ByteLen(s[..k]) <= cap < ByteLen(s[..k + 1]) && t == s[..k] + "\U{2026}"
  }

  lemma TruncatedShortens(s: string, cap: nat)
    ensures Shortened(s, cap, Truncated(s, cap))
  {
    if ByteLen(s) > cap {
      PrefixMaximal(s, cap);
      var k := |LongestPrefix(s, cap)|;
      assert k < |s| by { assert s[..|s|] == s; }
      assert ByteLen(s[..k]) <= cap < ByteLen(s[..k + 1]) && Truncated(s, cap) == s[..k] + "\U{2026}";
    }
  }

  /** `str::is_char_boundary`. */
  predicate Boundary(bytes: seq<Byte>, i: nat) {
    i == 0 || i == |bytes| || (i < |bytes| && !(0x80 <= bytes[i] < 0xC0))
  }

  lemma CharBytes(c: char)
    ensures |Utf8(c)| >= 1 && !(0x80 <= Utf8(c)[0] < 0xC0)
    ensures forall i | 1 <= i < |Utf8(c)| :: 0x80 <= Utf8(c)[i] < 0xC0
  {
  }

  /** Between the start of character `k` and its end, only continuation bytes. */
  lemma InsideCharacter(s: string, k: nat, i: nat)
    requires k < |s| && ByteLen(s[..k]) <= i < ByteLen(s[..k + 1])
    ensures i < ByteLen(s) && (Boundary(Encode(s), i) <==> i == ByteLen(s[..k]))
  {
    hide Utf8, Encode;
    EncodeNext(s, k);
    EncodeSplit(s, k + 1);
    CharBytes(s[k]);
    assert Encode(s)[i] == Utf8(s[k])[i - |Encode(s[..k])|];
  }

  lemma EncodeOne(c: char)
    ensures Encode([c]) == Utf8(c)
  {
    hide Utf8;
    assert [c][1..] == "";
  }

  lemma EncodeNext(s: string, k: nat)
    requires k < |s|
    ensures Encode(s[..k + 1]) == Encode(s[..k]) + Utf8(s[k])
  {
    hide Utf8, Encode;
    EncodeOne(s[k]);
    assert s[..k + 1] == s[..k] + [s[k]];
    EncodeConcat(s[..k], [s[k]]);
  }

  lemma EncodeSplit(s: string, k: nat)
    requires k <= |s|
    ensures Encode(s) == Encode(s[..k]) + Encode(s[k..])
  {
    hide Encode;
    assert s == s[..k] + s[k..];
    EncodeConcat(s[..k], s[k..]);
  }

  method TruncateString(bytes: seq<Byte>, cap: nat, ghost s: string) returns (r: seq<Byte>)
    requires bytes == Encode(s)
    ensures exists t :: Shortened(s, cap, t) && r == Encode(t)
    ensures r == Encode(Truncated(s, cap))
  {
    TruncatedShortens(s, cap);
    if |bytes| <= cap {
      return bytes;
    }
    ghost var k := |LongestPrefix(s, cap)|;
    PrefixMaximal(s, cap);
    ghost var start := ByteLen(s[..k]);
    assert k < |s| by { assert s[..|s|] == s; }
    InsideCharacter(s, k, start);
    var end := cap;
    while !Boundary(bytes, end)
      invariant start <= end <= cap
      decreases end
    {
      end := end - 1;
    }
    InsideCharacter(s, k, end);
    EncodeSplit(s, k);
    EncodeConcat(s[..k], ELLIPSIS);
    r := bytes[..end] + Encode(ELLIPSIS);
  }

  // ---------------------------------------------------------- every string

  function CapStrings(v: Json, cap: nat): Json
    decreases v
  {
    match v
    case Str(s) => Str(Truncated(s, cap))
    case Arr(items) => Arr(CapItems(items, cap))
    case Obj(fields) => Obj(CapFields(fields, cap))
    case _ => v
  }

  function CapItems(items: seq<Json>, cap: nat): (r: seq<Json>)
    ensures |r| == |items|
    decreases items
  {
    if items == [] then [] else [CapStrings(items[0], cap)] + CapItems(items[1..], cap)
  }

  function CapFields(fields: seq<Field>, cap: nat): (r: seq<Field>)
    ensures |r| == |fields|
    decreases fields
  {
    if fields == [] then []
    else [Field(fields[0].key, CapStrings(fields[0].value, cap))] + CapFields(fields[1..], cap)
  }

  function LongestString(v: Json): nat
    decreases v
  {
    match v
    case Str(s) => ByteLen(s)
    case Arr(items) => LongestItem(items)
    case Obj(fields) => LongestField(fields)
    case _ => 0
  }

  function LongestItem(items: seq<Json>): nat
    decreases items
  {
    if items == [] then 0 else Max(LongestString(items[0]), LongestItem(items[1..]))
  }

  function LongestField(fields: seq<Field>): nat
    decreases fields
  {
    if fields == [] then 0 else Max(LongestString(fields[0].value), LongestField(fields[1..]))
  }

  lemma {:induction false} CapItemsAt(items: seq<Json>, cap: nat, i: nat)
    requires i < |items|
    ensures CapItems(items, cap)[i] == CapStrings(items[i], cap)
  {
    if i > 0 {
      CapItemsAt(items[1..], cap, i - 1);
    }
  }

  lemma {:induction false} CapFieldsAt(fields: seq<Field>, cap: nat, i: nat)
    requires i < |fields|
    ensures CapFields(fields, cap)[i] == Field(fields[i].key, CapStrings(fields[i].value, cap))
  {
    if i > 0 {
      CapFieldsAt(fields[1..], cap, i - 1);
    }
  }

  /** The value at the end of a path of array and object positions. */
  function At(v: Json, path: seq<nat>): Option<Json>
    decreases |path|
  {
    if path == [] then Some(v)
    else
      match v
      case Arr(items) => if path[0] < |items| then At(items[path[0]], path[1..]) else None
      case Obj(fields) => if path[0] < |fields| then At(fields[path[0]].value, path[1..]) else None
      case _ => None
  }

  lemma {:induction false} CapAt(v: Json, cap: nat, path: seq<nat>)
    ensures At(CapStrings(v, cap), path) ==
      if At(v, path).Some? then Some(CapStrings(At(v, path).value, cap)) else None
    decreases |path|
  {
    if path != [] {
      match v
      case Arr(items) =>
        if path[0] < |items| {
          CapItemsAt(items, cap, path[0]);
          CapAt(items[path[0]], cap, path[1..]);
        }
      case Obj(fields) =>
        if path[0] < |fields| {
          CapFieldsAt(fields, cap, path[0]);
          CapAt(fields[path[0]].value, cap, path[1..]);
        }
      case _ =>
    }
  }

  /** One value and what is left of it: a string shortened, an array as long, an object with the same keys, the rest kept. */
  ghost predicate CutTo(a: Json, b: Json, cap: nat) {
    match a
    case Str(s) => b.Str? && Shortened(s, cap, b.text)
    case Arr(items) => b.Arr? && |b.items| == |items|
    case Obj(fields) => b.Obj? && |b.fields| == |fields| && forall i | 0 <= i < |fields| :: b.fields[i].key == fields[i].key
    case _ => b == a
  }

  /** Wherever one looks, there is what was there, and each string is cut on its own. */
  ghost predicate CutEverywhere(before: Json, after: Json, cap: nat) {
    forall path: seq<nat> ::
      && (At(after, path).Some? <==> At(before, path).Some?)
      && (At(before, path).Some? ==> CutTo(At(before, path).value, At(after, path).value, cap))
  }

  lemma CapEverywhere(v: Json, cap: nat)
    ensures CutEverywhere(v, CapStrings(v, cap), cap)
  {
    forall path: seq<nat>
      ensures At(CapStrings(v, cap), path).Some? <==> At(v, path).Some?
      ensures At(v, path).Some? ==> CutTo(At(v, path).value, At(CapStrings(v, cap), path).value, cap)
    {
      CapAt(v, cap, path);
      if At(v, path).Some? {
        CapCuts(At(v, path).value, cap);
      }
    }
  }

  lemma CapCuts(v: Json, cap: nat)
    ensures CutTo(v, CapStrings(v, cap), cap)
  {
    match v
    case Str(s) => TruncatedShortens(s, cap);
    case Obj(fields) =>
      forall i | 0 <= i < |fields|
        ensures CapFields(fields, cap)[i].key == fields[i].key
      {
        CapFieldsAt(fields, cap, i);
      }
    case _ =>
  }

  /** A cap no string exceeds changes nothing; below that, every string is within the cap and its mark. */
  lemma {:induction false} CapBounds(v: Json, cap: nat)
    ensures cap >= LongestString(v) ==> CapStrings(v, cap) == v
    ensures LongestString(CapStrings(v, cap)) <= cap + 3
    decreases v
  {
    match v
    case Str(s) => TruncatedBound(s, cap);
    case Arr(items) => CapItemsBounds(items, cap);
    case Obj(fields) => CapFieldsBounds(fields, cap);
    case _ =>
  }

  lemma {:induction false} CapItemsBounds(items: seq<Json>, cap: nat)
    ensures cap >= LongestItem(items) ==> CapItems(items, cap) == items
    ensures LongestItem(CapItems(items, cap)) <= cap + 3
    decreases items
  {
    if items != [] {
      CapBounds(items[0], cap);
      CapItemsBounds(items[1..], cap);
    }
  }

  lemma {:induction false} CapFieldsBounds(fields: seq<Field>, cap: nat)
    ensures cap >= LongestField(fields) ==> CapFields(fields, cap) == fields
    ensures LongestField(CapFields(fields, cap)) <= cap + 3
    decreases fields
  {
    if fields != [] {
      CapBounds(fields[0].value, cap);
      CapFieldsBounds(fields[1..], cap);
    }
  }

  lemma TruncatedBound(s: string, cap: nat)
    ensures ByteLen(Truncated(s, cap)) <= cap + 3
    ensures NUL !in s ==> NUL !in Truncated(s, cap)
  {
    PrefixMaximal(s, cap);
    EncodeConcat(LongestPrefix(s, cap), ELLIPSIS);
    assert |Encode(ELLIPSIS)| == 3 by { assert ELLIPSIS[1..] == ""; }
  }

  lemma {:induction false} CapKeepsShape(v: Json, cap: nat)
    ensures NulFree(v) ==> NulFree(CapStrings(v, cap))
    ensures WellFormed(v) ==> WellFormed(CapStrings(v, cap))
    ensures Storable(v) ==> Storable(CapStrings(v, cap))
    decreases v
  {
    match v
    case Str(s) => TruncatedBound(s, cap);
    case Arr(items) =>
      forall i | 0 <= i < |items|
        ensures CapItems(items, cap)[i] == CapStrings(items[i], cap)
        ensures NulFree(items[i]) ==> NulFree(CapItems(items, cap)[i])
        ensures WellFormed(items[i]) ==> WellFormed(CapItems(items, cap)[i])
        ensures Storable(items[i]) ==> Storable(CapItems(items, cap)[i])
      {
        CapItemsAt(items, cap, i);
        CapKeepsShape(items[i], cap);
      }
    case Obj(fields) =>
      forall i | 0 <= i < |fields|
        ensures CapFields(fields, cap)[i].key == fields[i].key
        ensures NulFree(fields[i].value) ==> NulFree(CapFields(fields, cap)[i].value)
        ensures WellFormed(fields[i].value) ==> WellFormed(CapFields(fields, cap)[i].value)
        ensures Storable(fields[i].value) ==> Storable(CapFields(fields, cap)[i].value)
      {
        CapFieldsAt(fields, cap, i);
        CapKeepsShape(fields[i].value, cap);
      }
    case _ =>
  }

  lemma {:induction false} CapLookup(fields: seq<Field>, cap: nat, key: string)
    ensures Lookup(CapFields(fields, cap), key) ==
      if Lookup(fields, key).Some? then Some(CapStrings(Lookup(fields, key).value, cap)) else None
  {
    if fields != [] {
      CapLookup(fields[1..], cap, key);
    }
  }

  // ------------------------------------------------------------- the search

  function Decimal(n: nat): Digits {
    if n < 10 then [('0' as int + n) as char] else Decimal(n / 10) + [('0' as int + n % 10) as char]
  }

  function Count(n: nat): Json {
    Number(Numeral(false, Decimal(n), None, None))
  }

  /** The error marked as truncated; what is not an object becomes the `value` of one. */
  function Marked(v: Json, bytes: nat): Json {
    var fields := if v.Obj? then v.fields else [Field("value", v)];
    Obj(Insert(Insert(fields, "truncated", Bool(true)), "original_bytes", Count(bytes)))
  }

  function Candidate(error: Json, bytes: nat, cap: nat): Json {
    Marked(CapStrings(error, cap), bytes)
  }

  predicate Fits(error: Json, bytes: nat, cap: nat) {
    JsonbTextLen(Candidate(error, bytes, cap)) <= ERROR_LIMIT
  }

  /** The error's own type, if it is a short string. */
  function Label(error: Json): string {
    var kind := Get(error, "type");
    if kind.Some? && kind.value.Str? && ByteLen(kind.value.text) <= 255 then kind.value.text else "handler_error"
  }

  function Bare(error: Json, bytes: nat): seq<Field> {
    [Field("type", Str(Label(error))), Field("truncated", Bool(true)), Field("original_bytes", Count(bytes))]
  }

  /** What is left of an error no cap can make fit. */
  function Summary(error: Json, bytes: nat): Json {
    var retryable := Get(error, "retryable");
    if retryable.Some? && retryable.value.Bool? then Obj(Insert(Bare(error, bytes), "retryable", retryable.value))
    else Obj(Bare(error, bytes))
  }

  /** A cap that fits and cannot be raised by one. */
  predicate Settled(error: Json, bytes: nat, cap: nat) {
    && cap <= LongestString(error)
    && Fits(error, bytes, cap)
    && (cap == LongestString(error) || !Fits(error, bytes, cap + 1))
  }

  method TruncateError(error: Json, bytes: nat) returns (r: Json)
    ensures !Fits(error, bytes, 0) ==> r == Summary(error, bytes)
    ensures Fits(error, bytes, 0) ==> exists cap: nat :: Settled(error, bytes, cap) && r == Candidate(error, bytes, cap)
  {
    hide Candidate, Summary, LongestString, JsonbTextLen;
    var low, high := 0, LongestString(error);
    var best := if Fits(error, bytes, low) then Some(Candidate(error, bytes, low)) else None;
    while best.Some? && low < high
      invariant 0 <= low <= high <= LongestString(error)
      invariant best == if Fits(error, bytes, low) then Some(Candidate(error, bytes, low)) else None
      invariant best.Some? <==> Fits(error, bytes, 0)
      invariant high == LongestString(error) || !Fits(error, bytes, high + 1)
      decreases high - low
    {
      var middle := low + (high - low + 1) / 2;
      if Fits(error, bytes, middle) {
        low := middle;
        best := Some(Candidate(error, bytes, middle));
      } else {
        high := middle - 1;
      }
    }
    if best.Some? {
      r := best.value;
      assert Settled(error, bytes, low);
    } else {
      r := Summary(error, bytes);
    }
  }
}

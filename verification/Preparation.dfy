/** What is finally written of a handler's result or error. */
module Preparation {
  import opened Common
  import opened Numerals
  import opened Json
  import opened Outcome
  import opened Truncation

  datatype PreparedResult = Result(value: Json) | TooLarge(error: Json)

  predicate Clean(v: Json) {
    NulFree(v) && WellFormed(v)
  }

  // -------------------------------------------------------------- counts

  function Ten(k: nat): nat {
    if k == 0 then 1 else 10 * Ten(k - 1)
  }

  /** A byte count is a JSON number that reads back as itself. */
  lemma {:induction false} DecimalReads(n: nat)
    ensures Value(Decimal(n)) == n
    ensures Decimal(n) != "" && (Decimal(n)[0] == '0' ==> n == 0 && |Decimal(n)| == 1)
  {
    if n < 10 {
      assert Decimal(n)[..0] == "";
    } else {
      DecimalReads(n / 10);
      assert Decimal(n)[..|Decimal(n)| - 1] == Decimal(n / 10);
    }
  }

  lemma {:induction false} DecimalLength(n: nat, k: nat)
    requires k >= 1 && n < Ten(k)
    ensures |Decimal(n)| <= k
  {
    if n >= 10 {
      DecimalLength(n / 10, k - 1);
    }
  }

  lemma TwentyDigits(n: nat)
    requires n < USIZE
    ensures |Decimal(n)| <= 20
  {
    hide Decimal;
    assert Ten(5) == 100_000;
    assert Ten(10) == 10_000_000_000;
    assert Ten(15) == 1_000_000_000_000_000;
    assert Ten(20) == 100_000_000_000_000_000_000;
    DecimalLength(n, 20);
  }

  lemma CountFacts(n: nat)
    requires n < USIZE
    ensures JsonbTextLen(Count(n)) <= 20 && Storable(Count(n)) && Clean(Count(n))
  {
    hide Decimal, Find, Value;
    DecimalReads(n);
    TwentyDigits(n);
    var numeral := Count(n).numeral;
    MarkFound(numeral);
    assert Text(numeral) == Mantissa(numeral) == Decimal(n);
  }

  // ---------------------------------------------------- marking and summing up

  lemma InsertClean(fields: seq<Field>, key: string, value: Json)
    requires Clean(Obj(fields)) && Clean(value) && NUL !in key
    ensures Clean(Obj(Insert(fields, key, value)))
    ensures Storable(Obj(fields)) && Storable(value) ==> Storable(Obj(Insert(fields, key, value)))
  {
    InsertDistinct(fields, key, value);
    forall i | 0 <= i < |Insert(fields, key, value)|
      ensures Insert(fields, key, value)[i] == Field(key, value) || Insert(fields, key, value)[i] in fields
    {
      InsertEntries(fields, key, value, i);
    }
  }

  lemma MarkedClean(v: Json, bytes: nat)
    requires Clean(v) && bytes < USIZE
    ensures Clean(Marked(v, bytes))
    ensures Storable(v) ==> Storable(Marked(v, bytes))
  {
    hide Insert;
    CountFacts(bytes);
    var fields := if v.Obj? then v.fields else [Field("value", v)];
    assert Clean(Obj(fields)) && (Storable(v) ==> Storable(Obj(fields)));
    InsertClean(fields, "truncated", Bool(true));
    InsertClean(Insert(fields, "truncated", Bool(true)), "original_bytes", Count(bytes));
  }

  lemma MarkedGet(v: Json, bytes: nat, key: string)
    ensures Get(Marked(v, bytes), key) ==
      if key == "original_bytes" then Some(Count(bytes))
      else if key == "truncated" then Some(Bool(true))
      else if v.Obj? then Get(v, key)
      else if key == "value" then Some(v)
      else None
  {
    var fields := if v.Obj? then v.fields else [Field("value", v)];
    InsertLookup(fields, "truncated", Bool(true), key);
    InsertLookup(Insert(fields, "truncated", Bool(true)), "original_bytes", Count(bytes), key);
    assert [Field("value", v)][1..] == [];
  }

  lemma {:induction false} CharsBound(s: string)
    ensures CharsLen(s) <= 6 * |s| && |s| <= ByteLen(s)
  {
    if s != "" {
      CharsBound(s[1..]);
    }
  }

  predicate Small(f: Field) {
    JsonbStringLen(f.key) + 2 + JsonbTextLen(f.value) <= 4_000
  }

  lemma {:induction false} FieldsBound(fields: seq<Field>)
    requires forall i | 0 <= i < |fields| :: Small(fields[i])
    ensures FieldsLen(fields) <= 4_000 * |fields|
  {
    hide JsonbStringLen, JsonbTextLen;
    if fields != [] {
      FieldsBound(fields[1..]);
      assert Small(fields[0]);
    }
  }

  lemma SmallObject(fields: seq<Field>)
    requires |fields| <= 4 && forall i | 0 <= i < |fields| :: Small(fields[i])
    ensures JsonbTextLen(Obj(fields)) <= 16_008
  {
    FieldsBound(fields);
  }

  lemma ShortText(s: string)
    requires ByteLen(s) <= 255 || |s| <= 255
    ensures JsonbTextLen(Str(s)) == JsonbStringLen(s) <= 1_532
  {
    CharsBound(s);
  }

  lemma {:induction false} LookupClean(fields: seq<Field>, key: string)
    requires Clean(Obj(fields)) && Lookup(fields, key).Some?
    ensures Clean(Lookup(fields, key).value)
  {
    if fields[0].key != key {
      assert forall i | 0 <= i < |fields[1..]| :: fields[1..][i] == fields[i + 1];
      LookupClean(fields[1..], key);
    }
  }

  lemma LabelClean(error: Json)
    requires Clean(error)
    ensures Clean(Str(Label(error))) && JsonbTextLen(Str(Label(error))) <= 1_532
  {
    if Get(error, "type").Some? {
      LookupClean(error.fields, "type");
    }
    ShortText(Label(error));
  }

  lemma BareSmall(error: Json, bytes: nat, i: nat)
    requires Clean(error) && bytes < USIZE && i < 3
    ensures Small(Bare(error, bytes)[i])
  {
    hide CharsLen, NumericTextLen, Label, Decimal, Clean, Count;
    LabelClean(error);
    CountFacts(bytes);
    ShortText("type");
    ShortText("truncated");
    ShortText("original_bytes");
  }

  lemma ObjectClean(fields: seq<Field>)
    requires DistinctKeys(fields) && PlainKeys(fields)
    requires forall i | 0 <= i < |fields| :: Clean(fields[i].value) && Storable(fields[i].value)
    ensures Clean(Obj(fields)) && Storable(Obj(fields))
  {
  }

  lemma BareClean(error: Json, bytes: nat)
    requires Clean(error) && bytes < USIZE
    ensures Clean(Obj(Bare(error, bytes))) && Storable(Obj(Bare(error, bytes)))
  {
    hide JsonbTextLen, Label, Count, NulFree, WellFormed, DistinctKeys, PlainKeys;
    LabelClean(error);
    CountFacts(bytes);
    BareKeys(error, bytes);
    TrueClean();
    ObjectClean(Bare(error, bytes));
  }

  lemma TrueClean()
    ensures Clean(Bool(true))
  {
  }

  lemma BareKeys(error: Json, bytes: nat)
    ensures PlainKeys(Bare(error, bytes)) && DistinctKeys(Bare(error, bytes))
  {
  }

  lemma SummarySmall(fields: seq<Field>, retryable: Json)
    requires |fields| <= 3 && retryable.Bool? && forall i | 0 <= i < |fields| :: Small(fields[i])
    ensures JsonbTextLen(Obj(Insert(fields, "retryable", retryable))) <= 16_008
  {
    var more := Insert(fields, "retryable", retryable);
    ShortText("retryable");
    assert Small(Field("retryable", retryable));
    hide Small, JsonbTextLen;
    InsertSize(fields, "retryable", retryable);
    forall i | 0 <= i < |more|
      ensures Small(more[i])
    {
      InsertEntries(fields, "retryable", retryable, i);
    }
    SmallObject(more);
  }

  lemma SummaryFacts(error: Json, bytes: nat)
    requires Clean(error) && bytes < USIZE
    ensures Clean(Summary(error, bytes)) && Storable(Summary(error, bytes))
    ensures JsonbTextLen(Summary(error, bytes)) <= ERROR_LIMIT
  {
    var bare := Bare(error, bytes);
    forall i | 0 <= i < |bare|
      ensures Small(bare[i])
    {
      BareSmall(error, bytes, i);
    }
    BareClean(error, bytes);
    SmallObject(bare);
    var retryable := Get(error, "retryable");
    if retryable.Some? && retryable.value.Bool? {
      assert Clean(retryable.value) && Storable(retryable.value);
      hide Clean, Storable, JsonbTextLen, Bare, Small, Insert, Lookup;
      InsertClean(bare, "retryable", retryable.value);
      SummarySmall(bare, retryable.value);
    }
  }

  lemma {:induction false} InsertSize(fields: seq<Field>, key: string, value: Json)
    ensures |Insert(fields, key, value)| <= |fields| + 1
  {
    if fields != [] && fields[0].key != key {
      InsertSize(fields[1..], key, value);
    }
  }

  lemma BareGet(error: Json, bytes: nat, key: string)
    ensures Lookup(Bare(error, bytes), key) ==
      if key == "type" then Some(Str(Label(error)))
      else if key == "truncated" then Some(Bool(true))
      else if key == "original_bytes" then Some(Count(bytes))
      else None
  {
    hide Label, Count;
    var bare := Bare(error, bytes);
    assert bare[1..] == [bare[1], bare[2]] && [bare[1], bare[2]][1..] == [bare[2]] && [bare[2]][1..] == [];
    assert Lookup([bare[2]], key) == if key == "original_bytes" then Some(Count(bytes)) else None;
  }

  /** The error has a type of its own, a short string. */
  predicate Typed(error: Json) {
    var kind := Get(error, "type");
    kind.Some? && kind.value.Str? && ByteLen(kind.value.text) <= 255
  }

  lemma SummaryGet(error: Json, bytes: nat)
    ensures Get(Summary(error, bytes), "type") == if Typed(error) then Get(error, "type") else Some(Str("handler_error"))
    ensures Get(Summary(error, bytes), "truncated") == Some(Bool(true))
    ensures Get(Summary(error, bytes), "original_bytes") == Some(Count(bytes))
    ensures Get(Summary(error, bytes), "retryable") ==
      if Get(error, "retryable").Some? && Get(error, "retryable").value.Bool? then Get(error, "retryable") else None
  {
    hide Lookup, Insert;
    var bare := Bare(error, bytes);
    BareGet(error, bytes, "type");
    BareGet(error, bytes, "truncated");
    BareGet(error, bytes, "original_bytes");
    BareGet(error, bytes, "retryable");
    var retryable := Get(error, "retryable");
    if retryable.Some? {
      InsertLookup(bare, "retryable", retryable.value, "type");
      InsertLookup(bare, "retryable", retryable.value, "truncated");
      InsertLookup(bare, "retryable", retryable.value, "original_bytes");
      InsertLookup(bare, "retryable", retryable.value, "retryable");
    }
  }

  // ------------------------------------------------------------ escaping

  /** Numbers are never touched, so a storable value stays storable. */
  lemma {:induction false} EscapeStorable(v: Json)
    requires Storable(v)
    ensures Storable(EscapeNul(v))
    decreases v
  {
    match v
    case Arr(items) =>
      forall i | 0 <= i < |items|
        ensures Storable(EscapeItems(items)[i])
      {
        EscapeItemsAt(items, i);
        EscapeStorable(items[i]);
      }
    case Obj(fields) =>
      var escaped := EscapeValues(fields);
      forall i | 0 <= i < |fields|
        ensures Storable(escaped[i].value)
      {
        EscapeValuesAt(fields, i);
        EscapeStorable(fields[i].value);
      }
      CollectStorable(escaped);
    case _ =>
  }

  lemma CollectStorable(fields: seq<Field>)
    requires forall i | 0 <= i < |fields| :: Storable(fields[i].value)
    ensures Storable(Obj(Collect(fields)))
  {
    forall i | 0 <= i < |Collect(fields)|
      ensures Storable(Collect(fields)[i].value)
    {
      CollectEntries(fields, i);
    }
  }

  // ------------------------------------------------------------ the outcome

  /** A value of this shape with a boolean `retryable` keeps it. */
  predicate KeepsRetryable(before: Json, after: Json) {
    var retryable := Get(before, "retryable");
    retryable.Some? && retryable.value.Bool? ==> Get(after, "retryable") == retryable
  }

  lemma RetryableIsPlain()
    ensures NUL !in "retryable" && '\\' !in "retryable"
  {
  }

  lemma EscapeKeepsRetryable(v: Json)
    requires WellFormed(v)
    ensures KeepsRetryable(v, EscapeNul(v))
  {
    RetryableIsPlain();
    EscapeGet(v, "retryable");
  }

  /** What truncation promises of an oversized error. */
  predicate Replaces(error: Json, bytes: nat, r: Json) {
    && Clean(r)
    && JsonbTextLen(r) <= ERROR_LIMIT
    && (Storable(error) ==> Storable(r))
    && KeepsRetryable(error, r)
    && Get(r, "truncated") == Some(Bool(true))
    && Get(r, "original_bytes") == Some(Count(bytes))
  }

  lemma CandidateReplaces(error: Json, bytes: nat, cap: nat)
    requires Clean(error) && bytes < USIZE && Fits(error, bytes, cap)
    ensures Replaces(error, bytes, Candidate(error, bytes, cap))
  {
    hide JsonbTextLen, Count, Lookup, Insert, NulFree, WellFormed, Storable;
    var capped := CapStrings(error, cap);
    CapKeepsShape(error, cap);
    MarkedClean(capped, bytes);
    MarkedGet(capped, bytes, "truncated");
    MarkedGet(capped, bytes, "original_bytes");
    if error.Obj? {
      CapLookup(error.fields, cap, "retryable");
      MarkedGet(capped, bytes, "retryable");
      assert |"retryable"| != |"original_bytes"| && "retryable"[0] != "truncated"[0];
    }
  }

  lemma SummaryReplaces(error: Json, bytes: nat)
    requires Clean(error) && bytes < USIZE
    ensures Replaces(error, bytes, Summary(error, bytes))
  {
    hide JsonbTextLen, Count, Lookup, Insert, NulFree, WellFormed, Storable, Clean;
    SummaryFacts(error, bytes);
    SummaryGet(error, bytes);
  }

  /**
    Every member of an oversized error is still there, all its strings shortened to one cap; what is not an object is
    there as `value`.
  */
  ghost predicate KeepsContents(error: Json, r: Json, cap: nat) {
    if error.Obj? then
      forall key | key != "truncated" && key != "original_bytes" ::
        && (Get(r, key).Some? <==> Get(error, key).Some?)
        && (Get(error, key).Some? ==> CutEverywhere(Get(error, key).value, Get(r, key).value, cap))
    else Get(r, "value").Some? && CutEverywhere(error, Get(r, "value").value, cap)
  }

  lemma CandidateKeeps(error: Json, bytes: nat, cap: nat)
    ensures KeepsContents(error, Candidate(error, bytes, cap), cap)
  {
    hide Count, Lookup, Insert, CutEverywhere, Marked;
    var capped := CapStrings(error, cap);
    if error.Obj? {
      forall key | key != "truncated" && key != "original_bytes"
        ensures Get(Candidate(error, bytes, cap), key).Some? <==> Get(error, key).Some?
        ensures Get(error, key).Some? ==> CutEverywhere(Get(error, key).value, Get(Candidate(error, bytes, cap), key).value, cap)
      {
        MarkedGet(capped, bytes, key);
        CapLookup(error.fields, cap, key);
        if Get(error, key).Some? {
          CapEverywhere(Get(error, key).value, cap);
        }
      }
    } else {
      MarkedGet(capped, bytes, "value");
      CapEverywhere(error, cap);
      assert |"value"| != |"original_bytes"| && |"value"| != |"truncated"|;
    }
  }

  /** What is left of an error that even its strings cut to nothing does not make fit. */
  ghost predicate SumsUp(error: Json, r: Json) {
    && Get(r, "type") == (if Typed(error) then Get(error, "type") else Some(Str("handler_error")))
    && Get(r, "retryable") ==
       (if Get(error, "retryable").Some? && Get(error, "retryable").value.Bool? then Get(error, "retryable") else None)
  }

  /** Every error is written without NULs, within the limit, unchanged when it already fits, and keeping `retryable`. */
  method PrepareError(error: Json) returns (r: Json)
    requires WellFormed(error) && JsonbTextLen(EscapeNul(error)) < USIZE
    ensures NulFree(r) && WellFormed(r)
    ensures JsonbTextLen(r) <= ERROR_LIMIT
    ensures Storable(error) ==> |Render(r)| <= ERROR_LIMIT
    ensures JsonbTextLen(EscapeNul(error)) <= ERROR_LIMIT ==> r == EscapeNul(error)
    ensures JsonbTextLen(EscapeNul(error)) > ERROR_LIMIT ==> Replaces(EscapeNul(error), JsonbTextLen(EscapeNul(error)), r)
    ensures JsonbTextLen(EscapeNul(error)) > ERROR_LIMIT ==>
      if Fits(EscapeNul(error), JsonbTextLen(EscapeNul(error)), 0)
      then exists cap: nat ::
        Settled(EscapeNul(error), JsonbTextLen(EscapeNul(error)), cap) && KeepsContents(EscapeNul(error), r, cap)
      else SumsUp(EscapeNul(error), r)
    ensures KeepsRetryable(error, r)
  {
    hide JsonbTextLen, Render, Storable, NulFree, WellFormed, Lookup, EscapeNul, Fits, Settled, Candidate, Summary, KeepsContents;
    var escaped := EscapeNul(error);
    EscapeClears(error);
    EscapeKeepsRetryable(error);
    if Storable(error) {
      EscapeStorable(error);
    }
    var bytes := JsonbTextLen(escaped);
    if bytes <= ERROR_LIMIT {
      r := escaped;
    } else {
      r := TruncateError(escaped, bytes);
      if Fits(escaped, bytes, 0) {
        ghost var cap: nat :| Settled(escaped, bytes, cap) && r == Candidate(escaped, bytes, cap);
        SettledFits(escaped, bytes, cap);
        CandidateReplaces(escaped, bytes, cap);
        CandidateKeeps(escaped, bytes, cap);
      } else {
        SummaryReplaces(escaped, bytes);
        SummaryGet(escaped, bytes);
      }
    }
    if Storable(error) {
      MeasureExact(r);
    }
  }

  lemma SettledFits(error: Json, bytes: nat, cap: nat)
    requires Settled(error, bytes, cap)
    ensures Fits(error, bytes, cap)
  {
  }

  function TooLargeError(bytes: nat): Json {
    Obj([Field("type", Str("result_too_large")), Field("bytes", Count(bytes)), Field("limit", Count(RESULT_LIMIT))])
  }

  /** It names itself, the measured size and the limit. */
  lemma TooLargeGet(bytes: nat)
    ensures Get(TooLargeError(bytes), "type") == Some(Str("result_too_large"))
    ensures Get(TooLargeError(bytes), "bytes") == Some(Count(bytes))
    ensures Get(TooLargeError(bytes), "limit") == Some(Count(1_048_576))
  {
    hide Count;
    var fields := TooLargeError(bytes).fields;
    assert fields[1..] == [fields[1], fields[2]] && [fields[1], fields[2]][1..] == [fields[2]] && [fields[2]][1..] == [];
    assert |"bytes"| != |"type"| && |"limit"| != |"type"| && "bytes"[0] != "limit"[0];
    assert Lookup([fields[1], fields[2]], "bytes") == Some(Count(bytes));
    assert Lookup([fields[2]], "limit") == Some(Count(1_048_576)) == Lookup([fields[1], fields[2]], "limit");
  }

  lemma TooLargeSmall(bytes: nat)
    requires bytes < USIZE
    ensures JsonbTextLen(TooLargeError(bytes)) <= ERROR_LIMIT
  {
    hide Count, CharsLen;
    CountFacts(bytes);
    CountFacts(RESULT_LIMIT);
    ShortText("result_too_large");
    ShortText("type");
    ShortText("bytes");
    ShortText("limit");
    SmallObject(TooLargeError(bytes).fields);
  }

  /** A result is written, escaped, exactly when it fits; otherwise the error that replaces it fits its own limit. */
  method PrepareResult(result: Json) returns (r: PreparedResult)
    requires WellFormed(result) && JsonbTextLen(EscapeNul(result)) < USIZE
    ensures r.Result? <==> JsonbTextLen(EscapeNul(result)) <= RESULT_LIMIT
    ensures r.Result? ==> r.value == EscapeNul(result) && NulFree(r.value) && WellFormed(r.value)
    ensures r.Result? && Storable(result) ==> |Render(r.value)| <= RESULT_LIMIT
    ensures r.TooLarge? ==> r.error == TooLargeError(JsonbTextLen(EscapeNul(result))) && JsonbTextLen(r.error) <= ERROR_LIMIT
    ensures r.TooLarge? ==> Get(r.error, "type") == Some(Str("result_too_large"))
    ensures r.TooLarge? ==> Get(r.error, "bytes") == Some(Count(JsonbTextLen(EscapeNul(result))))
    ensures r.TooLarge? ==> Get(r.error, "limit") == Some(Count(1_048_576))
  {
    hide JsonbTextLen, Render, Storable, NulFree, WellFormed, EscapeNul, TooLargeError;
    var escaped := EscapeNul(result);
    EscapeClears(result);
    if Storable(result) {
      EscapeStorable(result);
      MeasureExact(escaped);
    }
    var bytes := JsonbTextLen(escaped);
    if bytes <= RESULT_LIMIT {
      r := Result(escaped);
    } else {
      TooLargeSmall(bytes);
      TooLargeGet(bytes);
      r := TooLarge(TooLargeError(bytes));
    }
  }
}

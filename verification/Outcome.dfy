/**
  Keeping handler outcomes inside what the task table accepts: no NUL characters, and no more
  bytes, as PostgreSQL prints `jsonb`, than the column allows.
*/
module Outcome {
  import opened Common
  import opened Numerals
  import opened Json

  const RESULT_LIMIT: nat := 1_048_576
  const ERROR_LIMIT: nat := 262_144
  const USIZE: nat := 0x1_0000_0000_0000_0000
  const NUL: char := '\0'
  const REPLACEMENT: string := "\\u0000"
  const ELLIPSIS: string := "\U{2026}"

  // -------------------------------------------------------------- objects

  predicate DistinctKeys(fields: seq<Field>) {
    forall i, j | 0 <= i < j < |fields| :: fields[i].key != fields[j].key
  }

  /** Each object in the tree holds each of its keys once. */
  predicate WellFormed(v: Json)
    decreases v
  {
    match v
    case Arr(items) => forall i | 0 <= i < |items| :: WellFormed(items[i])
    case Obj(fields) => DistinctKeys(fields) && forall i | 0 <= i < |fields| :: WellFormed(fields[i].value)
    case _ => true
  }

  function Lookup(fields: seq<Field>, key: string): Option<Json> {
    if fields == [] then None
    else if fields[0].key == key then Some(fields[0].value)
    else Lookup(fields[1..], key)
  }

  /** `Value::get`: a member of an object, nothing of anything else. */
  function Get(v: Json, key: string): Option<Json> {
    if v.Obj? then Lookup(v.fields, key) else None
  }

  /** Map insertion: a key already present gets the new value. */
  function Insert(fields: seq<Field>, key: string, value: Json): seq<Field> {
    if fields == [] then [Field(key, value)]
    else if fields[0].key == key then [Field(key, value)] + fields[1..]
    else [fields[0]] + Insert(fields[1..], key, value)
  }

  lemma {:induction false} InsertLookup(fields: seq<Field>, key: string, value: Json, other: string)
    ensures Lookup(Insert(fields, key, value), other) == if other == key then Some(value) else Lookup(fields, other)
  {
    if fields != [] && fields[0].key != key {
      InsertLookup(fields[1..], key, value, other);
    }
  }

  /** What holds of a new entry and of every old one holds of every entry after insertion. */
  lemma {:induction false} InsertEntries(fields: seq<Field>, key: string, value: Json, i: nat)
    requires i < |Insert(fields, key, value)|
    ensures Insert(fields, key, value)[i] == Field(key, value) || Insert(fields, key, value)[i] in fields
  {
    if fields != [] && fields[0].key != key && i > 0 {
      InsertEntries(fields[1..], key, value, i - 1);
    }
  }

  lemma {:induction false} InsertDistinct(fields: seq<Field>, key: string, value: Json)
    requires DistinctKeys(fields)
    ensures DistinctKeys(Insert(fields, key, value))
  {
    if fields != [] && fields[0].key != key {
      var rest := Insert(fields[1..], key, value);
      InsertDistinct(fields[1..], key, value);
      forall i | 0 <= i < |rest|
        ensures rest[i].key != fields[0].key
      {
        InsertEntries(fields[1..], key, value, i);
      }
    }
  }

  // ----------------------------------------------------------- escaping NUL

  function EscapeText(s: string): string {
    if s == "" then ""
    else (if s[0] == NUL then REPLACEMENT else [s[0]]) + EscapeText(s[1..])
  }

  /** Renamed keys collected into a map again: of keys that collide, the last wins. */
  function Collect(fields: seq<Field>): seq<Field> {
    if fields == [] then []
    else
      var last := fields[|fields| - 1];
      Insert(Collect(fields[..|fields| - 1]), EscapeText(last.key), last.value)
  }

  predicate PlainKeys(fields: seq<Field>) {
    forall i | 0 <= i < |fields| :: NUL !in fields[i].key
  }

  /** Keys are renamed only if one needs it. Values are escaped where they are, so before or after makes no difference. */
  function EscapeNul(v: Json): Json
    decreases v
  {
    match v
    case Str(s) => Str(EscapeText(s))
    case Arr(items) => Arr(EscapeItems(items))
    case Obj(fields) =>
      var escaped := EscapeValues(fields);
      Obj(if PlainKeys(fields) then escaped else Collect(escaped))
    case _ => v
  }

  function EscapeItems(items: seq<Json>): (r: seq<Json>)
    ensures |r| == |items|
    decreases items
  {
    if items == [] then [] else [EscapeNul(items[0])] + EscapeItems(items[1..])
  }

  function EscapeValues(fields: seq<Field>): (r: seq<Field>)
    ensures |r| == |fields|
    decreases fields
  {
    if fields == [] then []
    else [Field(fields[0].key, EscapeNul(fields[0].value))] + EscapeValues(fields[1..])
  }

  /** No string and no key, at any depth, holds a NUL. */
  predicate NulFree(v: Json)
    decreases v
  {
    match v
    case Str(s) => NUL !in s
    case Arr(items) => forall i | 0 <= i < |items| :: NulFree(items[i])
    case Obj(fields) => PlainKeys(fields) && forall i | 0 <= i < |fields| :: NulFree(fields[i].value)
    case _ => true
  }

  /** Text between NULs is kept, each NUL becomes the replacement, and nothing else determines the result. */
  lemma {:induction false} EscapeTextConcat(s: string, t: string)
    ensures EscapeText(s + t) == EscapeText(s) + EscapeText(t)
  {
    if s == "" {
      assert s + t == t;
    } else {
      assert (s + t)[1..] == s[1..] + t;
      EscapeTextConcat(s[1..], t);
    }
  }

  lemma EscapeTextAt(s: string, c: char, t: string)
    ensures EscapeText(s + [c] + t) == EscapeText(s) + (if c == NUL then "\\u0000" else [c]) + EscapeText(t)
  {
    EscapeTextOne(c);
    hide EscapeText;
    EscapeTextConcat(s + [c], t);
    EscapeTextConcat(s, [c]);
  }

  lemma EscapeTextOne(c: char)
    ensures EscapeText([c]) == if c == NUL then "\\u0000" else [c]
  {
    assert [c][1..] == "";
  }

  lemma {:induction false} EscapeTextNulFree(s: string)
    ensures NUL !in EscapeText(s)
    ensures NUL !in s ==> EscapeText(s) == s
    ensures NUL in s ==> '\\' in EscapeText(s)
  {
    if s != "" {
      EscapeTextNulFree(s[1..]);
      assert s == [s[0]] + s[1..];
      if s[0] == NUL {
        assert EscapeText(s)[0] == '\\';
      }
    }
  }

  lemma {:induction false} CollectEntries(fields: seq<Field>, i: nat)
    requires i < |Collect(fields)|
    ensures exists j :: 0 <= j < |fields| && Collect(fields)[i] == Field(EscapeText(fields[j].key), fields[j].value)
  {
    if fields != [] {
      var front, last := fields[..|fields| - 1], fields[|fields| - 1];
      InsertEntries(Collect(front), EscapeText(last.key), last.value, i);
      if Collect(fields)[i] == Field(EscapeText(last.key), last.value) {
        assert Collect(fields)[i] == Field(EscapeText(fields[|fields| - 1].key), fields[|fields| - 1].value);
      } else {
        var k :| 0 <= k < |Collect(front)| && Collect(front)[k] == Collect(fields)[i];
        CollectEntries(front, k);
        var j :| 0 <= j < |front| && Collect(front)[k] == Field(EscapeText(front[j].key), front[j].value);
        assert front[j] == fields[j];
      }
    }
  }

  lemma {:induction false} CollectDistinct(fields: seq<Field>)
    ensures DistinctKeys(Collect(fields))
  {
    if fields != [] {
      CollectDistinct(fields[..|fields| - 1]);
      InsertDistinct(Collect(fields[..|fields| - 1]), EscapeText(fields[|fields| - 1].key), fields[|fields| - 1].value);
    }
  }

  lemma {:induction false} EscapeItemsAt(items: seq<Json>, i: nat)
    requires i < |items|
    ensures EscapeItems(items)[i] == EscapeNul(items[i])
  {
    if i > 0 {
      EscapeItemsAt(items[1..], i - 1);
    }
  }

  lemma {:induction false} EscapeValuesAt(fields: seq<Field>, i: nat)
    requires i < |fields|
    ensures EscapeValues(fields)[i] == Field(fields[i].key, EscapeNul(fields[i].value))
  {
    if i > 0 {
      EscapeValuesAt(fields[1..], i - 1);
    }
  }

  /** Whatever the input, the result has no NUL, and is still an object with distinct keys wherever it was. */
  lemma {:induction false} EscapeClears(v: Json)
    requires WellFormed(v)
    ensures NulFree(EscapeNul(v)) && WellFormed(EscapeNul(v))
    decreases v
  {
    match v
    case Str(s) => EscapeTextNulFree(s);
    case Arr(items) =>
      forall i | 0 <= i < |items|
        ensures NulFree(EscapeItems(items)[i]) && WellFormed(EscapeItems(items)[i])
      {
        EscapeItemsAt(items, i);
        EscapeClears(items[i]);
      }
    case Obj(fields) =>
      forall i | 0 <= i < |fields|
        ensures EscapeValues(fields)[i].key == fields[i].key
        ensures NulFree(EscapeValues(fields)[i].value) && WellFormed(EscapeValues(fields)[i].value)
      {
        EscapeValuesAt(fields, i);
        EscapeClears(fields[i].value);
      }
      CollectClears(EscapeValues(fields));
    case _ =>
  }

  lemma CollectClears(fields: seq<Field>)
    requires forall i | 0 <= i < |fields| :: NulFree(fields[i].value) && WellFormed(fields[i].value)
    ensures NulFree(Obj(Collect(fields))) && WellFormed(Obj(Collect(fields)))
  {
    CollectDistinct(fields);
    forall i | 0 <= i < |Collect(fields)|
      ensures NUL !in Collect(fields)[i].key && NulFree(Collect(fields)[i].value) && WellFormed(Collect(fields)[i].value)
    {
      CollectEntries(fields, i);
      var j :| 0 <= j < |fields| && Collect(fields)[i] == Field(EscapeText(fields[j].key), fields[j].value);
      EscapeTextNulFree(fields[j].key);
    }
  }

  /** A value without NULs is left as it is. */
  lemma {:induction false} EscapeKeeps(v: Json)
    requires NulFree(v)
    ensures EscapeNul(v) == v
    decreases v
  {
    match v
    case Str(s) => EscapeTextNulFree(s);
    case Arr(items) =>
      forall i | 0 <= i < |items|
        ensures EscapeItems(items)[i] == items[i]
      {
        EscapeItemsAt(items, i);
        EscapeKeeps(items[i]);
      }
      assert EscapeItems(items) == items;
    case Obj(fields) =>
      forall i | 0 <= i < |fields|
        ensures EscapeValues(fields)[i] == fields[i]
      {
        EscapeValuesAt(fields, i);
        EscapeKeeps(fields[i].value);
      }
      assert EscapeValues(fields) == fields;
    case _ =>
  }

  // A key without a backslash cannot be the escaped form of any other key.

  lemma {:induction false} CollectLookup(fields: seq<Field>, key: string)
    requires DistinctKeys(fields) && NUL !in key && '\\' !in key
    ensures Lookup(Collect(fields), key) == Lookup(fields, key)
  {
    if fields != [] {
      var front, last := fields[..|fields| - 1], fields[|fields| - 1];
      CollectLookup(front, key);
      EscapeTextNulFree(last.key);
      EscapeTextNulFree(key);
      InsertLookup(Collect(front), EscapeText(last.key), last.value, key);
      LookupLast(fields, key);
    }
  }

  lemma {:induction false} LookupLast(fields: seq<Field>, key: string)
    requires fields != [] && DistinctKeys(fields)
    ensures var front, last := fields[..|fields| - 1], fields[|fields| - 1];
      Lookup(fields, key) == if last.key == key then Some(last.value) else Lookup(front, key)
  {
    if |fields| > 1 {
      LookupLast(fields[1..], key);
      assert fields[1..][..|fields| - 2] == fields[..|fields| - 1][1..];
    }
  }

  lemma {:induction false} EscapeValuesLookup(fields: seq<Field>, key: string)
    ensures Lookup(EscapeValues(fields), key) ==
      if Lookup(fields, key).Some? then Some(EscapeNul(Lookup(fields, key).value)) else None
  {
    if fields != [] {
      EscapeValuesLookup(fields[1..], key);
    }
  }

  lemma EscapeGet(v: Json, key: string)
    requires WellFormed(v) && NUL !in key && '\\' !in key
    ensures Get(EscapeNul(v), key) == if Get(v, key).Some? then Some(EscapeNul(Get(v, key).value)) else None
  {
    if v.Obj? {
      EscapeValuesLookup(v.fields, key);
      forall i | 0 <= i < |v.fields|
        ensures EscapeValues(v.fields)[i].key == v.fields[i].key
      {
        EscapeValuesAt(v.fields, i);
      }
      CollectLookup(EscapeValues(v.fields), key);
    }
  }

  // ------------------------------------------------- the escape, everywhere

  datatype Slot = Item(index: nat) | Member(key: string)

  /** The value at the end of a path of array positions and keys. */
  function Found(v: Json, path: seq<Slot>): Option<Json>
    decreases |path|
  {
    if path == [] then Some(v)
    else if v.Arr? && path[0].Item? && path[0].index < |v.items| then Found(v.items[path[0].index], path[1..])
    else if path[0].Member? && Get(v, path[0].key).Some? then Found(Get(v, path[0].key).value, path[1..])
    else None
  }

  /** The last entry whose key is `key` once escaped. */
  function LastNamed(fields: seq<Field>, key: string): Option<Json> {
    if fields == [] then None
    else if EscapeText(fields[|fields| - 1].key) == key then Some(fields[|fields| - 1].value)
    else LastNamed(fields[..|fields| - 1], key)
  }

  /** What the value at the end of this path, in the escaped tree, was in the tree it came from. */
  function Origin(v: Json, path: seq<Slot>): Option<Json>
    decreases |path|
  {
    if path == [] then Some(v)
    else if v.Arr? && path[0].Item? && path[0].index < |v.items| then Origin(v.items[path[0].index], path[1..])
    else if v.Obj? && path[0].Member? && LastNamed(v.fields, path[0].key).Some?
    then Origin(LastNamed(v.fields, path[0].key).value, path[1..])
    else None
  }

  /** One value and its escape: a string escaped, a number or constant kept, an array as long, an object an object. */
  predicate EscapedTo(a: Json, b: Json) {
    match a
    case Str(s) => b == Str(EscapeText(s))
    case Arr(items) => b.Arr? && |b.items| == |items|
    case Obj(_) => b.Obj?
    case _ => b == a
  }

  lemma {:induction false} CollectNamed(fields: seq<Field>, key: string)
    ensures Lookup(Collect(fields), key) == LastNamed(fields, key)
  {
    if fields != [] {
      var front, last := fields[..|fields| - 1], fields[|fields| - 1];
      CollectNamed(front, key);
      InsertLookup(Collect(front), EscapeText(last.key), last.value, key);
    }
  }

  lemma {:induction false} PlainNamed(fields: seq<Field>, key: string)
    requires DistinctKeys(fields) && PlainKeys(fields)
    ensures Lookup(fields, key) == LastNamed(fields, key)
  {
    if fields != [] {
      PlainNamed(fields[..|fields| - 1], key);
      EscapeTextNulFree(fields[|fields| - 1].key);
      LookupLast(fields, key);
    }
  }

  lemma {:induction false} ValuesNamed(fields: seq<Field>, key: string)
    ensures LastNamed(EscapeValues(fields), key) ==
      if LastNamed(fields, key).Some? then Some(EscapeNul(LastNamed(fields, key).value)) else None
  {
    if fields != [] {
      var front, last := fields[..|fields| - 1], fields[|fields| - 1];
      ValuesNamed(front, key);
      EscapeValuesFront(fields);
      EscapeValuesAt(fields, |fields| - 1);
    }
  }

  lemma EscapeValuesFront(fields: seq<Field>)
    requires fields != []
    ensures EscapeValues(fields)[..|fields| - 1] == EscapeValues(fields[..|fields| - 1])
  {
    forall i | 0 <= i < |fields| - 1
      ensures EscapeValues(fields)[i] == EscapeValues(fields[..|fields| - 1])[i]
    {
      EscapeValuesAt(fields, i);
      EscapeValuesAt(fields[..|fields| - 1], i);
    }
  }

  lemma EscapeMember(fields: seq<Field>, key: string)
    requires DistinctKeys(fields)
    ensures Get(EscapeNul(Obj(fields)), key) ==
      if LastNamed(fields, key).Some? then Some(EscapeNul(LastNamed(fields, key).value)) else None
  {
    var escaped := EscapeValues(fields);
    forall i | 0 <= i < |fields|
      ensures escaped[i].key == fields[i].key
    {
      EscapeValuesAt(fields, i);
    }
    ValuesNamed(fields, key);
    if PlainKeys(fields) {
      PlainNamed(escaped, key);
    } else {
      CollectNamed(escaped, key);
    }
  }

  lemma {:induction false} LastNamedWellFormed(fields: seq<Field>, key: string)
    requires LastNamed(fields, key).Some? && forall i | 0 <= i < |fields| :: WellFormed(fields[i].value)
    ensures WellFormed(LastNamed(fields, key).value)
  {
    if EscapeText(fields[|fields| - 1].key) != key {
      LastNamedWellFormed(fields[..|fields| - 1], key);
    }
  }

  /**
    Wherever one looks in the escaped tree there is the escape of what was there, and nothing is there that was not.
    Of several keys that are the same once escaped, the last one's value is.
  */
  lemma {:induction false} EscapeEverywhere(v: Json, path: seq<Slot>)
    requires WellFormed(v)
    ensures Found(EscapeNul(v), path).Some? <==> Origin(v, path).Some?
    ensures Origin(v, path).Some? ==> EscapedTo(Origin(v, path).value, Found(EscapeNul(v), path).value)
    decreases |path|
  {
    if path != [] {
      match v
      case Arr(items) =>
        if path[0].Item? && path[0].index < |items| {
          EscapeItemsAt(items, path[0].index);
          EscapeEverywhere(items[path[0].index], path[1..]);
        }
      case Obj(fields) =>
        if path[0].Member? {
          EscapeMember(fields, path[0].key);
          if LastNamed(fields, path[0].key).Some? {
            LastNamedWellFormed(fields, path[0].key);
            EscapeEverywhere(LastNamed(fields, path[0].key).value, path[1..]);
          }
        }
      case _ =>
    }
  }
}

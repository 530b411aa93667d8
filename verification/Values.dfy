/** The values that rows, documents and mutations carry, and their JSON form. */
module Values {
  import opened Json
  import opened Utf8

  type Int64 = n: int | -0x8000_0000_0000_0000 <= n < 0x8000_0000_0000_0000
  type UInt64 = n: int | 0 <= n < 0x1_0000_0000_0000_0000
  type Int32 = n: int | -0x8000_0000 <= n < 0x8000_0000

  datatype TzSpec = Naive | Utc | Named(name: string) | Offset(minutes: int)

  /**
    One value. A float is its 64-bit pattern. `Other` stands for the kinds that are only ever
    rendered (intervals, references, geometries, vectors, unsupported types), with their text.
   */
  datatype Value =
    | Null
    | Absent
    | Bool(b: bool)
    | I64(i: Int64)
    | U64(u: UInt64)
    | F64(bits: UInt64)
    | Decimal(text: string)
    | Str(s: string)
    | Bytes(bytes: seq<Byte>)
    | Date(days: Int32)
    | Time(nanos: Int64)
    | Timestamp(micros: Int64, tz: TzSpec)
    | Uuid(id: seq<Byte>)
    | JsonText(json: string)
    | Array(items: seq<Value>)
    | Document(fields: seq<Field>)
    | Other(kind: string, display: string)

  datatype Field = Field(key: string, value: Value)

  predicate ContainsAbsent(v: Value) {
    match v
    case Absent => true
    case Array(items) => exists i | 0 <= i < |items| :: ContainsAbsent(items[i])
    case Document(fields) => exists i | 0 <= i < |fields| :: ContainsAbsent(fields[i].value)
    case _ => false
  }

  /** Integer division as the machine does it: towards zero. */
  function TruncDiv(a: int, b: int): int
    requires b > 0
  {
    if a >= 0 then a / b else -((-a) / b)
  }

  /** `value_to_json`; `render` supplies the forms that a foreign library produces. */
  function ToJson(v: Value, render: Value -> Json): Json {
    match v
    case Null => JNull
    case Absent => JNull
    case Bool(b) => JBool(b)
    case I64(i) => JNum(i)
    case U64(u) => JNum(u)
    case Decimal(text) => JStr(text)
    case Str(s) => JStr(s)
    case Date(days) => JNum(days)
    case Time(nanos) => JNum(nanos)
    case Timestamp(micros, _) => JNum(TruncDiv(micros, 1_000))
    case Array(items) => JArr(seq(|items|, i requires 0 <= i < |items| => ToJson(items[i], render)))
    case Document(fields) => JObj(FieldsToJson(fields, render))
    case _ => render(v)
  }

  function FieldsToJson(fields: seq<Field>, render: Value -> Json): map<string, Json> {
    if fields == [] then map[]
    else
      var last := fields[|fields| - 1];
      FieldsToJson(fields[..|fields| - 1], render)[last.key := ToJson(last.value, render)]
  }

  // ---- What the JSON form is, without computing it. ----

  /** This is the last field with its key. */
  predicate LastOfItsKey(fields: seq<Field>, k: nat)
    requires k < |fields|
  {
    forall m | k < m < |fields| :: fields[m].key != fields[k].key
  }

  /**
    This JSON stands for this value: numbers are themselves, a timestamp is its milliseconds rounded
    towards zero, an array is its items one by one, and an object has exactly the document's keys, each
    with the last value the document has for it.
   */
  ghost predicate Represents(j: Json, v: Value, render: Value -> Json)
    decreases v
  {
    match v
    case Null => j.JNull?
    case Absent => j.JNull?
    case Bool(b) => j == JBool(b)
    case I64(i) => j == JNum(i)
    case U64(u) => j == JNum(u)
    case Decimal(text) => j == JStr(text)
    case Str(s) => j == JStr(s)
    case Date(days) => j == JNum(days)
    case Time(nanos) => j == JNum(nanos)
    case Timestamp(micros, _) =>
      && j.JNum?
      && (micros >= 0 ==> 1_000 * j.n <= micros < 1_000 * (j.n + 1))
      && (micros < 0 ==> 1_000 * (j.n - 1) < micros <= 1_000 * j.n)
    case Array(items) =>
      j.JArr? && |j.items| == |items| && forall i | 0 <= i < |items| :: Represents(j.items[i], items[i], render)
    case Document(fields) =>
      && j.JObj?
      && (forall key :: key in j.fields <==> exists k :: 0 <= k < |fields| && fields[k].key == key)
      && (forall k | 0 <= k < |fields| && LastOfItsKey(fields, k) ::
            fields[k].key in j.fields && Represents(j.fields[fields[k].key], fields[k].value, render))
    case _ => j == render(v)
  }

  lemma TruncDivIs(a: int)
    ensures a >= 0 ==> 1_000 * TruncDiv(a, 1_000) <= a < 1_000 * (TruncDiv(a, 1_000) + 1)
    ensures a < 0 ==> 1_000 * (TruncDiv(a, 1_000) - 1) < a <= 1_000 * TruncDiv(a, 1_000)
  {
  }

  /** The object of a document holds the last value of each key, and no other key. */
  lemma {:induction false} FieldsToJsonIs(fields: seq<Field>, render: Value -> Json)
    ensures var given := FieldsToJson(fields, render);
            && (forall key :: key in given <==> exists k :: 0 <= k < |fields| && fields[k].key == key)
            && (forall k | 0 <= k < |fields| && LastOfItsKey(fields, k) ::
                  fields[k].key in given && given[fields[k].key] == ToJson(fields[k].value, render))
    decreases |fields|
  {
    hide ToJson, LastOfItsKey, FieldsToJson;
    FieldsStep(fields, render);
    if fields != [] {
      var n := |fields| - 1;
      var init := fields[..n];
      FieldsToJsonIs(init, render);
      assert forall k | 0 <= k < n :: init[k] == fields[k];
      forall k | 0 <= k < |fields| && LastOfItsKey(fields, k)
        ensures fields[k].key in FieldsToJson(fields, render)
        ensures FieldsToJson(fields, render)[fields[k].key] == ToJson(fields[k].value, render)
      {
        if k < n {
          LastBefore(fields, k);
        }
      }
    }
  }

  lemma {:induction false} KeyHasField(fields: seq<Field>, render: Value -> Json, key: string)
    requires key in FieldsToJson(fields, render)
    ensures exists k :: 0 <= k < |fields| && fields[k].key == key
    decreases |fields|
  {
    hide ToJson;
    var n := |fields| - 1;
    if fields[n].key != key {
      KeyHasField(fields[..n], render, key);
      var k :| 0 <= k < n && fields[..n][k].key == key;
      assert fields[k].key == key;
    }
  }

  lemma FieldsStep(fields: seq<Field>, render: Value -> Json)
    ensures fields == [] ==> FieldsToJson(fields, render) == map[]
    ensures fields != [] ==>
              var last := fields[|fields| - 1];
              FieldsToJson(fields, render) == FieldsToJson(fields[..|fields| - 1], render)[last.key := ToJson(last.value, render)]
  {
  }

  lemma LastBefore(fields: seq<Field>, k: nat)
    requires k < |fields| - 1 && LastOfItsKey(fields, k)
    ensures LastOfItsKey(fields[..|fields| - 1], k) && fields[|fields| - 1].key != fields[k].key
  {
    assert forall m | k < m < |fields| - 1 :: fields[..|fields| - 1][m] == fields[m];
  }

  /** Every key of a document has a last field. */
  lemma {:induction false} LastExists(fields: seq<Field>, key: string) returns (k: nat)
    requires exists i :: 0 <= i < |fields| && fields[i].key == key
    ensures k < |fields| && fields[k].key == key && LastOfItsKey(fields, k)
    decreases |fields|
  {
    var n := |fields| - 1;
    if fields[n].key == key {
      k := n;
    } else {
      k := LastExists(fields[..n], key);
      assert forall m | k < m < n :: fields[..n][m].key == fields[m].key;
    }
  }

  lemma {:induction false} ArrayExactly(j: Json, items: seq<Value>, render: Value -> Json)
    requires j.JArr? && |j.items| == |items|
    ensures (forall i | 0 <= i < |items| :: Represents(j.items[i], items[i], render)) <==> j == ToJson(Array(items), render)
    decreases Array(items), 0
  {
    hide Represents;
    forall i | 0 <= i < |items| ensures Represents(j.items[i], items[i], render) <==> j.items[i] == ToJson(items[i], render) {
      ToJsonExactly(j.items[i], items[i], render);
    }
    ArrayIsItsItems(j, items, render);
  }

  lemma {:induction false} DocumentExactly(given: map<string, Json>, fields: seq<Field>, render: Value -> Json)
    ensures given == FieldsToJson(fields, render) <==>
              && (forall key :: key in given <==> exists k :: 0 <= k < |fields| && fields[k].key == key)
              && (forall k | 0 <= k < |fields| && LastOfItsKey(fields, k) ::
                    fields[k].key in given && Represents(given[fields[k].key], fields[k].value, render))
    decreases Document(fields), 0
  {
    hide Represents, ToJson, FieldsToJson, LastOfItsKey;
    forall k | 0 <= k < |fields| && fields[k].key in given
      ensures Represents(given[fields[k].key], fields[k].value, render)
         <==> given[fields[k].key] == ToJson(fields[k].value, render)
    {
      ToJsonExactly(given[fields[k].key], fields[k].value, render);
    }
    ObjectIsItsFields(given, fields, render);
  }

  lemma TimestampExactly(j: Json, micros: Int64, tz: TzSpec, render: Value -> Json)
    ensures Represents(j, Timestamp(micros, tz), render) <==> j == ToJson(Timestamp(micros, tz), render)
  {
    TruncDivIs(micros);
  }

  /** The JSON form is the one JSON value that stands for the value. */
  lemma {:induction false} ToJsonExactly(j: Json, v: Value, render: Value -> Json)
    ensures Represents(j, v, render) <==> j == ToJson(v, render)
    decreases v, 1
  {
    hide TruncDiv, LastOfItsKey, FieldsToJson;
    match v
    case Timestamp(micros, tz) => TimestampExactly(j, micros, tz, render);
    case Array(items) =>
      if j.JArr? && |j.items| == |items| {
        ArrayExactly(j, items, render);
      }
    case Document(fields) =>
      if j.JObj? {
        DocumentExactly(j.fields, fields, render);
      }
    case _ =>
  }

  lemma ArrayIsItsItems(j: Json, items: seq<Value>, render: Value -> Json)
    requires j.JArr? && |j.items| == |items|
    ensures j == ToJson(Array(items), render) <==> forall i | 0 <= i < |items| :: j.items[i] == ToJson(items[i], render)
  {
    var all := seq(|items|, i requires 0 <= i < |items| => ToJson(items[i], render));
    assert ToJson(Array(items), render) == JArr(all);
    assert j.items == all <==> forall i | 0 <= i < |items| :: j.items[i] == all[i];
  }

  lemma ObjectIsItsFields(given: map<string, Json>, fields: seq<Field>, render: Value -> Json)
    ensures given == FieldsToJson(fields, render) <==>
              && (forall key :: key in given <==> exists k :: 0 <= k < |fields| && fields[k].key == key)
              && (forall k | 0 <= k < |fields| && LastOfItsKey(fields, k) ::
                    fields[k].key in given && given[fields[k].key] == ToJson(fields[k].value, render))
  {
    hide ToJson, LastOfItsKey, FieldsToJson;
    var made := FieldsToJson(fields, render);
    FieldsToJsonIs(fields, render);
    if given.Keys == made.Keys {
      forall key | key in given
        ensures exists k :: 0 <= k < |fields| && LastOfItsKey(fields, k) && fields[k].key == key
      {
        assert key in made.Keys;
        KeyHasField(fields, render, key);
        var k := LastExists(fields, key);
      }
    }
  }
}

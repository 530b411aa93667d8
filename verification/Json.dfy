/** JSON documents, reading at a path of field names, and Elasticsearch's partial-document merge. */
module Json {
  import opened Wrappers

  predicate NumberChar(c: char) {
    '0' <= c <= '9' || c == '-' || c == '+' || c == '.' || c == 'e' || c == 'E'
  }

  /** How a float is printed: a sign or digit first, and a point or an exponent that no integer has. */
  predicate IsFloatText(s: string) {
    && s != "" && ('0' <= s[0] <= '9' || s[0] == '-')
    && (forall i | 0 <= i < |s| :: NumberChar(s[i]))
    && ('.' in s || 'e' in s)
  }

  /** The text of a floating-point number. */
  type FloatText = s: string | IsFloatText(s)
    witness (assert "0.0"[1] == '.'; "0.0")

  datatype Json =
    | JNull
    | JBool(b: bool)
    | JNum(n: int)
    | JFloat(text: FloatText)
    | JStr(s: string)
    | JArr(items: seq<Json>)
    | JObj(fields: map<string, Json>)

  type Object = map<string, Json>

  /** What a document reads at a path of object fields. */
  function Lookup(doc: Object, path: seq<string>): Option<Json>
    requires path != []
    decreases |path|
  {
    if path[0] !in doc then None
    else if |path| == 1 then Some(doc[path[0]])
    else if doc[path[0]].JObj? then Lookup(doc[path[0]].fields, path[1..])
    else None
  }

  /** A partial document laid over a stored one: objects merge, everything else is replaced. */
  function Merge(base: Object, patch: Object): Object
    decreases JObj(patch)
  {
    map k | k in base.Keys + patch.Keys ::
      if k !in patch then base[k]
      else if k in base && base[k].JObj? && patch[k].JObj? then
        (assert patch[k] == JObj(patch[k].fields); JObj(Merge(base[k].fields, patch[k].fields)))
      else patch[k]
  }

  lemma {:induction false} MergeNothing(base: Object)
    ensures Merge(base, map[]) == base
  {
  }

  lemma {:induction false} MergeOntoNothing(patch: Object)
    ensures Merge(map[], patch) == patch
  {
  }
}

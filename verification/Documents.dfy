/** Documents: fields in order with an index of first occurrences, and reading along a path. */
module Documents {
  import opened Wrappers
  import opened Values
  import FieldPath

  /** The place of the first field with this key, or the number of fields. */
  function FirstOf(fields: seq<Field>, key: string): (k: nat)
    ensures k <= |fields| && (k < |fields| ==> fields[k].key == key)
    ensures forall i | 0 <= i < k :: fields[i].key != key
  {
    if fields == [] || fields[0].key == key then 0 else 1 + FirstOf(fields[1..], key)
  }

  function FirstValue(fields: seq<Field>, key: string): Option<Value> {
    var k := FirstOf(fields, key);
    if k == |fields| then None else Some(fields[k].value)
  }

  /** The index holds exactly the keys present, each with its first place. */
  ghost predicate Indexed(fields: seq<Field>, index: map<string, nat>) {
    forall key: string :: (key in index <==> FirstOf(fields, key) < |fields|)
                          && (key in index ==> index[key] == FirstOf(fields, key))
  }

  lemma FirstOfGrows(fields: seq<Field>, field: Field, key: string)
    ensures FirstOf(fields + [field], key)
         == if FirstOf(fields, key) < |fields| then FirstOf(fields, key)
            else if field.key == key then |fields| else |fields| + 1
  {
    var all := fields + [field];
    var k := FirstOf(all, key);
    var f := FirstOf(fields, key);
    assert all[|fields|] == field && forall i | 0 <= i < |fields| :: all[i] == fields[i];
    if f < |fields| {
      assert all[f].key == key;
      assert k < |all| ==> all[k].key == key;
    }
  }

  lemma IndexedGrows(fields: seq<Field>, index: map<string, nat>, field: Field)
    requires Indexed(fields, index)
    ensures Indexed(fields + [field], if field.key in index then index else index[field.key := |fields|])
  {
    forall key: string
      ensures FirstOf(fields + [field], key) < |fields + [field]| <==> key in index || key == field.key
    {
      FirstOfGrows(fields, field, key);
    }
    forall key: string { FirstOfGrows(fields, field, key); }
  }

  /** What a key reads after a push: what it read before, or the pushed value if it is new and meant. */
  function Shadowed(before: Option<Value>, meant: bool, pushed: Value): Option<Value> {
    if before.None? && meant then Some(pushed) else before
  }

  class Document {
    var fields: seq<Field>
    var index: map<string, nat>

    ghost predicate Valid()
      reads this
    {
      Indexed(fields, index)
    }

    constructor ()
      ensures Valid() && fields == []
    {
      fields, index := [], map[];
    }

    constructor FromFields(fields: seq<Field>)
      ensures Valid() && this.fields == fields
    {
      this.fields := fields;
      var index: map<string, nat> := map[];
      for i := 0 to |fields|
        invariant Indexed(fields[..i], index)
      {
        IndexedGrows(fields[..i], index, fields[i]);
        assert fields[..i + 1] == fields[..i] + [fields[i]];
        if fields[i].key !in index {
          index := index[fields[i].key := i];
        }
      }
      assert fields[..|fields|] == fields;
      this.index := index;
    }

    /** A repeated key is kept in order but never hides the first one. */
    method Push(key: string, value: Value)
      requires Valid()
      modifies this
      ensures Valid() && fields == old(fields) + [Field(key, value)]
      ensures forall k: string :: FirstValue(fields, k) == Shadowed(FirstValue(old(fields), k), k == key, value)
    {
      IndexedGrows(fields, index, Field(key, value));
      forall k: string {
        FirstOfGrows(fields, Field(key, value), k);
      }
      if key !in index {
        index := index[key := |fields|];
      }
      fields := fields + [Field(key, value)];
    }

    method Get(key: string) returns (r: Option<Value>)
      requires Valid()
      ensures r == FirstValue(fields, key)
    {
      if key in index {
        return Some(fields[index[key]].value);
      }
      return None;
    }

    /** Follows a path from the document itself; an index never stands first. */
    method GetPath(path: seq<FieldPath.PathSeg>) returns (r: Option<Value>)
      requires Valid()
      ensures r == PathValue(fields, path)
    {
      var current: Option<Value> := None;
      for i := 0 to |path|
        invariant i == 0 ==> current.None?
        invariant i > 0 ==> current.Some? && current == PathValue(fields, path[..i])
      {
        FollowSplits(fields, path, i + 1);
        assert path[..i + 1][..i] == path[..i];
        var next: Option<Value> := None;
        match path[i] {
          case Field(name) =>
            if i == 0 {
              next := Get(name);
            } else if current.value.Document? {
              next := FirstValue(current.value.fields, name);
            }
          case Index(n) =>
            if i > 0 && current.value.Array? && n < |current.value.items| {
              next := Some(current.value.items[n]);
            }
        }
        if next.None? {
          return None;
        }
        current := next;
      }
      assert path[..|path|] == path;
      return current;
    }
  }

  // ---- Paths as functions. ----

  function Child(v: Value, seg: FieldPath.PathSeg): Option<Value> {
    match seg
    case Field(name) => if v.Document? then FirstValue(v.fields, name) else None
    case Index(n) => if v.Array? && n < |v.items| then Some(v.items[n]) else None
  }

  /** The value at the end of a path; the empty path has none. */
  function PathValue(fields: seq<Field>, path: seq<FieldPath.PathSeg>): Option<Value> {
    if path == [] then None
    else if |path| == 1 then Child(Value.Document(fields), path[0])
    else
      var before := PathValue(fields, path[..|path| - 1]);
      if before.None? then None else Child(before.value, path[|path| - 1])
  }

  function Descend(v: Value, path: seq<FieldPath.PathSeg>): Option<Value> {
    if path == [] then Some(v)
    else
      var next := Child(v, path[0]);
      if next.None? then None else Descend(next.value, path[1..])
  }

  lemma DescendSnoc(v: Value, path: seq<FieldPath.PathSeg>, seg: FieldPath.PathSeg)
    ensures Descend(v, path + [seg])
         == if Descend(v, path).None? then None else Child(Descend(v, path).value, seg)
  {
    if path == [] {
      assert path + [seg] == [seg];
    } else {
      assert (path + [seg])[1..] == path[1..] + [seg];
      var next := Child(v, path[0]);
      if next.Some? {
        DescendSnoc(next.value, path[1..], seg);
      }
    }
  }

  /** The loop walks the value tree: a path that is not empty reads what descending from the document reads. */
  lemma {:induction false} PathDescends(fields: seq<Field>, path: seq<FieldPath.PathSeg>)
    requires path != []
    ensures PathValue(fields, path) == Descend(Value.Document(fields), path)
  {
    if |path| > 1 {
      var init, last := path[..|path| - 1], path[|path| - 1];
      PathDescends(fields, init);
      DescendSnoc(Value.Document(fields), init, last);
      assert init + [last] == path;
    } else {
      assert path[1..] == [];
    }
  }

  /** What a longer path reads is found step by step: a prefix that leads nowhere ends it. */
  lemma {:induction false} FollowSplits(fields: seq<Field>, path: seq<FieldPath.PathSeg>, i: nat)
    requires 0 < i <= |path|
    ensures PathValue(fields, path[..i]).None? ==> PathValue(fields, path).None?
    decreases |path|
  {
    if i == |path| {
      assert path[..i] == path;
    } else {
      var init := path[..|path| - 1];
      FollowSplits(fields, init, i);
      assert init[..i] == path[..i];
    }
  }
}

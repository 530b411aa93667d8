/**
  Schema inference from sampled documents: a trie of field names that counts, at every path, how
  many documents carry it and with which types (`record_doc`, `FieldTrie::record`).
 */
module SchemaTrie {
  import opened Wrappers
  import Sequences

  datatype LogicalType =
    | NullType | BoolType | I64Type | U64Type | F64Type | DecimalType | StrType | BytesType | DateType
    | TimeType | TimestampType | IntervalType | UuidType | JsonType | ArrayType | DocumentType | RefType
    | GeoType | VectorType | UnknownType

  /** A stored value: a nested document, or anything else reduced to its logical type. */
  datatype Bson = Leaf(ty: LogicalType) | Nested(fields: seq<Entry>)

  datatype Entry = Entry(key: string, value: Bson)

  datatype Trie = Trie(present: nat, types: seq<(LogicalType, nat)>, children: seq<Child>)

  datatype Child = Child(name: string, node: Trie)

  const EMPTY := Trie(0, [], [])

  function TypeOf(v: Bson): LogicalType {
    match v
    case Leaf(ty) => ty
    case Nested(_) => DocumentType
  }

  /** A nested document is of the document type, and any other value of its own. */
  predicate HasType(v: Bson, ty: LogicalType) {
    if v.Nested? then ty == DocumentType else ty == v.ty
  }

  /** Position of the first child with this name, or the length when there is none. */
  function Position(root: seq<Child>, name: string): (i: nat)
    ensures i <= |root|
    ensures i < |root| ==> root[i].name == name
    ensures forall k | 0 <= k < i :: root[k].name != name
  {
    if root == [] || root[0].name == name then 0 else 1 + Position(root[1..], name)
  }

  /** One more of this type: its own counter if there is one, a new counter at the end otherwise. */
  function Bump(types: seq<(LogicalType, nat)>, ty: LogicalType): seq<(LogicalType, nat)> {
    if types == [] then [(ty, 1)]
    else if types[0].0 == ty then [(ty, types[0].1 + 1)] + types[1..]
    else [types[0]] + Bump(types[1..], ty)
  }

  /** `FieldTrie::record`: one more document here, one more of this type. */
  function Record(node: Trie, ty: LogicalType): Trie {
    Trie(node.present + 1, Bump(node.types, ty), node.children)
  }

  function NodeAt(root: seq<Child>, name: string): Trie {
    var i := Position(root, name);
    if i < |root| then root[i].node else EMPTY
  }

  function PutNode(root: seq<Child>, name: string, node: Trie): seq<Child> {
    var i := Position(root, name);
    if i < |root| then root[i := Child(name, node)] else root + [Child(name, node)]
  }

  function RecordEntry(root: seq<Child>, entry: Entry): seq<Child>
    decreases entry, 0
  {
    var node := Record(NodeAt(root, entry.key), TypeOf(entry.value));
    PutNode(root, entry.key,
            if entry.value.Nested? then node.(children := RecordFields(node.children, entry.value.fields))
            else node)
  }

  function RecordFields(root: seq<Child>, fields: seq<Entry>): seq<Child>
    decreases fields, 1
  {
    if fields == [] then root
    else RecordFields(RecordEntry(root, fields[0]), fields[1..])
  }

  /** The recorder: one loop over the document's entries, recursing into nested documents. */
  method RecordDoc(root: seq<Child>, fields: seq<Entry>) returns (grown: seq<Child>)
    ensures grown == RecordFields(root, fields)
    decreases fields
  {
    grown := root;
    for n := 0 to |fields|
      invariant RecordFields(grown, fields[n..]) == RecordFields(root, fields)
    {
      ghost var before := grown;
      var entry := fields[n];
      var idx := Position(grown, entry.key);
      if idx == |grown| {
        grown := grown + [Child(entry.key, EMPTY)];
      }
      var node := Record(grown[idx].node, TypeOf(entry.value));
      if entry.value.Nested? {
        var children := RecordDoc(node.children, entry.value.fields);
        node := node.(children := children);
      }
      grown := grown[idx := Child(entry.key, node)];
      assert grown == RecordEntry(before, entry);
      assert fields[n..][0] == entry && fields[n..][1..] == fields[n + 1..];
    }
  }

  function RecordAll(root: seq<Child>, docs: seq<seq<Entry>>): seq<Child>
    decreases |docs|
  {
    if docs == [] then root else RecordAll(RecordFields(root, docs[0]), docs[1..])
  }

  /** The value a document carries at a path of field names, through nested documents only. */
  function ValueAt(fields: seq<Entry>, path: seq<string>): Option<Bson>
    requires path != []
    decreases |path|, |fields|
  {
    if fields == [] then None
    else if fields[0].key != path[0] then ValueAt(fields[1..], path)
    else if |path| == 1 then Some(fields[0].value)
    else if fields[0].value.Nested? then ValueAt(fields[0].value.fields, path[1..])
    else None
  }

  predicate UniqueKeys(fields: seq<Entry>)
    decreases fields
  {
    && (forall i, j | 0 <= i < j < |fields| :: fields[i].key != fields[j].key)
    && (forall e | e in fields && e.value.Nested? :: UniqueKeys(e.value.fields))
  }

  /** The node at a path of names; an empty one where the trie has none. */
  function Lookup(root: seq<Child>, path: seq<string>): Trie
    requires path != []
    decreases |path|
  {
    var node := NodeAt(root, path[0]);
    if |path| == 1 then node else Lookup(node.children, path[1..])
  }

  function CountIn(types: seq<(LogicalType, nat)>, ty: LogicalType): nat {
    if types == [] then 0 else if types[0].0 == ty then types[0].1 else CountIn(types[1..], ty)
  }

  function TypeCount(node: Trie, ty: LogicalType): nat {
    CountIn(node.types, ty)
  }

  function One(b: bool): nat {
    if b then 1 else 0
  }

  lemma PutThenNodeAt(root: seq<Child>, name: string, node: Trie, other: string)
    ensures NodeAt(PutNode(root, name, node), other) == if other == name then node else NodeAt(root, other)
  {
    var put := PutNode(root, name, node);
    var i, j := Position(root, name), Position(root, other);
    assert forall k | 0 <= k < |root| :: put[k].name == root[k].name;
    var p := Position(put, other);
    if other == name {
      assert put[i].name == name;
      assert p == i;
    } else if j < |root| {
      assert put[j].name == other;
      assert p == j;
    } else {
      assert p == |put|;
    }
  }

  lemma {:induction false} BumpCounts(types: seq<(LogicalType, nat)>, ty: LogicalType, asked: LogicalType)
    ensures CountIn(Bump(types, ty), asked) == CountIn(types, asked) + One(asked == ty)
  {
    if types != [] && types[0].0 != ty {
      BumpCounts(types[1..], ty, asked);
    }
  }

  /** What one more document adds at a path: one if it carries the path, of the type it has there. */
  ghost predicate Adds(before: Trie, after: Trie, v: Option<Bson>) {
    && after.present == before.present + One(v.Some?)
    && forall ty :: TypeCount(after, ty) == TypeCount(before, ty) + One(v.Some? && HasType(v.value, ty))
  }

  lemma {:induction false} EntryAdds(root: seq<Child>, entry: Entry, path: seq<string>)
    requires path != [] && (entry.value.Nested? ==> UniqueKeys(entry.value.fields))
    ensures Adds(Lookup(root, path), Lookup(RecordEntry(root, entry), path), ValueAt([entry], path))
    decreases entry, 0
  {
    var before := NodeAt(root, entry.key);
    var node := Record(before, TypeOf(entry.value));
    var put := if entry.value.Nested? then node.(children := RecordFields(node.children, entry.value.fields)) else node;
    PutThenNodeAt(root, entry.key, put, path[0]);
    if path[0] == entry.key {
      if |path| == 1 {
        forall ty ensures TypeCount(put, ty) == TypeCount(before, ty) + One(TypeOf(entry.value) == ty) {
          BumpCounts(before.types, TypeOf(entry.value), ty);
        }
      } else if entry.value.Nested? {
        FieldsAdd(node.children, entry.value.fields, path[1..]);
      }
    } else {
      assert ValueAt([entry], path) == ValueAt([entry][1..], path) == None;
    }
  }

  lemma {:induction false} FieldsAdd(root: seq<Child>, fields: seq<Entry>, path: seq<string>)
    requires path != [] && UniqueKeys(fields)
    ensures Adds(Lookup(root, path), Lookup(RecordFields(root, fields), path), ValueAt(fields, path))
    decreases fields, 1
  {
    if fields != [] {
      var rest := fields[1..];
      assert forall e | e in rest :: e in fields;
      EntryAdds(root, fields[0], path);
      FieldsAdd(RecordEntry(root, fields[0]), rest, path);
      SplitValueAt(fields, path);
      if fields[0].key == path[0] {
        AbsentKey(rest, path);
      }
    }
  }

  lemma SplitValueAt(fields: seq<Entry>, path: seq<string>)
    requires fields != [] && path != []
    ensures fields[0].key == path[0] ==> ValueAt(fields, path) == ValueAt([fields[0]], path)
    ensures fields[0].key != path[0] ==>
              ValueAt([fields[0]], path) == None && ValueAt(fields, path) == ValueAt(fields[1..], path)
  {
    assert [fields[0]][1..] == [];
  }

  lemma {:induction false} AbsentKey(fields: seq<Entry>, path: seq<string>)
    requires path != [] && forall e | e in fields :: e.key != path[0]
    ensures ValueAt(fields, path) == None
    decreases |fields|
  {
    if fields != [] {
      AbsentKey(fields[1..], path);
    }
  }

  /** How many of the documents carry the path. */
  function Carrying(docs: seq<seq<Entry>>, path: seq<string>): nat
    requires path != []
  {
    if docs == [] then 0 else One(ValueAt(docs[0], path).Some?) + Carrying(docs[1..], path)
  }

  function CarryingType(docs: seq<seq<Entry>>, path: seq<string>, ty: LogicalType): nat
    requires path != []
  {
    if docs == [] then 0
    else
      var v := ValueAt(docs[0], path);
      One(v.Some? && HasType(v.value, ty)) + CarryingType(docs[1..], path, ty)
  }

  lemma {:induction false} AllAdd(root: seq<Child>, docs: seq<seq<Entry>>, path: seq<string>, ty: LogicalType)
    requires path != [] && forall d | d in docs :: UniqueKeys(d)
    ensures Lookup(RecordAll(root, docs), path).present == Lookup(root, path).present + Carrying(docs, path)
    ensures TypeCount(Lookup(RecordAll(root, docs), path), ty)
         == TypeCount(Lookup(root, path), ty) + CarryingType(docs, path, ty)
    decreases |docs|
  {
    if docs != [] {
      FieldsAdd(root, docs[0], path);
      AllAdd(RecordFields(root, docs[0]), docs[1..], path, ty);
    }
  }

  lemma EmptyLookup(path: seq<string>)
    requires path != []
    ensures Lookup([], path) == EMPTY
    decreases |path|
  {
    if |path| > 1 {
      EmptyLookup(path[1..]);
    }
  }

  /** Recording counts: at every path, exactly the documents that carry it, type by type. */
  lemma TrieCounts(docs: seq<seq<Entry>>, path: seq<string>, ty: LogicalType)
    requires path != [] && forall d | d in docs :: UniqueKeys(d)
    ensures Lookup(RecordAll([], docs), path).present == Carrying(docs, path)
    ensures TypeCount(Lookup(RecordAll([], docs), path), ty) == CarryingType(docs, path, ty)
  {
    AllAdd([], docs, path, ty);
    EmptyLookup(path);
  }

  function SumTypes(types: seq<(LogicalType, nat)>): nat {
    if types == [] then 0 else types[0].1 + SumTypes(types[1..])
  }

  /** Distinct types that sum to `present`, distinct names among the children, all the way down. */
  predicate Sound(node: Trie)
    decreases node
  {
    && (forall i, j | 0 <= i < j < |node.types| :: node.types[i].0 != node.types[j].0)
    && SumTypes(node.types) == node.present
    && SoundRoot(node.children)
  }

  predicate SoundRoot(root: seq<Child>)
    decreases root
  {
    && (forall i, j | 0 <= i < j < |root| :: root[i].name != root[j].name)
    && (forall c | c in root :: Sound(c.node))
  }

  /** Every counter is of the bumped type or of one that was there. */
  lemma {:induction false} BumpTypes(types: seq<(LogicalType, nat)>, ty: LogicalType)
    ensures forall t | t in Bump(types, ty) :: t.0 == ty || exists k :: 0 <= k < |types| && types[k].0 == t.0
  {
    if types != [] && types[0].0 != ty {
      BumpTypes(types[1..], ty);
      forall t | t in Bump(types, ty) ensures t.0 == ty || exists k :: 0 <= k < |types| && types[k].0 == t.0 {
        if t in Bump(types[1..], ty) && t.0 != ty {
          var k :| 0 <= k < |types[1..]| && types[1..][k].0 == t.0;
          assert types[k + 1].0 == t.0;
        }
      }
    }
  }

  lemma {:induction false} BumpSums(types: seq<(LogicalType, nat)>, ty: LogicalType)
    ensures SumTypes(Bump(types, ty)) == SumTypes(types) + 1
  {
    if types != [] && types[0].0 != ty {
      BumpSums(types[1..], ty);
      assert Bump(types, ty)[1..] == Bump(types[1..], ty);
    }
  }

  lemma {:induction false} BumpSound(types: seq<(LogicalType, nat)>, ty: LogicalType)
    requires forall i, j | 0 <= i < j < |types| :: types[i].0 != types[j].0
    ensures SumTypes(Bump(types, ty)) == SumTypes(types) + 1
    ensures forall i, j | 0 <= i < j < |Bump(types, ty)| :: Bump(types, ty)[i].0 != Bump(types, ty)[j].0
    ensures forall t | t in Bump(types, ty) :: t.0 == ty || exists k :: 0 <= k < |types| && types[k].0 == t.0
  {
    BumpSums(types, ty);
    BumpTypes(types, ty);
    if types != [] && types[0].0 != ty {
      var rest := Bump(types[1..], ty);
      BumpSound(types[1..], ty);
      forall j | 0 <= j < |rest| ensures rest[j].0 != types[0].0 {
        assert rest[j] in rest;
      }
    }
  }

  lemma PutSound(root: seq<Child>, name: string, node: Trie)
    requires SoundRoot(root) && Sound(node)
    ensures SoundRoot(PutNode(root, name, node))
  {
    var put := PutNode(root, name, node);
    forall c | c in put ensures Sound(c.node) {
      if c != Child(name, node) {
        assert c in root;
      }
    }
  }

  lemma {:induction false} EntrySound(root: seq<Child>, entry: Entry)
    requires SoundRoot(root)
    ensures SoundRoot(RecordEntry(root, entry))
    decreases entry, 0
  {
    var before := NodeAt(root, entry.key);
    assert Sound(before);
    BumpSound(before.types, TypeOf(entry.value));
    var node := Record(before, TypeOf(entry.value));
    if entry.value.Nested? {
      FieldsSound(node.children, entry.value.fields);
      node := node.(children := RecordFields(node.children, entry.value.fields));
    }
    PutSound(root, entry.key, node);
  }

  lemma {:induction false} FieldsSound(root: seq<Child>, fields: seq<Entry>)
    requires SoundRoot(root)
    ensures SoundRoot(RecordFields(root, fields))
    decreases fields, 1
  {
    if fields != [] {
      EntrySound(root, fields[0]);
      FieldsSound(RecordEntry(root, fields[0]), fields[1..]);
    }
  }

  /** Whatever is recorded, type counts stay distinct and add up, even with repeated keys. */
  lemma {:induction false} TrieSound(root: seq<Child>, docs: seq<seq<Entry>>)
    requires SoundRoot(root)
    ensures SoundRoot(RecordAll(root, docs))
    decreases |docs|
  {
    if docs != [] {
      FieldsSound(root, docs[0]);
      TrieSound(RecordFields(root, docs[0]), docs[1..]);
    }
  }

  lemma {:induction false} CarryingSplit(a: seq<seq<Entry>>, b: seq<seq<Entry>>, path: seq<string>, ty: LogicalType)
    requires path != []
    ensures Carrying(a + b, path) == Carrying(a, path) + Carrying(b, path)
    ensures CarryingType(a + b, path, ty) == CarryingType(a, path, ty) + CarryingType(b, path, ty)
  {
    if a == [] {
      assert a + b == b;
    } else {
      CarryingSplit(a[1..], b, path, ty);
      assert (a + b)[1..] == a[1..] + b;
    }
  }

  lemma {:induction false} CarryingPermutes(
    a: seq<seq<Entry>>, b: seq<seq<Entry>>, path: seq<string>, ty: LogicalType)
    requires path != [] && multiset(a) == multiset(b)
    ensures Carrying(a, path) == Carrying(b, path)
    ensures CarryingType(a, path, ty) == CarryingType(b, path, ty)
  {
    if a == [] {
      Sequences.EmptyRearrangement(b);
    } else {
      var k := Sequences.FindInRearrangement(a, b);
      Sequences.RemoveFromBoth(a, b, k);
      CarryingPermutes(a[1..], b[..k] + b[k + 1..], path, ty);
      CarryingSplit(b[..k], b[k + 1..], path, ty);
      CarryingSplit(b[..k], b[k..], path, ty);
      assert b == b[..k] + b[k..];
      assert b[k..][1..] == b[k + 1..];
    }
  }

  /** The counts do not depend on the order in which the documents came. */
  lemma OrderDoesNotMatter(a: seq<seq<Entry>>, b: seq<seq<Entry>>, path: seq<string>, ty: LogicalType)
    requires path != [] && multiset(a) == multiset(b)
    requires forall d | d in a :: UniqueKeys(d)
    ensures Lookup(RecordAll([], a), path).present == Lookup(RecordAll([], b), path).present
    ensures TypeCount(Lookup(RecordAll([], a), path), ty) == TypeCount(Lookup(RecordAll([], b), path), ty)
  {
    forall d | d in b ensures UniqueKeys(d) {
      assert d in multiset(b);
      assert d in a;
    }
    TrieCounts(a, path, ty);
    TrieCounts(b, path, ty);
    CarryingPermutes(a, b, path, ty);
  }
}

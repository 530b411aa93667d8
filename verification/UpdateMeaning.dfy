/**
  What an update body does to a stored document, and that the two routes do the same: the partial
  document under Elasticsearch's merge, the script under its Painless meaning, and both against
  plain path edits.
 */
module UpdateMeaning {
  import opened Wrappers
  import opened Json
  import opened Updates
  import Sequences

  // ---- The meaning of a script. `None` is an exception thrown on the server. ----

  function EnsureMapAt(doc: Object, names: Names): Option<Object>
    requires names != []
    decreases |names|
  {
    var here := names[0] in doc && doc[names[0]].JObj?;
    if |names| == 1 then Some(if here then doc else doc[names[0] := JObj(map[])])
    else if !here then None
    else Under(doc, names[0], EnsureMapAt(doc[names[0]].fields, names[1..]))
  }

  function AssignAt(doc: Object, names: Names, value: Json): Option<Object>
    requires names != []
    decreases |names|
  {
    if |names| == 1 then Some(doc[names[0] := value])
    else if names[0] in doc && doc[names[0]].JObj? then
      Under(doc, names[0], AssignAt(doc[names[0]].fields, names[1..], value))
    else None
  }

  function Under(doc: Object, name: string, inner: Option<Object>): Option<Object> {
    match inner
    case None => None
    case Some(fields) => Some(doc[name := JObj(fields)])
  }

  /** Guarded removal: nothing happens unless every proper prefix is a map. */
  function RemovePath(doc: Object, names: Names): Object
    requires names != []
    decreases |names|
  {
    if |names| == 1 then doc - {names[0]}
    else if names[0] in doc && doc[names[0]].JObj? then
      doc[names[0] := JObj(RemovePath(doc[names[0]].fields, names[1..]))]
    else doc
  }

  predicate WellFormedLine(line: Stmt, params: seq<Json>) {
    match line
    case EnsureMap(names) => names != []
    case Assign(names, param) => names != [] && param < |params|
    case RemoveTop(_) => true
    case RemoveNested(names) => names != []
  }

  function Exec(line: Stmt, params: seq<Json>, doc: Object): Option<Object> {
    if !WellFormedLine(line, params) then None
    else
      match line
      case EnsureMap(names) => EnsureMapAt(doc, names)
      case Assign(names, param) => AssignAt(doc, names, params[param])
      case RemoveTop(name) => Some(doc - {name})
      case RemoveNested(names) => Some(RemovePath(doc, names))
  }

  function Run(lines: seq<Stmt>, params: seq<Json>, doc: Object): Option<Object> {
    if lines == [] then Some(doc)
    else
      match Run(lines[..|lines| - 1], params, doc)
      case None => None
      case Some(d) => Exec(lines[|lines| - 1], params, d)
  }

  function ApplyBody(body: Body, doc: Object): Option<Object> {
    match body
    case Doc(patch) => Some(Merge(doc, patch))
    case Script(lines, params) => Run(lines, params, doc)
  }

  // ---- The reference: one edit at a time. ----

  datatype Edit =
    | Put(names: Names, value: Json)
    | Blend(names: Names, value: Json)
    | Drop(names: Names)

  function FieldsAt(doc: Object, name: string): Object {
    if name in doc && doc[name].JObj? then doc[name].fields else map[]
  }

  /** Sets a path, turning whatever stands in the way into an object. */
  function SetPath(doc: Object, names: Names, value: Json): Object
    requires names != []
    decreases |names|
  {
    if |names| == 1 then doc[names[0] := value]
    else doc[names[0] := JObj(SetPath(FieldsAt(doc, names[0]), names[1..], value))]
  }

  function ReadAt(doc: Object, name: string): Option<Json> {
    if name in doc then Some(doc[name]) else None
  }

  /** What the merge leaves of a stored value under a given one: two objects merge, anything else is replaced. */
  function Blended(stored: Option<Json>, value: Json): Json {
    if stored.Some? && stored.value.JObj? && value.JObj? then JObj(Merge(stored.value.fields, value.fields)) else value
  }

  /** Merges a value in at a path, turning whatever stands in the way into an object. */
  function BlendPath(doc: Object, names: Names, value: Json): Object
    requires names != []
    decreases |names|
  {
    if |names| == 1 then doc[names[0] := Blended(ReadAt(doc, names[0]), value)]
    else doc[names[0] := JObj(BlendPath(FieldsAt(doc, names[0]), names[1..], value))]
  }

  function ApplyEdit(doc: Object, edit: Edit): Object
    requires edit.names != []
  {
    match edit
    case Put(names, value) => SetPath(doc, names, value)
    case Blend(names, value) => BlendPath(doc, names, value)
    case Drop(names) => RemovePath(doc, names)
  }

  /** What an edit leaves to be read at its path. */
  function Shown(edit: Edit, stored: Option<Json>): Option<Json> {
    match edit
    case Put(_, value) => Some(value)
    case Blend(_, value) => Some(Blended(stored, value))
    case Drop(_) => None
  }

  predicate Addressed(edits: seq<Edit>) {
    forall i | 0 <= i < |edits| :: |edits[i].names| > 0
  }

  function ApplyAll(doc: Object, edits: seq<Edit>): Object
    requires Addressed(edits)
    decreases |edits|
  {
    if edits == [] then doc else ApplyAll(ApplyEdit(doc, edits[0]), edits[1..])
  }

  // ---- Reading after an edit. ----

  lemma SharedFirst(p: Names, q: Names)
    requires p != [] && q != []
    ensures p[0] != q[0] ==> !Comparable(p, q)
    ensures p[0] == q[0] && (|p| == 1 || |q| == 1) ==> Comparable(p, q)
    ensures p[0] == q[0] && |p| > 1 && |q| > 1 ==> (Comparable(p, q) <==> Comparable(p[1..], q[1..]))
  {
    var n := if |p| <= |q| then |p| else |q|;
    assert p[..n] == [p[0]] + p[1..][..n - 1];
    assert q[..n] == [q[0]] + q[1..][..n - 1];
    if p[0] != q[0] {
      assert p[..n][0] != q[..n][0];
    }
    if |p| > 1 && |q| > 1 {
      assert p[..n][1..] == p[1..][..n - 1];
      assert q[..n][1..] == q[1..][..n - 1];
    }
  }

  lemma {:induction false} EditReads(doc: Object, edit: Edit)
    requires edit.names != []
    ensures Lookup(ApplyEdit(doc, edit), edit.names) == Shown(edit, Lookup(doc, edit.names))
    decreases |edit.names|
  {
    if |edit.names| > 1 {
      EditReads(FieldsAt(doc, edit.names[0]), edit.(names := edit.names[1..]));
    }
  }

  /** An edit leaves every path alone that is neither above nor below its own. */
  lemma {:induction false} EditKeeps(doc: Object, edit: Edit, q: Names)
    requires edit.names != [] && q != [] && !Comparable(edit.names, q)
    ensures Lookup(ApplyEdit(doc, edit), q) == Lookup(doc, q)
    decreases |q|
  {
    SharedFirst(edit.names, q);
    if edit.names[0] == q[0] {
      EditKeeps(FieldsAt(doc, q[0]), edit.(names := edit.names[1..]), q[1..]);
    }
  }

  predicate Incomparable(edits: seq<Edit>) {
    forall i, j | 0 <= i < j < |edits| :: !Comparable(edits[i].names, edits[j].names)
  }

  lemma {:induction false} AllKeep(doc: Object, edits: seq<Edit>, q: Names)
    requires Addressed(edits) && q != []
    requires forall i | 0 <= i < |edits| :: !Comparable(edits[i].names, q)
    ensures Lookup(ApplyAll(doc, edits), q) == Lookup(doc, q)
    decreases |edits|
  {
    if edits != [] {
      EditKeeps(doc, edits[0], q);
      AllKeep(ApplyEdit(doc, edits[0]), edits[1..], q);
    }
  }

  /** No other edit is at, above or below the path of this one. */
  predicate StandsAlone(edits: seq<Edit>, k: nat)
    requires k < |edits|
  {
    forall i | 0 <= i < |edits| && i != k :: !Comparable(edits[i].names, edits[k].names)
  }

  lemma IncomparableStandAlone(edits: seq<Edit>, k: nat)
    requires Incomparable(edits) && k < |edits|
    ensures StandsAlone(edits, k)
  {
    forall i | k < i < |edits| ensures !Comparable(edits[i].names, edits[k].names) {
      ComparableSymmetric(edits[k].names, edits[i].names);
    }
  }

  /** An edit that stands alone takes effect on what was stored at its path, whatever the others do. */
  lemma {:induction false} AllRead(doc: Object, edits: seq<Edit>, k: nat)
    requires Addressed(edits) && k < |edits| && StandsAlone(edits, k)
    ensures Lookup(ApplyAll(doc, edits), edits[k].names) == Shown(edits[k], Lookup(doc, edits[k].names))
    decreases |edits|
  {
    hide Lookup, Comparable, ApplyEdit;
    var next, rest := ApplyEdit(doc, edits[0]), edits[1..];
    if k == 0 {
      EditReads(doc, edits[0]);
      AllKeep(next, rest, edits[0].names);
    } else {
      EditKeeps(doc, edits[0], edits[k].names);
      AllRead(next, rest, k - 1);
    }
  }

  lemma ComparableSymmetric(p: Names, q: Names)
    ensures Comparable(p, q) <==> Comparable(q, p)
  {
  }

  // ---- The order of unrelated edits does not matter. ----

  predicate AgreeAt(a: Object, b: Object, key: string) {
    (key in a <==> key in b) && (key in a ==> a[key] == b[key])
  }

  /** An edit touches its first name only, and what it does there depends on what is there. */
  lemma EditIsLocal(a: Object, b: Object, edit: Edit, key: string)
    requires edit.names != [] && AgreeAt(a, b, key)
    ensures key != edit.names[0] ==> AgreeAt(ApplyEdit(a, edit), b, key)
    ensures key == edit.names[0] ==> AgreeAt(ApplyEdit(a, edit), ApplyEdit(b, edit), key)
  {
  }

  lemma DistantEditsCommute(doc: Object, a: Edit, b: Edit)
    requires a.names != [] && b.names != [] && a.names[0] != b.names[0]
    ensures ApplyEdit(ApplyEdit(doc, a), b) == ApplyEdit(ApplyEdit(doc, b), a)
  {
    var x, y := ApplyEdit(doc, a), ApplyEdit(doc, b);
    var xy, yx := ApplyEdit(x, b), ApplyEdit(y, a);
    forall key ensures AgreeAt(xy, yx, key) {
      EditIsLocal(doc, doc, a, key);
      EditIsLocal(doc, doc, b, key);
      EditIsLocal(x, if key == a.names[0] then x else doc, b, key);
      EditIsLocal(y, if key == b.names[0] then y else doc, a, key);
    }
    assert xy.Keys == yx.Keys by {
      forall key ensures key in xy.Keys <==> key in yx.Keys {
        assert AgreeAt(xy, yx, key);
      }
    }
    assert forall key | key in xy :: AgreeAt(xy, yx, key) && xy[key] == yx[key];
  }

  lemma {:induction false} EditsCommute(doc: Object, a: Edit, b: Edit)
    requires a.names != [] && b.names != [] && !Comparable(a.names, b.names)
    ensures ApplyEdit(ApplyEdit(doc, a), b) == ApplyEdit(ApplyEdit(doc, b), a)
    decreases |a.names|
  {
    SharedFirst(a.names, b.names);
    if a.names[0] == b.names[0] {
      var name := a.names[0];
      var a', b' := a.(names := a.names[1..]), b.(names := b.names[1..]);
      EditsCommute(FieldsAt(doc, name), a', b');
      NestedEditsCommute(doc, a, b);
    } else {
      DistantEditsCommute(doc, a, b);
    }
  }

  lemma NestedEditsCommute(doc: Object, a: Edit, b: Edit)
    requires |a.names| > 1 && |b.names| > 1 && a.names[0] == b.names[0]
    requires var inside := FieldsAt(doc, a.names[0]);
             var a', b' := a.(names := a.names[1..]), b.(names := b.names[1..]);
             ApplyEdit(ApplyEdit(inside, a'), b') == ApplyEdit(ApplyEdit(inside, b'), a')
    ensures ApplyEdit(ApplyEdit(doc, a), b) == ApplyEdit(ApplyEdit(doc, b), a)
  {
    hide ApplyEdit, Blended;
    var name := a.names[0];
    var x, y := ApplyEdit(doc, a), ApplyEdit(doc, b);
    DeepEdit(doc, a);
    DeepEdit(doc, b);
    DeepEdit(x, b);
    DeepEdit(y, a);
    if !(name in doc && doc[name].JObj?) && a.Drop? != b.Drop? {
      DropEditFromNothing(Drop(if b.Drop? then b.names[1..] else a.names[1..]));
    }
  }

  lemma DropEditFromNothing(edit: Edit)
    requires edit.Drop? && edit.names != []
    ensures ApplyEdit(map[], edit) == map[]
  {
    DropFromNothing(edit.names);
  }

  /** Removing from an empty object leaves it empty. */
  lemma DropFromNothing(names: Names)
    requires names != []
    ensures RemovePath(map[], names) == map[]
  {
  }

  /** A nested edit works on the object under its first name, if there is (or will be) one. */
  lemma DeepEdit(doc: Object, edit: Edit)
    requires |edit.names| > 1
    ensures var name := edit.names[0];
            var live := !edit.Drop? || (name in doc && doc[name].JObj?);
            var inner := ApplyEdit(FieldsAt(doc, name), edit.(names := edit.names[1..]));
            ApplyEdit(doc, edit) == if live then doc[name := JObj(inner)] else doc
  {
  }

  lemma {:induction false} ApplyAllConcat(doc: Object, a: seq<Edit>, b: seq<Edit>)
    requires Addressed(a) && Addressed(b)
    ensures Addressed(a + b)
    ensures ApplyAll(doc, a + b) == ApplyAll(ApplyAll(doc, a), b)
    decreases |a|
  {
    if a == [] {
      assert a + b == b;
    } else {
      assert (a + b)[1..] == a[1..] + b && (a + b)[0] == a[0];
      ApplyAllConcat(ApplyEdit(doc, a[0]), a[1..], b);
    }
  }

  /** An edit unrelated to all before it may as well come first. */
  lemma {:induction false} MoveToFront(doc: Object, before: seq<Edit>, edit: Edit)
    requires Addressed(before) && edit.names != []
    requires forall i | 0 <= i < |before| :: !Comparable(before[i].names, edit.names)
    ensures ApplyEdit(ApplyAll(doc, before), edit) == ApplyAll(ApplyEdit(doc, edit), before)
    decreases |before|
  {
    if before != [] {
      EditsCommute(doc, before[0], edit);
      MoveToFront(ApplyEdit(doc, before[0]), before[1..], edit);
    }
  }

  lemma IncomparableWithout(b: seq<Edit>, k: nat)
    requires Incomparable(b) && Addressed(b) && k < |b|
    ensures Incomparable(b[..k] + b[k + 1..]) && Addressed(b[..k] + b[k + 1..])
    ensures forall i | 0 <= i < k :: !Comparable(b[i].names, b[k].names)
  {
  }

  /** Rearranging pairwise unrelated edits changes nothing. */
  lemma {:induction false} OrderDoesNotMatter(doc: Object, a: seq<Edit>, b: seq<Edit>)
    requires Addressed(a) && Addressed(b) && Incomparable(b) && multiset(a) == multiset(b)
    ensures ApplyAll(doc, a) == ApplyAll(doc, b)
    decreases |a|
  {
    hide ApplyEdit, Comparable;
    if a == [] {
      Sequences.EmptyRearrangement(b);
    } else {
      var k := Sequences.FindInRearrangement(a, b);
      var rest := b[..k] + b[k + 1..];
      Sequences.RemoveFromBoth(a, b, k);
      IncomparableWithout(b, k);
      var next := ApplyEdit(doc, a[0]);
      OrderDoesNotMatter(next, a[1..], rest);
      ApplyAllConcat(next, b[..k], b[k + 1..]);
      MoveToFront(doc, b[..k], b[k]);
      ApplyAllConcat(doc, b[..k], b[k..]);
      assert b == b[..k] + b[k..] && b[k..][1..] == b[k + 1..];
    }
  }

  // ---- The script route is exactly its edits. ----

  lemma {:induction false} RunConcat(a: seq<Stmt>, b: seq<Stmt>, params: seq<Json>, doc: Object)
    ensures Run(a + b, params, doc)
         == match Run(a, params, doc) case None => None case Some(d) => Run(b, params, d)
    decreases |b|
  {
    if b == [] {
      assert a + b == a;
    } else {
      assert (a + b)[..|a + b| - 1] == a + b[..|b| - 1];
      RunConcat(a, b[..|b| - 1], params, doc);
    }
  }

  /** The document with the first `d` names of a path turned into objects. */
  function MapsAlong(doc: Object, names: Names, d: nat): Object
    requires d <= |names|
    decreases d
  {
    if d == 0 then doc else doc[names[0] := JObj(MapsAlong(FieldsAt(doc, names[0]), names[1..], d - 1))]
  }

  lemma Overwrite(doc: Object, key: string, prior: Json, value: Json)
    ensures doc[key := prior][key := value] == doc[key := value]
  {
  }

  lemma {:induction false} EnsureDeepens(doc: Object, names: Names, d: nat)
    requires 1 <= d <= |names|
    ensures EnsureMapAt(MapsAlong(doc, names, d - 1), names[..d]) == Some(MapsAlong(doc, names, d))
    decreases d
  {
    var inner := FieldsAt(doc, names[0]);
    if d == 1 {
      assert MapsAlong(inner, names[1..], 0) == inner;
      if names[0] in doc && doc[names[0]].JObj? {
        assert doc[names[0]] == JObj(inner) && doc == doc[names[0] := JObj(inner)];
      }
    } else {
      EnsureDeepens(inner, names[1..], d - 1);
      assert names[..d][1..] == names[1..][..d - 1];
      Overwrite(doc, names[0], JObj(MapsAlong(inner, names[1..], d - 2)), JObj(MapsAlong(inner, names[1..], d - 1)));
    }
  }

  lemma {:induction false} EnsureLinesRun(doc: Object, names: Names, d: nat, params: seq<Json>)
    requires d <= |names|
    ensures Run(EnsureLines(names, d), params, doc) == Some(MapsAlong(doc, names, d))
  {
    if d > 0 {
      EnsureLinesRun(doc, names, d - 1, params);
      EnsureDeepens(doc, names, d);
      var lines := EnsureLines(names, d);
      assert lines[..|lines| - 1] == EnsureLines(names, d - 1);
    }
  }

  lemma {:induction false} AssignOnMaps(doc: Object, names: Names, value: Json)
    requires names != []
    ensures AssignAt(MapsAlong(doc, names, |names| - 1), names, value) == Some(SetPath(doc, names, value))
    decreases |names|
  {
    if |names| > 1 {
      var inner := FieldsAt(doc, names[0]);
      AssignOnMaps(inner, names[1..], value);
      Overwrite(doc, names[0], JObj(MapsAlong(inner, names[1..], |names| - 2)), JObj(SetPath(inner, names[1..], value)));
    }
  }

  /** One assignment's lines set the path, whatever stood in the way; they never throw. */
  lemma AssignLinesRun(doc: Object, names: Names, param: nat, params: seq<Json>)
    requires names != [] && param < |params|
    ensures Run(AssignLines(names, param), params, doc) == Some(SetPath(doc, names, params[param]))
  {
    var lines := AssignLines(names, param);
    EnsureLinesRun(doc, names, |names| - 1, params);
    AssignOnMaps(doc, names, params[param]);
    assert lines[..|lines| - 1] == EnsureLines(names, |names| - 1);
  }

  function Puts(all: seq<Names>, params: seq<Json>): seq<Edit>
    requires |all| <= |params|
  {
    seq(|all|, i requires 0 <= i < |all| => Put(all[i], params[i]))
  }

  function Drops(all: seq<Names>): seq<Edit> {
    seq(|all|, i requires 0 <= i < |all| => Drop(all[i]))
  }

  lemma {:induction false} AllAssignLinesRun(doc: Object, all: seq<Names>, params: seq<Json>)
    requires NoneEmpty(all) && |all| <= |params|
    ensures Run(AllAssignLines(all), params, doc) == Some(ApplyAll(doc, Puts(all, params)))
    decreases |all|
  {
    hide AssignLines, SetPath;
    if all != [] {
      var n := |all| - 1;
      AllAssignLinesRun(doc, all[..n], params);
      RunConcat(AllAssignLines(all[..n]), AssignLines(all[n], n), params, doc);
      AssignLinesRun(ApplyAll(doc, Puts(all[..n], params)), all[n], n, params);
      var last := [Put(all[n], params[n])];
      ApplyAllConcat(doc, Puts(all[..n], params), last);
      assert Puts(all, params) == Puts(all[..n], params) + last;
      assert last[1..] == [];
    }
  }

  lemma {:induction false} RemoveLinesRun(doc: Object, all: seq<Names>, params: seq<Json>)
    requires NoneEmpty(all)
    ensures Run(RemoveLines(all), params, doc) == Some(ApplyAll(doc, Drops(all)))
    decreases |all|
  {
    if all != [] {
      var n := |all| - 1;
      RemoveLinesRun(doc, all[..n], params);
      var last := [Drop(all[n])];
      RunConcat(RemoveLines(all[..n]), [RemoveLine(all[n])], params, doc);
      RemoveLineRuns(ApplyAll(doc, Drops(all[..n])), all[n], params);
      ApplyAllConcat(doc, Drops(all[..n]), last);
      assert Drops(all) == Drops(all[..n]) + last;
      assert last[1..] == [];
    }
  }

  lemma RemoveLineRuns(doc: Object, names: Names, params: seq<Json>)
    requires names != []
    ensures Run([RemoveLine(names)], params, doc) == Some(RemovePath(doc, names))
  {
    assert [RemoveLine(names)][..0] == [];
  }

  /** What an accepted script does to any document: all its assignments, then all its removals. */
  lemma ScriptRuns(doc: Object, assignments: seq<Assignment>, removals: seq<Path>)
    requires ScriptBody(assignments, removals).Ok?
    ensures var all := AdmitAll([], Paths(assignments) + removals).value;
            var n := |assignments|;
            && NoneEmpty(all[..n]) && NoneEmpty(all[n..])
            && ApplyBody(ScriptBody(assignments, removals).value, doc)
               == Some(ApplyAll(ApplyAll(doc, Puts(all[..n], Params(assignments))), Drops(all[n..])))
  {
    var all := AdmitAll([], Paths(assignments) + removals).value;
    var n, params := |assignments|, Params(assignments);
    AllAssignLinesRun(doc, all[..n], params);
    RemoveLinesRun(ApplyAll(doc, Puts(all[..n], params)), all[n..], params);
    RunConcat(AllAssignLines(all[..n]), RemoveLines(all[n..]), params, doc);
  }

  // ---- The partial-document route is exactly its edits. ----

  /** Where the patch holds an object (or nothing), the merge holds the merge of the insides. */
  lemma MergeInside(doc: Object, root: Object, name: string)
    requires name in root ==> root[name].JObj?
    ensures FieldsAt(Merge(doc, root), name) == Merge(FieldsAt(doc, name), FieldsAt(root, name))
  {
    MergeNothing(FieldsAt(doc, name));
    MergeOntoNothing(FieldsAt(root, name));
  }

  lemma MergeUpdate(doc: Object, root: Object, name: string, inner: Object)
    ensures Merge(doc, root[name := JObj(inner)]) == Merge(doc, root)[name := JObj(Merge(FieldsAt(doc, name), inner))]
  {
    MergeOntoNothing(inner);
  }

  lemma MergeLeaf(doc: Object, root: Object, name: string, value: Json)
    requires name !in root
    ensures Merge(doc, root[name := value]) == Merge(doc, root)[name := Blended(ReadAt(Merge(doc, root), name), value)]
  {
    assert ReadAt(Merge(doc, root), name) == ReadAt(doc, name);
  }

  lemma {:induction false} MergeOfInsert(doc: Object, root: Object, names: Names, value: Json)
    requires names != [] && InsertNested(root, names, value).Some?
    ensures Merge(doc, InsertNested(root, names, value).value) == BlendPath(Merge(doc, root), names, value)
    decreases |names|
  {
    var name := names[0];
    if |names| == 1 {
      MergeLeaf(doc, root, name, value);
    } else {
      var child := FieldsAt(root, name);
      MergeOfInsert(FieldsAt(doc, name), child, names[1..], value);
      MergeInside(doc, root, name);
      MergeUpdate(doc, root, name, InsertNested(child, names[1..], value).value);
    }
  }

  predicate Writable(assignments: seq<Assignment>) {
    forall i | 0 <= i < |assignments| :: SetFieldNames(assignments[i].path).Ok?
  }

  /** The edits that a list of assignments asks of a script. */
  function AssignmentEdits(assignments: seq<Assignment>): seq<Edit>
    requires Writable(assignments)
  {
    seq(|assignments|, i requires 0 <= i < |assignments| =>
      Put(SetFieldNames(assignments[i].path).value, assignments[i].value))
  }

  /** The edits that a list of assignments asks of the merge. */
  function BlendEdits(assignments: seq<Assignment>): seq<Edit>
    requires Writable(assignments)
  {
    seq(|assignments|, i requires 0 <= i < |assignments| =>
      Blend(SetFieldNames(assignments[i].path).value, assignments[i].value))
  }

  /** Merging an accepted partial document merges its values in at their paths, one by one. */
  lemma {:induction false} PartialDocMerges(doc: Object, root: Object, assignments: seq<Assignment>)
    requires PartialDoc(root, assignments).Ok?
    ensures Writable(assignments)
    ensures Merge(doc, PartialDoc(root, assignments).value) == ApplyAll(Merge(doc, root), BlendEdits(assignments))
    decreases |assignments|
  {
    if assignments != [] {
      var a := assignments[0];
      var names := SetFieldNames(a.path).value;
      var grown := InsertNested(root, names, a.value).value;
      MergeOfInsert(doc, root, names, a.value);
      PartialDocMerges(doc, grown, assignments[1..]);
      assert forall i | 0 < i < |assignments| :: assignments[i] == assignments[1..][i - 1];
      var edits := BlendEdits(assignments);
      assert edits[1..] == BlendEdits(assignments[1..]);
    }
  }
}

/** When the two update routes agree, what every accepted update does, and when the order of its sets matters. */
module UpdateRoutes {
  import opened Wrappers
  import opened Json
  import opened Updates
  import opened UpdateMeaning
  import opened UpdateAcceptance
  import Sequences
  import Values

  // ---- When the routes agree. ----

  /** An accepted list of assignments, by script: the values are put in place. */
  lemma ScriptPuts(doc: Object, assignments: seq<Assignment>)
    requires ScriptBody(assignments, []).Ok?
    ensures Writable(assignments) && Incomparable(AssignmentEdits(assignments))
    ensures ApplyBody(ScriptBody(assignments, []).value, doc) == Some(ApplyAll(doc, AssignmentEdits(assignments)))
  {
    ScriptIsEdits(doc, assignments, []);
    assert AssignmentEdits(assignments) + RemovalEdits([]) == AssignmentEdits(assignments);
  }

  /** The same list by partial document: the values are merged in. */
  lemma PartialDocBlends(doc: Object, assignments: seq<Assignment>)
    requires PartialDoc(map[], assignments).Ok?
    ensures Writable(assignments)
    ensures ApplyBody(Doc(PartialDoc(map[], assignments).value), doc) == Some(ApplyAll(doc, BlendEdits(assignments)))
  {
    PartialDocMerges(doc, map[], assignments);
    MergeNothing(doc);
  }

  /** Merging the value into what is stored at the path is the same as putting it there. */
  predicate MergeIsPut(doc: Object, assignment: Assignment)
    requires SetFieldNames(assignment.path).Ok?
  {
    Blended(Lookup(doc, NamesOf(assignment.path)), assignment.value) == assignment.value
  }

  lemma {:induction false} BlendIsPut(doc: Object, names: Names, value: Json)
    requires names != [] && Blended(Lookup(doc, names), value) == value
    ensures BlendPath(doc, names, value) == SetPath(doc, names, value)
    decreases |names|
  {
    if |names| > 1 {
      BlendIsPut(FieldsAt(doc, names[0]), names[1..], value);
    }
  }

  lemma {:induction false} BlendsArePuts(doc: Object, assignments: seq<Assignment>)
    requires Writable(assignments) && Incomparable(AssignmentEdits(assignments))
    requires forall i | 0 <= i < |assignments| :: MergeIsPut(doc, assignments[i])
    ensures ApplyAll(doc, BlendEdits(assignments)) == ApplyAll(doc, AssignmentEdits(assignments))
    decreases |assignments|
  {
    if assignments != [] {
      var puts, rest := AssignmentEdits(assignments), assignments[1..];
      var next := ApplyEdit(doc, puts[0]);
      assert MergeIsPut(doc, assignments[0]);
      BlendIsPut(doc, puts[0].names, puts[0].value);
      forall i | 0 <= i < |rest| ensures MergeIsPut(next, rest[i]) {
        assert MergeIsPut(doc, assignments[i + 1]) && puts[i + 1].names == NamesOf(rest[i].path);
        EditKeeps(doc, puts[0], puts[i + 1].names);
      }
      assert AssignmentEdits(rest) == puts[1..] && BlendEdits(rest) == BlendEdits(assignments)[1..];
      BlendsArePuts(next, rest);
    }
  }

  lemma SameResultReads(doc: Object, assignments: seq<Assignment>, k: nat)
    requires Writable(assignments) && Incomparable(AssignmentEdits(assignments)) && k < |assignments|
    requires ApplyAll(doc, AssignmentEdits(assignments)) == ApplyAll(doc, BlendEdits(assignments))
    ensures MergeIsPut(doc, assignments[k])
  {
    hide ApplyAll, Lookup, Comparable, Blended;
    var puts, blends := AssignmentEdits(assignments), BlendEdits(assignments);
    IncomparableStandAlone(puts, k);
    assert forall i | 0 <= i < |blends| :: blends[i].names == puts[i].names;
    assert StandsAlone(blends, k);
    AllRead(doc, puts, k);
    AllRead(doc, blends, k);
  }

  /**
    On a given document the two routes agree exactly when merging each value into what is stored at
    its path is the same as putting it there.
   */
  lemma {:induction false} RoutesAgreeOn(doc: Object, assignments: seq<Assignment>)
    requires ScriptBody(assignments, []).Ok?
    ensures PartialDoc(map[], assignments).Ok? && Writable(assignments)
    ensures ApplyBody(Doc(PartialDoc(map[], assignments).value), doc) == ApplyBody(ScriptBody(assignments, []).value, doc)
       <==> forall i | 0 <= i < |assignments| :: MergeIsPut(doc, assignments[i])
  {
    hide ApplyBody, ScriptBody, PartialDoc, ApplyAll, MergeIsPut, Incomparable;
    RoutesAcceptDifferently(assignments);
    ScriptPuts(doc, assignments);
    PartialDocBlends(doc, assignments);
    var puts, blends := AssignmentEdits(assignments), BlendEdits(assignments);
    if forall i | 0 <= i < |assignments| :: MergeIsPut(doc, assignments[i]) {
      BlendsArePuts(doc, assignments);
    }
    if ApplyAll(doc, puts) == ApplyAll(doc, blends) {
      forall i | 0 <= i < |assignments| ensures MergeIsPut(doc, assignments[i]) {
        SameResultReads(doc, assignments, i);
      }
    }
  }

  predicate NoObjects(assignments: seq<Assignment>) {
    forall i | 0 <= i < |assignments| :: !assignments[i].value.JObj?
  }

  lemma {:induction false} LongerThanAll(keys: set<string>) returns (n: nat)
    ensures forall s | s in keys :: |s| < n
    decreases |keys|
  {
    if keys == {} {
      n := 0;
    } else {
      var s :| s in keys;
      var m := LongerThanAll(keys - {s});
      n := if |s| < m then m else |s| + 1;
    }
  }

  lemma FreshKey(keys: set<string>) returns (key: string)
    ensures key !in keys
  {
    var n := LongerThanAll(keys);
    key := seq(n, _ => 'x');
  }

  /** A document in which an object at the path has a field the given object lacks. */
  lemma SpareField(assignment: Assignment) returns (doc: Object)
    requires SetFieldNames(assignment.path).Ok? && assignment.value.JObj?
    ensures !MergeIsPut(doc, assignment)
  {
    var key := FreshKey(assignment.value.fields.Keys);
    var stored: Object := map[key := JNull];
    var there := Put(NamesOf(assignment.path), JObj(stored));
    doc := ApplyEdit(map[], there);
    EditReads(map[], there);
    assert key in Merge(stored, assignment.value.fields);
  }

  /** An object among the values makes the routes part: the merge keeps fields the script drops. */
  lemma {:induction false} RoutesPart(assignments: seq<Assignment>, k: nat)
    requires ScriptBody(assignments, []).Ok? && k < |assignments| && assignments[k].value.JObj?
    ensures PartialDoc(map[], assignments).Ok?
    ensures exists doc :: ApplyBody(Doc(PartialDoc(map[], assignments).value), doc)
                       != ApplyBody(ScriptBody(assignments, []).value, doc)
  {
    RoutesAgreeOn(map[], assignments);
    var doc := SpareField(assignments[k]);
    RoutesAgreeOn(doc, assignments);
    assert ApplyBody(Doc(PartialDoc(map[], assignments).value), doc)
        != ApplyBody(ScriptBody(assignments, []).value, doc);
  }

  /** The two routes agree on every stored document exactly when no value is an object. */
  lemma {:induction false} RoutesAgreeExactly(assignments: seq<Assignment>)
    requires ScriptBody(assignments, []).Ok?
    ensures PartialDoc(map[], assignments).Ok?
    ensures NoObjects(assignments) <==>
            forall doc :: ApplyBody(Doc(PartialDoc(map[], assignments).value), doc)
                       == ApplyBody(ScriptBody(assignments, []).value, doc)
  {
    RoutesAcceptDifferently(assignments);
    if NoObjects(assignments) {
      forall doc ensures ApplyBody(Doc(PartialDoc(map[], assignments).value), doc)
                      == ApplyBody(ScriptBody(assignments, []).value, doc) {
        RoutesAgreeOn(doc, assignments);
      }
    } else {
      var k :| 0 <= k < |assignments| && assignments[k].value.JObj?;
      RoutesPart(assignments, k);
    }
  }

  // ---- What an accepted script does. ----

  predicate AllRemovable(removals: seq<Path>) {
    forall i | 0 <= i < |removals| :: SetFieldNames(removals[i]).Ok?
  }

  function RemovalEdits(removals: seq<Path>): seq<Edit>
    requires AllRemovable(removals)
  {
    seq(|removals|, i requires 0 <= i < |removals| => Drop(SetFieldNames(removals[i]).value))
  }

  lemma ExpressibleNames(path: Path)
    requires ScriptFieldNames(path).Ok?
    ensures SetFieldNames(path).Ok? && NamesOf(path) == SetFieldNames(path).value
  {
  }

  lemma ScriptPathsWritable(assignments: seq<Assignment>, removals: seq<Path>)
    requires AllExpressible(Paths(assignments) + removals)
    ensures Writable(assignments) && AllRemovable(removals)
    ensures Puts(PathNames(Paths(assignments) + removals)[..|assignments|], Params(assignments))
         == AssignmentEdits(assignments)
    ensures Drops(PathNames(Paths(assignments) + removals)[|assignments|..]) == RemovalEdits(removals)
  {
    hide SetFieldNames, ScriptFieldNames;
    var paths, n := Paths(assignments) + removals, |assignments|;
    forall i | 0 <= i < |paths| ensures SetFieldNames(paths[i]).Ok? && PathNames(paths)[i] == SetFieldNames(paths[i]).value {
      ExpressibleNames(paths[i]);
    }
    assert forall i | 0 <= i < n :: paths[i] == assignments[i].path;
    assert forall i | 0 <= i < |removals| :: paths[n + i] == removals[i];
  }

  /** An accepted script's names are those of the edits, in order. */
  lemma ScriptNamesAre(assignments: seq<Assignment>, removals: seq<Path>)
    requires ScriptBody(assignments, removals).Ok?
    ensures Writable(assignments) && AllRemovable(removals)
    ensures var all := AdmitAll([], Paths(assignments) + removals).value;
            && Puts(all[..|assignments|], Params(assignments)) == AssignmentEdits(assignments)
            && Drops(all[|assignments|..]) == RemovalEdits(removals)
            && PairwiseIncomparable(all) && NoneEmpty(all)
  {
    var paths := Paths(assignments) + removals;
    ScriptAccepts([], paths);
    assert [] + PathNames(paths) == PathNames(paths);
    ScriptPathsWritable(assignments, removals);
  }

  /** The order in which the body applies the edits: assignments first, then removals. */
  lemma ScriptIsEdits(doc: Object, assignments: seq<Assignment>, removals: seq<Path>)
    requires ScriptBody(assignments, removals).Ok?
    ensures Writable(assignments) && AllRemovable(removals)
    ensures var edits := AssignmentEdits(assignments) + RemovalEdits(removals);
            && Addressed(edits) && Incomparable(edits) && Incomparable(AssignmentEdits(assignments))
            && ApplyBody(ScriptBody(assignments, removals).value, doc) == Some(ApplyAll(doc, edits))
  {
    ScriptNamesAre(assignments, removals);
    ScriptRuns(doc, assignments, removals);
    var puts, drops := AssignmentEdits(assignments), RemovalEdits(removals);
    var all := AdmitAll([], Paths(assignments) + removals).value;
    EditsFromNames(all, |assignments|, puts, drops);
    ApplyAllConcat(doc, puts, drops);
  }

  lemma EditsFromNames(all: seq<Names>, n: nat, puts: seq<Edit>, drops: seq<Edit>)
    requires n <= |all| && |puts| == n && |drops| == |all| - n
    requires forall i | 0 <= i < n :: puts[i].names == all[..n][i]
    requires forall i | 0 <= i < |drops| :: drops[i].names == all[n..][i]
    requires PairwiseIncomparable(all) && NoneEmpty(all)
    ensures Addressed(puts) && Addressed(drops) && Incomparable(puts + drops) && Incomparable(puts)
  {
    var edits := puts + drops;
    assert forall i | 0 <= i < |edits| :: edits[i].names == all[i];
    assert forall i | 0 <= i < |puts| :: edits[i] == puts[i];
  }

  // ---- What every accepted update does. ----

  /** The edit one set asks for: a script puts the value in place, a partial document merges it in. */
  function SetEdit(field: FieldSet, script: bool, render: Values.Value -> Json): Edit {
    var names := NamesOf(field.path);
    if field.value.Absent? then Drop(names)
    else if script then Put(names, Values.ToJson(field.value, render))
    else Blend(names, Values.ToJson(field.value, render))
  }

  function SetEdits(sets: seq<FieldSet>, render: Values.Value -> Json): seq<Edit> {
    seq(|sets|, i requires 0 <= i < |sets| => SetEdit(sets[i], Removes(sets), render))
  }

  predicate AllWritable(sets: seq<FieldSet>) {
    forall i | 0 <= i < |sets| :: SetFieldNames(sets[i].path).Ok?
  }

  /** The edits of sets that go by script, whatever else is among them. */
  function ScriptEdits(sets: seq<FieldSet>, render: Values.Value -> Json): seq<Edit> {
    seq(|sets|, i requires 0 <= i < |sets| => SetEdit(sets[i], true, render))
  }

  lemma AssignmentEditsGrow(assignments: seq<Assignment>, last: Assignment)
    requires Writable(assignments + [last])
    ensures Writable(assignments) && SetFieldNames(last.path).Ok?
    ensures AssignmentEdits(assignments + [last])
         == AssignmentEdits(assignments) + [Put(NamesOf(last.path), last.value)]
  {
    var all := assignments + [last];
    assert all[|assignments|] == last;
    assert forall i | 0 <= i < |assignments| :: all[i] == assignments[i];
  }

  lemma RemovalEditsGrow(removals: seq<Path>, last: Path)
    requires AllRemovable(removals + [last])
    ensures AllRemovable(removals) && SetFieldNames(last).Ok?
    ensures RemovalEdits(removals + [last]) == RemovalEdits(removals) + [Drop(NamesOf(last))]
  {
    var all := removals + [last];
    assert all[|removals|] == last;
    assert forall i | 0 <= i < |removals| :: all[i] == removals[i];
  }

  /** Sorting the sets into assignments and removals keeps every edit. */
  lemma {:induction false} SplitKeepsEdits(sets: seq<FieldSet>, render: Values.Value -> Json)
    requires SplitSets(sets, render).Ok?
    requires Writable(SplitSets(sets, render).value.assignments) && AllRemovable(SplitSets(sets, render).value.removals)
    ensures multiset(ScriptEdits(sets, render))
         == multiset(AssignmentEdits(SplitSets(sets, render).value.assignments)
                     + RemovalEdits(SplitSets(sets, render).value.removals))
    decreases |sets|
  {
    hide SetFieldNames, NamesOf, Values.ToJson, Values.ContainsAbsent;
    if sets == [] {
      assert ScriptEdits(sets, render) == [];
    } else {
      var front, last := sets[..|sets| - 1], sets[|sets| - 1];
      var before := SplitSets(front, render).value;
      if last.value.Absent? {
        RemovalEditsGrow(before.removals, last.path);
      } else {
        AssignmentEditsGrow(before.assignments, Assignment(last.path, Values.ToJson(last.value, render)));
      }
      SplitKeepsEdits(front, render);
      assert ScriptEdits(sets, render) == ScriptEdits(front, render) + [SetEdit(last, true, render)];
    }
  }

  lemma {:induction false} AcceptedIsWritable(sets: seq<FieldSet>, render: Values.Value -> Json)
    requires UpdateBody(sets, render).Ok?
    ensures AllWritable(sets) && Addressed(SetEdits(sets, render))
  {
    UpdateAccepts(sets, render);
    forall i | 0 <= i < |sets| ensures SetFieldNames(sets[i].path).Ok? {
      if Removes(sets) {
        assert SetPaths(sets)[i] in SetPaths(sets);
      } else {
        assert SetAssignments(sets, render)[i].path == sets[i].path;
      }
    }
  }

  lemma UnrelatedSetEdits(sets: seq<FieldSet>, render: Values.Value -> Json)
    ensures Incomparable(SetEdits(sets, render)) <==> Unrelated(SetPaths(sets))
  {
    var names, edits := PathNames(SetPaths(sets)), SetEdits(sets, render);
    assert |names| == |edits| && forall i | 0 <= i < |sets| :: edits[i].names == names[i];
  }

  lemma ScriptUpdateIsEdits(doc: Object, sets: seq<FieldSet>, render: Values.Value -> Json)
    requires UpdateBody(sets, render).Ok? && Removes(sets)
    requires Addressed(SetEdits(sets, render)) && Incomparable(SetEdits(sets, render))
    ensures ApplyBody(UpdateBody(sets, render).value, doc) == Some(ApplyAll(doc, SetEdits(sets, render)))
  {
    hide SetFieldNames, NamesOf, Values.ToJson, Values.ContainsAbsent, ApplyBody, SplitSets;
    var split := SplitSets(sets, render).value;
    SplitAccepts(sets, render);
    ScriptIsEdits(doc, split.assignments, split.removals);
    SplitKeepsEdits(sets, render);
    assert ScriptEdits(sets, render) == SetEdits(sets, render);
    var body := AssignmentEdits(split.assignments) + RemovalEdits(split.removals);
    OrderDoesNotMatter(doc, SetEdits(sets, render), body);
  }

  lemma PlainUpdateIsEdits(doc: Object, sets: seq<FieldSet>, render: Values.Value -> Json)
    requires UpdateBody(sets, render).Ok? && !Removes(sets)
    requires Addressed(SetEdits(sets, render))
    ensures ApplyBody(UpdateBody(sets, render).value, doc) == Some(ApplyAll(doc, SetEdits(sets, render)))
  {
    hide SetFieldNames, Values.ToJson, Values.ContainsAbsent, SplitSets;
    SplitAccepts(sets, render);
    SplitPlain(sets, render);
    var assignments := SetAssignments(sets, render);
    PartialDocBlends(doc, assignments);
    assert forall i | 0 <= i < |sets| :: !sets[i].value.Absent? by {
      assert forall i | 0 <= i < |sets| :: sets[i] in sets;
    }
    assert BlendEdits(assignments) == SetEdits(sets, render);
  }

  /**
    Every accepted update, whichever route it takes, does exactly the edits its sets ask for, in the
    order of the sets; by script they are also unrelated to one another.
   */
  lemma UpdateIsEdits(doc: Object, sets: seq<FieldSet>, render: Values.Value -> Json)
    requires UpdateBody(sets, render).Ok?
    ensures AllWritable(sets) && Addressed(SetEdits(sets, render))
    ensures Removes(sets) ==> Unrelated(SetPaths(sets))
    ensures ApplyBody(UpdateBody(sets, render).value, doc) == Some(ApplyAll(doc, SetEdits(sets, render)))
  {
    hide SplitSets, ApplyBody, UpdateBody, SetEdits, SetFieldNames, Removes;
    AcceptedIsWritable(sets, render);
    UpdateAccepts(sets, render);
    UnrelatedSetEdits(sets, render);
    if Removes(sets) {
      ScriptUpdateIsEdits(doc, sets, render);
    } else {
      PlainUpdateIsEdits(doc, sets, render);
    }
  }

  /** No other set is at, above or below the path of this one. */
  predicate SetStandsAlone(sets: seq<FieldSet>, k: nat)
    requires k < |sets|
  {
    forall i | 0 <= i < |sets| && i != k :: !Comparable(NamesOf(sets[i].path), NamesOf(sets[k].path))
  }

  /** Reading back after an update: set paths, removed paths, and everything unrelated to them. */
  lemma UpdateReads(doc: Object, sets: seq<FieldSet>, render: Values.Value -> Json, k: nat, q: Names)
    requires UpdateBody(sets, render).Ok? && k < |sets| && q != []
    ensures AllWritable(sets) && ApplyBody(UpdateBody(sets, render).value, doc).Some?
    ensures SetStandsAlone(sets, k) ==>
              var names, value := NamesOf(sets[k].path), Values.ToJson(sets[k].value, render);
              Lookup(ApplyBody(UpdateBody(sets, render).value, doc).value, names)
              == if sets[k].value.Absent? then None
                 else if Removes(sets) then Some(value)
                 else Some(Blended(Lookup(doc, names), value))
    ensures (forall i | 0 <= i < |sets| :: !Comparable(NamesOf(sets[i].path), q)) ==>
              Lookup(ApplyBody(UpdateBody(sets, render).value, doc).value, q) == Lookup(doc, q)
  {
    hide SplitSets, ApplyBody, UpdateBody, Values.ToJson, ApplyAll, Lookup, Removes, Comparable, Blended;
    UpdateIsEdits(doc, sets, render);
    var edits := SetEdits(sets, render);
    assert forall i | 0 <= i < |sets| :: edits[i].names == NamesOf(sets[i].path);
    if SetStandsAlone(sets, k) {
      AllRead(doc, edits, k);
    }
    if forall i | 0 <= i < |sets| :: !Comparable(NamesOf(sets[i].path), q) {
      AllKeep(doc, edits, q);
    }
  }

  predicate PlainValues(sets: seq<FieldSet>, render: Values.Value -> Json) {
    forall i | 0 <= i < |sets| :: !Values.ToJson(sets[i].value, render).JObj?
  }

  /** Accepted sets overlap only where a partial document was given an object: elsewhere each one stands alone. */
  lemma AcceptedStandAlone(sets: seq<FieldSet>, render: Values.Value -> Json, k: nat)
    requires UpdateBody(sets, render).Ok? && k < |sets|
    requires PlainValues(sets, render) || Removes(sets)
    ensures Unrelated(SetPaths(sets)) && SetStandsAlone(sets, k)
  {
    UpdateAccepts(sets, render);
    var names, assignments := PathNames(SetPaths(sets)), SetAssignments(sets, render);
    if !Removes(sets) {
      forall i, j | 0 <= i < j < |names| ensures !Comparable(names[i], names[j]) {
        assert !Visible(NamesOf(assignments[i].path), assignments[i].value, NamesOf(assignments[j].path));
      }
    }
    forall i | 0 <= i < |sets| && i != k ensures !Comparable(NamesOf(sets[i].path), NamesOf(sets[k].path)) {
      assert names[i] == NamesOf(sets[i].path) && names[k] == NamesOf(sets[k].path);
      ComparableSymmetric(names[i], names[k]);
    }
  }

  // ---- When the order of the sets matters. ----

  lemma SetsRearranged(a: seq<FieldSet>, b: seq<FieldSet>, render: Values.Value -> Json)
    requires multiset(a) == multiset(b)
    ensures Removes(a) <==> Removes(b)
    ensures NothingBuried(a) <==> NothingBuried(b)
    ensures AllWritable(a) ==> AllWritable(b)
    ensures multiset(SetPaths(a)) == multiset(SetPaths(b))
    ensures multiset(SetEdits(a, render)) == multiset(SetEdits(b, render))
  {
    hide SetFieldNames, NamesOf, Values.ToJson, Values.ContainsAbsent, SetEdit;
    assert forall s :: (s in a <==> s in multiset(a)) && (s in b <==> s in multiset(b));
    var path, script := (s: FieldSet) => s.path, Removes(a);
    Sequences.MapRearranged(a, b, path);
    assert SetPaths(a) == Sequences.Map(a, path) && SetPaths(b) == Sequences.Map(b, path);
    var edit := s => SetEdit(s, script, render);
    Sequences.MapRearranged(a, b, edit);
    assert SetEdits(a, render) == Sequences.Map(a, edit) && SetEdits(b, render) == Sequences.Map(b, edit);
    if AllWritable(a) {
      forall i | 0 <= i < |b| ensures SetFieldNames(b[i].path).Ok? {
        assert b[i] in a;
      }
    }
  }

  /** Any order of the sets of an accepted update with unrelated paths is accepted. */
  lemma UnrelatedOrderAccepted(a: seq<FieldSet>, b: seq<FieldSet>, render: Values.Value -> Json)
    requires UpdateBody(a, render).Ok? && Unrelated(SetPaths(a)) && multiset(a) == multiset(b)
    ensures UpdateBody(b, render).Ok?
  {
    hide Values.ToJson, Values.ContainsAbsent, SplitSets, UpdateBody, SetFieldNames;
    hide Removes, NothingBuried, NoneConflicts, NothingVisible, AllExpressible, Unrelated, Writable;
    UpdateAccepts(a, render);
    UpdateAccepts(b, render);
    AcceptedIsWritable(a, render);
    SetsRearranged(a, b, render);
    UnrelatedRearranged(SetPaths(a), SetPaths(b));
    ExpressibleRearranged(SetPaths(a), SetPaths(b));
    if b == [] {
      Sequences.EmptyRearrangement(a);
    }
    if !Removes(b) {
      var assignments := SetAssignments(b, render);
      WritableAssignments(b, render);
      assert Paths(assignments) == SetPaths(b);
      UnrelatedShowsNothing(assignments);
    }
  }

  lemma WritableAssignments(sets: seq<FieldSet>, render: Values.Value -> Json)
    requires AllWritable(sets)
    ensures Writable(SetAssignments(sets, render))
  {
  }

  /** With unrelated paths the order of the sets is irrelevant, to acceptance and to the result. */
  lemma UpdateOrder(doc: Object, a: seq<FieldSet>, b: seq<FieldSet>, render: Values.Value -> Json)
    requires UpdateBody(a, render).Ok? && Unrelated(SetPaths(a)) && multiset(a) == multiset(b)
    ensures UpdateBody(b, render).Ok?
    ensures ApplyBody(UpdateBody(a, render).value, doc) == ApplyBody(UpdateBody(b, render).value, doc)
  {
    hide ApplyBody, UpdateBody, SetEdits, Unrelated, Incomparable;
    UnrelatedOrderAccepted(a, b, render);
    UpdateIsEdits(doc, a, render);
    UpdateIsEdits(doc, b, render);
    SetsRearranged(a, b, render);
    UnrelatedRearranged(SetPaths(a), SetPaths(b));
    UnrelatedSetEdits(b, render);
    OrderDoesNotMatter(doc, SetEdits(a, render), SetEdits(b, render));
  }

  function Reversed<T>(xs: seq<T>): seq<T> {
    seq(|xs|, i requires 0 <= i < |xs| => xs[|xs| - 1 - i])
  }

  lemma {:induction false} ReversedSame<T>(xs: seq<T>)
    ensures multiset(Reversed(xs)) == multiset(xs)
    decreases |xs|
  {
    if xs != [] {
      ReversedSame(xs[1..]);
      assert Reversed(xs) == Reversed(xs[1..]) + [xs[0]];
      assert xs == [xs[0]] + xs[1..];
    }
  }

  /** A set that let a related later one through would be refused after it. */
  lemma VisibleBackwards(p: Names, value: Json, q: Names, other: Json)
    requires Comparable(p, q) && !Visible(p, value, q)
    ensures Visible(q, other, p)
  {
    ComparableSymmetric(p, q);
  }

  lemma RelatedReversedShows(assignments: seq<Assignment>)
    requires Writable(assignments) && NothingVisible(assignments) && !Unrelated(Paths(assignments))
    ensures Writable(Reversed(assignments)) && !NothingVisible(Reversed(assignments))
  {
    hide Visible, Comparable, SetFieldNames;
    var back, names, n := Reversed(assignments), PathNames(Paths(assignments)), |assignments| - 1;
    var i, j :| 0 <= i < j < |names| && Comparable(names[i], names[j]);
    assert back[n - j] == assignments[j] && back[n - i] == assignments[i];
    assert !Visible(NamesOf(assignments[i].path), assignments[i].value, NamesOf(assignments[j].path));
    VisibleBackwards(names[i], assignments[i].value, names[j], assignments[j].value);
    assert Visible(NamesOf(back[n - j].path), back[n - j].value, NamesOf(back[n - i].path));
  }

  lemma RelatedReversedRefused(sets: seq<FieldSet>, render: Values.Value -> Json)
    requires UpdateBody(sets, render).Ok? && !Unrelated(SetPaths(sets))
    ensures UpdateBody(Reversed(sets), render).Err?
  {
    hide Values.ToJson, Values.ContainsAbsent, SplitSets, UpdateBody, NothingBuried, Removes;
    hide NothingVisible, Writable, Unrelated, AllExpressible;
    var back, there := Reversed(sets), SetAssignments(sets, render);
    UpdateAccepts(sets, render);
    UpdateAccepts(back, render);
    ReversedSame(sets);
    SetsRearranged(sets, back, render);
    assert Paths(there) == SetPaths(sets);
    RelatedReversedShows(there);
    assert SetAssignments(back, render) == Reversed(there);
  }

  /** An accepted update is accepted in every order exactly when its paths are unrelated. */
  lemma {:induction false} OrderMattersExactly(sets: seq<FieldSet>, render: Values.Value -> Json)
    requires UpdateBody(sets, render).Ok?
    ensures Unrelated(SetPaths(sets)) <==>
            forall other: seq<FieldSet> | multiset(other) == multiset(sets) :: UpdateBody(other, render).Ok?
  {
    hide UpdateBody, Unrelated;
    if Unrelated(SetPaths(sets)) {
      forall other: seq<FieldSet> | multiset(other) == multiset(sets) ensures UpdateBody(other, render).Ok? {
        UnrelatedOrderAccepted(sets, other, render);
      }
    } else {
      RelatedReversedRefused(sets, render);
      ReversedSame(sets);
    }
  }
}

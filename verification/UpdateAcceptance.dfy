/**
  Which updates each route accepts: the script every list of unrelated paths, the partial document
  every list in which no overlap is visible in the document built so far.
 */
module UpdateAcceptance {
  import opened Wrappers
  import opened Json
  import opened Updates
  import opened UpdateMeaning
  import FieldPath
  import Sequences
  import Values

  // ---- The script route. ----

  predicate PairwiseIncomparable(all: seq<Names>) {
    forall i, j | 0 <= i < j < |all| :: !Comparable(all[i], all[j])
  }

  /** The names of a path; none for one that addresses no field of the document. */
  function NamesOf(path: Path): (names: Names)
    ensures SetFieldNames(path).Ok? ==> names != []
  {
    var r := SetFieldNames(path);
    if r.Ok? then r.value else []
  }

  function PathNames(paths: seq<Path>): seq<Names> {
    Sequences.Map(paths, NamesOf)
  }

  predicate Unrelated(paths: seq<Path>) {
    PairwiseIncomparable(PathNames(paths))
  }

  predicate AllExpressible(paths: seq<Path>) {
    forall path | path in paths :: ScriptFieldNames(path).Ok?
  }

  /** The script route accepts exactly the pairwise unrelated lists of expressible paths. */
  lemma {:induction false} ScriptAccepts(seen: seq<Names>, paths: seq<Path>)
    requires PairwiseIncomparable(seen)
    ensures AdmitAll(seen, paths).Ok? <==>
            AllExpressible(paths) && PairwiseIncomparable(seen + PathNames(paths))
    ensures AdmitAll(seen, paths).Ok? ==> AdmitAll(seen, paths).value == seen + PathNames(paths)
    decreases |paths|
  {
    var all := seen + PathNames(paths);
    if paths == [] {
      assert all == seen;
      return;
    }
    assert PathNames(paths) == [NamesOf(paths[0])] + PathNames(paths[1..]);
    if Admit(seen, paths[0]).Ok? {
      var names := Admit(seen, paths[0]).value;
      var more := seen + [names];
      forall i | 0 <= i < |seen| ensures !Comparable(seen[i], names) {
        assert seen[i] in seen;
      }
      assert all == more + PathNames(paths[1..]);
      ScriptAccepts(more, paths[1..]);
      assert paths == [paths[0]] + paths[1..];
    } else if ScriptFieldNames(paths[0]).Ok? {
      var names := ScriptFieldNames(paths[0]).value;
      var prior :| prior in seen && Comparable(prior, names);
      var i :| 0 <= i < |seen| && seen[i] == prior;
      assert Comparable(all[i], all[|seen|]);
    } else {
      assert paths[0] in paths;
    }
  }

  // ---- The partial document. ----

  predicate Conflicts(root: Object, names: Names)
    requires names != []
  {
    InsertNested(root, names, JNull).None?
  }

  lemma {:induction false} InsertIsSet(root: Object, names: Names, value: Json)
    requires names != []
    ensures InsertNested(root, names, value).None? <==> Conflicts(root, names)
    ensures InsertNested(root, names, value).Some? ==>
              InsertNested(root, names, value).value == SetPath(root, names, value)
    decreases |names|
  {
    if |names| > 1 {
      InsertIsSet(FieldsAt(root, names[0]), names[1..], value);
    }
  }

  lemma {:induction false} EmptyShowsNothing(q: Names)
    requires q != []
    ensures !Conflicts(map[], q)
    decreases |q|
  {
    if |q| > 1 {
      EmptyShowsNothing(q[1..]);
    }
  }

  /**
    Whether a value set at `p` gives away a later set at `q`: the paths are related, and `q` does
    not slip into free space inside the value.
   */
  predicate Visible(p: Names, value: Json, q: Names) {
    && Comparable(p, q)
    && !(|p| < |q| && value.JObj? && !Conflicts(value.fields, q[|p|..]))
  }

  lemma VisibleDeeper(p: Names, value: Json, q: Names)
    requires |p| > 1 && |q| > 1 && p[0] == q[0]
    ensures Visible(p, value, q) <==> Visible(p[1..], value, q[1..])
  {
    SharedFirst(p, q);
    if |p| < |q| {
      assert q[|p|..] == q[1..][|p[1..]|..];
    }
  }

  /** After an insertion a path conflicts if it did before, or if the insertion is visible to it. */
  lemma {:induction false} InsertShows(root: Object, p: Names, value: Json, q: Names)
    requires p != [] && q != [] && !Conflicts(root, p)
    ensures Conflicts(SetPath(root, p, value), q) <==> Visible(p, value, q) || Conflicts(root, q)
    decreases |q|
  {
    SharedFirst(p, q);
    if p[0] == q[0] && |q| > 1 {
      EmptyShowsNothing(q[1..]);
      if |p| > 1 {
        VisibleDeeper(p, value, q);
        InsertShows(FieldsAt(root, q[0]), p[1..], value, q[1..]);
      }
    }
  }

  predicate NoneConflicts(root: Object, assignments: seq<Assignment>)
    requires Writable(assignments)
  {
    forall i | 0 <= i < |assignments| :: !Conflicts(root, NamesOf(assignments[i].path))
  }

  /** No set gives away a later one. */
  predicate NothingVisible(assignments: seq<Assignment>)
    requires Writable(assignments)
  {
    forall i, j | 0 <= i < j < |assignments| ::
      !Visible(NamesOf(assignments[i].path), assignments[i].value, NamesOf(assignments[j].path))
  }

  /** Setting the first path moves what it makes visible into the document. */
  lemma FirstShows(root: Object, assignments: seq<Assignment>)
    requires Writable(assignments) && assignments != [] && !Conflicts(root, NamesOf(assignments[0].path))
    ensures Writable(assignments[1..])
    ensures var grown := SetPath(root, NamesOf(assignments[0].path), assignments[0].value);
            NoneConflicts(grown, assignments[1..]) && NothingVisible(assignments[1..])
            <==> NoneConflicts(root, assignments) && NothingVisible(assignments)
  {
    var rest, first := assignments[1..], NamesOf(assignments[0].path);
    var grown := SetPath(root, first, assignments[0].value);
    assert forall i | 0 < i < |assignments| :: assignments[i] == rest[i - 1];
    forall j | 0 < j < |assignments|
      ensures Conflicts(grown, NamesOf(assignments[j].path)) <==>
              || Visible(first, assignments[0].value, NamesOf(assignments[j].path))
              || Conflicts(root, NamesOf(assignments[j].path))
    {
      InsertShows(root, first, assignments[0].value, NamesOf(assignments[j].path));
    }
    FirstAndRest(root, assignments);
    assert forall i | 0 <= i < |rest| :: rest[i] == assignments[i + 1];
  }

  lemma FirstAndRest(root: Object, assignments: seq<Assignment>)
    requires Writable(assignments) && assignments != []
    ensures Writable(assignments[1..])
    ensures NothingVisible(assignments) <==>
            && NothingVisible(assignments[1..])
            && (forall j | 0 < j < |assignments| ::
                  !Visible(NamesOf(assignments[0].path), assignments[0].value, NamesOf(assignments[j].path)))
  {
    var rest := assignments[1..];
    assert forall i | 0 < i < |assignments| :: assignments[i] == rest[i - 1];
    if NothingVisible(rest) && (forall j | 0 < j < |assignments| ::
         !Visible(NamesOf(assignments[0].path), assignments[0].value, NamesOf(assignments[j].path))) {
      forall i, j | 0 <= i < j < |assignments|
        ensures !Visible(NamesOf(assignments[i].path), assignments[i].value, NamesOf(assignments[j].path))
      {
        if i > 0 {
          assert !Visible(NamesOf(rest[i - 1].path), rest[i - 1].value, NamesOf(rest[j - 1].path));
        }
      }
    }
    assert forall i | 0 <= i < |rest| :: rest[i] == assignments[i + 1];
  }

  /**
    The partial document accepts exactly the writable lists in which no path conflicts with what is
    there already and no set is visible to a later one; what it builds has the paths set in order.
   */
  lemma {:induction false} PartialDocExactly(root: Object, assignments: seq<Assignment>)
    ensures PartialDoc(root, assignments).Ok? <==>
            Writable(assignments) && NoneConflicts(root, assignments) && NothingVisible(assignments)
    ensures PartialDoc(root, assignments).Ok? ==>
              PartialDoc(root, assignments).value == ApplyAll(root, AssignmentEdits(assignments))
    decreases |assignments|
  {
    if assignments != [] && SetFieldNames(assignments[0].path).Ok? {
      var rest, names := assignments[1..], NamesOf(assignments[0].path);
      var grown := SetPath(root, names, assignments[0].value);
      InsertIsSet(root, names, assignments[0].value);
      PartialDocExactly(grown, rest);
      assert Writable(assignments) <==> Writable(rest) by {
        assert forall i | 0 < i < |assignments| :: assignments[i] == rest[i - 1];
      }
      if Writable(assignments) {
        assert AssignmentEdits(assignments)[1..] == AssignmentEdits(rest);
        if !Conflicts(root, names) {
          FirstShows(root, assignments);
        }
      }
    }
  }

  // ---- The two routes side by side. ----

  /** Unrelated paths hide nothing from one another. */
  lemma UnrelatedShowsNothing(assignments: seq<Assignment>)
    requires Writable(assignments) && Unrelated(Paths(assignments))
    ensures NoneConflicts(map[], assignments) && NothingVisible(assignments)
  {
    var names := PathNames(Paths(assignments));
    forall i | 0 <= i < |assignments| ensures !Conflicts(map[], NamesOf(assignments[i].path)) {
      EmptyShowsNothing(NamesOf(assignments[i].path));
    }
    forall i, j | 0 <= i < j < |assignments|
      ensures !Comparable(NamesOf(assignments[i].path), NamesOf(assignments[j].path))
    {
      assert !Comparable(names[i], names[j]);
    }
  }

  lemma ExpressibleIsWritable(assignments: seq<Assignment>)
    requires AllExpressible(Paths(assignments))
    ensures Writable(assignments)
  {
    forall i | 0 <= i < |assignments| ensures SetFieldNames(assignments[i].path).Ok? {
      assert Paths(assignments)[i] in Paths(assignments);
    }
  }

  lemma ScriptExactly(assignments: seq<Assignment>, removals: seq<Path>)
    ensures ScriptBody(assignments, removals).Ok? <==>
            AllExpressible(Paths(assignments) + removals) && Unrelated(Paths(assignments) + removals)
  {
    var paths := Paths(assignments) + removals;
    ScriptAccepts([], paths);
    assert [] + PathNames(paths) == PathNames(paths);
  }

  /**
    What the script accepts, the partial document accepts. The other way round an overlap is let
    through exactly when the paths are related and no set is visible to a later one.
   */
  lemma RoutesAcceptDifferently(assignments: seq<Assignment>)
    ensures ScriptBody(assignments, []).Ok? ==> PartialDoc(map[], assignments).Ok?
    ensures AllExpressible(Paths(assignments)) ==>
              && Writable(assignments)
              && (PartialDoc(map[], assignments).Ok? && ScriptBody(assignments, []).Err? <==>
                  !Unrelated(Paths(assignments)) && NothingVisible(assignments))
  {
    ScriptExactly(assignments, []);
    assert Paths(assignments) + [] == Paths(assignments);
    PartialDocExactly(map[], assignments);
    if AllExpressible(Paths(assignments)) {
      ExpressibleIsWritable(assignments);
      forall i | 0 <= i < |assignments| ensures !Conflicts(map[], NamesOf(assignments[i].path)) {
        EmptyShowsNothing(NamesOf(assignments[i].path));
      }
      if Unrelated(Paths(assignments)) {
        UnrelatedShowsNothing(assignments);
      }
    }
  }

  lemma PartialDocOfTwo(a: Assignment, b: Assignment, first: Object, both: Object)
    requires SetFieldNames(a.path).Ok? && InsertNested(map[], NamesOf(a.path), a.value) == Some(first)
    requires SetFieldNames(b.path).Ok? && InsertNested(first, NamesOf(b.path), b.value) == Some(both)
    ensures PartialDoc(map[], [a, b]) == Ok(both)
  {
    assert [a, b][1..] == [b] && [b][1..] == [];
    assert PartialDoc(both, []) == Ok(both);
    assert PartialDoc(first, [b]) == Ok(both);
  }

  /** The overlap check of the partial document misses `a = {c: 1}` followed by `a.b = 2`, though not the reverse. */
  lemma OverlapSlipsThrough()
    ensures var top := Assignment([FieldPath.Field("a")], JObj(map["c" := JNum(1)]));
            var below := Assignment([FieldPath.Field("a"), FieldPath.Field("b")], JNum(2));
            && PartialDoc(map[], [top, below]) == Ok(map["a" := JObj(map["c" := JNum(1), "b" := JNum(2)])])
            && ScriptBody([top, below], []).Err?
            && PartialDoc(map[], [below, top]).Err?
  {
    var top := Assignment([FieldPath.Field("a")], JObj(map["c" := JNum(1)]));
    var below := Assignment([FieldPath.Field("a"), FieldPath.Field("b")], JNum(2));
    var p, q := ["a"], ["a", "b"];
    assert FieldNames(top.path) == p && FieldNames(below.path) == q && q[1..] == ["b"];
    var inside: Object := map["c" := JNum(1), "b" := JNum(2)];
    var first: Object, both: Object := map["a" := JObj(map["c" := JNum(1)])], map["a" := JObj(inside)];
    assert InsertNested(first["a"].fields, ["b"], JNum(2)) == Some(inside);
    assert first["a" := JObj(inside)] == both;
    PartialDocOfTwo(top, below, first, both);
    assert Comparable(p, q) && Comparable(q, p);
    ScriptExactly([top, below], []);
    ScriptPathsOfTwo(top, below);
    RelatedPairRefused(below, top);
  }

  /** A longer path before one that leads to it is always refused. */
  lemma RelatedPairRefused(a: Assignment, b: Assignment)
    requires Comparable(NamesOf(a.path), NamesOf(b.path)) && |NamesOf(a.path)| >= |NamesOf(b.path)|
    ensures PartialDoc(map[], [a, b]).Err?
  {
    PartialDocExactly(map[], [a, b]);
    assert [a, b][0] == a && [a, b][1] == b;
    assert Visible(NamesOf(a.path), a.value, NamesOf(b.path));
  }

  lemma ScriptPathsOfTwo(a: Assignment, b: Assignment)
    ensures Unrelated(Paths([a, b]) + []) ==> !Comparable(NamesOf(a.path), NamesOf(b.path))
  {
    var names := PathNames(Paths([a, b]) + []);
    assert names[0] == NamesOf(a.path) && names[1] == NamesOf(b.path);
  }

  // ---- The dispatch. ----

  function SetPaths(sets: seq<FieldSet>): seq<Path> {
    seq(|sets|, i requires 0 <= i < |sets| => sets[i].path)
  }

  predicate Removes(sets: seq<FieldSet>) {
    exists s | s in sets :: s.value.Absent?
  }

  predicate NothingBuried(sets: seq<FieldSet>) {
    forall s | s in sets :: s.value.Absent? || !Values.ContainsAbsent(s.value)
  }

  function SetAssignments(sets: seq<FieldSet>, render: Values.Value -> Json): seq<Assignment> {
    seq(|sets|, i requires 0 <= i < |sets| => Assignment(sets[i].path, Values.ToJson(sets[i].value, render)))
  }

  lemma LastSet(sets: seq<FieldSet>)
    requires sets != []
    ensures var front, last := sets[..|sets| - 1], sets[|sets| - 1];
            && SetPaths(sets) == SetPaths(front) + [last.path]
            && (Removes(sets) <==> Removes(front) || last.value.Absent?)
            && (NothingBuried(sets) <==> NothingBuried(front) && (last.value.Absent? || !Values.ContainsAbsent(last.value)))
  {
    var front, last := sets[..|sets| - 1], sets[|sets| - 1];
    assert sets == front + [last];
  }

  lemma {:induction false} SplitAccepts(sets: seq<FieldSet>, render: Values.Value -> Json)
    ensures SplitSets(sets, render).Ok? <==> NothingBuried(sets)
    ensures SplitSets(sets, render).Ok? ==> (SplitSets(sets, render).value.removals != [] <==> Removes(sets))
    decreases |sets|
  {
    hide Values.ToJson, Values.ContainsAbsent;
    if sets != [] {
      SplitAccepts(sets[..|sets| - 1], render);
      LastSet(sets);
    }
  }

  /** Sorting the sets keeps every path. */
  lemma {:induction false} SplitKeepsPaths(sets: seq<FieldSet>, render: Values.Value -> Json)
    requires SplitSets(sets, render).Ok?
    ensures var split := SplitSets(sets, render).value;
            multiset(Paths(split.assignments) + split.removals) == multiset(SetPaths(sets))
    decreases |sets|
  {
    hide Values.ToJson, Values.ContainsAbsent;
    if sets == [] {
      assert Paths([]) + [] == SetPaths(sets);
    } else {
      var front, last := sets[..|sets| - 1], sets[|sets| - 1];
      SplitKeepsPaths(front, render);
      LastSet(sets);
      PathsGrow(SplitSets(front, render).value, last.path, Values.ToJson(last.value, render));
    }
  }

  lemma PathsGrow(split: Split, path: Path, value: Json)
    ensures multiset(Paths(split.assignments + [Assignment(path, value)]) + split.removals)
         == multiset(Paths(split.assignments) + split.removals) + multiset{path}
    ensures multiset(Paths(split.assignments) + (split.removals + [path]))
         == multiset(Paths(split.assignments) + split.removals) + multiset{path}
  {
    assert Paths(split.assignments + [Assignment(path, value)]) == Paths(split.assignments) + [path];
  }

  /** Without removals the sets become assignments in their own order. */
  lemma {:induction false} SplitPlain(sets: seq<FieldSet>, render: Values.Value -> Json)
    requires SplitSets(sets, render).Ok? && !Removes(sets)
    ensures SplitSets(sets, render).value == Split(SetAssignments(sets, render), [])
    decreases |sets|
  {
    hide Values.ToJson, Values.ContainsAbsent;
    if sets == [] {
      assert SetAssignments(sets, render) == [];
    } else {
      var front, last := sets[..|sets| - 1], sets[|sets| - 1];
      LastSet(sets);
      SplitPlain(front, render);
      assert SetAssignments(sets, render)
          == SetAssignments(front, render) + [Assignment(last.path, Values.ToJson(last.value, render))];
      assert last in sets;
    }
  }

  /**
    Which updates are accepted: with a removal among them, unrelated paths the script can express;
    without one, writable paths of which none is visible to a later one.
   */
  lemma UpdateAccepts(sets: seq<FieldSet>, render: Values.Value -> Json)
    ensures UpdateBody(sets, render).Ok? <==>
            && sets != [] && NothingBuried(sets)
            && if Removes(sets) then AllExpressible(SetPaths(sets)) && Unrelated(SetPaths(sets))
               else Writable(SetAssignments(sets, render)) && NothingVisible(SetAssignments(sets, render))
    ensures UpdateBody(sets, render).Ok? ==> (UpdateBody(sets, render).value.Script? <==> Removes(sets))
  {
    hide Values.ToJson, Values.ContainsAbsent, Writable, Unrelated, AllExpressible, NothingVisible, NoneConflicts;
    SplitAccepts(sets, render);
    if sets != [] && NothingBuried(sets) {
      var split := SplitSets(sets, render).value;
      if Removes(sets) {
        SplitKeepsPaths(sets, render);
        var paths := Paths(split.assignments) + split.removals;
        ScriptExactly(split.assignments, split.removals);
        ExpressibleRearranged(paths, SetPaths(sets));
        UnrelatedRearranged(paths, SetPaths(sets));
      } else {
        SplitPlain(sets, render);
        PartialDocExactly(map[], split.assignments);
        NothingYet(split.assignments);
      }
    }
  }

  lemma NothingYet(assignments: seq<Assignment>)
    ensures Writable(assignments) ==> NoneConflicts(map[], assignments)
  {
    if Writable(assignments) {
      forall i | 0 <= i < |assignments| ensures !Conflicts(map[], NamesOf(assignments[i].path)) {
        EmptyShowsNothing(NamesOf(assignments[i].path));
      }
    }
  }

  // ---- Rearranging. ----

  lemma ExpressibleRearranged(a: seq<Path>, b: seq<Path>)
    requires multiset(a) == multiset(b)
    ensures AllExpressible(a) <==> AllExpressible(b)
  {
    assert forall path :: path in a <==> path in multiset(a);
    assert forall path :: path in b <==> path in multiset(b);
  }

  lemma UnrelatedRearranged(a: seq<Path>, b: seq<Path>)
    requires multiset(a) == multiset(b)
    ensures Unrelated(a) <==> Unrelated(b)
  {
    Sequences.MapRearranged(a, b, NamesOf);
    if Unrelated(a) {
      IncomparableRearranged(PathNames(a), PathNames(b));
    }
    if Unrelated(b) {
      IncomparableRearranged(PathNames(b), PathNames(a));
    }
  }

  lemma {:induction false} IncomparableRearranged(a: seq<Names>, b: seq<Names>)
    requires multiset(a) == multiset(b) && PairwiseIncomparable(a)
    ensures PairwiseIncomparable(b)
    decreases |a|
  {
    if a == [] {
      Sequences.EmptyRearrangement(b);
    } else {
      var k := Sequences.FindInRearrangement(a, b);
      var rest := b[..k] + b[k + 1..];
      Sequences.RemoveFromBoth(a, b, k);
      IncomparableRearranged(a[1..], rest);
      forall x | x in rest ensures !Comparable(a[0], x) && !Comparable(x, a[0]) {
        assert x in multiset(rest);
        assert x in a[1..];
        ComparableSymmetric(a[0], x);
      }
      PutBack(b, k);
    }
  }

  lemma PutBack(b: seq<Names>, k: nat)
    requires k < |b|
    requires PairwiseIncomparable(b[..k] + b[k + 1..])
    requires forall x | x in b[..k] + b[k + 1..] :: !Comparable(b[k], x) && !Comparable(x, b[k])
    ensures PairwiseIncomparable(b)
  {
    var rest := b[..k] + b[k + 1..];
    forall i, j | 0 <= i < j < |b| ensures !Comparable(b[i], b[j]) {
      assert i != k ==> b[i] == rest[if i < k then i else i - 1];
      assert j != k ==> b[j] == rest[if j < k then j else j - 1];
    }
  }
}

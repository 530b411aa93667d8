/**
  Field updates of one document by two routes: a partial document that Elasticsearch merges, or,
  when a field is removed, a Painless script (`sets_to_update_body` and what it calls).
 */
module Updates {
  import opened Wrappers
  import opened Json
  import FieldPath
  import Values

  type Path = seq<FieldPath.PathSeg>

  type Names = seq<string>

  datatype UpdateError =
    | SetsNothing
    | NestedAbsent(path: Path)
    | PositionalSegment(path: Path)
    | EnvelopeField(path: Path)
    | EmptyPath
    | UnsafeName(path: Path)
    | Overlap(path: Path)

  const ENVELOPE_FIELDS := {
    "_index", "_id", "_routing", "_seq_no", "_primary_term", "_score", "_source", "_version", "_ignored"
  }

  /** One step of the generated script. */
  datatype Stmt =
    | EnsureMap(names: Names)
    | Assign(names: Names, param: nat)
    | RemoveTop(name: string)
    | RemoveNested(names: Names)

  datatype Body = Doc(doc: Object) | Script(lines: seq<Stmt>, params: seq<Json>)

  datatype Assignment = Assignment(path: Path, value: Json)

  function FieldNames(path: Path): Names
    requires forall seg | seg in path :: seg.Field?
  {
    seq(|path|, i requires 0 <= i < |path| => path[i].name)
  }

  /** The names of a writable `_source` field. */
  function SetFieldNames(path: Path): (r: Result<Names, UpdateError>)
    ensures r.Ok? ==> r.value != []
  {
    if exists seg | seg in path :: seg.Index? then Err(PositionalSegment(path))
    else if path == [] then Err(EmptyPath)
    else if FieldNames(path)[0] in ENVELOPE_FIELDS then Err(EnvelopeField(path))
    else Ok(FieldNames(path))
  }

  /**
    A path can be set exactly when it has a step, no step is a position, and it does not begin with
    one of the nine names of the hit's envelope; its names are then those of its steps.
   */
  lemma SetNamesExactly(path: Path)
    ensures SetFieldNames(path).Ok? <==>
              && path != [] && (forall i | 0 <= i < |path| :: path[i].Field?)
              && path[0].name !in ["_index", "_id", "_routing", "_seq_no", "_primary_term", "_score", "_source",
                                   "_version", "_ignored"]
    ensures SetFieldNames(path).Ok? ==>
              && |SetFieldNames(path).value| == |path|
              && forall i | 0 <= i < |path| :: path[i].Field? && SetFieldNames(path).value[i] == path[i].name
    ensures SetFieldNames(path).Err? ==>
              SetFieldNames(path).error
              == if exists i | 0 <= i < |path| :: path[i].Index? then PositionalSegment(path)
                 else if path == [] then EmptyPath else EnvelopeField(path)
  {
    if exists seg | seg in path :: seg.Index? {
      var seg :| seg in path && seg.Index?;
      var i :| 0 <= i < |path| && path[i] == seg;
    } else {
      assert forall i | 0 <= i < |path| :: path[i] in path;
    }
  }

  /** Two paths are comparable exactly when one is a prefix of the other. */
  lemma ComparableExactly(p: Names, q: Names)
    ensures Comparable(p, q) <==> p <= q || q <= p
  {
  }

  predicate IsSafePainlessField(name: string) {
    && name != ""
    && (IsAsciiLetter(name[0]) || name[0] == '_')
    && forall i | 1 <= i < |name| :: IsAsciiLetter(name[i]) || '0' <= name[i] <= '9' || name[i] == '_'
  }

  predicate IsAsciiLetter(c: char) {
    'a' <= c <= 'z' || 'A' <= c <= 'Z'
  }

  function ScriptFieldNames(path: Path): (r: Result<Names, UpdateError>)
    ensures r.Ok? ==> r.value != []
  {
    match SetFieldNames(path)
    case Err(e) => Err(e)
    case Ok(names) =>
      if forall name | name in names :: IsSafePainlessField(name) then Ok(names) else Err(UnsafeName(path))
  }

  /** One of two paths is the other, or leads to it. */
  predicate Comparable(p: Names, q: Names) {
    var common := if |p| <= |q| then |p| else |q|;
    p[..common] == q[..common]
  }

  /** `insert_nested`: put a value at a path of a partial document, refusing any overlap it sees. */
  function InsertNested(root: Object, names: Names, value: Json): (r: Option<Object>)
    requires names != []
    decreases |names|
  {
    if |names| == 1 then
      if names[0] in root then None else Some(root[names[0] := value])
    else
      var entry := if names[0] in root then root[names[0]] else JObj(map[]);
      if !entry.JObj? then None
      else
        match InsertNested(entry.fields, names[1..], value)
        case None => None
        case Some(inner) => Some(root[names[0] := JObj(inner)])
  }

  function PartialDoc(root: Object, assignments: seq<Assignment>): Result<Object, UpdateError>
    decreases |assignments|
  {
    if assignments == [] then Ok(root)
    else
      var a := assignments[0];
      match SetFieldNames(a.path)
      case Err(e) => Err(e)
      case Ok(names) =>
        match InsertNested(root, names, a.value)
        case None => Err(Overlap(a.path))
        case Some(grown) => PartialDoc(grown, assignments[1..])
  }

  method BuildPartialDoc(assignments: seq<Assignment>) returns (r: Result<Object, UpdateError>)
    ensures r == PartialDoc(map[], assignments)
  {
    var root: Object := map[];
    for i := 0 to |assignments|
      invariant PartialDoc(root, assignments[i..]) == PartialDoc(map[], assignments)
    {
      var a := assignments[i];
      assert assignments[i..][0] == a && assignments[i..][1..] == assignments[i + 1..];
      var names := SetFieldNames(a.path);
      if names.Err? {
        return Err(names.error);
      }
      var grown := InsertNested(root, names.value, a.value);
      if grown.None? {
        return Err(Overlap(a.path));
      }
      root := grown.value;
    }
    return Ok(root);
  }

  predicate OverlapsSeen(seen: seq<Names>, names: Names) {
    exists prior | prior in seen :: Comparable(prior, names)
  }

  /** Checks one path against those already in the script and gives its names. */
  function Admit(seen: seq<Names>, path: Path): (r: Result<Names, UpdateError>)
    ensures r.Ok? ==> r.value != []
  {
    match ScriptFieldNames(path)
    case Err(e) => Err(e)
    case Ok(names) => if OverlapsSeen(seen, names) then Err(Overlap(path)) else Ok(names)
  }

  function AdmitAll(seen: seq<Names>, paths: seq<Path>): (r: Result<seq<Names>, UpdateError>)
    ensures r.Ok? ==> |r.value| == |seen| + |paths| && seen <= r.value
    ensures r.Ok? ==> forall i | |seen| <= i < |r.value| :: r.value[i] != []
    decreases |paths|
  {
    if paths == [] then Ok(seen)
    else
      match Admit(seen, paths[0])
      case Err(e) => Err(e)
      case Ok(names) => AdmitAll(seen + [names], paths[1..])
  }

  /** Repairs for the proper prefixes up to depth `d`, shortest first. */
  function EnsureLines(names: Names, d: nat): seq<Stmt>
    requires d <= |names|
  {
    if d == 0 then [] else EnsureLines(names, d - 1) + [EnsureMap(names[..d])]
  }

  function AssignLines(names: Names, param: nat): seq<Stmt>
    requires names != []
  {
    EnsureLines(names, |names| - 1) + [Assign(names, param)]
  }

  function RemoveLine(names: Names): Stmt
    requires names != []
  {
    if |names| == 1 then RemoveTop(names[0]) else RemoveNested(names)
  }

  predicate NoneEmpty(all: seq<Names>) {
    forall i | 0 <= i < |all| :: |all[i]| > 0
  }

  function AllAssignLines(all: seq<Names>): seq<Stmt>
    requires NoneEmpty(all)
  {
    if all == [] then []
    else AllAssignLines(all[..|all| - 1]) + AssignLines(all[|all| - 1], |all| - 1)
  }

  function RemoveLines(all: seq<Names>): seq<Stmt>
    requires NoneEmpty(all)
  {
    if all == [] then [] else RemoveLines(all[..|all| - 1]) + [RemoveLine(all[|all| - 1])]
  }

  function Paths(assignments: seq<Assignment>): seq<Path> {
    seq(|assignments|, i requires 0 <= i < |assignments| => assignments[i].path)
  }

  function Params(assignments: seq<Assignment>): seq<Json> {
    seq(|assignments|, i requires 0 <= i < |assignments| => assignments[i].value)
  }

  function ScriptBody(assignments: seq<Assignment>, removals: seq<Path>): Result<Body, UpdateError> {
    match AdmitAll([], Paths(assignments) + removals)
    case Err(e) => Err(e)
    case Ok(all) =>
      var n := |assignments|;
      Ok(Script(AllAssignLines(all[..n]) + RemoveLines(all[n..]), Params(assignments)))
  }

  /** `refuse_path_overlap`: compares a path with every one already used. */
  method RefusePathOverlap(seen: seq<Names>, names: Names) returns (overlaps: bool)
    ensures overlaps == OverlapsSeen(seen, names)
  {
    for i := 0 to |seen|
      invariant !OverlapsSeen(seen[..i], names)
    {
      if Comparable(seen[i], names) {
        return true;
      }
      assert seen[..i + 1] == seen[..i] + [seen[i]];
    }
    assert seen[..|seen|] == seen;
    return false;
  }

  method AdmitPath(seen: seq<Names>, path: Path) returns (r: Result<Names, UpdateError>)
    ensures r == Admit(seen, path)
  {
    r := ScriptFieldNames(path);
    if r.Ok? {
      var overlaps := RefusePathOverlap(seen, r.value);
      if overlaps {
        return Err(Overlap(path));
      }
    }
  }

  method PushAssignLines(before: seq<Stmt>, names: Names, param: nat) returns (lines: seq<Stmt>)
    requires names != []
    ensures lines == before + AssignLines(names, param)
  {
    lines := before;
    for depth := 1 to |names|
      invariant lines == before + EnsureLines(names, depth - 1)
    {
      lines := lines + [EnsureMap(names[..depth])];
    }
    lines := lines + [Assign(names, param)];
  }

  /** The assignments' lines and the names they use up, or the first refusal. */
  method AddAssignments(assignments: seq<Assignment>)
    returns (used: Result<seq<Names>, UpdateError>, lines: seq<Stmt>, params: seq<Json>)
    ensures used == AdmitAll([], Paths(assignments))
    ensures used.Ok? ==> NoneEmpty(used.value) && lines == AllAssignLines(used.value) && params == Params(assignments)
  {
    hide Admit, AssignLines;
    ghost var paths := Paths(assignments);
    var seen: seq<Names> := [];
    lines, params := [], [];
    assert paths[0..] == paths;
    for i := 0 to |assignments|
      invariant |seen| == i && NoneEmpty(seen)
      invariant AdmitAll(seen, paths[i..]) == AdmitAll([], paths)
      invariant lines == AllAssignLines(seen) && params == Params(assignments)[..i]
    {
      assert paths[i..][0] == assignments[i].path && paths[i..][1..] == paths[i + 1..];
      var names := AdmitPath(seen, assignments[i].path);
      if names.Err? {
        return Err(names.error), lines, params;
      }
      assert (seen + [names.value])[..i] == seen;
      seen := seen + [names.value];
      lines := PushAssignLines(lines, names.value, i);
      params := params + [assignments[i].value];
    }
    used := Ok(seen);
  }

  /** Admitting two lists one after the other is admitting them together. */
  lemma {:induction false} AdmitInTwo(seen: seq<Names>, first: seq<Path>, second: seq<Path>)
    ensures AdmitAll(seen, first + second)
         == match AdmitAll(seen, first) case Err(e) => Err(e) case Ok(used) => AdmitAll(used, second)
    decreases |first|
  {
    if first == [] {
      assert [] + second == second;
    } else {
      assert (first + second)[0] == first[0] && (first + second)[1..] == first[1..] + second;
      if Admit(seen, first[0]).Ok? {
        AdmitInTwo(seen + [Admit(seen, first[0]).value], first[1..], second);
      }
    }
  }

  method BuildScriptBody(assignments: seq<Assignment>, removals: seq<Path>) returns (r: Result<Body, UpdateError>)
    ensures r == ScriptBody(assignments, removals)
  {
    AdmitInTwo([], Paths(assignments), removals);
    var used, lines, params := AddAssignments(assignments);
    if used.Err? {
      return Err(used.error);
    }
    r := AddRemovals(used.value, removals, lines, params);
    assert r.Ok? ==> AdmitAll(used.value, removals).value[..|assignments|] == used.value;
  }

  method AddRemovals(used: seq<Names>, removals: seq<Path>, assignLines: seq<Stmt>, params: seq<Json>)
    returns (r: Result<Body, UpdateError>)
    requires NoneEmpty(used)
    ensures r == match AdmitAll(used, removals)
            case Err(e) => Err(e)
            case Ok(all) => Ok(Script(assignLines + RemoveLines(all[|used|..]), params))
  {
    var removed: seq<Names> := [];
    var lines := assignLines;
    assert used + [] == used;
    for i := 0 to |removals|
      invariant |removed| == i && NoneEmpty(removed)
      invariant AdmitAll(used + removed, removals[i..]) == AdmitAll(used, removals)
      invariant lines == assignLines + RemoveLines(removed)
    {
      assert removals[i..][1..] == removals[i + 1..];
      var names := AdmitPath(used + removed, removals[i]);
      if names.Err? {
        return Err(names.error);
      }
      assert (used + removed) + [names.value] == used + (removed + [names.value]);
      assert (removed + [names.value])[..i] == removed;
      removed := removed + [names.value];
      if |names.value| == 1 {
        lines := lines + [RemoveTop(names.value[0])];
      } else {
        lines := lines + [RemoveNested(names.value)];
      }
    }
    assert (used + removed)[|used|..] == removed;
    return Ok(Script(lines, params));
  }

  datatype Split = Split(assignments: seq<Assignment>, removals: seq<Path>)

  datatype FieldSet = FieldSet(path: Path, value: Values.Value)

  /** Sorts the sets into assignments and removals, in order; a buried absent value is refused. */
  function SplitSets(sets: seq<FieldSet>, render: Values.Value -> Json): Result<Split, UpdateError> {
    if sets == [] then Ok(Split([], []))
    else
      var last := sets[|sets| - 1];
      match SplitSets(sets[..|sets| - 1], render)
      case Err(e) => Err(e)
      case Ok(split) =>
        if last.value.Absent? then Ok(split.(removals := split.removals + [last.path]))
        else if Values.ContainsAbsent(last.value) then Err(NestedAbsent(last.path))
        else Ok(split.(assignments := split.assignments
                                      + [Assignment(last.path, Values.ToJson(last.value, render))]))
  }

  function UpdateBody(sets: seq<FieldSet>, render: Values.Value -> Json): Result<Body, UpdateError> {
    if sets == [] then Err(SetsNothing)
    else
      match SplitSets(sets, render)
      case Err(e) => Err(e)
      case Ok(split) =>
        if split.removals != [] then ScriptBody(split.assignments, split.removals)
        else
          match PartialDoc(map[], split.assignments)
          case Err(e) => Err(e)
          case Ok(doc) => Ok(Doc(doc))
  }

  method SetsToUpdateBody(sets: seq<FieldSet>, render: Values.Value -> Json)
    returns (r: Result<Body, UpdateError>)
    ensures r == UpdateBody(sets, render)
  {
    if sets == [] {
      return Err(SetsNothing);
    }
    var assignments: seq<Assignment> := [];
    var removals: seq<Path> := [];
    for i := 0 to |sets|
      invariant SplitSets(sets[..i], render) == Ok(Split(assignments, removals))
    {
      assert sets[..i + 1][..i] == sets[..i];
      if sets[i].value.Absent? {
        removals := removals + [sets[i].path];
      } else if Values.ContainsAbsent(sets[i].value) {
        SplitFails(sets, i + 1, render);
        return Err(NestedAbsent(sets[i].path));
      } else {
        assignments := assignments + [Assignment(sets[i].path, Values.ToJson(sets[i].value, render))];
      }
    }
    assert sets[..|sets|] == sets;
    if removals == [] {
      var doc := BuildPartialDoc(assignments);
      if doc.Err? {
        return Err(doc.error);
      }
      return Ok(Doc(doc.value));
    }
    r := BuildScriptBody(assignments, removals);
  }

  lemma {:induction false} SplitFails(sets: seq<FieldSet>, i: nat, render: Values.Value -> Json)
    requires i <= |sets| && SplitSets(sets[..i], render).Err?
    ensures SplitSets(sets, render) == SplitSets(sets[..i], render)
    decreases |sets|
  {
    if i == |sets| {
      assert sets[..i] == sets;
    } else {
      var front := sets[..|sets| - 1];
      assert front[..i] == sets[..i];
      SplitFails(front, i, render);
    }
  }
}

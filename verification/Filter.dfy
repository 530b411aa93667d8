/**
  Predicates compiled to Elasticsearch queries: the compiler, what a predicate means over the
  flattened values of a document, what a query matches, and that the two are the same.
 */
module Filter {
  import opened Wrappers
  import opened Json
  import FieldPath
  import Sequences
  import TextOrder
  import Values

  type Path = seq<FieldPath.PathSeg>

  datatype Comparison = Lt | Le | Gt | Ge

  datatype Predicate =
    | Eq(field: Path, value: Values.Value)
    | Ne(field: Path, value: Values.Value)
    | Compare(field: Path, op: Comparison, value: Values.Value)
    | In(field: Path, values: seq<Values.Value>)
    | Like(field: Path, pattern: string)
    | Exists(field: Path)
    | IsNull(field: Path)
    | And(parts: seq<Predicate>)
    | Or(parts: seq<Predicate>)
    | Not(inner: Predicate)

  datatype Query =
    | Term(name: string, json: Json)
    | Range(name: string, op: Comparison, json: Json)
    | Terms(name: string, jsons: seq<Json>)
    | Wildcard(name: string, text: string)
    | ExistsField(name: string)
    | BoolQuery(filter: seq<Query>, should: seq<Query>, minimumShouldMatch: nat, mustNot: seq<Query>)

  /** A filter on a path with no field name in it cannot be expressed. */
  datatype FilterError = Unaddressable(path: Path)

  type Render = Values.Value -> Json

  /** `field_path_to_es`: field names joined by dots; array positions are dropped. */
  function FieldName(path: Path): string {
    if path == [] then ""
    else
      var n := |path| - 1;
      var before := FieldName(path[..n]);
      match path[n]
      case Field(name) => (if before == "" then "" else before + ".") + name
      case Index(_) => before
  }

  predicate DropsIndex(path: Path) {
    exists i | 0 <= i < |path| :: path[i].Index?
  }

  method FieldPathToEs(path: Path) returns (out: string, dropped: bool)
    ensures out == FieldName(path) && dropped == DropsIndex(path)
  {
    out := "";
    dropped := false;
    for i := 0 to |path|
      invariant out == FieldName(path[..i]) && dropped == DropsIndex(path[..i])
    {
      assert path[..i + 1][..i] == path[..i];
      match path[i] {
        case Field(name) =>
          if out != "" {
            out := out + ".";
          }
          out := out + name;
        case Index(_) =>
          dropped := true;
          assert path[..i + 1][i].Index?;
      }
    }
    assert path[..|path|] == path;
  }

  // ---- What a field name is. ----

  /** The names in a path, in order; positions have none. */
  function Names(path: Path): seq<string> {
    if path == [] then []
    else (if path[0].Field? then [path[0].name] else []) + Names(path[1..])
  }

  function WithoutLeadingEmpty(names: seq<string>): seq<string> {
    if names != [] && names[0] == "" then WithoutLeadingEmpty(names[1..]) else names
  }

  predicate NoDots(names: seq<string>) {
    forall i | 0 <= i < |names| :: '.' !in names[i]
  }

  lemma {:induction false} NamesSnoc(path: Path, seg: FieldPath.PathSeg)
    ensures Names(path + [seg]) == Names(path) + if seg.Field? then [seg.name] else []
  {
    if path != [] {
      assert (path + [seg])[1..] == path[1..] + [seg];
      NamesSnoc(path[1..], seg);
    }
  }

  lemma {:induction false} LeadingSnoc(names: seq<string>, name: string)
    ensures WithoutLeadingEmpty(names + [name])
         == if WithoutLeadingEmpty(names) == [] && name == "" then [] else WithoutLeadingEmpty(names) + [name]
  {
    if names != [] {
      assert (names + [name])[1..] == names[1..] + [name];
      if names[0] == "" {
        LeadingSnoc(names[1..], name);
      }
    } else {
      assert [name][1..] == [];
    }
  }

  /**
    Reading a field name back: its parts between the dots are the names in the path, in order, without
    its positions and without empty names in front. It is empty exactly when that leaves nothing.
   */
  lemma {:induction false} FieldNameExactly(path: Path)
    requires NoDots(Names(path))
    ensures var names := WithoutLeadingEmpty(Names(path));
            && (FieldName(path) == "" <==> names == [])
            && (names != [] ==> Sequences.Parts(FieldName(path), '.') == names)
    decreases |path|
  {
    if path != [] {
      var init, last := path[..|path| - 1], path[|path| - 1];
      assert path == init + [last];
      NamesSnoc(init, last);
      assert NoDots(Names(init)) by {
        assert forall i | 0 <= i < |Names(init)| :: Names(path)[i] == Names(init)[i];
      }
      FieldNameExactly(init);
      if last.Index? {
        assert Names(path) == Names(init);
      } else {
        var before, name := FieldName(init), last.name;
        assert Names(path)[|Names(init)|] == name;
        LeadingSnoc(Names(init), name);
        Sequences.PartsOne(name, '.');
        Sequences.PartsJoin(before, '.', name);
        assert before + "." + name == before + ['.'] + name;
        assert path[..|path| - 1] == init;
        assert FieldName(path) == (if before == "" then name else before + "." + name);
      }
    }
  }

  function LikeToWildcardChar(c: char): string {
    if c == '%' then "*"
    else if c == '_' then "?"
    else if c == '*' || c == '?' || c == '\\' then ['\\', c]
    else [c]
  }

  function LikeToWildcard(pattern: string): string {
    if pattern == "" then "" else LikeToWildcardChar(pattern[0]) + LikeToWildcard(pattern[1..])
  }

  method TranslateLike(pattern: string) returns (out: string)
    ensures out == LikeToWildcard(pattern)
  {
    out := "";
    for i := 0 to |pattern|
      invariant out + LikeToWildcard(pattern[i..]) == LikeToWildcard(pattern)
    {
      ghost var before := out;
      var c := pattern[i];
      if c == '%' {
        out := out + "*";
      } else if c == '_' {
        out := out + "?";
      } else if c == '*' || c == '?' || c == '\\' {
        out := out + ['\\', c];
      } else {
        out := out + [c];
      }
      assert out == before + LikeToWildcardChar(c);
      assert pattern[i..][1..] == pattern[i + 1..];
      Reassociate(before, LikeToWildcardChar(c), LikeToWildcard(pattern[i + 1..]));
    }
    assert out + "" == out;
  }

  lemma Reassociate(a: string, b: string, c: string)
    ensures a + (b + c) == (a + b) + c
  {
  }

  predicate IsNothing(v: Values.Value) {
    v.Null? || v.Absent?
  }

  function MustNot(query: Query): Query {
    BoolQuery([], [], 0, [query])
  }

  function TermClause(name: string, v: Values.Value, render: Render): Query {
    if IsNothing(v) then MustNot(ExistsField(name)) else Term(name, Values.ToJson(v, render))
  }

  function Jsons(values: seq<Values.Value>, render: Render): seq<Json> {
    seq(|values|, i requires 0 <= i < |values| => Values.ToJson(values[i], render))
  }

  predicate IsLeaf(pred: Predicate) {
    !pred.And? && !pred.Or? && !pred.Not?
  }

  function LeafQuery(pred: Predicate, name: string, render: Render): Query
    requires IsLeaf(pred)
  {
    match pred
    case Eq(_, v) => TermClause(name, v, render)
    case Ne(_, v) => MustNot(TermClause(name, v, render))
    case Compare(_, op, v) => Range(name, op, Values.ToJson(v, render))
    case In(_, values) => Terms(name, Jsons(values, render))
    case Like(_, pattern) => Wildcard(name, LikeToWildcard(pattern))
    case Exists(_) => ExistsField(name)
    case IsNull(_) => MustNot(ExistsField(name))
  }

  function Compiled(pred: Predicate, render: Render): Result<Query, FilterError>
    decreases pred, 1
  {
    match pred
    case And(parts) =>
      (match CompiledMany(parts, render)
       case Err(e) => Err(e)
       case Ok(queries) => Ok(BoolQuery(queries, [], 0, [])))
    case Or(parts) =>
      (match CompiledMany(parts, render)
       case Err(e) => Err(e)
       case Ok(queries) => Ok(BoolQuery([], queries, 1, [])))
    case Not(inner) =>
      (match Compiled(inner, render)
       case Err(e) => Err(e)
       case Ok(query) => Ok(MustNot(query)))
    case _ =>
      if FieldName(pred.field) == "" then Err(Unaddressable(pred.field))
      else Ok(LeafQuery(pred, FieldName(pred.field), render))
  }

  function CompiledMany(parts: seq<Predicate>, render: Render): (r: Result<seq<Query>, FilterError>)
    ensures r.Ok? ==> |r.value| == |parts|
    decreases parts, 0
  {
    if parts == [] then Ok([])
    else
      match Compiled(parts[0], render)
      case Err(e) => Err(e)
      case Ok(query) =>
        match CompiledMany(parts[1..], render)
        case Err(e) => Err(e)
        case Ok(rest) => Ok([query] + rest)
  }

  // ---- The notices that ride along. ----

  function AddOnce(names: seq<string>, name: string): seq<string> {
    if name in names then names else names + [name]
  }

  predicate TestsNull(pred: Predicate) {
    pred.IsNull? || ((pred.Eq? || pred.Ne?) && IsNothing(pred.value))
  }

  /** The field names tested for null so far, each once, in the order the compiler meets them. */
  function NullNames(pred: Predicate, before: seq<string>): seq<string>
    decreases pred, 1
  {
    match pred
    case And(parts) => NullNamesMany(parts, before)
    case Or(parts) => NullNamesMany(parts, before)
    case Not(inner) => NullNames(inner, before)
    case _ => if TestsNull(pred) then AddOnce(before, FieldName(pred.field)) else before
  }

  function NullNamesMany(parts: seq<Predicate>, before: seq<string>): seq<string>
    decreases parts, 0
  {
    if parts == [] then before else NullNamesMany(parts[1..], NullNames(parts[0], before))
  }

  function DroppedNames(pred: Predicate, before: seq<string>): seq<string>
    decreases pred, 1
  {
    match pred
    case And(parts) => DroppedNamesMany(parts, before)
    case Or(parts) => DroppedNamesMany(parts, before)
    case Not(inner) => DroppedNames(inner, before)
    case _ => if DropsIndex(pred.field) then AddOnce(before, FieldName(pred.field)) else before
  }

  function DroppedNamesMany(parts: seq<Predicate>, before: seq<string>): seq<string>
    decreases parts, 0
  {
    if parts == [] then before else DroppedNamesMany(parts[1..], DroppedNames(parts[0], before))
  }

  /** What the compiler accumulates for the user. */
  class Ctx {
    var droppedIndexPaths: seq<string>
    var nullConflatedPaths: seq<string>

    constructor ()
      ensures droppedIndexPaths == [] && nullConflatedPaths == []
    {
      droppedIndexPaths, nullConflatedPaths := [], [];
    }

    method Field(path: Path) returns (r: Result<string, FilterError>)
      modifies this`droppedIndexPaths
      ensures FieldName(path) == "" ==> r == Err(Unaddressable(path)) && unchanged(this)
      ensures FieldName(path) != "" ==>
                && r == Ok(FieldName(path))
                && droppedIndexPaths
                   == if DropsIndex(path) then AddOnce(old(droppedIndexPaths), FieldName(path)) else old(droppedIndexPaths)
    {
      var name, dropped := FieldPathToEs(path);
      if name == "" {
        return Err(Unaddressable(path));
      }
      if dropped && name !in droppedIndexPaths {
        droppedIndexPaths := droppedIndexPaths + [name];
      }
      return Ok(name);
    }

    method NoteNull(name: string)
      modifies this`nullConflatedPaths
      ensures nullConflatedPaths == AddOnce(old(nullConflatedPaths), name)
    {
      if name !in nullConflatedPaths {
        nullConflatedPaths := nullConflatedPaths + [name];
      }
    }
  }

  /** The compiler: recursive over the predicate, threading the accumulator. */
  method Compile(pred: Predicate, render: Render, ctx: Ctx) returns (r: Result<Query, FilterError>)
    modifies ctx
    ensures r == Compiled(pred, render)
    ensures r.Ok? ==> ctx.nullConflatedPaths == NullNames(pred, old(ctx.nullConflatedPaths))
    ensures r.Ok? ==> ctx.droppedIndexPaths == DroppedNames(pred, old(ctx.droppedIndexPaths))
    decreases pred, 1
  {
    if pred.And? || pred.Or? {
      var queries := CompileMany(pred.parts, render, ctx);
      if queries.Err? {
        return Err(queries.error);
      }
      if pred.And? {
        return Ok(BoolQuery(queries.value, [], 0, []));
      }
      return Ok(BoolQuery([], queries.value, 1, []));
    }
    if pred.Not? {
      var query := Compile(pred.inner, render, ctx);
      if query.Err? {
        return Err(query.error);
      }
      return Ok(MustNot(query.value));
    }
    var name := ctx.Field(pred.field);
    if name.Err? {
      return Err(name.error);
    }
    if TestsNull(pred) {
      ctx.NoteNull(name.value);
    }
    if pred.Like? {
      var text := TranslateLike(pred.pattern);
      return Ok(Wildcard(name.value, text));
    }
    return Ok(LeafQuery(pred, name.value, render));
  }

  method CompileMany(parts: seq<Predicate>, render: Render, ctx: Ctx) returns (r: Result<seq<Query>, FilterError>)
    modifies ctx
    ensures r == CompiledMany(parts, render)
    ensures r.Ok? ==> ctx.nullConflatedPaths == NullNamesMany(parts, old(ctx.nullConflatedPaths))
    ensures r.Ok? ==> ctx.droppedIndexPaths == DroppedNamesMany(parts, old(ctx.droppedIndexPaths))
    decreases parts, 0
  {
    if parts == [] {
      return Ok([]);
    }
    var first := Compile(parts[0], render, ctx);
    if first.Err? {
      return Err(first.error);
    }
    var rest := CompileMany(parts[1..], render, ctx);
    if rest.Err? {
      return Err(rest.error);
    }
    return Ok([first.value] + rest.value);
  }

  // ---- Meaning. ----

  /** A document as the index sees it: every field's values, arrays flattened, nulls left out. */
  type Doc = d: map<string, seq<Json>> | forall k | k in d :: forall i | 0 <= i < |d[k]| :: d[k][i] != JNull
    witness map[]

  function At(doc: Doc, name: string): seq<Json> {
    if name in doc then doc[name] else []
  }

  predicate Ordered(a: Json, b: Json) {
    (a.JNum? && b.JNum? && a.n < b.n) || (a.JStr? && b.JStr? && TextOrder.Less(a.s, b.s))
  }

  predicate Satisfies(x: Json, op: Comparison, bound: Json) {
    match op
    case Lt => Ordered(x, bound)
    case Le => Ordered(x, bound) || x == bound
    case Gt => Ordered(bound, x)
    case Ge => Ordered(bound, x) || x == bound
  }

  /** The four comparisons are those of one order: of numbers, and of texts; nothing else compares. */
  lemma ComparisonsMean(x: Json, bound: Json)
    ensures x.JNum? && bound.JNum? ==>
              && (Satisfies(x, Lt, bound) <==> x.n < bound.n) && (Satisfies(x, Le, bound) <==> x.n <= bound.n)
              && (Satisfies(x, Gt, bound) <==> x.n > bound.n) && (Satisfies(x, Ge, bound) <==> x.n >= bound.n)
    ensures x.JStr? && bound.JStr? ==>
              && (Satisfies(x, Lt, bound) <==> TextOrder.Less(x.s, bound.s))
              && (Satisfies(x, Gt, bound) <==> TextOrder.Less(bound.s, x.s))
    ensures Satisfies(x, Le, bound) <==> Satisfies(x, Lt, bound) || x == bound
    ensures Satisfies(x, Ge, bound) <==> Satisfies(x, Gt, bound) || x == bound
    ensures (Satisfies(x, Lt, bound) || Satisfies(x, Gt, bound)) ==> (x.JNum? && bound.JNum?) || (x.JStr? && bound.JStr?)
  {
  }

  /** SQL LIKE: `%` is any run of characters, `_` is any one character, all else is itself. */
  predicate LikeMatches(pattern: string, s: string)
    decreases |pattern| + |s|
  {
    if pattern == "" then s == ""
    else if pattern[0] == '%' then LikeMatches(pattern[1..], s) || (s != "" && LikeMatches(pattern, s[1..]))
    else s != "" && (pattern[0] == '_' || pattern[0] == s[0]) && LikeMatches(pattern[1..], s[1..])
  }

  /** Elasticsearch wildcards: `*`, `?`, and a backslash that takes the next character literally. */
  predicate WildcardMatches(text: string, s: string)
    decreases |text| + |s|
  {
    if text == "" then s == ""
    else if text[0] == '*' then WildcardMatches(text[1..], s) || (s != "" && WildcardMatches(text, s[1..]))
    else if text[0] == '?' then s != "" && WildcardMatches(text[1..], s[1..])
    else if text[0] == '\\' && |text| > 1 then s != "" && text[1] == s[0] && WildcardMatches(text[2..], s[1..])
    else s != "" && text[0] == s[0] && WildcardMatches(text[1..], s[1..])
  }

  /** Equality with a value; with nothing, the field holds nothing. */
  predicate EqualsAt(doc: Doc, name: string, v: Values.Value, render: Render) {
    if v.Null? || v.Absent? then At(doc, name) == [] else Values.ToJson(v, render) in At(doc, name)
  }

  /** What a predicate says about a document: any value of the field may satisfy it. */
  ghost predicate Holds(pred: Predicate, doc: Doc, render: Render)
    decreases pred
  {
    match pred
    case Eq(field, v) => EqualsAt(doc, FieldName(field), v, render)
    case Ne(field, v) => !EqualsAt(doc, FieldName(field), v, render)
    case Compare(field, op, v) =>
      exists x :: x in At(doc, FieldName(field)) && Satisfies(x, op, Values.ToJson(v, render))
    case In(field, values) =>
      exists i :: 0 <= i < |values| && EqualsAt(doc, FieldName(field), values[i], render)
    case Like(field, pattern) =>
      exists x :: x in At(doc, FieldName(field)) && x.JStr? && LikeMatches(pattern, x.s)
    case Exists(field) => At(doc, FieldName(field)) != []
    case IsNull(field) => At(doc, FieldName(field)) == []
    case And(parts) => forall i | 0 <= i < |parts| :: Holds(parts[i], doc, render)
    case Or(parts) => exists i :: 0 <= i < |parts| && Holds(parts[i], doc, render)
    case Not(inner) => !Holds(inner, doc, render)
  }

  /**
    What a query matches. A bool query without any clause matches everything, and a range whose bound
    is null is open on that side: it matches wherever the field has a value.
   */
  ghost predicate Matches(query: Query, doc: Doc)
    decreases query
  {
    match query
    case Term(name, json) => json in At(doc, name)
    case Range(name, op, json) => exists x :: x in At(doc, name) && (json == JNull || Satisfies(x, op, json))
    case Terms(name, jsons) => exists x :: x in At(doc, name) && x in jsons
    case Wildcard(name, text) => exists x :: x in At(doc, name) && x.JStr? && WildcardMatches(text, x.s)
    case ExistsField(name) => At(doc, name) != []
    case BoolQuery(filter, should, minimum, mustNot) =>
      (filter == [] && should == [] && mustNot == []) ||
      (&& (forall i | 0 <= i < |filter| :: Matches(filter[i], doc))
       && (minimum == 0 || exists i :: 0 <= i < |should| && Matches(should[i], doc))
       && (forall i | 0 <= i < |mustNot| :: !Matches(mustNot[i], doc)))
  }

  /** A LIKE pattern and its wildcard translation match the same texts. */
  lemma {:induction false} LikeIsWildcard(pattern: string, s: string)
    ensures LikeMatches(pattern, s) <==> WildcardMatches(LikeToWildcard(pattern), s)
    decreases |pattern| + |s|
  {
    if pattern != "" {
      var c, rest := pattern[0], LikeToWildcard(pattern[1..]);
      var text := LikeToWildcard(pattern);
      LikeIsWildcard(pattern[1..], s);
      if s != "" {
        LikeIsWildcard(pattern[1..], s[1..]);
        LikeIsWildcard(pattern, s[1..]);
      }
      if c == '*' || c == '?' || c == '\\' {
        assert text[2..] == rest;
      } else {
        assert text[1..] == rest;
      }
    }
  }

  /** No Or without parts, no nothing inside an In list, no comparison whose bound is written as null. */
  predicate Regular(pred: Predicate, render: Render)
    decreases pred
  {
    match pred
    case Compare(_, _, v) => Bounds(v, render)
    case In(_, values) => NoNothing(values)
    case And(parts) => forall i | 0 <= i < |parts| :: Regular(parts[i], render)
    case Or(parts) => parts != [] && forall i | 0 <= i < |parts| :: Regular(parts[i], render)
    case Not(inner) => Regular(inner, render)
    case _ => true
  }

  /** The bound reaches the query: it is neither null nor absent, nor a float that JSON writes as null. */
  predicate Bounds(v: Values.Value, render: Render) {
    Values.ToJson(v, render) != JNull
  }

  predicate NoNothing(values: seq<Values.Value>) {
    forall i | 0 <= i < |values| :: !values[i].Null? && !values[i].Absent?
  }

  lemma InMatches(pred: Predicate, name: string, doc: Doc, render: Render)
    requires pred.In? && name == FieldName(pred.field) && NoNothing(pred.values)
    ensures Matches(LeafQuery(pred, name, render), doc) <==> Holds(pred, doc, render)
  {
    var jsons := Jsons(pred.values, render);
    if Matches(Terms(name, jsons), doc) {
      var x :| x in At(doc, name) && x in jsons;
      var i :| 0 <= i < |jsons| && jsons[i] == x;
      assert EqualsAt(doc, name, pred.values[i], render);
    }
    if Holds(pred, doc, render) {
      var i :| 0 <= i < |pred.values| && EqualsAt(doc, name, pred.values[i], render);
      assert jsons[i] in jsons && jsons[i] in At(doc, name);
    }
  }

  lemma LikeLeafMatches(pred: Predicate, name: string, doc: Doc, render: Render)
    requires pred.Like? && name == FieldName(pred.field)
    ensures Matches(LeafQuery(pred, name, render), doc) <==> Holds(pred, doc, render)
  {
    forall x | x in At(doc, name) && x.JStr?
      ensures LikeMatches(pred.pattern, x.s) <==> WildcardMatches(LikeToWildcard(pred.pattern), x.s)
    {
      LikeIsWildcard(pred.pattern, x.s);
    }
  }

  lemma LeafMatches(pred: Predicate, name: string, doc: Doc, render: Render)
    requires IsLeaf(pred) && Regular(pred, render) && name == FieldName(pred.field)
    ensures Matches(LeafQuery(pred, name, render), doc) <==> Holds(pred, doc, render)
  {
    if pred.In? {
      InMatches(pred, name, doc, render);
    } else if pred.Like? {
      LikeLeafMatches(pred, name, doc, render);
    } else if pred.Eq? || pred.Ne? {
      MustNotMatches(ExistsField(name), doc);
      MustNotMatches(TermClause(name, pred.value, render), doc);
    } else if pred.IsNull? {
      MustNotMatches(ExistsField(name), doc);
    }
  }

  lemma MustNotMatches(query: Query, doc: Doc)
    ensures Matches(MustNot(query), doc) <==> !Matches(query, doc)
  {
    assert [query][0] == query;
  }

  lemma CompiledManyParts(parts: seq<Predicate>, render: Render)
    requires CompiledMany(parts, render).Ok?
    ensures forall i | 0 <= i < |parts| :: Compiled(parts[i], render) == Ok(CompiledMany(parts, render).value[i])
    decreases |parts|
  {
    if parts != [] {
      CompiledManyParts(parts[1..], render);
      assert forall i | 0 < i < |parts| :: parts[i] == parts[1..][i - 1];
    }
  }

  /** The compiled query matches exactly the documents the predicate holds of. */
  lemma {:induction false} FilterExact(pred: Predicate, doc: Doc, render: Render)
    requires Regular(pred, render) && Compiled(pred, render).Ok?
    ensures Matches(Compiled(pred, render).value, doc) <==> Holds(pred, doc, render)
    decreases pred
  {
    match pred
    case And(parts) =>
      PartsExact(parts, pred, doc, render);
    case Or(parts) =>
      PartsExact(parts, pred, doc, render);
    case Not(inner) =>
      FilterExact(inner, doc, render);
      MustNotMatches(Compiled(inner, render).value, doc);
    case _ =>
      LeafMatches(pred, FieldName(pred.field), doc, render);
  }

  lemma {:induction false} PartsExact(parts: seq<Predicate>, whole: Predicate, doc: Doc, render: Render)
    requires (whole.And? || whole.Or?) && whole.parts == parts
    requires CompiledMany(parts, render).Ok? && forall i | 0 <= i < |parts| :: Regular(parts[i], render)
    ensures forall i | 0 <= i < |parts| ::
              Matches(CompiledMany(parts, render).value[i], doc) <==> Holds(parts[i], doc, render)
    decreases whole, 0
  {
    CompiledManyParts(parts, render);
    forall i | 0 <= i < |parts|
      ensures Matches(CompiledMany(parts, render).value[i], doc) <==> Holds(parts[i], doc, render)
    {
      FilterExact(parts[i], doc, render);
    }
  }

  /** The compiled query means the same as the predicate, on every document. */
  ghost predicate KeepsMeaning(pred: Predicate, render: Render)
    requires Compiled(pred, render).Ok?
  {
    forall doc: Doc :: Matches(Compiled(pred, render).value, doc) <==> Holds(pred, doc, render)
  }

  lemma RegularKeepsMeaning(pred: Predicate, render: Render)
    requires Regular(pred, render) && Compiled(pred, render).Ok?
    ensures KeepsMeaning(pred, render)
  {
    forall doc: Doc ensures Matches(Compiled(pred, render).value, doc) <==> Holds(pred, doc, render) {
      FilterExact(pred, doc, render);
    }
  }

  /** An Or keeps its meaning exactly when it has a part: an empty one would match everything. */
  lemma OrExactly(parts: seq<Predicate>, render: Render)
    requires CompiledMany(parts, render).Ok? && forall i | 0 <= i < |parts| :: Regular(parts[i], render)
    ensures KeepsMeaning(Or(parts), render) <==> parts != []
  {
    var pred := Or(parts);
    if parts == [] {
      var doc: Doc := map[];
      assert Compiled(pred, render).value == BoolQuery([], [], 1, []);
      assert !Holds(pred, doc, render) && Matches(Compiled(pred, render).value, doc);
    } else {
      RegularKeepsMeaning(pred, render);
    }
  }

  /** An And of regular parts keeps its meaning with any number of them, none included, and so does the Not of one. */
  lemma AndNotKeep(parts: seq<Predicate>, inner: Predicate, render: Render)
    requires CompiledMany(parts, render).Ok? && forall i | 0 <= i < |parts| :: Regular(parts[i], render)
    requires Compiled(inner, render).Ok? && Regular(inner, render)
    ensures KeepsMeaning(And(parts), render) && KeepsMeaning(Not(inner), render)
  {
    RegularKeepsMeaning(And(parts), render);
    RegularKeepsMeaning(Not(inner), render);
  }

  /** Equality, its opposite, LIKE and the two tests for presence always keep their meaning, of null and of anything else. */
  lemma OtherTestsKeep(pred: Predicate, render: Render)
    requires pred.Eq? || pred.Ne? || pred.Like? || pred.Exists? || pred.IsNull?
    requires FieldName(pred.field) != ""
    ensures KeepsMeaning(pred, render)
  {
    RegularKeepsMeaning(pred, render);
  }

  /**
    A comparison keeps its meaning exactly when its bound is written as something: compared with
    null, the query matches every document that has the field, and the predicate holds of none.
   */
  lemma CompareExactly(field: Path, op: Comparison, v: Values.Value, render: Render)
    requires FieldName(field) != ""
    ensures KeepsMeaning(Compare(field, op, v), render) <==> Bounds(v, render)
    ensures !Bounds(v, render) ==>
              var doc: Doc := map[FieldName(field) := [JNum(0)]];
              && Matches(Compiled(Compare(field, op, v), render).value, doc)
              && !Holds(Compare(field, op, v), doc, render)
  {
    var pred := Compare(field, op, v);
    if Bounds(v, render) {
      RegularKeepsMeaning(pred, render);
    } else {
      var doc: Doc := map[FieldName(field) := [JNum(0)]];
      assert JNum(0) in At(doc, FieldName(field));
      assert Matches(Compiled(pred, render).value, doc) && !Holds(pred, doc, render);
    }
  }

  /** An In keeps its meaning exactly when its list holds no null: a null there matches nothing. */
  lemma InExactly(field: Path, values: seq<Values.Value>, render: Render)
    requires FieldName(field) != ""
    ensures KeepsMeaning(In(field, values), render) <==> NoNothing(values)
  {
    var pred := In(field, values);
    if NoNothing(values) {
      RegularKeepsMeaning(pred, render);
    } else {
      var i :| 0 <= i < |values| && (values[i].Null? || values[i].Absent?);
      var doc: Doc := map[];
      assert EqualsAt(doc, FieldName(field), values[i], render);
      assert Holds(pred, doc, render) && !Matches(Compiled(pred, render).value, doc);
    }
  }

  predicate Distinct(names: seq<string>) {
    forall i, j | 0 <= i < j < |names| :: names[i] != names[j]
  }

  /** The null notice names every null-tested field, and each one once. */
  lemma {:induction false} NullNoticeOnce(pred: Predicate, before: seq<string>)
    requires Distinct(before)
    ensures Distinct(NullNames(pred, before)) && before <= NullNames(pred, before)
    ensures forall name :: name in NullNames(pred, before) <==> name in before || NullTested(pred, name)
    decreases pred, 1
  {
    match pred
    case And(parts) => NullNoticeOnceMany(parts, before);
    case Or(parts) => NullNoticeOnceMany(parts, before);
    case Not(inner) => NullNoticeOnce(inner, before);
    case _ =>
  }

  /** The dropped-position notice names every field whose path had a position in it, and each one once. */
  lemma {:induction false} DroppedNoticeOnce(pred: Predicate, before: seq<string>)
    requires Distinct(before)
    ensures Distinct(DroppedNames(pred, before)) && before <= DroppedNames(pred, before)
    ensures forall name :: name in DroppedNames(pred, before) <==> name in before || PositionDropped(pred, name)
    decreases pred, 1
  {
    match pred
    case And(parts) => DroppedNoticeOnceMany(parts, before);
    case Or(parts) => DroppedNoticeOnceMany(parts, before);
    case Not(inner) => DroppedNoticeOnce(inner, before);
    case _ =>
  }

  predicate PositionDropped(pred: Predicate, name: string)
    decreases pred
  {
    match pred
    case And(parts) => exists i | 0 <= i < |parts| :: PositionDropped(parts[i], name)
    case Or(parts) => exists i | 0 <= i < |parts| :: PositionDropped(parts[i], name)
    case Not(inner) => PositionDropped(inner, name)
    case _ => FieldName(pred.field) == name && exists i | 0 <= i < |pred.field| :: pred.field[i].Index?
  }

  lemma {:induction false} DroppedNoticeOnceMany(parts: seq<Predicate>, before: seq<string>)
    requires Distinct(before)
    ensures Distinct(DroppedNamesMany(parts, before)) && before <= DroppedNamesMany(parts, before)
    ensures forall name :: name in DroppedNamesMany(parts, before) <==>
              name in before || exists i | 0 <= i < |parts| :: PositionDropped(parts[i], name)
    decreases parts, 0
  {
    if parts != [] {
      var next := DroppedNames(parts[0], before);
      DroppedNoticeOnce(parts[0], before);
      DroppedNoticeOnceMany(parts[1..], next);
      forall name
        ensures (exists i | 0 <= i < |parts| :: PositionDropped(parts[i], name)) <==>
                PositionDropped(parts[0], name) || exists i | 0 <= i < |parts[1..]| :: PositionDropped(parts[1..][i], name)
      {
        if exists i | 0 <= i < |parts| :: PositionDropped(parts[i], name) {
          var i :| 0 <= i < |parts| && PositionDropped(parts[i], name);
          assert i > 0 ==> parts[1..][i - 1] == parts[i];
        }
      }
    }
  }

  /** Every test in the predicate is of a field that has a name. */
  predicate Addressable(pred: Predicate)
    decreases pred
  {
    match pred
    case And(parts) => forall i | 0 <= i < |parts| :: Addressable(parts[i])
    case Or(parts) => forall i | 0 <= i < |parts| :: Addressable(parts[i])
    case Not(inner) => Addressable(inner)
    case _ => FieldName(pred.field) != ""
  }

  /** A predicate compiles exactly when every test in it has a field name, and fails for a path that has none. */
  lemma {:induction false} CompilesExactly(pred: Predicate, render: Render)
    ensures Compiled(pred, render).Ok? <==> Addressable(pred)
    ensures Compiled(pred, render).Err? ==> FieldName(Compiled(pred, render).error.path) == ""
    decreases pred, 1
  {
    hide FieldName;
    match pred
    case And(parts) => ManyCompileExactly(parts, render);
    case Or(parts) => ManyCompileExactly(parts, render);
    case Not(inner) => CompilesExactly(inner, render);
    case _ =>
  }

  lemma {:induction false} ManyCompileExactly(parts: seq<Predicate>, render: Render)
    ensures CompiledMany(parts, render).Ok? <==> forall i | 0 <= i < |parts| :: Addressable(parts[i])
    ensures CompiledMany(parts, render).Err? ==> FieldName(CompiledMany(parts, render).error.path) == ""
    decreases parts, 0
  {
    hide FieldName;
    if parts != [] {
      CompilesExactly(parts[0], render);
      ManyCompileExactly(parts[1..], render);
      assert forall i | 0 < i < |parts| :: parts[i] == parts[1..][i - 1];
    }
  }

  predicate NullTested(pred: Predicate, name: string)
    decreases pred
  {
    match pred
    case And(parts) => exists i | 0 <= i < |parts| :: NullTested(parts[i], name)
    case Or(parts) => exists i | 0 <= i < |parts| :: NullTested(parts[i], name)
    case Not(inner) => NullTested(inner, name)
    case IsNull(field) => FieldName(field) == name
    case Eq(field, v) => (v.Null? || v.Absent?) && FieldName(field) == name
    case Ne(field, v) => (v.Null? || v.Absent?) && FieldName(field) == name
    case _ => false
  }

  lemma {:induction false} NullNoticeOnceMany(parts: seq<Predicate>, before: seq<string>)
    requires Distinct(before)
    ensures Distinct(NullNamesMany(parts, before)) && before <= NullNamesMany(parts, before)
    ensures forall name :: name in NullNamesMany(parts, before) <==>
              name in before || exists i | 0 <= i < |parts| :: NullTested(parts[i], name)
    decreases parts, 0
  {
    if parts != [] {
      var next := NullNames(parts[0], before);
      NullNoticeOnce(parts[0], before);
      NullNoticeOnceMany(parts[1..], next);
      forall name
        ensures (exists i | 0 <= i < |parts| :: NullTested(parts[i], name)) <==>
                NullTested(parts[0], name) || exists i | 0 <= i < |parts[1..]| :: NullTested(parts[1..][i], name)
      {
        if exists i | 0 <= i < |parts| :: NullTested(parts[i], name) {
          var i :| 0 <= i < |parts| && NullTested(parts[i], name);
          assert i > 0 ==> parts[1..][i - 1] == parts[i];
        }
      }
    }
  }
}

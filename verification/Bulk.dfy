/**
  Guarded writes: the optimistic-concurrency guard of a mutation, the compiled write that carries
  it as text, and the `_bulk` body that frames many writes as newline-delimited JSON.
 */
module Bulk {
  import opened Wrappers
  import opened Json
  import opened JsonText
  import Decimal
  import FieldPath
  import JsonReading
  import PercentCoding
  import Sequences
  import Updates
  import Utf8
  import Values

  datatype WriteError =
    | GenericPrecondition
    | GuardTwice
    | GuardNotInteger
    | GuardSentinel
    | Unguarded
    | UnknownOp
    | BodyTooLarge(bytes: nat)
    | NoItems
    | ItemCountMismatch
    | ItemWithoutAction

  datatype Guard = Guard(seqNo: nat, primaryTerm: nat)

  datatype Identity = Identity(index: string, id: string, routing: Option<string>)

  /** `update`, `delete`, `insert`, or a name the framing does not know. */
  datatype WriteOp = Update | Delete | Insert | Unknown(name: string)

  datatype CompiledWrite = CompiledWrite(
    op: WriteOp,
    index: string,
    id: string,
    routing: Option<string>,
    path: string,
    query: seq<(string, string)>,
    body: Option<Json>)

  // ---- The guard. ----

  function SingleField(path: Updates.Path): Option<string> {
    if |path| == 1 && path[0].Field? then Some(path[0].name) else None
  }

  /** The integer a precondition holds; a 64-bit unsigned value past the signed range reads as -1. */
  function GuardInteger(v: Values.Value): Option<int> {
    match v
    case I64(n) => Some(n)
    case U64(n) => Some(if n < 0x8000_0000_0000_0000 then n else -1)
    case _ => None
  }

  datatype Slots = Slots(seqNo: Option<nat>, primaryTerm: Option<nat>)

  function TakePrecondition(slots: Slots, entry: Updates.FieldSet): Result<Slots, WriteError> {
    var name := SingleField(entry.path);
    if name != Some("_seq_no") && name != Some("_primary_term") then Err(GenericPrecondition)
    else
      var isSeq := name == Some("_seq_no");
      if (if isSeq then slots.seqNo else slots.primaryTerm).Some? then Err(GuardTwice)
      else
        match GuardInteger(entry.value)
        case None => Err(GuardNotInteger)
        case Some(n) =>
          if n < (if isSeq then 0 else 1) then Err(GuardSentinel)
          else Ok(if isSeq then slots.(seqNo := Some(n)) else slots.(primaryTerm := Some(n)))
  }

  function TakeAll(slots: Slots, expected: seq<Updates.FieldSet>): Result<Slots, WriteError>
    decreases |expected|
  {
    if expected == [] then Ok(slots)
    else
      match TakePrecondition(slots, expected[0])
      case Err(e) => Err(e)
      case Ok(next) => TakeAll(next, expected[1..])
  }

  function GuardOf(expected: seq<Updates.FieldSet>): Result<Guard, WriteError> {
    match TakeAll(Slots(None, None), expected)
    case Err(e) => Err(e)
    case Ok(slots) =>
      if slots.seqNo.Some? && slots.primaryTerm.Some? then Ok(Guard(slots.seqNo.value, slots.primaryTerm.value))
      else Err(Unguarded)
  }

  method GuardFromExpect(expected: seq<Updates.FieldSet>) returns (r: Result<Guard, WriteError>)
    ensures r == GuardOf(expected)
  {
    var seqNo: Option<nat> := None;
    var primaryTerm: Option<nat> := None;
    for i := 0 to |expected|
      invariant TakeAll(Slots(seqNo, primaryTerm), expected[i..]) == TakeAll(Slots(None, None), expected)
    {
      var entry := expected[i];
      assert expected[i..][0] == entry && expected[i..][1..] == expected[i + 1..];
      var name := SingleField(entry.path);
      if name != Some("_seq_no") && name != Some("_primary_term") {
        return Err(GenericPrecondition);
      }
      var isSeq := name == Some("_seq_no");
      if (isSeq && seqNo.Some?) || (!isSeq && primaryTerm.Some?) {
        return Err(GuardTwice);
      }
      var n := GuardInteger(entry.value);
      if n.None? {
        return Err(GuardNotInteger);
      }
      if n.value < (if isSeq then 0 else 1) {
        return Err(GuardSentinel);
      }
      if isSeq {
        seqNo := Some(n.value);
      } else {
        primaryTerm := Some(n.value);
      }
    }
    if seqNo.Some? && primaryTerm.Some? {
      return Ok(Guard(seqNo.value, primaryTerm.value));
    }
    return Err(Unguarded);
  }

  /** A precondition that sets the named guard field to `n`, at or above its floor: an integer of 64 bits with a sign. */
  predicate Names(entry: Updates.FieldSet, name: string, n: int, floor: int) {
    && entry.path == [FieldPath.Field(name)] && floor <= n < 0x8000_0000_0000_0000
    && ((entry.value.I64? && entry.value.i == n) || (entry.value.U64? && entry.value.u == n))
  }

  predicate NamesBoth(first: Updates.FieldSet, second: Updates.FieldSet, guard: Guard) {
    Names(first, "_seq_no", guard.seqNo, 0) && Names(second, "_primary_term", guard.primaryTerm, 1)
  }

  /** A guard is accepted exactly from one sequence number and one primary term, in either order. */
  lemma GuardExactly(expected: seq<Updates.FieldSet>, guard: Guard)
    ensures GuardOf(expected) == Ok(guard) <==>
            && |expected| == 2
            && (NamesBoth(expected[0], expected[1], guard) || NamesBoth(expected[1], expected[0], guard))
  {
    var none, rest := Slots(None, None), if expected == [] then [] else expected[1..];
    if expected != [] && TakePrecondition(none, expected[0]).Ok? {
      var one := TakePrecondition(none, expected[0]).value;
      assert TakeAll(none, expected) == TakeAll(one, rest);
      if rest != [] && TakePrecondition(one, rest[0]).Ok? {
        var both := TakePrecondition(one, rest[0]).value;
        assert TakeAll(one, rest) == TakeAll(both, rest[1..]);
        assert rest[0] == expected[1];
        FullGuardEnds(both, rest[1..]);
      }
    }
  }

  /** With both fields taken, any further precondition is refused. */
  lemma FullGuardEnds(slots: Slots, expected: seq<Updates.FieldSet>)
    requires slots.seqNo.Some? && slots.primaryTerm.Some?
    ensures TakeAll(slots, expected).Ok? <==> expected == []
    ensures expected == [] ==> TakeAll(slots, expected) == Ok(slots)
  {
  }

  function GuardQuery(guard: Guard, routing: Option<string>): seq<(string, string)> {
    [("if_seq_no", Decimal.Print(guard.seqNo)),
     ("if_primary_term", Decimal.Print(guard.primaryTerm)),
     ("refresh", "wait_for")]
    + (if routing.Some? then [("routing", routing.value)] else [])
  }

  // ---- Compiled writes. ----

  const QUIET_ERRORS := ("include_source_on_error", "false")

  function CompileUpdate(identity: Identity, body: Updates.Body, guard: Guard, quiet: bool): CompiledWrite {
    CompiledWrite(
      Update, identity.index, identity.id, identity.routing,
      "/" + PercentCoding.Encoded(identity.index) + "/_update/" + PercentCoding.Encoded(identity.id),
      GuardQuery(guard, identity.routing) + (if quiet then [QUIET_ERRORS] else []),
      Some(BodyJson(body)))
  }

  function CompileDelete(identity: Identity, guard: Guard): CompiledWrite {
    CompiledWrite(
      Delete, identity.index, identity.id, identity.routing,
      "/" + PercentCoding.Encoded(identity.index) + "/_doc/" + PercentCoding.Encoded(identity.id),
      GuardQuery(guard, identity.routing), None)
  }

  function BodyJson(body: Updates.Body): Json {
    match body
    case Doc(doc) => JObj(map["doc" := JObj(doc)])
    case Script(lines, params) =>
      JObj(map["script" := JObj(map[
        "lang" := JStr("painless"),
        "source" := JStr(Joined(lines, "\n")),
        "params" := JObj(ParamsJson(params))])])
  }

  function ParamsJson(params: seq<Json>): Object {
    if params == [] then map[]
    else
      var n := |params| - 1;
      ParamsJson(params[..n])["p" + Decimal.Print(n) := params[n]]
  }

  function AccessExpr(names: seq<string>): string {
    if names == [] then "ctx._source"
    else AccessExpr(names[..|names| - 1]) + "." + names[|names| - 1]
  }

  function MapGuards(names: seq<string>, depth: nat): string
    requires depth <= |names|
  {
    if depth == 0 then ""
    else
      (if depth == 1 then "" else MapGuards(names, depth - 1) + " && ")
      + AccessExpr(names[..depth]) + " instanceof Map"
  }

  function LineText(line: Updates.Stmt): string {
    match line
    case EnsureMap(names) =>
      "if (!(" + AccessExpr(names) + " instanceof Map)) { " + AccessExpr(names) + " = [:]; }"
    case Assign(names, param) => AccessExpr(names) + " = params.p" + Decimal.Print(param) + ";"
    case RemoveTop(name) => "ctx._source.remove('" + name + "');"
    case RemoveNested(names) =>
      if names == [] then ""
      else
        var n := |names| - 1;
        "if (" + MapGuards(names, n) + ") { " + AccessExpr(names[..n]) + ".remove('" + names[n] + "'); }"
  }

  function Joined(lines: seq<Updates.Stmt>, separator: string): string {
    if lines == [] then ""
    else if |lines| == 1 then LineText(lines[0])
    else LineText(lines[0]) + separator + Joined(lines[1..], separator)
  }

  // ---- Framing. ----

  /** `str::parse::<u64>`: digits, an optional plus sign, and no overflow. */
  function ParseU64(s: string): Option<nat> {
    var digits := if s != "" && s[0] == '+' then s[1..] else s;
    if digits != "" && Decimal.AllDigits(digits) && Decimal.Value(digits) < Decimal.U64_LIMIT then
      Some(Decimal.Value(digits))
    else None
  }

  function QueryValue(query: seq<(string, string)>, key: string): Option<string> {
    if query == [] then None
    else if query[0].0 == key then Some(query[0].1)
    else QueryValue(query[1..], key)
  }

  function QueryU64(write: CompiledWrite, key: string): Option<nat> {
    var text := QueryValue(write.query, key);
    if text.None? then None else ParseU64(text.value)
  }

  function WithRouting(meta: Object, write: CompiledWrite): Object {
    if write.routing.Some? then meta["routing" := JStr(write.routing.value)] else meta
  }

  function WithGuard(meta: Object, write: CompiledWrite): Result<Object, WriteError> {
    var seqNo, primaryTerm := QueryU64(write, "if_seq_no"), QueryU64(write, "if_primary_term");
    if seqNo.Some? && primaryTerm.Some? then
      Ok(meta["if_seq_no" := JNum(seqNo.value)]["if_primary_term" := JNum(primaryTerm.value)])
    else Err(Unguarded)
  }

  function IndexMeta(write: CompiledWrite): Object {
    map["_index" := JStr(write.index)]
  }

  /** Metadata of an update or a delete: address, guard, routing. */
  function GuardedMeta(write: CompiledWrite): Result<Object, WriteError> {
    match WithGuard(IndexMeta(write)["_id" := JStr(write.id)], write)
    case Err(e) => Err(e)
    case Ok(meta) => Ok(WithRouting(meta, write))
  }

  function Action(name: string, meta: Object): Json {
    JObj(map[name := JObj(meta)])
  }

  /** The action of a write and its source document, if it has one. */
  function BulkAction(write: CompiledWrite): Result<(Json, Option<Json>), WriteError> {
    match write.op
    case Update =>
      (match GuardedMeta(write)
       case Err(e) => Err(e)
       case Ok(meta) => Ok((Action("update", meta), write.body)))
    case Delete =>
      (match GuardedMeta(write)
       case Err(e) => Err(e)
       case Ok(meta) => Ok((Action("delete", meta), None)))
    case Insert =>
      var meta := WithRouting(IndexMeta(write), write);
      if write.id == "" then Ok((Action("index", meta), write.body))
      else Ok((Action("create", meta["_id" := JStr(write.id)]), write.body))
    case Unknown(_) => Err(UnknownOp)
  }

  function BulkLines(write: CompiledWrite): (r: Result<seq<string>, WriteError>)
    ensures r.Ok? ==> 1 <= |r.value| <= 2
  {
    match BulkAction(write)
    case Err(e) => Err(e)
    case Ok((action, source)) =>
      Ok([Serialize(action)] + if source.Some? then [Serialize(source.value)] else [])
  }

  function AllLines(writes: seq<CompiledWrite>): Result<seq<string>, WriteError>
  {
    if writes == [] then Ok([])
    else
      match AllLines(writes[..|writes| - 1])
      case Err(e) => Err(e)
      case Ok(before) =>
        match BulkLines(writes[|writes| - 1])
        case Err(e) => Err(e)
        case Ok(lines) => Ok(before + lines)
  }

  function Terminated(lines: seq<string>): string {
    if lines == [] then "" else Terminated(lines[..|lines| - 1]) + (lines[|lines| - 1] + "\n")
  }

  function BulkBody(writes: seq<CompiledWrite>, maxBytes: nat): Result<string, WriteError> {
    match AllLines(writes)
    case Err(e) => Err(e)
    case Ok(lines) =>
      var size := |Utf8.Text(Terminated(lines))|;
      if size > maxBytes then Err(BodyTooLarge(size)) else Ok(Terminated(lines))
  }

  method CompileBulkBody(writes: seq<CompiledWrite>, maxBytes: nat) returns (r: Result<string, WriteError>)
    ensures r == BulkBody(writes, maxBytes)
  {
    var body := "";
    ghost var lines: seq<string> := [];
    for i := 0 to |writes|
      invariant AllLines(writes[..i]) == Ok(lines) && body == Terminated(lines)
    {
      assert writes[..i + 1][..i] == writes[..i];
      var framed := BulkLines(writes[i]);
      if framed.Err? {
        AllLinesFail(writes, i + 1);
        return Err(framed.error);
      }
      var action := framed.value[0];
      assert (lines + [action])[..|lines|] == lines;
      body := body + (action + "\n");
      ghost var grown := lines + [action];
      if |framed.value| == 2 {
        var source := framed.value[1];
        assert (grown + [source])[..|grown|] == grown;
        body := body + (source + "\n");
        grown := grown + [source];
      }
      assert grown == lines + framed.value;
      lines := grown;
    }
    assert writes[..|writes|] == writes;
    var size := |Utf8.Text(body)|;
    if size > maxBytes {
      return Err(BodyTooLarge(size));
    }
    return Ok(body);
  }

  lemma {:induction false} AllLinesFail(writes: seq<CompiledWrite>, i: nat)
    requires i <= |writes| && AllLines(writes[..i]).Err?
    ensures AllLines(writes) == AllLines(writes[..i])
    decreases |writes|
  {
    if i < |writes| {
      var front := writes[..|writes| - 1];
      assert front[..i] == writes[..i];
      AllLinesFail(front, i);
    } else {
      assert writes[..i] == writes;
    }
  }

  /** The lines a server reads: the text up to each line break. */
  function SplitLines(text: string, line: string): seq<string> {
    if text == "" then (if line == "" then [] else [line])
    else if text[0] == '\n' then [line] + SplitLines(text[1..], "")
    else SplitLines(text[1..], line + [text[0]])
  }

  lemma {:induction false} SplitOneLine(line: string, rest: string, before: string)
    requires OneLine(line)
    ensures SplitLines(line + "\n" + rest, before) == [before + line] + SplitLines(rest, "")
    decreases |line|
  {
    var text := line + "\n" + rest;
    if line == "" {
      assert text[1..] == rest && before + line == before;
    } else {
      assert text[1..] == line[1..] + "\n" + rest;
      SplitOneLine(line[1..], rest, before + [line[0]]);
      assert before + [line[0]] + line[1..] == before + line;
    }
  }

  lemma {:induction false} SplitTerminated(lines: seq<string>, rest: string)
    requires forall i | 0 <= i < |lines| :: OneLine(lines[i])
    ensures SplitLines(Terminated(lines) + rest, "") == lines + SplitLines(rest, "")
    decreases |lines|
  {
    if lines == [] {
      assert Terminated(lines) + rest == rest;
    } else {
      var n := |lines| - 1;
      var last := lines[n] + "\n" + rest;
      SplitTerminated(lines[..n], last);
      assert Terminated(lines) + rest == Terminated(lines[..n]) + last;
      SplitOneLine(lines[n], rest, "");
      assert "" + lines[n] == lines[n];
    }
  }

  lemma {:induction false} AllLinesOneLine(writes: seq<CompiledWrite>)
    requires AllLines(writes).Ok?
    ensures forall i | 0 <= i < |AllLines(writes).value| :: OneLine(AllLines(writes).value[i])
    decreases |writes|
  {
    if writes != [] {
      AllLinesOneLine(writes[..|writes| - 1]);
      var (action, source) := BulkAction(writes[|writes| - 1]).value;
      SerializeOneLine(action);
      if source.Some? {
        SerializeOneLine(source.value);
      }
    }
  }

  /** The body reads back as every write's one or two lines, in order, with no stray line break. */
  lemma BulkBodyFrames(writes: seq<CompiledWrite>, maxBytes: nat)
    requires BulkBody(writes, maxBytes).Ok?
    ensures SplitLines(BulkBody(writes, maxBytes).value, "") == AllLines(writes).value
    ensures |Utf8.Text(BulkBody(writes, maxBytes).value)| <= maxBytes
  {
    var lines := AllLines(writes).value;
    AllLinesOneLine(writes);
    SplitTerminated(lines, "");
    assert Terminated(lines) + "" == Terminated(lines);
  }

  // ---- The guard survives framing. ----

  lemma PrintParses(n: nat)
    requires n < Decimal.U64_LIMIT
    ensures ParseU64(Decimal.Print(n)) == Some(n)
  {
    Decimal.PrintThenValue(n);
  }

  /** A printed number parses back, with a plus sign in front or without, exactly when it fits 64 bits. */
  lemma PrintParsesExactly(n: nat)
    ensures ParseU64(Decimal.Print(n)) == (if n < 0x1_0000_0000_0000_0000 then Some(n) else None)
    ensures ParseU64("+" + Decimal.Print(n)) == ParseU64(Decimal.Print(n))
    ensures ParseU64("") == None && ParseU64("+") == None && ParseU64("-" + Decimal.Print(n)) == None
  {
    hide Decimal.Print, Decimal.Value;
    Decimal.PrintThenValue(n);
    assert ("+" + Decimal.Print(n))[1..] == Decimal.Print(n);
    assert ("-" + Decimal.Print(n))[0] == '-';
  }

  lemma GuardInQuery(guard: Guard, routing: Option<string>, more: seq<(string, string)>)
    ensures QueryValue(GuardQuery(guard, routing) + more, "if_seq_no") == Some(Decimal.Print(guard.seqNo))
    ensures QueryValue(GuardQuery(guard, routing) + more, "if_primary_term") == Some(Decimal.Print(guard.primaryTerm))
  {
    var query := GuardQuery(guard, routing) + more;
    assert query[0] == ("if_seq_no", Decimal.Print(guard.seqNo));
    assert query[1..][0] == query[1] == ("if_primary_term", Decimal.Print(guard.primaryTerm));
  }

  /** Where a write goes and what it was guarded by. */
  function AddressAndGuard(identity: Identity, guard: Guard): Object {
    var meta: Object := map[
      "_index" := JStr(identity.index), "_id" := JStr(identity.id),
      "if_seq_no" := JNum(guard.seqNo), "if_primary_term" := JNum(guard.primaryTerm)];
    if identity.routing.Some? then meta["routing" := JStr(identity.routing.value)] else meta
  }

  lemma MetaCarries(write: CompiledWrite, guard: Guard)
    requires QueryU64(write, "if_seq_no") == Some(guard.seqNo)
    requires QueryU64(write, "if_primary_term") == Some(guard.primaryTerm)
    ensures GuardedMeta(write) == Ok(AddressAndGuard(Identity(write.index, write.id, write.routing), guard))
  {
    var meta := IndexMeta(write)["_id" := JStr(write.id)];
    assert meta["if_seq_no" := JNum(guard.seqNo)]["if_primary_term" := JNum(guard.primaryTerm)]
        == map["_index" := JStr(write.index), "_id" := JStr(write.id),
               "if_seq_no" := JNum(guard.seqNo), "if_primary_term" := JNum(guard.primaryTerm)];
  }

  /** The only value a line is the text of. */
  ghost predicate Says(line: string, json: Json) {
    Serialize(json) == line && forall other :: Serialize(other) == line ==> other == json
  }

  lemma LineSays(json: Json)
    ensures Says(Serialize(json), json)
  {
    forall other | Serialize(other) == Serialize(json) ensures other == json {
      JsonReading.SerializeInjective(other, json);
    }
  }

  lemma GuardFits(expected: seq<Updates.FieldSet>, guard: Guard)
    requires GuardOf(expected) == Ok(guard)
    ensures guard.seqNo < Decimal.U64_LIMIT && guard.primaryTerm < Decimal.U64_LIMIT
  {
    GuardExactly(expected, guard);
  }

  /**
    Every update accepted from preconditions goes out as two lines. Read back, the first says exactly
    the update's address, its sequence number and its primary term, although both numbers travelled
    as decimal text and were parsed again; the second says the body.
   */
  lemma {:induction false} UpdateGuardSurvives(
    identity: Identity, body: Updates.Body, expected: seq<Updates.FieldSet>, guard: Guard, quiet: bool)
    requires GuardOf(expected) == Ok(guard)
    ensures var lines := BulkLines(CompileUpdate(identity, body, guard, quiet));
            && lines.Ok? && |lines.value| == 2
            && Says(lines.value[0], Action("update", AddressAndGuard(identity, guard)))
            && Says(lines.value[1], BodyJson(body))
  {
    hide Serialize, BodyJson;
    GuardFits(expected, guard);
    PrintParses(guard.seqNo);
    PrintParses(guard.primaryTerm);
    GuardInQuery(guard, identity.routing, if quiet then [QUIET_ERRORS] else []);
    MetaCarries(CompileUpdate(identity, body, guard, quiet), guard);
    LineSays(Action("update", AddressAndGuard(identity, guard)));
    LineSays(BodyJson(body));
  }

  /** ... and every delete as one line, which says the same of the delete. */
  lemma {:induction false} DeleteGuardSurvives(identity: Identity, expected: seq<Updates.FieldSet>, guard: Guard)
    requires GuardOf(expected) == Ok(guard)
    ensures var lines := BulkLines(CompileDelete(identity, guard));
            && lines.Ok? && |lines.value| == 1
            && Says(lines.value[0], Action("delete", AddressAndGuard(identity, guard)))
  {
    hide Serialize;
    GuardFits(expected, guard);
    PrintParses(guard.seqNo);
    PrintParses(guard.primaryTerm);
    GuardInQuery(guard, identity.routing, []);
    assert GuardQuery(guard, identity.routing) + [] == GuardQuery(guard, identity.routing);
    MetaCarries(CompileDelete(identity, guard), guard);
    LineSays(Action("delete", AddressAndGuard(identity, guard)));
  }

  // ---- What the single requests address. ----

  /** An encoded segment holds no slash and decodes to its text. */
  lemma SegmentReads(segment: string)
    ensures Sequences.Parts(PercentCoding.Encoded(segment), '/') == [PercentCoding.Encoded(segment)]
    ensures PercentCoding.DecodedText(PercentCoding.Encoded(segment)) == segment
  {
    hide PercentCoding.DecodedText;
    PercentCoding.EncodedIsSegmentText(segment);
    PercentCoding.DecodeOfEncode(segment);
    assert '/' !in PercentCoding.Encoded(segment);
    Sequences.PartsOne(PercentCoding.Encoded(segment), '/');
  }

  lemma PathReads(index: string, endpoint: string, id: string)
    requires '/' !in endpoint
    ensures var path := "/" + PercentCoding.Encoded(index) + "/" + endpoint + "/" + PercentCoding.Encoded(id);
            Sequences.Parts(path, '/') == ["", PercentCoding.Encoded(index), endpoint, PercentCoding.Encoded(id)]
  {
    hide PercentCoding.Encoded, Sequences.Parts;
    var a, b := PercentCoding.Encoded(index), PercentCoding.Encoded(id);
    SegmentReads(index);
    SegmentReads(id);
    Sequences.PartsOne("", '/');
    Sequences.PartsOne(endpoint, '/');
    Sequences.PartsJoin(endpoint, '/', b);
    Sequences.PartsJoin(a, '/', endpoint + ['/'] + b);
    Sequences.PartsJoin("", '/', a + ['/'] + (endpoint + ['/'] + b));
    assert "/" + a + "/" + endpoint + "/" + b == "" + ['/'] + (a + ['/'] + (endpoint + ['/'] + b));
  }

  /** The path, cut at its slashes and decoded, names an index, an endpoint of it and a document. */
  predicate Addresses(path: string, index: string, endpoint: string, id: string) {
    var parts := Sequences.Parts(path, '/');
    && |parts| == 4 && parts[0] == "" && parts[2] == endpoint
    && PercentCoding.DecodedText(parts[1]) == index && PercentCoding.DecodedText(parts[3]) == id
  }

  /** What a server reads from the parameters of a guarded request. */
  predicate AsksFor(query: seq<(string, string)>, guard: Guard, routing: Option<string>, quiet: bool) {
    && QueryValue(query, "if_seq_no") == Some(Decimal.Print(guard.seqNo))
    && QueryValue(query, "if_primary_term") == Some(Decimal.Print(guard.primaryTerm))
    && QueryValue(query, "refresh") == Some("wait_for")
    && QueryValue(query, "routing") == routing
    && QueryValue(query, "include_source_on_error") == (if quiet then Some("false") else None)
    && |query| == 3 + (if routing.Some? then 1 else 0) + (if quiet then 1 else 0)
  }

  lemma QueryAsks(guard: Guard, routing: Option<string>, quiet: bool)
    ensures AsksFor(GuardQuery(guard, routing) + if quiet then [QUIET_ERRORS] else [], guard, routing, quiet)
  {
    hide Decimal.Print;
    var last := if quiet then [QUIET_ERRORS] else [];
    var routed := if routing.Some? then [("routing", routing.value)] else [];
    assert GuardQuery(guard, routing) + last
        == [("if_seq_no", Decimal.Print(guard.seqNo))]
         + ([("if_primary_term", Decimal.Print(guard.primaryTerm))] + ([("refresh", "wait_for")] + (routed + last)));
    forall key { TailValue(routed, last, key); }
    forall key { FirstValue("refresh", "wait_for", routed + last, key); }
    forall key {
      FirstValue("if_primary_term", Decimal.Print(guard.primaryTerm), [("refresh", "wait_for")] + (routed + last), key);
    }
    forall key {
      FirstValue("if_seq_no", Decimal.Print(guard.seqNo),
        [("if_primary_term", Decimal.Print(guard.primaryTerm))] + ([("refresh", "wait_for")] + (routed + last)), key);
    }
  }

  lemma FirstValue(name: string, value: string, rest: seq<(string, string)>, key: string)
    ensures QueryValue([(name, value)] + rest, key) == if key == name then Some(value) else QueryValue(rest, key)
  {
    assert ([(name, value)] + rest)[1..] == rest;
  }

  lemma TailValue(a: seq<(string, string)>, b: seq<(string, string)>, key: string)
    requires |a| <= 1 && |b| <= 1
    ensures QueryValue(a + b, key)
         == if a != [] && a[0].0 == key then Some(a[0].1)
            else if b != [] && b[0].0 == key then Some(b[0].1) else None
  {
    if b != [] {
      assert b == [(b[0].0, b[0].1)] + [];
      FirstValue(b[0].0, b[0].1, [], key);
    }
    if a == [] {
      assert a + b == b;
    } else {
      assert a + b == [(a[0].0, a[0].1)] + b;
      FirstValue(a[0].0, a[0].1, b, key);
    }
  }

  /** A single guarded update is sent to exactly its document, with its guard and nothing else. */
  lemma UpdateAddresses(identity: Identity, body: Updates.Body, guard: Guard, quiet: bool)
    ensures var write := CompileUpdate(identity, body, guard, quiet);
            && Addresses(write.path, identity.index, "_update", identity.id)
            && AsksFor(write.query, guard, identity.routing, quiet)
            && write.op == Update && write.index == identity.index && write.id == identity.id
            && write.routing == identity.routing
  {
    hide GuardQuery, AsksFor, PercentCoding.DecodedText, PercentCoding.Encoded, Sequences.Parts;
    SegmentReads(identity.index);
    SegmentReads(identity.id);
    PathReads(identity.index, "_update", identity.id);
    QueryAsks(guard, identity.routing, quiet);
    var a, b := PercentCoding.Encoded(identity.index), PercentCoding.Encoded(identity.id);
    assert "/" + a + "/" + "_update" + "/" + b == "/" + a + "/_update/" + b;
  }

  lemma DeleteAddresses(identity: Identity, guard: Guard)
    ensures var write := CompileDelete(identity, guard);
            && Addresses(write.path, identity.index, "_doc", identity.id)
            && AsksFor(write.query, guard, identity.routing, false)
            && write.body == None
  {
    hide GuardQuery, AsksFor, PercentCoding.DecodedText, PercentCoding.Encoded, Sequences.Parts;
    SegmentReads(identity.index);
    SegmentReads(identity.id);
    PathReads(identity.index, "_doc", identity.id);
    QueryAsks(guard, identity.routing, false);
    var a, b := PercentCoding.Encoded(identity.index), PercentCoding.Encoded(identity.id);
    assert "/" + a + "/" + "_doc" + "/" + b == "/" + a + "/_doc/" + b;
    assert GuardQuery(guard, identity.routing) + [] == GuardQuery(guard, identity.routing);
  }

  // ---- What else can be framed. ----

  /** An insert goes out as an action that names its index, its id if it has one, and its routing; then its document. */
  lemma InsertFrames(write: CompiledWrite)
    requires write.op == Insert
    ensures var lines := BulkLines(write);
            var address := map["_index" := JStr(write.index)]
                         + (if write.id == "" then map[] else map["_id" := JStr(write.id)])
                         + (if write.routing.Some? then map["routing" := JStr(write.routing.value)] else map[]);
            && lines.Ok? && |lines.value| == (if write.body.Some? then 2 else 1)
            && Says(lines.value[0], JObj(map[(if write.id == "" then "index" else "create") := JObj(address)]))
            && (write.body.Some? ==> Says(lines.value[1], write.body.value))
  {
    hide Serialize, Says;
    var address := map["_index" := JStr(write.index)]
                 + (if write.id == "" then map[] else map["_id" := JStr(write.id)])
                 + (if write.routing.Some? then map["routing" := JStr(write.routing.value)] else map[]);
    var meta := WithRouting(IndexMeta(write), write);
    assert (if write.id == "" then meta else meta["_id" := JStr(write.id)]) == address;
    LineSays(JObj(map[(if write.id == "" then "index" else "create") := JObj(address)]));
    if write.body.Some? {
      LineSays(write.body.value);
    }
  }

  /** A write cannot be framed exactly when its operation is unknown, or it must be guarded and its guard cannot be read. */
  lemma FramesExactly(write: CompiledWrite)
    ensures BulkLines(write).Err? <==>
              || write.op.Unknown?
              || ((write.op.Update? || write.op.Delete?)
                  && (QueryU64(write, "if_seq_no").None? || QueryU64(write, "if_primary_term").None?))
    ensures BulkLines(write).Err? ==> BulkLines(write) == Err(if write.op.Unknown? then UnknownOp else Unguarded)
  {
    hide QueryU64, Serialize;
  }
}

/**
  Which schema the table chunks of a store have. The converter numbers its batches by its own count,
  the store by its chunks, and the two differ when documents arrived first.
 */
module StoreSchemas {
  import opened Wrappers
  import opened Values
  import opened Columns
  import opened Converter
  import opened Spill
  import opened Store
  import opened StoreLoop
  import opened StoreRuns

  // ---- Chunks and payloads. ----

  /** The batches of rows among the accepted payloads. */
  function RowsIn(log: seq<Payload>): seq<seq<Row>> {
    if log == [] then []
    else
      var last := log[|log| - 1];
      RowsIn(log[..|log| - 1]) + if last.RowsPayload? then [last.rows] else []
  }

  lemma {:induction false} RowsInNone(log: seq<Payload>)
    ensures RowsIn(log) == [] <==> Rowless(log)
    decreases |log|
  {
    if log != [] {
      RowsInNone(log[..|log| - 1]);
      assert log == log[..|log| - 1] + [log[|log| - 1]];
    }
  }

  lemma {:induction false} RowsInOne(log: seq<Payload>, i: nat)
    requires i < |log| && log[i].RowsPayload? && |RowsIn(log)| == 1
    ensures FirstOfRows(log, i) && RowsIn(log) == [log[i].rows]
    decreases |log|
  {
    var n := |log| - 1;
    RowsInNone(log[..n]);
    if i < n {
      RowsInOne(log[..n], i);
      assert log[..n][..i] == log[..i];
    }
  }

  lemma RowsInGrows(log: seq<Payload>, payload: Payload)
    ensures RowsIn(log + [payload]) == RowsIn(log) + if payload.RowsPayload? then [payload.rows] else []
    ensures forall i | 0 <= i < |log| :: FirstOfRows(log + [payload], i) <==> FirstOfRows(log, i)
  {
    assert (log + [payload])[..|log|] == log;
    assert forall i | 0 <= i < |log| :: (log + [payload])[..i] == log[..i];
  }

  /** The dictionaries the record of a chunk was built with: a first batch that is not the first chunk never gets any. */
  function DictFor(conv: Conv, log: seq<Payload>, i: nat): seq<bool> {
    if i > 0 && FirstOfRows(log, i) then NoDict(|conv.kinds|) else InForce(conv)
  }

  ghost predicate RecordPlaced(setting: Setting, conv: Conv, log: seq<Payload>, i: nat, record: Record)
    requires i < |log|
  {
    log[i].RowsPayload? && record == BatchOf(conv.fields, conv.kinds, DictFor(conv, log, i), log[i].rows, setting.show)
  }

  /** Chunk and payload go together, and a record in memory is its payload's rows under the kinds in force. */
  ghost predicate Placed(setting: Setting, w: World) {
    && |w.store.chunks| == |w.log| && w.fed == RowsIn(w.log)
    && forall i | 0 <= i < |w.log| && w.store.chunks[i].body.Table? ::
         w.conv.Some? && RecordPlaced(setting, w.conv.value, w.log, i, w.store.chunks[i].body.record)
  }

  // ---- Each payload keeps that. ----

  lemma MovedOutPlaced(setting: Setting, w: World, n: World)
    requires Placed(setting, w) && OnlyMovesOut(w.store, n.store)
    requires n.log == w.log && n.fed == w.fed && n.conv == w.conv
    ensures Placed(setting, n)
  {
    hide RecordPlaced;
  }

  /** A record in memory after a turn is the new one, a re-encoded one, or one that was there before. */
  lemma RecordsAfterTurn(
    s: Store<Record, RowView>, n: Store<Record, RowView>, a: Admitted<Record, RowView>,
    after: Store<Record, RowView>, i: nat)
    requires OnlyMovesOut(s, n) && OnlyMovesOut(Published(n, a), after)
    requires i < |after.chunks| && after.chunks[i].body.Table?
    ensures |after.chunks| == |s.chunks| + 1
    ensures i == |s.chunks| ==> after.chunks[i].body == a.body
    ensures i < |s.chunks| ==> s.chunks[i].body.Table?
    ensures i < |s.chunks| ==>
              after.chunks[i].body == if i < |a.reencoded| then Table(a.reencoded[i]) else s.chunks[i].body
  {
  }

  /** The batch just converted, under the kinds and dictionaries now in force; and what replaces the one before. */
  lemma ConversionPlaces(conv: Conv, shown: seq<Record>, fed: seq<seq<Row>>, rows: seq<Row>, show: Value -> string)
    requires Consistent(conv, shown, fed, show) && conv.sampleBatches == SAMPLE_BATCHES
    ensures var (next, converted) := ConvertStep(conv, rows, show);
            && converted.batch == BatchOf(next.fields, next.kinds, InForce(next), rows, show)
            && next.fields == conv.fields && (fed != [] ==> next.kinds == conv.kinds)
            && (fed == [] ==> InForce(next) == NoDict(|next.kinds|))
            && (|fed| == 1 ==> InForce(conv) == NoDict(|conv.kinds|))
            && (|fed| >= 2 ==> InForce(next) == InForce(conv))
            && (converted.reencoded != [] ==> (|fed| == 1
                  && converted.reencoded == [BatchOf(next.fields, next.kinds, InForce(next), fed[0], show)]))
            && (|fed| == 1 && converted.reencoded == [] ==>
                  BatchOf(next.fields, next.kinds, InForce(next), fed[0], show)
                  == BatchOf(next.fields, next.kinds, NoDict(|next.kinds|), fed[0], show))
  {
    hide Prepared, BatchOf, Consistent, ColumnsOf;
    ConsistentShape(conv, shown, fed, show);
    PreparedIsReady(conv, rows);
    ConvertShape(conv, rows, show);
    ConversionShows(conv, shown, fed, rows, show);
    var (next, converted) := ConvertStep(conv, rows, show);
    if |fed| == 1 {
      ChunkIsBatch(next, Shown(shown, converted), fed + [rows], show, 0);
      if converted.reencoded == [] {
        ChunkIsBatch(conv, shown, fed, show, 0);
        assert Shown(shown, converted)[0] == shown[0];
      }
    }
  }

  lemma ChunkIsBatch(conv: Conv, shown: seq<Record>, fed: seq<seq<Row>>, show: Value -> string, i: nat)
    requires Consistent(conv, shown, fed, show) && i < |fed|
    ensures |shown| == |fed| && shown[i] == BatchOf(conv.fields, conv.kinds, InForce(conv), fed[i], show)
  {
  }

  lemma RowsPlaced(setting: Setting, w: World, rows: seq<Row>, weather: Weather)
    requires Converting(setting, w) && Placed(setting, w) && rows != []
    ensures Placed(setting, TakeRows(setting, w, rows, weather))
  {
    hide ConvertStep, Consistent, Turn, Admitting, BatchOf, InForce, RecordRows;
    var conv := ConverterFor(w, rows);
    ConverterConsistent(setting, w, rows);
    ConversionPlaces(conv, w.shown, w.fed, rows, setting.show);
    var (next, converted) := ConvertStep(conv, rows, setting.show);
    var a := AdmittedRows(setting, converted);
    var settled := SettledBy(setting, w.store.settled, Some(next));
    TurnMovesOut(FormatOf(setting), setting.policy, w.store, a, settled, weather);
    var n := Admitting(FormatOf(setting), setting.policy, w.store, a.bytes, weather.room, weather.admitIo, 0, false).0;
    var (store, ok) := Turn(FormatOf(setting), setting.policy, w.store, a, settled, weather);
    var after := TakeRows(setting, w, rows, weather);
    if ok {
      RowsInGrows(w.log, RowsPayload(rows));
      assert |after.store.chunks| == |after.log|;
      forall i | 0 <= i < |after.log| && store.chunks[i].body.Table?
        ensures RecordPlaced(setting, next, after.log, i, store.chunks[i].body.record)
      {
        RecordsAfterTurn(w.store, n.(settled := settled), a, store, i);
        RowPlaced(setting, w, rows, conv, i, store.chunks[i].body.record);
      }
    } else {
      MovedOutPlaced(setting, w, after);
    }
  }

  lemma RowPlaced(setting: Setting, w: World, rows: seq<Row>, conv: Conv, i: nat, record: Record)
    requires Placed(setting, w) && rows != [] && conv == ConverterFor(w, rows)
    requires Consistent(conv, w.shown, w.fed, setting.show) && conv.sampleBatches == SAMPLE_BATCHES
    requires w.fed != [] ==> w.conv == Some(conv)
    requires i <= |w.log|
    requires var converted := ConvertStep(conv, rows, setting.show).1;
             if i == |w.log| then record == converted.batch
             else w.store.chunks[i].body.Table?
                  && record == if i < |converted.reencoded| then converted.reencoded[i] else w.store.chunks[i].body.record
    ensures RecordPlaced(setting, ConvertStep(conv, rows, setting.show).0, w.log + [RowsPayload(rows)], i, record)
  {
    hide ConvertStep, Consistent, BatchOf, InForce;
    ConversionPlaces(conv, w.shown, w.fed, rows, setting.show);
    var log := w.log + [RowsPayload(rows)];
    RowsInGrows(w.log, RowsPayload(rows));
    RowsInNone(w.log);
    if i == |w.log| {
      assert log[..i] == w.log;
    } else {
      assert RecordPlaced(setting, w.conv.value, w.log, i, w.store.chunks[i].body.record);
      assert log[i] == w.log[i];
      if |w.fed| == 1 {
        RowsInOne(w.log, i);
      }
    }
  }

  lemma DocsPlaced(setting: Setting, w: World, views: seq<RowView>, payload: Payload, weather: Weather)
    requires Placed(setting, w) && !payload.RowsPayload?
    ensures Placed(setting, TakeDocs(setting, w, views, payload, weather))
  {
    hide Turn, Admitting, BatchOf, InForce, RecordRows;
    var a := AdmittedDocs(setting, views);
    var settled := SettledBy(setting, w.store.settled, w.conv);
    TurnMovesOut(FormatOf(setting), setting.policy, w.store, a, settled, weather);
    var n := Admitting(FormatOf(setting), setting.policy, w.store, a.bytes, weather.room, weather.admitIo, 0, false).0;
    var (store, ok) := Turn(FormatOf(setting), setting.policy, w.store, a, settled, weather);
    var after := TakeDocs(setting, w, views, payload, weather);
    if ok {
      RowsInGrows(w.log, payload);
      forall i | 0 <= i < |after.log| && store.chunks[i].body.Table?
        ensures w.conv.Some? && RecordPlaced(setting, w.conv.value, after.log, i, store.chunks[i].body.record)
      {
        RecordsAfterTurn(w.store, n.(settled := settled), a, store, i);
        assert RecordPlaced(setting, w.conv.value, w.log, i, w.store.chunks[i].body.record);
      }
    } else {
      MovedOutPlaced(setting, w, after);
    }
  }

  lemma TakePlaced(setting: Setting, w: World, payload: Payload, weather: Weather)
    requires Converting(setting, w) && Placed(setting, w)
    ensures Placed(setting, Take(setting, w, payload, weather))
  {
    hide Placed, Converting, TakeRows, TakeDocs;
    if w.running && !IsRowless(payload) {
      match payload
      case RowsPayload(rows) => RowsPlaced(setting, w, rows, weather);
      case DocsPayload(docs) => DocsPlaced(setting, w, DocViews(docs), payload, weather);
      case PairsPayload(pairs) => DocsPlaced(setting, w, PairViews(pairs), payload, weather);
      case _ =>
    }
  }

  lemma {:induction false} RunPlaced(setting: Setting, fields: Option<seq<FieldDef>>, payloads: seq<(Payload, Weather)>)
    requires RoundTrips(setting.codec)
    ensures Placed(setting, Run(setting, Opened(fields), payloads))
    decreases |payloads|
  {
    hide Take, RoundTrips, Converting, StoreRuns.Faithful, FirstRecord, RecordPlaced;
    if payloads != [] {
      var last := |payloads| - 1;
      RunPlaced(setting, fields, payloads[..last]);
      StoreRuns.RunKeeps(setting, fields, payloads[..last]);
      TakePlaced(setting, Run(setting, Opened(fields), payloads[..last]), payloads[last].0, payloads[last].1);
    }
  }

  // ---- The main result. ----

  lemma SchemaWithout(fields: seq<FieldDef>, kinds: seq<ColKind>, dict: seq<bool>)
    requires DictOnStrings(kinds, dict)
    ensures SchemaFor(fields, kinds, NoDict(|kinds|)) == SchemaFor(fields, kinds, dict) <==> true !in dict
  {
    var plain, encoded := SchemaFor(fields, kinds, NoDict(|kinds|)), SchemaFor(fields, kinds, dict);
    if true in dict {
      var c :| 0 <= c < |dict| && dict[c];
      assert plain[c] != encoded[c];
    } else {
      assert forall c | 0 <= c < |kinds| :: !UsesDict(kinds, dict, c);
      assert plain == encoded;
    }
  }

  /** The first batch of rows came after other payloads, is still in memory, and was never re-encoded. */
  predicate LeftBehind(w: World, i: nat) {
    i > 0 && FirstOfRows(w.log, i) && i < |w.store.chunks| && w.store.chunks[i].body.Table?
  }

  predicate OneSchema(w: World) {
    forall i | 0 <= i < |w.store.chunks| && w.store.chunks[i].body.Table? ::
      w.conv.Some? && Some(w.store.chunks[i].body.record.schema) == w.conv.value.schema
  }

  lemma RecordSchema(setting: Setting, w: World, i: nat)
    requires Converting(setting, w) && Placed(setting, w)
    requires i < |w.store.chunks| && w.store.chunks[i].body.Table?
    ensures w.conv.Some? && (
              Some(w.store.chunks[i].body.record.schema) == w.conv.value.schema
              <==> !LeftBehind(w, i) || true !in InForce(w.conv.value))
  {
    hide Consistent;
    var conv, record := w.conv.value, w.store.chunks[i].body.record;
    assert RecordPlaced(setting, conv, w.log, i, record);
    ConsistentShape(conv, w.shown, w.fed, setting.show);
    BatchIsWhole(conv.fields, conv.kinds, DictFor(conv, w.log, i), w.log[i].rows, setting.show);
    assert record.schema == SchemaFor(conv.fields, conv.kinds, DictFor(conv, w.log, i));
    assert w.fed != [];
    SchemaWithout(conv.fields, conv.kinds, InForce(conv));
  }

  /**
    The table chunks in memory all have the converter's schema exactly unless the first batch of rows
    was not the first chunk, a dictionary was chosen, and that batch is still in memory.
   */
  lemma OneSchemaExactly(setting: Setting, fields: Option<seq<FieldDef>>, payloads: seq<(Payload, Weather)>)
    requires RoundTrips(setting.codec)
    ensures var w := Run(setting, Opened(fields), payloads);
            OneSchema(w) <==> !(exists i :: LeftBehind(w, i) && w.conv.Some? && true in InForce(w.conv.value))
  {
    hide Run, Converting, StoreRuns.Faithful, FirstRecord, Opened;
    var w := Run(setting, Opened(fields), payloads);
    RunPlaced(setting, fields, payloads);
    StoreRuns.RunKeeps(setting, fields, payloads);
    forall i | 0 <= i < |w.store.chunks| && w.store.chunks[i].body.Table?
      ensures w.conv.Some? && (Some(w.store.chunks[i].body.record.schema) == w.conv.value.schema
              <==> !LeftBehind(w, i) || true !in InForce(w.conv.value))
    {
      RecordSchema(setting, w, i);
    }
  }

  // ---- A run that splits the schemas. ----

  /** A setting in which everything fits: nothing weighs anything and nothing is ever spilled. */
  function Roomy(show: Value -> string, schemaId: Schema -> nat, codec: Codec<Record>): Setting {
    Setting(show, _ => 0, _ => 0, schemaId, codec, Policy(0, 100, None))
  }

  lemma {:induction false} ResidentReplaced(chunks: seq<Chunk<Record, RowView>>, reencoded: seq<Record>)
    ensures ResidentRows(ReplacedAll(chunks, reencoded)) == ResidentRows(chunks)
    decreases |chunks|
  {
    if chunks != [] {
      var last := |chunks| - 1;
      ResidentReplaced(chunks[..last], reencoded);
      assert ReplacedAll(chunks, reencoded)[..last] == ReplacedAll(chunks[..last], reencoded);
    }
  }

  lemma CalmTurn(
    setting: Setting, s: Store<Record, RowView>, a: Admitted<Record, RowView>, settled: Option<nat>, weather: Weather)
    requires setting.policy == Policy(0, 100, None) && weather.room == [true]
    requires s.residentBytes == 0 && a.bytes == 0 && !a.body.Spilled? && ResidentRows(s.chunks) + a.rows <= 100
    ensures var (n, ok) := Turn(FormatOf(setting), setting.policy, s, a, settled, weather);
            && ok && n.residentBytes == 0 && n.chunks == Published(s, a).chunks
            && ResidentRows(n.chunks) == ResidentRows(s.chunks) + a.rows
  {
    var ready := Reserved(s, 0, false).(settled := settled);
    var n := Published(ready, a);
    ResidentReplaced(s.chunks, a.reencoded);
    assert n.chunks[..|n.chunks| - 1] == ReplacedAll(s.chunks, a.reencoded);
    assert !Over(setting.policy, n);
  }

  /** Sixteen equal strings and one more: the fewest rows for which a dictionary pays. */
  function Sixteen(): seq<Row> {
    seq(16, _ => [Str("x")])
  }

  lemma {:induction false} StringsFold(cells: seq<Value>)
    requires forall k | 0 <= k < |cells| :: cells[k] == Str("x")
    ensures Folded(StrKind, cells) == StrKind
    decreases |cells|
  {
    if cells != [] {
      StringsFold(cells[..|cells| - 1]);
    }
  }

  lemma DictionaryChosen(show: Value -> string)
    ensures var fields := [FieldDef("a", LStr)];
            var first := ConvertStep(Fresh(fields, SAMPLE_BATCHES), Sixteen(), show).0;
            true in InForce(ConvertStep(first, [[Str("x")]], show).0)
  {
    hide ConvertStep, SampleCap;
    var fields := [FieldDef("a", LStr)];
    var start, batches := Fresh(fields, SAMPLE_BATCHES), [Sixteen(), [[Str("x")]]];
    assert [Sixteen()][..0] == [] && batches[..1] == [Sixteen()] && [] + [Sixteen()] == [Sixteen()];
    StreamStep(start, [], Sixteen(), show);
    StreamStep(start, [Sixteen()], [[Str("x")]], show);
    var first := ConvertStep(start, Sixteen(), show).0;
    var second := ConvertStep(first, [[Str("x")]], show).0;
    assert batches == [Sixteen()] + [[[Str("x")]]];
    DictionaryExactly(fields, SAMPLE_BATCHES, batches, show, 0);
    assert HasDictionaryExactly(second, batches, 0);
    KindsKept(start, first, show);
    CountsOfSample();
  }

  /** The kind decided on the first batch is the strings'. */
  lemma KindsKept(start: Conv, first: Conv, show: Value -> string)
    requires start == Fresh([FieldDef("a", LStr)], SAMPLE_BATCHES) && first == ConvertStep(start, Sixteen(), show).0
    ensures ConvertStep(first, [[Str("x")]], show).0.kinds == [StrKind]
  {
    hide BatchOf, LostIn;
    StringsFold(Converter.Cells(Sixteen(), 0));
    assert Decided(start.fields, Sixteen()) == [StrKind];
    ConvertShape(start, Sixteen(), show);
    PreparedIsReady(first, [[Str("x")]]);
    ConvertShape(first, [[Str("x")]], show);
  }

  lemma CountsOfSample()
    ensures var batches := [Sixteen(), [[Str("x")]]];
            RowCount(batches) == 17 && |Distinct(batches, 0)| == 1 && AlwaysFew(batches, 0)
  {
    var batches := [Sixteen(), [[Str("x")]]];
    assert [] + [Sixteen()] == [Sixteen()] && [Sixteen()] + [[[Str("x")]]] == batches;
    CountsSnoc([], Sixteen(), 0);
    CountsSnoc([Sixteen()], [[Str("x")]], 0);
    assert Converter.Cells(Sixteen(), 0)[0] == Str("x");
    assert Strings(Converter.Cells(Sixteen(), 0)) == {"x"};
    assert Converter.Cells([[Str("x")]], 0) == [Str("x")];
    assert Strings(Converter.Cells([[Str("x")]], 0)) == {"x"};
    assert Distinct([Sixteen()], 0) == {"x"} && Distinct(batches, 0) == {"x"};
  }

  lemma RunSnoc(setting: Setting, w: World, init: seq<(Payload, Weather)>, payload: Payload, weather: Weather)
    ensures Run(setting, w, init + [(payload, weather)]) == Take(setting, Run(setting, w, init), payload, weather)
  {
    assert (init + [(payload, weather)])[..|init|] == init;
  }

  /** Still running, with this many rows in memory and nothing in the way. */
  predicate Calm(w: World, rows: nat) {
    w.running && w.store.residentBytes == 0 && ResidentRows(w.store.chunks) == rows <= 100
  }

  lemma CalmDocs(setting: Setting, w: World, docs: seq<Value>, weather: Weather, rows: nat)
    requires setting.policy == Policy(0, 100, None) && (forall v :: setting.sizeOfDocs(v) == 0) && weather.room == [true]
    requires Calm(w, rows) && docs != [] && rows + |docs| <= 100
    ensures var n := Take(setting, w, DocsPayload(docs), weather);
            && Calm(n, rows + |docs|) && n.conv == w.conv && n.fields == w.fields && n.log == w.log + [DocsPayload(docs)]
            && |n.store.chunks| == |w.store.chunks| + 1
  {
    hide Turn, ResidentRows;
    CalmTurn(setting, w.store, AdmittedDocs(setting, DocViews(docs)), SettledBy(setting, w.store.settled, w.conv), weather);
  }

  lemma CalmRows(setting: Setting, w: World, rows: seq<Row>, weather: Weather, before: nat)
    requires setting.policy == Policy(0, 100, None) && (forall r :: setting.sizeOf(r) == 0) && weather.room == [true]
    requires Calm(w, before) && rows != [] && before + |rows| <= 100
    requires var conv := ConverterFor(w, rows); Shape(conv, conv.batchesSeen) && |conv.pending| <= 1
    ensures var n := Take(setting, w, RowsPayload(rows), weather);
            && Calm(n, before + |rows|) && n.fields == w.fields && n.log == w.log + [RowsPayload(rows)]
            && n.conv == Some(ConvertStep(ConverterFor(w, rows), rows, setting.show).0)
            && |n.store.chunks| == |w.store.chunks| + 1
            && (forall i | 1 <= i < |w.store.chunks| :: n.store.chunks[i] == w.store.chunks[i])
            && n.store.chunks[|w.store.chunks|].body.Table?
  {
    hide Turn, ResidentRows, ConvertStep, RecordRows, Shape;
    var conv := ConverterFor(w, rows);
    BatchLength(conv, rows, setting.show);
    var (next, converted) := ConvertStep(conv, rows, setting.show);
    CalmTurn(setting, w.store, AdmittedRows(setting, converted), SettledBy(setting, w.store.settled, Some(next)), weather);
  }

  /** A document, then rows that earn a dictionary: two table chunks in memory, two schemas. */
  lemma DocsFirstSplitSchemas(show: Value -> string, schemaId: Schema -> nat, codec: Codec<Record>, weather: Weather)
    requires RoundTrips(codec) && weather.room == [true]
    ensures var w := Run(Roomy(show, schemaId, codec), Opened(Some([FieldDef("a", LStr)])),
                         [(DocsPayload([Null]), weather), (RowsPayload(Sixteen()), weather),
                          (RowsPayload([[Str("x")]]), weather)]);
            |w.store.chunks| == 3 && !OneSchema(w)
  {
    hide Take, ConvertStep, RoundTrips, InForce, OneSchema, ResidentRows, Run, Shape;
    var setting, fields := Roomy(show, schemaId, codec), [FieldDef("a", LStr)];
    var w0 := Opened(Some(fields));
    var p1 := [(DocsPayload([Null]), weather)];
    var p2 := p1 + [(RowsPayload(Sixteen()), weather)];
    var p3 := p2 + [(RowsPayload([[Str("x")]]), weather)];
    OpenedRuns(setting, w0);
    RunSnoc(setting, w0, [], DocsPayload([Null]), weather);
    RunSnoc(setting, w0, p1, RowsPayload(Sixteen()), weather);
    RunSnoc(setting, w0, p2, RowsPayload([[Str("x")]]), weather);
    assert [] + p1 == p1;
    var w1, w2, w3 := Run(setting, w0, p1), Run(setting, w0, p2), Run(setting, w0, p3);
    CalmDocs(setting, w0, [Null], weather, 0);
    FirstShape(fields, Sixteen(), show);
    CalmRows(setting, w1, Sixteen(), weather, 1);
    CalmRows(setting, w2, [[Str("x")]], weather, 17);
    DictionaryChosen(show);
    assert w3.log[..1] == [DocsPayload([Null])];
    assert LeftBehind(w3, 1);
    OneSchemaExactly(setting, Some(fields), p3);
    assert p3 == [(DocsPayload([Null]), weather), (RowsPayload(Sixteen()), weather), (RowsPayload([[Str("x")]]), weather)];
  }

  lemma OpenedRuns(setting: Setting, w: World)
    requires w.store == NewStore() && w.running
    ensures Run(setting, w, []) == w && Calm(w, 0)
  {
  }

  lemma FirstShape(fields: seq<FieldDef>, rows: seq<Row>, show: Value -> string)
    ensures var start := Fresh(fields, SAMPLE_BATCHES);
            var first := ConvertStep(start, rows, show).0;
            && start.batchesSeen == 0 && Shape(start, 0) && start.pending == []
            && first.batchesSeen == 1 && Shape(first, 1) && |first.pending| == 1
  {
    var start := Fresh(fields, SAMPLE_BATCHES);
    ConvertShape(start, rows, show);
    PreparedIsReady(start, rows);
  }

  lemma BatchLength(conv: Conv, rows: seq<Row>, show: Value -> string)
    requires Shape(conv, conv.batchesSeen) && |conv.pending| <= 1
    ensures ConvertStep(conv, rows, show).1.batch.rows == |rows|
    ensures |ConvertStep(conv, rows, show).1.reencoded| <= 1
  {
    ConvertShape(conv, rows, show);
    var next := ConvertStep(conv, rows, show).0;
    BatchIsWhole(next.fields, next.kinds, InForce(next), rows, show);
  }
}

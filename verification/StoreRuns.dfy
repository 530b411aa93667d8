/**
  The writer task from end to end: payloads of any kind, converted, admitted, published, re-encoded
  and spilled. At every moment the store holds exactly the rows of the payloads it accepted, as a
  reader sees them.
 */
module StoreRuns {
  import opened Wrappers
  import opened Values
  import opened Columns
  import opened Converter
  import opened Spill
  import opened Store
  import opened StoreLoop
  import Windows

  /** One row as a reader sees it. */
  datatype RowView = Cells(values: seq<Value>) | Doc(doc: Value) | Pair(key: Value, value: Value)

  datatype Payload =
    | RowsPayload(rows: seq<Row>)
    | DocsPayload(docs: seq<Value>)
    | PairsPayload(pairs: seq<(Value, Value)>)
    | GraphPayload(nodes: nat)
    | NoPayload

  /** What the model leaves open: texts, memory sizes, schema identity, the spill encoding. */
  datatype Setting = Setting(
    show: Value -> string,
    sizeOf: Record -> nat,
    sizeOfDocs: seq<RowView> -> nat,
    schemaId: Schema -> nat,
    codec: Codec<Record>,
    policy: Policy)

  /** `fields` is the declared table shape, if any; `fed` and `log` record what went in. */
  datatype World = World(
    store: Store<Record, RowView>,
    fields: Option<seq<FieldDef>>,
    conv: Option<Conv>,
    fed: seq<seq<Row>>,
    shown: seq<Record>,
    log: seq<Payload>,
    running: bool)

  // ---- Records as rows. ----

  function CellAt(column: Column, row: nat): Value {
    if row < Length(column) && WellFormed(column) then CellToValue(column, row) else Null
  }

  function RowAt(columns: seq<Column>, row: nat): RowView {
    Cells(seq(|columns|, c requires 0 <= c < |columns| => CellAt(columns[c], row)))
  }

  function RecordRows(record: Record): (rows: seq<RowView>)
    ensures |rows| == record.rows
    ensures forall k | 0 <= k < record.rows :: rows[k] == RowAt(record.columns, k)
  {
    seq(record.rows, k requires 0 <= k < record.rows => RowAt(record.columns, k))
  }

  function FormatOf(setting: Setting): Format<Record, RowView> {
    Format((r: Record) => RecordRows(r), (r: Record) => setting.schemaId(r.schema), setting.codec)
  }

  /** A table row under the column kinds: each cell as its column keeps it. */
  function ViewedRow(kinds: seq<ColKind>, row: Row, show: Value -> string): RowView {
    Cells(seq(|kinds|, c requires 0 <= c < |kinds| => Remains(kinds[c], CellOf(row, c), show)))
  }

  function ViewedRows(kinds: seq<ColKind>, rows: seq<Row>, show: Value -> string): (views: seq<RowView>)
    ensures |views| == |rows|
    ensures forall k | 0 <= k < |rows| :: views[k] == ViewedRow(kinds, rows[k], show)
  {
    seq(|rows|, k requires 0 <= k < |rows| => ViewedRow(kinds, rows[k], show))
  }

  lemma BatchRow(kinds: seq<ColKind>, dict: seq<bool>, rows: seq<Row>, show: Value -> string, k: nat)
    requires k < |rows|
    ensures RowAt(ColumnsOf(kinds, dict, rows, show), k) == ViewedRow(kinds, rows[k], show)
  {
    var columns := ColumnsOf(kinds, dict, rows, show);
    forall c | 0 <= c < |kinds| ensures CellAt(columns[c], k) == Remains(kinds[c], CellOf(rows[k], c), show) {
      DictionariesKeepCells(kinds, dict, dict, rows, show, c, k);
    }
  }

  /** A batch built from rows shows those rows under its kinds, whatever the dictionaries. */
  lemma BatchRows(fields: seq<FieldDef>, kinds: seq<ColKind>, dict: seq<bool>, rows: seq<Row>, show: Value -> string)
    ensures RecordRows(BatchOf(fields, kinds, dict, rows, show)) == ViewedRows(kinds, rows, show)
  {
    hide ColumnsOf, RowAt;
    BatchIsWhole(fields, kinds, dict, rows, show);
    forall k | 0 <= k < |rows|
      ensures RowAt(ColumnsOf(kinds, dict, rows, show), k) == ViewedRow(kinds, rows[k], show)
    {
      BatchRow(kinds, dict, rows, show, k);
    }
  }

  function DocViews(docs: seq<Value>): (views: seq<RowView>)
    ensures |views| == |docs|
  {
    seq(|docs|, k requires 0 <= k < |docs| => Doc(docs[k]))
  }

  function PairViews(pairs: seq<(Value, Value)>): (views: seq<RowView>)
    ensures |views| == |pairs|
  {
    seq(|pairs|, k requires 0 <= k < |pairs| => Pair(pairs[k].0, pairs[k].1))
  }

  function ViewOf(kinds: seq<ColKind>, payload: Payload, show: Value -> string): seq<RowView> {
    match payload
    case RowsPayload(rows) => ViewedRows(kinds, rows, show)
    case DocsPayload(docs) => DocViews(docs)
    case PairsPayload(pairs) => PairViews(pairs)
    case GraphPayload(_) => []
    case NoPayload => []
  }

  /** All the rows of the accepted payloads, in order. */
  function Views(kinds: seq<ColKind>, log: seq<Payload>, show: Value -> string): seq<RowView> {
    if log == [] then [] else Views(kinds, log[..|log| - 1], show) + ViewOf(kinds, log[|log| - 1], show)
  }

  // ---- The same, row by row. ----

  /** How many rows a payload holds. */
  function SizeOf(payload: Payload): nat {
    match payload
    case RowsPayload(rows) => |rows|
    case DocsPayload(docs) => |docs|
    case PairsPayload(pairs) => |pairs|
    case _ => 0
  }

  /** Where the rows of payload `i` begin: after those of all the payloads before it. */
  function Offset(log: seq<Payload>, i: nat): nat
    requires i <= |log|
  {
    if i == 0 then 0 else Offset(log, i - 1) + SizeOf(log[i - 1])
  }

  /** A table row shows in each column its own cell as the column's kind keeps it, and null past its end. */
  predicate ShowsRow(kinds: seq<ColKind>, row: Row, view: RowView, show: Value -> string) {
    && view.Cells? && |view.values| == |kinds|
    && forall c | 0 <= c < |kinds| :: view.values[c] == if c < |row| then Remains(kinds[c], row[c], show) else Null
  }

  predicate ShowsPayload(kinds: seq<ColKind>, payload: Payload, views: seq<RowView>, from: nat, show: Value -> string)
    requires from + SizeOf(payload) <= |views|
  {
    match payload
    case RowsPayload(rows) => forall k | 0 <= k < |rows| :: ShowsRow(kinds, rows[k], views[from + k], show)
    case DocsPayload(docs) => forall k | 0 <= k < |docs| :: views[from + k] == Doc(docs[k])
    case PairsPayload(pairs) => forall k | 0 <= k < |pairs| :: views[from + k] == Pair(pairs[k].0, pairs[k].1)
    case _ => true
  }

  /** These rows are those of the payloads, each payload's at its place, and no others. */
  predicate ShowsLog(kinds: seq<ColKind>, log: seq<Payload>, views: seq<RowView>, show: Value -> string) {
    && |views| == Offset(log, |log|)
    && forall i | 0 <= i < |log| ::
         Offset(log, i) + SizeOf(log[i]) <= |views| && ShowsPayload(kinds, log[i], views, Offset(log, i), show)
  }

  lemma {:induction false} OffsetOfPrefix(log: seq<Payload>, payload: Payload, i: nat)
    requires i <= |log|
    ensures Offset(log + [payload], i) == Offset(log, i)
  {
    if i > 0 {
      OffsetOfPrefix(log, payload, i - 1);
    }
  }

  lemma ViewOfShows(kinds: seq<ColKind>, payload: Payload, before: seq<RowView>, show: Value -> string)
    ensures |ViewOf(kinds, payload, show)| == SizeOf(payload)
    ensures ShowsPayload(kinds, payload, before + ViewOf(kinds, payload, show), |before|, show)
  {
  }

  lemma ShowsMore(kinds: seq<ColKind>, payload: Payload, views: seq<RowView>, more: seq<RowView>, from: nat, show: Value -> string)
    requires from + SizeOf(payload) <= |views| && ShowsPayload(kinds, payload, views, from, show)
    ensures ShowsPayload(kinds, payload, views + more, from, show)
  {
    hide ShowsRow;
  }

  /** The rows of the accepted payloads, put together batch by batch, show every payload row by row. */
  lemma {:induction false} ViewsShowLog(kinds: seq<ColKind>, log: seq<Payload>, show: Value -> string)
    ensures ShowsLog(kinds, log, Views(kinds, log, show), show)
    decreases |log|
  {
    hide ViewOf, ShowsPayload;
    if log != [] {
      var init, last := log[..|log| - 1], log[|log| - 1];
      var before := Views(kinds, init, show);
      assert log == init + [last];
      ViewsShowLog(kinds, init, show);
      ViewOfShows(kinds, last, before, show);
      OffsetOfPrefix(init, last, |init|);
      forall i | 0 <= i < |init|
        ensures Offset(log, i) + SizeOf(log[i]) <= |Views(kinds, log, show)|
        ensures ShowsPayload(kinds, log[i], Views(kinds, log, show), Offset(log, i), show)
      {
        OffsetOfPrefix(init, last, i);
        ShowsMore(kinds, init[i], before, ViewOf(kinds, last, show), Offset(init, i), show);
      }
    }
  }

  // ---- One payload. ----

  function ColumnName(i: nat): string {
    "col" + Decimal.Print(i)
  }

  function Synthesized(width: nat): seq<FieldDef> {
    seq(width, i requires 0 <= i < width => FieldDef(ColumnName(i), LOther))
  }

  /** A result without declared columns gets one text column per cell of its first row: col0, col1, ... */
  lemma SynthesizedNames(width: nat, i: nat)
    requires i < width
    ensures |Synthesized(width)| == width && Synthesized(width)[i].logical == LOther
    ensures var name := Synthesized(width)[i].name;
            |name| > 3 && name[..3] == "col" && Decimal.Canonical(name[3..]) && Decimal.Value(name[3..]) == i
  {
    hide Decimal.Print, Decimal.Value;
    Decimal.PrintThenValue(i);
    assert ColumnName(i)[3..] == Decimal.Print(i);
  }

  function ConverterFor(w: World, rows: seq<Row>): Conv
    requires rows != []
  {
    if w.conv.Some? then w.conv.value
    else Fresh(if w.fields.Some? then w.fields.value else Synthesized(|rows[0]|), SAMPLE_BATCHES)
  }

  predicate IsRowless(payload: Payload) {
    match payload
    case RowsPayload(rows) => rows == []
    case DocsPayload(docs) => docs == []
    case PairsPayload(pairs) => pairs == []
    case GraphPayload(_) => true
    case NoPayload => true
  }

  function AdmittedRows(setting: Setting, converted: Converted): Admitted<Record, RowView> {
    Admitted(converted.batch.rows, setting.sizeOf(converted.batch), Table(converted.batch), converted.reencoded)
  }

  function AdmittedDocs(setting: Setting, views: seq<RowView>): Admitted<Record, RowView> {
    Admitted(|views|, setting.sizeOfDocs(views), Docs(views), [])
  }

  /** The schema spilling goes by, once the converter has settled. */
  function SettledBy(setting: Setting, settled: Option<nat>, conv: Option<Conv>): Option<nat> {
    if conv.Some? && conv.value.batchesSeen >= conv.value.sampleBatches && conv.value.schema.Some?
    then Some(setting.schemaId(conv.value.schema.value)) else settled
  }

  ghost function TakeRows(setting: Setting, w: World, rows: seq<Row>, weather: Weather): World
    requires rows != []
  {
    var (next, converted) := ConvertStep(ConverterFor(w, rows), rows, setting.show);
    var a := AdmittedRows(setting, converted);
    var (store, ok) :=
      Turn(FormatOf(setting), setting.policy, w.store, a, SettledBy(setting, w.store.settled, Some(next)), weather);
    if ok then
      w.(store := store, conv := Some(next), fed := w.fed + [rows], shown := Shown(w.shown, converted),
         log := w.log + [RowsPayload(rows)])
    else w.(store := store, running := false)
  }

  ghost function TakeDocs(setting: Setting, w: World, views: seq<RowView>, payload: Payload, weather: Weather): World {
    var (store, ok) :=
      Turn(FormatOf(setting), setting.policy, w.store, AdmittedDocs(setting, views),
           SettledBy(setting, w.store.settled, w.conv), weather);
    if ok then w.(store := store, log := w.log + [payload]) else w.(store := store, running := false)
  }

  ghost function Take(setting: Setting, w: World, payload: Payload, weather: Weather): World {
    if !w.running || IsRowless(payload) then w
    else
      match payload
      case RowsPayload(rows) => TakeRows(setting, w, rows, weather)
      case DocsPayload(docs) => TakeDocs(setting, w, DocViews(docs), payload, weather)
      case PairsPayload(pairs) => TakeDocs(setting, w, PairViews(pairs), payload, weather)
      case GraphPayload(_) => w
      case NoPayload => w
  }

  function Opened(fields: Option<seq<FieldDef>>): World {
    World(NewStore(), fields, None, [], [], [], true)
  }

  ghost function Run(setting: Setting, w: World, payloads: seq<(Payload, Weather)>): World {
    if payloads == [] then w
    else
      var last := |payloads| - 1;
      Take(setting, Run(setting, w, payloads[..last]), payloads[last].0, payloads[last].1)
  }

  // ---- What is always true. ----

  function Kinds(w: World): seq<ColKind> {
    if w.conv.Some? then w.conv.value.kinds else []
  }

  predicate Rowless(log: seq<Payload>) {
    forall i | 0 <= i < |log| :: !log[i].RowsPayload?
  }

  /** The first payload of rows. */
  predicate FirstOfRows(log: seq<Payload>, i: nat) {
    i < |log| && log[i].RowsPayload? && Rowless(log[..i])
  }

  predicate RowsOnlyAfter(w: World) {
    w.conv.None? ==> Rowless(w.log)
  }

  /** Converter and history agree, and what was fed to it is what the log holds of rows. */
  ghost predicate Converting(setting: Setting, w: World) {
    && (w.conv.None? ==> w.fed == [] && w.shown == [])
    && (w.conv.Some? ==> w.fed != [] && w.conv.value.sampleBatches == SAMPLE_BATCHES
                         && Consistent(w.conv.value, w.shown, w.fed, setting.show))
    && RowsOnlyAfter(w)
  }

  /** While the sample is still open, every resident record is the one batch converted so far. */
  ghost predicate FirstRecord(store: Store<Record, RowView>, fed: seq<seq<Row>>, shown: seq<Record>) {
    |fed| < SAMPLE_BATCHES ==>
      forall i | 0 <= i < |store.chunks| && store.chunks[i].body.Table? ::
        |fed| == 1 && |shown| == 1 && RecordRows(store.chunks[i].body.record) == RecordRows(shown[0])
  }

  ghost predicate Faithful(setting: Setting, w: World) {
    && Agrees(FormatOf(setting), w.store, Views(Kinds(w), w.log, setting.show))
    && Books(w.store, 0)
  }

  ghost predicate Good(setting: Setting, w: World) {
    Converting(setting, w) && FirstRecord(w.store, w.fed, w.shown) && Faithful(setting, w)
  }

  // ---- Views. ----

  lemma ViewsSnoc(kinds: seq<ColKind>, log: seq<Payload>, payload: Payload, show: Value -> string)
    ensures Views(kinds, log + [payload], show) == Views(kinds, log, show) + ViewOf(kinds, payload, show)
  {
    assert (log + [payload])[..|log|] == log;
  }

  lemma {:induction false} ViewsIgnoreKinds(a: seq<ColKind>, b: seq<ColKind>, log: seq<Payload>, show: Value -> string)
    requires Rowless(log)
    ensures Views(a, log, show) == Views(b, log, show)
  {
    if log != [] {
      ViewsIgnoreKinds(a, b, log[..|log| - 1], show);
    }
  }

  // ---- What a conversion hands over. ----

  lemma FreshConsistent(fields: seq<FieldDef>, show: Value -> string)
    ensures Consistent(Fresh(fields, SAMPLE_BATCHES), [], [], show)
  {
  }

  /** One conversion, seen from the store: the batch shows its rows, and the history stays consistent. */
  lemma ConversionShows(conv: Conv, shown: seq<Record>, fed: seq<seq<Row>>, rows: seq<Row>, show: Value -> string)
    requires Consistent(conv, shown, fed, show)
    ensures var (next, converted) := ConvertStep(conv, rows, show);
            && Consistent(next, Shown(shown, converted), fed + [rows], show)
            && next.sampleBatches == conv.sampleBatches
            && (fed != [] ==> next.kinds == conv.kinds)
            && RecordRows(converted.batch) == ViewedRows(next.kinds, rows, show)
            && (|fed| + 1 != conv.sampleBatches ==> converted.reencoded == [])
            && |converted.reencoded| <= |fed|
  {
    hide Prepared, BatchOf, ConvertStep, Consistent, Converter.Faithful, ViewedRows, Shape;
    ConsistentShape(conv, shown, fed, show);
    ConvertShape(conv, rows, show);
    PreparedIsReady(conv, rows);
    ConvertShows(conv, shown, fed, rows, show);
    var (next, converted) := ConvertStep(conv, rows, show);
    BatchRows(next.fields, next.kinds, InForce(next), rows, show);
  }

  lemma ConsistentShape(conv: Conv, shown: seq<Record>, fed: seq<seq<Row>>, show: Value -> string)
    requires Consistent(conv, shown, fed, show)
    ensures Shape(conv, |fed|) && Shape(conv, conv.batchesSeen) && conv.batchesSeen == |fed| && |shown| == |fed|
    ensures |fed| < conv.sampleBatches ==> conv.pending == shown
  {
  }

  /** A shown record has the rows it was fed. */
  lemma ShownRows(conv: Conv, shown: seq<Record>, fed: seq<seq<Row>>, show: Value -> string, i: nat)
    requires Consistent(conv, shown, fed, show) && i < |fed|
    ensures i < |shown| && RecordRows(shown[i]) == ViewedRows(conv.kinds, fed[i], show)
  {
    BatchRows(conv.fields, conv.kinds, InForce(conv), fed[i], show);
  }

  /** Re-encoding keeps the rows of the one record handed out before. */
  lemma ReencodedRows(conv: Conv, shown: seq<Record>, fed: seq<seq<Row>>, rows: seq<Row>, show: Value -> string)
    requires Consistent(conv, shown, fed, show) && |fed| == 1
    ensures var converted := ConvertStep(conv, rows, show).1;
            |shown| == 1 && (converted.reencoded != [] ==> RecordRows(converted.reencoded[0]) == RecordRows(shown[0]))
  {
    hide Prepared, BatchOf, ConvertStep, Consistent, ViewedRows, RecordRows;
    ConsistentShape(conv, shown, fed, show);
    ConversionShows(conv, shown, fed, rows, show);
    var (next, converted) := ConvertStep(conv, rows, show);
    ShownRows(conv, shown, fed, show, 0);
    ShownRows(next, Shown(shown, converted), fed + [rows], show, 0);
    if converted.reencoded != [] {
      assert Shown(shown, converted)[0] == converted.reencoded[0];
    }
  }

  // ---- Each payload keeps everything. ----

  lemma SameRowsFor(
    setting: Setting, w: World, rows: seq<Row>, n: Store<Record, RowView>, conv: Conv)
    requires Consistent(conv, w.shown, w.fed, setting.show) && conv.sampleBatches == SAMPLE_BATCHES
    requires FirstRecord(w.store, w.fed, w.shown) && OnlyMovesOut(w.store, n)
    ensures SameRows(FormatOf(setting), n, ConvertStep(conv, rows, setting.show).1.reencoded)
  {
    hide Prepared, BatchOf, ConvertStep, Consistent, RecordRows;
    ConsistentShape(conv, w.shown, w.fed, setting.show);
    ConversionShows(conv, w.shown, w.fed, rows, setting.show);
    var converted := ConvertStep(conv, rows, setting.show).1;
    if converted.reencoded != [] {
      ReencodedRows(conv, w.shown, w.fed, rows, setting.show);
    }
  }

  /** The converter a batch of rows meets, and what was fed to it. */
  lemma ConverterConsistent(setting: Setting, w: World, rows: seq<Row>)
    requires Converting(setting, w) && rows != []
    ensures var conv := ConverterFor(w, rows);
            && Consistent(conv, w.shown, w.fed, setting.show) && conv.sampleBatches == SAMPLE_BATCHES
            && (w.fed != [] ==> conv.kinds == Kinds(w))
            && (w.fed == [] ==> Rowless(w.log))
  {
    if w.conv.None? {
      FreshConsistent(if w.fields.Some? then w.fields.value else Synthesized(|rows[0]|), setting.show);
    }
  }

  lemma TurnMovesOut(
    format: Format<Record, RowView>, policy: Policy, s: Store<Record, RowView>, a: Admitted<Record, RowView>,
    settled: Option<nat>, weather: Weather)
    ensures OnlyMovesOut(s, Admitting(format, policy, s, a.bytes, weather.room, weather.admitIo, 0, false).0)
    ensures Turn(format, policy, s, a, settled, weather).1 ==>
              var n := Admitting(format, policy, s, a.bytes, weather.room, weather.admitIo, 0, false).0;
              OnlyMovesOut(Published(n.(settled := settled), a), Turn(format, policy, s, a, settled, weather).0)
    ensures !Turn(format, policy, s, a, settled, weather).1 ==> OnlyMovesOut(s, Turn(format, policy, s, a, settled, weather).0)
  {
    hide Admitting, HotWindow;
    AdmittingMovesOut(format, policy, s, a.bytes, weather.room, weather.admitIo, 0, false);
    var (n, ok) := Admitting(format, policy, s, a.bytes, weather.room, weather.admitIo, 0, false);
    if ok {
      HotWindowMovesOut(format, policy, Published(n.(settled := settled), a), weather.windowIo, 0);
    }
  }

  /** The first batch of rows is the only record in memory; documents bring none. */
  lemma FirstRecordAfter(
    w: World, n: Store<Record, RowView>, a: Admitted<Record, RowView>, after: Store<Record, RowView>,
    fed: seq<seq<Row>>, shown: seq<Record>)
    requires FirstRecord(w.store, w.fed, w.shown) && OnlyMovesOut(w.store, n) && OnlyMovesOut(Published(n, a), after)
    requires a.body.Table? ==> |fed| == |w.fed| + 1 && (w.fed == [] ==> shown == [a.body.record])
    requires a.body.Docs? ==> fed == w.fed && shown == w.shown && a.reencoded == []
    requires a.reencoded != [] ==> |fed| >= SAMPLE_BATCHES
    requires !a.body.Spilled?
    ensures FirstRecord(after, fed, shown)
  {
    hide RecordRows;
  }

  lemma RowsKeep(setting: Setting, w: World, rows: seq<Row>, weather: Weather)
    requires RoundTrips(setting.codec) && Good(setting, w) && rows != []
    ensures Good(setting, TakeRows(setting, w, rows, weather))
  {
    hide Prepared, BatchOf, ConvertStep, Consistent, RecordRows, Turn, Agrees, RoundTrips, Views, ViewedRows, Admitting;
    hide Books, SameRows;
    var conv := ConverterFor(w, rows);
    ConverterConsistent(setting, w, rows);
    ConversionShows(conv, w.shown, w.fed, rows, setting.show);
    ConsistentShape(conv, w.shown, w.fed, setting.show);
    var (next, converted) := ConvertStep(conv, rows, setting.show);
    var a := AdmittedRows(setting, converted);
    var settled := SettledBy(setting, w.store.settled, Some(next));
    var flat := Views(Kinds(w), w.log, setting.show);
    TurnMovesOut(FormatOf(setting), setting.policy, w.store, a, settled, weather);
    var n := Admitting(FormatOf(setting), setting.policy, w.store, a.bytes, weather.room, weather.admitIo, 0, false).0;
    SameRowsFor(setting, w, rows, n, conv);
    TurnKeeps(FormatOf(setting), setting.policy, w.store, a, settled, weather, flat, RecordRows(converted.batch));
    var (store, ok) := Turn(FormatOf(setting), setting.policy, w.store, a, settled, weather);
    if ok {
      RowsViews(setting, w, next, rows);
      FirstRecordAfter(w, n.(settled := settled), a, store, w.fed + [rows], Shown(w.shown, converted));
    }
  }

  lemma RowsViews(setting: Setting, w: World, next: Conv, rows: seq<Row>)
    requires w.fed != [] ==> next.kinds == Kinds(w)
    requires w.fed == [] ==> Rowless(w.log)
    ensures Views(next.kinds, w.log + [RowsPayload(rows)], setting.show)
         == Views(Kinds(w), w.log, setting.show) + ViewedRows(next.kinds, rows, setting.show)
  {
    hide ViewedRows;
    ViewsSnoc(next.kinds, w.log, RowsPayload(rows), setting.show);
    if w.fed == [] {
      ViewsIgnoreKinds(next.kinds, Kinds(w), w.log, setting.show);
    }
  }

  lemma DocsKeep(setting: Setting, w: World, views: seq<RowView>, payload: Payload, weather: Weather)
    requires RoundTrips(setting.codec) && Good(setting, w)
    requires !payload.RowsPayload? && ViewOf(Kinds(w), payload, setting.show) == views
    ensures Good(setting, TakeDocs(setting, w, views, payload, weather))
  {
    hide Consistent, RecordRows, Turn, Agrees, RoundTrips, Views, ViewOf, Admitting;
    var a := AdmittedDocs(setting, views);
    var settled := SettledBy(setting, w.store.settled, w.conv);
    TurnMovesOut(FormatOf(setting), setting.policy, w.store, a, settled, weather);
    var n := Admitting(FormatOf(setting), setting.policy, w.store, a.bytes, weather.room, weather.admitIo, 0, false).0;
    TurnKeeps(FormatOf(setting), setting.policy, w.store, a, settled, weather, Views(Kinds(w), w.log, setting.show), views);
    var (store, ok) := Turn(FormatOf(setting), setting.policy, w.store, a, settled, weather);
    if ok {
      ViewsSnoc(Kinds(w), w.log, payload, setting.show);
      FirstRecordAfter(w, n.(settled := settled), a, store, w.fed, w.shown);
    }
  }

  lemma TakeKeeps(setting: Setting, w: World, payload: Payload, weather: Weather)
    requires RoundTrips(setting.codec) && Good(setting, w)
    ensures Good(setting, Take(setting, w, payload, weather))
  {
    hide Good, TakeRows, TakeDocs, RoundTrips;
    if w.running && !IsRowless(payload) {
      match payload
      case RowsPayload(rows) => RowsKeep(setting, w, rows, weather);
      case DocsPayload(docs) => DocsKeep(setting, w, DocViews(docs), payload, weather);
      case PairsPayload(pairs) => DocsKeep(setting, w, PairViews(pairs), payload, weather);
      case _ =>
    }
  }

  lemma OpenedGood(setting: Setting, fields: Option<seq<FieldDef>>)
    ensures Good(setting, Opened(fields))
  {
  }

  lemma {:induction false} RunKeeps(setting: Setting, fields: Option<seq<FieldDef>>, payloads: seq<(Payload, Weather)>)
    requires RoundTrips(setting.codec)
    ensures Good(setting, Run(setting, Opened(fields), payloads))
    decreases |payloads|
  {
    hide Good, Take, RoundTrips, Opened;
    OpenedGood(setting, fields);
    if payloads != [] {
      var last := |payloads| - 1;
      RunKeeps(setting, fields, payloads[..last]);
      TakeKeeps(setting, Run(setting, Opened(fields), payloads[..last]), payloads[last].0, payloads[last].1);
    }
  }

  // ---- What was accepted. ----

  /** The payloads that hold rows, in order. */
  function WithRows(payloads: seq<(Payload, Weather)>): seq<Payload> {
    if payloads == [] then []
    else
      var last := |payloads| - 1;
      WithRows(payloads[..last]) + if SizeOf(payloads[last].0) == 0 then [] else [payloads[last].0]
  }

  /** The log is what came in: all of it while the writer runs, and what came before it stopped otherwise. */
  lemma {:induction false} LogIsInput(setting: Setting, fields: Option<seq<FieldDef>>, payloads: seq<(Payload, Weather)>)
    ensures var w := Run(setting, Opened(fields), payloads);
            w.log <= WithRows(payloads) && (w.running ==> w.log == WithRows(payloads))
    decreases |payloads|
  {
    hide Turn, ConvertStep;
    if payloads != [] {
      LogIsInput(setting, fields, payloads[..|payloads| - 1]);
    }
  }

  // ---- The first batch of rows. ----

  /** One kind per declared field, or per cell of the first row; and a kind that is not Text loses nothing of these rows. */
  ghost predicate MadeForRows(fields: Option<seq<FieldDef>>, kinds: seq<ColKind>, rows: seq<Row>, show: Value -> string) {
    && rows != [] && |kinds| == (if fields.Some? then |fields.value| else |rows[0]|)
    && forall c, k | 0 <= c < |kinds| && 0 <= k < |rows| && c < |rows[k]| ::
         kinds[c] != TextKind ==> Remains(kinds[c], rows[k][c], show) == Canonical(rows[k][c])
  }

  ghost predicate FirstRowsKept(setting: Setting, fields: Option<seq<FieldDef>>, w: World) {
    && w.fields == fields
    && (w.conv.Some? <==> !Rowless(w.log))
    && forall i: nat | FirstOfRows(w.log, i) :: MadeForRows(fields, Kinds(w), w.log[i].rows, setting.show)
  }

  /** The kinds the first batch fixes lose nothing of it. */
  lemma FirstKindsFit(fields: Option<seq<FieldDef>>, rows: seq<Row>, show: Value -> string)
    requires rows != []
    ensures var conv := Fresh(if fields.Some? then fields.value else Synthesized(|rows[0]|), SAMPLE_BATCHES);
            MadeForRows(fields, ConvertStep(conv, rows, show).0.kinds, rows, show)
  {
    hide ConvertStep, Remains, Folded;
    var conv := Fresh(if fields.Some? then fields.value else Synthesized(|rows[0]|), SAMPLE_BATCHES);
    KindsAreDecided(conv, rows, show);
    var kinds := Decided(conv.fields, rows);
    forall c, k | 0 <= c < |kinds| && 0 <= k < |rows| && c < |rows[k]| && kinds[c] != TextKind
      ensures Remains(kinds[c], rows[k][c], show) == Canonical(rows[k][c])
    {
      FixedKindFits(conv.fields[c].logical, Converter.Cells(rows, c));
      assert rows[k][c] == Converter.Cells(rows, c)[k];
      FittingComesBack(kinds[c], rows[k][c], show);
    }
  }

  lemma FirstOfGrown(log: seq<Payload>, payload: Payload)
    ensures Rowless(log + [payload]) <==> Rowless(log) && !payload.RowsPayload?
    ensures forall i: nat :: FirstOfRows(log + [payload], i) <==>
              FirstOfRows(log, i) || (i == |log| && payload.RowsPayload? && Rowless(log))
  {
    assert (log + [payload])[|log|] == payload;
    assert Rowless(log + [payload]) ==> Rowless(log) by {
      assert forall i | 0 <= i < |log| :: (log + [payload])[i] == log[i];
    }
    assert (log + [payload])[..|log|] == log;
    assert forall i | 0 <= i < |log| :: (log + [payload])[..i] == log[..i];
  }

  /** What the first batch of rows fixed stays fixed while payloads are added to the log. */
  lemma FirstRowsGrow(setting: Setting, fields: Option<seq<FieldDef>>, w: World, n: World, payload: Payload)
    requires FirstRowsKept(setting, fields, w)
    requires n.log == w.log + [payload] && n.fields == w.fields
    requires w.conv.Some? ==> n.conv.Some? && Kinds(n) == Kinds(w)
    requires if payload.RowsPayload? then n.conv.Some? else n.conv == w.conv
    requires payload.RowsPayload? && w.conv.None? ==> MadeForRows(fields, Kinds(n), payload.rows, setting.show)
    ensures FirstRowsKept(setting, fields, n)
  {
    hide MadeForRows, Kinds;
    FirstOfGrown(w.log, payload);
  }

  lemma TakeKeepsFirst(setting: Setting, fields: Option<seq<FieldDef>>, w: World, payload: Payload, weather: Weather)
    requires Good(setting, w) && FirstRowsKept(setting, fields, w)
    ensures FirstRowsKept(setting, fields, Take(setting, w, payload, weather))
  {
    hide ConvertStep, Consistent, Turn, Faithful, MadeForRows, FirstOfRows, Rowless, FirstRecord;
    var n := Take(setting, w, payload, weather);
    if n.log != w.log {
      if payload.RowsPayload? {
        ConverterConsistent(setting, w, payload.rows);
        ConversionShows(ConverterFor(w, payload.rows), w.shown, w.fed, payload.rows, setting.show);
        if w.conv.None? {
          FirstKindsFit(fields, payload.rows, setting.show);
        }
      }
      FirstRowsGrow(setting, fields, w, n, payload);
    }
  }

  lemma {:induction false} FirstRowsStayKept(setting: Setting, fields: Option<seq<FieldDef>>, payloads: seq<(Payload, Weather)>)
    requires RoundTrips(setting.codec)
    ensures FirstRowsKept(setting, fields, Run(setting, Opened(fields), payloads))
    decreases |payloads|
  {
    hide Good, Take, RoundTrips, MadeForRows;
    if payloads != [] {
      var last := |payloads| - 1;
      RunKeeps(setting, fields, payloads[..last]);
      FirstRowsStayKept(setting, fields, payloads[..last]);
      TakeKeepsFirst(setting, fields, Run(setting, Opened(fields), payloads[..last]), payloads[last].0, payloads[last].1);
    }
  }

  // ---- When spilling may begin. ----

  /** Spilling goes by the converter's schema once two batches of rows were converted, and not before. */
  ghost predicate SettledRight(setting: Setting, w: World) {
    && (|w.fed| < 2 ==> w.store.settled.None?)
    && (|w.fed| >= 2 ==>
          && w.conv.Some? && w.conv.value.schema.Some?
          && w.store.settled == Some(setting.schemaId(w.conv.value.schema.value)))
  }

  lemma TakeSettles(setting: Setting, w: World, payload: Payload, weather: Weather)
    requires Good(setting, w) && SettledRight(setting, w)
    ensures SettledRight(setting, Take(setting, w, payload, weather))
  {
    hide ConvertStep, Turn, Faithful, FirstRecord, Converter.Faithful, Views;
    if w.running && !IsRowless(payload) {
      match payload
      case RowsPayload(rows) => RowsSettle(setting, w, rows, weather);
      case DocsPayload(docs) => DocsSettle(setting, w, DocViews(docs), payload, weather);
      case PairsPayload(pairs) => DocsSettle(setting, w, PairViews(pairs), payload, weather);
      case _ =>
    }
  }

  lemma RowsSettle(setting: Setting, w: World, rows: seq<Row>, weather: Weather)
    requires Good(setting, w) && SettledRight(setting, w) && rows != []
    ensures SettledRight(setting, TakeRows(setting, w, rows, weather))
  {
    hide ConvertStep, Turn, Faithful, FirstRecord, Converter.Faithful, Views;
    var conv := ConverterFor(w, rows);
    ConverterConsistent(setting, w, rows);
    ConversionShows(conv, w.shown, w.fed, rows, setting.show);
    var (next, converted) := ConvertStep(conv, rows, setting.show);
    ConsistentShape(next, Shown(w.shown, converted), w.fed + [rows], setting.show);
    TurnSettles(FormatOf(setting), setting.policy, w.store, AdmittedRows(setting, converted),
      SettledBy(setting, w.store.settled, Some(next)), weather);
  }

  lemma DocsSettle(setting: Setting, w: World, views: seq<RowView>, payload: Payload, weather: Weather)
    requires Good(setting, w) && SettledRight(setting, w)
    ensures SettledRight(setting, TakeDocs(setting, w, views, payload, weather))
  {
    hide ConvertStep, Turn, Faithful, FirstRecord, Converter.Faithful, Views;
    TurnSettles(FormatOf(setting), setting.policy, w.store, AdmittedDocs(setting, views),
      SettledBy(setting, w.store.settled, w.conv), weather);
    if w.conv.Some? {
      ConsistentShape(w.conv.value, w.shown, w.fed, setting.show);
    }
  }

  lemma {:induction false} RunSettles(setting: Setting, fields: Option<seq<FieldDef>>, payloads: seq<(Payload, Weather)>)
    requires RoundTrips(setting.codec)
    ensures SettledRight(setting, Run(setting, Opened(fields), payloads))
    decreases |payloads|
  {
    hide Good, Take, RoundTrips;
    if payloads != [] {
      var last := |payloads| - 1;
      RunKeeps(setting, fields, payloads[..last]);
      RunSettles(setting, fields, payloads[..last]);
      TakeSettles(setting, Run(setting, Opened(fields), payloads[..last]), payloads[last].0, payloads[last].1);
    }
  }

  // ---- The main results. ----

  /**
    After any payloads, whatever was re-encoded, spilled or failed to spill: the store is a cache of
    exactly the rows it accepted, in order. A row of a table shows in each column its own cell as the
    column's kind keeps it, a document or a pair shows itself. The store accepted every payload with
    rows, up to the first one whose wait for room was cancelled.
   */
  lemma StoreHoldsTheStream(setting: Setting, fields: Option<seq<FieldDef>>, payloads: seq<(Payload, Weather)>)
    requires RoundTrips(setting.codec)
    ensures var w := Run(setting, Opened(fields), payloads);
            var rows := Views(Kinds(w), w.log, setting.show);
            && Agrees(FormatOf(setting), w.store, rows) && SpillSound(w.store.spill)
            && ShowsLog(Kinds(w), w.log, rows, setting.show)
            && w.log <= WithRows(payloads) && (w.running ==> w.log == WithRows(payloads))
  {
    hide ShowsLog;
    RunKeeps(setting, fields, payloads);
    LogIsInput(setting, fields, payloads);
    var w := Run(setting, Opened(fields), payloads);
    ViewsShowLog(Kinds(w), w.log, setting.show);
  }

  lemma RowShown(
    kinds: seq<ColKind>, log: seq<Payload>, views: seq<RowView>, show: Value -> string, i: nat, k: nat)
    requires ShowsLog(kinds, log, views, show) && i < |log| && log[i].RowsPayload? && k < |log[i].rows|
    ensures Offset(log, i) + k < |views| && ShowsRow(kinds, log[i].rows[k], views[Offset(log, i) + k], show)
  {
    hide ShowsRow, Offset;
    assert ShowsPayload(kinds, log[i], views, Offset(log, i), show);
  }

  /**
    The first batch of rows fixes one kind for each declared field, or for each cell of its first row
    when none are declared; and a column whose kind is not Text gives every cell of that batch back.
   */
  lemma FirstRowsComeBack(
    setting: Setting, fields: Option<seq<FieldDef>>, payloads: seq<(Payload, Weather)>, i: nat, k: nat, c: nat)
    requires RoundTrips(setting.codec)
    requires var w := Run(setting, Opened(fields), payloads);
             FirstOfRows(w.log, i) && k < |w.log[i].rows| && c < |Kinds(w)|
    ensures var w := Run(setting, Opened(fields), payloads);
            var views := Views(Kinds(w), w.log, setting.show);
            var (rows, place) := (w.log[i].rows, Offset(w.log, i) + k);
            && |Kinds(w)| == (if fields.Some? then |fields.value| else |rows[0]|)
            && place < |views| && views[place].Cells? && |views[place].values| == |Kinds(w)|
            && (Kinds(w)[c] != TextKind ==>
                  views[place].values[c] == if c < |rows[k]| then Canonical(rows[k][c]) else Null)
  {
    hide Run, Opened, Remains, Canonical, Views, ShowsLog, Offset, RoundTrips, Rowless;
    FirstRowsStayKept(setting, fields, payloads);
    var w := Run(setting, Opened(fields), payloads);
    ViewsShowLog(Kinds(w), w.log, setting.show);
    RowShown(Kinds(w), w.log, Views(Kinds(w), w.log, setting.show), setting.show, i, k);
  }

  /** Between batches the budget lease holds exactly the bytes of the resident chunks. */
  lemma LeaseIsResidentBytes(setting: Setting, fields: Option<seq<FieldDef>>, payloads: seq<(Payload, Weather)>)
    requires RoundTrips(setting.codec)
    ensures var s := Run(setting, Opened(fields), payloads).store;
            s.held == s.residentBytes == TotalBytes(s.chunks)
  {
    RunKeeps(setting, fields, payloads);
  }

  /**
    End to end: a window read after any run is, when its spilled chunks can be read, exactly that
    stretch of the rows the store accepted; and what comes back is right even when some cannot.
   */
  method ReadWindow(
    setting: Setting, ghost fields: Option<seq<FieldDef>>, ghost payloads: seq<(Payload, Weather)>,
    store: Store<Record, RowView>, start: nat, end: nat, fileAt: nat -> Option<File>)
    returns (slices: seq<Windows.Slice<RowView>>, status: Windows.Status)
    requires RoundTrips(setting.codec)
    requires store == Run(setting, Opened(fields), payloads).store && Windows.Later(store.spill, fileAt)
    ensures var w := Run(setting, Opened(fields), payloads);
            var rows := Views(Kinds(w), w.log, setting.show);
            && |rows| == store.rows && ShowsLog(Kinds(w), w.log, rows, setting.show)
            && w.log <= WithRows(payloads) && (w.running ==> w.log == WithRows(payloads))
            && Windows.AllRight(rows, slices, start, Windows.EndOf(store.rows, start, end)) && Windows.InOrder(slices)
            && ((forall row: nat :: fileAt(row).Some?) && start <= store.rows ==>
                  Windows.Joined(slices) == rows[start..Windows.EndOf(store.rows, start, end)])
            && (status.Ready? <==> end - start <= |Windows.Joined(slices)| || store.phase.Complete?)
  {
    hide Good, Run, Opened, Views, ShowsLog, Windows.AllRight, Windows.InOrder, Windows.Joined;
    ghost var w := Run(setting, Opened(fields), payloads);
    ghost var rows := Views(Kinds(w), w.log, setting.show);
    StoreHoldsTheStream(setting, fields, payloads);
    Windows.AgreesLength(FormatOf(setting), store, rows);
    var resumed;
    slices, status, resumed := Windows.GetRows(FormatOf(setting), store, rows, start, end, fileAt);
  }
}

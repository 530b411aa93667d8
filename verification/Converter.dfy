/**
  The batch converter of one result: it fixes the column kinds on the first batch, watches string
  columns for a fixed number of batches, then settles on dictionaries and re-encodes what it
  already handed out.
 */
module Converter {
  import opened Wrappers
  import opened Values
  import opened Columns
  import Decimal

  const SAMPLE_BATCHES := 2
  const MIN_SAMPLE_ROWS := 16

  type Row = seq<Value>

  datatype FieldDef = FieldDef(name: string, logical: LogicalType)

  datatype ArrowField = ArrowField(name: string, kind: ArrowType)

  type Schema = seq<ArrowField>

  datatype Record = Record(schema: Schema, columns: seq<Column>, rows: nat)

  datatype Conv = Conv(
    fields: seq<FieldDef>,
    kinds: seq<ColKind>,
    samples: seq<Option<set<string>>>,
    sampledRows: nat,
    batchesSeen: nat,
    sampleBatches: nat,
    dict: seq<bool>,
    schema: Option<Schema>,
    pending: seq<Record>,
    coerced: nat)

  // ---- Batches. ----

  /** A row too short for a column has an absent value there. */
  function CellOf(row: Row, col: nat): Value {
    if col < |row| then row[col] else Absent
  }

  function Cells(rows: seq<Row>, col: nat): (cells: seq<Value>)
    ensures |cells| == |rows|
    ensures forall k | 0 <= k < |rows| :: cells[k] == CellOf(rows[k], col)
  {
    seq(|rows|, k requires 0 <= k < |rows| => CellOf(rows[k], col))
  }

  function Decided(fields: seq<FieldDef>, rows: seq<Row>): (kinds: seq<ColKind>)
    ensures |kinds| == |fields|
  {
    seq(|fields|, c requires 0 <= c < |fields| => Folded(DeclaredKind(fields[c].logical), Cells(rows, c)))
  }

  /** Columns must be of the schema's types and of one length; otherwise an empty chunk is emitted. */
  function Finish(schema: Schema, columns: seq<Column>, rows: nat): Record {
    if |columns| == |schema|
       && forall c | 0 <= c < |columns| :: TypeOf(columns[c]) == schema[c].kind && Length(columns[c]) == rows
    then Record(schema, columns, rows)
    else Record(schema, [], 0)
  }

  predicate UsesDict(kinds: seq<ColKind>, dict: seq<bool>, col: nat)
    requires col < |kinds|
  {
    kinds[col] == StrKind && col < |dict| && dict[col]
  }

  function ColumnAt(kinds: seq<ColKind>, dict: seq<bool>, rows: seq<Row>, show: Value -> string, c: nat): (Column, nat)
    requires c < |kinds|
  {
    Built(kinds[c], UsesDict(kinds, dict, c), Cells(rows, c), show)
  }

  function ColumnsOf(kinds: seq<ColKind>, dict: seq<bool>, rows: seq<Row>, show: Value -> string): (columns: seq<Column>)
    ensures |columns| == |kinds|
    ensures forall c | 0 <= c < |kinds| :: columns[c] == ColumnAt(kinds, dict, rows, show, c).0
  {
    seq(|kinds|, c requires 0 <= c < |kinds| => ColumnAt(kinds, dict, rows, show, c).0)
  }

  function LostIn(kinds: seq<ColKind>, rows: seq<Row>, show: Value -> string, n: nat): nat
    requires n <= |kinds|
  {
    if n == 0 then 0
    else LostIn(kinds, rows, show, n - 1) + Built(kinds[n - 1], false, Cells(rows, n - 1), show).1
  }

  function NameOf(fields: seq<FieldDef>, col: nat): string {
    if col < |fields| then fields[col].name else "col" + Decimal.Print(col)
  }

  function SchemaOf(fields: seq<FieldDef>, columns: seq<Column>): (schema: Schema)
    ensures |schema| == |columns|
    ensures forall c | 0 <= c < |columns| :: schema[c] == ArrowField(NameOf(fields, c), TypeOf(columns[c]))
  {
    seq(|columns|, c requires 0 <= c < |columns| => ArrowField(NameOf(fields, c), TypeOf(columns[c])))
  }

  function BatchOf(
    fields: seq<FieldDef>, kinds: seq<ColKind>, dict: seq<bool>, rows: seq<Row>, show: Value -> string): Record
  {
    var columns := ColumnsOf(kinds, dict, rows, show);
    Finish(SchemaOf(fields, columns), columns, |rows|)
  }

  function Encoded(column: Column): Column {
    if column.StrColumn? then DictColumnOf(column.texts) else column
  }

  /** `dictionary_encode`: the chosen string columns of a record, re-encoded under the settled schema. */
  function Reencode(record: Record, dict: seq<bool>, target: Schema): Record {
    Finish(target,
           seq(|record.columns|, c requires 0 <= c < |record.columns| =>
             if c < |dict| && dict[c] then Encoded(record.columns[c]) else record.columns[c]),
           record.rows)
  }

  // ---- Sampling. ----

  function Strings(cells: seq<Value>): set<string> {
    set v | v in cells && v.Str? :: v.s
  }

  /** A tenth of the rows sampled so far, rounded up, and at least one. */
  function SampleCap(rows: nat): nat {
    var tenth := (rows + 9) / 10;
    if tenth < 1 then 1 else tenth
  }

  function SampledColumn(slot: Option<set<string>>, cells: seq<Value>, total: nat): Option<set<string>> {
    if slot.None? then None
    else
      var seen := slot.value + Strings(cells);
      if |seen| > SampleCap(total) then None else Some(seen)
  }

  function Sampled(samples: seq<Option<set<string>>>, rows: seq<Row>, total: nat): (next: seq<Option<set<string>>>)
    ensures |next| == |samples|
    ensures forall c | 0 <= c < |samples| :: next[c] == SampledColumn(samples[c], Cells(rows, c), total)
  {
    seq(|samples|, c requires 0 <= c < |samples| => SampledColumn(samples[c], Cells(rows, c), total))
  }

  /** A dictionary pays when fewer than a tenth of enough sampled rows were distinct. */
  predicate Pays(slot: Option<set<string>>, sampledRows: nat) {
    slot.Some? && sampledRows >= MIN_SAMPLE_ROWS && 10 * |slot.value| < sampledRows
  }

  function Settled(samples: seq<Option<set<string>>>, sampledRows: nat): (dict: seq<bool>)
    ensures |dict| == |samples|
    ensures forall c | 0 <= c < |samples| :: dict[c] == Pays(samples[c], sampledRows)
  {
    seq(|samples|, c requires 0 <= c < |samples| => Pays(samples[c], sampledRows))
  }

  // ---- One batch, as a function of the converter. ----

  function Fresh(fields: seq<FieldDef>, sampleBatches: nat): Conv {
    Conv(fields, [], NoSamples(|fields|), 0, 0, if sampleBatches < 1 then 1 else sampleBatches, [], None, [], 0)
  }

  function WithKinds(conv: Conv, rows: seq<Row>): Conv {
    if conv.kinds != [] then conv
    else
      var kinds := Decided(conv.fields, rows);
      conv.(kinds := kinds,
            samples := EmptySamples(kinds))
  }

  function EmptySamples(kinds: seq<ColKind>): (samples: seq<Option<set<string>>>)
    ensures |samples| == |kinds|
    ensures forall c | 0 <= c < |kinds| :: samples[c] == if kinds[c] == StrKind then Some({}) else None
  {
    seq(|kinds|, c requires 0 <= c < |kinds| => if kinds[c] == StrKind then Some({}) else None)
  }

  function NoSamples(n: nat): seq<Option<set<string>>> {
    seq(n, _ => None)
  }

  function WithSample(conv: Conv, rows: seq<Row>): Conv {
    var total := conv.sampledRows + |rows|;
    conv.(samples := Sampled(conv.samples, rows, total), sampledRows := total)
  }

  function WithDict(conv: Conv): Conv {
    conv.(dict := Settled(conv.samples, conv.sampledRows), samples := NoSamples(|conv.kinds|))
  }

  function NoDict(n: nat): seq<bool> {
    seq(n, _ => false)
  }

  function Counted(conv: Conv): Conv {
    conv.(batchesSeen := conv.batchesSeen + 1)
  }

  /** The converter up to the point where it builds the batch. */
  function Prepared(conv: Conv, rows: seq<Row>): Conv {
    var decided := WithKinds(conv, rows);
    var sampled := if conv.batchesSeen < conv.sampleBatches then WithSample(decided, rows) else decided;
    if conv.batchesSeen + 1 == conv.sampleBatches then WithDict(Counted(sampled)) else Counted(sampled)
  }

  /** The batch handed out, and the earlier ones to replace by their place. */
  datatype Converted = Converted(batch: Record, reencoded: seq<Record>)

  function WithBatch(ready: Conv, batch: Record, lost: nat, closing: bool): Conv {
    ready.(coerced := ready.coerced + lost,
           schema := if ready.schema.None? || closing then Some(batch.schema) else ready.schema)
  }

  function HandedOut(built: Conv, batch: Record, open: bool, closing: bool): (Conv, Converted) {
    if closing then
      (built.(pending := []),
       Converted(batch, if true in built.dict then Reencoded(built.pending, built.dict, batch.schema) else []))
    else if open then (built.(pending := built.pending + [batch]), Converted(batch, []))
    else (built, Converted(batch, []))
  }

  function ConvertStep(conv: Conv, rows: seq<Row>, show: Value -> string): (Conv, Converted) {
    var ready := Prepared(conv, rows);
    var open := conv.batchesSeen < conv.sampleBatches;
    var closing := conv.batchesSeen + 1 == conv.sampleBatches;
    var batch := BatchOf(ready.fields, ready.kinds, InForce(ready), rows, show);
    HandedOut(WithBatch(ready, batch, LostIn(ready.kinds, rows, show, |ready.kinds|), closing), batch, open, closing)
  }

  function Reencoded(pending: seq<Record>, dict: seq<bool>, target: Schema): (records: seq<Record>)
    ensures |records| == |pending|
    ensures forall i | 0 <= i < |pending| :: records[i] == Reencode(pending[i], dict, target)
  {
    seq(|pending|, i requires 0 <= i < |pending| => Reencode(pending[i], dict, target))
  }

  // ---- The whole stream. ----

  /** A store replaces its first chunks by the re-encoded ones and appends the new batch. */
  function Shown(chunks: seq<Record>, converted: Converted): seq<Record> {
    (if |converted.reencoded| <= |chunks| then converted.reencoded + chunks[|converted.reencoded|..]
     else chunks) + [converted.batch]
  }

  function Feed(conv: Conv, chunks: seq<Record>, rows: seq<Row>, show: Value -> string): (Conv, seq<Record>) {
    var (next, converted) := ConvertStep(conv, rows, show);
    (next, Shown(chunks, converted))
  }

  function Stream(start: Conv, batches: seq<seq<Row>>, show: Value -> string): (Conv, seq<Record>) {
    if batches == [] then (start, [])
    else
      var last := |batches| - 1;
      var (conv, chunks) := Stream(start, batches[..last], show);
      Feed(conv, chunks, batches[last], show)
  }

  /** The dictionaries in force: none until settled. */
  function InForce(conv: Conv): seq<bool> {
    if conv.dict == [] then NoDict(|conv.kinds|) else conv.dict
  }

  /** Each chunk is what building its own rows with today's kinds and dictionaries gives. */
  ghost predicate Faithful(conv: Conv, chunks: seq<Record>, fed: seq<seq<Row>>, show: Value -> string) {
    && |chunks| == |fed|
    && forall i | 0 <= i < |fed| :: chunks[i] == BatchOf(conv.fields, conv.kinds, InForce(conv), fed[i], show)
  }

  predicate DictOnStrings(kinds: seq<ColKind>, dict: seq<bool>) {
    forall c | 0 <= c < |dict| && dict[c] :: c < |kinds| && kinds[c] == StrKind
  }

  predicate SampleOnStrings(kinds: seq<ColKind>, samples: seq<Option<set<string>>>) {
    forall c | 0 <= c < |samples| && samples[c].Some? :: c < |kinds| && kinds[c] == StrKind
  }

  /** What the fields look like after `n` batches. */
  predicate Shape(conv: Conv, n: nat) {
    && conv.sampleBatches >= 1 && conv.batchesSeen == n
    && (n == 0 ==> conv.kinds == [] && conv.schema.None?)
    && (n > 0 ==> |conv.kinds| == |conv.fields|)
    && (n > 0 ==> conv.schema == Some(SchemaFor(conv.fields, conv.kinds, InForce(conv))))
    && (n < conv.sampleBatches ==> conv.dict == [] && (n > 0 ==> |conv.samples| == |conv.kinds|))
    && (n < conv.sampleBatches ==> SampleOnStrings(conv.kinds, conv.samples))
    && (n >= conv.sampleBatches ==> |conv.dict| == |conv.kinds|)
    && DictOnStrings(conv.kinds, conv.dict)
  }

  ghost predicate Consistent(conv: Conv, chunks: seq<Record>, fed: seq<seq<Row>>, show: Value -> string) {
    && Shape(conv, |fed|)
    && Faithful(conv, chunks, fed, show)
    && (|fed| < conv.sampleBatches ==> conv.pending == chunks)
  }

  /** The one schema of the kinds and dictionaries in force. */
  function SchemaFor(fields: seq<FieldDef>, kinds: seq<ColKind>, dict: seq<bool>): (schema: Schema)
    ensures |schema| == |kinds|
    ensures forall c | 0 <= c < |kinds| ::
              schema[c] == ArrowField(NameOf(fields, c), TypeFor(kinds[c], UsesDict(kinds, dict, c)))
  {
    seq(|kinds|, c requires 0 <= c < |kinds| =>
      ArrowField(NameOf(fields, c), TypeFor(kinds[c], UsesDict(kinds, dict, c))))
  }

  function TypeFor(kind: ColKind, dict: bool): ArrowType {
    match kind
    case NullKind => NullType
    case BoolKind => BoolType
    case I64Kind => I64Type
    case U64Kind => U64Type
    case F64Kind => F64Type
    case DateKind => DateType
    case TimeKind => TimeType
    case TimestampKind(zone) => TimestampType(zone)
    case UuidKind => UuidType
    case BytesKind => BytesType
    case _ => if dict then DictType else StrType
  }

  /** A column's type depends on its kind and its encoding, not on its cells. */
  lemma BuiltType(kind: ColKind, dict: bool, cells: seq<Value>, show: Value -> string)
    ensures TypeOf(Built(kind, dict, cells, show).0) == TypeFor(kind, dict)
    ensures Length(Built(kind, dict, cells, show).0) == |cells|
  {
    BuiltShape(kind, dict, cells, show);
  }

  /** Building never takes the empty-chunk way out, and its schema is the one of the kinds and dictionaries. */
  lemma BatchIsWhole(
    fields: seq<FieldDef>, kinds: seq<ColKind>, dict: seq<bool>, rows: seq<Row>, show: Value -> string)
    ensures BatchOf(fields, kinds, dict, rows, show)
         == Record(SchemaFor(fields, kinds, dict), ColumnsOf(kinds, dict, rows, show), |rows|)
  {
    var columns := ColumnsOf(kinds, dict, rows, show);
    forall c | 0 <= c < |kinds|
      ensures Length(columns[c]) == |rows| && TypeOf(columns[c]) == TypeFor(kinds[c], UsesDict(kinds, dict, c))
    {
      BuiltType(kinds[c], UsesDict(kinds, dict, c), Cells(rows, c), show);
    }
    assert SchemaOf(fields, columns) == SchemaFor(fields, kinds, dict);
  }

  /** A string column re-encoded is the column its rows would have been built as. */
  lemma EncodedIsBuilt(kind: ColKind, cells: seq<Value>, show: Value -> string)
    requires kind == StrKind
    ensures Encoded(Built(kind, false, cells, show).0) == Built(kind, true, cells, show).0
  {
  }

  lemma SameDictSameBatch(
    fields: seq<FieldDef>, kinds: seq<ColKind>, a: seq<bool>, b: seq<bool>, rows: seq<Row>, show: Value -> string)
    requires forall c | 0 <= c < |kinds| :: UsesDict(kinds, a, c) == UsesDict(kinds, b, c)
    ensures BatchOf(fields, kinds, a, rows, show) == BatchOf(fields, kinds, b, rows, show)
    ensures SchemaFor(fields, kinds, a) == SchemaFor(fields, kinds, b)
  {
    assert ColumnsOf(kinds, a, rows, show) == ColumnsOf(kinds, b, rows, show);
  }

  /** Re-encoding a batch built without dictionaries is building it with them. */
  lemma ReencodeIsBuild(
    fields: seq<FieldDef>, kinds: seq<ColKind>, dict: seq<bool>, rows: seq<Row>, show: Value -> string)
    requires forall c | 0 <= c < |dict| && dict[c] :: c < |kinds| && kinds[c] == StrKind
    ensures Reencode(BatchOf(fields, kinds, NoDict(|kinds|), rows, show), dict, SchemaFor(fields, kinds, dict))
         == BatchOf(fields, kinds, dict, rows, show)
  {
    BatchIsWhole(fields, kinds, NoDict(|kinds|), rows, show);
    BatchIsWhole(fields, kinds, dict, rows, show);
    var plain := ColumnsOf(kinds, NoDict(|kinds|), rows, show);
    var encoded := seq(|plain|, c requires 0 <= c < |plain| =>
      if c < |dict| && dict[c] then Encoded(plain[c]) else plain[c]);
    forall c | 0 <= c < |kinds| ensures encoded[c] == ColumnsOf(kinds, dict, rows, show)[c] {
      if c < |dict| && dict[c] {
        EncodedIsBuilt(kinds[c], Cells(rows, c), show);
      }
    }
    assert encoded == ColumnsOf(kinds, dict, rows, show);
    forall c | 0 <= c < |kinds|
      ensures Length(encoded[c]) == |rows| && TypeOf(encoded[c]) == TypeFor(kinds[c], UsesDict(kinds, dict, c))
    {
      BuiltType(kinds[c], UsesDict(kinds, dict, c), Cells(rows, c), show);
    }
  }

  /** What `Prepared` leaves: kinds fixed, samples only on string columns, dictionaries once closing. */
  predicate Ready(conv: Conv, ready: Conv) {
    && ready.fields == conv.fields && |ready.kinds| == |ready.fields|
    && ready.pending == conv.pending && ready.schema == conv.schema
    && ready.batchesSeen == conv.batchesSeen + 1 && ready.sampleBatches == conv.sampleBatches
    && (conv.batchesSeen > 0 ==> ready.kinds == conv.kinds)
    && (ready.batchesSeen < ready.sampleBatches ==>
          ready.dict == [] && |ready.samples| == |ready.kinds| && SampleOnStrings(ready.kinds, ready.samples))
    && (ready.batchesSeen == ready.sampleBatches ==> |ready.dict| == |ready.kinds|)
    && (conv.batchesSeen >= conv.sampleBatches ==> ready.dict == conv.dict)
    && DictOnStrings(ready.kinds, ready.dict)
  }

  lemma DecidedShape(conv: Conv, rows: seq<Row>)
    requires Shape(conv, conv.batchesSeen) && conv.batchesSeen < conv.sampleBatches
    ensures var decided := WithKinds(conv, rows);
            && |decided.kinds| == |decided.samples| == |decided.fields|
            && SampleOnStrings(decided.kinds, decided.samples)
            && (conv.batchesSeen > 0 ==> decided.kinds == conv.kinds)
  {
  }

  lemma PreparedIsReady(conv: Conv, rows: seq<Row>)
    requires Shape(conv, conv.batchesSeen)
    ensures Ready(conv, Prepared(conv, rows))
  {
    if conv.batchesSeen < conv.sampleBatches {
      DecidedShape(conv, rows);
      var sampled := WithSample(WithKinds(conv, rows), rows);
      assert SampleOnStrings(sampled.kinds, sampled.samples);
      assert DictOnStrings(sampled.kinds, Settled(sampled.samples, sampled.sampledRows));
    }
  }

  /** What `Convert` makes of a ready converter. */
  lemma ConvertShape(conv: Conv, rows: seq<Row>, show: Value -> string)
    requires Shape(conv, conv.batchesSeen)
    ensures var ready := Prepared(conv, rows);
            var (next, converted) := ConvertStep(conv, rows, show);
            && Shape(next, conv.batchesSeen + 1)
            && next.fields == ready.fields && next.kinds == ready.kinds && next.dict == ready.dict
            && next.sampleBatches == ready.sampleBatches
            && next.schema == Some(SchemaFor(next.fields, next.kinds, InForce(next)))
            && converted.batch == BatchOf(next.fields, next.kinds, InForce(next), rows, show)
            && (ready.batchesSeen < ready.sampleBatches ==> next.pending == conv.pending + [converted.batch])
            && converted.reencoded ==
                 (if ready.batchesSeen == ready.sampleBatches && true in ready.dict
                  then Reencoded(conv.pending, ready.dict, converted.batch.schema) else [])
  {
    PreparedIsReady(conv, rows);
    var ready := Prepared(conv, rows);
    BatchIsWhole(ready.fields, ready.kinds, InForce(ready), rows, show);
  }

  /** The chunks after the closing batch: each earlier one as the settled dictionaries would have built it. */
  lemma SettledChunk(
    fields: seq<FieldDef>, kinds: seq<ColKind>, dict: seq<bool>, rows: seq<Row>, show: Value -> string)
    requires |dict| == |kinds| && DictOnStrings(kinds, dict)
    ensures var plain := BatchOf(fields, kinds, NoDict(|kinds|), rows, show);
            BatchOf(fields, kinds, dict, rows, show) == (
              if true in dict then Reencode(plain, dict, SchemaFor(fields, kinds, dict)) else plain)
  {
    if true in dict {
      ReencodeIsBuild(fields, kinds, dict, rows, show);
    } else {
      SameDictSameBatch(fields, kinds, NoDict(|kinds|), dict, rows, show);
    }
  }

  lemma ClosingShows(
    conv: Conv, next: Conv, chunks: seq<Record>, fed: seq<seq<Row>>, converted: Converted, rows: seq<Row>,
    show: Value -> string)
    requires Faithful(conv, chunks, fed, show) && conv.dict == [] && conv.pending == chunks
    requires next.fields == conv.fields && (fed != [] ==> next.kinds == conv.kinds)
    requires |next.dict| == |next.kinds| && DictOnStrings(next.kinds, next.dict)
    requires converted.batch == BatchOf(next.fields, next.kinds, InForce(next), rows, show)
    requires converted.batch.schema == SchemaFor(next.fields, next.kinds, InForce(next))
    requires converted.reencoded
          == if true in next.dict then Reencoded(conv.pending, next.dict, converted.batch.schema) else []
    ensures Faithful(next, Shown(chunks, converted), fed + [rows], show)
  {
    ShownParts(chunks, converted);
    var shown := Shown(chunks, converted);
    assert InForce(next) == next.dict by {
      assert next.dict == [] ==> NoDict(|next.kinds|) == [];
    }
    forall i | 0 <= i < |fed|
      ensures shown[i] == BatchOf(next.fields, next.kinds, next.dict, fed[i], show)
    {
      SettledChunk(next.fields, next.kinds, next.dict, fed[i], show);
      assert chunks[i] == BatchOf(next.fields, next.kinds, NoDict(|next.kinds|), fed[i], show);
    }
  }

  lemma ShownParts(chunks: seq<Record>, converted: Converted)
    ensures converted.reencoded == [] ==> Shown(chunks, converted) == chunks + [converted.batch]
    ensures |converted.reencoded| == |chunks| ==> Shown(chunks, converted) == converted.reencoded + [converted.batch]
  {
  }

  lemma OtherShows(
    conv: Conv, next: Conv, chunks: seq<Record>, fed: seq<seq<Row>>, converted: Converted, rows: seq<Row>,
    show: Value -> string)
    requires Faithful(conv, chunks, fed, show) && converted.reencoded == []
    requires next.fields == conv.fields
    requires fed != [] ==> next.kinds == conv.kinds && next.dict == conv.dict
    requires converted.batch == BatchOf(next.fields, next.kinds, InForce(next), rows, show)
    ensures Faithful(next, Shown(chunks, converted), fed + [rows], show)
  {
    ShownParts(chunks, converted);
  }

  lemma ConvertShows(conv: Conv, chunks: seq<Record>, fed: seq<seq<Row>>, rows: seq<Row>, show: Value -> string)
    requires Consistent(conv, chunks, fed, show)
    ensures var (next, shown) := Feed(conv, chunks, rows, show);
            Consistent(next, shown, fed + [rows], show) && next.fields == conv.fields
  {
    ConvertShape(conv, rows, show);
    PreparedIsReady(conv, rows);
    var (next, converted) := ConvertStep(conv, rows, show);
    BatchIsWhole(next.fields, next.kinds, InForce(next), rows, show);
    if conv.batchesSeen + 1 == conv.sampleBatches {
      ClosingShows(conv, next, chunks, fed, converted, rows, show);
    } else {
      OtherShows(conv, next, chunks, fed, converted, rows, show);
    }
  }

  lemma StreamStep(start: Conv, init: seq<seq<Row>>, rows: seq<Row>, show: Value -> string)
    ensures var (conv, chunks) := Stream(start, init, show);
            Stream(start, init + [rows], show) == Feed(conv, chunks, rows, show)
  {
    assert (init + [rows])[..|init|] == init;
  }

  /** After these batches everything shown is consistent with the converter. */
  ghost predicate Good(start: Conv, batches: seq<seq<Row>>, show: Value -> string) {
    var (conv, chunks) := Stream(start, batches, show);
    Consistent(conv, chunks, batches, show) && conv.fields == start.fields
  }

  lemma StreamStepShows(start: Conv, init: seq<seq<Row>>, rows: seq<Row>, show: Value -> string)
    requires Good(start, init, show)
    ensures Good(start, init + [rows], show)
  {
    StreamStep(start, init, rows, show);
    var (conv, chunks) := Stream(start, init, show);
    ConvertShows(conv, chunks, init, rows, show);
  }

  lemma {:induction false} StreamShows(start: Conv, batches: seq<seq<Row>>, show: Value -> string)
    requires Consistent(start, [], [], show)
    ensures Good(start, batches, show)
  {
    if batches == [] {
      assert Good(start, [], show);
    } else {
      var init, last := batches[..|batches| - 1], batches[|batches| - 1];
      assert batches == init + [last];
      StreamShows(start, init, show);
      StreamStepShows(start, init, last, show);
    }
  }

  // ---- The main results. ----

  /**
    Whatever batches arrive: every chunk shown is exactly what its own rows give under the kinds
    and dictionaries now in force, so all chunks share one schema, the converter's own.
   */
  lemma ChunksShareOneSchema(fields: seq<FieldDef>, sampleBatches: nat, batches: seq<seq<Row>>, show: Value -> string)
    ensures var (conv, chunks) := Stream(Fresh(fields, sampleBatches), batches, show);
            && |chunks| == |batches|
            && (forall i | 0 <= i < |batches| ::
                  && chunks[i] == BatchOf(fields, conv.kinds, InForce(conv), batches[i], show)
                  && chunks[i].rows == |batches[i]|
                  && conv.schema == Some(chunks[i].schema))
  {
    StreamShows(Fresh(fields, sampleBatches), batches, show);
    var (conv, chunks) := Stream(Fresh(fields, sampleBatches), batches, show);
    forall i | 0 <= i < |batches| ensures chunks[i].rows == |batches[i]| && conv.schema == Some(chunks[i].schema) {
      BatchIsWhole(fields, conv.kinds, InForce(conv), batches[i], show);
    }
  }

  /** Settling changes no cell: what a reader gets is decided by the kind alone, with or without a dictionary. */
  lemma DictionariesKeepCells(
    kinds: seq<ColKind>, a: seq<bool>, b: seq<bool>, rows: seq<Row>, show: Value -> string, col: nat, row: nat)
    requires col < |kinds| && row < |rows|
    ensures var v := Remains(kinds[col], CellOf(rows[row], col), show);
            && ComesBack(ColumnsOf(kinds, a, rows, show)[col], row, v)
            && ComesBack(ColumnsOf(kinds, b, rows, show)[col], row, v)
  {
    ReadBack(kinds[col], UsesDict(kinds, a, col), Cells(rows, col), show, row);
    ReadBack(kinds[col], UsesDict(kinds, b, col), Cells(rows, col), show, row);
  }

  // ---- Which cell of a row a column shows. ----

  /** Cell `col` of row `row` of a built batch is the row's own cell as the column's kind keeps it, or null past its end. */
  lemma BatchCells(
    fields: seq<FieldDef>, kinds: seq<ColKind>, dict: seq<bool>, rows: seq<Row>, show: Value -> string, row: nat, col: nat)
    requires col < |kinds| && row < |rows|
    ensures var batch := BatchOf(fields, kinds, dict, rows, show);
            && batch.rows == |rows| && |batch.columns| == |kinds|
            && ComesBack(batch.columns[col], row,
                 if col < |rows[row]| then Remains(kinds[col], rows[row][col], show) else Null)
  {
    BatchIsWhole(fields, kinds, dict, rows, show);
    DictionariesKeepCells(kinds, dict, dict, rows, show, col, row);
  }

  /** The batch a conversion hands out shows, in each column, that cell of each row. */
  lemma ConvertedCells(conv: Conv, rows: seq<Row>, show: Value -> string, row: nat, col: nat)
    requires Shape(conv, conv.batchesSeen) && col < |conv.fields| && row < |rows|
    ensures var (next, converted) := ConvertStep(conv, rows, show);
            && converted.batch.rows == |rows|
            && |converted.batch.columns| == |converted.batch.schema| == |next.kinds| == |conv.fields|
            && converted.batch.schema[col].name == conv.fields[col].name
            && ComesBack(converted.batch.columns[col], row,
                 if col < |rows[row]| then Remains(next.kinds[col], rows[row][col], show) else Null)
  {
    hide Prepared, BatchOf, ConvertStep;
    PreparedIsReady(conv, rows);
    ConvertShape(conv, rows, show);
    var next := ConvertStep(conv, rows, show).0;
    BatchIsWhole(next.fields, next.kinds, InForce(next), rows, show);
    BatchCells(next.fields, next.kinds, InForce(next), rows, show, row, col);
  }

  /** The first batch fixes the kinds, and a column whose kind is not Text gives every cell of it back. */
  lemma FirstBatchCells(conv: Conv, rows: seq<Row>, show: Value -> string, row: nat, col: nat)
    requires Shape(conv, 0) && col < |conv.fields| && row < |rows|
    ensures var (next, converted) := ConvertStep(conv, rows, show);
            && |converted.batch.columns| == |next.kinds| == |conv.fields|
            && (next.kinds[col] != TextKind ==>
                  ComesBack(converted.batch.columns[col], row,
                    if col < |rows[row]| then Canonical(rows[row][col]) else Null))
  {
    hide Prepared, BatchOf, ConvertStep, Built;
    ConvertedCells(conv, rows, show, row, col);
    KindsAreDecided(conv, rows, show);
    var logical, cells := conv.fields[col].logical, Cells(rows, col);
    if Folded(DeclaredKind(logical), cells) != TextKind {
      FixedKindFits(logical, cells);
      assert cells[row] in cells;
      FittingComesBack(Folded(DeclaredKind(logical), cells), cells[row], show);
    }
  }

  lemma KindsAreDecided(conv: Conv, rows: seq<Row>, show: Value -> string)
    requires Shape(conv, 0)
    ensures ConvertStep(conv, rows, show).0.kinds == Decided(conv.fields, rows)
  {
  }

  /** What a batch adds to the count of coerced cells. */
  lemma {:induction false} LostNothingExactly(kinds: seq<ColKind>, rows: seq<Row>, show: Value -> string, n: nat)
    requires n <= |kinds|
    ensures LostIn(kinds, rows, show, n) == 0 <==>
              forall c, k | 0 <= c < n && 0 <= k < |rows| && c < |rows[k]| :: Counts(kinds[c]) ==> Taken(kinds[c], rows[k][c])
  {
    hide Built, Counts, Taken;
    if n > 0 {
      var c := n - 1;
      LostNothingExactly(kinds, rows, show, c);
      ColumnLostNothing(kinds[c], rows, c, show);
    }
  }

  lemma ColumnLostNothing(kind: ColKind, rows: seq<Row>, c: nat, show: Value -> string)
    ensures Built(kind, false, Cells(rows, c), show).1 == 0 <==>
              forall k | 0 <= k < |rows| && c < |rows[k]| :: Counts(kind) ==> Taken(kind, rows[k][c])
  {
    hide Built, Counts;
    var cells := Cells(rows, c);
    CountsExactly(kind, false, cells, show);
    if Counts(kind) {
      if forall k | 0 <= k < |rows| && c < |rows[k]| :: Taken(kind, rows[k][c]) {
        forall v | v in cells ensures Taken(kind, v) {
          var k :| 0 <= k < |cells| && cells[k] == v;
          assert c < |rows[k]| ==> Taken(kind, rows[k][c]);
        }
      } else {
        var k :| 0 <= k < |rows| && c < |rows[k]| && !Taken(kind, rows[k][c]);
        assert cells[k] in cells;
      }
    }
  }

  /** A conversion counts coerced cells exactly when some column that counts could not hold its cell of some row. */
  lemma ConvertCountsExactly(conv: Conv, rows: seq<Row>, show: Value -> string)
    requires Shape(conv, conv.batchesSeen)
    ensures var (next, converted) := ConvertStep(conv, rows, show);
            && next.coerced >= conv.coerced
            && (next.coerced == conv.coerced <==>
                  forall c, k | 0 <= c < |next.kinds| && 0 <= k < |rows| && c < |rows[k]| ::
                    Counts(next.kinds[c]) ==> Taken(next.kinds[c], rows[k][c]))
  {
    hide BatchOf, Counts, Taken;
    var next := ConvertStep(conv, rows, show).0;
    LostNothingExactly(next.kinds, rows, show, |next.kinds|);
  }

  // ---- When a column gets a dictionary. ----

  function RowCount(batches: seq<seq<Row>>): nat {
    if batches == [] then 0 else RowCount(batches[..|batches| - 1]) + |batches[|batches| - 1]|
  }

  function Distinct(batches: seq<seq<Row>>, col: nat): set<string> {
    if batches == [] then {}
    else Distinct(batches[..|batches| - 1], col) + Strings(Cells(batches[|batches| - 1], col))
  }

  /** The distinct strings never outgrew a tenth of the rows seen, rounded up, after any of the batches; one is never too many. */
  predicate AlwaysFew(batches: seq<seq<Row>>, col: nat) {
    batches == []
    || (&& AlwaysFew(batches[..|batches| - 1], col)
        && (|Distinct(batches, col)| <= 1 || 10 * (|Distinct(batches, col)| - 1) < RowCount(batches)))
  }

  /** The slot a column of this kind should have after these batches. */
  function WantedSlot(kind: ColKind, batches: seq<seq<Row>>, c: nat): Option<set<string>> {
    if kind == StrKind && AlwaysFew(batches, c) then Some(Distinct(batches, c)) else None
  }

  predicate Watching(conv: Conv, batches: seq<seq<Row>>) {
    && conv.sampledRows == RowCount(batches)
    && (forall c | 0 <= c < |conv.samples| && c < |conv.kinds| ::
          conv.samples[c] == WantedSlot(conv.kinds[c], batches, c))
  }

  lemma WithinCap(distinct: nat, rows: nat)
    ensures distinct <= SampleCap(rows) <==> distinct <= 1 || 10 * (distinct - 1) < rows
  {
  }

  lemma RowCountSnoc(init: seq<seq<Row>>, rows: seq<Row>)
    ensures RowCount(init + [rows]) == RowCount(init) + |rows|
  {
    assert (init + [rows])[..|init|] == init;
  }

  lemma CountsSnoc(init: seq<seq<Row>>, rows: seq<Row>, c: nat)
    ensures RowCount(init + [rows]) == RowCount(init) + |rows|
    ensures Distinct(init + [rows], c) == Distinct(init, c) + Strings(Cells(rows, c))
    ensures AlwaysFew(init + [rows], c)
       <==> AlwaysFew(init, c) && |Distinct(init + [rows], c)| <= SampleCap(RowCount(init + [rows]))
  {
    assert (init + [rows])[..|init|] == init;
    WithinCap(|Distinct(init + [rows], c)|, RowCount(init + [rows]));
  }

  /** One slot fed one batch's strings: the bookkeeping alone. */
  lemma SlotStep(seen: set<string>, few: bool, strings: seq<Value>, total: nat, isStr: bool)
    ensures SampledColumn(if isStr && few then Some(seen) else None, strings, total)
         == if isStr && few && |seen + Strings(strings)| <= SampleCap(total) then Some(seen + Strings(strings)) else None
  {
  }

  lemma SampleWatches(kind: ColKind, init: seq<seq<Row>>, rows: seq<Row>, c: nat)
    ensures SampledColumn(WantedSlot(kind, init, c), Cells(rows, c), RowCount(init) + |rows|)
         == WantedSlot(kind, init + [rows], c)
  {
    hide Distinct, AlwaysFew, RowCount, Strings, SampleCap, SampledColumn;
    CountsSnoc(init, rows, c);
    SlotStep(Distinct(init, c), AlwaysFew(init, c), Cells(rows, c), RowCount(init) + |rows|, kind == StrKind);
  }

  lemma SlotsWatch(kinds: seq<ColKind>, samples: seq<Option<set<string>>>, init: seq<seq<Row>>, rows: seq<Row>)
    requires |kinds| == |samples|
    requires forall c | 0 <= c < |samples| :: samples[c] == WantedSlot(kinds[c], init, c)
    ensures forall c | 0 <= c < |samples| ::
              Sampled(samples, rows, RowCount(init) + |rows|)[c] == WantedSlot(kinds[c], init + [rows], c)
  {
    hide WantedSlot, SampledColumn, RowCount;
    forall c | 0 <= c < |samples|
      ensures Sampled(samples, rows, RowCount(init) + |rows|)[c] == WantedSlot(kinds[c], init + [rows], c)
    {
      SampleWatches(kinds[c], init, rows, c);
    }
  }

  /** Until it settles, each slot of the sample is what the batches so far call for. */
  lemma SampledWatches(decided: Conv, init: seq<seq<Row>>, rows: seq<Row>)
    requires |decided.kinds| == |decided.samples| && Watching(decided, init)
    ensures Watching(WithSample(decided, rows), init + [rows])
  {
    RowCountSnoc(init, rows);
    SlotsWatch(decided.kinds, decided.samples, init, rows);
  }

  lemma DecidedWatches(conv: Conv, init: seq<seq<Row>>, rows: seq<Row>)
    requires Shape(conv, |init|) && conv.batchesSeen < conv.sampleBatches
    requires if init == [] then conv.sampledRows == 0 else Watching(conv, init)
    ensures Watching(WithKinds(conv, rows), init)
  {
  }

  lemma PreparedWatches(conv: Conv, init: seq<seq<Row>>, rows: seq<Row>)
    requires Shape(conv, |init|) && conv.batchesSeen < conv.sampleBatches
    requires if init == [] then conv.sampledRows == 0 else Watching(conv, init)
    ensures var sampled := WithSample(WithKinds(conv, rows), rows);
            |sampled.samples| == |sampled.kinds| == |conv.fields| && Watching(sampled, init + [rows])
  {
    DecidedShape(conv, rows);
    DecidedWatches(conv, init, rows);
    SampledWatches(WithKinds(conv, rows), init, rows);
  }

  lemma ConvertWatches(conv: Conv, init: seq<seq<Row>>, rows: seq<Row>, show: Value -> string)
    requires Shape(conv, |init|) && conv.batchesSeen + 1 < conv.sampleBatches
    requires if init == [] then conv.sampledRows == 0 else Watching(conv, init)
    ensures Watching(ConvertStep(conv, rows, show).0, init + [rows])
  {
    PreparedWatches(conv, init, rows);
    var next := ConvertStep(conv, rows, show).0;
    var sampled := WithSample(WithKinds(conv, rows), rows);
    assert next.samples == sampled.samples && next.kinds == sampled.kinds && next.sampledRows == sampled.sampledRows;
  }

  ghost predicate WatchingAfter(start: Conv, batches: seq<seq<Row>>, show: Value -> string) {
    var conv := Stream(start, batches, show).0;
    && Shape(conv, |batches|) && conv.fields == start.fields && conv.sampleBatches == start.sampleBatches
    && (if batches == [] then conv.sampledRows == 0 else Watching(conv, batches))
  }

  lemma StepWatches(start: Conv, init: seq<seq<Row>>, rows: seq<Row>, show: Value -> string)
    requires WatchingAfter(start, init, show) && |init| + 1 < start.sampleBatches
    ensures WatchingAfter(start, init + [rows], show)
  {
    StreamStep(start, init, rows, show);
    var conv := Stream(start, init, show).0;
    ConvertShape(conv, rows, show);
    PreparedIsReady(conv, rows);
    ConvertWatches(conv, init, rows, show);
  }

  lemma {:induction false} SamplingWatches(start: Conv, batches: seq<seq<Row>>, show: Value -> string)
    requires Shape(start, 0) && start.sampledRows == 0 && |batches| < start.sampleBatches
    ensures WatchingAfter(start, batches, show)
  {
    if batches == [] {
      assert WatchingAfter(start, [], show);
    } else {
      var init, last := batches[..|batches| - 1], batches[|batches| - 1];
      assert batches == init + [last];
      SamplingWatches(start, init, show);
      StepWatches(start, init, last, show);
    }
  }

  /**
    When a column has a dictionary: it holds strings, enough rows were sampled, fewer than a tenth of
    them distinct, and the distinct ones were never too many along the way.
   */
  predicate HasDictionaryExactly(conv: Conv, batches: seq<seq<Row>>, c: nat) {
    && c < |conv.dict| == |conv.kinds|
    && (conv.dict[c] <==>
          && conv.kinds[c] == StrKind
          && RowCount(batches) >= 16
          && 10 * |Distinct(batches, c)| < RowCount(batches)
          && AlwaysFew(batches, c))
  }

  lemma ClosingIsExact(conv: Conv, init: seq<seq<Row>>, rows: seq<Row>, show: Value -> string, c: nat)
    requires Shape(conv, |init|) && conv.batchesSeen + 1 == conv.sampleBatches && c < |conv.fields|
    requires if init == [] then conv.sampledRows == 0 else Watching(conv, init)
    ensures HasDictionaryExactly(ConvertStep(conv, rows, show).0, init + [rows], c)
  {
    PreparedWatches(conv, init, rows);
    ClosingDict(conv, rows, show);
  }

  ghost predicate ExactAfter(start: Conv, batches: seq<seq<Row>>, show: Value -> string, c: nat) {
    HasDictionaryExactly(Stream(start, batches, show).0, batches, c)
  }

  lemma StreamClosesExactly(start: Conv, init: seq<seq<Row>>, rows: seq<Row>, show: Value -> string, c: nat)
    requires WatchingAfter(start, init, show) && |init| + 1 == start.sampleBatches && c < |start.fields|
    ensures ExactAfter(start, init + [rows], show, c)
  {
    StreamStep(start, init, rows, show);
    ClosingIsExact(Stream(start, init, show).0, init, rows, show, c);
  }

  /** Once the sample is complete, that is exactly which columns have a dictionary. */
  lemma DictionaryExactly(fields: seq<FieldDef>, sampleBatches: nat, batches: seq<seq<Row>>, show: Value -> string, c: nat)
    requires |batches| == (if sampleBatches == 0 then 1 else sampleBatches) && c < |fields|
    ensures ExactAfter(Fresh(fields, sampleBatches), batches, show, c)
  {
    var start := Fresh(fields, sampleBatches);
    var init, last := batches[..|batches| - 1], batches[|batches| - 1];
    assert batches == init + [last];
    SamplingWatches(start, init, show);
    StreamClosesExactly(start, init, last, show, c);
  }

  lemma ClosingDict(conv: Conv, rows: seq<Row>, show: Value -> string)
    requires conv.batchesSeen + 1 == conv.sampleBatches
    ensures var sampled := WithSample(WithKinds(conv, rows), rows);
            && ConvertStep(conv, rows, show).0.dict == Settled(sampled.samples, sampled.sampledRows)
            && ConvertStep(conv, rows, show).0.kinds == sampled.kinds
  {
  }

  // ---- The converter itself. ----

  method CollectStrings(start: set<string>, cells: seq<Value>) returns (seen: set<string>)
    ensures seen == start + Strings(cells)
  {
    seen := start;
    for i := 0 to |cells|
      invariant seen == start + Strings(cells[..i])
    {
      assert cells[..i + 1] == cells[..i] + [cells[i]];
      if cells[i].Str? && cells[i].s !in seen {
        seen := seen + {cells[i].s};
      }
    }
    assert cells[..|cells|] == cells;
  }

  /** Adds a batch's strings to every slot still open, closing those that outgrew their share. */
  method SampleColumns(samples: seq<Option<set<string>>>, rows: seq<Row>, total: nat)
    returns (next: seq<Option<set<string>>>)
    ensures next == Sampled(samples, rows, total)
  {
    next := [];
    for col := 0 to |samples|
      invariant |next| == col
      invariant forall c | 0 <= c < col :: next[c] == SampledColumn(samples[c], Cells(rows, c), total)
    {
      var slot: Option<set<string>> := None;
      if samples[col].Some? {
        var seen := CollectStrings(samples[col].value, Cells(rows, col));
        slot := if |seen| > SampleCap(total) then None else Some(seen);
      }
      next := next + [slot];
    }
  }

  method ChooseDictionaries(samples: seq<Option<set<string>>>, sampledRows: nat) returns (chosen: seq<bool>)
    ensures chosen == Settled(samples, sampledRows)
  {
    chosen := [];
    for col := 0 to |samples|
      invariant |chosen| == col && forall c | 0 <= c < col :: chosen[c] == Pays(samples[c], sampledRows)
    {
      chosen := chosen + [Pays(samples[col], sampledRows)];
    }
  }

  method DecideKinds(fields: seq<FieldDef>, rows: seq<Row>) returns (decided: seq<ColKind>)
    ensures decided == Decided(fields, rows)
  {
    decided := [];
    for col := 0 to |fields|
      invariant |decided| == col
      invariant forall c | 0 <= c < col :: decided[c] == Folded(DeclaredKind(fields[c].logical), Cells(rows, c))
    {
      var kind := DecideKind(DeclaredKind(fields[col].logical), Cells(rows, col));
      decided := decided + [kind];
    }
  }

  /** An encoding changes nothing about what is counted as lost. */
  lemma LostEitherWay(kind: ColKind, dict: bool, cells: seq<Value>, show: Value -> string)
    ensures Built(kind, dict, cells, show).1 == Built(kind, false, cells, show).1
  {
  }

  method BuildAt(kinds: seq<ColKind>, use: seq<bool>, rows: seq<Row>, show: Value -> string, c: nat)
    returns (column: Column, lost: nat)
    requires c < |kinds|
    ensures column == ColumnAt(kinds, use, rows, show, c).0
    ensures LostIn(kinds, rows, show, c) + lost == LostIn(kinds, rows, show, c + 1)
  {
    column, lost := BuildColumn(kinds[c], UsesDict(kinds, use, c), Cells(rows, c), show);
    LostEitherWay(kinds[c], UsesDict(kinds, use, c), Cells(rows, c), show);
  }

  lemma NothingLost(kinds: seq<ColKind>, rows: seq<Row>, show: Value -> string)
    ensures LostIn(kinds, rows, show, 0) == 0
  {
  }

  /** Builds every column in order and adds up what they could not hold. */
  method BuildColumns(kinds: seq<ColKind>, use: seq<bool>, rows: seq<Row>, show: Value -> string)
    returns (columns: seq<Column>, lost: nat)
    ensures columns == ColumnsOf(kinds, use, rows, show) && lost == LostIn(kinds, rows, show, |kinds|)
  {
    hide ColumnAt, Built, LostIn;
    NothingLost(kinds, rows, show);
    columns, lost := [], 0;
    for col := 0 to |kinds|
      invariant |columns| == col && lost == LostIn(kinds, rows, show, col)
      invariant forall c | 0 <= c < col :: columns[c] == ColumnAt(kinds, use, rows, show, c).0
    {
      var column, misses := BuildAt(kinds, use, rows, show, col);
      columns := columns + [column];
      lost := lost + misses;
    }
  }

  method ReencodeAll(pending: seq<Record>, dict: seq<bool>, target: Schema) returns (records: seq<Record>)
    ensures records == Reencoded(pending, dict, target)
  {
    records := [];
    for i := 0 to |pending|
      invariant |records| == i && forall k | 0 <= k < i :: records[k] == Reencode(pending[k], dict, target)
    {
      records := records + [Reencode(pending[i], dict, target)];
    }
  }

  class BatchConverter {
    const fields: seq<FieldDef>
    const sampleBatches: nat
    var kinds: seq<ColKind>
    var samples: seq<Option<set<string>>>
    var sampledRows: nat
    var batchesSeen: nat
    var dict: seq<bool>
    var schema: Option<Schema>
    var pending: seq<Record>
    var coerced: nat

    function View(): Conv
      reads this
    {
      Conv(fields, kinds, samples, sampledRows, batchesSeen, sampleBatches, dict, schema, pending, coerced)
    }

    constructor (fields: seq<FieldDef>, sampleBatches: nat)
      ensures View() == Fresh(fields, sampleBatches)
    {
      this.fields := fields;
      this.sampleBatches := if sampleBatches < 1 then 1 else sampleBatches;
      kinds, samples, sampledRows, batchesSeen := [], NoSamples(|fields|), 0, 0;
      dict, schema, pending, coerced := [], None, [], 0;
    }

    method Decide(rows: seq<Row>)
      modifies this`kinds, this`samples
      ensures View() == WithKinds(old(View()), rows)
    {
      if kinds == [] {
        kinds := DecideKinds(fields, rows);
        samples := EmptySamples(kinds);
      }
    }

    method Sample(rows: seq<Row>)
      modifies this`samples, this`sampledRows
      ensures View() == WithSample(old(View()), rows)
    {
      sampledRows := sampledRows + |rows|;
      samples := SampleColumns(samples, rows, sampledRows);
    }

    method Settle()
      modifies this`dict, this`samples
      ensures View() == WithDict(old(View()))
    {
      dict := ChooseDictionaries(samples, sampledRows);
      samples := NoSamples(|kinds|);
    }

    /** Everything that happens before a batch is built: deciding, sampling, and settling when the sample is complete. */
    method Prepare(rows: seq<Row>)
      modifies this
      ensures View() == Prepared(old(View()), rows)
    {
      var open := batchesSeen < sampleBatches;
      Decide(rows);
      if open {
        Sample(rows);
      }
      batchesSeen := batchesSeen + 1;
      if open && batchesSeen >= sampleBatches {
        Settle();
      }
    }

    method Build(rows: seq<Row>, show: Value -> string) returns (batch: Record, lost: nat)
      ensures batch == BatchOf(fields, kinds, InForce(View()), rows, show)
      ensures lost == LostIn(kinds, rows, show, |kinds|)
    {
      var use := if dict == [] then NoDict(|kinds|) else dict;
      var columns;
      columns, lost := BuildColumns(kinds, use, rows, show);
      batch := Finish(SchemaOf(fields, columns), columns, |rows|);
    }

    method Note(batch: Record, lost: nat, closing: bool)
      modifies this`coerced, this`schema
      ensures View() == WithBatch(old(View()), batch, lost, closing)
    {
      coerced := coerced + lost;
      if schema.None? || closing {
        schema := Some(batch.schema);
      }
    }

    method HandOut(batch: Record, open: bool, closing: bool) returns (r: Converted)
      modifies this`pending
      ensures (View(), r) == HandedOut(old(View()), batch, open, closing)
    {
      var reencoded: seq<Record> := [];
      if closing {
        if true in dict {
          reencoded := ReencodeAll(pending, dict, batch.schema);
        }
        pending := [];
      } else if open {
        pending := pending + [batch];
      }
      return Converted(batch, reencoded);
    }

    method Convert(rows: seq<Row>, show: Value -> string) returns (r: Converted)
      modifies this
      ensures (View(), r) == ConvertStep(old(View()), rows, show)
    {
      var open := batchesSeen < sampleBatches;
      Prepare(rows);
      var closing := open && batchesSeen >= sampleBatches;
      var batch, lost := Build(rows, show);
      Note(batch, lost, closing);
      r := HandOut(batch, open, closing);
    }
  }
}

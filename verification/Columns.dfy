/**
  Turning a column of values into a typed column and reading it back: how a column's kind is
  inferred, what each kind's builder keeps, and what the reader makes of it.
 */
module Columns {
  import opened Wrappers
  import opened Utf8
  import opened Values
  import Decimal
  import Sequences

  datatype ColKind =
    | NullKind
    | BoolKind
    | I64Kind
    | U64Kind
    | F64Kind
    | DateKind
    | TimeKind
    | TimestampKind(zone: Option<string>)
    | UuidKind
    | BytesKind
    | StrKind
    | TextKind

  datatype LogicalType =
    | LNull | LBool | LI64 | LU64 | LF64 | LDate | LTime | LTimestamp | LUuid | LBytes | LStr | LOther

  // ---- Kind inference. ----

  function Merge(a: ColKind, b: ColKind): ColKind {
    if b == NullKind then a
    else if a == NullKind then b
    else if a == b then a
    else TextKind
  }

  /** What a semilattice fold needs; with Text on top it also justifies stopping early. */
  lemma MergeLaws(a: ColKind, b: ColKind, c: ColKind)
    ensures Merge(Merge(a, b), c) == Merge(a, Merge(b, c))
    ensures Merge(a, b) == Merge(b, a) && Merge(a, a) == a
    ensures Merge(a, NullKind) == a && Merge(a, TextKind) == TextKind
  {
  }

  function TwoDigits(n: nat): string
    requires n < 100
  {
    [(n / 10 + 48) as char, (n % 10 + 48) as char]
  }

  /** An offset zone's name; hours past two digits cannot happen below a hundred hours. */
  function OffsetName(minutes: int): string {
    var m := if minutes < 0 then -minutes else minutes;
    [if minutes < 0 then '-' else '+']
    + (if m < 6000 then TwoDigits(m / 60) else Decimal.Print(m / 60)) + [':'] + TwoDigits(m % 60)
  }

  function ZoneName(tz: TzSpec): Option<string> {
    match tz
    case Naive => None
    case Utc => Some("UTC")
    case Named(name) => Some(name)
    case Offset(minutes) => Some(OffsetName(minutes))
  }

  function ZoneOf(name: Option<string>): TzSpec {
    match name
    case None => Naive
    case Some(n) => if n == "UTC" then Utc else Named(n)
  }

  function KindOf(v: Value): ColKind {
    match v
    case Null => NullKind
    case Absent => NullKind
    case Bool(_) => BoolKind
    case I64(_) => I64Kind
    case U64(_) => U64Kind
    case F64(_) => F64Kind
    case Date(_) => DateKind
    case Time(_) => TimeKind
    case Timestamp(_, tz) => TimestampKind(ZoneName(tz))
    case Uuid(_) => UuidKind
    case Bytes(_) => BytesKind
    case Str(_) => StrKind
    case _ => TextKind
  }

  function DeclaredKind(logical: LogicalType): ColKind {
    match logical
    case LNull => NullKind
    case LBool => BoolKind
    case LI64 => I64Kind
    case LU64 => U64Kind
    case LF64 => F64Kind
    case LDate => DateKind
    case LTime => TimeKind
    case LTimestamp => NullKind
    case LUuid => UuidKind
    case LBytes => BytesKind
    case LStr => StrKind
    case LOther => TextKind
  }

  function Folded(start: ColKind, cells: seq<Value>): ColKind {
    if cells == [] then start else Merge(Folded(start, cells[..|cells| - 1]), KindOf(cells[|cells| - 1]))
  }

  lemma {:induction false} FoldedText(cells: seq<Value>, k: nat, start: ColKind)
    requires k <= |cells| && Folded(start, cells[..k]) == TextKind
    ensures Folded(start, cells) == TextKind
    decreases |cells| - k
  {
    if k == |cells| {
      assert cells[..k] == cells;
    } else {
      assert cells[..k + 1][..k] == cells[..k];
      FoldedText(cells, k + 1, start);
    }
  }

  /** The loop over a column: it may stop at Text because nothing leads away from it. */
  method DecideKind(start: ColKind, cells: seq<Value>) returns (kind: ColKind)
    ensures kind == Folded(start, cells)
  {
    kind := start;
    for i := 0 to |cells|
      invariant kind == Folded(start, cells[..i])
    {
      assert cells[..i + 1][..i] == cells[..i];
      kind := Merge(kind, KindOf(cells[i]));
      if kind == TextKind {
        FoldedText(cells, i + 1, start);
        return;
      }
    }
    assert cells[..|cells|] == cells;
  }

  lemma FoldedSnoc(start: ColKind, cells: seq<Value>, v: Value)
    ensures Folded(start, cells + [v]) == Merge(Folded(start, cells), KindOf(v))
  {
    assert (cells + [v])[..|cells|] == cells;
  }

  /** Taking one cell out of the middle and merging it last changes nothing. */
  lemma {:induction false} FoldedMiddle(start: ColKind, a: seq<Value>, v: Value, b: seq<Value>)
    ensures Folded(start, a + [v] + b) == Merge(Folded(start, a + b), KindOf(v))
    decreases |b|
  {
    if b == [] {
      assert a + [v] + b == a + [v] && a + b == a;
      FoldedSnoc(start, a, v);
    } else {
      var init, last := b[..|b| - 1], b[|b| - 1];
      assert a + [v] + b == (a + [v] + init) + [last];
      assert a + b == (a + init) + [last];
      FoldedSnoc(start, a + [v] + init, last);
      FoldedSnoc(start, a + init, last);
      FoldedMiddle(start, a, v, init);
      MergeSwap(Folded(start, a + init), KindOf(v), KindOf(last));
    }
  }

  lemma MergeSwap(a: ColKind, b: ColKind, c: ColKind)
    ensures Merge(Merge(a, b), c) == Merge(Merge(a, c), b)
  {
  }

  /** The kind of a column does not depend on the order of its rows. */
  lemma {:induction false} KindIgnoresOrder(start: ColKind, a: seq<Value>, b: seq<Value>)
    requires multiset(a) == multiset(b)
    ensures Folded(start, a) == Folded(start, b)
    decreases |a|
  {
    if a == [] {
      Sequences.EmptyRearrangement(b);
    } else {
      var k := Sequences.FindInRearrangement(a, b);
      Sequences.RemoveFromBoth(a, b, k);
      assert b == b[..k] + [b[k]] + b[k + 1..];
      FoldedMiddle(start, b[..k], b[k], b[k + 1..]);
      assert a == [] + [a[0]] + a[1..] && [] + a[1..] == a[1..];
      FoldedMiddle(start, [], a[0], a[1..]);
      KindIgnoresOrder(start, a[1..], b[..k] + b[k + 1..]);
    }
  }

  /** A kind other than Text fits the declared kind and every cell: each is that kind, or null. */
  lemma {:induction false} FoldedFitsEach(start: ColKind, cells: seq<Value>)
    requires Folded(start, cells) != TextKind
    ensures start == NullKind || start == Folded(start, cells)
    ensures forall v | v in cells :: KindOf(v) == NullKind || KindOf(v) == Folded(start, cells)
  {
    if cells != [] {
      var last := |cells| - 1;
      FoldedFitsEach(start, cells[..last]);
      forall v | v in cells ensures KindOf(v) == NullKind || KindOf(v) == Folded(start, cells) {
        assert v in cells[..last] || v == cells[last];
      }
    }
  }

  lemma {:induction false} FoldedExactly(start: ColKind, cells: seq<Value>, kind: ColKind)
    requires kind != TextKind
    ensures Folded(start, cells) == kind <==>
              && (start == NullKind || start == kind)
              && (forall v | v in cells :: KindOf(v) == NullKind || KindOf(v) == kind)
              && (start == kind || exists v | v in cells :: KindOf(v) == kind)
  {
    if cells != [] {
      var init, last := cells[..|cells| - 1], cells[|cells| - 1];
      FoldedExactly(start, init, kind);
      FoldedExactly(start, init, NullKind);
      assert cells == init + [last];
      assert forall v :: v in cells <==> v in init || v == last;
    }
  }

  /** The values a column of this kind is made for. */
  predicate MadeFor(kind: ColKind, v: Value) {
    || (v.Bool? && kind == BoolKind) || (v.I64? && kind == I64Kind) || (v.U64? && kind == U64Kind)
    || (v.F64? && kind == F64Kind) || (v.Date? && kind == DateKind) || (v.Time? && kind == TimeKind)
    || (v.Timestamp? && kind == TimestampKind(ZoneName(v.tz))) || (v.Uuid? && kind == UuidKind)
    || (v.Bytes? && kind == BytesKind) || (v.Str? && kind == StrKind)
  }

  /** The kinds a declared type stands for on its own; timestamps wait for the zone of their first cell. */
  predicate Declares(logical: LogicalType, kind: ColKind) {
    || (kind == BoolKind && logical == LBool) || (kind == I64Kind && logical == LI64)
    || (kind == U64Kind && logical == LU64) || (kind == F64Kind && logical == LF64)
    || (kind == DateKind && logical == LDate) || (kind == TimeKind && logical == LTime)
    || (kind == UuidKind && logical == LUuid) || (kind == BytesKind && logical == LBytes)
    || (kind == StrKind && logical == LStr)
  }

  /**
    Exactly when the first batch gives a column a typed kind: the declared type stands for it, or
    stands for nothing and some cell is of it, and every cell is of it or null. A column of nulls whose
    declared type stands for nothing is of the Null kind, and every other column is text.
   */
  lemma FixedKindExactly(logical: LogicalType, cells: seq<Value>, kind: ColKind)
    requires kind != TextKind && kind != NullKind
    ensures Folded(DeclaredKind(logical), cells) == kind <==>
              && (Declares(logical, kind) || logical == LNull || logical == LTimestamp)
              && (forall v | v in cells :: v.Null? || v.Absent? || MadeFor(kind, v))
              && (Declares(logical, kind) || exists v | v in cells :: MadeFor(kind, v))
    ensures Folded(DeclaredKind(logical), cells) == NullKind <==>
              (logical == LNull || logical == LTimestamp) && forall v | v in cells :: v.Null? || v.Absent?
  {
    hide Folded, ZoneName;
    FoldedExactly(DeclaredKind(logical), cells, kind);
    FoldedExactly(DeclaredKind(logical), cells, NullKind);
    assert DeclaredKind(logical) == kind <==> Declares(logical, kind);
    assert forall v :: KindOf(v) == kind <==> MadeFor(kind, v);
    assert forall v :: KindOf(v) == NullKind <==> v.Null? || v.Absent?;
  }

  // ---- Columns. ----

  datatype Column =
    | NullColumn(length: nat)
    | BoolColumn(bools: seq<Option<bool>>)
    | I64Column(i64s: seq<Option<Int64>>)
    | U64Column(u64s: seq<Option<UInt64>>)
    | F64Column(f64s: seq<Option<UInt64>>)
    | DateColumn(dates: seq<Option<Int32>>)
    | TimeColumn(times: seq<Option<Int64>>)
    | TimestampColumn(zone: Option<string>, micros: seq<Option<Int64>>)
    | UuidColumn(uuids: seq<Option<seq<Byte>>>)
    | BytesColumn(bytes: seq<Option<seq<Byte>>>)
    | StrColumn(texts: seq<Option<string>>)
    | DictColumn(keys: seq<Option<nat>>, values: seq<string>)

  datatype ArrowType =
    | NullType | BoolType | I64Type | U64Type | F64Type | DateType | TimeType
    | TimestampType(zone: Option<string>)
    | UuidType | BytesType | StrType | DictType

  function TypeOf(column: Column): ArrowType {
    match column
    case NullColumn(_) => NullType
    case BoolColumn(_) => BoolType
    case I64Column(_) => I64Type
    case U64Column(_) => U64Type
    case F64Column(_) => F64Type
    case DateColumn(_) => DateType
    case TimeColumn(_) => TimeType
    case TimestampColumn(zone, _) => TimestampType(zone)
    case UuidColumn(_) => UuidType
    case BytesColumn(_) => BytesType
    case StrColumn(_) => StrType
    case DictColumn(_, _) => DictType
  }

  function Length(column: Column): nat {
    match column
    case NullColumn(length) => length
    case BoolColumn(xs) => |xs|
    case I64Column(xs) => |xs|
    case U64Column(xs) => |xs|
    case F64Column(xs) => |xs|
    case DateColumn(xs) => |xs|
    case TimeColumn(xs) => |xs|
    case TimestampColumn(_, xs) => |xs|
    case UuidColumn(xs) => |xs|
    case BytesColumn(xs) => |xs|
    case StrColumn(xs) => |xs|
    case DictColumn(xs, _) => |xs|
  }

  /** Keys point into the values. */
  predicate WellFormed(column: Column) {
    column.DictColumn? ==> forall k | 0 <= k < |column.keys| && column.keys[k].Some? :: column.keys[k].value < |column.values|
  }

  function Lift<T>(cell: Option<T>, make: T -> Value): Value {
    if cell.Some? then make(cell.value) else Null
  }

  /** `arrow_cell_to_value`. */
  function CellToValue(column: Column, row: nat): Value
    requires row < Length(column) && WellFormed(column)
  {
    match column
    case NullColumn(_) => Null
    case BoolColumn(xs) => Lift(xs[row], (x: bool) => Bool(x))
    case I64Column(xs) => Lift(xs[row], (x: Int64) => I64(x))
    case U64Column(xs) => Lift(xs[row], (x: UInt64) => U64(x))
    case F64Column(xs) => Lift(xs[row], (x: UInt64) => F64(x))
    case DateColumn(xs) => Lift(xs[row], (x: Int32) => Date(x))
    case TimeColumn(xs) => Lift(xs[row], (x: Int64) => Time(x))
    case TimestampColumn(zone, xs) => Lift(xs[row], (x: Int64) => Timestamp(x, ZoneOf(zone)))
    case UuidColumn(xs) => Lift(xs[row], (x: seq<Byte>) => Uuid(x))
    case BytesColumn(xs) => Lift(xs[row], (x: seq<Byte>) => Bytes(x))
    case StrColumn(xs) => Lift(xs[row], (x: string) => Str(x))
    case DictColumn(keys, values) => if keys[row].Some? then Str(values[keys[row].value]) else Null
  }

  // ---- Building. ----

  predicate IsNull(v: Value) {
    v.Null? || v.Absent?
  }

  /** What a typed builder makes of its cells: nulls stay, values it can take are kept, others become null. */
  function Kept<T>(cells: seq<Value>, pick: Value -> Option<T>): (kept: seq<Option<T>>)
    ensures |kept| == |cells|
    ensures forall k | 0 <= k < |cells| :: kept[k] == if IsNull(cells[k]) then None else pick(cells[k])
  {
    seq(|cells|, k requires 0 <= k < |cells| => if IsNull(cells[k]) then None else pick(cells[k]))
  }

  /** How many cells are neither null nor something the builder can take. */
  function Misfits<T>(cells: seq<Value>, pick: Value -> Option<T>): nat {
    if cells == [] then 0
    else
      var last := |cells| - 1;
      Misfits(cells[..last], pick) + if !IsNull(cells[last]) && pick(cells[last]).None? then 1 else 0
  }

  lemma {:induction false} NoMisfits<T>(cells: seq<Value>, pick: Value -> Option<T>)
    ensures Misfits(cells, pick) == 0 <==> forall v | v in cells :: IsNull(v) || pick(v).Some?
  {
    if cells != [] {
      var last := |cells| - 1;
      NoMisfits(cells[..last], pick);
      assert forall v :: v in cells <==> v in cells[..last] || v == cells[last];
    }
  }

  function PickBool(v: Value): Option<bool> { if v.Bool? then Some(v.b) else None }
  function PickI64(v: Value): Option<Int64> { if v.I64? then Some(v.i) else None }
  function PickU64(v: Value): Option<UInt64> { if v.U64? then Some(v.u) else None }
  function PickF64(v: Value): Option<UInt64> { if v.F64? then Some(v.bits) else None }
  function PickDate(v: Value): Option<Int32> { if v.Date? then Some(v.days) else None }
  function PickTime(v: Value): Option<Int64> { if v.Time? then Some(v.nanos) else None }
  function PickMicros(v: Value): Option<Int64> { if v.Timestamp? then Some(v.micros) else None }
  function PickUuid(v: Value): Option<seq<Byte>> { if v.Uuid? then Some(v.id) else None }
  function PickBytes(v: Value): Option<seq<Byte>> { if v.Bytes? then Some(v.bytes) else None }

  /** `display_value`; `show` prints the kinds whose text is not decided here. */
  function Display(v: Value, show: Value -> string): Option<string> {
    match v
    case Null => None
    case Absent => None
    case Bool(b) => Some(if b then "true" else "false")
    case Decimal(text) => Some(text)
    case Str(s) => Some(s)
    case JsonText(json) => Some(json)
    case _ => Some(show(v))
  }

  function Displayed(cells: seq<Value>, show: Value -> string): (texts: seq<Option<string>>)
    ensures |texts| == |cells|
    ensures forall k | 0 <= k < |cells| :: texts[k] == Display(cells[k], show)
  {
    seq(|cells|, k requires 0 <= k < |cells| => Display(cells[k], show))
  }

  /** Where a text is in a dictionary, or its length if it is new. */
  function PlaceOf(values: seq<string>, s: string): (k: nat)
    ensures k <= |values| && (k < |values| ==> values[k] == s)
    ensures k == |values| ==> s !in values
  {
    if values == [] || values[0] == s then 0 else 1 + PlaceOf(values[1..], s)
  }

  /** A dictionary builder: each text is stored once, where it first appears, and cells point at it. */
  function DictOf(texts: seq<Option<string>>): (seq<Option<nat>>, seq<string>) {
    if texts == [] then ([], [])
    else
      var (keys, values) := DictOf(texts[..|texts| - 1]);
      match texts[|texts| - 1]
      case None => (keys + [None], values)
      case Some(s) => (keys + [Some(PlaceOf(values, s))], if s in values then values else values + [s])
  }

  /** Reading through a dictionary gives back every text and every null, and no text is stored twice. */
  lemma {:induction false} DictDecodes(texts: seq<Option<string>>)
    ensures var (keys, values) := DictOf(texts);
            && |keys| == |texts|
            && (forall k | 0 <= k < |keys| ::
                  if texts[k].None? then keys[k].None?
                  else keys[k].Some? && keys[k].value < |values| && values[keys[k].value] == texts[k].value)
            && (forall i, j | 0 <= i < j < |values| :: values[i] != values[j])
            && (forall v | v in values :: Some(v) in texts)
  {
    if texts != [] {
      var last := |texts| - 1;
      DictDecodes(texts[..last]);
      var (keys, values) := DictOf(texts[..last]);
      forall v | v in DictOf(texts).1 ensures Some(v) in texts {
        if v in values {
          assert Some(v) in texts[..last];
        } else {
          assert texts[last] == Some(v);
        }
      }
    }
  }

  method FindPlace(values: seq<string>, s: string) returns (k: nat)
    ensures k == PlaceOf(values, s)
  {
    k := 0;
    while k < |values| && values[k] != s
      invariant k <= |values| && k + PlaceOf(values[k..], s) == PlaceOf(values, s)
    {
      assert values[k..][1..] == values[k + 1..];
      k := k + 1;
    }
  }

  method BuildDictionary(texts: seq<Option<string>>) returns (keys: seq<Option<nat>>, values: seq<string>)
    ensures (keys, values) == DictOf(texts)
  {
    keys, values := [], [];
    for i := 0 to |texts|
      invariant (keys, values) == DictOf(texts[..i])
    {
      assert texts[..i + 1][..i] == texts[..i];
      if texts[i].None? {
        keys := keys + [None];
      } else {
        var k := FindPlace(values, texts[i].value);
        keys := keys + [Some(k)];
        if k == |values| {
          values := values + [texts[i].value];
        }
      }
    }
    assert texts[..|texts|] == texts;
  }

  /** The builder every typed column shares: nulls stay null, misfits become null and are counted. */
  method Primitive<T>(cells: seq<Value>, pick: Value -> Option<T>) returns (kept: seq<Option<T>>, coerced: nat)
    ensures kept == Kept(cells, pick) && coerced == Misfits(cells, pick)
  {
    kept, coerced := [], 0;
    for i := 0 to |cells|
      invariant kept == Kept(cells, pick)[..i] && coerced == Misfits(cells[..i], pick)
    {
      assert cells[..i + 1][..i] == cells[..i];
      if IsNull(cells[i]) {
        kept := kept + [None];
      } else {
        if pick(cells[i]).None? {
          coerced := coerced + 1;
        }
        kept := kept + [pick(cells[i])];
      }
    }
    assert cells[..|cells|] == cells;
  }

  /** What a column of a fixed kind becomes, and how many cells it could not represent. */
  function Built(kind: ColKind, dict: bool, cells: seq<Value>, show: Value -> string): (Column, nat) {
    match kind
    case NullKind => (NullColumn(|cells|), 0)
    case BoolKind => (BoolColumn(Kept(cells, PickBool)), Misfits(cells, PickBool))
    case I64Kind => (I64Column(Kept(cells, PickI64)), Misfits(cells, PickI64))
    case U64Kind => (U64Column(Kept(cells, PickU64)), Misfits(cells, PickU64))
    case F64Kind => (F64Column(Kept(cells, PickF64)), Misfits(cells, PickF64))
    case DateKind => (DateColumn(Kept(cells, PickDate)), Misfits(cells, PickDate))
    case TimeKind => (TimeColumn(Kept(cells, PickTime)), Misfits(cells, PickTime))
    case TimestampKind(zone) => (TimestampColumn(zone, Kept(cells, PickMicros)), Misfits(cells, PickMicros))
    case UuidKind => (UuidColumn(Kept(cells, PickUuid)), 0)
    case BytesKind => (BytesColumn(Kept(cells, PickBytes)), Misfits(cells, PickBytes))
    case StrKind => (if dict then DictColumnOf(Displayed(cells, show)) else StrColumn(Displayed(cells, show)), 0)
    case TextKind => (if dict then DictColumnOf(Displayed(cells, show)) else StrColumn(Displayed(cells, show)), 0)
  }

  function DictColumnOf(texts: seq<Option<string>>): Column {
    var (keys, values) := DictOf(texts);
    DictColumn(keys, values)
  }

  /** `build_column`: one loop per kind, over the cells in row order. */
  method BuildColumn(kind: ColKind, dict: bool, cells: seq<Value>, show: Value -> string)
    returns (column: Column, coerced: nat)
    ensures (column, coerced) == Built(kind, dict, cells, show)
  {
    match kind
    case NullKind =>
      column, coerced := NullColumn(|cells|), 0;
    case BoolKind =>
      var kept, lost := Primitive(cells, PickBool);
      column, coerced := BoolColumn(kept), lost;
    case I64Kind =>
      var kept, lost := Primitive(cells, PickI64);
      column, coerced := I64Column(kept), lost;
    case U64Kind =>
      var kept, lost := Primitive(cells, PickU64);
      column, coerced := U64Column(kept), lost;
    case F64Kind =>
      var kept, lost := Primitive(cells, PickF64);
      column, coerced := F64Column(kept), lost;
    case DateKind =>
      var kept, lost := Primitive(cells, PickDate);
      column, coerced := DateColumn(kept), lost;
    case TimeKind =>
      var kept, lost := Primitive(cells, PickTime);
      column, coerced := TimeColumn(kept), lost;
    case TimestampKind(zone) =>
      var kept, lost := Primitive(cells, PickMicros);
      column, coerced := TimestampColumn(zone, kept), lost;
    case UuidKind =>
      // A cell that is no UUID becomes null here without being counted.
      var kept, _ := Primitive(cells, PickUuid);
      column, coerced := UuidColumn(kept), 0;
    case BytesKind =>
      var kept, lost := Primitive(cells, PickBytes);
      column, coerced := BytesColumn(kept), lost;
    case _ =>
      var texts := BuildTexts(cells, show);
      if dict {
        var keys, values := BuildDictionary(texts);
        column, coerced := DictColumn(keys, values), 0;
      } else {
        column, coerced := StrColumn(texts), 0;
      }
  }

  method BuildTexts(cells: seq<Value>, show: Value -> string) returns (texts: seq<Option<string>>)
    ensures texts == Displayed(cells, show)
  {
    texts := [];
    for i := 0 to |cells|
      invariant texts == Displayed(cells, show)[..i]
    {
      texts := texts + [Display(cells[i], show)];
    }
  }

  lemma BuiltShape(kind: ColKind, dict: bool, cells: seq<Value>, show: Value -> string)
    ensures var column := Built(kind, dict, cells, show).0;
            WellFormed(column) && Length(column) == |cells|
  {
    DictDecodes(Displayed(cells, show));
  }

  // ---- What a reader gets back. ----

  /** A value as it comes back: `Absent` is null, and a zone is known by its name only. */
  function Canonical(v: Value): Value {
    match v
    case Absent => Null
    case Timestamp(micros, tz) => Timestamp(micros, ZoneOf(ZoneName(tz)))
    case _ => v
  }

  /** The zone a reader sees: offsets come back as named zones, and a zone named UTC as UTC itself. */
  lemma CanonicalZone(tz: TzSpec)
    ensures ZoneOf(ZoneName(tz))
         == match tz
            case Naive => Naive
            case Utc => Utc
            case Named(name) => if name == "UTC" then Utc else Named(name)
            case Offset(minutes) => Named(OffsetName(minutes))
  {
    if tz.Offset? {
      assert OffsetName(tz.minutes)[0] != "UTC"[0];
    }
  }

  /** Whether a column of this kind can hold this value as it is. */
  predicate Fits(kind: ColKind, v: Value) {
    IsNull(v) || KindOf(v) == kind
  }

  /** What a column of a kind fixed earlier keeps of a cell. */
  function Remains(kind: ColKind, v: Value, show: Value -> string): Value {
    if kind == NullKind || IsNull(v) then Null
    else if kind == StrKind || kind == TextKind then Str(Display(v, show).value)
    else if v.Timestamp? && kind.TimestampKind? then Timestamp(v.micros, ZoneOf(kind.zone))
    else if KindOf(v) == kind then v
    else Null
  }

  /**
    What comes back from a column of each kind, told by the cell alone: the cell itself where the
    column is made for it, a timestamp in the column's zone, the text of anything in a text column,
    and null otherwise.
   */
  lemma RemainsExactly(kind: ColKind, v: Value, show: Value -> string)
    ensures var back := Remains(kind, v, show);
            && (v.Null? || v.Absent? ==> back == Null)
            && (kind == NullKind ==> back == Null)
            && (!v.Null? && !v.Absent? && (kind == StrKind || kind == TextKind) ==>
                  && back.Str?
                  && (v.Bool? ==> back.s == if v.b then "true" else "false")
                  && (v.Str? ==> back.s == v.s)
                  && (v.Decimal? ==> back.s == v.text)
                  && (v.JsonText? ==> back.s == v.json)
                  && (!v.Bool? && !v.Str? && !v.Decimal? && !v.JsonText? ==> back.s == show(v)))
            && (v.Timestamp? && kind.TimestampKind? ==>
                  back == Timestamp(v.micros, match kind.zone
                                              case None => Naive
                                              case Some(name) => if name == "UTC" then Utc else Named(name)))
            && (!v.Timestamp? && MadeFor(kind, v) ==> back == v)
            && (!MadeFor(kind, v) && !(v.Timestamp? && kind.TimestampKind?) && kind != StrKind && kind != TextKind ==>
                  back == Null)
  {
  }

  lemma TextsReadBack(texts: seq<Option<string>>, row: nat)
    requires row < |texts|
    ensures ComesBack(StrColumn(texts), row, Lift(texts[row], (x: string) => Str(x)))
    ensures ComesBack(DictColumnOf(texts), row, Lift(texts[row], (x: string) => Str(x)))
  {
    DictDecodes(texts);
  }

  lemma TextReadBack(kind: ColKind, dict: bool, cells: seq<Value>, show: Value -> string, row: nat)
    requires row < |cells| && (kind == StrKind || kind == TextKind)
    ensures ComesBack(Built(kind, dict, cells, show).0, row, Remains(kind, cells[row], show))
  {
    var texts := Displayed(cells, show);
    TextsReadBack(texts, row);
    assert texts[row] == Display(cells[row], show);
    assert Lift(texts[row], (x: string) => Str(x)) == Remains(kind, cells[row], show);
  }

  lemma TypedReadBack(kind: ColKind, dict: bool, cells: seq<Value>, show: Value -> string, row: nat)
    requires row < |cells| && kind != StrKind && kind != TextKind
    ensures ComesBack(Built(kind, dict, cells, show).0, row, Remains(kind, cells[row], show))
  {
    match kind
    case NullKind =>
    case BoolKind => assert Kept(cells, PickBool)[row] == if IsNull(cells[row]) then None else PickBool(cells[row]);
    case I64Kind =>
    case U64Kind =>
    case F64Kind =>
    case DateKind =>
    case TimeKind =>
    case TimestampKind(zone) =>
    case UuidKind =>
    case BytesKind =>
  }

  /** Cell by cell, for any batch and any kind: exactly what comes back. */
  lemma ReadBack(kind: ColKind, dict: bool, cells: seq<Value>, show: Value -> string, row: nat)
    requires row < |cells|
    ensures ComesBack(Built(kind, dict, cells, show).0, row, Remains(kind, cells[row], show))
  {
    if kind == StrKind || kind == TextKind {
      TextReadBack(kind, dict, cells, show, row);
    } else {
      TypedReadBack(kind, dict, cells, show, row);
    }
  }

  /** The kinds whose builder counts what it cannot hold. */
  predicate Counts(kind: ColKind) {
    !kind.NullKind? && !kind.UuidKind? && !kind.StrKind? && !kind.TextKind?
  }

  predicate Taken(kind: ColKind, v: Value) {
    Fits(kind, v) || (kind.TimestampKind? && v.Timestamp?)
  }

  /** For those kinds the count is zero exactly when every cell could be held. */
  lemma CountsExactly(kind: ColKind, dict: bool, cells: seq<Value>, show: Value -> string)
    ensures Counts(kind) ==>
              (Built(kind, dict, cells, show).1 == 0 <==> forall v | v in cells :: Taken(kind, v))
    ensures !Counts(kind) ==> Built(kind, dict, cells, show).1 == 0
  {
    match kind
    case BoolKind => NoMisfits(cells, PickBool);
    case I64Kind => NoMisfits(cells, PickI64);
    case U64Kind => NoMisfits(cells, PickU64);
    case F64Kind => NoMisfits(cells, PickF64);
    case DateKind => NoMisfits(cells, PickDate);
    case TimeKind => NoMisfits(cells, PickTime);
    case TimestampKind(_) => NoMisfits(cells, PickMicros);
    case BytesKind => NoMisfits(cells, PickBytes);
    case _ =>
  }

  lemma FittingComesBack(kind: ColKind, v: Value, show: Value -> string)
    requires Fits(kind, v) && kind != TextKind
    ensures Taken(kind, v) && Remains(kind, v, show) == Canonical(v)
  {
  }

  lemma TextComesBack(v: Value, show: Value -> string)
    ensures Remains(TextKind, v, show) == (if IsNull(v) then Null else Str(Display(v, show).value))
  {
  }

  /** The batch that fixes a column's kind loses nothing: no cell is counted, and every non-text cell comes back. */
  lemma FixingBatchIsLossless(
    logical: LogicalType, dict: bool, cells: seq<Value>, show: Value -> string, row: nat)
    requires row < |cells|
    ensures var kind := Folded(DeclaredKind(logical), cells);
            && Built(kind, dict, cells, show).1 == 0
            && ComesBack(Built(kind, dict, cells, show).0, row,
                 if kind != TextKind then Canonical(cells[row])
                 else if IsNull(cells[row]) then Null else Str(Display(cells[row], show).value))
  {
    FixingBatchCountsNothing(logical, dict, cells, show);
    FixingBatchReadsBack(logical, dict, cells, show, row);
  }

  lemma FixedKindFits(logical: LogicalType, cells: seq<Value>)
    requires Folded(DeclaredKind(logical), cells) != TextKind
    ensures forall v | v in cells :: Fits(Folded(DeclaredKind(logical), cells), v)
  {
    FoldedFitsEach(DeclaredKind(logical), cells);
    forall v | v in cells ensures Fits(Folded(DeclaredKind(logical), cells), v) {
      assert KindOf(v) == NullKind ==> IsNull(v);
    }
  }

  lemma FixingBatchCountsNothing(logical: LogicalType, dict: bool, cells: seq<Value>, show: Value -> string)
    ensures Built(Folded(DeclaredKind(logical), cells), dict, cells, show).1 == 0
  {
    var kind := Folded(DeclaredKind(logical), cells);
    CountsExactly(kind, dict, cells, show);
    if Counts(kind) {
      FixedKindFits(logical, cells);
      assert forall v | v in cells :: Taken(kind, v);
    }
  }

  lemma FixingBatchReadsBack(
    logical: LogicalType, dict: bool, cells: seq<Value>, show: Value -> string, row: nat)
    requires row < |cells|
    ensures var kind := Folded(DeclaredKind(logical), cells);
            ComesBack(Built(kind, dict, cells, show).0, row,
              if kind != TextKind then Canonical(cells[row])
              else if IsNull(cells[row]) then Null else Str(Display(cells[row], show).value))
  {
    var kind := Folded(DeclaredKind(logical), cells);
    ReadBack(kind, dict, cells, show, row);
    if kind == TextKind {
      TextComesBack(cells[row], show);
    } else {
      FixedKindFits(logical, cells);
      FittingComesBack(kind, cells[row], show);
    }
  }

  /** Reading this cell of this column gives this value. */
  predicate ComesBack(column: Column, row: nat, v: Value) {
    WellFormed(column) && row < Length(column) && CellToValue(column, row) == v
  }

  /** A later cell that does not fit is lost; the Null and Uuid kinds are the ones that lose it uncounted. */
  lemma LaterBatchLosesUncounted(kind: ColKind, cells: seq<Value>, show: Value -> string, row: nat)
    requires row < |cells| && !IsNull(cells[row]) && !Taken(kind, cells[row])
    requires kind != StrKind && kind != TextKind
    ensures ComesBack(Built(kind, false, cells, show).0, row, Null)
    ensures Built(kind, false, cells, show).1 == 0 <==> kind.NullKind? || kind.UuidKind?
  {
    ReadBack(kind, false, cells, show, row);
    CountsExactly(kind, false, cells, show);
    assert cells[row] in cells;
  }
}

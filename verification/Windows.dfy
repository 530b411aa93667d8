/** Reading a range of rows out of a store: finding the chunk of a row, and slicing chunk by chunk. */
module Windows {
  import opened Wrappers
  import opened Spill
  import opened Store

  /** A stretch of one chunk: the chunk's rows, and which of them are meant. */
  datatype Slice<V> = Slice(firstRow: nat, content: seq<V>, offset: nat, len: nat)

  datatype Status = Ready | Partial | Pending | AtCap | WasCancelled | HasFailed

  predicate Covers<T, V>(c: Chunk<T, V>, row: nat) {
    c.firstRow <= row < c.firstRow + c.rows
  }

  lemma {:induction false} LaidOrder<T(!new), V(!new)>(chunks: seq<Chunk<T, V>>, rows: nat, i: nat, j: nat)
    requires Laid(chunks, rows) && i < j < |chunks|
    ensures chunks[i].firstRow + chunks[i].rows <= chunks[j].firstRow
    decreases j
  {
    if i + 1 < j {
      LaidOrder(chunks, rows, i, j - 1);
      assert chunks[j].firstRow == chunks[j - 1].firstRow + chunks[j - 1].rows;
    }
  }

  lemma LaidEnd<T(!new), V(!new)>(chunks: seq<Chunk<T, V>>, rows: nat, i: nat)
    requires Laid(chunks, rows) && i < |chunks|
    ensures chunks[i].firstRow + chunks[i].rows <= rows
  {
    if i < |chunks| - 1 {
      LaidOrder(chunks, rows, i, |chunks| - 1);
    }
  }

  lemma {:induction false} CoveringChunk<T(!new), V(!new)>(chunks: seq<Chunk<T, V>>, rows: nat, row: nat) returns (i: nat)
    requires Laid(chunks, rows) && row < rows
    ensures i < |chunks| && Covers(chunks[i], row)
    decreases |chunks|
  {
    var last := |chunks| - 1;
    if row >= chunks[last].firstRow {
      i := last;
    } else {
      i := CoveringChunk(chunks[..last], chunks[last].firstRow, row);
    }
  }

  /** Every row of the store is in exactly one chunk, and no other row is in any. */
  lemma ExactlyOneChunk<T(!new), V(!new)>(chunks: seq<Chunk<T, V>>, rows: nat, row: nat)
    requires Laid(chunks, rows)
    ensures row < rows <==> exists i :: 0 <= i < |chunks| && Covers(chunks[i], row)
    ensures forall i, j | 0 <= i < |chunks| && 0 <= j < |chunks| && Covers(chunks[i], row) && Covers(chunks[j], row) :: i == j
  {
    if row < rows {
      var k := CoveringChunk(chunks, rows, row);
      assert Covers(chunks[k], row);
    }
    forall i | 0 <= i < |chunks| && Covers(chunks[i], row) ensures row < rows {
      LaidEnd(chunks, rows, i);
    }
    forall i, j | 0 <= i < j < |chunks| ensures !(Covers(chunks[i], row) && Covers(chunks[j], row)) {
      LaidOrder(chunks, rows, i, j);
    }
  }

  // ---- How many rows are in memory. ----

  predicate InMemory<T, V>(chunks: seq<Chunk<T, V>>, row: nat) {
    exists i | 0 <= i < |chunks| :: Covers(chunks[i], row) && !chunks[i].body.Spilled?
  }

  function RowsInMemory<T, V>(chunks: seq<Chunk<T, V>>, rows: nat): set<nat> {
    set row: nat | row < rows && InMemory(chunks, row)
  }

  function Stretch(from: nat, len: nat): (s: set<nat>)
    ensures |s| == len
    ensures forall row: nat :: row in s <==> from <= row < from + len
  {
    if len == 0 then {} else Stretch(from, len - 1) + {from + len - 1}
  }

  lemma InMemorySnoc<T(!new), V(!new)>(chunks: seq<Chunk<T, V>>, last: Chunk<T, V>, row: nat)
    ensures InMemory(chunks + [last], row) <==> InMemory(chunks, row) || (Covers(last, row) && !last.body.Spilled?)
  {
    var all := chunks + [last];
    assert all[|chunks|] == last;
    if InMemory(chunks, row) {
      var i :| 0 <= i < |chunks| && Covers(chunks[i], row) && !chunks[i].body.Spilled?;
      assert all[i] == chunks[i];
    }
  }

  lemma InMemoryWithin<T(!new), V(!new)>(chunks: seq<Chunk<T, V>>, rows: nat, row: nat)
    requires Laid(chunks, rows) && InMemory(chunks, row)
    ensures row < rows
  {
    var i :| 0 <= i < |chunks| && Covers(chunks[i], row) && !chunks[i].body.Spilled?;
    LaidEnd(chunks, rows, i);
  }

  lemma LaidInit<T(!new), V(!new)>(chunks: seq<Chunk<T, V>>, last: Chunk<T, V>, rows: nat)
    requires Laid(chunks + [last], rows)
    ensures Laid(chunks, last.firstRow) && rows == last.firstRow + last.rows
  {
    var all := chunks + [last];
    assert all[|chunks|] == last;
    assert forall i | 0 <= i < |chunks| :: all[i] == chunks[i];
  }

  /** One chunk more adds its own rows, if it is in memory. */
  lemma RowsInMemorySnoc<T(!new), V(!new)>(chunks: seq<Chunk<T, V>>, last: Chunk<T, V>, rows: nat)
    requires Laid(chunks + [last], rows)
    ensures |RowsInMemory(chunks + [last], rows)|
         == |RowsInMemory(chunks, last.firstRow)| + if last.body.Spilled? then 0 else last.rows
  {
    hide InMemory, Laid;
    LaidInit(chunks, last, rows);
    var before := RowsInMemory(chunks, last.firstRow);
    var more := if last.body.Spilled? then {} else Stretch(last.firstRow, last.rows);
    forall row: nat ensures row in RowsInMemory(chunks + [last], rows) <==> row in before || row in more {
      InMemorySnoc(chunks, last, row);
      if InMemory(chunks, row) {
        InMemoryWithin(chunks, last.firstRow, row);
      }
    }
    assert RowsInMemory(chunks + [last], rows) == before + more;
    assert before !! more;
  }

  /** The count of resident rows is the number of rows in memory. */
  lemma {:induction false} ResidentRowsExactly<T(!new), V(!new)>(chunks: seq<Chunk<T, V>>, rows: nat)
    requires Laid(chunks, rows)
    ensures ResidentRows(chunks) == |RowsInMemory(chunks, rows)|
    decreases |chunks|
  {
    hide InMemory, Laid;
    if chunks == [] {
      NoneInMemory<T, V>(rows);
    } else {
      var init, last := chunks[..|chunks| - 1], chunks[|chunks| - 1];
      assert chunks == init + [last];
      LaidInit(init, last, rows);
      ResidentRowsExactly(init, last.firstRow);
      RowsInMemorySnoc(init, last, rows);
    }
  }

  lemma NoneInMemory<T(!new), V(!new)>(rows: nat)
    ensures RowsInMemory<T, V>([], rows) == {}
  {
  }

  lemma NoneBelow<T(!new), V(!new)>(chunks: seq<Chunk<T, V>>, rows: nat, low: nat, row: nat)
    requires Laid(chunks, rows) && low <= |chunks|
    requires low > 0 ==> chunks[low - 1].firstRow + chunks[low - 1].rows <= row
    ensures forall i | 0 <= i < low :: !Covers(chunks[i], row)
  {
    forall i | 0 <= i < low ensures !Covers(chunks[i], row) {
      if i < low - 1 {
        LaidOrder(chunks, rows, i, low - 1);
      }
    }
  }

  lemma NoneFrom<T(!new), V(!new)>(chunks: seq<Chunk<T, V>>, rows: nat, high: nat, row: nat)
    requires Laid(chunks, rows) && high <= |chunks|
    requires high < |chunks| ==> row < chunks[high].firstRow
    ensures forall i | high <= i < |chunks| :: !Covers(chunks[i], row)
  {
    forall i | high <= i < |chunks| ensures !Covers(chunks[i], row) {
      if high < i {
        LaidOrder(chunks, rows, high, i);
      }
    }
  }

  /** `chunk_of`: a binary search over the chunks' ranges. */
  method ChunkOf<T(!new), V(!new)>(chunks: seq<Chunk<T, V>>, ghost rows: nat, row: nat) returns (r: Option<nat>)
    requires Laid(chunks, rows)
    ensures r.Some? <==> row < rows
    ensures r.Some? ==> r.value < |chunks| && Covers(chunks[r.value], row)
  {
    var low, high := 0, |chunks|;
    while low < high
      invariant low <= high <= |chunks|
      invariant low > 0 ==> chunks[low - 1].firstRow + chunks[low - 1].rows <= row
      invariant high < |chunks| ==> row < chunks[high].firstRow
    {
      var mid := low + (high - low) / 2;
      if row < chunks[mid].firstRow {
        high := mid;
      } else if row >= chunks[mid].firstRow + chunks[mid].rows {
        low := mid + 1;
      } else {
        LaidEnd(chunks, rows, mid);
        return Some(mid);
      }
    }
    NoneBelow(chunks, rows, low, row);
    NoneFrom(chunks, rows, high, row);
    ExactlyOneChunk(chunks, rows, row);
    return None;
  }

  // ---- Windows. ----

  function SliceRows<V>(slice: Slice<V>): seq<V> {
    if slice.offset + slice.len <= |slice.content| then slice.content[slice.offset..slice.offset + slice.len] else []
  }

  /** The rows of the slices, one after another. */
  function Joined<V>(slices: seq<Slice<V>>): seq<V> {
    if slices == [] then [] else Joined(slices[..|slices| - 1]) + SliceRows(slices[|slices| - 1])
  }

  /** A slice holds exactly its rows of the flat sequence, within these bounds. */
  ghost predicate Right<V>(flat: seq<V>, slice: Slice<V>, low: nat, high: nat) {
    && low <= slice.firstRow && slice.firstRow + slice.len <= high <= |flat|
    && slice.len > 0 && slice.offset + slice.len <= |slice.content|
    && SliceRows(slice) == flat[slice.firstRow..slice.firstRow + slice.len]
  }

  function Delivered<V>(slices: seq<Slice<V>>): nat {
    if slices == [] then 0 else Delivered(slices[..|slices| - 1]) + slices[|slices| - 1].len
  }

  /** Right slices deliver the rows they join to, and none is empty. */
  lemma {:induction false} DeliveredIsJoined<V(!new)>(flat: seq<V>, slices: seq<Slice<V>>, low: nat, high: nat)
    requires AllRight(flat, slices, low, high)
    ensures Delivered(slices) == |Joined(slices)|
    ensures Delivered(slices) == 0 <==> slices == []
    decreases |slices|
  {
    if slices != [] {
      var last := |slices| - 1;
      assert Right(flat, slices[last], low, high);
      forall k | 0 <= k < |slices[..last]| ensures Right(flat, slices[..last][k], low, high) {
        assert Right(flat, slices[k], low, high);
      }
      DeliveredIsJoined(flat, slices[..last], low, high);
    }
  }

  function StatusOf(phase: Phase, delivered: nat, wanted: nat): Status {
    if delivered >= wanted then Ready
    else
      match phase
      case Capped => AtCap
      case Cancelled => WasCancelled
      case Failed => HasFailed
      case Complete => Ready
      case Loading => if delivered > 0 then Partial else Pending
      case Parked => if delivered > 0 then Partial else Pending
  }

  /** The spill file as each read finds it: possibly grown since the snapshot, or out of reach. */
  ghost predicate Later(spill: Option<File>, fileAt: nat -> Option<File>) {
    forall row: nat | fileAt(row).Some? && spill.Some? :: Extends(spill.value, fileAt(row).value)
  }

  /** What one step of the window needs: the chunk of a row, read through the file of that moment. */
  function ReadChunk<T, V>(format: Format<T, V>, c: Chunk<T, V>, file: Option<File>): Option<seq<V>> {
    Content(format, file, c.body)
  }

  lemma ReadChunkShows<T(!new), V(!new)>(format: Format<T, V>, s: Store<T, V>, i: nat, flat: seq<V>, file: Option<File>)
    requires Agrees(format, s, flat) && SpillSound(s.spill) && i < |s.chunks|
    requires file.Some? && s.spill.Some? ==> Extends(s.spill.value, file.value)
    ensures ReadChunk(format, s.chunks[i], file).Some? ==>
              ReadChunk(format, s.chunks[i], file) == Some(flat[s.chunks[i].firstRow..s.chunks[i].firstRow + s.chunks[i].rows])
    ensures file.Some? || !s.chunks[i].body.Spilled? ==> ReadChunk(format, s.chunks[i], file).Some?
  {
    assert ChunkShows(format, s.spill, s.chunks[i], flat);
    if s.chunks[i].body.Spilled? && file.Some? {
      ContentStays(format, s.spill, file.value, s.chunks[i], flat);
    }
  }

  ghost predicate AllRight<V>(flat: seq<V>, slices: seq<Slice<V>>, low: nat, high: nat) {
    forall k | 0 <= k < |slices| :: Right(flat, slices[k], low, high)
  }

  predicate InOrder<V>(slices: seq<Slice<V>>) {
    forall k, m | 0 <= k < m < |slices| :: slices[k].firstRow + slices[k].len <= slices[m].firstRow
  }

  /** The slice a chunk contributes, and that it is right. */
  lemma NextSlice<V(!new)>(flat: seq<V>, content: seq<V>, first: nat, rows: nat, row: nat, len: nat)
    requires first <= row && row + len <= first + rows <= |flat| && len > 0
    requires content == flat[first..first + rows]
    ensures Right(flat, Slice(row, content, row - first, len), row, row + len)
  {
    var a := content[row - first..row - first + len];
    var b := flat[row..row + len];
    assert |a| == |b| && forall k | 0 <= k < |a| :: a[k] == b[k];
  }

  /** One more right slice at the end of right slices. */
  lemma SlicesGrow<V(!new)>(flat: seq<V>, slices: seq<Slice<V>>, slice: Slice<V>, low: nat, high: nat, higher: nat)
    requires AllRight(flat, slices, low, high) && InOrder(slices) && low <= high <= higher
    requires Right(flat, slice, high, higher)
    ensures AllRight(flat, slices + [slice], low, higher) && InOrder(slices + [slice])
  {
    forall k | 0 <= k < |slices| ensures slices[k].firstRow + slices[k].len <= slice.firstRow {
      assert Right(flat, slices[k], low, high);
    }
    forall k | 0 <= k < |slices + [slice]| ensures Right(flat, (slices + [slice])[k], low, higher) {
      if k < |slices| {
        assert Right(flat, slices[k], low, high);
      }
    }
  }

  lemma JoinedGrows<V(!new)>(flat: seq<V>, slices: seq<Slice<V>>, slice: Slice<V>, low: nat, high: nat)
    requires low <= high && high == slice.firstRow && high + slice.len <= |flat|
    requires Joined(slices) == flat[low..high] && SliceRows(slice) == flat[high..high + slice.len]
    ensures Joined(slices + [slice]) == flat[low..high + slice.len]
  {
    assert (slices + [slice])[..|slices|] == slices;
    assert flat[low..high] + flat[high..high + slice.len] == flat[low..high + slice.len];
  }

  lemma RightWidens<V(!new)>(flat: seq<V>, slices: seq<Slice<V>>, low: nat, high: nat, higher: nat)
    requires AllRight(flat, slices, low, high) && high <= higher <= |flat|
    ensures AllRight(flat, slices, low, higher)
  {
    forall k | 0 <= k < |slices| ensures Right(flat, slices[k], low, higher) {
      assert Right(flat, slices[k], low, high);
    }
  }

  /** The window's end: what was asked for, up to what there is. */
  function EndOf(rows: nat, start: nat, end: nat): nat {
    if start >= rows || end < start then start else Min(end, rows)
  }

  lemma AgreesLength<T(!new), V(!new)>(format: Format<T, V>, s: Store<T, V>, flat: seq<V>)
    requires Agrees(format, s, flat)
    ensures |flat| == s.rows && Laid(s.chunks, s.rows)
  {
  }

  // ---- Which chunks a window brings. ----

  /** There is a slice of these rows. */
  predicate HasSlice<V>(slices: seq<Slice<V>>, first: nat, len: nat) {
    exists k | 0 <= k < |slices| :: slices[k].firstRow == first && slices[k].len == len
  }

  /** A chunk in memory can always be read, a spilled one when the file could be opened. */
  predicate Readable<T, V>(c: Chunk<T, V>, file: Option<File>) {
    c.body.Spilled? ==> file.Some?
  }

  function FirstOf<T, V>(c: Chunk<T, V>, start: nat): nat {
    if c.firstRow < start then start else c.firstRow
  }

  /** Every chunk with rows in the stretch that could be read has brought exactly those of its rows. */
  ghost predicate Fetched<T, V>(
    chunks: seq<Chunk<T, V>>, slices: seq<Slice<V>>, start: nat, cut: nat, fileAt: nat -> Option<File>)
  {
    forall i | 0 <= i < |chunks| ::
      var first, last := FirstOf(chunks[i], start), Min(chunks[i].firstRow + chunks[i].rows, cut);
      first < last && Readable(chunks[i], fileAt(first)) ==> HasSlice(slices, first, last - first)
  }

  /** The next row to read is the window's first or the first of a chunk. */
  predicate AtEdge<T, V>(chunks: seq<Chunk<T, V>>, start: nat, row: nat) {
    row == start || forall i | 0 <= i < |chunks| && Covers(chunks[i], row) :: chunks[i].firstRow == row
  }

  lemma EdgeAfter<T(!new), V(!new)>(chunks: seq<Chunk<T, V>>, rows: nat, start: nat, k: nat)
    requires Laid(chunks, rows) && k < |chunks|
    ensures AtEdge(chunks, start, chunks[k].firstRow + chunks[k].rows)
  {
    var next := chunks[k].firstRow + chunks[k].rows;
    forall i | 0 <= i < |chunks| && Covers(chunks[i], next) ensures chunks[i].firstRow == next {
      if i < k {
        LaidOrder(chunks, rows, i, k);
      } else if k < i {
        LaidOrder(chunks, rows, k, i);
      }
    }
  }

  lemma NothingFetched<T(!new), V(!new)>(chunks: seq<Chunk<T, V>>, start: nat, fileAt: nat -> Option<File>)
    ensures Fetched(chunks, [], start, start, fileAt)
  {
  }

  /** Reading the chunk of the next row, or failing to, leaves every chunk up to there accounted for. */
  lemma FetchedOneMore<T(!new), V(!new)>(
    chunks: seq<Chunk<T, V>>, rows: nat, slices: seq<Slice<V>>, after: seq<Slice<V>>, start: nat, cut: nat, higher: nat,
    fileAt: nat -> Option<File>, k: nat)
    requires Laid(chunks, rows) && k < |chunks| && Covers(chunks[k], cut) && start <= cut
    requires Fetched(chunks, slices, start, cut, fileAt) && AtEdge(chunks, start, cut)
    requires higher <= chunks[k].firstRow + chunks[k].rows && cut < higher
    requires slices <= after && (Readable(chunks[k], fileAt(cut)) ==> HasSlice(after, cut, higher - cut))
    ensures Fetched(chunks, after, start, higher, fileAt)
  {
    forall i | 0 <= i < |chunks|
      ensures var first, last := FirstOf(chunks[i], start), Min(chunks[i].firstRow + chunks[i].rows, higher);
              first < last && Readable(chunks[i], fileAt(first)) ==> HasSlice(after, first, last - first)
    {
      if i < k {
        LaidOrder(chunks, rows, i, k);
        SlicesStay(slices, after, FirstOf(chunks[i], start),
                   Min(chunks[i].firstRow + chunks[i].rows, cut) - FirstOf(chunks[i], start));
      } else if k < i {
        LaidOrder(chunks, rows, k, i);
      }
    }
  }

  lemma SlicesStay<V(!new)>(slices: seq<Slice<V>>, after: seq<Slice<V>>, first: nat, len: int)
    requires slices <= after
    ensures len >= 0 && HasSlice(slices, first, len) ==> HasSlice(after, first, len)
  {
    if len >= 0 && HasSlice(slices, first, len) {
      var k :| 0 <= k < |slices| && slices[k].firstRow == first && slices[k].len == len;
      assert after[k] == slices[k];
    }
  }

  /** One turn of the loop: the chunk of a row, read, cut to the window; and the row after that chunk. */
  method NextOf<T(!new), V(!new)>(
    format: Format<T, V>, s: Store<T, V>, ghost flat: seq<V>, row: nat, stop: nat, file: Option<File>)
    returns (got: Option<Slice<V>>, next: nat, ghost at: nat)
    requires Agrees(format, s, flat) && SpillSound(s.spill) && row < stop <= s.rows
    requires file.Some? && s.spill.Some? ==> Extends(s.spill.value, file.value)
    ensures next > row
    ensures got.Some? ==> Right(flat, got.value, row, Min(stop, next)) && got.value.firstRow == row
                          && row + got.value.len == Min(stop, next)
    ensures at < |s.chunks| && Covers(s.chunks[at], row) && next == s.chunks[at].firstRow + s.chunks[at].rows
    ensures Readable(s.chunks[at], file) ==> got.Some?
  {
    hide Agrees, SpillSound, Right, ReadChunk, Laid;
    AgreesLength(format, s, flat);
    var found := ChunkOf(s.chunks, s.rows, row);
    var chunk := s.chunks[found.value];
    at := found.value;
    LaidEnd(s.chunks, s.rows, found.value);
    ReadChunkShows(format, s, found.value, flat, file);
    var content := ReadChunk(format, chunk, file);
    next := chunk.firstRow + chunk.rows;
    var len: nat := Min(stop, next) - row;
    if content.None? {
      return None, next, at;
    }
    NextSlice(flat, content.value, chunk.firstRow, chunk.rows, row, len);
    return Some(Slice(row, content.value, row - chunk.firstRow, len)), next, at;
  }

  /** Slices that are right and in order; and, while every read has worked, all of the rows so far. */
  ghost predicate Progress<V>(flat: seq<V>, slices: seq<Slice<V>>, start: nat, cut: nat, whole: bool) {
    && start <= cut <= |flat|
    && AllRight(flat, slices, start, cut) && InOrder(slices)
    && (whole ==> Joined(slices) == flat[start..cut])
  }

  lemma NoSlices<V(!new)>(flat: seq<V>, start: nat, high: nat)
    ensures AllRight(flat, [], start, high) && InOrder<V>([])
    ensures start <= |flat| ==> Joined<V>([]) == flat[start..start]
  {
  }

  lemma RightMeans<V(!new)>(flat: seq<V>, slice: Slice<V>, low: nat, high: nat)
    requires Right(flat, slice, low, high)
    ensures slice.firstRow + slice.len <= high <= |flat|
    ensures SliceRows(slice) == flat[slice.firstRow..slice.firstRow + slice.len]
  {
  }

  lemma ProgressStarts<V(!new)>(flat: seq<V>, start: nat)
    requires start <= |flat|
    ensures Progress(flat, [], start, start, true)
  {
  }

  lemma ProgressGot<V(!new)>(flat: seq<V>, slices: seq<Slice<V>>, slice: Slice<V>, start: nat, cut: nat, next: nat, whole: bool)
    requires Progress(flat, slices, start, cut, whole)
    requires Right(flat, slice, cut, next) && slice.firstRow == cut && cut + slice.len == next
    ensures Progress(flat, slices + [slice], start, next, whole)
  {
    hide Right, AllRight, InOrder, Joined, SliceRows;
    RightMeans(flat, slice, cut, next);
    SlicesGrow(flat, slices, slice, start, cut, next);
    if whole {
      JoinedGrows(flat, slices, slice, start, cut);
    }
  }

  lemma ProgressMissed<V(!new)>(flat: seq<V>, slices: seq<Slice<V>>, start: nat, cut: nat, next: nat, whole: bool)
    requires Progress(flat, slices, start, cut, whole) && cut <= next <= |flat|
    ensures Progress(flat, slices, start, next, false)
  {
    RightWidens(flat, slices, start, cut, next);
  }

  lemma SliceAdded<V(!new)>(before: seq<Slice<V>>, after: seq<Slice<V>>, row: nat, len: nat)
    ensures |after| == |before| + 1 && after[|before|].firstRow == row && after[|before|].len == len ==> HasSlice(after, row, len)
  {
  }

  method ReadSlices<T(!new), V(!new)>(
    format: Format<T, V>, s: Store<T, V>, ghost flat: seq<V>, start: nat, stop: nat, fileAt: nat -> Option<File>)
    returns (slices: seq<Slice<V>>, ghost whole: bool)
    requires Agrees(format, s, flat) && SpillSound(s.spill) && Later(s.spill, fileAt)
    requires start <= stop <= s.rows == |flat|
    ensures Progress(flat, slices, start, stop, whole)
    ensures (forall row: nat :: fileAt(row).Some?) ==> whole
    ensures Fetched(s.chunks, slices, start, stop, fileAt)
  {
    hide Agrees, SpillSound, Right, Progress, Fetched, Laid;
    AgreesLength(format, s, flat);
    NothingFetched<T, V>(s.chunks, start, fileAt);
    slices := [];
    ProgressStarts(flat, start);
    var row := start;
    ghost var cut: nat := start;
    whole := true;
    while row < stop
      invariant start <= cut == Min(row, stop)
      invariant Progress(flat, slices, start, cut, whole)
      invariant (forall r: nat :: fileAt(r).Some?) ==> whole
      invariant Fetched(s.chunks, slices, start, cut, fileAt)
      invariant row < stop ==> AtEdge(s.chunks, start, row)
      decreases stop - row
    {
      var got, next, at := NextOf(format, s, flat, row, stop, fileAt(row));
      ghost var before := slices;
      if got.Some? {
        ProgressGot(flat, slices, got.value, start, row, Min(stop, next), whole);
        slices := slices + [got.value];
      } else {
        ProgressMissed(flat, slices, start, row, Min(stop, next), whole);
        whole := false;
      }
      EdgeAfter(s.chunks, s.rows, start, at);
      SliceAdded(before, slices, row, Min(stop, next) - row);
      FetchedOneMore(s.chunks, s.rows, before, slices, start, row, Min(stop, next), fileAt, at);
      cut := Min(stop, next);
      row := next;
    }
  }

  /**
    `get_rows` over one snapshot, each spilled chunk read from the file of that moment. Every slice
    holds exactly its own rows, in order; when every read works, together they are the whole window.
   */
  method GetRows<T(!new), V(!new)>(
    format: Format<T, V>, s: Store<T, V>, ghost flat: seq<V>, start: nat, end: nat, fileAt: nat -> Option<File>)
    returns (slices: seq<Slice<V>>, status: Status, resumed: bool)
    requires Agrees(format, s, flat) && SpillSound(s.spill) && Later(s.spill, fileAt)
    ensures AllRight(flat, slices, start, EndOf(s.rows, start, end)) && InOrder(slices)
    ensures (forall row: nat :: fileAt(row).Some?) && start <= s.rows ==>
              Joined(slices) == flat[start..EndOf(s.rows, start, end)]
    ensures status == StatusOf(s.phase, Delivered(slices), if end < start then 0 else end - start)
    ensures Fetched(s.chunks, slices, start, EndOf(s.rows, start, end), fileAt)
    ensures var short, loading := |Joined(slices)| < end - start, s.phase.Loading? || s.phase.Parked?;
            && (status.Ready? <==> !short || s.phase.Complete?)
            && (status.AtCap? <==> short && s.phase.Capped?)
            && (status.WasCancelled? <==> short && s.phase.Cancelled?)
            && (status.HasFailed? <==> short && s.phase.Failed?)
            && (status.Partial? <==> short && loading && slices != [])
            && (status.Pending? <==> short && loading && slices == [])
            && (resumed <==> short && loading)
  {
    hide Agrees, SpillSound, Right, Later, AllRight, InOrder, Joined, SliceRows, Fetched;
    AgreesLength(format, s, flat);
    NothingFetched<T, V>(s.chunks, start, fileAt);
    NoSlices(flat, start, EndOf(s.rows, start, end));
    slices := [];
    if start < s.rows {
      ghost var whole;
      slices, whole := ReadSlices(format, s, flat, start, EndOf(s.rows, start, end), fileAt);
    }
    var delivered := Delivered(slices);
    var wanted := if end < start then 0 else end - start;
    status := StatusOf(s.phase, delivered, wanted);
    resumed := delivered < wanted && (s.phase.Loading? || s.phase.Parked?);
    DeliveredIsJoined(flat, slices, start, EndOf(s.rows, start, end));
  }
}

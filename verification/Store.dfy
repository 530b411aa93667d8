/**
  The result store: a list of chunks that together are the rows admitted so far, some resident and
  some spilled to a file, and the window reads over it. `T` is a record of rows, `V` one row.
 */
module Store {
  import opened Wrappers
  import opened Spill

  /** What the store needs to know about records: their rows, their schema, and how they spill. */
  datatype Format<!T, !V> = Format(rowsOf: T -> seq<V>, schemaOf: T -> nat, codec: Codec<T>)

  datatype Body<T, V> = Table(record: T) | Docs(docs: seq<V>) | Spilled(index: nat)

  datatype Chunk<T, V> = Chunk(firstRow: nat, rows: nat, bytes: nat, body: Body<T, V>)

  datatype Phase = Loading | Parked | Capped | Complete | Cancelled | Failed

  /** `held` is what the store's budget lease holds. */
  datatype Store<T, V> = Store(
    phase: Phase,
    rows: nat,
    batches: nat,
    residentBytes: nat,
    spilledBytes: nat,
    chunks: seq<Chunk<T, V>>,
    settled: Option<nat>,
    spill: Option<File>,
    held: nat)

  datatype Policy = Policy(perQueryHot: nat, hotWindowRows: nat, spillLimit: Option<nat>)

  /** A converted batch, with the records that replace the first chunks. */
  datatype Admitted<T, V> = Admitted(rows: nat, bytes: nat, body: Body<T, V>, reencoded: seq<T>)

  function Min(a: int, b: int): int {
    if a <= b then a else b
  }

  function NewStore<T, V>(): Store<T, V> {
    Store(Loading, 0, 0, 0, 0, [], None, None, 0)
  }

  predicate Terminal(phase: Phase) {
    phase.Capped? || phase.Complete? || phase.Cancelled? || phase.Failed?
  }

  // ---- What the chunks hold. ----

  function Content<T, V>(format: Format<T, V>, spill: Option<File>, body: Body<T, V>): Option<seq<V>> {
    match body
    case Table(record) => Some(format.rowsOf(record))
    case Docs(docs) => Some(docs)
    case Spilled(index) =>
      if spill.None? then None
      else
        var record := ReadAt(format.codec, spill.value, index);
        if record.Ok? then Some(format.rowsOf(record.value)) else None
  }

  /** Chunks follow one another from row zero without gaps. */
  predicate Laid<T, V>(chunks: seq<Chunk<T, V>>, rows: nat) {
    && (chunks != [] ==> chunks[0].firstRow == 0)
    && (forall i | 0 <= i < |chunks| - 1 :: chunks[i + 1].firstRow == chunks[i].firstRow + chunks[i].rows)
    && rows == if chunks == [] then 0 else chunks[|chunks| - 1].firstRow + chunks[|chunks| - 1].rows
  }

  ghost predicate ChunkShows<T, V>(format: Format<T, V>, spill: Option<File>, c: Chunk<T, V>, flat: seq<V>) {
    && c.firstRow + c.rows <= |flat|
    && Content(format, spill, c.body) == Some(flat[c.firstRow..c.firstRow + c.rows])
  }

  /** The store is a cache of this flat sequence: every chunk, wherever it is, holds its own stretch of it. */
  ghost predicate Agrees<T, V>(format: Format<T, V>, s: Store<T, V>, flat: seq<V>) {
    && Laid(s.chunks, s.rows) && |flat| == s.rows
    && (forall i | 0 <= i < |s.chunks| :: ChunkShows(format, s.spill, s.chunks[i], flat))
  }

  function TotalBytes<T, V>(chunks: seq<Chunk<T, V>>): nat {
    if chunks == [] then 0 else TotalBytes(chunks[..|chunks| - 1]) + chunks[|chunks| - 1].bytes
  }

  function ResidentRows<T, V>(chunks: seq<Chunk<T, V>>): nat {
    if chunks == [] then 0
    else
      var last := chunks[|chunks| - 1];
      ResidentRows(chunks[..|chunks| - 1]) + if last.body.Spilled? then 0 else last.rows
  }

  predicate SpillSound(spill: Option<File>) {
    spill.Some? ==> Sound(spill.value)
  }

  /** The byte counts agree: what is resident is the chunks' total, and the lease holds that and what is reserved. */
  predicate Books<T, V>(s: Store<T, V>, reserved: nat) {
    && s.residentBytes == TotalBytes(s.chunks)
    && s.held == s.residentBytes + reserved
    && SpillSound(s.spill)
  }

  // ---- Publishing a batch. ----

  function Replaced<T, V>(c: Chunk<T, V>, reencoded: seq<T>, i: nat): Chunk<T, V> {
    if i < |reencoded| && c.body.Table? then c.(body := Table(reencoded[i])) else c
  }

  function ReplacedAll<T, V>(chunks: seq<Chunk<T, V>>, reencoded: seq<T>): (next: seq<Chunk<T, V>>)
    ensures |next| == |chunks|
    ensures forall i | 0 <= i < |chunks| :: next[i] == Replaced(chunks[i], reencoded, i)
  {
    seq(|chunks|, i requires 0 <= i < |chunks| => Replaced(chunks[i], reencoded, i))
  }

  function Published<T, V>(s: Store<T, V>, a: Admitted<T, V>): Store<T, V> {
    s.(chunks := ReplacedAll(s.chunks, a.reencoded) + [Chunk(s.rows, a.rows, a.bytes, a.body)],
       rows := s.rows + a.rows,
       batches := s.batches + 1,
       residentBytes := s.residentBytes + a.bytes,
       phase := if Terminal(s.phase) then s.phase else Loading)
  }

  /** Re-encoding may change how a chunk is stored, never which rows it holds. */
  ghost predicate SameRows<T, V>(format: Format<T, V>, s: Store<T, V>, reencoded: seq<T>) {
    forall i | 0 <= i < |reencoded| && i < |s.chunks| && s.chunks[i].body.Table? ::
      format.rowsOf(reencoded[i]) == format.rowsOf(s.chunks[i].body.record)
  }

  lemma ReplacedShows<T(!new), V(!new)>(
    format: Format<T, V>, s: Store<T, V>, reencoded: seq<T>, i: nat, flat: seq<V>, rows: seq<V>)
    requires i < |s.chunks| && ChunkShows(format, s.spill, s.chunks[i], flat) && SameRows(format, s, reencoded)
    ensures ChunkShows(format, s.spill, Replaced(s.chunks[i], reencoded, i), flat + rows)
  {
    var c := s.chunks[i];
    assert (flat + rows)[c.firstRow..c.firstRow + c.rows] == flat[c.firstRow..c.firstRow + c.rows];
  }

  lemma AppendedLaid<T(!new), V(!new)>(s: Store<T, V>, a: Admitted<T, V>)
    requires Laid(s.chunks, s.rows)
    ensures Laid(Published(s, a).chunks, Published(s, a).rows)
  {
  }

  lemma PublishShows<T(!new), V(!new)>(format: Format<T, V>, s: Store<T, V>, a: Admitted<T, V>, flat: seq<V>, rows: seq<V>)
    requires Agrees(format, s, flat) && SameRows(format, s, a.reencoded)
    requires Content(format, s.spill, a.body) == Some(rows) && |rows| == a.rows
    ensures Agrees(format, Published(s, a), flat + rows)
  {
    var n := Published(s, a);
    AppendedLaid(s, a);
    forall i | 0 <= i < |n.chunks| ensures ChunkShows(format, n.spill, n.chunks[i], flat + rows) {
      if i < |s.chunks| {
        ReplacedShows(format, s, a.reencoded, i, flat, rows);
      } else {
        assert (flat + rows)[|flat|..|flat| + |rows|] == rows;
      }
    }
  }

  lemma {:induction false} TotalReplaced<T(!new), V(!new)>(chunks: seq<Chunk<T, V>>, reencoded: seq<T>)
    ensures TotalBytes(ReplacedAll(chunks, reencoded)) == TotalBytes(chunks)
  {
    if chunks != [] {
      var last := |chunks| - 1;
      TotalReplaced(chunks[..last], reencoded);
      assert ReplacedAll(chunks, reencoded)[..last] == ReplacedAll(chunks[..last], reencoded);
    }
  }

  /** A batch that was paid for when admitted is on the books once it is published. */
  lemma PublishBooks<T(!new), V(!new)>(s: Store<T, V>, a: Admitted<T, V>)
    requires Books(s, a.bytes)
    ensures Books(Published(s, a), 0)
  {
    TotalReplaced(s.chunks, a.reencoded);
    var n := Published(s, a);
    assert n.chunks[..|n.chunks| - 1] == ReplacedAll(s.chunks, a.reencoded);
  }

  // ---- Spilling the oldest chunk. ----

  predicate Spillable<T, V>(format: Format<T, V>, settled: Option<nat>, c: Chunk<T, V>) {
    c.body.Table? && Some(format.schemaOf(c.body.record)) == settled
  }

  function Oldest<T, V>(format: Format<T, V>, settled: Option<nat>, chunks: seq<Chunk<T, V>>): (k: nat)
    ensures k <= |chunks| && (k < |chunks| ==> Spillable(format, settled, chunks[k]))
    ensures forall i | 0 <= i < k :: !Spillable(format, settled, chunks[i])
  {
    if chunks == [] || Spillable(format, settled, chunks[0]) then 0 else 1 + Oldest(format, settled, chunks[1..])
  }

  /** How the file system treats one attempt: whether a missing file can be created, and how the write goes. */
  datatype Io = Io(creates: bool, write: WriteOutcome)

  function OpenFile(spill: Option<File>, limit: nat, io: Io): Option<File> {
    if spill.Some? then spill else if io.creates then Some(Empty(limit)) else None
  }

  function MovedOut<T, V>(s: Store<T, V>, k: nat, file: File, index: nat): Store<T, V>
    requires k < |s.chunks|
  {
    var bytes := s.chunks[k].bytes;
    s.(chunks := s.chunks[k := s.chunks[k].(body := Spilled(index), bytes := 0)],
       residentBytes := if bytes <= s.residentBytes then s.residentBytes - bytes else 0,
       spilledBytes := file.bytes,
       spill := Some(file),
       held := s.held - Min(bytes, s.held))
  }

  /** One write of a chunk's record, as far as the rows are concerned. */
  function WriteOut<T, V>(format: Format<T, V>, s: Store<T, V>, k: nat, file: File, io: Io): (Store<T, V>, bool)
    requires k < |s.chunks| && s.chunks[k].body.Table?
  {
    var record := s.chunks[k].body.record;
    var (after, r) := Appended(file, format.codec.encode(record), |format.rowsOf(record)|, io.write);
    if r.Err? then (s.(spill := Some(after)), false) else (MovedOut(s, k, after, r.value), true)
  }

  function SpillOldest<T, V>(format: Format<T, V>, policy: Policy, s: Store<T, V>, io: Io): (Store<T, V>, bool) {
    if policy.spillLimit.None? || s.settled.None? then (s, false)
    else
      var k := Oldest(format, s.settled, s.chunks);
      if k == |s.chunks| then (s, false)
      else
        var file := OpenFile(s.spill, policy.spillLimit.value, io);
        if file.None? then (s, false) else WriteOut(format, s, k, file.value, io)
  }

  /**
    A spill attempt fails exactly when spilling is off or not settled, no chunk can be spilled, the file
    cannot be created, or the write fails or would pass the limit.
   */
  lemma SpillFailsExactly<T(!new), V(!new)>(format: Format<T, V>, policy: Policy, s: Store<T, V>, io: Io)
    ensures !SpillOldest(format, policy, s, io).1 <==>
            || policy.spillLimit.None? || s.settled.None?
            || (forall i | 0 <= i < |s.chunks| && s.chunks[i].body.Table? ::
                  format.schemaOf(s.chunks[i].body.record) != s.settled.value)
            || (s.spill.None? && !io.creates)
            || var record := s.chunks[Oldest(format, s.settled, s.chunks)].body.record;
               Appended(if s.spill.Some? then s.spill.value else Empty(policy.spillLimit.value),
                        format.codec.encode(record), |format.rowsOf(record)|, io.write).1.Err?
  {
    if policy.spillLimit.Some? && s.settled.Some? {
      var k := Oldest(format, s.settled, s.chunks);
      if k == |s.chunks| {
        forall i | 0 <= i < |s.chunks| && s.chunks[i].body.Table?
          ensures format.schemaOf(s.chunks[i].body.record) != s.settled.value
        {
          assert !Spillable(format, s.settled, s.chunks[i]);
        }
      } else {
        assert Spillable(format, s.settled, s.chunks[k]);
      }
    }
  }

  /** A spill that succeeds moves out the first chunk that is a table of the settled schema, and touches no other. */
  lemma SpillTakesOldest<T(!new), V(!new)>(format: Format<T, V>, policy: Policy, s: Store<T, V>, io: Io)
    requires SpillOldest(format, policy, s, io).1
    ensures var n := SpillOldest(format, policy, s, io).0;
            && |n.chunks| == |s.chunks|
            && exists k: nat ::
                 && k < |s.chunks| && s.chunks[k].body.Table?
                 && Some(format.schemaOf(s.chunks[k].body.record)) == s.settled
                 && (forall i | 0 <= i < k && s.chunks[i].body.Table? ::
                       Some(format.schemaOf(s.chunks[i].body.record)) != s.settled)
                 && n.chunks[k].body.Spilled? && n.chunks[k].bytes == 0
                 && n.chunks[k].firstRow == s.chunks[k].firstRow && n.chunks[k].rows == s.chunks[k].rows
                 && (forall i | 0 <= i < |s.chunks| && i != k :: n.chunks[i] == s.chunks[i])
  {
    var k := Oldest(format, s.settled, s.chunks);
    assert Spillable(format, s.settled, s.chunks[k]);
    forall i | 0 <= i < k && s.chunks[i].body.Table? ensures Some(format.schemaOf(s.chunks[i].body.record)) != s.settled {
      assert !Spillable(format, s.settled, s.chunks[i]);
    }
  }

  /** Growing the spill file changes no chunk's content. */
  lemma ContentStays<T(!new), V(!new)>(
    format: Format<T, V>, spill: Option<File>, later: File, c: Chunk<T, V>, flat: seq<V>)
    requires SpillSound(spill) && ChunkShows(format, spill, c, flat)
    requires spill.Some? ==> Extends(spill.value, later)
    ensures ChunkShows(format, Some(later), c, flat)
  {
    if c.body.Spilled? {
      ReadsStay(format.codec, spill.value, later, c.body.index);
    }
  }

  lemma {:induction false} TotalUpdated<T(!new), V(!new)>(chunks: seq<Chunk<T, V>>, k: nat, c: Chunk<T, V>)
    requires k < |chunks|
    ensures TotalBytes(chunks[k := c]) == TotalBytes(chunks) - chunks[k].bytes + c.bytes
    ensures chunks[k].bytes <= TotalBytes(chunks)
    decreases |chunks|
  {
    var last := |chunks| - 1;
    if k == last {
      assert chunks[k := c][..last] == chunks[..last];
    } else {
      TotalUpdated(chunks[..last], k, c);
      assert chunks[k := c][..last] == chunks[..last][k := c];
    }
  }

  /** Moving a chunk out keeps the books: the lease gives back exactly the bytes that left. */
  lemma MovedOutBooks<T(!new), V(!new)>(s: Store<T, V>, k: nat, file: File, index: nat, reserved: nat)
    requires Books(s, reserved) && k < |s.chunks| && Sound(file)
    ensures Books(MovedOut(s, k, file, index), reserved)
  {
    TotalUpdated(s.chunks, k, s.chunks[k].(body := Spilled(index), bytes := 0));
  }

  lemma MovedOutShows<T(!new), V(!new)>(
    format: Format<T, V>, s: Store<T, V>, k: nat, file: File, after: File, index: nat, flat: seq<V>)
    requires Agrees(format, s, flat) && SpillSound(s.spill) && k < |s.chunks| && s.chunks[k].body.Table?
    requires Extends(file, after) && (s.spill.Some? ==> s.spill.value == file)
    requires s.spill.None? ==> file.chunks == []
    requires ReadAt(format.codec, after, index) == Ok(s.chunks[k].body.record)
    ensures Agrees(format, MovedOut(s, k, after, index), flat)
  {
    var n := MovedOut(s, k, after, index);
    forall i | 0 <= i < |n.chunks| ensures ChunkShows(format, n.spill, n.chunks[i], flat) {
      assert ChunkShows(format, s.spill, s.chunks[i], flat);
      if i != k {
        ContentStays(format, s.spill, after, s.chunks[i], flat);
      }
    }
  }

  lemma FailedSpillShows<T(!new), V(!new)>(format: Format<T, V>, s: Store<T, V>, file: File, after: File, flat: seq<V>)
    requires Agrees(format, s, flat) && SpillSound(s.spill)
    requires Extends(file, after) && (s.spill.Some? ==> s.spill.value == file)
    ensures Agrees(format, s.(spill := Some(after)), flat)
  {
    forall i | 0 <= i < |s.chunks| ensures ChunkShows(format, Some(after), s.chunks[i], flat) {
      assert ChunkShows(format, s.spill, s.chunks[i], flat);
      ContentStays(format, s.spill, after, s.chunks[i], flat);
    }
  }

  lemma EmptySound(limit: nat)
    ensures Sound(Empty(limit))
  {
  }

  lemma WriteOutShows<T(!new), V(!new)>(format: Format<T, V>, s: Store<T, V>, k: nat, file: File, io: Io, flat: seq<V>)
    requires RoundTrips(format.codec) && Agrees(format, s, flat) && SpillSound(s.spill)
    requires k < |s.chunks| && s.chunks[k].body.Table?
    requires Sound(file) && (if s.spill.Some? then s.spill.value == file else file.chunks == [])
    ensures Agrees(format, WriteOut(format, s, k, file, io).0, flat)
  {
    var record := s.chunks[k].body.record;
    var buf, n := format.codec.encode(record), |format.rowsOf(record)|;
    var (after, r) := Appended(file, buf, n, io.write);
    AppendKeeps(file, buf, n, io.write);
    if r.Err? {
      FailedSpillShows(format, s, file, after, flat);
    } else {
      AppendedReadsBack(format.codec, file, record, n, io.write, after);
      MovedOutShows(format, s, k, file, after, r.value, flat);
    }
  }

  lemma WriteOutBooks<T(!new), V(!new)>(format: Format<T, V>, s: Store<T, V>, k: nat, file: File, io: Io, reserved: nat)
    requires Books(s, reserved) && k < |s.chunks| && s.chunks[k].body.Table? && Sound(file)
    ensures Books(WriteOut(format, s, k, file, io).0, reserved)
  {
    var record := s.chunks[k].body.record;
    var buf, n := format.codec.encode(record), |format.rowsOf(record)|;
    AppendKeeps(file, buf, n, io.write);
    var (after, r) := Appended(file, buf, n, io.write);
    if r.Ok? {
      MovedOutBooks(s, k, after, r.value, reserved);
    }
  }

  /** Whatever the file system does, a spill attempt changes no row of the store. */
  lemma SpillShows<T(!new), V(!new)>(format: Format<T, V>, policy: Policy, s: Store<T, V>, io: Io, flat: seq<V>)
    requires RoundTrips(format.codec) && Agrees(format, s, flat) && SpillSound(s.spill)
    ensures Agrees(format, SpillOldest(format, policy, s, io).0, flat)
  {
    if policy.spillLimit.Some? && s.settled.Some? {
      var k := Oldest(format, s.settled, s.chunks);
      var file := OpenFile(s.spill, policy.spillLimit.value, io);
      if k < |s.chunks| && file.Some? {
        EmptySound(policy.spillLimit.value);
        WriteOutShows(format, s, k, file.value, io, flat);
      }
    }
  }

  lemma SpillBooks<T(!new), V(!new)>(format: Format<T, V>, policy: Policy, s: Store<T, V>, io: Io, reserved: nat)
    requires Books(s, reserved)
    ensures Books(SpillOldest(format, policy, s, io).0, reserved)
  {
    if policy.spillLimit.Some? && s.settled.Some? {
      var k := Oldest(format, s.settled, s.chunks);
      var file := OpenFile(s.spill, policy.spillLimit.value, io);
      if k < |s.chunks| && file.Some? {
        EmptySound(policy.spillLimit.value);
        WriteOutBooks(format, s, k, file.value, io, reserved);
      }
    }
  }
}

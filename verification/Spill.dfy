/** The spill file: encoded chunks appended to one file, found again through a table of locations. */
module Spill {
  import opened Wrappers
  import opened Utf8

  datatype ChunkLoc = ChunkLoc(offset: nat, len: nat, rows: nat)

  datatype File = File(content: seq<Byte>, chunks: seq<ChunkLoc>, bytes: nat, maxBytes: nat)

  /** What the operating system does with one write: all of it, nothing, or a part before it fails. */
  datatype WriteOutcome = Written | Part(count: nat)

  datatype SpillError = LimitReached | Io | NoSuchChunk | Undecodable

  /** How records become bytes and come back; only the round trip is relied on. */
  datatype Codec<!T> = Codec(encode: T -> seq<Byte>, decode: seq<Byte> -> Option<T>)

  ghost predicate RoundTrips<T(!new)>(codec: Codec<T>) {
    forall t: T :: codec.decode(codec.encode(t)) == Some(t)
  }

  function Empty(maxBytes: nat): File {
    File([], [], 0, maxBytes)
  }

  function Shorter(a: nat, b: nat): nat {
    if a <= b then a else b
  }

  /** A failed write leaves its bytes at the end of the file, outside every chunk, and uncounted. */
  function Appended(file: File, buf: seq<Byte>, rows: nat, outcome: WriteOutcome): (File, Result<nat, SpillError>) {
    if file.bytes + |buf| > file.maxBytes then (file, Err(LimitReached))
    else if outcome.Part? then (file.(content := file.content + buf[..Shorter(outcome.count, |buf|)]), Err(Io))
    else
      (file.(content := file.content + buf,
             chunks := file.chunks + [ChunkLoc(|file.content|, |buf|, rows)],
             bytes := file.bytes + |buf|),
       Ok(|file.chunks|))
  }

  predicate InFile(file: File, k: nat) {
    k < |file.chunks| && file.chunks[k].offset + file.chunks[k].len <= |file.content|
  }

  function BytesAt(file: File, k: nat): seq<Byte>
    requires InFile(file, k)
  {
    file.content[file.chunks[k].offset..file.chunks[k].offset + file.chunks[k].len]
  }

  /** A read of an existing chunk, when the operating system does not get in the way. */
  function ReadAt<T>(codec: Codec<T>, file: File, k: nat): Result<T, SpillError> {
    if k >= |file.chunks| then Err(NoSuchChunk)
    else if !InFile(file, k) then Err(Io)
    else
      var decoded := codec.decode(BytesAt(file, k));
      if decoded.Some? then Ok(decoded.value) else Err(Undecodable)
  }

  function Lengths(chunks: seq<ChunkLoc>): nat {
    if chunks == [] then 0 else Lengths(chunks[..|chunks| - 1]) + chunks[|chunks| - 1].len
  }

  /** Chunks lie in the file one after another without overlap, and the counter is their total length. */
  predicate Sound(file: File) {
    && file.bytes == Lengths(file.chunks) <= file.maxBytes
    && (forall k | 0 <= k < |file.chunks| :: InFile(file, k))
    && (forall i, j | 0 <= i < j < |file.chunks| ::
          file.chunks[i].offset + file.chunks[i].len <= file.chunks[j].offset)
  }

  /** `later` is `file` after some further appends, successful or not. */
  predicate Extends(file: File, later: File) {
    && file.content <= later.content && file.chunks <= later.chunks && file.maxBytes == later.maxBytes
  }

  lemma GrownKeeps(file: File, more: seq<Byte>)
    requires Sound(file)
    ensures Sound(file.(content := file.content + more)) && Extends(file, file.(content := file.content + more))
  {
    forall k | 0 <= k < |file.chunks| ensures InFile(file.(content := file.content + more), k) {
      assert InFile(file, k);
    }
  }

  lemma LengthsSnoc(chunks: seq<ChunkLoc>, last: ChunkLoc)
    ensures Lengths(chunks + [last]) == Lengths(chunks) + last.len
  {
    assert (chunks + [last])[..|chunks|] == chunks;
  }

  lemma TailIs(content: seq<Byte>, buf: seq<Byte>)
    ensures (content + buf)[|content|..|content| + |buf|] == buf
  {
  }

  lemma WrittenKeeps(file: File, buf: seq<Byte>, rows: nat)
    requires Sound(file) && file.bytes + |buf| <= file.maxBytes
    ensures var after := Appended(file, buf, rows, Written).0;
            && Sound(after) && Extends(file, after)
            && InFile(after, |file.chunks|) && BytesAt(after, |file.chunks|) == buf
  {
    hide Lengths;
    var after := Appended(file, buf, rows, Written).0;
    LengthsSnoc(file.chunks, ChunkLoc(|file.content|, |buf|, rows));
    TailIs(file.content, buf);
    forall k | 0 <= k < |after.chunks| ensures InFile(after, k) {
      if k < |file.chunks| {
        assert InFile(file, k);
      }
    }
    forall i, j | 0 <= i < j < |after.chunks|
      ensures after.chunks[i].offset + after.chunks[i].len <= after.chunks[j].offset
    {
      assert InFile(file, i);
    }
  }

  /** An append keeps the file sound, and refuses exactly what would push the counted bytes past the limit. */
  lemma AppendKeeps(file: File, buf: seq<Byte>, rows: nat, outcome: WriteOutcome)
    requires Sound(file)
    ensures var (after, r) := Appended(file, buf, rows, outcome);
            && Sound(after) && Extends(file, after)
            && (r == Err(LimitReached) <==> file.bytes + |buf| > file.maxBytes)
            && (r.Ok? <==> file.bytes + |buf| <= file.maxBytes && outcome.Written?)
            && (r.Ok? ==> r.value == |file.chunks| && InFile(after, r.value) && BytesAt(after, r.value) == buf)
            && (r.Err? ==> after.chunks == file.chunks && after.bytes == file.bytes)
  {
    if file.bytes + |buf| <= file.maxBytes {
      if outcome.Part? {
        GrownKeeps(file, buf[..Shorter(outcome.count, |buf|)]);
      } else {
        WrittenKeeps(file, buf, rows);
      }
    }
  }

  /** What a chunk holds does not change as the file grows. */
  lemma BytesStay(file: File, later: File, k: nat)
    requires InFile(file, k) && Extends(file, later)
    ensures InFile(later, k) && BytesAt(later, k) == BytesAt(file, k)
  {
    var loc := file.chunks[k];
    assert later.chunks[k] == loc;
    assert later.content[..|file.content|] == file.content;
    assert later.content[loc.offset..loc.offset + loc.len] == file.content[loc.offset..loc.offset + loc.len];
  }

  /** A record appended once reads back as itself from then on, whatever is appended after it. */
  lemma AppendedReadsBack<T(!new)>(
    codec: Codec<T>, file: File, t: T, rows: nat, outcome: WriteOutcome, later: File)
    requires RoundTrips(codec) && Sound(file)
    requires var (after, r) := Appended(file, codec.encode(t), rows, outcome);
             r.Ok? && Extends(after, later)
    ensures ReadAt(codec, later, |file.chunks|) == Ok(t)
  {
    AppendKeeps(file, codec.encode(t), rows, outcome);
    var after := Appended(file, codec.encode(t), rows, outcome).0;
    BytesStay(after, later, |file.chunks|);
  }

  /** An append of anything leaves every earlier read as it was. */
  lemma ReadsStay<T(!new)>(codec: Codec<T>, file: File, later: File, k: nat)
    requires k < |file.chunks| && InFile(file, k) && Extends(file, later)
    ensures ReadAt(codec, later, k) == ReadAt(codec, file, k)
  {
    BytesStay(file, later, k);
  }

  // ---- The writer as it updates its file and table. ----

  class SpillWriter {
    const maxBytes: nat
    var content: seq<Byte>
    var chunks: seq<ChunkLoc>
    var bytes: nat

    function View(): File
      reads this
    {
      File(content, chunks, bytes, maxBytes)
    }

    constructor (maxBytes: nat)
      ensures View() == Empty(maxBytes) && Sound(View())
    {
      this.maxBytes := maxBytes;
      content, chunks, bytes := [], [], 0;
    }

    method Append(buf: seq<Byte>, rows: nat, outcome: WriteOutcome) returns (r: Result<nat, SpillError>)
      requires Sound(View())
      modifies this
      ensures (View(), r) == Appended(old(View()), buf, rows, outcome)
      ensures Sound(View()) && Extends(old(View()), View())
    {
      AppendKeeps(View(), buf, rows, outcome);
      if bytes + |buf| > maxBytes {
        return Err(LimitReached);
      }
      var offset := |content|;
      if outcome.Part? {
        content := content + buf[..Shorter(outcome.count, |buf|)];
        return Err(Io);
      }
      content := content + buf;
      chunks := chunks + [ChunkLoc(offset, |buf|, rows)];
      bytes := bytes + |buf|;
      return Ok(|chunks| - 1);
    }

    method Read<T>(codec: Codec<T>, index: nat) returns (r: Result<T, SpillError>)
      requires Sound(View())
      ensures r == ReadAt(codec, View(), index)
    {
      if index >= |chunks| {
        return Err(NoSuchChunk);
      }
      assert InFile(View(), index);
      var loc := chunks[index];
      var decoded := codec.decode(content[loc.offset..loc.offset + loc.len]);
      r := if decoded.Some? then Ok(decoded.value) else Err(Undecodable);
    }
  }
}

/** The store as the object its writer task updates in place, method by method against the functions above. */
module StoreObject {
  import opened Wrappers
  import opened Spill
  import opened Store
  import opened StoreLoop

  class ResultStore<T(!new), V(!new)> {
    const format: Format<T, V>
    const policy: Policy
    var phase: Phase
    var rows: nat
    var batches: nat
    var residentBytes: nat
    var spilledBytes: nat
    var chunks: seq<Chunk<T, V>>
    var settled: Option<nat>
    var spill: Option<File>
    var held: nat

    function View(): Store<T, V>
      reads this
    {
      Store(phase, rows, batches, residentBytes, spilledBytes, chunks, settled, spill, held)
    }

    constructor (format: Format<T, V>, policy: Policy)
      ensures View() == NewStore() && this.format == format && this.policy == policy
    {
      this.format, this.policy := format, policy;
      phase, rows, batches, residentBytes, spilledBytes := Loading, 0, 0, 0, 0;
      chunks, settled, spill, held := [], None, None, 0;
    }

    /** Puts re-encoded records in the place of the chunks they came from, where those are still resident. */
    method Replace(reencoded: seq<T>)
      modifies this`chunks
      ensures chunks == ReplacedAll(old(chunks), reencoded)
    {
      var i := 0;
      while i < |reencoded| && i < |chunks|
        invariant i <= |chunks| == |old(chunks)| && i <= |reencoded|
        invariant forall j | 0 <= j < i :: chunks[j] == Replaced(old(chunks)[j], reencoded, j)
        invariant forall j | i <= j < |chunks| :: chunks[j] == old(chunks)[j]
      {
        if chunks[i].body.Table? {
          chunks := chunks[i := chunks[i].(body := Table(reencoded[i]))];
        }
        i := i + 1;
      }
    }

    method Publish(a: Admitted<T, V>)
      modifies this
      ensures View() == Published(old(View()), a)
    {
      Replace(a.reencoded);
      chunks := chunks + [Chunk(rows, a.rows, a.bytes, a.body)];
      rows := rows + a.rows;
      batches := batches + 1;
      residentBytes := residentBytes + a.bytes;
      if !Terminal(phase) {
        phase := Loading;
      }
    }

    method FindOldest() returns (k: nat)
      ensures k == Oldest(format, settled, chunks)
    {
      k := 0;
      while k < |chunks| && !Spillable(format, settled, chunks[k])
        invariant k <= |chunks| && forall i | 0 <= i < k :: !Spillable(format, settled, chunks[i])
      {
        k := k + 1;
      }
    }

    /** Takes a written chunk out of memory: its place in the list, its bytes, and what the lease holds for them. */
    method MoveOut(k: nat, file: File, index: nat)
      requires k < |chunks|
      modifies this
      ensures View() == MovedOut(old(View()), k, file, index)
    {
      var bytes := chunks[k].bytes;
      chunks := chunks[k := chunks[k].(body := Spilled(index), bytes := 0)];
      residentBytes := if bytes <= residentBytes then residentBytes - bytes else 0;
      spilledBytes := file.bytes;
      spill := Some(file);
      held := held - Min(bytes, held);
    }

    method SpillOne(io: Io) returns (ok: bool)
      modifies this
      ensures (View(), ok) == SpillOldest(format, policy, old(View()), io)
    {
      if policy.spillLimit.None? || settled.None? {
        return false;
      }
      var k := FindOldest();
      if k == |chunks| {
        return false;
      }
      var file := OpenFile(spill, policy.spillLimit.value, io);
      if file.None? {
        return false;
      }
      var record := chunks[k].body.record;
      var (after, r) := Appended(file.value, format.codec.encode(record), |format.rowsOf(record)|, io.write);
      if r.Err? {
        spill := Some(after);
        return false;
      }
      MoveOut(k, after, r.value);
      return true;
    }

    method EnforceHotWindow(io: nat -> Io)
      modifies this
      ensures View() == HotWindow(format, policy, old(View()), io, 0)
    {
      var k: nat := 0;
      while Over(policy, View())
        invariant HotWindow(format, policy, View(), io, k) == HotWindow(format, policy, old(View()), io, 0)
        decreases Tables(chunks)
      {
        ghost var before := View();
        SpillShrinks(format, policy, before, io(k));
        var ok := SpillOne(io(k));
        if !ok {
          if settled.Some? && !Terminal(phase) {
            phase := Parked;
          }
          return;
        }
        k := k + 1;
      }
    }

    method Admit(bytes: nat, room: seq<bool>, io: nat -> Io) returns (ok: bool)
      modifies this
      ensures (View(), ok) == Admitting(format, policy, old(View()), bytes, room, io, 0, false)
    {
      var parked := false;
      var k: nat := 0;
      while k < |room|
        invariant k <= |room|
        invariant Admitting(format, policy, View(), bytes, room[k..], io, k, parked)
               == Admitting(format, policy, old(View()), bytes, room, io, 0, false)
      {
        assert room[k..][1..] == room[k + 1..];
        if room[k] {
          held := held + bytes;
          if parked && phase.Parked? {
            phase := Loading;
          }
          return true;
        }
        var spilled := SpillOne(io(k));
        if !spilled && !parked {
          parked := true;
          phase := Parked;
        }
        k := k + 1;
      }
      return false;
    }
  }
}

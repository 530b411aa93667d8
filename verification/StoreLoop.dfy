/**
  The store's writer: admitting a batch against the budget, publishing it, and keeping the hot window
  small, as functions of the state, as invariants over whole runs, and as the object that does it.
 */
module StoreLoop {
  import opened Wrappers
  import opened Spill
  import opened Store

  predicate Over<T, V>(policy: Policy, s: Store<T, V>) {
    s.residentBytes > policy.perQueryHot || ResidentRows(s.chunks) > policy.hotWindowRows
  }

  /** Chunks that could still be spilled one day. */
  function Tables<T, V>(chunks: seq<Chunk<T, V>>): nat {
    if chunks == [] then 0
    else Tables(chunks[..|chunks| - 1]) + if chunks[|chunks| - 1].body.Table? then 1 else 0
  }

  lemma {:induction false} TablesUpdated<T(!new), V(!new)>(chunks: seq<Chunk<T, V>>, k: nat, c: Chunk<T, V>)
    requires k < |chunks| && chunks[k].body.Table? && !c.body.Table?
    ensures Tables(chunks[k := c]) == Tables(chunks) - 1
    decreases |chunks|
  {
    var last := |chunks| - 1;
    if k == last {
      assert chunks[k := c][..last] == chunks[..last];
    } else {
      TablesUpdated(chunks[..last], k, c);
      assert chunks[k := c][..last] == chunks[..last][k := c];
    }
  }

  lemma SpillShrinks<T(!new), V(!new)>(format: Format<T, V>, policy: Policy, s: Store<T, V>, io: Io)
    ensures SpillOldest(format, policy, s, io).1 ==> Tables(SpillOldest(format, policy, s, io).0.chunks) < Tables(s.chunks)
    ensures SpillOldest(format, policy, s, io).0.settled == s.settled
    ensures SpillOldest(format, policy, s, io).0.phase == s.phase
  {
    if SpillOldest(format, policy, s, io).1 {
      var k := Oldest(format, s.settled, s.chunks);
      var n := SpillOldest(format, policy, s, io).0;
      TablesUpdated(s.chunks, k, n.chunks[k]);
    }
  }

  /** `enforce_hot_window`: spill until the window fits, or park the feeder when nothing more can be spilled. */
  ghost function HotWindow<T(!new), V(!new)>(
    format: Format<T, V>, policy: Policy, s: Store<T, V>, io: nat -> Io, k: nat): Store<T, V>
    decreases Tables(s.chunks)
  {
    if !Over(policy, s) then s
    else
      var (n, ok) := SpillOldest(format, policy, s, io(k));
      if !ok then StuckIn(n)
      else
        SpillShrinks(format, policy, s, io(k));
        HotWindow(format, policy, n, io, k + 1)
  }

  function StuckIn<T, V>(s: Store<T, V>): Store<T, V> {
    if s.settled.Some? && !Terminal(s.phase) then s.(phase := Parked) else s
  }

  /**
    `admit`: reserve, or spill and try again, or park and wait. `room` says for each look at the
    shared budget whether the bytes fit; when it runs out the wait was ended by cancellation.
   */
  function Admitting<T, V>(
    format: Format<T, V>, policy: Policy, s: Store<T, V>, bytes: nat, room: seq<bool>, io: nat -> Io, k: nat, parked: bool)
    : (Store<T, V>, bool)
    decreases |room|
  {
    if room == [] then (s, false)
    else if room[0] then (Reserved(s, bytes, parked), true)
    else
      var (n, ok) := SpillOldest(format, policy, s, io(k));
      if ok then Admitting(format, policy, n, bytes, room[1..], io, k + 1, parked)
      else Admitting(format, policy, if parked then n else n.(phase := Parked), bytes, room[1..], io, k + 1, true)
  }

  function Reserved<T, V>(s: Store<T, V>, bytes: nat, parked: bool): Store<T, V> {
    s.(held := s.held + bytes, phase := if parked && s.phase.Parked? then Loading else s.phase)
  }

  // ---- What the loops keep. ----

  /** Neither the phase nor the lease says anything about which rows a store holds. */
  lemma PhaseShows<T(!new), V(!new)>(format: Format<T, V>, s: Store<T, V>, n: Store<T, V>, flat: seq<V>)
    requires Agrees(format, s, flat)
    requires n.chunks == s.chunks && n.rows == s.rows && n.spill == s.spill
    ensures Agrees(format, n, flat)
  {
    forall i | 0 <= i < |n.chunks| ensures ChunkShows(format, n.spill, n.chunks[i], flat) {
      assert ChunkShows(format, s.spill, s.chunks[i], flat);
    }
  }

  lemma {:induction false} HotWindowKeeps<T(!new), V(!new)>(
    format: Format<T, V>, policy: Policy, s: Store<T, V>, io: nat -> Io, k: nat, flat: seq<V>)
    requires RoundTrips(format.codec) && Agrees(format, s, flat) && Books(s, 0)
    ensures Agrees(format, HotWindow(format, policy, s, io, k), flat)
    ensures Books(HotWindow(format, policy, s, io, k), 0)
    decreases Tables(s.chunks)
  {
    hide Agrees, RoundTrips, SpillOldest, SpillSound;
    if Over(policy, s) {
      BooksSound(s, 0);
      SpillShows(format, policy, s, io(k), flat);
      SpillBooks(format, policy, s, io(k), 0);
      var (n, ok) := SpillOldest(format, policy, s, io(k));
      if ok {
        SpillShrinks(format, policy, s, io(k));
        HotWindowKeeps(format, policy, n, io, k + 1, flat);
      } else {
        PhaseShows(format, n, StuckIn(n), flat);
      }
    }
  }

  lemma BooksSound<T(!new), V(!new)>(s: Store<T, V>, reserved: nat)
    requires Books(s, reserved)
    ensures SpillSound(s.spill)
  {
  }

  /** The loop gave up on a spill attempt that failed. */
  ghost predicate GaveUp<T(!new), V(!new)>(format: Format<T, V>, policy: Policy, n: Store<T, V>, io: nat -> Io) {
    exists s: Store<T, V>, k: nat ::
      var (after, ok) := SpillOldest(format, policy, s, io(k));
      && (s.residentBytes > policy.perQueryHot || ResidentRows(s.chunks) > policy.hotWindowRows)
      && !ok && n == after.(phase := if s.settled.Some? && !Terminal(s.phase) then Parked else s.phase)
  }

  /**
    The resident bytes and rows are within their limits afterwards, or a spill attempt failed and the
    loop ended there; then the feeder was told to wait, unless nothing is settled yet or the result is
    complete. A window within its limits is left alone.
   */
  lemma {:induction false} HotWindowEnds<T(!new), V(!new)>(
    format: Format<T, V>, policy: Policy, s: Store<T, V>, io: nat -> Io, k: nat)
    ensures var n := HotWindow(format, policy, s, io, k);
            && (n.residentBytes > policy.perQueryHot || ResidentRows(n.chunks) > policy.hotWindowRows ==>
                  GaveUp(format, policy, n, io) && (n.settled.None? || n.phase.Parked? || Terminal(n.phase)))
            && (s.residentBytes <= policy.perQueryHot && ResidentRows(s.chunks) <= policy.hotWindowRows ==> n == s)
    decreases Tables(s.chunks)
  {
    hide SpillOldest;
    if Over(policy, s) {
      var (n, ok) := SpillOldest(format, policy, s, io(k));
      SpillShrinks(format, policy, s, io(k));
      if ok {
        HotWindowEnds(format, policy, n, io, k + 1);
      } else {
        assert GaveUp(format, policy, StuckIn(n), io);
      }
    }
  }

  lemma {:induction false} AdmittingKeeps<T(!new), V(!new)>(
    format: Format<T, V>, policy: Policy, s: Store<T, V>, bytes: nat, room: seq<bool>, io: nat -> Io, k: nat, parked: bool,
    flat: seq<V>)
    requires RoundTrips(format.codec) && Agrees(format, s, flat) && Books(s, 0)
    ensures var (n, ok) := Admitting(format, policy, s, bytes, room, io, k, parked);
            Agrees(format, n, flat) && Books(n, if ok then bytes else 0)
    decreases |room|
  {
    hide Agrees, RoundTrips, SpillOldest, SpillSound;
    if room != [] {
      if room[0] {
        PhaseShows(format, s, Reserved(s, bytes, parked), flat);
      } else {
        BooksSound(s, 0);
        SpillShows(format, policy, s, io(k), flat);
        SpillBooks(format, policy, s, io(k), 0);
        var (n, ok) := SpillOldest(format, policy, s, io(k));
        if ok {
          AdmittingKeeps(format, policy, n, bytes, room[1..], io, k + 1, parked, flat);
        } else {
          var waiting := if parked then n else n.(phase := Parked);
          PhaseShows(format, n, waiting, flat);
          AdmittingKeeps(format, policy, waiting, bytes, room[1..], io, k + 1, true, flat);
        }
      }
    }
  }

  // ---- One turn of the writer's loop. ----

  /** How the surroundings treat one batch: the budget's room, and the file system in both phases. */
  datatype Weather = Weather(room: seq<bool>, admitIo: nat -> Io, windowIo: nat -> Io)

  ghost function Turn<T(!new), V(!new)>(
    format: Format<T, V>, policy: Policy, s: Store<T, V>, a: Admitted<T, V>, settled: Option<nat>, weather: Weather)
    : (Store<T, V>, bool)
  {
    var (n, ok) := Admitting(format, policy, s, a.bytes, weather.room, weather.admitIo, 0, false);
    if !ok then (n.(phase := Cancelled), false)
    else (HotWindow(format, policy, Published(n.(settled := settled), a), weather.windowIo, 0), true)
  }

  /**
    A turn adds exactly the batch's rows at the end, whatever was spilled or re-encoded meanwhile;
    and between turns the lease holds exactly the bytes of the resident chunks.
   */
  lemma TurnKeeps<T(!new), V(!new)>(
    format: Format<T, V>, policy: Policy, s: Store<T, V>, a: Admitted<T, V>, settled: Option<nat>, weather: Weather,
    flat: seq<V>, rows: seq<V>)
    requires RoundTrips(format.codec) && Agrees(format, s, flat) && Books(s, 0)
    requires !a.body.Spilled? && Content(format, None, a.body) == Some(rows) && |rows| == a.rows
    requires var n := Admitting(format, policy, s, a.bytes, weather.room, weather.admitIo, 0, false).0;
             SameRows(format, n, a.reencoded)
    ensures var (n, ok) := Turn(format, policy, s, a, settled, weather);
            Agrees(format, n, if ok then flat + rows else flat) && Books(n, 0)
  {
    hide Agrees, RoundTrips, Admitting, HotWindow, SpillSound;
    AdmittingKeeps(format, policy, s, a.bytes, weather.room, weather.admitIo, 0, false, flat);
    var (n, ok) := Admitting(format, policy, s, a.bytes, weather.room, weather.admitIo, 0, false);
    if ok {
      var ready := n.(settled := settled);
      PhaseShows(format, n, ready, flat);
      PublishShows(format, ready, a, flat, rows);
      PublishBooks(ready, a);
      HotWindowKeeps(format, policy, Published(ready, a), weather.windowIo, 0, flat + rows);
    } else {
      PhaseShows(format, n, n.(phase := Cancelled), flat);
    }
  }

  // ---- Which records are still resident. ----

  /** Chunks may have left memory, but a record that is still there is the one that was there. */
  ghost predicate OnlyMovesOut<T, V>(s: Store<T, V>, n: Store<T, V>) {
    && |n.chunks| == |s.chunks|
    && forall i | 0 <= i < |n.chunks| && n.chunks[i].body.Table? :: n.chunks[i].body == s.chunks[i].body
  }

  lemma SpillMovesOut<T(!new), V(!new)>(format: Format<T, V>, policy: Policy, s: Store<T, V>, io: Io)
    ensures OnlyMovesOut(s, SpillOldest(format, policy, s, io).0)
  {
  }

  lemma {:induction false} AdmittingMovesOut<T(!new), V(!new)>(
    format: Format<T, V>, policy: Policy, s: Store<T, V>, bytes: nat, room: seq<bool>, io: nat -> Io, k: nat, parked: bool)
    ensures OnlyMovesOut(s, Admitting(format, policy, s, bytes, room, io, k, parked).0)
    decreases |room|
  {
    hide SpillOldest;
    if room != [] && !room[0] {
      SpillMovesOut(format, policy, s, io(k));
      var (n, ok) := SpillOldest(format, policy, s, io(k));
      if ok {
        AdmittingMovesOut(format, policy, n, bytes, room[1..], io, k + 1, parked);
      } else {
        AdmittingMovesOut(format, policy, if parked then n else n.(phase := Parked), bytes, room[1..], io, k + 1, true);
      }
    }
  }

  lemma {:induction false} HotWindowMovesOut<T(!new), V(!new)>(
    format: Format<T, V>, policy: Policy, s: Store<T, V>, io: nat -> Io, k: nat)
    ensures OnlyMovesOut(s, HotWindow(format, policy, s, io, k))
    decreases Tables(s.chunks)
  {
    hide SpillOldest;
    if Over(policy, s) {
      SpillMovesOut(format, policy, s, io(k));
      var (n, ok) := SpillOldest(format, policy, s, io(k));
      if ok {
        SpillShrinks(format, policy, s, io(k));
        HotWindowMovesOut(format, policy, n, io, k + 1);
      }
    }
  }

  // ---- What spilling goes by. ----

  lemma {:induction false} AdmittingSettles<T(!new), V(!new)>(
    format: Format<T, V>, policy: Policy, s: Store<T, V>, bytes: nat, room: seq<bool>, io: nat -> Io, k: nat, parked: bool)
    ensures Admitting(format, policy, s, bytes, room, io, k, parked).0.settled == s.settled
    decreases |room|
  {
    hide SpillOldest;
    if room != [] && !room[0] {
      SpillShrinks(format, policy, s, io(k));
      var (n, ok) := SpillOldest(format, policy, s, io(k));
      if ok {
        AdmittingSettles(format, policy, n, bytes, room[1..], io, k + 1, parked);
      } else {
        AdmittingSettles(format, policy, if parked then n else n.(phase := Parked), bytes, room[1..], io, k + 1, true);
      }
    }
  }

  lemma {:induction false} HotWindowSettles<T(!new), V(!new)>(
    format: Format<T, V>, policy: Policy, s: Store<T, V>, io: nat -> Io, k: nat)
    ensures HotWindow(format, policy, s, io, k).settled == s.settled
    decreases Tables(s.chunks)
  {
    hide SpillOldest;
    if Over(policy, s) {
      SpillShrinks(format, policy, s, io(k));
      var (n, ok) := SpillOldest(format, policy, s, io(k));
      if ok {
        HotWindowSettles(format, policy, n, io, k + 1);
      }
    }
  }

  /** A turn that admits its batch goes by the schema it was given; a cancelled one changes nothing about that. */
  lemma TurnSettles<T(!new), V(!new)>(
    format: Format<T, V>, policy: Policy, s: Store<T, V>, a: Admitted<T, V>, settled: Option<nat>, weather: Weather)
    ensures var (n, ok) := Turn(format, policy, s, a, settled, weather);
            n.settled == if ok then settled else s.settled
  {
    hide Admitting, HotWindow;
    AdmittingSettles(format, policy, s, a.bytes, weather.room, weather.admitIo, 0, false);
    var (n, ok) := Admitting(format, policy, s, a.bytes, weather.room, weather.admitIo, 0, false);
    if ok {
      HotWindowSettles(format, policy, Published(n.(settled := settled), a), weather.windowIo, 0);
    }
  }
}

/**
  Idle connections and reap timers with every caller and the timer worker interleaved. One step is one
  region of the idle list's lock or one access to the timer wheel. The worker runs one timer at a time.
 */
module SessionRuns {
  import opened Wrappers
  import opened Session
  import Pool

  /** A connection a caller holds: in use, about to be armed, or armed and not yet on the list. */
  datatype Stage = Leased | Checked | Arming(key: nat)

  /** What happened to list entries and their timers, in order; a reap notes the timer key of the entry it closed. */
  datatype Note =
    | Pushed(conn: IdleConn)
    | Taken(conn: IdleConn)
    | Expired(conn: IdleConn)
    | Reaped(conn: IdleConn, hit: Option<nat>)

  /** `reaping` is the timer that the worker has taken off the wheel and not yet run. */
  datatype World = World(
    idle: seq<IdleConn>,
    timers: map<nat, nat>,
    held: map<nat, Stage>,
    reaping: Option<IdleConn>,
    closed: set<nat>,
    cancelled: bool,
    nextKey: nat,
    nextId: nat,
    log: seq<Note>)

  datatype Step =
    | Dial
    | Take
    | Close(id: nat)
    | Check(id: nat)
    | Arm(id: nat)
    | Push(id: nat)
    | Expire(key: nat)
    | Reap
    | Cancel
    | Drain

  function Start(): World {
    World([], map[], map[], None, {}, false, 0, 0, [])
  }

  predicate Enabled(w: World, step: Step) {
    match step
    case Dial => true
    case Take => w.idle != []
    case Close(id) => id in w.held && w.held[id].Leased?
    case Check(id) => id in w.held && w.held[id].Leased? && !w.cancelled
    case Arm(id) => id in w.held && w.held[id].Checked?
    case Push(id) => id in w.held && w.held[id].Arming?
    case Expire(key) => key in w.timers && w.reaping.None?
    case Reap => w.reaping.Some?
    case Cancel => true
    case Drain => w.cancelled
  }

  function AfterTake(w: World): World
    requires w.idle != []
  {
    var n := |w.idle| - 1;
    w.(idle := WithoutEntry(w.idle, n),
       timers := w.timers - {w.idle[n].key},
       held := w.held[w.idle[n].id := Leased],
       log := w.log + [Taken(w.idle[n])])
  }

  function AfterPush(w: World, id: nat): World
    requires id in w.held && w.held[id].Arming?
  {
    var conn := IdleConn(id, w.held[id].key);
    w.(idle := w.idle + [conn], held := w.held - {id}, log := w.log + [Pushed(conn)])
  }

  function AfterExpire(w: World, key: nat): World
    requires key in w.timers
  {
    var conn := IdleConn(w.timers[key], key);
    w.(timers := w.timers - {key}, reaping := Some(conn), log := w.log + [Expired(conn)])
  }

  function AfterReap(w: World): World
    requires w.reaping.Some?
  {
    var conn := w.reaping.value;
    var k := Pool.IndexOf(IdsOf(w.idle), conn.id);
    if k == |w.idle| then w.(reaping := None, log := w.log + [Reaped(conn, None)])
    else
      w.(idle := WithoutEntry(w.idle, k), closed := w.closed + {conn.id}, reaping := None,
         log := w.log + [Reaped(conn, Some(w.idle[k].key))])
  }

  function AfterDrain(w: World): World {
    w.(idle := [], timers := Disarmed(w.timers, w.idle), closed := w.closed + set e | e in w.idle :: e.id)
  }

  function Perform(w: World, step: Step): World
    requires Enabled(w, step)
  {
    match step
    case Dial => w.(held := w.held[w.nextId := Leased], nextId := w.nextId + 1)
    case Take => AfterTake(w)
    case Close(id) => w.(held := w.held - {id}, closed := w.closed + {id})
    case Check(id) => w.(held := w.held[id := Checked])
    case Arm(id) =>
      w.(held := w.held[id := Arming(w.nextKey)], timers := w.timers[w.nextKey := id], nextKey := w.nextKey + 1)
    case Push(id) => AfterPush(w, id)
    case Expire(key) => AfterExpire(w, key)
    case Reap => AfterReap(w)
    case Cancel => w.(cancelled := true)
    case Drain => AfterDrain(w)
  }

  function Next(w: World, step: Step): World {
    if Enabled(w, step) then Perform(w, step) else w
  }

  /** A whole run; a step that cannot happen yet is passed over. */
  function Run(w: World, steps: seq<Step>): World
    decreases |steps|
  {
    if steps == [] then w else Run(Next(w, steps[0]), steps[1..])
  }

  // ---- What is always true. ----

  /** Every connection is in one place, and every key is used once. */
  predicate Placed(w: World) {
    && Orderly(w.idle, w.timers, w.nextKey)
    && (forall e | e in w.idle :: e.id < w.nextId && e.id !in w.held && e.id !in w.closed)
    && (forall id | id in w.held :: id < w.nextId && id !in w.closed)
    && (forall id | id in w.closed :: id < w.nextId)
    && (forall k | k in w.timers :: w.timers[k] < w.nextId)
    && (w.reaping.Some? ==> w.reaping.value.id < w.nextId && w.reaping.value.key < w.nextKey
                            && w.reaping.value.key !in w.timers)
  }

  predicate ArmingPlaced(w: World) {
    && (forall id | id in w.held && w.held[id].Arming? ::
          w.held[id].key < w.nextKey && (w.held[id].key in w.timers ==> w.timers[w.held[id].key] == id))
    && (forall id, e | id in w.held && w.held[id].Arming? && e in w.idle :: e.key != w.held[id].key)
    && (forall a, b | a in w.held && b in w.held && a != b && w.held[a].Arming? && w.held[b].Arming? ::
          w.held[a].key != w.held[b].key)
  }

  /** The connection's current entry, on the list or on its way there, has this timer key. */
  predicate Owns(w: World, conn: IdleConn) {
    conn in w.idle || (conn.id in w.held && w.held[conn.id] == Arming(conn.key))
  }

  /** The timer belonged to an entry that some other timer's reap closed. */
  ghost predicate LeftByReap(log: seq<Note>, id: nat, key: nat) {
    exists other: nat :: Reaped(IdleConn(id, other), Some(key)) in log
  }

  predicate Before(log: seq<Note>, a: Note, b: Note) {
    exists i, j :: 0 <= i < j < |log| && log[i] == a && log[j] == b
  }

  /** A live timer belongs to a current entry, or was left behind by a reap. */
  ghost predicate TimersKnown(w: World) {
    forall k | k in w.timers ::
      Owns(w, IdleConn(w.timers[k], k)) || (w.timers[k] in w.closed && LeftByReap(w.log, w.timers[k], k))
  }

  /** A current entry without a live timer is being reaped, or its reap found nothing. */
  predicate LossKnown(w: World) {
    && (forall e | e in w.idle && e.key !in w.timers ::
          w.reaping == Some(e) || Before(w.log, Reaped(e, None), Pushed(e)))
    && (forall id | id in w.held && w.held[id].Arming? && w.held[id].key !in w.timers ::
          w.reaping == Some(IdleConn(id, w.held[id].key)) || Reaped(IdleConn(id, w.held[id].key), None) in w.log)
  }

  /** What is over is over: keys of the past are not live, pending or current again, and reaped connections are closed. */
  predicate PastIsOver(w: World) {
    && (forall n | n in w.log :: n.conn.key < w.nextKey)
    && (forall n | n in w.log && !n.Pushed? :: n.conn.key !in w.timers)
    && (forall n | n in w.log && n.Reaped? :: w.reaping.Some? ==> w.reaping.value.key != n.conn.key)
    && (forall n | n in w.log && n.Reaped? && n.hit.Some? :: n.conn.id in w.closed)
  }

  predicate TakenIsOver(w: World) {
    && (forall n, e | n in w.log && n.Taken? && e in w.idle :: e.key != n.conn.key)
    && (forall n, id | n in w.log && n.Taken? && id in w.held && w.held[id].Arming? :: w.held[id].key != n.conn.key)
  }

  predicate TakenSince(w: World)
    requires w.reaping.Some?
  {
    Before(w.log, Expired(w.reaping.value), Taken(w.reaping.value))
  }

  /** A pending reap is for the current entry, unless that was taken since its timer ran out. */
  predicate ReapKnown(w: World) {
    w.reaping.Some? ==>
      var conn := w.reaping.value;
      && Expired(conn) in w.log
      && (forall e | e in w.idle && e.id == conn.id && e != conn :: e.key in w.timers && TakenSince(w))
      && (conn.id in w.held && w.held[conn.id] != Arming(conn.key) ==>
            TakenSince(w) && (w.held[conn.id].Arming? ==> w.held[conn.id].key in w.timers))
  }

  // ---- The history only grows. ----

  lemma BeforeGrows(log: seq<Note>, n: Note, a: Note, b: Note)
    ensures Before(log, a, b) ==> Before(log + [n], a, b)
    ensures a in log && n == b ==> Before(log + [n], a, b)
  {
    var grown := log + [n];
    if Before(log, a, b) {
      var i, j :| 0 <= i < j < |log| && log[i] == a && log[j] == b;
      assert grown[i] == a && grown[j] == b;
    }
    if a in log && n == b {
      var i :| 0 <= i < |log| && log[i] == a;
      assert grown[i] == a && grown[|log|] == b;
    }
  }

  lemma LeftByReapGrows(log: seq<Note>, n: Note, id: nat, key: nat)
    requires LeftByReap(log, id, key)
    ensures LeftByReap(log + [n], id, key)
  {
    var other: nat :| Reaped(IdleConn(id, other), Some(key)) in log;
    assert Reaped(IdleConn(id, other), Some(key)) in log + [n];
  }

  /** The entry of an index is on the list, and off it once removed. */
  lemma RemovedEntry(idle: seq<IdleConn>, timers: map<nat, nat>, nextKey: nat, k: nat)
    requires Orderly(idle, timers, nextKey) && k < |idle|
    ensures Orderly(WithoutEntry(idle, k), timers, nextKey)
    ensures Orderly(WithoutEntry(idle, k), timers - {idle[k].key}, nextKey)
    ensures idle[k].key < nextKey
    ensures forall e :: e in WithoutEntry(idle, k) <==> e in idle && e != idle[k]
    ensures forall e | e in WithoutEntry(idle, k) :: e.id != idle[k].id && e.key != idle[k].key
  {
    OrderlyWithout(idle, timers, nextKey, k);
    var rest := WithoutEntry(idle, k);
    forall e | e in idle && e != idle[k] ensures e in rest {
      StillListed(idle, k, e);
    }
    assert forall i | 0 <= i < |rest| :: rest[i] == idle[if i < k then i else i + 1];
  }

  // ---- Each step keeps the places. ----

  ghost predicate InPlace(w: World) {
    Placed(w) && ArmingPlaced(w)
  }

  lemma QuietPlaces(w: World, step: Step)
    requires InPlace(w) && Enabled(w, step) && (step.Dial? || step.Close? || step.Check? || step.Cancel?)
    ensures InPlace(Perform(w, step))
  {
    hide Orderly;
  }

  lemma ArmPlaces(w: World, id: nat)
    requires InPlace(w) && Enabled(w, Arm(id))
    ensures InPlace(Perform(w, Arm(id)))
  {
  }

  lemma TakePlaces(w: World)
    requires InPlace(w) && w.idle != []
    ensures InPlace(AfterTake(w))
  {
    hide Orderly;
    RemovedEntry(w.idle, w.timers, w.nextKey, |w.idle| - 1);
    assert w.idle[|w.idle| - 1] in w.idle;
  }

  lemma PushPlaces(w: World, id: nat)
    requires InPlace(w) && Enabled(w, Push(id))
    ensures InPlace(AfterPush(w, id))
  {
    hide Orderly;
    PushOrderly(w.idle, w.timers, w.nextKey, IdleConn(id, w.held[id].key));
  }

  lemma PushOrderly(idle: seq<IdleConn>, timers: map<nat, nat>, nextKey: nat, conn: IdleConn)
    requires Orderly(idle, timers, nextKey) && conn.key < nextKey
    requires conn.key in timers ==> timers[conn.key] == conn.id
    requires forall e | e in idle :: e.id != conn.id && e.key != conn.key
    ensures Orderly(idle + [conn], timers, nextKey)
  {
    assert forall i | 0 <= i < |idle| :: idle[i] in idle;
  }

  lemma ExpirePlaces(w: World, key: nat)
    requires InPlace(w) && key in w.timers
    ensures InPlace(AfterExpire(w, key))
  {
  }

  lemma ReapPlaces(w: World)
    requires InPlace(w) && w.reaping.Some?
    ensures InPlace(AfterReap(w))
  {
    hide Orderly;
    var k := Pool.IndexOf(IdsOf(w.idle), w.reaping.value.id);
    if k < |w.idle| {
      assert w.idle[k] in w.idle && w.idle[k].id == w.reaping.value.id;
      RemovedEntry(w.idle, w.timers, w.nextKey, k);
    }
  }

  lemma DrainPlaces(w: World)
    requires InPlace(w)
    ensures InPlace(AfterDrain(w))
  {
  }

  // ---- ... and the history. ----

  ghost predicate Remembered(w: World) {
    PastIsOver(w) && TakenIsOver(w) && TimersKnown(w) && LossKnown(w) && ReapKnown(w)
  }

  /** Nothing the history speaks of has changed. */
  predicate SameHistory(w: World, n: World) {
    && n.idle == w.idle && n.timers == w.timers && n.log == w.log && n.reaping == w.reaping
    && n.nextKey == w.nextKey && w.closed <= n.closed
    && (forall id | id in n.held && n.held[id].Arming? :: id in w.held && w.held[id] == n.held[id])
    && (forall id | id in w.held && w.held[id].Arming? :: id in n.held && w.held[id] == n.held[id])
    && (w.reaping.Some? && w.reaping.value.id in n.held ==> w.reaping.value.id in w.held)
  }

  lemma QuietRemembered(w: World, n: World)
    requires Remembered(w) && SameHistory(w, n)
    ensures Remembered(n)
  {
    hide Before, LeftByReap;
    assert PastIsOver(n) && TakenIsOver(n);
    forall k | k in n.timers
      ensures Owns(n, IdleConn(n.timers[k], k)) || (n.timers[k] in n.closed && LeftByReap(n.log, n.timers[k], k))
    {
      assert Owns(w, IdleConn(w.timers[k], k)) || (w.timers[k] in w.closed && LeftByReap(w.log, w.timers[k], k));
    }
  }

  lemma ArmPast(w: World, id: nat)
    requires InPlace(w) && PastIsOver(w) && TakenIsOver(w) && Enabled(w, Arm(id))
    ensures PastIsOver(Perform(w, Arm(id))) && TakenIsOver(Perform(w, Arm(id)))
  {
    hide Orderly;
  }

  lemma ArmTimers(w: World, id: nat)
    requires TimersKnown(w) && Enabled(w, Arm(id))
    ensures TimersKnown(Perform(w, Arm(id)))
  {
    hide LeftByReap;
    var n := Perform(w, Arm(id));
    forall k | k in n.timers
      ensures Owns(n, IdleConn(n.timers[k], k)) || (n.timers[k] in n.closed && LeftByReap(n.log, n.timers[k], k))
    {
      if k != w.nextKey {
        assert Owns(w, IdleConn(w.timers[k], k)) || (w.timers[k] in w.closed && LeftByReap(w.log, w.timers[k], k));
      }
    }
  }

  lemma ArmRemembered(w: World, id: nat)
    requires InPlace(w) && Remembered(w) && Enabled(w, Arm(id))
    ensures Remembered(Perform(w, Arm(id)))
  {
    hide Before, Orderly, PastIsOver, TakenIsOver, TimersKnown;
    var n := Perform(w, Arm(id));
    ArmPast(w, id);
    ArmTimers(w, id);
    assert LossKnown(n);
    assert ReapKnown(n);
  }

  lemma KeysArePast(w: World)
    requires Placed(w)
    ensures forall e | e in w.idle :: e.key < w.nextKey && (e.key in w.timers ==> w.timers[e.key] == e.id)
    ensures forall e, f | e in w.idle && f in w.idle && e != f :: e.key != f.key && e.id != f.id
  {
    forall e, f | e in w.idle && f in w.idle && e != f ensures e.key != f.key && e.id != f.id {
      var i :| 0 <= i < |w.idle| && w.idle[i] == e;
      var j :| 0 <= j < |w.idle| && w.idle[j] == f;
      if i < j {
        assert w.idle[i].key != w.idle[j].key;
      } else {
        assert w.idle[j].key != w.idle[i].key;
      }
    }
  }

  /** A timer that is still live after one more note is known as before, if its entry is still current. */
  lemma TimersStay(w: World, n: World, note: Note)
    requires TimersKnown(w) && n.log == w.log + [note] && w.closed <= n.closed
    requires forall k | k in n.timers :: k in w.timers && n.timers[k] == w.timers[k]
    requires forall k | k in n.timers && Owns(w, IdleConn(w.timers[k], k)) ::
               Owns(n, IdleConn(w.timers[k], k)) || (w.timers[k] in n.closed && LeftByReap(n.log, w.timers[k], k))
    ensures TimersKnown(n)
  {
    hide LeftByReap, Owns;
    forall k | k in n.timers
      ensures Owns(n, IdleConn(n.timers[k], k)) || (n.timers[k] in n.closed && LeftByReap(n.log, n.timers[k], k))
    {
      if !Owns(w, IdleConn(w.timers[k], k)) {
        LeftByReapGrows(w.log, note, w.timers[k], k);
      }
    }
  }

  /** Known losses stay known when one more note is made. */
  lemma LossStays(w: World, n: World, note: Note)
    requires LossKnown(w) && n.log == w.log + [note]
    ensures forall e | e in w.idle && e.key !in w.timers :: w.reaping == Some(e) || Before(n.log, Reaped(e, None), Pushed(e))
    ensures forall id | id in w.held && w.held[id].Arming? && w.held[id].key !in w.timers ::
              w.reaping == Some(IdleConn(id, w.held[id].key)) || Reaped(IdleConn(id, w.held[id].key), None) in n.log
  {
    hide Before;
    forall e | e in w.idle && e.key !in w.timers && w.reaping != Some(e) ensures Before(n.log, Reaped(e, None), Pushed(e)) {
      BeforeGrows(w.log, note, Reaped(e, None), Pushed(e));
    }
  }

  lemma TakePast(w: World)
    requires InPlace(w) && PastIsOver(w) && TakenIsOver(w) && w.idle != []
    ensures PastIsOver(AfterTake(w)) && TakenIsOver(AfterTake(w))
  {
    hide Orderly;
    var last := |w.idle| - 1;
    assert w.idle[last] in w.idle;
    RemovedEntry(w.idle, w.timers, w.nextKey, last);
  }

  lemma TakeTimers(w: World)
    requires InPlace(w) && TimersKnown(w) && w.idle != []
    ensures TimersKnown(AfterTake(w))
  {
    hide Orderly, LeftByReap;
    var last := |w.idle| - 1;
    assert w.idle[last] in w.idle;
    RemovedEntry(w.idle, w.timers, w.nextKey, last);
    TimersStay(w, AfterTake(w), Taken(w.idle[last]));
  }

  lemma TakeLoss(w: World)
    requires InPlace(w) && LossKnown(w) && w.idle != []
    ensures LossKnown(AfterTake(w))
  {
    hide Orderly, Before;
    var last := |w.idle| - 1;
    assert w.idle[last] in w.idle;
    RemovedEntry(w.idle, w.timers, w.nextKey, last);
    LossStays(w, AfterTake(w), Taken(w.idle[last]));
  }

  lemma TakePending(w: World)
    requires InPlace(w) && ReapKnown(w) && w.idle != []
    ensures ReapKnown(AfterTake(w))
  {
    hide Orderly, Before;
    var last := |w.idle| - 1;
    var conn, n := w.idle[last], AfterTake(w);
    assert conn in w.idle;
    RemovedEntry(w.idle, w.timers, w.nextKey, last);
    if n.reaping.Some? {
      BeforeGrows(w.log, Taken(conn), Expired(n.reaping.value), Taken(n.reaping.value));
    }
  }

  lemma TakeRemembered(w: World)
    requires InPlace(w) && Remembered(w) && w.idle != []
    ensures Remembered(AfterTake(w))
  {
    hide InPlace, AfterTake, PastIsOver, TakenIsOver, TimersKnown, LossKnown, ReapKnown;
    TakePast(w);
    TakeTimers(w);
    TakeLoss(w);
    TakePending(w);
  }

  lemma PushPast(w: World, id: nat)
    requires InPlace(w) && PastIsOver(w) && TakenIsOver(w) && Enabled(w, Push(id))
    ensures PastIsOver(AfterPush(w, id)) && TakenIsOver(AfterPush(w, id))
  {
    hide Orderly;
  }

  lemma PushLoss(w: World, id: nat)
    requires InPlace(w) && LossKnown(w) && Enabled(w, Push(id))
    ensures LossKnown(AfterPush(w, id))
  {
    hide Orderly, Before;
    var conn := IdleConn(id, w.held[id].key);
    LossStays(w, AfterPush(w, id), Pushed(conn));
    BeforeGrows(w.log, Pushed(conn), Reaped(conn, None), Pushed(conn));
  }

  lemma PushPending(w: World, id: nat)
    requires InPlace(w) && ReapKnown(w) && Enabled(w, Push(id))
    ensures ReapKnown(AfterPush(w, id))
  {
    hide Orderly, Before;
    if w.reaping.Some? {
      var conn := IdleConn(id, w.held[id].key);
      BeforeGrows(w.log, Pushed(conn), Expired(w.reaping.value), Taken(w.reaping.value));
    }
  }

  lemma PushRemembered(w: World, id: nat)
    requires InPlace(w) && Remembered(w) && Enabled(w, Push(id))
    ensures Remembered(AfterPush(w, id))
  {
    hide InPlace, PastIsOver, TakenIsOver, TimersKnown, LossKnown, ReapKnown, LeftByReap;
    PushPast(w, id);
    TimersStay(w, AfterPush(w, id), Pushed(IdleConn(id, w.held[id].key)));
    PushLoss(w, id);
    PushPending(w, id);
  }

  lemma ExpirePast(w: World, key: nat)
    requires InPlace(w) && PastIsOver(w) && TakenIsOver(w) && Enabled(w, Expire(key))
    ensures PastIsOver(AfterExpire(w, key)) && TakenIsOver(AfterExpire(w, key))
  {
    hide Orderly;
    TimerKeyIsPast(w, key);
  }

  lemma ExpireLoss(w: World, key: nat)
    requires InPlace(w) && LossKnown(w) && Enabled(w, Expire(key))
    ensures LossKnown(AfterExpire(w, key))
  {
    hide Orderly, Before;
    KeysArePast(w);
    LossStays(w, AfterExpire(w, key), Expired(IdleConn(w.timers[key], key)));
  }

  lemma ExpirePending(w: World, key: nat)
    requires InPlace(w) && TimersKnown(w) && Enabled(w, Expire(key))
    ensures ReapKnown(AfterExpire(w, key))
  {
    hide Orderly, Before, LeftByReap;
    var conn := IdleConn(w.timers[key], key);
    KeysArePast(w);
    assert Owns(w, conn) || conn.id in w.closed;
  }

  lemma ExpireRemembered(w: World, key: nat)
    requires InPlace(w) && Remembered(w) && Enabled(w, Expire(key))
    ensures Remembered(AfterExpire(w, key))
  {
    hide InPlace, PastIsOver, TakenIsOver, TimersKnown, LossKnown, ReapKnown, LeftByReap;
    ExpirePast(w, key);
    TimersStay(w, AfterExpire(w, key), Expired(IdleConn(w.timers[key], key)));
    ExpireLoss(w, key);
    ExpirePending(w, key);
  }

  lemma TimerKeyIsPast(w: World, key: nat)
    requires Placed(w) && key in w.timers
    ensures key < w.nextKey
  {
  }

  /** What is left of the list after a reap, and the note it makes. */
  lemma ReapSplits(w: World) returns (note: Note)
    requires InPlace(w) && w.reaping.Some?
    ensures var n := AfterReap(w);
            && n.log == w.log + [note] && note.Reaped? && note.conn == w.reaping.value
            && (note.hit.Some? ==> IdleConn(note.conn.id, note.hit.value) in w.idle && note.conn.id in n.closed)
            && (forall e :: e in n.idle <==> e in w.idle && e.id != note.conn.id)
            && (note.hit.None? ==> n.idle == w.idle)
  {
    hide Orderly;
    var conn := w.reaping.value;
    var k := Pool.IndexOf(IdsOf(w.idle), conn.id);
    note := AfterReap(w).log[|w.log|];
    if k < |w.idle| {
      RemovedEntry(w.idle, w.timers, w.nextKey, k);
      assert w.idle[k] == IdleConn(conn.id, w.idle[k].key) && w.idle[k] in w.idle;
    } else {
      NotListed(w.idle, conn.id);
    }
  }

  lemma ReapPast(w: World)
    requires InPlace(w) && PastIsOver(w) && TakenIsOver(w) && w.reaping.Some?
    ensures PastIsOver(AfterReap(w)) && TakenIsOver(AfterReap(w))
  {
    hide Orderly;
    var note := ReapSplits(w);
  }

  lemma ReapTimers(w: World)
    requires InPlace(w) && TimersKnown(w) && w.reaping.Some?
    ensures TimersKnown(AfterReap(w))
  {
    hide Orderly, LeftByReap;
    var note := ReapSplits(w);
    var n := AfterReap(w);
    KeysArePast(w);
    if note.hit.Some? {
      HitIsLeft(w.log, note.conn, note.hit.value);
    }
    TimersStay(w, n, note);
  }

  lemma ReapLoss(w: World)
    requires InPlace(w) && LossKnown(w) && w.reaping.Some?
    ensures LossKnown(AfterReap(w))
  {
    hide Orderly, Before;
    var note := ReapSplits(w);
    LossStays(w, AfterReap(w), note);
    assert note in AfterReap(w).log;
  }

  lemma ReapRemembered(w: World)
    requires InPlace(w) && Remembered(w) && w.reaping.Some?
    ensures Remembered(AfterReap(w))
  {
    hide InPlace, PastIsOver, TakenIsOver, TimersKnown, LossKnown;
    ReapPast(w);
    ReapTimers(w);
    ReapLoss(w);
  }

  lemma HitIsLeft(log: seq<Note>, conn: IdleConn, key: nat)
    ensures LeftByReap(log + [Reaped(conn, Some(key))], conn.id, key)
  {
    assert Reaped(IdleConn(conn.id, conn.key), Some(key)) in log + [Reaped(conn, Some(key))];
  }

  lemma NotListed(idle: seq<IdleConn>, id: nat)
    requires Pool.IndexOf(IdsOf(idle), id) == |idle|
    ensures forall e | e in idle :: e.id != id
  {
    forall e | e in idle ensures e.id != id {
      var i :| 0 <= i < |idle| && idle[i] == e;
      assert IdsOf(idle)[i] == e.id;
    }
  }

  lemma DrainRemembered(w: World)
    requires InPlace(w) && Remembered(w)
    ensures Remembered(AfterDrain(w))
  {
    hide Before, LeftByReap, Orderly;
    var n := AfterDrain(w);
    assert PastIsOver(n) && TakenIsOver(n);
    forall k | k in n.timers
      ensures Owns(n, IdleConn(n.timers[k], k)) || (n.timers[k] in n.closed && LeftByReap(n.log, n.timers[k], k))
    {
      assert Owns(w, IdleConn(w.timers[k], k)) || (w.timers[k] in w.closed && LeftByReap(w.log, w.timers[k], k));
      assert IdleConn(w.timers[k], k) !in w.idle;
    }
    assert LossKnown(n) && ReapKnown(n);
  }

  lemma StepKeeps(w: World, step: Step)
    requires InPlace(w) && Remembered(w) && Enabled(w, step)
    ensures InPlace(Perform(w, step)) && Remembered(Perform(w, step))
  {
    hide InPlace, Remembered, AfterTake, AfterPush, AfterExpire, AfterReap, AfterDrain;
    match step
    case Take => TakePlaces(w); TakeRemembered(w);
    case Arm(id) => ArmPlaces(w, id); ArmRemembered(w, id);
    case Push(id) => PushPlaces(w, id); PushRemembered(w, id);
    case Expire(key) => ExpirePlaces(w, key); ExpireRemembered(w, key);
    case Reap => ReapPlaces(w); ReapRemembered(w);
    case Drain => DrainPlaces(w); DrainRemembered(w);
    case _ =>
      QuietPlaces(w, step);
      QuietIsQuiet(w, step);
      QuietRemembered(w, Perform(w, step));
  }

  lemma QuietIsQuiet(w: World, step: Step)
    requires InPlace(w) && Enabled(w, step) && (step.Dial? || step.Close? || step.Check? || step.Cancel?)
    ensures SameHistory(w, Perform(w, step))
  {
    hide Orderly;
  }

  lemma {:induction false} RunKeeps(w: World, steps: seq<Step>)
    requires InPlace(w) && Remembered(w)
    ensures InPlace(Run(w, steps)) && Remembered(Run(w, steps))
    decreases |steps|
  {
    hide Enabled, Perform, InPlace, Remembered;
    if steps != [] {
      if Enabled(w, steps[0]) {
        StepKeeps(w, steps[0]);
      }
      RunKeeps(Next(w, steps[0]), steps[1..]);
    }
  }

  lemma Reachable(steps: seq<Step>)
    ensures InPlace(Run(Start(), steps)) && Remembered(Run(Start(), steps))
  {
    hide Run;
    assert InPlace(Start()) && Remembered(Start());
    RunKeeps(Start(), steps);
  }

  // ---- The main results, over every run. ----

  /** Its timer ran before it was on the list, and found nothing. */
  predicate TimerLost(w: World, conn: IdleConn) {
    Before(w.log, Reaped(conn, None), Pushed(conn))
  }

  /**
    A listed connection has no live timer exactly while its own reap is pending, or for good once that
    reap ran between its arming and its listing.
   */
  lemma NoTimerExactly(steps: seq<Step>, conn: IdleConn)
    requires conn in Run(Start(), steps).idle
    ensures var w := Run(Start(), steps);
            conn.key !in w.timers <==> w.reaping == Some(conn) || TimerLost(w, conn)
  {
    hide Run, Orderly, TimersKnown, ReapKnown;
    Reachable(steps);
  }

  /**
    What a pending reap closes. It closes another entry than the one its timer was for exactly if the
    connection was taken since the timer ran out and has been listed again; that entry's own timer has
    then not run out, and stays behind without an entry.
   */
  lemma ReapHitsExactly(steps: seq<Step>)
    requires Run(Start(), steps).reaping.Some?
    ensures var w := Run(Start(), steps);
            var conn, n := w.reaping.value, AfterReap(w);
            && (conn in w.idle ==> conn !in n.idle && conn.id in n.closed)
            && ((exists e :: e in w.idle && e.id == conn.id && e != conn) <==> TakenSince(w) && conn.id in IdsOf(w.idle))
            && (forall e | e in w.idle && e.id == conn.id && e != conn ::
                  e !in n.idle && e.id in n.closed && e.key in w.timers && n.timers == w.timers && LeftByReap(n.log, e.id, e.key))
            && (conn.id !in IdsOf(w.idle) ==> n.idle == w.idle && n.closed == w.closed)
  {
    hide Run, Orderly, TimersKnown, LossKnown, PastIsOver, LeftByReap;
    Reachable(steps);
    var w := Run(Start(), steps);
    var conn, n := w.reaping.value, AfterReap(w);
    KeysArePast(w);
    var note := ReapSplits(w);
    forall e | e in w.idle ensures e.id in IdsOf(w.idle) {
      var i :| 0 <= i < |w.idle| && w.idle[i] == e;
      assert IdsOf(w.idle)[i] == e.id;
    }
    if conn.id in IdsOf(w.idle) {
      var i :| 0 <= i < |w.idle| && IdsOf(w.idle)[i] == conn.id;
      assert w.idle[i] in w.idle && w.idle[i].id == conn.id;
      assert note.hit.Some?;
      HitIsLeft(w.log, conn, note.hit.value);
    }
    TakenOnce(w);
  }

  /** An entry that was taken is not the current one. */
  lemma TakenOnce(w: World)
    requires TakenIsOver(w) && w.reaping.Some?
    ensures TakenSince(w) ==> w.reaping.value !in w.idle
  {
    if TakenSince(w) {
      assert Taken(w.reaping.value) in w.log;
    }
  }

  /** A live timer has no current entry exactly if another timer's reap closed the entry; its connection is closed. */
  lemma OrphansExactly(steps: seq<Step>, key: nat)
    requires key in Run(Start(), steps).timers
    ensures var w := Run(Start(), steps);
            && (!Owns(w, IdleConn(w.timers[key], key)) <==> LeftByReap(w.log, w.timers[key], key))
            && (LeftByReap(w.log, w.timers[key], key) ==> w.timers[key] in w.closed)
  {
    hide Run, Orderly, LossKnown, ReapKnown, TakenIsOver;
    Reachable(steps);
    var w := Run(Start(), steps);
    if LeftByReap(w.log, w.timers[key], key) {
      var other: nat :| Reaped(IdleConn(w.timers[key], other), Some(key)) in w.log;
      assert Reaped(IdleConn(w.timers[key], other), Some(key)).conn.id in w.closed;
    }
  }

  predicate HalfReleased(w: World, id: nat) {
    id in w.held && w.held[id].Arming? && w.held[id].key in w.timers
  }

  /**
    Entries and live timers match up exactly when no listed connection is being reaped or has lost its
    timer, no timer was left behind by a reap, and no release stands between its two halves.
   */
  lemma SettledExactly(steps: seq<Step>)
    ensures var w := Run(Start(), steps);
            Armed(w.idle, w.timers) <==>
            && (forall e | e in w.idle :: w.reaping != Some(e) && !TimerLost(w, e))
            && (forall k | k in w.timers :: !LeftByReap(w.log, w.timers[k], k))
            && (forall id | id in w.held :: !HalfReleased(w, id))
  {
    hide Run, LeftByReap, TimerLost, Remembered, InPlace, Owns, Armed, HalfReleased;
    Reachable(steps);
    var w := Run(Start(), steps);
    forall e | e in w.idle ensures e.key !in w.timers <==> w.reaping == Some(e) || TimerLost(w, e) {
      NoTimerExactly(steps, e);
    }
    forall k | k in w.timers ensures !Owns(w, IdleConn(w.timers[k], k)) <==> LeftByReap(w.log, w.timers[k], k) {
      OrphansExactly(steps, k);
    }
    MatchExactly(w);
  }

  lemma MatchExactly(w: World)
    requires InPlace(w)
    ensures Armed(w.idle, w.timers) <==>
            && (forall e | e in w.idle :: e.key in w.timers)
            && (forall k | k in w.timers :: Owns(w, IdleConn(w.timers[k], k)))
            && (forall id | id in w.held :: !HalfReleased(w, id))
  {
    KeysArePast(w);
    assert forall i | 0 <= i < |w.idle| :: w.idle[i] in w.idle;
    forall e | e in w.idle && Armed(w.idle, w.timers) ensures e.key in w.timers {
      var i :| 0 <= i < |w.idle| && w.idle[i] == e;
    }
  }

  /** After a shutdown has closed the list, the live timers are those of releases half way through and those left by a reap. */
  lemma DrainLeavesExactly(steps: seq<Step>)
    ensures var w := Run(Start(), steps);
            var n := AfterDrain(w);
            && n.idle == [] && (forall e | e in w.idle :: e.id in n.closed)
            && (forall k :: k in n.timers <==>
                  k in w.timers && (LeftByReap(w.log, w.timers[k], k) || w.timers[k] in w.held))
  {
    hide Run, LeftByReap, LossKnown, ReapKnown, PastIsOver, TakenIsOver;
    Reachable(steps);
    var w := Run(Start(), steps);
    KeysArePast(w);
    forall k | k in w.timers
      ensures IsKeyOf(w.idle, k) <==> !(LeftByReap(w.log, w.timers[k], k) || w.timers[k] in w.held)
    {
      OrphansExactly(steps, k);
    }
  }

  // ---- Two runs. ----

  lemma RunOne(w: World, step: Step, rest: seq<Step>)
    ensures Run(w, [step] + rest) == Run(Next(w, step), rest)
  {
    assert ([step] + rest)[1..] == rest;
  }

  lemma TwoSteps(w: World, a: Step, b: Step, rest: seq<Step>)
    ensures Run(w, [a, b] + rest) == Run(Next(Next(w, a), b), rest)
  {
    RunOne(w, a, [b] + rest);
    RunOne(Next(w, a), b, rest);
    assert [a, b] + rest == [a] + ([b] + rest);
  }

  lemma FourSteps(w: World, a: Step, b: Step, c: Step, d: Step, rest: seq<Step>)
    ensures Run(w, [a, b, c, d] + rest) == Run(Next(Next(Next(Next(w, a), b), c), d), rest)
  {
    TwoSteps(w, a, b, [c, d] + rest);
    TwoSteps(Next(Next(w, a), b), c, d, rest);
    assert [a, b, c, d] + rest == [a, b] + ([c, d] + rest);
  }

  /** A release with nothing in between. */
  lemma Released(w: World, id: nat)
    requires id in w.held && w.held[id].Leased? && !w.cancelled
    ensures Next(Next(Next(w, Check(id)), Arm(id)), Push(id))
         == w.(idle := w.idle + [IdleConn(id, w.nextKey)], timers := w.timers[w.nextKey := id], held := w.held - {id},
               nextKey := w.nextKey + 1, log := w.log + [Pushed(IdleConn(id, w.nextKey))])
  {
    var armed := Next(Next(w, Check(id)), Arm(id));
    assert armed == w.(held := w.held[id := Arming(w.nextKey)], timers := w.timers[w.nextKey := id], nextKey := w.nextKey + 1)
      by {
        assert w.held[id := Checked][id := Arming(w.nextKey)] == w.held[id := Arming(w.nextKey)];
      }
    assert w.held[id := Arming(w.nextKey)] - {id} == w.held - {id};
  }

  /** One connection on the list with its timer. */
  function OneIdle(): World {
    World([IdleConn(0, 0)], map[0 := 0], map[], None, {}, false, 1, 1, [Pushed(IdleConn(0, 0))])
  }

  lemma OneIdleRun(rest: seq<Step>)
    ensures Run(Start(), [Dial, Check(0), Arm(0), Push(0)] + rest) == Run(OneIdle(), rest)
  {
    FourSteps(Start(), Dial, Check(0), Arm(0), Push(0), rest);
    var dialled := Next(Start(), Dial);
    assert dialled == Start().(held := map[0 := Leased], nextId := 1);
    Released(dialled, 0);
    assert dialled.held - {0} == map[] && dialled.timers[0 := 0] == map[0 := 0];
    var listed := Next(Next(Next(dialled, Check(0)), Arm(0)), Push(0));
    assert listed.idle == [IdleConn(0, 0)] && listed.log == [Pushed(IdleConn(0, 0))];
    assert listed == OneIdle();
  }

  /** A timer that runs before its connection is listed: everybody is done, and the connection has no timer. */
  lemma LateListingRun()
    ensures var w := Run(Start(), [Dial, Check(0), Arm(0), Expire(0), Reap, Push(0)]);
            && w.idle == [IdleConn(0, 0)] && w.timers == map[]
            && w.held == map[] && w.reaping == None && w.closed == {}
  {
    var armed := Next(Next(Next(Start(), Dial), Check(0)), Arm(0));
    assert armed == World([], map[0 := 0], map[0 := Arming(0)], None, {}, false, 1, 1, []);
    ReapedEarly(armed);
    FourSteps(Start(), Dial, Check(0), Arm(0), Expire(0), [Reap, Push(0)]);
    TwoSteps(Next(armed, Expire(0)), Reap, Push(0), []);
    assert [Dial, Check(0), Arm(0), Expire(0)] + [Reap, Push(0)] == [Dial, Check(0), Arm(0), Expire(0), Reap, Push(0)];
    assert [Reap, Push(0)] + [] == [Reap, Push(0)];
  }

  lemma ReapedEarly(w: World)
    requires w == World([], map[0 := 0], map[0 := Arming(0)], None, {}, false, 1, 1, [])
    ensures var n := Next(Next(Next(w, Expire(0)), Reap), Push(0));
            && n.idle == [IdleConn(0, 0)] && n.timers == map[] && n.held == map[] && n.reaping == None && n.closed == {}
  {
    var expired := Next(w, Expire(0));
    assert expired.timers == map[] && expired.reaping == Some(IdleConn(0, 0)) && expired.idle == [];
    var reaped := Next(expired, Reap);
    assert reaped.idle == [] && reaped.timers == map[] && reaped.held == w.held && reaped.reaping == None;
    assert reaped.held - {0} == map[];
  }

  /** Taken while its reap is pending. */
  function TakenLate(): World {
    World([], map[], map[0 := Leased], Some(IdleConn(0, 0)), {}, false, 1, 1,
          [Pushed(IdleConn(0, 0)), Expired(IdleConn(0, 0)), Taken(IdleConn(0, 0))])
  }

  lemma TakenLateStep()
    ensures Next(Next(OneIdle(), Expire(0)), Take) == TakenLate()
  {
    var expired := Next(OneIdle(), Expire(0));
    assert expired.timers == map[];
    assert WithoutEntry([IdleConn(0, 0)], 0) == [];
    assert expired.timers - {0} == map[];
  }

  lemma ReapedLate(w: World)
    requires w.idle == [IdleConn(0, 1)] && w.timers == map[1 := 0] && w.held == map[] && w.closed == {}
    requires w.reaping == Some(IdleConn(0, 0))
    ensures var n := Next(w, Reap);
            && n.idle == [] && n.timers == map[1 := 0] && n.held == map[] && n.reaping == None && n.closed == {0}
            && AfterDrain(n).timers == map[1 := 0]
  {
    assert Pool.IndexOf(IdsOf(w.idle), 0) == 0;
    assert WithoutEntry(w.idle, 0) == [];
  }

  /**
    A reap that comes late: the connection was taken and given back since its timer ran out. It is
    closed at once, and its new timer outlives it and the shutdown.
   */
  lemma StaleReapRun()
    ensures var w := Run(Start(), [Dial, Check(0), Arm(0), Push(0), Expire(0), Take, Check(0), Arm(0), Push(0), Reap]);
            && w.idle == [] && w.timers == map[1 := 0] && w.held == map[] && w.reaping == None && w.closed == {0}
            && AfterDrain(w).timers == map[1 := 0]
  {
    hide Next, OneIdle, AfterDrain;
    var again := [Check(0), Arm(0), Push(0), Reap];
    OneIdleRun([Expire(0), Take] + again);
    TwoSteps(OneIdle(), Expire(0), Take, again);
    TakenLateStep();
    FourSteps(TakenLate(), Check(0), Arm(0), Push(0), Reap, []);
    Released(TakenLate(), 0);
    assert TakenLate().held - {0} == map[] && TakenLate().timers[1 := 0] == map[1 := 0];
    ReapedLate(Next(Next(Next(TakenLate(), Check(0)), Arm(0)), Push(0)));
    assert again + [] == again;
    assert [Dial, Check(0), Arm(0), Push(0)] + ([Expire(0), Take] + again)
        == [Dial, Check(0), Arm(0), Push(0), Expire(0), Take, Check(0), Arm(0), Push(0), Reap];
  }

  // ---- The ordinary course. ----

  lemma RunOn(w: World, steps: seq<Step>, rest: seq<Step>)
    requires steps != [] && rest == steps[1..] && Enabled(w, steps[0])
    ensures Run(w, steps) == Run(Perform(w, steps[0]), rest)
    ensures rest == [] ==> Run(w, steps) == Perform(w, steps[0])
  {
  }

  /** A lease given back undisturbed is on top of the list with a live timer of its own; one that is closed is gone for good. */
  lemma GivesBack(w: World, id: nat)
    requires id in w.held && w.held[id].Leased? && !w.cancelled
    ensures Run(w, [Check(id), Arm(id), Push(id)])
         == w.(idle := w.idle + [IdleConn(id, w.nextKey)], timers := w.timers[w.nextKey := id], held := w.held - {id},
               nextKey := w.nextKey + 1, log := w.log + [Pushed(IdleConn(id, w.nextKey))])
    ensures Run(w, [Close(id)]) == w.(held := w.held - {id}, closed := w.closed + {id})
  {
    hide Run;
    var checked := Perform(w, Check(id));
    RunOn(w, [Check(id), Arm(id), Push(id)], [Arm(id), Push(id)]);
    RunOn(checked, [Arm(id), Push(id)], [Push(id)]);
    RunOn(Perform(checked, Arm(id)), [Push(id)], []);
    assert w.held[id := Checked][id := Arming(w.nextKey)] - {id} == w.held - {id};
    RunOn(w, [Close(id)], []);
  }

  /** The connection on top is taken with its timer disarmed; with none, a new one is dialled under a new id. */
  lemma TakesTop(w: World)
    ensures w.idle != [] ==>
              var top := w.idle[|w.idle| - 1];
              Run(w, [Take]) == w.(idle := w.idle[..|w.idle| - 1], timers := w.timers - {top.key},
                                   held := w.held[top.id := Leased], log := w.log + [Taken(top)])
    ensures Run(w, [Dial]) == w.(held := w.held[w.nextId := Leased], nextId := w.nextId + 1)
  {
    hide Run;
    RunOn(w, [Dial], []);
    if w.idle != [] {
      RunOn(w, [Take], []);
    }
  }
}

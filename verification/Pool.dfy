/**
  A session's connection pool: a semaphore, a stack of idle connections, dialling, leasing,
  returning, reaping and shutting down, with every caller's progress interleaved with every other's.
 */
module Pool {
  import opened Connection

  /** A caller between asking for a permit and giving it back. */
  datatype Holder =
    | Searching
    | Checking(id: nat)
    | Opening
    | Dialling(id: nat)
    | Leased(id: nat)
    | Returning(id: nat)
    | Leaving

  datatype World = World(
    capacity: nat,
    available: nat,
    open: bool,
    cancelled: bool,
    idle: seq<nat>,
    holders: map<nat, Holder>,
    conns: map<nat, Conn>,
    next: nat)

  datatype Step =
    | Acquire(caller: nat)
    | TakeIdle(caller: nat)
    | Check(caller: nat)
    | DrawId(caller: nat)
    | DialOk(caller: nat)
    | DialFail(caller: nat)
    | DropLease(caller: nat)
    | Push(caller: nat)
    | Leave(caller: nat)
    | Reap(id: nat)
    | CancelAll
    | CloseSemaphore
    | Drain
    | Use(id: nat, move: Move)

  function Capacity(maxSize: nat): nat {
    if maxSize < 1 then 1 else maxSize
  }

  function Start(maxSize: nat): World {
    World(Capacity(maxSize), Capacity(maxSize), true, false, [], map[], map[], 0)
  }

  predicate Enabled(w: World, step: Step) {
    match step
    case Acquire(c) => c !in w.holders && w.available > 0 && w.open
    case TakeIdle(c) => c in w.holders && w.holders[c].Searching?
    case Check(c) => c in w.holders && w.holders[c].Checking?
    case DrawId(c) => c in w.holders && w.holders[c].Opening?
    case DialOk(c) => c in w.holders && w.holders[c].Dialling?
    case DialFail(c) => c in w.holders && w.holders[c].Dialling?
    case DropLease(c) => c in w.holders && w.holders[c].Leased?
    case Push(c) => c in w.holders && w.holders[c].Returning?
    case Leave(c) => c in w.holders && w.holders[c].Leaving?
    case Reap(_) => true
    case CancelAll => true
    case CloseSemaphore => w.cancelled
    case Drain => !w.open
    case Use(id, move) => id in w.conns && CanMove(w.conns[id], move)
  }

  function Poisoned(conns: map<nat, Conn>, id: nat): bool {
    id in conns && conns[id].poisoned
  }

  /** Closing a handle cancels its connection's own token. */
  function CloseConn(conns: map<nat, Conn>, id: nat): map<nat, Conn> {
    if id in conns then conns[id := conns[id].(cancelled := true)] else conns
  }

  function CloseAll(conns: map<nat, Conn>, ids: seq<nat>): map<nat, Conn> {
    map id | id in conns :: if id in ids then conns[id].(cancelled := true) else conns[id]
  }

  /** The session's token is the parent of every connection's. */
  function CancelConns(conns: map<nat, Conn>): map<nat, Conn> {
    map id | id in conns :: conns[id].(cancelled := true)
  }

  function IndexOf(ids: seq<nat>, id: nat): (k: nat)
    ensures k <= |ids| && (k < |ids| ==> ids[k] == id)
    ensures forall i | 0 <= i < k :: ids[i] != id
  {
    if ids == [] || ids[0] == id then 0 else 1 + IndexOf(ids[1..], id)
  }

  function Last(ids: seq<nat>): nat
    requires ids != []
  {
    ids[|ids| - 1]
  }

  function Init(ids: seq<nat>): seq<nat>
    requires ids != []
  {
    ids[..|ids| - 1]
  }

  function Without(ids: seq<nat>, k: nat): seq<nat>
    requires k < |ids|
  {
    ids[..k] + ids[k + 1..]
  }

  function CheckStep(w: World, c: nat): World
    requires c in w.holders && w.holders[c].Checking?
  {
    var id := w.holders[c].id;
    if Poisoned(w.conns, id) then w.(holders := w.holders[c := Searching], conns := CloseConn(w.conns, id))
    else w.(holders := w.holders[c := Leased(id)])
  }

  function Perform(w: World, step: Step): World
    requires Enabled(w, step)
  {
    match step
    case Acquire(c) => w.(available := w.available - 1, holders := w.holders[c := Searching])
    case TakeIdle(c) =>
      if w.idle == [] then w.(holders := w.holders[c := Opening])
      else w.(holders := w.holders[c := Checking(Last(w.idle))], idle := Init(w.idle))
    case Check(c) => CheckStep(w, c)
    case DrawId(c) => w.(holders := w.holders[c := Dialling(w.next)], next := w.next + 1)
    case DialOk(c) =>
      var id := w.holders[c].id;
      w.(holders := w.holders[c := Leased(id)], conns := w.conns[id := OPEN.(cancelled := w.cancelled)])
    case DialFail(c) => w.(holders := w.holders - {c}, available := w.available + 1)
    case DropLease(c) =>
      var id := w.holders[c].id;
      if Poisoned(w.conns, id) || w.cancelled then
        w.(holders := w.holders[c := Leaving], conns := CloseConn(w.conns, id))
      else w.(holders := w.holders[c := Returning(id)])
    case Push(c) => w.(holders := w.holders[c := Leaving], idle := w.idle + [w.holders[c].id])
    case Leave(c) => w.(holders := w.holders - {c}, available := w.available + 1)
    case Reap(id) =>
      var k := IndexOf(w.idle, id);
      if k == |w.idle| then w else w.(idle := Without(w.idle, k), conns := CloseConn(w.conns, id))
    case CancelAll => w.(cancelled := true, conns := CancelConns(w.conns))
    case CloseSemaphore => w.(open := false)
    case Drain => w.(idle := [], conns := CloseAll(w.conns, w.idle))
    case Use(id, move) => w.(conns := w.conns[id := Moved(w.conns[id], move)])
  }

  function Run(w: World, steps: seq<Step>): World
    decreases |steps|
  {
    if steps == [] then w
    else Run(if Enabled(w, steps[0]) then Perform(w, steps[0]) else w, steps[1..])
  }

  // ---- What is always true. ----

  /** Holders that have, or are getting, a connection of their own. */
  predicate IsBusy(h: Holder) {
    !h.Searching? && !h.Leaving?
  }

  predicate Owns(h: Holder) {
    IsBusy(h) && !h.Opening?
  }

  function Busy(holders: map<nat, Holder>): set<nat> {
    set c | c in holders && IsBusy(holders[c])
  }

  predicate Bounded(w: World) {
    && |w.holders| + w.available == w.capacity
    && |w.idle| + |Busy(w.holders)| <= w.capacity
  }

  /** An id is in one place: at one position of the idle stack, or with one holder. */
  predicate Exclusive(idle: seq<nat>, holders: map<nat, Holder>, next: nat) {
    && (forall i, j | 0 <= i < j < |idle| :: idle[i] != idle[j])
    && (forall i | 0 <= i < |idle| :: idle[i] < next)
    && (forall c | c in holders && Owns(holders[c]) :: holders[c].id < next && holders[c].id !in idle)
    && (forall c, d | c in holders && d in holders && c != d && Owns(holders[c]) && Owns(holders[d]) ::
          holders[c].id != holders[d].id)
  }

  predicate ConnsSound(conns: map<nat, Conn>, cancelled: bool) {
    && (forall id | id in conns :: Sane(conns[id]))
    && (cancelled ==> forall id | id in conns :: conns[id].cancelled)
  }

  predicate Placed(w: World) {
    Bounded(w) && Exclusive(w.idle, w.holders, w.next)
  }

  predicate Sound(w: World) {
    && Placed(w)
    && ConnsSound(w.conns, w.cancelled)
    && (!w.open ==> w.cancelled)
  }

  // ---- Counting. ----

  lemma PutHolder(holders: map<nat, Holder>, c: nat, h: Holder)
    ensures Busy(holders[c := h]) == (if IsBusy(h) then Busy(holders) + {c} else Busy(holders) - {c})
    ensures |holders[c := h]| == |holders| + (if c in holders then 0 else 1)
  {
    PutCount(holders, c, h);
    var after := holders[c := h];
    forall d ensures d in Busy(after) <==> (if d == c then IsBusy(h) else d in Busy(holders)) {
    }
  }

  lemma PutCount(holders: map<nat, Holder>, c: nat, h: Holder)
    ensures |holders[c := h]| == |holders| + (if c in holders then 0 else 1)
  {
    assert holders[c := h].Keys == holders.Keys + {c};
  }

  lemma DropHolder(holders: map<nat, Holder>, c: nat)
    requires c in holders && !IsBusy(holders[c])
    ensures Busy(holders - {c}) == Busy(holders)
    ensures |holders - {c}| == |holders| - 1
  {
    assert (holders - {c}).Keys == holders.Keys - {c};
  }

  lemma DropBusyHolder(holders: map<nat, Holder>, c: nat)
    requires c in holders && IsBusy(holders[c])
    ensures Busy(holders - {c}) == Busy(holders) - {c}
    ensures |holders - {c}| == |holders| - 1
  {
    assert (holders - {c}).Keys == holders.Keys - {c};
  }

  lemma BusyFits(holders: map<nat, Holder>)
    ensures |Busy(holders)| <= |holders|
    ensures forall c | c in holders && !IsBusy(holders[c]) :: |Busy(holders)| < |holders|
  {
    assert Busy(holders) <= holders.Keys;
    Subset(Busy(holders), holders.Keys);
    forall c | c in holders && !IsBusy(holders[c]) ensures |Busy(holders)| < |holders| {
      Subset(Busy(holders), holders.Keys - {c});
    }
  }

  lemma {:induction false} Subset(a: set<nat>, b: set<nat>)
    requires a <= b
    ensures |a| <= |b|
  {
    if a != {} {
      var x :| x in a;
      Subset(a - {x}, b - {x});
    }
  }

  // ---- Owning: one lemma for each way a holder or the stack changes. ----

  lemma ExclusivePut(idle: seq<nat>, holders: map<nat, Holder>, next: nat, c: nat, h: Holder)
    requires Exclusive(idle, holders, next)
    requires Owns(h) ==> h.id < next && h.id !in idle
    requires Owns(h) ==> forall d | d in holders && d != c && Owns(holders[d]) :: holders[d].id != h.id
    ensures Exclusive(idle, holders[c := h], next)
  {
  }

  lemma ExclusiveDrop(idle: seq<nat>, holders: map<nat, Holder>, next: nat, c: nat)
    requires Exclusive(idle, holders, next)
    ensures Exclusive(idle, holders - {c}, next)
  {
  }

  lemma ExclusivePop(idle: seq<nat>, holders: map<nat, Holder>, next: nat)
    requires Exclusive(idle, holders, next) && idle != []
    ensures Exclusive(Init(idle), holders, next)
    ensures Last(idle) < next && Last(idle) !in Init(idle)
    ensures forall d | d in holders && Owns(holders[d]) :: holders[d].id != Last(idle)
  {
  }

  lemma ExclusivePush(idle: seq<nat>, holders: map<nat, Holder>, next: nat, id: nat)
    requires Exclusive(idle, holders, next) && id < next && id !in idle
    requires forall d | d in holders && Owns(holders[d]) :: holders[d].id != id
    ensures Exclusive(idle + [id], holders, next)
  {
  }

  lemma ExclusiveWithout(idle: seq<nat>, holders: map<nat, Holder>, next: nat, k: nat)
    requires Exclusive(idle, holders, next) && k < |idle|
    ensures Exclusive(Without(idle, k), holders, next)
    ensures forall x :: x in Without(idle, k) <==> x in idle && x != idle[k]
  {
    forall x | x in idle && x != idle[k] ensures x in Without(idle, k) {
      var i :| 0 <= i < |idle| && idle[i] == x;
      assert Without(idle, k)[if i < k then i else i - 1] == x;
    }
  }

  // ---- Each step keeps the counts and the ownership. ----

  lemma AcquireKeeps(w: World, c: nat)
    requires Placed(w) && Enabled(w, Acquire(c))
    ensures Placed(Perform(w, Acquire(c)))
  {
    PutHolder(w.holders, c, Searching);
    ExclusivePut(w.idle, w.holders, w.next, c, Searching);
  }

  lemma TakeNoneKeeps(w: World, c: nat)
    requires Placed(w) && Enabled(w, TakeIdle(c)) && w.idle == []
    ensures Placed(Perform(w, TakeIdle(c)))
  {
    BusyFits(w.holders);
    PutHolder(w.holders, c, Opening);
    ExclusivePut(w.idle, w.holders, w.next, c, Opening);
  }

  lemma TakeSomeKeeps(w: World, c: nat)
    requires Placed(w) && Enabled(w, TakeIdle(c)) && w.idle != []
    ensures Placed(Perform(w, TakeIdle(c)))
  {
    var h := Checking(Last(w.idle));
    PutHolder(w.holders, c, h);
    ExclusivePop(w.idle, w.holders, w.next);
    ExclusivePut(Init(w.idle), w.holders, w.next, c, h);
  }

  /** A holder that keeps the connection it has, or lets go of it, disturbs nobody. */
  lemma ReholdKeeps(w: World, n: World, c: nat, h: Holder)
    requires Placed(w) && c in w.holders && IsBusy(w.holders[c])
    requires Owns(h) ==> Owns(w.holders[c]) && h.id == w.holders[c].id
    requires n.capacity == w.capacity && n.available == w.available && n.next == w.next
    requires n.idle == w.idle && n.holders == w.holders[c := h]
    ensures Placed(n)
  {
    PutHolder(w.holders, c, h);
    ExclusivePut(w.idle, w.holders, w.next, c, h);
  }

  lemma DrawIdKeeps(w: World, c: nat)
    requires Placed(w) && Enabled(w, DrawId(c))
    ensures Placed(Perform(w, DrawId(c)))
  {
    PutHolder(w.holders, c, Dialling(w.next));
    ExclusivePut(w.idle, w.holders, w.next + 1, c, Dialling(w.next));
  }

  lemma PushKeeps(w: World, c: nat)
    requires Placed(w) && Enabled(w, Push(c))
    ensures Placed(Perform(w, Push(c)))
  {
    PutHolder(w.holders, c, Leaving);
    ExclusivePut(w.idle, w.holders, w.next, c, Leaving);
    ExclusivePush(w.idle, w.holders[c := Leaving], w.next, w.holders[c].id);
  }

  lemma GoneKeeps(w: World, n: World, c: nat)
    requires Placed(w) && c in w.holders
    requires n.capacity == w.capacity && n.available == w.available + 1 && n.next == w.next
    requires n.idle == w.idle && n.holders == w.holders - {c}
    ensures Placed(n)
  {
    if IsBusy(w.holders[c]) {
      DropBusyHolder(w.holders, c);
    } else {
      DropHolder(w.holders, c);
    }
    ExclusiveDrop(w.idle, w.holders, w.next, c);
  }

  lemma CheckKeeps(w: World, c: nat)
    requires Placed(w) && Enabled(w, Check(c))
    ensures Placed(Perform(w, Check(c)))
  {
    var n := Perform(w, Check(c));
    ReholdKeeps(w, n, c, n.holders[c]);
  }

  lemma DialOkKeeps(w: World, c: nat)
    requires Placed(w) && Enabled(w, DialOk(c))
    ensures Placed(Perform(w, DialOk(c)))
  {
    var n := Perform(w, DialOk(c));
    ReholdKeeps(w, n, c, n.holders[c]);
  }

  lemma DropLeaseKeeps(w: World, c: nat)
    requires Placed(w) && Enabled(w, DropLease(c))
    ensures Placed(Perform(w, DropLease(c)))
  {
    var n := Perform(w, DropLease(c));
    ReholdKeeps(w, n, c, n.holders[c]);
  }

  lemma DialFailKeeps(w: World, c: nat)
    requires Placed(w) && Enabled(w, DialFail(c))
    ensures Placed(Perform(w, DialFail(c)))
  {
    var n := Perform(w, DialFail(c));
    GoneKeeps(w, n, c);
  }

  lemma LeaveKeeps(w: World, c: nat)
    requires Placed(w) && Enabled(w, Leave(c))
    ensures Placed(Perform(w, Leave(c)))
  {
    var n := Perform(w, Leave(c));
    GoneKeeps(w, n, c);
  }

  lemma ReapKeeps(w: World, id: nat)
    requires Placed(w)
    ensures Placed(Perform(w, Reap(id)))
    ensures forall x :: x in Perform(w, Reap(id)).idle <==> x in w.idle && x != id
  {
    var k := IndexOf(w.idle, id);
    if k < |w.idle| {
      ExclusiveWithout(w.idle, w.holders, w.next, k);
    }
  }

  lemma StepPlaces(w: World, step: Step)
    requires Placed(w) && Enabled(w, step)
    ensures Placed(Perform(w, step))
  {
    match step
    case Acquire(c) => AcquireKeeps(w, c);
    case TakeIdle(c) => if w.idle == [] { TakeNoneKeeps(w, c); } else { TakeSomeKeeps(w, c); }
    case Check(c) => CheckKeeps(w, c);
    case DrawId(c) => DrawIdKeeps(w, c);
    case DialOk(c) => DialOkKeeps(w, c);
    case DialFail(c) => DialFailKeeps(w, c);
    case DropLease(c) => DropLeaseKeeps(w, c);
    case Push(c) => PushKeeps(w, c);
    case Leave(c) => LeaveKeeps(w, c);
    case Reap(id) => ReapKeeps(w, id);
    case _ =>
  }

  lemma SetConn(conns: map<nat, Conn>, cancelled: bool, id: nat, conn: Conn)
    requires ConnsSound(conns, cancelled) && Sane(conn) && (cancelled ==> conn.cancelled)
    ensures ConnsSound(conns[id := conn], cancelled)
  {
  }

  lemma CloseConnSound(conns: map<nat, Conn>, cancelled: bool, id: nat)
    requires ConnsSound(conns, cancelled)
    ensures ConnsSound(CloseConn(conns, id), cancelled)
  {
    if id in conns {
      SetConn(conns, cancelled, id, conns[id].(cancelled := true));
    }
  }

  lemma CloseAllSound(conns: map<nat, Conn>, cancelled: bool, ids: seq<nat>)
    requires ConnsSound(conns, cancelled)
    ensures ConnsSound(CloseAll(conns, ids), cancelled)
  {
    forall id | id in conns ensures Sane(CloseAll(conns, ids)[id]) {
      CancelledSane(conns[id]);
    }
  }

  lemma CancelConnsSound(conns: map<nat, Conn>, cancelled: bool)
    requires ConnsSound(conns, cancelled)
    ensures ConnsSound(CancelConns(conns), true)
  {
    forall id | id in conns ensures Sane(CancelConns(conns)[id]) {
      CancelledSane(conns[id]);
    }
  }

  lemma CancelledSane(conn: Conn)
    requires Sane(conn)
    ensures Sane(conn.(cancelled := true))
  {
  }

  lemma StepConns(w: World, step: Step)
    requires Sound(w) && Enabled(w, step)
    ensures ConnsSound(Perform(w, step).conns, Perform(w, step).cancelled)
  {
    match step
    case Check(c) => CloseConnSound(w.conns, w.cancelled, w.holders[c].id);
    case DialOk(c) => SetConn(w.conns, w.cancelled, w.holders[c].id, OPEN.(cancelled := w.cancelled));
    case DropLease(c) => CloseConnSound(w.conns, w.cancelled, w.holders[c].id);
    case Reap(id) => CloseConnSound(w.conns, w.cancelled, id);
    case CancelAll => CancelConnsSound(w.conns, w.cancelled);
    case Drain => CloseAllSound(w.conns, w.cancelled, w.idle);
    case Use(id, move) =>
      MoveKeeps(w.conns[id], move);
      SetConn(w.conns, w.cancelled, id, Moved(w.conns[id], move));
    case _ =>
  }

  lemma {:induction false} RunKeeps(w: World, steps: seq<Step>)
    requires Sound(w)
    ensures Sound(Run(w, steps)) && Run(w, steps).capacity == w.capacity
    decreases |steps|
  {
    if steps != [] {
      if Enabled(w, steps[0]) {
        StepPlaces(w, steps[0]);
        StepConns(w, steps[0]);
        RunKeeps(Perform(w, steps[0]), steps[1..]);
      } else {
        RunKeeps(w, steps[1..]);
      }
    }
  }

  // ---- The main results, over every run. ----

  /** Idle, leased and dialling together never exceed the configured size, and no connection is in two hands. */
  lemma PoolIsBounded(maxSize: nat, steps: seq<Step>)
    ensures var w := Run(Start(maxSize), steps);
            && |w.idle| + |Busy(w.holders)| <= (if maxSize == 0 then 1 else maxSize)
            && |w.holders| + w.available == (if maxSize == 0 then 1 else maxSize)
            && Exclusive(w.idle, w.holders, w.next)
  {
    assert Busy(map[]) == {};
    RunKeeps(Start(maxSize), steps);
  }

  /** Whatever the pool does with it, no connection runs a command after a fatal result. */
  lemma PoolRunsNothingAfterFatal(maxSize: nat, steps: seq<Step>, id: nat, k: nat)
    requires var w := Run(Start(maxSize), steps);
             id in w.conns && k < |w.conns[id].executed| && w.conns[id].executed[k].1 == Fatal
    ensures k == |Run(Start(maxSize), steps).conns[id].executed| - 1
  {
    assert Busy(map[]) == {};
    RunKeeps(Start(maxSize), steps);
  }

  predicate SparesHeld(w: World, n: World, id: nat) {
    && n.holders == w.holders && n.available == w.available
    && (id !in w.idle ==> n == w)
    && (forall x | x in n.idle :: x in w.idle && x != id)
    && (forall x | x in w.idle && x != id :: x in n.idle)
    && (forall c | c in w.holders && Owns(w.holders[c]) :: SameConn(w.conns, n.conns, w.holders[c].id))
  }

  predicate SameConn(before: map<nat, Conn>, after: map<nat, Conn>, id: nat) {
    (id in after <==> id in before) && (id in before ==> after[id] == before[id])
  }

  lemma ReapSpares(w: World, id: nat)
    requires Placed(w)
    ensures SparesHeld(w, Perform(w, Reap(id)), id)
  {
    ReapKeeps(w, id);
    var n := Perform(w, Reap(id));
    forall c | c in w.holders && Owns(w.holders[c]) ensures SameConn(w.conns, n.conns, w.holders[c].id) {
      assert id in w.idle ==> w.holders[c].id != id;
    }
  }

  /** The reaper touches only what is idle at that moment: with any holder, the connection is left alone. */
  lemma ReapSparesHeld(maxSize: nat, steps: seq<Step>, id: nat)
    ensures SparesHeld(Run(Start(maxSize), steps), Perform(Run(Start(maxSize), steps), Reap(id)), id)
  {
    assert Busy(map[]) == {};
    RunKeeps(Start(maxSize), steps);
    ReapSpares(Run(Start(maxSize), steps), id);
  }

  /** After a shutdown nothing is handed a permit again, and every connection there is has been told to stop. */
  lemma ShutdownStopsAll(maxSize: nat, steps: seq<Step>)
    requires !Run(Start(maxSize), steps).open
    ensures var w := Run(Start(maxSize), steps);
            && (forall id | id in w.conns :: w.conns[id].cancelled && !CanMove(w.conns[id], Receive))
            && (forall c :: !Enabled(w, Acquire(c)))
  {
    assert Busy(map[]) == {};
    RunKeeps(Start(maxSize), steps);
  }

  // ---- The ordinary course. ----

  lemma RunStep(w: World, steps: seq<Step>, rest: seq<Step>)
    requires steps != [] && rest == steps[1..] && Enabled(w, steps[0])
    ensures Run(w, steps) == Run(Perform(w, steps[0]), rest)
    ensures rest == [] ==> Run(w, steps) == Perform(w, steps[0])
  {
  }

  /** With a usable connection on top of the stack a caller is given that one. */
  lemma LeaseFromStack(w: World, c: nat)
    requires w.open && w.available > 0 && c !in w.holders && w.idle != [] && !Poisoned(w.conns, Last(w.idle))
    ensures Run(w, [Acquire(c), TakeIdle(c), Check(c)])
         == w.(available := w.available - 1, holders := w.holders[c := Leased(Last(w.idle))], idle := Init(w.idle))
  {
    hide Run, Poisoned, CanMove, Moved, CloseConn;
    var asked := Perform(w, Acquire(c));
    RunStep(w, [Acquire(c), TakeIdle(c), Check(c)], [TakeIdle(c), Check(c)]);
    RunStep(asked, [TakeIdle(c), Check(c)], [Check(c)]);
    RunStep(Perform(asked, TakeIdle(c)), [Check(c)], []);
    assert w.holders[c := Searching][c := Checking(Last(w.idle))][c := Leased(Last(w.idle))]
        == w.holders[c := Leased(Last(w.idle))];
  }

  /** A usable connection given back is on top of the stack again, and its permit is free. */
  lemma GivenBack(w: World, c: nat)
    requires c in w.holders && w.holders[c].Leased? && !w.cancelled && !Poisoned(w.conns, w.holders[c].id)
    ensures Run(w, [DropLease(c), Push(c), Leave(c)])
         == w.(available := w.available + 1, holders := w.holders - {c}, idle := w.idle + [w.holders[c].id])
  {
    hide Run, Poisoned, CanMove, Moved, CloseConn;
    var dropped := Perform(w, DropLease(c));
    RunStep(w, [DropLease(c), Push(c), Leave(c)], [Push(c), Leave(c)]);
    RunStep(dropped, [Push(c), Leave(c)], [Leave(c)]);
    RunStep(Perform(dropped, Push(c)), [Leave(c)], []);
    assert w.holders[c := Returning(w.holders[c].id)][c := Leaving] - {c} == w.holders - {c};
  }

  /** A new pool, whatever its size, hands out a connection that is open for commands. */
  lemma FirstLease(maxSize: nat)
    ensures var w := Run(Start(maxSize), [Acquire(0), TakeIdle(0), DrawId(0)] + [DialOk(0)]);
            && w.holders == map[0 := Leased(0)] && 0 in w.conns && w.idle == [] && w.open
            && w.conns[0].phase.Receiving? && !w.conns[0].cancelled && !w.conns[0].poisoned && w.conns[0].inbox == []
  {
    hide Run;
    LeaseByDialling(Start(maxSize), 0);
  }

  /** A poisoned connection on top is closed and passed over; the caller keeps its permit and looks again. */
  lemma PoisonedPassedOver(w: World, c: nat)
    requires c in w.holders && w.holders[c].Searching? && w.idle != [] && Poisoned(w.conns, Last(w.idle))
    ensures var id := Last(w.idle);
            Run(w, [TakeIdle(c), Check(c)])
            == w.(idle := Init(w.idle), conns := w.conns[id := w.conns[id].(cancelled := true)])
  {
    RunStep(w, [TakeIdle(c), Check(c)], [Check(c)]);
    RunStep(Perform(w, TakeIdle(c)), [Check(c)], []);
    assert w.holders[c := Checking(Last(w.idle))][c := Searching] == w.holders;
  }

  /** With nothing on the stack a caller comes to dial, under a new id. */
  lemma ComesToDial(w: World, c: nat, rest: seq<Step>)
    requires w.open && w.available > 0 && c !in w.holders && w.idle == []
    ensures Run(w, [Acquire(c), TakeIdle(c), DrawId(c)] + rest)
         == Run(w.(available := w.available - 1, holders := w.holders[c := Dialling(w.next)], next := w.next + 1), rest)
  {
    hide Run, CanMove, Moved;
    var asked := Perform(w, Acquire(c));
    var opening := Perform(asked, TakeIdle(c));
    RunStep(w, [Acquire(c), TakeIdle(c), DrawId(c)] + rest, [TakeIdle(c), DrawId(c)] + rest);
    RunStep(asked, [TakeIdle(c), DrawId(c)] + rest, [DrawId(c)] + rest);
    RunStep(opening, [DrawId(c)] + rest, rest);
    assert w.holders[c := Searching][c := Opening][c := Dialling(w.next)] == w.holders[c := Dialling(w.next)];
  }

  /** It then leases a fresh connection. */
  lemma LeaseByDialling(w: World, c: nat)
    requires w.open && w.available > 0 && c !in w.holders && w.idle == []
    ensures Run(w, [Acquire(c), TakeIdle(c), DrawId(c)] + [DialOk(c)])
         == w.(available := w.available - 1, holders := w.holders[c := Leased(w.next)], next := w.next + 1,
               conns := w.conns[w.next := OPEN.(cancelled := w.cancelled)])
  {
    hide Run, CanMove, Moved, Poisoned, CloseConn, CheckStep, CloseAll, CancelConns;
    ComesToDial(w, c, [DialOk(c)]);
    DialSucceeds(w.(available := w.available - 1, holders := w.holders[c := Dialling(w.next)], next := w.next + 1), c);
    assert w.holders[c := Dialling(w.next)][c := Leased(w.next)] == w.holders[c := Leased(w.next)];
  }

  lemma DialSucceeds(w: World, c: nat)
    requires c in w.holders && w.holders[c].Dialling?
    ensures var id := w.holders[c].id;
            Run(w, [DialOk(c)])
            == w.(holders := w.holders[c := Leased(id)], conns := w.conns[id := OPEN.(cancelled := w.cancelled)])
  {
    hide Run;
    RunStep(w, [DialOk(c)], []);
  }

  /** A dial that fails gives the permit back and leaves only its number used. */
  lemma DialThatFails(w: World, c: nat)
    requires w.open && w.available > 0 && c !in w.holders && w.idle == []
    ensures Run(w, [Acquire(c), TakeIdle(c), DrawId(c)] + [DialFail(c)]) == w.(next := w.next + 1)
  {
    hide Run, CanMove, Moved, Poisoned, CloseConn, CheckStep, CloseAll, CancelConns;
    var dialling := w.(available := w.available - 1, holders := w.holders[c := Dialling(w.next)], next := w.next + 1);
    ComesToDial(w, c, [DialFail(c)]);
    RunStep(dialling, [DialFail(c)], []);
    assert dialling.holders - {c} == w.holders;
  }

  /** A lease that ends poisoned, or after the session was cancelled, closes its connection and frees the permit. */
  lemma LeaseThatCloses(w: World, c: nat)
    requires c in w.holders && w.holders[c].Leased? && (w.cancelled || Poisoned(w.conns, w.holders[c].id))
    ensures var id := w.holders[c].id;
            var n := Run(w, [DropLease(c), Leave(c)]);
            && n.holders == w.holders - {c} && n.available == w.available + 1 && n.idle == w.idle
            && (id in w.conns ==> n.conns == w.conns[id := w.conns[id].(cancelled := true)])
            && (id !in w.conns ==> n.conns == w.conns)
  {
    RunStep(w, [DropLease(c), Leave(c)], [Leave(c)]);
    RunStep(Perform(w, DropLease(c)), [Leave(c)], []);
    assert w.holders[c := Leaving] - {c} == w.holders - {c};
  }

  /** A shutdown stops every connection, closes the semaphore and empties the stack, whatever is out. */
  lemma ShutdownCourse(w: World)
    ensures var n := Run(w, [CancelAll, CloseSemaphore, Drain]);
            && !n.open && n.cancelled && n.idle == [] && n.holders == w.holders && n.available == w.available
            && n.conns.Keys == w.conns.Keys && forall id | id in n.conns :: n.conns[id] == w.conns[id].(cancelled := true)
  {
    RunStep(w, [CancelAll, CloseSemaphore, Drain], [CloseSemaphore, Drain]);
    RunStep(Perform(w, CancelAll), [CloseSemaphore, Drain], [Drain]);
    RunStep(Perform(Perform(w, CancelAll), CloseSemaphore), [Drain], []);
  }
}

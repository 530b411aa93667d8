/**
  The byte budget every result store shares: a counter raised by compare-and-swap and lowered by
  fetch-and-subtract, one lease per store, and the wake-up of stores that wait for room. Each
  store's progress is cut at every access to the shared counter or the shared notifier.

  The limit is below the largest machine word, so `saturating_add` is addition.
 */
module Budget {

  /** Where a store is between two accesses to shared memory. */
  datatype Pc =
    | Resting
    | Registered(bytes: nat)
    | Trying(bytes: nat, seen: int)
    | Credited(bytes: nat)
    | Refused(bytes: nat)
    | Waiting(bytes: nat)
    | Debited(bytes: nat)
    | Settling(bytes: nat, less: int)
    | Notifying
    | Gone

  datatype Lease = Lease(held: nat, pc: Pc, notified: bool, leaving: bool)

  datatype World = World(limit: nat, used: int, leases: seq<Lease>)

  datatype Step =
    | Register(i: nat, bytes: nat)
    | Load(i: nat)
    | Swap(i: nat, spurious: bool)
    | Count(i: nat)
    | GiveBack(i: nat, bytes: nat)
    | Measure(i: nat)
    | Subtract(i: nat)
    | Notify(i: nat)
    | Park(i: nat)
    | Wake(i: nat)
    | Abandon(i: nat)
    | Drop(i: nat)

  function Min(a: int, b: int): int {
    if a <= b then a else b
  }

  predicate Enabled(w: World, step: Step) {
    && step.i < |w.leases|
    && var l := w.leases[step.i];
       match step
       case Register(_, _) => l.pc.Resting?
       case Load(_) => l.pc.Registered?
       case Swap(_, _) => l.pc.Trying?
       case Count(_) => l.pc.Credited?
       case GiveBack(_, bytes) => (l.pc.Resting? || l.pc.Refused?) && Min(bytes, l.held) > 0
       case Measure(_) => l.pc.Debited?
       case Subtract(_) => l.pc.Settling?
       case Notify(_) => l.pc.Notifying?
       case Park(_) => l.pc.Refused?
       case Wake(_) => l.pc.Waiting? && l.notified
       case Abandon(_) => l.pc.Waiting?
       case Drop(_) => l.pc.Resting?
  }

  /** What a look at the counter leads to: give up, or try to swap from the value seen. */
  function Look(w: World, bytes: nat): Pc {
    if w.used + bytes > w.limit then Refused(bytes) else Trying(bytes, w.used)
  }

  function Put(w: World, i: nat, l: Lease): World
    requires i < |w.leases|
  {
    w.(leases := w.leases[i := l])
  }

  function At(w: World, i: nat, pc: Pc): World
    requires i < |w.leases|
  {
    Put(w, i, w.leases[i].(pc := pc))
  }

  predicate Listening(pc: Pc) {
    pc.Registered? || pc.Trying? || pc.Refused? || pc.Waiting?
  }

  function NotifyAll(leases: seq<Lease>): (told: seq<Lease>)
    ensures |told| == |leases|
    ensures forall k | 0 <= k < |leases| ::
              told[k] == if Listening(leases[k].pc) then leases[k].(notified := true) else leases[k]
  {
    seq(|leases|, k requires 0 <= k < |leases| =>
      if Listening(leases[k].pc) then leases[k].(notified := true) else leases[k])
  }

  function Perform(w: World, step: Step): World
    requires Enabled(w, step)
  {
    var i := step.i;
    var l := w.leases[i];
    match step
    case Register(_, bytes) => Put(w, i, l.(pc := Registered(bytes), notified := false))
    case Load(_) => At(w, i, Look(w, l.pc.bytes))
    case Swap(_, spurious) =>
      if w.used == l.pc.seen && !spurious then
        At(w.(used := w.used + l.pc.bytes), i, Credited(l.pc.bytes))
      else At(w, i, Look(w, l.pc.bytes))
    case Count(_) => Put(w, i, l.(held := l.held + l.pc.bytes, pc := Resting))
    case GiveBack(_, bytes) =>
      var b := Min(bytes, l.held);
      Put(w, i, l.(held := l.held - b, pc := Debited(b)))
    case Measure(_) => At(w, i, Settling(l.pc.bytes, Min(l.pc.bytes, w.used)))
    case Subtract(_) => At(w.(used := w.used - l.pc.less), i, Notifying)
    case Notify(_) =>
      At(w.(leases := NotifyAll(w.leases)), i, if l.leaving then Gone else Resting)
    case Park(_) => At(w, i, Waiting(l.pc.bytes))
    case Wake(_) => Put(w, i, l.(pc := Registered(l.pc.bytes), notified := false))
    case Abandon(_) => At(w, i, Resting)
    case Drop(_) =>
      if l.held > 0 then Put(w, i, l.(held := 0, leaving := true, pc := Debited(l.held)))
      else Put(w, i, l.(leaving := true, pc := Gone))
  }

  function Run(w: World, steps: seq<Step>): World
    decreases |steps|
  {
    if steps == [] then w
    else Run(if Enabled(w, steps[0]) then Perform(w, steps[0]) else w, steps[1..])
  }

  function Start(limit: nat, stores: nat): World {
    World(limit, 0, seq(stores, _ => Lease(0, Resting, false, false)))
  }

  // ---- Conservation. ----

  /** What a lease accounts for: what it holds, and what is on its way between it and the shared counter. */
  function Weight(l: Lease): nat {
    l.held + if l.pc.Credited? || l.pc.Debited? || l.pc.Settling? then l.pc.bytes else 0
  }

  function Total(leases: seq<Lease>): nat {
    if leases == [] then 0 else Weight(leases[0]) + Total(leases[1..])
  }

  lemma {:induction false} TotalPut(leases: seq<Lease>, i: nat, l: Lease)
    requires i < |leases|
    ensures Total(leases[i := l]) == Total(leases) - Weight(leases[i]) + Weight(l)
    ensures Weight(leases[i]) <= Total(leases)
  {
    if i == 0 {
      assert leases[0 := l][1..] == leases[1..];
    } else {
      TotalPut(leases[1..], i - 1, l);
      assert leases[i := l][1..] == leases[1..][i - 1 := l];
    }
  }

  lemma {:induction false} TotalSame(a: seq<Lease>, b: seq<Lease>)
    requires |a| == |b| && forall k | 0 <= k < |a| :: Weight(a[k]) == Weight(b[k])
    ensures Total(a) == Total(b)
  {
    if a != [] {
      assert forall k | 0 <= k < |a[1..]| :: a[1..][k] == a[k + 1] && b[1..][k] == b[k + 1];
      TotalSame(a[1..], b[1..]);
    }
  }

  lemma {:induction false} TotalZero(leases: seq<Lease>)
    requires forall k | 0 <= k < |leases| :: Weight(leases[k]) == 0
    ensures Total(leases) == 0
  {
    if leases != [] {
      assert forall k | 0 <= k < |leases[1..]| :: leases[1..][k] == leases[k + 1];
      TotalZero(leases[1..]);
    }
  }

  // ---- What is always true. ----

  predicate LeaseSane(l: Lease, limit: nat) {
    && (l.pc.Trying? ==> l.pc.seen + l.pc.bytes <= limit)
    && (l.pc.Settling? ==> l.pc.less == l.pc.bytes)
    && (l.pc.Gone? ==> l.held == 0)
    && (l.leaving ==> l.held == 0 && (l.pc.Debited? || l.pc.Settling? || l.pc.Notifying? || l.pc.Gone?))
  }

  /** A store that found no room, was told nothing since, and would fit now. */
  predicate Overlooked(w: World, i: nat)
    requires i < |w.leases|
  {
    var l := w.leases[i];
    (l.pc.Refused? || l.pc.Waiting?) && !l.notified && w.used + l.pc.bytes <= w.limit
  }

  predicate SomeoneNotifies(leases: seq<Lease>) {
    exists j :: 0 <= j < |leases| && leases[j].pc.Notifying?
  }

  predicate NoLostWakeup(w: World) {
    (exists i :: 0 <= i < |w.leases| && Overlooked(w, i)) ==> SomeoneNotifies(w.leases)
  }

  predicate Sound(w: World) {
    && w.used == Total(w.leases) <= w.limit
    && (forall k | 0 <= k < |w.leases| :: LeaseSane(w.leases[k], w.limit))
    && NoLostWakeup(w)
  }

  lemma PutConserves(w: World, i: nat, l: Lease, used: int)
    requires w.used == Total(w.leases) && i < |w.leases|
    requires used == w.used - Weight(w.leases[i]) + Weight(l)
    ensures used == Total(w.leases[i := l])
  {
    TotalPut(w.leases, i, l);
  }

  /** As long as room does not grow and nobody stops notifying, nobody new can be overlooked but `i`. */
  lemma PutKeepsWatch(w: World, i: nat, l: Lease, used: int)
    requires NoLostWakeup(w) && i < |w.leases| && used >= w.used
    requires !w.leases[i].pc.Notifying?
    requires var n := World(w.limit, used, w.leases[i := l]);
             Overlooked(n, i) ==> SomeoneNotifies(w.leases) || Overlooked(w, i)
    ensures NoLostWakeup(World(w.limit, used, w.leases[i := l]))
  {
    var n := World(w.limit, used, w.leases[i := l]);
    if k :| 0 <= k < |n.leases| && Overlooked(n, k) {
      assert SomeoneNotifies(w.leases) by {
        if k != i {
          assert Overlooked(w, k);
        }
      }
      var j :| 0 <= j < |w.leases| && w.leases[j].pc.Notifying?;
      assert n.leases[j].pc.Notifying?;
    }
  }

  lemma LookKeeps(w: World, i: nat, bytes: nat)
    requires Sound(w) && i < |w.leases| && Weight(w.leases[i]) == w.leases[i].held
    requires !w.leases[i].pc.Notifying? && !w.leases[i].leaving
    ensures Sound(At(w, i, Look(w, bytes)))
  {
    var l := w.leases[i].(pc := Look(w, bytes));
    PutConserves(w, i, l, w.used);
    PutKeepsWatch(w, i, l, w.used);
  }

  /** A step that only moves a store along, without touching the counter. */
  lemma MoveKeeps(w: World, i: nat, l: Lease)
    requires Sound(w) && i < |w.leases| && !w.leases[i].pc.Notifying?
    requires LeaseSane(l, w.limit) && Weight(l) == Weight(w.leases[i])
    requires (l.pc.Refused? || l.pc.Waiting?) ==>
               w.leases[i].pc.Refused? && l.pc.bytes == w.leases[i].pc.bytes && l.notified == w.leases[i].notified
    ensures Sound(Put(w, i, l))
  {
    PutConserves(w, i, l, w.used);
    PutKeepsWatch(w, i, l, w.used);
  }

  lemma SwapKeeps(w: World, i: nat)
    requires Sound(w) && i < |w.leases| && w.leases[i].pc.Trying? && !w.leases[i].leaving
    requires w.used + w.leases[i].pc.bytes <= w.limit
    ensures Sound(At(w.(used := w.used + w.leases[i].pc.bytes), i, Credited(w.leases[i].pc.bytes)))
  {
    var l := w.leases[i].(pc := Credited(w.leases[i].pc.bytes));
    PutConserves(w, i, l, w.used + l.pc.bytes);
    PutKeepsWatch(w, i, l, w.used + l.pc.bytes);
  }

  /** The clamp never bites: what is being given back is part of what is used. */
  lemma MeasureIsWhole(w: World, i: nat)
    requires Sound(w) && i < |w.leases| && w.leases[i].pc.Debited?
    ensures Min(w.leases[i].pc.bytes, w.used) == w.leases[i].pc.bytes
  {
    TotalPut(w.leases, i, w.leases[i]);
  }

  lemma SubtractKeeps(w: World, i: nat)
    requires Sound(w) && i < |w.leases| && w.leases[i].pc.Settling?
    ensures Sound(At(w.(used := w.used - w.leases[i].pc.less), i, Notifying))
  {
    var l := w.leases[i].(pc := Notifying);
    PutConserves(w, i, l, w.used - w.leases[i].pc.less);
    var n := At(w.(used := w.used - w.leases[i].pc.less), i, Notifying);
    assert n.leases[i].pc.Notifying?;
    assert SomeoneNotifies(n.leases);
  }

  lemma NotifyKeeps(w: World, i: nat)
    requires Sound(w) && i < |w.leases| && w.leases[i].pc.Notifying?
    ensures Sound(Perform(w, Notify(i)))
  {
    var n := Perform(w, Notify(i));
    TotalSame(w.leases, n.leases);
    forall k | 0 <= k < |n.leases| ensures !Overlooked(n, k) && LeaseSane(n.leases[k], n.limit) {
      assert LeaseSane(w.leases[k], w.limit);
    }
  }

  lemma StepKeeps(w: World, step: Step)
    requires Sound(w) && Enabled(w, step)
    ensures Sound(Perform(w, step))
  {
    hide NoLostWakeup, Total, Look, NotifyAll;
    var i := step.i;
    var l := w.leases[i];
    assert LeaseSane(l, w.limit);
    hide Sound;
    match step
    case Register(_, bytes) => MoveKeeps(w, i, l.(pc := Registered(bytes), notified := false));
    case Load(_) => LookKeeps(w, i, l.pc.bytes);
    case Swap(_, spurious) =>
      if w.used == l.pc.seen && !spurious { SwapKeeps(w, i); } else { LookKeeps(w, i, l.pc.bytes); }
    case Count(_) => MoveKeeps(w, i, l.(held := l.held + l.pc.bytes, pc := Resting));
    case GiveBack(_, bytes) =>
      var b := Min(bytes, l.held);
      MoveKeeps(w, i, l.(held := l.held - b, pc := Debited(b)));
    case Measure(_) =>
      MeasureIsWhole(w, i);
      MoveKeeps(w, i, l.(pc := Settling(l.pc.bytes, l.pc.bytes)));
    case Subtract(_) => SubtractKeeps(w, i);
    case Notify(_) => NotifyKeeps(w, i);
    case Park(_) => MoveKeeps(w, i, l.(pc := Waiting(l.pc.bytes)));
    case Wake(_) => MoveKeeps(w, i, l.(pc := Registered(l.pc.bytes), notified := false));
    case Abandon(_) => MoveKeeps(w, i, l.(pc := Resting));
    case Drop(_) =>
      MoveKeeps(w, i, if l.held > 0 then l.(held := 0, leaving := true, pc := Debited(l.held))
                      else l.(leaving := true, pc := Gone));
  }

  lemma {:induction false} RunKeeps(w: World, steps: seq<Step>)
    requires Sound(w)
    ensures Sound(Run(w, steps))
    ensures Run(w, steps).limit == w.limit && |Run(w, steps).leases| == |w.leases|
    decreases |steps|
  {
    if steps != [] {
      if Enabled(w, steps[0]) {
        StepKeeps(w, steps[0]);
        RunKeeps(Perform(w, steps[0]), steps[1..]);
      } else {
        RunKeeps(w, steps[1..]);
      }
    }
  }

  lemma StartSound(limit: nat, stores: nat)
    ensures Sound(Start(limit, stores))
  {
    TotalZero(Start(limit, stores).leases);
  }

  // ---- The main results, over every run of any number of stores. ----

  /** What is used is what the leases hold plus what is in flight, and never more than the limit. */
  lemma BudgetConserved(limit: nat, stores: nat, steps: seq<Step>)
    ensures var w := Run(Start(limit, stores), steps);
            && w.used == Total(w.leases) && 0 <= w.used <= limit
            && (forall i | 0 <= i < |w.leases| && w.leases[i].pc.Settling? ::
                  w.leases[i].pc.less == w.leases[i].pc.bytes <= w.used)
  {
    StartSound(limit, stores);
    RunKeeps(Start(limit, stores), steps);
    var w := Run(Start(limit, stores), steps);
    forall i | 0 <= i < |w.leases| && w.leases[i].pc.Settling?
      ensures w.leases[i].pc.less == w.leases[i].pc.bytes <= w.used
    {
      assert LeaseSane(w.leases[i], w.limit);
      TotalPut(w.leases, i, w.leases[i]);
    }
  }

  /** Once every lease is gone, every byte has come back. */
  lemma BudgetComesBack(limit: nat, stores: nat, steps: seq<Step>)
    requires var w := Run(Start(limit, stores), steps);
             forall i | 0 <= i < |w.leases| :: w.leases[i].pc.Gone?
    ensures Run(Start(limit, stores), steps).used == 0
  {
    StartSound(limit, stores);
    RunKeeps(Start(limit, stores), steps);
    var w := Run(Start(limit, stores), steps);
    forall k | 0 <= k < |w.leases| ensures Weight(w.leases[k]) == 0 {
      assert LeaseSane(w.leases[k], w.limit);
    }
    TotalZero(w.leases);
  }

  /** A store asleep although its chunk would fit has been told, or somebody is just about to tell it. */
  lemma NoWakeupIsLost(limit: nat, stores: nat, steps: seq<Step>, i: nat)
    requires i < stores
    requires var w := Run(Start(limit, stores), steps);
             i < |w.leases| && w.leases[i].pc.Waiting? && w.used + w.leases[i].pc.bytes <= limit
    ensures var w := Run(Start(limit, stores), steps);
            w.leases[i].notified || SomeoneNotifies(w.leases)
  {
    StartSound(limit, stores);
    RunKeeps(Start(limit, stores), steps);
    var w := Run(Start(limit, stores), steps);
    if !w.leases[i].notified {
      assert Overlooked(w, i);
    }
  }

  // ---- The ordinary course. ----

  lemma RunStep(w: World, steps: seq<Step>, rest: seq<Step>)
    requires steps != [] && rest == steps[1..] && Enabled(w, steps[0])
    ensures Run(w, steps) == Run(Perform(w, steps[0]), rest)
    ensures rest == [] ==> Run(w, steps) == Perform(w, steps[0])
  {
  }

  /** With room and nobody in between, a store that asks gets its bytes, and the counter shows them. */
  lemma ReservesAlone(w: World, i: nat, bytes: nat)
    requires i < |w.leases| && w.leases[i].pc.Resting? && w.used + bytes <= w.limit
    ensures Run(w, [Register(i, bytes), Load(i), Swap(i, false), Count(i)])
         == World(w.limit, w.used + bytes,
                  w.leases[i := w.leases[i].(held := w.leases[i].held + bytes, notified := false)])
  {
    hide Run, NotifyAll;
    var asked := Perform(w, Register(i, bytes));
    var seen := Perform(asked, Load(i));
    var swapped := Perform(seen, Swap(i, false));
    RunStep(w, [Register(i, bytes), Load(i), Swap(i, false), Count(i)], [Load(i), Swap(i, false), Count(i)]);
    RunStep(asked, [Load(i), Swap(i, false), Count(i)], [Swap(i, false), Count(i)]);
    RunStep(seen, [Swap(i, false), Count(i)], [Count(i)]);
    RunStep(swapped, [Count(i)], []);
  }

  /** Without room a store that asks goes to sleep and stays asleep until it is told. */
  lemma WaitsForRoom(w: World, i: nat, bytes: nat)
    requires i < |w.leases| && w.leases[i].pc.Resting? && w.used + bytes > w.limit
    ensures var asleep := w.(leases := w.leases[i := w.leases[i].(pc := Waiting(bytes), notified := false)]);
            Run(w, [Register(i, bytes), Load(i), Park(i)]) == asleep && !Enabled(asleep, Wake(i))
  {
    hide Run, NotifyAll;
    var l := w.leases[i].(notified := false);
    var asked := Put(w, i, l.(pc := Registered(bytes)));
    var refused := Put(w, i, l.(pc := Refused(bytes)));
    RunStep(w, [Register(i, bytes), Load(i), Park(i)], [Load(i), Park(i)]);
    RunStep(asked, [Load(i), Park(i)], [Park(i)]);
    assert asked.leases[i := l.(pc := Refused(bytes))] == refused.leases;
    RunStep(refused, [Park(i)], []);
    assert refused.leases[i := l.(pc := Waiting(bytes))] == w.leases[i := l.(pc := Waiting(bytes))];
  }

  /** It may give up, and then nothing has changed. */
  lemma GivesUp(w: World, i: nat)
    requires i < |w.leases| && w.leases[i].pc.Waiting?
    ensures Run(w, [Abandon(i)]) == w.(leases := w.leases[i := w.leases[i].(pc := Resting)])
  {
    hide Run, NotifyAll;
    RunStep(w, [Abandon(i)], []);
  }

  /** Once it was told it looks again. */
  lemma LooksAgain(w: World, i: nat)
    requires i < |w.leases| && w.leases[i].pc.Waiting? && w.leases[i].notified
    ensures Run(w, [Wake(i)])
         == w.(leases := w.leases[i := w.leases[i].(pc := Registered(w.leases[i].pc.bytes), notified := false)])
  {
    hide Run, NotifyAll;
    RunStep(w, [Wake(i)], []);
  }

  /** A lease gives back what it was asked to, up to what it holds, and every store that listens is told. */
  lemma GivesBackAlone(w: World, i: nat, bytes: nat)
    requires i < |w.leases| && w.leases[i].pc.Resting? && !w.leases[i].leaving
    requires bytes > 0 && 0 < w.leases[i].held <= w.used
    ensures var b := if bytes <= w.leases[i].held then bytes else w.leases[i].held;
            var n := Run(w, [GiveBack(i, bytes), Measure(i), Subtract(i), Notify(i)]);
            && |n.leases| == |w.leases|
            && n.used == w.used - b && n.leases[i] == w.leases[i].(held := w.leases[i].held - b)
            && (forall k | 0 <= k < |w.leases| && k != i ::
                  n.leases[k] == if Listening(w.leases[k].pc) then w.leases[k].(notified := true) else w.leases[k])
  {
    hide Run;
    var taken := Perform(w, GiveBack(i, bytes));
    var measured := Perform(taken, Measure(i));
    var lowered := Perform(measured, Subtract(i));
    RunStep(w, [GiveBack(i, bytes), Measure(i), Subtract(i), Notify(i)], [Measure(i), Subtract(i), Notify(i)]);
    RunStep(taken, [Measure(i), Subtract(i), Notify(i)], [Subtract(i), Notify(i)]);
    RunStep(measured, [Subtract(i), Notify(i)], [Notify(i)]);
    RunStep(lowered, [Notify(i)], []);
  }

  /** A lease that is dropped gives back all it holds and is gone. */
  lemma DropsAlone(w: World, i: nat)
    requires i < |w.leases| && w.leases[i].pc.Resting? && w.leases[i].held <= w.used
    ensures w.leases[i].held > 0 ==>
              var n := Run(w, [Drop(i), Measure(i), Subtract(i), Notify(i)]);
              n.used == w.used - w.leases[i].held && |n.leases| == |w.leases|
              && n.leases[i].pc.Gone? && n.leases[i].held == 0
    ensures w.leases[i].held == 0 ==>
              Run(w, [Drop(i)]) == World(w.limit, w.used, w.leases[i := w.leases[i].(leaving := true, pc := Gone)])
  {
    hide Run;
    var left := Perform(w, Drop(i));
    if w.leases[i].held > 0 {
      var measured := Perform(left, Measure(i));
      var lowered := Perform(measured, Subtract(i));
      RunStep(w, [Drop(i), Measure(i), Subtract(i), Notify(i)], [Measure(i), Subtract(i), Notify(i)]);
      RunStep(left, [Measure(i), Subtract(i), Notify(i)], [Subtract(i), Notify(i)]);
      RunStep(measured, [Subtract(i), Notify(i)], [Notify(i)]);
      RunStep(lowered, [Notify(i)], []);
    } else {
      RunStep(w, [Drop(i)], []);
    }
  }

  // ---- The two objects. ----

  /** One try of the swap: what the other tasks have left in the counter by then, and whether the weak swap fails anyway. */
  datatype Attempt = Attempt(found: nat, fails: bool)

  /**
    The counter and the outcome of a reservation that saw `seen`, given its swaps; once they are
    used up nobody interferes any more.
   */
  function Swapped(seen: nat, bytes: nat, limit: nat, attempts: seq<Attempt>): (nat, bool)
    decreases |attempts|
  {
    if seen + bytes > limit then (seen, false)
    else if attempts == [] || attempts[0] == Attempt(seen, false) then (seen + bytes, true)
    else Swapped(attempts[0].found, bytes, limit, attempts[1..])
  }

  /** A value the counter had at some look or swap. */
  predicate WasThere(value: nat, seen: nat, attempts: seq<Attempt>) {
    value == seen || exists i | 0 <= i < |attempts| :: attempts[i].found == value
  }

  /** However the others interfere, the bytes are added once, to a count they fit on, or the count did not have room. */
  lemma {:induction false} SwappedOnce(seen: nat, bytes: nat, limit: nat, attempts: seq<Attempt>)
    ensures var (used, ok) := Swapped(seen, bytes, limit, attempts);
            exists before: nat ::
              && WasThere(before, seen, attempts)
              && (ok <==> before + bytes <= limit)
              && used == before + if ok then bytes else 0
    decreases |attempts|
  {
    if seen + bytes > limit || attempts == [] || attempts[0] == Attempt(seen, false) {
      assert WasThere(seen, seen, attempts);
    } else {
      SwappedOnce(attempts[0].found, bytes, limit, attempts[1..]);
      var (used, ok) := Swapped(seen, bytes, limit, attempts);
      var before: nat :| WasThere(before, attempts[0].found, attempts[1..])
        && (ok <==> before + bytes <= limit) && used == before + if ok then bytes else 0;
      if before != attempts[0].found {
        var i :| 0 <= i < |attempts[1..]| && attempts[1..][i].found == before;
        assert attempts[i + 1].found == before;
      }
      assert WasThere(before, seen, attempts);
    }
  }

  /** As long as the others leave what a lease holds, the counter covers it afterwards with what was added. */
  lemma {:induction false} SwappedKeeps(seen: nat, bytes: nat, limit: nat, attempts: seq<Attempt>, held: nat)
    requires held <= seen <= limit && forall a | a in attempts :: held <= a.found <= limit
    ensures var (used, ok) := Swapped(seen, bytes, limit, attempts);
            held + (if ok then bytes else 0) <= used <= limit
    decreases |attempts|
  {
    if attempts != [] {
      SwappedKeeps(attempts[0].found, bytes, limit, attempts[1..], held);
    }
  }

  /** With nobody in between, the outcome is that of the count as it was, whatever swaps fail for no reason. */
  lemma {:induction false} SwappedAlone(seen: nat, bytes: nat, limit: nat, failures: nat)
    ensures Swapped(seen, bytes, limit, seq(failures, _ => Attempt(seen, true)))
         == if seen + bytes <= limit then (seen + bytes, true) else (seen, false)
    decreases failures
  {
    if failures > 0 {
      var attempts := seq(failures, _ => Attempt(seen, true));
      assert attempts[1..] == seq((failures - 1) as nat, _ => Attempt(seen, true));
      SwappedAlone(seen, bytes, limit, failures - 1);
    }
  }

  class GlobalBudget {
    const limit: nat
    var used: nat

    constructor (limit: nat)
      ensures this.limit == limit && used == 0
    {
      this.limit, used := limit, 0;
    }

    /** Looks, and swaps if there is room; a swap that fails, because of the others or for no reason, looks again. */
    method TryReserve(bytes: nat, attempts: seq<Attempt>) returns (ok: bool)
      modifies this`used
      ensures (used, ok) == Swapped(old(used), bytes, limit, attempts)
    {
      var seen := used;
      for i := 0 to |attempts|
        invariant seen == used
        invariant Swapped(seen, bytes, limit, attempts[i..]) == Swapped(old(used), bytes, limit, attempts)
      {
        assert attempts[i..][0] == attempts[i] && attempts[i..][1..] == attempts[i + 1..];
        if seen + bytes > limit {
          return false;
        }
        used := attempts[i].found;
        if used == seen && !attempts[i].fails {
          used := seen + bytes;
          return true;
        }
        seen := used;
      }
      if seen + bytes > limit {
        return false;
      }
      used := seen + bytes;
      return true;
    }

    method Release(bytes: nat) returns (notified: bool)
      modifies this`used
      ensures used == old(used) - Min(bytes, old(used))
      ensures notified <==> bytes > 0
    {
      if bytes == 0 {
        return false;
      }
      used := used - Min(bytes, used);
      return true;
    }
  }

  class BudgetLease {
    const budget: GlobalBudget
    var held: nat

    predicate Valid()
      reads this, budget
    {
      held <= budget.used <= budget.limit
    }

    constructor (budget: GlobalBudget)
      requires budget.used <= budget.limit
      ensures Valid() && this.budget == budget && held == 0
    {
      this.budget, held := budget, 0;
    }

    /** All or nothing: what the swap adds to the shared count, whatever the others do meanwhile, is added to the lease. */
    method TryReserve(bytes: nat, attempts: seq<Attempt>) returns (ok: bool)
      requires Valid() && forall a | a in attempts :: held <= a.found <= budget.limit
      modifies this`held, budget`used
      ensures Valid() && (budget.used, ok) == Swapped(old(budget.used), bytes, budget.limit, attempts)
      ensures held == old(held) + if ok then bytes else 0
    {
      SwappedKeeps(budget.used, bytes, budget.limit, attempts, held);
      ok := budget.TryReserve(bytes, attempts);
      if ok {
        held := held + bytes;
      }
    }

    /** Never more than was held, and the shared count goes down by exactly as much. */
    method Release(bytes: nat)
      requires Valid()
      modifies this`held, budget`used
      ensures Valid()
      ensures old(held) - held == old(budget.used) - budget.used == Min(bytes, old(held))
    {
      var less := Min(bytes, held);
      if less > 0 {
        held := held - less;
        var _ := budget.Release(less);
      }
    }

    method Drop()
      requires Valid()
      modifies this`held, budget`used
      ensures budget.used == old(budget.used) - old(held) && held == 0
    {
      if held > 0 {
        var _ := budget.Release(held);
        held := 0;
      }
    }
  }
}

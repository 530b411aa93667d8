/** The session's idle list as the code keeps it: popped, pushed, reaped and drained in place, with its timers. */
module Session {
  import opened Wrappers
  import opened Pool

  datatype IdleConn = IdleConn(id: nat, key: nat)

  function IdsOf(idle: seq<IdleConn>): (ids: seq<nat>)
    ensures |ids| == |idle|
    ensures forall k | 0 <= k < |ids| :: ids[k] == idle[k].id
  {
    seq(|idle|, k requires 0 <= k < |idle| => idle[k].id)
  }

  /**
    What `acquire` does with the idle stack: close poisoned connections from the top until a usable
    one, or nothing, is left. The found connection, the rest of the stack, and those closed in order.
   */
  function Usable(ids: seq<nat>, poisoned: set<nat>): (Option<nat>, seq<nat>, seq<nat>) {
    if ids == [] then (None, [], [])
    else if Last(ids) !in poisoned then (Some(Last(ids)), Init(ids), [])
    else
      var (found, rest, evicted) := Usable(Init(ids), poisoned);
      (found, rest, [Last(ids)] + evicted)
  }

  /** Nothing is lost: the stack is what is left, what was handed out, and what was closed, top first. */
  lemma {:induction false} UsableSplits(ids: seq<nat>, poisoned: set<nat>)
    ensures var (found, rest, evicted) := Usable(ids, poisoned);
            && multiset(ids) == multiset(rest) + multiset(evicted) + (if found.Some? then multiset{found.value} else multiset{})
            && (forall x | x in evicted :: x in poisoned)
            && (found.Some? ==> found.value !in poisoned)
            && (found.None? ==> rest == [])
    decreases |ids|
  {
    if ids != [] {
      assert ids == Init(ids) + [Last(ids)];
      UsableSplits(Init(ids), poisoned);
    }
  }

  /** No connection and no timer key is on the list twice, and a live timer is for the connection whose entry has its key. */
  predicate Orderly(idle: seq<IdleConn>, timers: map<nat, nat>, nextKey: nat) {
    && (forall i, j | 0 <= i < j < |idle| :: idle[i].key != idle[j].key && idle[i].id != idle[j].id)
    && (forall i | 0 <= i < |idle| :: idle[i].key < nextKey)
    && (forall i | 0 <= i < |idle| && idle[i].key in timers :: timers[idle[i].key] == idle[i].id)
    && (forall k | k in timers :: k < nextKey)
  }

  /** Every idle connection has a timer of its own, and every timer an idle connection. */
  predicate Armed(idle: seq<IdleConn>, timers: map<nat, nat>) {
    && (forall i | 0 <= i < |idle| :: idle[i].key in timers && timers[idle[i].key] == idle[i].id)
    && (forall k | k in timers :: IdleConn(timers[k], k) in idle)
  }

  function WithoutEntry(idle: seq<IdleConn>, k: nat): (rest: seq<IdleConn>)
    requires k < |idle|
    ensures IdsOf(rest) == Without(IdsOf(idle), k)
  {
    idle[..k] + idle[k + 1..]
  }

  lemma OrderlyWithout(idle: seq<IdleConn>, timers: map<nat, nat>, nextKey: nat, k: nat)
    requires Orderly(idle, timers, nextKey) && k < |idle|
    ensures Orderly(WithoutEntry(idle, k), timers, nextKey)
    ensures Orderly(WithoutEntry(idle, k), timers - {idle[k].key}, nextKey)
  {
    var rest := WithoutEntry(idle, k);
    assert forall i | 0 <= i < |rest| :: rest[i] == idle[if i < k then i else i + 1];
  }

  lemma StillListed(idle: seq<IdleConn>, k: nat, entry: IdleConn)
    requires k < |idle| && entry in idle && entry != idle[k]
    ensures entry in WithoutEntry(idle, k)
  {
    var i :| 0 <= i < |idle| && idle[i] == entry;
    assert WithoutEntry(idle, k)[if i < k then i else i - 1] == entry;
  }

  lemma ArmedWithout(idle: seq<IdleConn>, timers: map<nat, nat>, nextKey: nat, k: nat)
    requires Orderly(idle, timers, nextKey) && Armed(idle, timers) && k < |idle|
    ensures Armed(WithoutEntry(idle, k), timers - {idle[k].key})
  {
    hide IdsOf;
    var rest := WithoutEntry(idle, k);
    var left := timers - {idle[k].key};
    forall key | key in left ensures IdleConn(left[key], key) in rest {
      StillListed(idle, k, IdleConn(timers[key], key));
    }
    forall i | 0 <= i < |rest| ensures rest[i].key in left && left[rest[i].key] == rest[i].id {
      assert rest[i] == idle[if i < k then i else i + 1];
    }
  }

  /** The connection a timer is for is on the list, once, and its key is that timer. */
  lemma TimerIsIdle(idle: seq<IdleConn>, timers: map<nat, nat>, nextKey: nat, key: nat)
    requires Orderly(idle, timers, nextKey) && Armed(idle, timers) && key in timers
    ensures var k := IndexOf(IdsOf(idle), timers[key]);
            k < |idle| && idle[k].key == key
  {
    var at :| 0 <= at < |idle| && idle[at] == IdleConn(timers[key], key);
    var k := IndexOf(IdsOf(idle), timers[key]);
    assert IdsOf(idle)[at] == timers[key];
  }

  /** Whether some entry of the list has this timer. */
  predicate IsKeyOf(idle: seq<IdleConn>, key: nat) {
    exists e | e in idle :: e.key == key
  }

  /** The timers that are left when those of the whole list are cancelled. */
  function Disarmed(timers: map<nat, nat>, idle: seq<IdleConn>): map<nat, nat> {
    map k | k in timers && !IsKeyOf(idle, k) :: timers[k]
  }

  lemma DisarmedAll(timers: map<nat, nat>, idle: seq<IdleConn>)
    ensures Armed(idle, timers) ==> Disarmed(timers, idle) == map[]
    ensures Disarmed(timers, []) == timers
  {
  }

  lemma DisarmFirst(timers: map<nat, nat>, idle: seq<IdleConn>)
    requires idle != []
    ensures Disarmed(timers - {idle[0].key}, WithoutEntry(idle, 0)) == Disarmed(timers, idle)
  {
    var rest := WithoutEntry(idle, 0);
    assert idle == [idle[0]] + rest;
    forall k ensures IsKeyOf(idle, k) <==> k == idle[0].key || IsKeyOf(rest, k) {
      assert idle[0] in idle;
    }
  }

  /** Putting a connection on the list completes the match of entries and timers exactly if its timer is still live. */
  lemma PushArmsExactly(idle: seq<IdleConn>, timers: map<nat, nat>, nextKey: nat, id: nat, key: nat)
    requires Orderly(idle, timers, nextKey) && Armed(idle, timers - {key})
    requires (forall e | e in idle :: e.key != key) && (key in timers ==> timers[key] == id)
    ensures Armed(idle + [IdleConn(id, key)], timers) <==> key in timers
  {
    var grown := idle + [IdleConn(id, key)];
    assert grown[|idle|] == IdleConn(id, key);
    if key in timers {
      forall i | 0 <= i < |grown| ensures grown[i].key in timers && timers[grown[i].key] == grown[i].id {
        if i < |idle| {
          assert grown[i] == idle[i];
        }
      }
      forall k | k in timers ensures IdleConn(timers[k], k) in grown {
        if k != key {
          assert k in timers - {key};
        }
      }
    }
  }

  lemma UsableStep(ids: seq<nat>, poisoned: set<nat>, closed: seq<nat>)
    requires ids != [] && Last(ids) in poisoned
    ensures Usable(ids, poisoned).0 == Usable(Init(ids), poisoned).0
    ensures Usable(ids, poisoned).1 == Usable(Init(ids), poisoned).1
    ensures closed + Usable(ids, poisoned).2 == (closed + [Last(ids)]) + Usable(Init(ids), poisoned).2
  {
  }

  lemma MoveHead(closed: seq<nat>, ids: seq<nat>)
    requires ids != []
    ensures (closed + [ids[0]]) + Without(ids, 0) == closed + ids
  {
  }

  /**
    `timers` is what the wheel still holds. `Settled` says that entries and live timers match up; each
    method keeps it unless a timer runs between `Arm` and `Push`, or is taken off the wheel before a
    connection is taken and runs after it was given back.
   */
  class Session {
    var idle: seq<IdleConn>
    var timers: map<nat, nat>
    var closed: seq<nat>
    var nextKey: nat

    predicate Valid()
      reads this
    {
      Orderly(idle, timers, nextKey)
    }

    predicate Settled()
      reads this
    {
      Armed(idle, timers)
    }

    function Ids(): seq<nat>
      reads this
    {
      IdsOf(idle)
    }

    constructor ()
      ensures Valid() && Settled() && Ids() == [] && closed == []
    {
      idle, timers, closed, nextKey := [], map[], [], 0;
    }

    /** Takes one entry off the list and its timer with it. */
    method RemoveAt(k: nat) returns (id: nat)
      requires Valid() && k < |idle|
      modifies this`idle, this`timers
      ensures Valid() && (old(Settled()) ==> Settled()) && id == old(Ids())[k]
      ensures Ids() == Without(old(Ids()), k) && timers == old(timers) - {old(idle[k].key)}
      ensures idle == WithoutEntry(old(idle), k)
    {
      OrderlyWithout(idle, timers, nextKey, k);
      if Settled() {
        ArmedWithout(idle, timers, nextKey, k);
      }
      var entry := idle[k];
      id := entry.id;
      timers := timers - {entry.key};
      idle := WithoutEntry(idle, k);
    }

    method TakeIdle() returns (r: Option<nat>)
      requires Valid()
      modifies this`idle, this`timers
      ensures Valid() && (old(Settled()) ==> Settled())
      ensures old(Ids()) == [] ==> r.None? && unchanged(this)
      ensures old(Ids()) != [] ==>
                && r == Some(Last(old(Ids()))) && Ids() == Init(old(Ids()))
                && timers == old(timers) - {old(idle[|idle| - 1].key)}
    {
      if idle == [] {
        return None;
      }
      var id := RemoveAt(|idle| - 1);
      return Some(id);
    }

    /** The loop of `acquire`. */
    method AcquireIdle(poisoned: set<nat>) returns (r: Option<nat>)
      requires Valid()
      modifies this`idle, this`timers, this`closed
      ensures Valid() && (old(Settled()) ==> Settled())
      ensures var (found, rest, evicted) := Usable(old(Ids()), poisoned);
              r == found && Ids() == rest && closed == old(closed) + evicted
    {
      ghost var whole := Usable(Ids(), poisoned);
      r := TakeIdle();
      ghost var left := old(Ids());
      while r.Some? && r.value in poisoned
        invariant Valid() && (old(Settled()) ==> Settled())
        invariant if left == [] then r.None? && Ids() == [] else r == Some(Last(left)) && Ids() == Init(left)
        invariant whole.0 == Usable(left, poisoned).0 && whole.1 == Usable(left, poisoned).1
        invariant old(closed) + whole.2 == closed + Usable(left, poisoned).2
        decreases |left|
      {
        UsableStep(left, poisoned, closed);
        closed := closed + [r.value];
        left := Init(left);
        r := TakeIdle();
      }
    }

    /** The first half of a release: a reap timer is scheduled for a connection not yet on the list. */
    method Arm(id: nat) returns (key: nat)
      requires Valid()
      modifies this`timers, this`nextKey
      ensures Valid() && key == old(nextKey) && nextKey == key + 1 && timers == old(timers)[key := id]
    {
      key := nextKey;
      nextKey := nextKey + 1;
      timers := timers[key := id];
    }

    /** The second half: the connection goes on top of the list, whether or not its timer has gone off meanwhile. */
    method Push(id: nat, key: nat)
      requires Valid() && id !in Ids() && key < nextKey && (key in timers ==> timers[key] == id)
      requires forall i | 0 <= i < |idle| :: idle[i].key != key
      modifies this`idle
      ensures Valid() && idle == old(idle) + [IdleConn(id, key)] && Ids() == old(Ids()) + [id]
      ensures old(Armed(idle, timers - {key})) ==> (Settled() <==> key in timers)
    {
      assert forall i | 0 <= i < |idle| :: Ids()[i] != id;
      if Armed(idle, timers - {key}) {
        PushArmsExactly(idle, timers, nextKey, id, key);
      }
      idle := idle + [IdleConn(id, key)];
    }

    /** A dropped lease, with nothing in between: back on the stack with a reap timer, or closed if not worth keeping. */
    method Release(id: nat, poisoned: bool, cancelled: bool)
      requires Valid() && id !in Ids()
      modifies this
      ensures Valid() && (old(Settled()) ==> Settled())
      ensures poisoned || cancelled ==> Ids() == old(Ids()) && timers == old(timers) && closed == old(closed) + [id]
      ensures !(poisoned || cancelled) ==>
                Ids() == old(Ids()) + [id] && timers == old(timers)[old(nextKey) := id] && closed == old(closed)
    {
      if poisoned || cancelled {
        closed := closed + [id];
        return;
      }
      var key := Arm(id);
      Push(id, key);
      assert idle[|idle| - 1] == IdleConn(id, key);
      assert forall i | 0 <= i < |old(idle)| :: idle[i] == old(idle)[i];
    }

    method Position(id: nat) returns (k: nat)
      ensures k == IndexOf(Ids(), id)
    {
      k := 0;
      while k < |idle| && idle[k].id != id
        invariant k <= |idle| && forall i | 0 <= i < k :: idle[i].id != id
      {
        k := k + 1;
      }
    }

    /** The wheel hands over a timer that has run out: it can no longer be cancelled. */
    method Expire(key: nat) returns (id: nat)
      requires Valid() && key in timers
      modifies this`timers
      ensures Valid() && id == old(timers[key]) && timers == old(timers) - {key}
    {
      id := timers[key];
      timers := timers - {key};
    }

    /** What a timer does when it runs: the connection is closed if it is idle at that moment, and else nothing is. */
    method Reap(id: nat)
      requires Valid()
      modifies this`idle, this`closed
      ensures Valid()
      ensures id in old(Ids()) ==> Ids() == Without(old(Ids()), IndexOf(old(Ids()), id)) && closed == old(closed) + [id]
      ensures id in old(Ids()) ==> idle == WithoutEntry(old(idle), IndexOf(old(Ids()), id))
      ensures id !in old(Ids()) ==> unchanged(this)
    {
      var k := Position(id);
      if k < |idle| {
        OrderlyWithout(idle, timers, nextKey, k);
        idle := WithoutEntry(idle, k);
        closed := closed + [id];
      }
    }

    /** A timer that runs as soon as it is handed over; when all is settled it finds the connection it is for. */
    method Fire(key: nat)
      requires Valid() && key in timers
      modifies this`idle, this`timers, this`closed
      ensures Valid() && timers == old(timers) - {key}
      ensures old(Settled()) ==> old(timers[key]) in old(Ids()) && Settled()
      ensures old(timers[key]) in old(Ids()) ==>
                && Ids() == Without(old(Ids()), IndexOf(old(Ids()), old(timers[key])))
                && closed == old(closed) + [old(timers[key])]
      ensures old(timers[key]) !in old(Ids()) ==> idle == old(idle) && closed == old(closed)
    {
      if Settled() {
        TimerIsIdle(idle, timers, nextKey, key);
        ArmedWithout(idle, timers, nextKey, IndexOf(Ids(), timers[key]));
      }
      var id := Expire(key);
      Reap(id);
    }

    /** A timer that runs before its connection is on the list: nothing is closed, and none is left to close it later. */
    method ReleaseTooLate(id: nat)
      requires Valid() && Settled() && id !in Ids()
      modifies this
      ensures Valid() && !Settled()
      ensures Ids() == old(Ids()) + [id] && timers == old(timers) && closed == old(closed)
    {
      hide Armed;
      var key := Arm(id);
      Fire(key);
      assert timers == old(timers) && timers - {key} == timers;
      Push(id, key);
    }

    /** `shutdown` closes everything idle and disarms the timers of all of it. */
    method Drain()
      requires Valid()
      modifies this`idle, this`timers, this`closed
      ensures Valid() && Ids() == [] && timers == Disarmed(old(timers), old(idle))
      ensures old(Settled()) ==> timers == map[]
      ensures closed == old(closed) + old(Ids())
    {
      hide Armed, Disarmed, Orderly;
      while idle != []
        invariant Valid() && closed + Ids() == old(closed) + old(Ids())
        invariant Disarmed(timers, idle) == Disarmed(old(timers), old(idle))
        decreases |idle|
      {
        MoveHead(closed, Ids());
        DisarmFirst(timers, idle);
        var id := RemoveAt(0);
        closed := closed + [id];
      }
      DisarmedAll(timers, []);
      DisarmedAll(old(timers), old(idle));
    }
  }
}

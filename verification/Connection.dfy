/**
  One open connection as its own task: a one-slot inbox, one command at a time, and a poison flag
  that is set only after the reply to a fatal command has gone out.
 */
module Connection {

  const INBOX := 1

  datatype Verdict = Fine | Recoverable | Fatal

  datatype Phase = Receiving | Executing(command: nat) | Judged(fatal: bool) | Closing | Closed

  /** `executed` lists the commands that ran with how they ended, in the order of their replies. */
  datatype Conn = Conn(
    inbox: seq<nat>,
    phase: Phase,
    poisoned: bool,
    cancelled: bool,
    accepted: seq<nat>,
    executed: seq<(nat, Verdict)>)

  datatype Move =
    | Send(command: nat)
    | Receive
    | Finish(verdict: Verdict)
    | Settle
    | Cancel
    | Stop
    | Hang

  const OPEN := Conn([], Receiving, false, false, [], [])

  predicate CanMove(conn: Conn, move: Move) {
    match move
    case Send(_) => |conn.inbox| < INBOX && conn.phase != Closed
    case Receive => conn.phase.Receiving? && !conn.cancelled && conn.inbox != []
    case Finish(_) => conn.phase.Executing?
    case Settle => conn.phase.Judged?
    case Cancel => true
    case Stop => conn.phase.Receiving?
    case Hang => conn.phase.Closing?
  }

  /** `Stop` is the loop leaving on its cancel token, or because every handle is gone. */
  function Moved(conn: Conn, move: Move): Conn
    requires CanMove(conn, move)
  {
    match move
    case Send(command) => conn.(inbox := conn.inbox + [command], accepted := conn.accepted + [command])
    case Receive => conn.(phase := Executing(conn.inbox[0]), inbox := conn.inbox[1..])
    case Finish(verdict) =>
      conn.(phase := Judged(verdict == Fatal), executed := conn.executed + [(conn.phase.command, verdict)])
    case Settle => if conn.phase.fatal then conn.(poisoned := true, phase := Closing) else conn.(phase := Receiving)
    case Cancel => conn.(cancelled := true)
    case Stop => conn.(phase := Closing)
    case Hang => conn.(phase := Closed)
  }

  function Commands(executed: seq<(nat, Verdict)>): (commands: seq<nat>)
    ensures |commands| == |executed|
    ensures forall k | 0 <= k < |commands| :: commands[k] == executed[k].0
  {
    seq(|executed|, k requires 0 <= k < |executed| => executed[k].0)
  }

  function Running(phase: Phase): seq<nat> {
    if phase.Executing? then [phase.command] else []
  }

  /** Every accepted command ran, is running, or waits, in that order. */
  predicate InOrder(conn: Conn) {
    && |conn.inbox| <= INBOX
    && conn.accepted == Commands(conn.executed) + Running(conn.phase) + conn.inbox
  }

  /** A fatal result is the last one, and raises the flag once its reply has gone out. */
  predicate FatalLast(conn: Conn) {
    && (forall k | 0 <= k < |conn.executed| && conn.executed[k].1 == Fatal ::
          k == |conn.executed| - 1 && (conn.phase == Judged(true) || conn.phase.Closing? || conn.phase.Closed?))
    && (conn.phase.Judged? ==>
          conn.executed != [] && conn.phase.fatal == (conn.executed[|conn.executed| - 1].1 == Fatal))
    && (conn.poisoned <==> conn.executed != [] && conn.executed[|conn.executed| - 1].1 == Fatal
                           && (conn.phase.Closing? || conn.phase.Closed?))
  }

  predicate Sane(conn: Conn) {
    InOrder(conn) && FatalLast(conn)
  }

  lemma CommandsGrow(executed: seq<(nat, Verdict)>, entry: (nat, Verdict))
    ensures Commands(executed + [entry]) == Commands(executed) + [entry.0]
  {
  }

  lemma MoveKeepsOrder(conn: Conn, move: Move)
    requires InOrder(conn) && CanMove(conn, move)
    ensures InOrder(Moved(conn, move))
  {
    match move
    case Send(command) =>
      var done := Commands(conn.executed) + Running(conn.phase);
      assert (done + conn.inbox) + [command] == done + (conn.inbox + [command]);
    case Receive =>
      assert conn.inbox == [conn.inbox[0]] + conn.inbox[1..];
    case Finish(verdict) =>
      CommandsGrow(conn.executed, (conn.phase.command, verdict));
    case _ =>
  }

  lemma MoveKeepsFatal(conn: Conn, move: Move)
    requires FatalLast(conn) && CanMove(conn, move)
    ensures FatalLast(Moved(conn, move))
  {
    hide Commands;
  }

  lemma MoveKeeps(conn: Conn, move: Move)
    requires Sane(conn) && CanMove(conn, move)
    ensures Sane(Moved(conn, move))
  {
    hide InOrder, FatalLast, Moved, CanMove;
    MoveKeepsOrder(conn, move);
    MoveKeepsFatal(conn, move);
  }

  function Life(conn: Conn, moves: seq<Move>): Conn
    decreases |moves|
  {
    if moves == [] then conn
    else Life(if CanMove(conn, moves[0]) then Moved(conn, moves[0]) else conn, moves[1..])
  }

  lemma {:induction false} LifeKeeps(conn: Conn, moves: seq<Move>)
    requires Sane(conn)
    ensures Sane(Life(conn, moves))
    decreases |moves|
  {
    if moves != [] {
      if CanMove(conn, moves[0]) {
        MoveKeeps(conn, moves[0]);
        LifeKeeps(Moved(conn, moves[0]), moves[1..]);
      } else {
        LifeKeeps(conn, moves[1..]);
      }
    }
  }

  /**
    Over a whole life: commands run in the order they were accepted, each at most once, and nothing
    runs after one that ended fatally, whether or not the poison flag has been raised yet. The flag is
    up exactly when a command ended fatally and its reply has gone out, and at most one command waits.
   */
  lemma NothingAfterFatal(moves: seq<Move>)
    ensures var conn := Life(OPEN, moves);
            && Commands(conn.executed) <= conn.accepted
            && |conn.accepted| <= |conn.executed| + 2
            && (forall k | 0 <= k < |conn.executed| && conn.executed[k].1 == Fatal :: k == |conn.executed| - 1)
            && (conn.poisoned <==>
                  conn.executed != [] && conn.executed[|conn.executed| - 1].1 == Fatal && !conn.phase.Judged?)
  {
    LifeKeeps(OPEN, moves);
    var conn := Life(OPEN, moves);
    assert conn.accepted == Commands(conn.executed) + (Running(conn.phase) + conn.inbox);
  }

  /** The commands that were started, done or not. */
  function Started(conn: Conn): seq<nat> {
    Commands(conn.executed) + Running(conn.phase)
  }

  /** Once cancelled, a connection starts no further command, whatever is sent to it. */
  lemma {:induction false} CancelledStartsNothing(conn: Conn, moves: seq<Move>)
    requires conn.cancelled
    ensures Started(Life(conn, moves)) == Started(conn)
    decreases |moves|
  {
    if moves != [] {
      if CanMove(conn, moves[0]) {
        var next := Moved(conn, moves[0]);
        if moves[0].Finish? {
          CommandsGrow(conn.executed, (conn.phase.command, moves[0].verdict));
        }
        assert Started(next) == Started(conn);
        CancelledStartsNothing(next, moves[1..]);
      } else {
        CancelledStartsNothing(conn, moves[1..]);
      }
    }
  }

  /** Once closing, it starts none either; it can always be closed, and then accepts none. */
  lemma {:induction false} ClosingStartsNothing(conn: Conn, moves: seq<Move>)
    requires conn.phase.Closing? || conn.phase.Closed?
    ensures var last := Life(conn, moves);
            && (last.phase.Closing? || last.phase.Closed?) && last.executed == conn.executed
            && last.poisoned == conn.poisoned
            && (conn.phase.Closed? ==> last.phase.Closed? && last.accepted == conn.accepted)
            && Life(last, [Hang]).phase.Closed?
    decreases |moves|
  {
    if moves != [] {
      ClosingStartsNothing(if CanMove(conn, moves[0]) then Moved(conn, moves[0]) else conn, moves[1..]);
    }
  }

  /**
    The ordinary course: a command sent to an idle connection runs and is answered; afterwards the
    connection is idle again, or poisoned and closing if the command ended fatally. A cancelled or
    abandoned one that is idle closes.
   */
  lemma OneCommand(conn: Conn, command: nat, verdict: Verdict)
    requires conn.phase.Receiving? && !conn.cancelled && conn.inbox == []
    ensures Life(conn, [Send(command), Receive, Finish(verdict), Settle])
         == conn.(accepted := conn.accepted + [command], executed := conn.executed + [(command, verdict)],
                  phase := if verdict == Fatal then Closing else Receiving,
                  poisoned := conn.poisoned || verdict == Fatal)
    ensures Life(conn, [Cancel, Stop, Hang]) == conn.(cancelled := true, phase := Closed)
    ensures Life(conn, [Stop, Hang]) == conn.(phase := Closed)
  {
    var sent := Moved(conn, Send(command));
    var taken := Moved(sent, Receive);
    var judged := Moved(taken, Finish(verdict));
    LifeStep(conn, [Send(command), Receive, Finish(verdict), Settle], [Receive, Finish(verdict), Settle]);
    LifeStep(sent, [Receive, Finish(verdict), Settle], [Finish(verdict), Settle]);
    LifeStep(taken, [Finish(verdict), Settle], [Settle]);
    LifeStep(judged, [Settle], []);
    LifeStep(conn, [Cancel, Stop, Hang], [Stop, Hang]);
    LifeStep(Moved(conn, Cancel), [Stop, Hang], [Hang]);
    LifeStep(Moved(Moved(conn, Cancel), Stop), [Hang], []);
    LifeStep(conn, [Stop, Hang], [Hang]);
    LifeStep(Moved(conn, Stop), [Hang], []);
  }

  lemma LifeStep(conn: Conn, moves: seq<Move>, rest: seq<Move>)
    requires moves != [] && rest == moves[1..] && CanMove(conn, moves[0])
    ensures Life(conn, moves) == Life(Moved(conn, moves[0]), rest)
    ensures Life(conn, []) == conn
  {
  }

  /** What the loop is handed each time around: a command that will end this way, or the end. */
  datatype Arrival = Command(id: nat, verdict: Verdict) | Cancelled | NoSenders

  function Served(arrivals: seq<Arrival>): seq<(nat, Verdict)> {
    if arrivals == [] || !arrivals[0].Command? then []
    else
      [(arrivals[0].id, arrivals[0].verdict)]
      + if arrivals[0].verdict == Fatal then [] else Served(arrivals[1..])
  }

  /** The loop itself: serve until cancelled, abandoned, or poisoned by a fatal result. */
  method RunConnection(arrivals: seq<Arrival>) returns (executed: seq<(nat, Verdict)>, poisoned: bool)
    ensures executed == Served(arrivals)
    ensures poisoned <==> executed != [] && executed[|executed| - 1].1 == Fatal
  {
    executed, poisoned := [], false;
    var i := 0;
    while i < |arrivals| && arrivals[i].Command?
      invariant i <= |arrivals| && !poisoned
      invariant executed + Served(arrivals[i..]) == Served(arrivals)
      invariant forall k | 0 <= k < |executed| :: executed[k].1 != Fatal
    {
      var arrival := arrivals[i];
      ghost var rest := arrivals[i + 1..];
      assert arrivals[i..] == [arrival] + rest;
      ServedHead(arrival, rest);
      executed := executed + [(arrival.id, arrival.verdict)];
      if arrival.verdict == Fatal {
        poisoned := true;
        return;
      }
      i := i + 1;
    }
    assert Served(arrivals[i..]) == [];
  }

  lemma ServedHead(arrival: Arrival, rest: seq<Arrival>)
    requires arrival.Command?
    ensures Served([arrival] + rest)
         == [(arrival.id, arrival.verdict)] + (if arrival.verdict == Fatal then [] else Served(rest))
  {
    assert ([arrival] + rest)[1..] == rest;
  }
}

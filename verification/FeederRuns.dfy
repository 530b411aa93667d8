/**
  The feeder: a task that pulls batches from a cursor into a two-slot channel, and can be parked,
  resumed and stopped by anyone at any moment. One step is one access to something shared: the
  paused flag, the notifier, the cancel token, the channel, or the cursor.
 */
module FeederRuns {

  const CHANNEL := 2

  /** What one call on the cursor comes back with. A batch is the list of the rows it counts. */
  datatype Answer<R> = Rows(rows: seq<R>) | Exhausted | CursorCancelled | Failure

  datatype Ending = Done | Capped | Cancelled | Failed

  /**
    Where the feeder is. `Listening` and the three `At...` places have a registration with the
    notifier. The waits for a slot and for an answer look at the cancel token first on every poll.
   */
  datatype Pc<R> =
    | Top
    | Listening
    | Sleeping
    | AfterPause
    | AtCancel
    | AtWake
    | AtSlot
    | Holding
    | Starting
    | Pulling
    | Answering
    | Counted(batch: seq<R>)
    | Ended(ending: Ending)

  /** A caller of `park`, `resume` or `stop` that has stored its flag and not yet notified. */
  datatype Caller = Parking | Resuming | Stopping

  datatype World<R> = World(
    pc: Pc<R>,
    woken: bool,
    paused: bool,
    cancelled: bool,
    callers: map<nat, Caller>,
    rows: nat,
    queue: seq<seq<R>>,
    open: bool,
    sent: seq<seq<R>>,
    received: nat,
    pulls: nat,
    pulledSincePark: nat)

  /** The feeder's own moves. */
  datatype Move =
    | Check
    | LoadPaused
    | WakeUp
    | SeeCancel
    | ListenAgain
    | PollCancel
    | PollWake
    | PollSlot
    | LookAtCancel
    | StartPull
    | NotReady
    | TakeAnswer
    | Send

  /** What everybody else does. */
  datatype Event =
    | Receive
    | CloseReceiver
    | CancelToken
    | Park(caller: nat)
    | Resume(caller: nat)
    | Stop(caller: nat)
    | Notify(caller: nat)

  datatype Step = Own(move: Move) | Outside(event: Event)

  function Start<R>(): World<R> {
    World(Top, false, false, false, map[], 0, [], true, [], 0, 0, 0)
  }

  predicate CanMove<R>(w: World<R>, move: Move) {
    match move
    case Check => w.pc.Top?
    case LoadPaused => w.pc.Listening?
    case WakeUp => w.pc.Sleeping? && w.woken
    case SeeCancel => w.pc.Sleeping? && w.cancelled
    case ListenAgain => w.pc.AfterPause?
    case PollCancel => w.pc.AtCancel?
    case PollWake => w.pc.AtWake?
    case PollSlot => w.pc.AtSlot?
    case LookAtCancel => w.pc.Holding? || w.pc.Pulling?
    case StartPull => w.pc.Starting?
    case NotReady => w.pc.Answering?
    case TakeAnswer => w.pc.Answering?
    case Send => w.pc.Counted?
  }

  predicate CanHappen<R>(w: World<R>, event: Event) {
    match event
    case Receive => w.open && w.queue != []
    case CloseReceiver => true
    case CancelToken => true
    case Park(c) => c !in w.callers
    case Resume(c) => c !in w.callers
    case Stop(c) => c !in w.callers
    case Notify(c) => c in w.callers
  }

  predicate Enabled<R>(w: World<R>, step: Step) {
    match step
    case Own(move) => CanMove(w, move)
    case Outside(event) => CanHappen(w, event)
  }

  function Truncated<T>(xs: seq<T>, keep: nat): seq<T> {
    if |xs| <= keep then xs else xs[..keep]
  }

  /** The answer to a pull: rows beyond the cap are cut off, and the rest counted before they are sent. */
  function Answered<R>(cap: nat, w: World<R>, answer: Answer<R>): World<R> {
    match answer
    case Rows(rows) =>
      var batch := Truncated(rows, if w.rows <= cap then cap - w.rows else 0);
      w.(rows := w.rows + |batch|, pc := Counted(batch))
    case Exhausted => w.(pc := Ended(Done))
    case CursorCancelled => w.(pc := Ended(Cancelled))
    case Failure => w.(pc := Ended(Failed))
  }

  function Moved<R>(cursor: nat -> Answer<R>, cap: nat, w: World<R>, move: Move): World<R>
    requires CanMove(w, move)
  {
    match move
    case Check =>
      if w.cancelled then w.(pc := Ended(Cancelled))
      else if w.rows >= cap then w.(pc := Ended(Capped))
      else w.(pc := Listening, woken := false)
    case LoadPaused => w.(pc := if w.paused then Sleeping else AfterPause)
    case WakeUp => w.(pc := Listening, woken := false)
    case SeeCancel => w.(pc := Ended(Cancelled))
    case ListenAgain => w.(pc := AtCancel, woken := false)
    case PollCancel => w.(pc := if w.cancelled then Ended(Cancelled) else AtWake)
    case PollWake => w.(pc := if w.woken then Top else AtSlot)
    case PollSlot => w.(pc := if !w.open then Ended(Done) else if |w.queue| < CHANNEL then Holding else AtCancel)
    case LookAtCancel =>
      w.(pc := if w.cancelled then Ended(Cancelled) else if w.pc.Holding? then Starting else Answering)
    case StartPull => w.(pc := Answering, pulls := w.pulls + 1, pulledSincePark := w.pulledSincePark + 1)
    case NotReady => w.(pc := Pulling)
    case TakeAnswer => Answered(cap, w, cursor(if w.pulls == 0 then 0 else w.pulls - 1))
    case Send => Sent(cap, w)
  }

  function Sent<R>(cap: nat, w: World<R>): World<R>
    requires w.pc.Counted?
  {
    w.(sent := w.sent + [w.pc.batch], queue := w.queue + [w.pc.batch],
       pc := if w.rows >= cap then Ended(Capped) else Top)
  }

  function Happened<R>(w: World<R>, event: Event): World<R>
    requires CanHappen(w, event)
  {
    match event
    case Receive => w.(queue := w.queue[1..], received := w.received + 1)
    case CloseReceiver => w.(open := false)
    case CancelToken => w.(cancelled := true)
    case Park(c) =>
      w.(callers := w.callers[c := Parking], paused := true,
         pulledSincePark := if w.paused then w.pulledSincePark else 0)
    case Resume(c) => w.(callers := w.callers[c := Resuming], paused := false)
    case Stop(c) => w.(callers := w.callers[c := Stopping], cancelled := true)
    case Notify(c) => w.(callers := w.callers - {c}, woken := true)
  }

  function Perform<R>(cursor: nat -> Answer<R>, cap: nat, w: World<R>, step: Step): World<R>
    requires Enabled(w, step)
  {
    match step
    case Own(move) => Moved(cursor, cap, w, move)
    case Outside(event) => Happened(w, event)
  }

  function Run<R>(cursor: nat -> Answer<R>, cap: nat, w: World<R>, steps: seq<Step>): World<R>
    decreases |steps|
  {
    if steps == [] then w
    else Run(cursor, cap, if Enabled(w, steps[0]) then Perform(cursor, cap, w, steps[0]) else w, steps[1..])
  }

  // ---- What was pulled and what was sent. ----

  function Flat<T>(batches: seq<seq<T>>): seq<T> {
    if batches == [] then [] else Flat(batches[..|batches| - 1]) + batches[|batches| - 1]
  }

  /** Every row of the cursor's first `n` answers. */
  function RowsOf<R>(cursor: nat -> Answer<R>, n: nat): seq<R> {
    if n == 0 then []
    else RowsOf(cursor, n - 1) + if cursor(n - 1).Rows? then cursor(n - 1).rows else []
  }

  function Pending<R>(pc: Pc<R>): seq<R> {
    if pc.Counted? then pc.batch else []
  }

  /** The cursor is at work on a pull. */
  predicate InFlight<R>(pc: Pc<R>) {
    pc.Pulling? || pc.Answering?
  }

  predicate Permit<R>(pc: Pc<R>) {
    pc.Holding? || pc.Starting? || InFlight(pc) || pc.Counted?
  }

  /** Pulls whose rows are all accounted for: every one but the one in flight. */
  function Answers<R>(w: World<R>): nat {
    if InFlight(w.pc) && w.pulls > 0 then w.pulls - 1 else w.pulls
  }

  ghost predicate Prefix<R>(a: seq<R>, b: seq<R>) {
    |a| <= |b| && a == b[..|a|]
  }

  /** All rows of all answered pulls so far; after the end, or at the cap, possibly fewer. */
  ghost predicate StreamOf<R>(cursor: nat -> Answer<R>, cap: nat, stream: seq<R>, answers: nat, whole: bool) {
    && |stream| <= cap
    && Prefix(stream, RowsOf(cursor, answers))
    && (whole && |stream| < cap ==> stream == RowsOf(cursor, answers))
  }

  /** Short of the end the stream is complete; a cancelled or failed task may have dropped an answer. */
  predicate Whole<R>(pc: Pc<R>) {
    pc.Ended? ==> pc.ending.Done?
  }

  predicate Waits<R>(pc: Pc<R>) {
    || InFlight(pc) || pc.Listening? || pc.Sleeping? || OnItsWay(pc)
  }

  /** Past the pause loop and short of the next pull. */
  predicate OnItsWay<R>(pc: Pc<R>) {
    pc.AfterPause? || pc.AtCancel? || pc.AtWake? || pc.AtSlot? || pc.Holding? || pc.Starting?
  }

  ghost predicate Streaming<R>(cursor: nat -> Answer<R>, cap: nat, w: World<R>) {
    && w.rows == |Flat(w.sent) + Pending(w.pc)|
    && StreamOf(cursor, cap, Flat(w.sent) + Pending(w.pc), Answers(w), Whole(w.pc))
    && (w.pc == Ended(Capped) ==> w.rows == cap)
    && (InFlight(w.pc) ==> w.pulls > 0)
    && (Waits(w.pc) ==> w.rows < cap)
  }

  ghost predicate Flow<R>(w: World<R>) {
    && w.received <= |w.sent| && w.queue == w.sent[w.received..]
    && |w.queue| + (if Permit(w.pc) then 1 else 0) <= CHANNEL
    && w.pulls <= w.received + CHANNEL
    && (if InFlight(w.pc) || w.pc.Counted? then w.pulls == |w.sent| + 1
        else if w.pc.Ended? then w.pulls <= |w.sent| + 1
        else w.pulls == |w.sent|)
  }

  predicate SomeoneResumes(callers: map<nat, Caller>) {
    exists c :: c in callers && callers[c].Resuming?
  }

  predicate Watch<R>(w: World<R>) {
    && (w.pc.Sleeping? && !w.woken && !w.paused ==> SomeoneResumes(w.callers))
    && (w.paused ==> w.pulledSincePark <= 1)
    && (w.paused && OnItsWay(w.pc) ==> w.pulledSincePark == 0)
  }

  /** Why the feeder ended: the cursor's last answer, a cancelled token, the cap, or a store that is gone. */
  predicate EndKnown<R>(cursor: nat -> Answer<R>, cap: nat, w: World<R>) {
    w.pc.Ended? ==>
      match w.pc.ending
      case Done => !w.open || (w.pulls > 0 && cursor(w.pulls - 1).Exhausted?)
      case Capped => w.rows >= cap
      case Cancelled => w.cancelled || (w.pulls > 0 && cursor(w.pulls - 1).CursorCancelled?)
      case Failed => w.pulls > 0 && cursor(w.pulls - 1).Failure?
  }

  // ---- Each step keeps all of it. ----

  lemma FlatGrows<T>(batches: seq<seq<T>>, batch: seq<T>)
    ensures Flat(batches + [batch]) == Flat(batches) + batch
  {
    assert (batches + [batch])[..|batches|] == batches;
  }

  /** Cutting a batch at the cap keeps the stream a prefix. */
  lemma CutStreams<R(!new)>(cursor: nat -> Answer<R>, cap: nat, before: seq<R>, pulls: nat, rows: seq<R>)
    requires pulls > 0 && cursor(pulls - 1) == Rows(rows)
    requires |before| < cap && before == RowsOf(cursor, pulls - 1)
    ensures StreamOf(cursor, cap, before + Truncated(rows, cap - |before|), pulls, true)
  {
    assert RowsOf(cursor, pulls) == before + rows;
  }

  lemma RowlessStreams<R(!new)>(cursor: nat -> Answer<R>, cap: nat, before: seq<R>, pulls: nat, whole: bool)
    requires pulls > 0 && !cursor(pulls - 1).Rows?
    requires |before| <= cap && before == RowsOf(cursor, pulls - 1)
    ensures StreamOf(cursor, cap, before, pulls, whole)
  {
    assert RowsOf(cursor, pulls) == before + [] == before;
  }

  /** An answer that is taken moves its rows, or none, from the cursor to what is pending. */
  lemma AnsweredStreams<R(!new)>(cursor: nat -> Answer<R>, cap: nat, w: World<R>, n: World<R>, stream: seq<R>)
    requires Streaming(cursor, cap, w) && w.pc.Answering?
    requires n.sent == w.sent && n.pulls == w.pulls && (n.pc.Counted? || (n.pc.Ended? && n.pc != Ended(Capped)))
    requires stream == Flat(w.sent) + Pending(n.pc) && n.rows == |stream|
    requires StreamOf(cursor, cap, stream, w.pulls, Whole(n.pc))
    ensures Streaming(cursor, cap, n)
  {
    hide Flat, RowsOf, StreamOf;
  }

  lemma AnswerStreams<R(!new)>(cursor: nat -> Answer<R>, cap: nat, w: World<R>)
    requires Streaming(cursor, cap, w) && w.pc.Answering?
    ensures Streaming(cursor, cap, Moved(cursor, cap, w, TakeAnswer))
  {
    hide Flat, RowsOf, StreamOf, Prefix;
    var before, answer := Flat(w.sent), cursor(w.pulls - 1);
    var n := Moved(cursor, cap, w, TakeAnswer);
    WholeSoFar(cursor, cap, before, w.pulls - 1);
    assert before + [] == before;
    if answer.Rows? {
      CutStreams(cursor, cap, before, w.pulls, answer.rows);
      AnsweredStreams(cursor, cap, w, n, before + Pending(n.pc));
    } else {
      RowlessStreams(cursor, cap, before, w.pulls, Whole(n.pc));
      AnsweredStreams(cursor, cap, w, n, before);
    }
  }

  lemma WholeSoFar<R(!new)>(cursor: nat -> Answer<R>, cap: nat, before: seq<R>, answers: nat)
    requires StreamOf(cursor, cap, before + [], answers, true)
    ensures |before| <= cap && (|before| < cap ==> before == RowsOf(cursor, answers))
  {
    assert before + [] == before;
  }

  lemma SendStreams<R(!new)>(cursor: nat -> Answer<R>, cap: nat, w: World<R>)
    requires Streaming(cursor, cap, w) && w.pc.Counted?
    ensures Streaming(cursor, cap, Moved(cursor, cap, w, Send))
  {
    hide Flat, RowsOf, Prefix;
    FlatGrows(w.sent, w.pc.batch);
    assert Flat(w.sent) + w.pc.batch + [] == Flat(w.sent) + w.pc.batch;
    assert Moved(cursor, cap, w, Send) == Sent(cap, w);
  }

  /** Nothing sent or answered, though an answer in flight may be dropped at the end. */
  ghost predicate Quiet<R>(cap: nat, w: World<R>, n: World<R>) {
    && n.sent == w.sent && n.rows == w.rows && Pending(n.pc) == Pending(w.pc)
    && Answers(w) <= Answers(n) && (Answers(w) == Answers(n) || !Whole(n.pc)) && (Whole(n.pc) ==> Whole(w.pc))
    && (n.pc == Ended(Capped) ==> n.rows == cap)
    && (InFlight(n.pc) ==> n.pulls > 0)
    && (Waits(n.pc) ==> n.rows < cap)
  }

  lemma StaysStreaming<R(!new)>(cursor: nat -> Answer<R>, cap: nat, w: World<R>, n: World<R>)
    requires Streaming(cursor, cap, w) && Quiet(cap, w, n)
    ensures Streaming(cursor, cap, n)
  {
    hide Flat, RowsOf;
    RowsOfGrows(cursor, Answers(w), Answers(n));
  }

  lemma MoveIsQuiet<R(!new)>(cursor: nat -> Answer<R>, cap: nat, w: World<R>, move: Move)
    requires CanMove(w, move) && !move.TakeAnswer? && !move.Send?
    requires w.rows <= cap && (InFlight(w.pc) ==> w.pulls > 0) && (Waits(w.pc) ==> w.rows < cap)
    ensures Quiet(cap, w, Moved(cursor, cap, w, move))
  {
  }

  lemma MoveStreams<R(!new)>(cursor: nat -> Answer<R>, cap: nat, w: World<R>, move: Move)
    requires Streaming(cursor, cap, w) && CanMove(w, move) && !move.TakeAnswer? && !move.Send?
    ensures Streaming(cursor, cap, Moved(cursor, cap, w, move))
  {
    hide Flat, RowsOf, StreamOf, Prefix, Moved, CanMove, Quiet;
    StreamFits(cursor, cap, w);
    MoveIsQuiet(cursor, cap, w, move);
    StaysStreaming(cursor, cap, w, Moved(cursor, cap, w, move));
  }

  lemma StreamFits<R(!new)>(cursor: nat -> Answer<R>, cap: nat, w: World<R>)
    requires Streaming(cursor, cap, w)
    ensures w.rows <= cap
  {
    hide Flat, RowsOf;
  }

  lemma EventStreams<R(!new)>(cursor: nat -> Answer<R>, cap: nat, w: World<R>, event: Event)
    requires Streaming(cursor, cap, w) && CanHappen(w, event)
    ensures Streaming(cursor, cap, Happened(w, event))
  {
    hide Flat, RowsOf, StreamOf, Prefix;
    var n := Happened(w, event);
    assert n.sent == w.sent && n.rows == w.rows && n.pc == w.pc && n.pulls == w.pulls;
  }

  lemma StepStreams<R(!new)>(cursor: nat -> Answer<R>, cap: nat, w: World<R>, step: Step)
    requires Streaming(cursor, cap, w) && Enabled(w, step)
    ensures Streaming(cursor, cap, Perform(cursor, cap, w, step))
  {
    hide Streaming, Moved, Happened, CanHappen;
    if step.Own? {
      if step.move.TakeAnswer? {
        AnswerStreams(cursor, cap, w);
      } else if step.move.Send? {
        SendStreams(cursor, cap, w);
      } else {
        MoveStreams(cursor, cap, w, step.move);
      }
    } else {
      EventStreams(cursor, cap, w, step.event);
    }
  }

  lemma {:induction false} RowsOfGrows<R(!new)>(cursor: nat -> Answer<R>, m: nat, n: nat)
    requires m <= n
    ensures Prefix(RowsOf(cursor, m), RowsOf(cursor, n))
    decreases n
  {
    if m < n {
      RowsOfGrows(cursor, m, n - 1);
    }
  }

  lemma MoveFlows<R(!new)>(cursor: nat -> Answer<R>, cap: nat, w: World<R>, move: Move)
    requires Flow(w) && CanMove(w, move)
    ensures Flow(Moved(cursor, cap, w, move))
  {
    hide Answered, Truncated;
    if move.TakeAnswer? {
      AnswerKeepsFlow(cap, w, cursor(if w.pulls == 0 then 0 else w.pulls - 1));
    }
  }

  lemma AnswerKeepsFlow<R(!new)>(cap: nat, w: World<R>, answer: Answer<R>)
    requires Flow(w) && w.pc.Answering?
    ensures Flow(Answered(cap, w, answer))
  {
    hide Truncated;
  }

  lemma EventFlows<R(!new)>(w: World<R>, event: Event)
    requires Flow(w) && CanHappen(w, event)
    ensures Flow(Happened(w, event))
  {
  }

  lemma StepFlows<R(!new)>(cursor: nat -> Answer<R>, cap: nat, w: World<R>, step: Step)
    requires Flow(w) && Enabled(w, step)
    ensures Flow(Perform(cursor, cap, w, step))
  {
    if step.Own? {
      MoveFlows(cursor, cap, w, step.move);
    } else {
      EventFlows(w, step.event);
    }
  }

  lemma EventWatches<R(!new)>(w: World<R>, event: Event)
    requires Watch(w) && CanHappen(w, event)
    ensures Watch(Happened(w, event))
  {
    var n := Happened(w, event);
    if event.Resume? {
      assert n.callers[event.caller].Resuming?;
    } else if n.pc.Sleeping? && !n.woken && !n.paused {
      var c :| c in w.callers && w.callers[c].Resuming?;
      assert n.callers[c].Resuming?;
    }
  }

  lemma MoveWatches<R(!new)>(cursor: nat -> Answer<R>, cap: nat, w: World<R>, move: Move)
    requires Watch(w) && CanMove(w, move)
    ensures Watch(Moved(cursor, cap, w, move))
  {
  }

  lemma StepWatches<R(!new)>(cursor: nat -> Answer<R>, cap: nat, w: World<R>, step: Step)
    requires Watch(w) && Enabled(w, step)
    ensures Watch(Perform(cursor, cap, w, step))
  {
    if step.Outside? {
      EventWatches(w, step.event);
    } else {
      MoveWatches(cursor, cap, w, step.move);
    }
  }

  lemma MoveEnds<R(!new)>(cursor: nat -> Answer<R>, cap: nat, w: World<R>, move: Move)
    requires CanMove(w, move) && EndKnown(cursor, cap, w) && (InFlight(w.pc) ==> w.pulls > 0)
    ensures EndKnown(cursor, cap, Moved(cursor, cap, w, move))
  {
    hide Truncated;
  }

  lemma StepEnds<R(!new)>(cursor: nat -> Answer<R>, cap: nat, w: World<R>, step: Step)
    requires Enabled(w, step) && EndKnown(cursor, cap, w) && (InFlight(w.pc) ==> w.pulls > 0)
    ensures EndKnown(cursor, cap, Perform(cursor, cap, w, step))
  {
    hide Moved, CanMove, EndKnown, Happened, CanHappen;
    if step.Own? {
      MoveEnds(cursor, cap, w, step.move);
    } else {
      EventEnds(cursor, cap, w, step.event);
    }
  }

  lemma EventEnds<R(!new)>(cursor: nat -> Answer<R>, cap: nat, w: World<R>, event: Event)
    requires CanHappen(w, event) && EndKnown(cursor, cap, w)
    ensures EndKnown(cursor, cap, Happened(w, event))
  {
    var n := Happened(w, event);
    assert n.pc == w.pc && n.pulls == w.pulls && n.rows == w.rows && (w.cancelled ==> n.cancelled) && (n.open ==> w.open);
  }

  lemma {:induction false} RunEnds<R(!new)>(cursor: nat -> Answer<R>, cap: nat, w: World<R>, steps: seq<Step>)
    requires Streaming(cursor, cap, w) && EndKnown(cursor, cap, w)
    ensures EndKnown(cursor, cap, Run(cursor, cap, w, steps))
    decreases |steps|
  {
    hide Perform, Enabled, EndKnown, Flat, RowsOf, StreamOf;
    if steps != [] {
      if Enabled(w, steps[0]) {
        StepStreams(cursor, cap, w, steps[0]);
        StepEnds(cursor, cap, w, steps[0]);
        RunEnds(cursor, cap, Perform(cursor, cap, w, steps[0]), steps[1..]);
      } else {
        RunEnds(cursor, cap, w, steps[1..]);
      }
    }
  }

  lemma {:induction false} RunKeeps<R(!new)>(cursor: nat -> Answer<R>, cap: nat, w: World<R>, steps: seq<Step>)
    requires Streaming(cursor, cap, w) && Flow(w) && Watch(w)
    ensures var n := Run(cursor, cap, w, steps);
            Streaming(cursor, cap, n) && Flow(n) && Watch(n)
    decreases |steps|
  {
    if steps != [] {
      if Enabled(w, steps[0]) {
        StepStreams(cursor, cap, w, steps[0]);
        StepFlows(cursor, cap, w, steps[0]);
        StepWatches(cursor, cap, w, steps[0]);
        RunKeeps(cursor, cap, Perform(cursor, cap, w, steps[0]), steps[1..]);
      } else {
        RunKeeps(cursor, cap, w, steps[1..]);
      }
    }
  }

  lemma StartKeeps<R(!new)>(cursor: nat -> Answer<R>, cap: nat)
    ensures Streaming(cursor, cap, Start()) && Flow(Start<R>()) && Watch(Start<R>()) && EndKnown(cursor, cap, Start())
  {
  }

  // ---- The main results, for every cursor, cap and schedule. ----

  /**
    The batches sent make up a prefix of the cursor's rows, never past the cap. A feeder that is done
    has sent all it pulled up to the cap, and either the cursor had ended or the store was gone; each
    other ending has its own cause.
   */
  lemma SentIsPrefix<R(!new)>(cursor: nat -> Answer<R>, cap: nat, steps: seq<Step>)
    ensures var w := Run(cursor, cap, Start(), steps);
            && Prefix(Flat(w.sent), RowsOf(cursor, w.pulls))
            && |Flat(w.sent)| <= w.rows <= cap
            && (!w.pc.Counted? ==> w.rows == |Flat(w.sent)|)
            && (w.pc == Ended(Capped) ==> |Flat(w.sent)| == cap)
            && (w.pc == Ended(Done) ==> |Flat(w.sent)| == cap || Flat(w.sent) == RowsOf(cursor, w.pulls))
            && EndKnown(cursor, cap, w)
  {
    hide Run, Flat, RowsOf, Flow, Watch, EndKnown;
    StartKeeps(cursor, cap);
    RunKeeps(cursor, cap, Start(), steps);
    RunEnds(cursor, cap, Start(), steps);
    var w := Run(cursor, cap, Start(), steps);
    RowsOfGrows(cursor, Answers(w), w.pulls);
    var stream := Flat(w.sent) + Pending(w.pc);
    assert Flat(w.sent) == stream[..|Flat(w.sent)|];
  }

  /** Past the pause loop, at the wait for a slot, with the receiver gone. */
  lemma ReachClosedSlot<R(!new)>(cursor: nat -> Answer<R>, cap: nat)
    requires cap > 0
    ensures var a := Next(cursor, cap, Next(cursor, cap, Start<R>(), Own(Check)), Own(LoadPaused));
            var b := Next(cursor, cap, Next(cursor, cap, a, Own(ListenAgain)), Own(PollCancel));
            var c := Next(cursor, cap, Next(cursor, cap, b, Own(PollWake)), Outside(CloseReceiver));
            Next(cursor, cap, c, Own(PollSlot)) == Start<R>().(pc := Ended(Done), open := false)
  {
    var start: World<R> := Start();
    var a := Next(cursor, cap, Next(cursor, cap, start, Own(Check)), Own(LoadPaused));
    assert a == start.(pc := AfterPause);
    var b := Next(cursor, cap, Next(cursor, cap, a, Own(ListenAgain)), Own(PollCancel));
    assert b == start.(pc := AtWake);
  }

  /** A store that goes away first: done, and not one row was asked for. */
  lemma ClosedBeforeReading<R(!new)>(cursor: nat -> Answer<R>, cap: nat)
    requires cap > 0
    ensures var w := Run(cursor, cap, Start(),
                         [Own(Check), Own(LoadPaused), Own(ListenAgain), Own(PollCancel), Own(PollWake),
                          Outside(CloseReceiver), Own(PollSlot)]);
            w.pc == Ended(Done) && w.sent == [] && w.pulls == 0
  {
    hide Next;
    var start: World<R> := Start();
    var a := Next(cursor, cap, Next(cursor, cap, start, Own(Check)), Own(LoadPaused));
    var b := Next(cursor, cap, Next(cursor, cap, a, Own(ListenAgain)), Own(PollCancel));
    var c := Next(cursor, cap, Next(cursor, cap, b, Own(PollWake)), Outside(CloseReceiver));
    var last := [Own(PollSlot)];
    var wait := [Own(PollWake), Outside(CloseReceiver)] + last;
    var all := [Own(ListenAgain), Own(PollCancel)] + wait;
    ReachClosedSlot(cursor, cap);
    RunOne(cursor, cap, c, Own(PollSlot));
    RunTwo(cursor, cap, b, Own(PollWake), Outside(CloseReceiver), last);
    RunTwo(cursor, cap, a, Own(ListenAgain), Own(PollCancel), wait);
    RunTwo(cursor, cap, start, Own(Check), Own(LoadPaused), all);
    assert [Own(Check), Own(LoadPaused)] + all
        == [Own(Check), Own(LoadPaused), Own(ListenAgain), Own(PollCancel), Own(PollWake), Outside(CloseReceiver), Own(PollSlot)];
  }

  lemma RunOne<R(!new)>(cursor: nat -> Answer<R>, cap: nat, w: World<R>, s: Step)
    ensures Run(cursor, cap, w, [s]) == Next(cursor, cap, w, s)
  {
    assert [s][1..] == [];
  }

  /**
    Backpressure: the cursor is never asked more than two times beyond what the store has taken, and
    what waits in the channel is what was sent after that, in order.
   */
  lemma PullsAreBounded<R(!new)>(cursor: nat -> Answer<R>, cap: nat, steps: seq<Step>)
    ensures var w := Run(cursor, cap, Start(), steps);
            && w.pulls <= w.received + 2 && |w.queue| <= 2
            && w.received <= |w.sent| && w.queue == w.sent[w.received..]
  {
    RunKeeps(cursor, cap, Start(), steps);
  }

  /** A task asleep in the pause loop is paused, or has been notified, or is about to be. */
  lemma NoResumeIsLost<R(!new)>(cursor: nat -> Answer<R>, cap: nat, steps: seq<Step>)
    requires Run(cursor, cap, Start(), steps).pc.Sleeping?
    ensures var w := Run(cursor, cap, Start(), steps);
            w.paused || w.woken || SomeoneResumes(w.callers)
  {
    RunKeeps(cursor, cap, Start(), steps);
  }

  // ---- The ordinary course. ----

  /** These steps, each of which can happen, lead from one state to the other. */
  ghost predicate Leads<R>(cursor: nat -> Answer<R>, cap: nat, w: World<R>, steps: seq<Step>, n: World<R>)
    decreases |steps|
  {
    if steps == [] then n == w
    else Enabled(w, steps[0]) && Leads(cursor, cap, Perform(cursor, cap, w, steps[0]), steps[1..], n)
  }

  lemma {:induction false} LeadsRuns<R(!new)>(cursor: nat -> Answer<R>, cap: nat, w: World<R>, steps: seq<Step>, n: World<R>)
    requires Leads(cursor, cap, w, steps, n)
    ensures Run(cursor, cap, w, steps) == n
    decreases |steps|
  {
    if steps != [] {
      LeadsRuns(cursor, cap, Perform(cursor, cap, w, steps[0]), steps[1..], n);
    }
  }

  /** With a slot free and nothing in between, the wait for a slot ends in a pull. */
  lemma SlotToPull<R(!new)>(cursor: nat -> Answer<R>, cap: nat, w: World<R>)
    requires w.pc.AtSlot? && !w.cancelled && w.open && |w.queue| < 2
    ensures Leads(cursor, cap, w, [Own(PollSlot)] + ([Own(LookAtCancel)] + [Own(StartPull)]),
              w.(pc := Answering, pulls := w.pulls + 1, pulledSincePark := w.pulledSincePark + 1))
  {
    var done := w.(pc := Answering, pulls := w.pulls + 1, pulledSincePark := w.pulledSincePark + 1);
    assert [Own(StartPull)] + [] == [Own(StartPull)];
    Then(cursor, cap, w.(pc := Starting), Own(StartPull), [], done);
    Then(cursor, cap, w.(pc := Holding), Own(LookAtCancel), [Own(StartPull)], done);
    Then(cursor, cap, w, Own(PollSlot), [Own(LookAtCancel)] + [Own(StartPull)], done);
  }

  /** With nothing to wait for, the feeder comes from the top of its loop to a pull. */
  lemma ComesToPull<R(!new)>(cursor: nat -> Answer<R>, cap: nat, w: World<R>)
    requires w.pc.Top? && !w.cancelled && !w.paused && w.open && w.rows < cap && |w.queue| < 2
    ensures Run(cursor, cap, w,
              [Own(Check), Own(LoadPaused), Own(ListenAgain), Own(PollCancel), Own(PollWake), Own(PollSlot),
               Own(LookAtCancel), Own(StartPull)])
         == w.(pc := Answering, woken := false, pulls := w.pulls + 1, pulledSincePark := w.pulledSincePark + 1)
  {
    hide Leads;
    var done := w.(pc := Answering, woken := false, pulls := w.pulls + 1, pulledSincePark := w.pulledSincePark + 1);
    var quiet := w.(woken := false);
    var late := [Own(PollSlot)] + ([Own(LookAtCancel)] + [Own(StartPull)]);
    SlotToPull(cursor, cap, quiet.(pc := AtSlot));
    Then(cursor, cap, quiet.(pc := AtWake), Own(PollWake), late, done);
    Then(cursor, cap, quiet.(pc := AtCancel), Own(PollCancel), [Own(PollWake)] + late, done);
    Then(cursor, cap, quiet.(pc := AfterPause), Own(ListenAgain), [Own(PollCancel)] + ([Own(PollWake)] + late), done);
    var middle := [Own(ListenAgain)] + ([Own(PollCancel)] + ([Own(PollWake)] + late));
    Then(cursor, cap, quiet.(pc := Listening), Own(LoadPaused), middle, done);
    Then(cursor, cap, w, Own(Check), [Own(LoadPaused)] + middle, done);
    LeadsRuns(cursor, cap, w, [Own(Check)] + ([Own(LoadPaused)] + middle), done);
    assert [Own(Check)] + ([Own(LoadPaused)] + middle)
        == [Own(Check), Own(LoadPaused), Own(ListenAgain), Own(PollCancel), Own(PollWake), Own(PollSlot),
            Own(LookAtCancel), Own(StartPull)];
  }

  lemma Then<R(!new)>(cursor: nat -> Answer<R>, cap: nat, w: World<R>, first: Step, rest: seq<Step>, n: World<R>)
    requires Enabled(w, first)
    requires if rest == [] then n == Perform(cursor, cap, w, first) else Leads(cursor, cap, Perform(cursor, cap, w, first), rest, n)
    ensures Leads(cursor, cap, w, [first] + rest, n)
  {
    assert ([first] + rest)[1..] == rest;
  }

  /**
    A pull that brings rows sends them on, cut at the cap, and the feeder starts over or has reached the
    cap; any other answer ends it as the cursor ended.
   */
  lemma PullCourse<R(!new)>(cursor: nat -> Answer<R>, cap: nat, w: World<R>)
    requires w.pc.Answering? && w.pulls > 0 && w.rows <= cap
    ensures var n := Run(cursor, cap, w, [Own(TakeAnswer), Own(Send)]);
            match cursor(w.pulls - 1)
            case Rows(rows) =>
              var batch := if |rows| <= cap - w.rows then rows else rows[..cap - w.rows];
              n == w.(rows := w.rows + |batch|, sent := w.sent + [batch], queue := w.queue + [batch],
                      pc := if w.rows + |rows| >= cap then Ended(Capped) else Top)
            case Exhausted => n == w.(pc := Ended(Done))
            case CursorCancelled => n == w.(pc := Ended(Cancelled))
            case Failure => n == w.(pc := Ended(Failed))
  {
    var answered := Moved(cursor, cap, w, TakeAnswer);
    assert [Own(TakeAnswer), Own(Send)] == [Own(TakeAnswer)] + [Own(Send)];
    if answered.pc.Counted? {
      Then(cursor, cap, answered, Own(Send), [], Moved(cursor, cap, answered, Send));
      assert [Own(Send)] + [] == [Own(Send)];
      Then(cursor, cap, w, Own(TakeAnswer), [Own(Send)], Moved(cursor, cap, answered, Send));
      LeadsRuns(cursor, cap, w, [Own(TakeAnswer), Own(Send)], Moved(cursor, cap, answered, Send));
    } else {
      RunTwo(cursor, cap, w, Own(TakeAnswer), Own(Send), []);
      assert [Own(TakeAnswer), Own(Send)] + [] == [Own(TakeAnswer), Own(Send)];
    }
  }

  /** A paused feeder goes to sleep before it asks for a slot, and a resume wakes it up again. */
  lemma ParkCourse<R(!new)>(cursor: nat -> Answer<R>, cap: nat, w: World<R>, c: nat)
    requires w.pc.Top? && !w.cancelled && w.paused && w.rows < cap && c !in w.callers
    ensures Run(cursor, cap, w, [Own(Check), Own(LoadPaused)]) == w.(pc := Sleeping, woken := false)
    ensures Run(cursor, cap, w.(pc := Sleeping, woken := false),
              [Outside(Resume(c)), Outside(Notify(c)), Own(WakeUp), Own(LoadPaused)])
         == w.(pc := AfterPause, woken := false, paused := false)
  {
    var asleep := w.(pc := Sleeping, woken := false);
    RunTwo(cursor, cap, w, Own(Check), Own(LoadPaused), []);
    assert [Own(Check), Own(LoadPaused)] + [] == [Own(Check), Own(LoadPaused)];
    var told := [Own(WakeUp), Own(LoadPaused)];
    var woken := Next(cursor, cap, Next(cursor, cap, asleep, Outside(Resume(c))), Outside(Notify(c)));
    RunTwo(cursor, cap, asleep, Outside(Resume(c)), Outside(Notify(c)), told);
    assert [Outside(Resume(c)), Outside(Notify(c))] + told
        == [Outside(Resume(c)), Outside(Notify(c)), Own(WakeUp), Own(LoadPaused)];
    RunTwo(cursor, cap, woken, Own(WakeUp), Own(LoadPaused), []);
    assert told + [] == told;
    assert w.callers[c := Resuming] - {c} == w.callers;
  }

  /** A stop is seen wherever the feeder waits: asleep, for a slot, for its answer, or at the top of its loop. */
  lemma StopCourse<R(!new)>(cursor: nat -> Answer<R>, cap: nat, w: World<R>)
    requires w.cancelled
    ensures w.pc.Top? ==> Run(cursor, cap, w, [Own(Check)]).pc == Ended(Cancelled)
    ensures w.pc.Sleeping? ==> Run(cursor, cap, w, [Own(SeeCancel)]).pc == Ended(Cancelled)
    ensures w.pc.AtCancel? ==> Run(cursor, cap, w, [Own(PollCancel)]).pc == Ended(Cancelled)
    ensures w.pc.Holding? || w.pc.Pulling? ==> Run(cursor, cap, w, [Own(LookAtCancel)]).pc == Ended(Cancelled)
    ensures w.pc.AtSlot? && w.open && |w.queue| >= 2 ==> Run(cursor, cap, w, [Own(PollSlot)]).pc == AtCancel
    ensures w.pc.Answering? ==> Run(cursor, cap, w, [Own(NotReady)]).pc == Pulling
  {
    RunOne(cursor, cap, w, Own(Check));
    RunOne(cursor, cap, w, Own(SeeCancel));
    RunOne(cursor, cap, w, Own(PollCancel));
    RunOne(cursor, cap, w, Own(LookAtCancel));
    RunOne(cursor, cap, w, Own(PollSlot));
    RunOne(cursor, cap, w, Own(NotReady));
  }

  /** What the others do: a stop cancels and wakes, a park pauses and wakes, a token or a store that is gone is seen later. */
  lemma OthersCourse<R(!new)>(cursor: nat -> Answer<R>, cap: nat, w: World<R>, c: nat)
    requires c !in w.callers
    ensures Run(cursor, cap, w, [Outside(Stop(c)), Outside(Notify(c))]) == w.(cancelled := true, woken := true)
    ensures Run(cursor, cap, w, [Outside(Park(c)), Outside(Notify(c))])
         == w.(paused := true, woken := true, pulledSincePark := if w.paused then w.pulledSincePark else 0)
    ensures Run(cursor, cap, w, [Outside(CancelToken)]) == w.(cancelled := true)
    ensures Run(cursor, cap, w, [Outside(CloseReceiver)]) == w.(open := false)
    ensures w.open && w.queue != [] ==>
              Run(cursor, cap, w, [Outside(Receive)]) == w.(queue := w.queue[1..], received := w.received + 1)
  {
    RunTwo(cursor, cap, w, Outside(Stop(c)), Outside(Notify(c)), []);
    assert [Outside(Stop(c)), Outside(Notify(c))] + [] == [Outside(Stop(c)), Outside(Notify(c))];
    RunTwo(cursor, cap, w, Outside(Park(c)), Outside(Notify(c)), []);
    assert [Outside(Park(c)), Outside(Notify(c))] + [] == [Outside(Park(c)), Outside(Notify(c))];
    assert w.callers[c := Stopping] - {c} == w.callers && w.callers[c := Parking] - {c} == w.callers;
    RunOne(cursor, cap, w, Outside(CancelToken));
    RunOne(cursor, cap, w, Outside(CloseReceiver));
    RunOne(cursor, cap, w, Outside(Receive));
  }

  // ---- Pulls of a parked feeder. ----

  predicate ResumeFree(steps: seq<Step>) {
    forall s | s in steps :: !(s.Outside? && s.event.Resume?)
  }

  /** The pause flag has been passed, and nothing that has happened yet will be seen before the pull. */
  predicate PullOnItsWay<R>(w: World<R>) {
    || w.pc.Starting?
    || (!w.cancelled && w.pc.Holding?)
    || (!w.cancelled && w.open && (w.pc.AfterPause? || w.pc.AtSlot? || ((w.pc.AtCancel? || w.pc.AtWake?) && !w.woken)))
  }

  function PullsLeft<R>(w: World<R>): nat {
    if PullOnItsWay(w) then 1 else 0
  }

  /** No pull is gained by a step: one that was on its way has been made, or is still on its way, or is lost. */
  predicate GainsNoPull<R>(w: World<R>, n: World<R>) {
    n.paused && w.pulls <= n.pulls && n.pulls + PullsLeft(n) <= w.pulls + PullsLeft(w)
  }

  lemma ParkedMovePulls<R(!new)>(cursor: nat -> Answer<R>, cap: nat, w: World<R>, move: Move)
    requires w.paused && CanMove(w, move)
    ensures GainsNoPull(w, Moved(cursor, cap, w, move))
  {
    hide Truncated;
  }

  lemma ParkedEventPulls<R(!new)>(w: World<R>, event: Event)
    requires w.paused && CanHappen(w, event) && !event.Resume?
    ensures GainsNoPull(w, Happened(w, event))
  {
  }

  lemma {:induction false} ParkedRunPulls<R(!new)>(cursor: nat -> Answer<R>, cap: nat, w: World<R>, steps: seq<Step>)
    requires w.paused && ResumeFree(steps)
    ensures GainsNoPull(w, Run(cursor, cap, w, steps))
    decreases |steps|
  {
    hide Moved, Happened, CanMove, CanHappen, PullOnItsWay;
    if steps != [] {
      if Enabled(w, steps[0]) {
        if steps[0].Own? {
          ParkedMovePulls(cursor, cap, w, steps[0].move);
        } else {
          ParkedEventPulls(w, steps[0].event);
        }
        ParkedRunPulls(cursor, cap, Perform(cursor, cap, w, steps[0]), steps[1..]);
      } else {
        ParkedRunPulls(cursor, cap, w, steps[1..]);
      }
    }
  }

  /** Room is made if there is none, and nobody else interferes. Steps that do not apply are passed over. */
  const LAST_PULL: seq<Step> :=
    [Own(ListenAgain), Own(PollCancel), Own(PollWake), Outside(Receive), Own(PollSlot), Own(LookAtCancel), Own(StartPull)]

  function Next<R>(cursor: nat -> Answer<R>, cap: nat, w: World<R>, step: Step): World<R> {
    if Enabled(w, step) then Perform(cursor, cap, w, step) else w
  }

  lemma RunTwo<R(!new)>(cursor: nat -> Answer<R>, cap: nat, w: World<R>, s: Step, t: Step, rest: seq<Step>)
    ensures Run(cursor, cap, w, [s, t] + rest)
         == Run(cursor, cap, Next(cursor, cap, Next(cursor, cap, w, s), t), rest)
  {
    var steps := [s, t] + rest;
    assert steps[1..][0] == t && steps[1..][1..] == rest;
  }

  /** At the wait for a slot, or past it, with nothing in the way. */
  predicate SlotAhead<R>(w: World<R>) {
    |w.queue| <= CHANNEL && (w.pc.Starting? || (!w.cancelled && (w.pc.Holding? || (w.open && w.pc.AtSlot?))))
  }

  lemma ReachSlot<R(!new)>(cursor: nat -> Answer<R>, cap: nat, w: World<R>)
    requires PullOnItsWay(w) && |w.queue| <= CHANNEL
    ensures var a := Next(cursor, cap, w, Own(ListenAgain));
            var b := Next(cursor, cap, Next(cursor, cap, a, Own(PollCancel)), Own(PollWake));
            SlotAhead(b) && b.pulls == w.pulls
  {
  }

  lemma SlotPulls<R(!new)>(cursor: nat -> Answer<R>, cap: nat, w: World<R>)
    requires SlotAhead(w)
    ensures var c := Next(cursor, cap, Next(cursor, cap, w, Outside(Receive)), Own(PollSlot));
            Next(cursor, cap, Next(cursor, cap, c, Own(LookAtCancel)), Own(StartPull)).pulls == w.pulls + 1
  {
  }

  lemma LastPullHappens<R(!new)>(cursor: nat -> Answer<R>, cap: nat, w: World<R>)
    requires PullOnItsWay(w) && |w.queue| <= CHANNEL
    ensures ResumeFree(LAST_PULL) && Run(cursor, cap, w, LAST_PULL).pulls == w.pulls + 1
  {
    hide Enabled, Perform, SlotAhead;
    var a := Next(cursor, cap, w, Own(ListenAgain));
    var b := Next(cursor, cap, Next(cursor, cap, a, Own(PollCancel)), Own(PollWake));
    var c := Next(cursor, cap, Next(cursor, cap, b, Outside(Receive)), Own(PollSlot));
    ReachSlot(cursor, cap, w);
    SlotPulls(cursor, cap, b);
    var last := [Own(LookAtCancel), Own(StartPull)];
    var wait := [Outside(Receive), Own(PollSlot)] + last;
    RunTwo(cursor, cap, c, Own(LookAtCancel), Own(StartPull), []);
    RunTwo(cursor, cap, b, Outside(Receive), Own(PollSlot), last);
    RunTwo(cursor, cap, a, Own(PollCancel), Own(PollWake), wait);
    assert last == [Own(LookAtCancel), Own(StartPull)] + [];
    assert LAST_PULL[1..] == [Own(PollCancel), Own(PollWake)] + wait;
  }

  /**
    A parked feeder starts at most one more pull before it is resumed, and can start one exactly when
    it had passed the pause flag and nothing already done will hold it up.
   */
  lemma {:induction false} ParkedPullExactly<R(!new)>(cursor: nat -> Answer<R>, cap: nat, steps: seq<Step>)
    requires Run(cursor, cap, Start(), steps).paused
    ensures var w := Run(cursor, cap, Start(), steps);
            && (forall more | ResumeFree(more) ::
                  w.pulls <= Run(cursor, cap, w, more).pulls <= w.pulls + PullsLeft(w))
            && ((exists more :: ResumeFree(more) && Run(cursor, cap, w, more).pulls > w.pulls) <==> PullOnItsWay(w))
  {
    var w := Run(cursor, cap, Start(), steps);
    forall more | ResumeFree(more)
      ensures w.pulls <= Run(cursor, cap, w, more).pulls <= w.pulls + PullsLeft(w)
    {
      ParkedRunPulls(cursor, cap, w, more);
    }
    if PullOnItsWay(w) {
      RunKeeps(cursor, cap, Start(), steps);
      LastPullHappens(cursor, cap, w);
    }
  }

  /** Parked between the pause flag and the wait for a slot: the first pull goes ahead all the same. */
  lemma ParkedFeederPulls<R(!new)>(cursor: nat -> Answer<R>, cap: nat)
    requires cap > 0
    ensures var w := Run(cursor, cap, Start(), [Own(Check), Own(LoadPaused), Outside(Park(0))]);
            && w.paused && w.pulls == 0
            && Run(cursor, cap, w, LAST_PULL).paused && Run(cursor, cap, w, LAST_PULL).pulls == 1
  {
    var start: World<R> := Start();
    RunTwo(cursor, cap, start, Own(Check), Own(LoadPaused), [Outside(Park(0))]);
    assert [Own(Check), Own(LoadPaused)] + [Outside(Park(0))] == [Own(Check), Own(LoadPaused), Outside(Park(0))];
    var w := Run(cursor, cap, start, [Own(Check), Own(LoadPaused), Outside(Park(0))]);
    var passed := Next(cursor, cap, Next(cursor, cap, start, Own(Check)), Own(LoadPaused));
    assert [Outside(Park(0))][1..] == [];
    assert w == Next(cursor, cap, passed, Outside(Park(0)));
    LastPullHappens(cursor, cap, w);
    ParkedRunPulls(cursor, cap, w, LAST_PULL);
  }

  /** Over the whole time it has been parked, a feeder has started at most one pull. */
  lemma ParkingStopsPulls<R(!new)>(cursor: nat -> Answer<R>, cap: nat, steps: seq<Step>)
    requires Run(cursor, cap, Start(), steps).paused
    ensures Run(cursor, cap, Start(), steps).pulledSincePark <= 1
  {
    RunKeeps(cursor, cap, Start(), steps);
  }
}

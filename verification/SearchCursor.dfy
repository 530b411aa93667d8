/**
  Point-in-time paging of an Elasticsearch search: the cursor's own state, the class that updates
  it, and what a client receives from a fixed, strictly ordered snapshot.
 */
module SearchCursor {
  import opened Wrappers

  const MAX_PAGE_SIZE := 10_000

  /** One hit: its place in the total sort order (sort values plus tiebreaker) and its document. */
  datatype Hit<D> = Hit(sort: int, doc: D)

  datatype Hint = Hint(maxRows: nat, maxBytes: nat)

  /**
    What the server does with one search: nothing useful; a full answer; or a partial one, with
    some shards failed and whatever hits the others returned.
   */
  datatype Answer<D> =
    | Failure
    | Complete(bytes: nat, pitId: Option<string>)
    | Partial(hits: seq<Hit<D>>, partialBytes: nat, partialPit: Option<string>)

  datatype CursorError = Closed | SearchFailed | ShardsFailed

  /** What one call hands out. */
  datatype Outcome<D> = Batch(hits: seq<Hit<D>>) | End | Fault(error: CursorError)

  datatype State = State(
    context: Option<string>,
    lastSort: Option<int>,
    remaining: Option<nat>,
    delivered: nat,
    exhausted: bool,
    closed: bool,
    byteCap: Option<nat>,
    releases: seq<string>)

  /** What a paused scan leaves behind. */
  datatype Token = Token(id: string, sort: int, delivered: nat, remaining: Option<nat>)

  function Min(a: int, b: int): int {
    if a <= b then a else b
  }

  function Clamp(n: int, low: int, high: int): int
    requires low <= high
  {
    if n < low then low else if n > high then high else n
  }

  // ---- The server. ----

  predicate Ordered<D>(hits: seq<Hit<D>>) {
    forall i, j | 0 <= i < j < |hits| :: hits[i].sort < hits[j].sort
  }

  /** How many hits `search_after` skips. */
  function Skipped<D>(hits: seq<Hit<D>>, after: Option<int>): (n: nat)
    ensures n <= |hits|
  {
    if after.None? || hits == [] || hits[0].sort > after.value then 0 else 1 + Skipped(hits[1..], after)
  }

  function Search<D>(hits: seq<Hit<D>>, after: Option<int>, size: nat): seq<Hit<D>> {
    var rest := hits[Skipped(hits, after)..];
    if |rest| <= size then rest else rest[..size]
  }

  // ---- One call, as a function of the state. ----

  function Opened(pitId: string): State {
    State(Some(pitId), None, None, 0, false, false, None, [])
  }

  function PageSize(st: State, hint: Hint): (size: nat)
    requires st.remaining != Some(0)
    ensures 1 <= size <= MAX_PAGE_SIZE
    ensures st.remaining.Some? ==> size <= st.remaining.value
    ensures size <= hint.maxRows || hint.maxRows == 0
  {
    var hinted := Clamp(hint.maxRows, 1, MAX_PAGE_SIZE);
    var capped := if st.byteCap.Some? then Min(hinted, if st.byteCap.value < 1 then 1 else st.byteCap.value) else hinted;
    if st.remaining.Some? then
      var left := Min(capped, Min(st.remaining.value, MAX_PAGE_SIZE));
      if left < 1 then 1 else left
    else capped
  }

  /** `release_context`: give the context back if one is held; an empty id was never opened. */
  function Release(st: State): State {
    if st.context.None? then st
    else
      st.(context := None,
          releases := if st.context.value == "" then st.releases else st.releases + [st.context.value])
  }

  function HitsOf<D>(server: seq<Hit<D>>, st: State, size: nat, answer: Answer<D>): seq<Hit<D>>
    requires !answer.Failure?
  {
    match answer
    case Complete(_, _) => Search(server, st.lastSort, size)
    case Partial(hits, _, _) => hits
  }

  function BytesOf<D>(answer: Answer<D>): nat {
    match answer
    case Failure => 0
    case Complete(bytes, _) => bytes
    case Partial(_, bytes, _) => bytes
  }

  function PitOf<D>(answer: Answer<D>): Option<string> {
    match answer
    case Failure => None
    case Complete(_, pit) => pit
    case Partial(_, _, pit) => pit
  }

  function ScaledCap(returned: nat, maxBytes: nat, bytes: nat): nat {
    Clamp(returned * maxBytes / (if bytes < 1 then 1 else bytes), 1, MAX_PAGE_SIZE)
  }

  function NextByteCap(cap: Option<nat>, hint: Hint, returned: nat, bytes: nat): Option<nat> {
    if bytes > hint.maxBytes && returned > 1 then
      Some(ScaledCap(returned, hint.maxBytes, bytes))
    else if bytes * 2 < hint.maxBytes then None
    else cap
  }

  /** The state after the hits of a page were taken in, before the context is looked at. */
  function Absorb<D>(st: State, size: nat, hits: seq<Hit<D>>, cap: Option<nat>): State {
    var returned := |hits|;
    var left :=
      if st.remaining.None? then None
      else Some(if returned > st.remaining.value then 0 else st.remaining.value - returned);
    st.(lastSort := if hits == [] then st.lastSort else Some(hits[returned - 1].sort),
        delivered := st.delivered + returned,
        remaining := left,
        exhausted := st.exhausted || returned < size || left == Some(0),
        byteCap := cap)
  }

  function Step<D>(server: seq<Hit<D>>, st: State, hint: Hint, answer: Answer<D>): (State, Outcome<D>) {
    if st.closed then (st, Fault(Closed))
    else if st.exhausted then (st, End)
    else if st.remaining == Some(0) then (Release(st.(exhausted := true)), End)
    else
      var size := PageSize(st, hint);
      if answer.Failure? then (Release(st).(exhausted := true), Fault(SearchFailed))
      else
        var pit := PitOf(answer);
        var open := if pit.Some? then st.(context := pit) else st;
        var hits := HitsOf(server, st, size, answer);
        if answer.Partial? && hits == [] then (Release(open).(exhausted := true), Fault(ShardsFailed))
        else
          var after := Absorb(open, size, hits, NextByteCap(st.byteCap, hint, |hits|, BytesOf(answer)));
          (if after.exhausted then Release(after) else after, if hits == [] then End else Batch(hits))
  }

  function Close(st: State): State {
    Release(st.(closed := true))
  }

  function ResumeToken(st: State): Option<Token> {
    if st.context.Some? && st.context.value != "" && st.lastSort.Some? then
      Some(Token(st.context.value, st.lastSort.value, st.delivered, st.remaining))
    else None
  }

  function FromResume(token: Token, freshPit: Option<string>): State {
    State(Some(if freshPit.Some? then freshPit.value else token.id),
          Some(token.sort), token.remaining, token.delivered, false, false, None, [])
  }

  // ---- The cursor as the driver keeps it: fields updated call by call. ----

  class Cursor<D> {
    const server: seq<Hit<D>>
    var context: Option<string>
    var lastSort: Option<int>
    var remaining: Option<nat>
    var delivered: nat
    var exhausted: bool
    var closed: bool
    var byteCap: Option<nat>
    var releases: seq<string>

    function View(): State
      reads this
    {
      State(context, lastSort, remaining, delivered, exhausted, closed, byteCap, releases)
    }

    constructor (server: seq<Hit<D>>, pitId: string, limit: Option<nat>)
      ensures this.server == server && View() == Opened(pitId).(remaining := limit)
    {
      this.server := server;
      context, lastSort, remaining, delivered := Some(pitId), None, limit, 0;
      exhausted, closed, byteCap, releases := false, false, None, [];
    }

    constructor FromToken(server: seq<Hit<D>>, token: Token, freshPit: Option<string>)
      ensures this.server == server && View() == FromResume(token, freshPit)
    {
      this.server := server;
      context := Some(if freshPit.Some? then freshPit.value else token.id);
      lastSort, remaining, delivered := Some(token.sort), token.remaining, token.delivered;
      exhausted, closed, byteCap, releases := false, false, None, [];
    }

    method ReleaseContext()
      modifies this`context, this`releases
      ensures View() == Release(old(View()))
    {
      if context.Some? {
        if context.value != "" {
          releases := releases + [context.value];
        }
        context := None;
      }
    }

    method TrackSort(hits: seq<Hit<D>>)
      modifies this`lastSort
      ensures lastSort == if hits == [] then old(lastSort) else Some(hits[|hits| - 1].sort)
    {
      for i := 0 to |hits|
        invariant lastSort == if i == 0 then old(lastSort) else Some(hits[i - 1].sort)
      {
        lastSort := Some(hits[i].sort);
      }
    }

    /** Takes the hits of a page in: position, counters, and whether the scan is over. */
    method TakeIn(hint: Hint, size: nat, hits: seq<Hit<D>>, bytes: nat)
      modifies this`lastSort, this`delivered, this`remaining, this`exhausted, this`byteCap
      ensures View() == Absorb(old(View()), size, hits, NextByteCap(old(byteCap), hint, |hits|, bytes))
    {
      hide NextByteCap;
      TrackSort(hits);
      var returned := |hits|;
      if returned < size {
        exhausted := true;
      }
      delivered := delivered + returned;
      if remaining.Some? {
        remaining := Some(if returned > remaining.value then 0 else remaining.value - returned);
        if remaining == Some(0) {
          exhausted := true;
        }
      }
      AdjustCap(hint, returned, bytes);
    }

    /** A page over the byte hint lowers the page size in proportion; one under half of it lifts the cap. */
    method AdjustCap(hint: Hint, returned: nat, bytes: nat)
      modifies this`byteCap
      ensures byteCap == NextByteCap(old(byteCap), hint, returned, bytes)
    {
      if bytes > hint.maxBytes && returned > 1 {
        byteCap := Some(ScaledCap(returned, hint.maxBytes, bytes));
      } else if bytes * 2 < hint.maxBytes {
        byteCap := None;
      }
    }

    method NextBatch(hint: Hint, answer: Answer<D>) returns (r: Outcome<D>)
      modifies this
      ensures (View(), r) == Step(server, old(View()), hint, answer)
    {
      if closed {
        return Fault(Closed);
      }
      if exhausted {
        return End;
      }
      if remaining == Some(0) {
        exhausted := true;
        ReleaseContext();
        return End;
      }
      var size := PageSize(View(), hint);
      if answer.Failure? {
        ReleaseContext();
        exhausted := true;
        return Fault(SearchFailed);
      }
      var hits := HitsOf(server, View(), size, answer);
      if PitOf(answer).Some? {
        context := PitOf(answer);
      }
      if answer.Partial? && hits == [] {
        ReleaseContext();
        exhausted := true;
        return Fault(ShardsFailed);
      }
      TakeIn(hint, size, hits, BytesOf(answer));
      if exhausted {
        ReleaseContext();
      }
      r := if hits == [] then End else Batch(hits);
    }

    method CloseCursor()
      modifies this
      ensures View() == Close(old(View()))
    {
      closed := true;
      ReleaseContext();
    }
  }

  // ---- Draining. ----

  /** A client's calls, each with its fetch hint and how large the answer happened to be. */
  datatype Call = Call(hint: Hint, bytes: nat, pitId: Option<string>)

  function AnswerTo<D>(call: Call): Answer<D> {
    Complete(call.bytes, call.pitId)
  }

  /** Calls until the cursor says it is done, or the client stops. */
  function Run<D>(server: seq<Hit<D>>, st: State, calls: seq<Call>): (State, seq<Hit<D>>)
    decreases |calls|
  {
    if calls == [] then (st, [])
    else
      var (next, outcome) := Step(server, st, calls[0].hint, AnswerTo(calls[0]));
      var (last, rest) := Run(server, next, calls[1..]);
      (last, HitsIn(outcome) + rest)
  }

  predicate Live(st: State) {
    !st.closed && (st.exhausted ==> st.context.None?)
  }

  function Position<D>(server: seq<Hit<D>>, st: State): (n: nat)
    ensures n <= |server|
  {
    Skipped(server, st.lastSort)
  }

  /** How many more hits the scan owes its client. */
  function Owed<D>(server: seq<Hit<D>>, st: State): nat {
    var left := |server| - Position(server, st);
    if st.exhausted then 0 else if st.remaining.Some? then Min(st.remaining.value, left) else left
  }

  lemma {:induction false} SkippedAt<D(!new)>(hits: seq<Hit<D>>, k: nat)
    requires Ordered(hits) && k < |hits|
    ensures Skipped(hits, Some(hits[k].sort)) == k + 1
    decreases k
  {
    if k > 0 {
      SkippedAt(hits[1..], k - 1);
      assert hits[0].sort < hits[k].sort;
    } else if |hits| > 1 {
      assert hits[1..][0].sort > hits[0].sort;
    }
  }

  /**
    Getting from `st` to `next` handed out exactly the stretch of the snapshot between their two
    positions, in order, and kept every count: what was owed is what came plus what is still owed,
    and the limit is shared out between `delivered` and `remaining`.
   */
  ghost predicate Delivers<D>(server: seq<Hit<D>>, st: State, next: State, hits: seq<Hit<D>>) {
    var p, q := Position(server, st), Position(server, next);
    && Live(next)
    && p <= q && hits == server[p..q]
    && q - p + Owed(server, next) == Owed(server, st)
    && next.delivered == st.delivered + (q - p)
    && (if st.remaining.Some? then next.remaining == Some(st.remaining.value - (q - p)) else next.remaining.None?)
  }

  function HitsIn<D>(outcome: Outcome<D>): seq<Hit<D>> {
    if outcome.Batch? then outcome.hits else []
  }

  /** A page is the next stretch of the snapshot, and searching after its last hit skips exactly it. */
  lemma PageAdvances<D(!new)>(server: seq<Hit<D>>, after: Option<int>, size: nat)
    requires Ordered(server)
    ensures var page := Search(server, after, size);
            var p := Skipped(server, after);
            && |page| == Min(size, |server| - p)
            && page == server[p..p + |page|]
            && (page != [] ==> Skipped(server, Some(page[|page| - 1].sort)) == p + |page|)
  {
    var page := Search(server, after, size);
    var p := Skipped(server, after);
    if page != [] {
      assert page[|page| - 1] == server[p + |page| - 1];
      SkippedAt(server, p + |page| - 1);
    }
  }

  /** Taking a page in moves the position past it and the counters with it. */
  lemma AbsorbDelivers<D(!new)>(
    server: seq<Hit<D>>, st: State, size: nat, page: seq<Hit<D>>, cap: Option<nat>, p: nat, q: nat)
    requires Live(st) && !st.exhausted
    requires 1 <= size && (st.remaining.Some? ==> size <= st.remaining.value)
    requires p == Position(server, st) && q == Position(server, Absorb(st, size, page, cap))
    requires p <= q && page == server[p..q] && q - p == Min(size, |server| - p)
    ensures var taken := Absorb(st, size, page, cap);
            Delivers(server, st, if taken.exhausted then Release(taken) else taken, page)
  {
    assert |page| == q - p;
  }

  /** A call on a finished scan hands out nothing and changes nothing but the context it holds. */
  lemma FinishedDelivers<D(!new)>(server: seq<Hit<D>>, st: State, call: Call)
    requires Live(st) && (st.exhausted || st.remaining == Some(0))
    ensures var (next, outcome) := Step(server, st, call.hint, AnswerTo(call));
            outcome == End && next.exhausted && Delivers(server, st, next, [])
  {
    assert server[Position(server, st)..Position(server, st)] == [];
  }

  lemma PageDelivers<D(!new)>(server: seq<Hit<D>>, st: State, call: Call)
    requires Ordered(server) && Live(st) && !st.exhausted && st.remaining != Some(0)
    ensures var (next, outcome) := Step(server, st, call.hint, AnswerTo(call));
            var page := Search(server, st.lastSort, PageSize(st, call.hint));
            && outcome == (if page == [] then End else Batch(page))
            && (page == [] ==> next.exhausted)
            && Delivers(server, st, next, page)
  {
    var size := PageSize(st, call.hint);
    var p := Position(server, st);
    var page := Search(server, st.lastSort, size);
    PageAdvances(server, st.lastSort, size);
    var open := if call.pitId.Some? then st.(context := call.pitId) else st;
    var cap := NextByteCap(st.byteCap, call.hint, |page|, call.bytes);
    AbsorbDelivers(server, open, size, page, cap, p, p + |page|);
  }

  /** One call on a healthy server; every call that does not end the scan brings at least one hit. */
  lemma StepAdvances<D(!new)>(server: seq<Hit<D>>, st: State, call: Call)
    requires Ordered(server) && Live(st)
    ensures var (next, outcome) := Step(server, st, call.hint, AnswerTo(call));
            && !outcome.Fault?
            && Delivers(server, st, next, HitsIn(outcome))
            && (next.exhausted || HitsIn(outcome) != [])
  {
    if st.exhausted || st.remaining == Some(0) {
      FinishedDelivers(server, st, call);
    } else {
      PageDelivers(server, st, call);
    }
  }

  // ---- How much a call fetches. ----

  /**
    On a healthy server a call of an unfinished scan delivers exactly the least of four numbers: the
    hint, brought into 1..10000; the byte cap, if one is set, but at least one; what the limit still
    allows, if there is one; and the hits left. The scan is over when the limit is used up or when the
    hits left were fewer than the other three.
   */
  lemma FetchesTheLeast<D(!new)>(server: seq<Hit<D>>, st: State, call: Call)
    requires Ordered(server) && Live(st) && !st.exhausted && st.remaining != Some(0)
    ensures var (next, outcome) := Step(server, st, call.hint, AnswerTo(call));
            var n, left := |HitsIn(outcome)|, |server| - Position(server, st);
            var hinted := if call.hint.maxRows == 0 then 1 else if call.hint.maxRows > 10_000 then 10_000 else call.hint.maxRows;
            && n <= hinted && n <= left
            && (st.byteCap.Some? ==> n <= st.byteCap.value || n <= 1)
            && (st.remaining.Some? ==> n <= st.remaining.value)
            && (|| n == hinted || n == left
                || (st.byteCap.Some? && (n == st.byteCap.value || (n == 1 && st.byteCap.value == 0)))
                || (st.remaining.Some? && n == st.remaining.value))
            && (next.exhausted <==>
                  || next.remaining == Some(0)
                  || (&& n == left && n < hinted
                      && (st.byteCap.Some? ==> n < st.byteCap.value || n == 0)
                      && (st.remaining.Some? ==> n < st.remaining.value)))
  {
    PageAdvances(server, st.lastSort, PageSize(st, call.hint));
    PageDelivers(server, st, call);
  }

  /** Scaling a page of `returned` hits and `bytes` bytes: the largest number of such hits that fits the hint. */
  lemma ScaledCapFits(returned: nat, maxBytes: nat, bytes: nat)
    requires bytes > 0
    ensures var cap := ScaledCap(returned, maxBytes, bytes);
            && 1 <= cap <= 10_000
            && (cap * bytes <= returned * maxBytes || cap == 1)
            && (returned * maxBytes < (cap + 1) * bytes || cap == 10_000)
  {
    var amount := returned * maxBytes;
    var exact := amount / bytes;
    QuotientBounds(amount, bytes);
    if exact > 10_000 {
      ProductsGrow(10_000, exact, bytes);
    } else if exact < 1 {
      ProductsGrow(exact + 1, 2, bytes);
    }
  }

  lemma QuotientBounds(amount: nat, unit: nat)
    requires unit > 0
    ensures amount / unit * unit <= amount < (amount / unit + 1) * unit
  {
  }

  lemma ProductsGrow(a: int, b: int, unit: nat)
    requires a <= b
    ensures a * unit <= b * unit
  {
  }

  /**
    A page of more than one hit over the byte hint sets a cap: the largest page, from 1 to 10000, that
    fits the hint if its hits are as large as these were on average. Any other page under half the hint
    lifts the cap, and the rest leave it.
   */
  lemma CapFollowsBytes<D(!new)>(server: seq<Hit<D>>, st: State, hint: Hint, answer: Answer<D>)
    requires !st.closed && !st.exhausted && st.remaining != Some(0) && !answer.Failure?
    requires !Step(server, st, hint, answer).1.Fault?
    ensures var (next, outcome) := Step(server, st, hint, answer);
            var n, bytes := |HitsIn(outcome)|, if answer.Complete? then answer.bytes else answer.partialBytes;
            if bytes > hint.maxBytes && n > 1 then
              && next.byteCap.Some? && 1 <= next.byteCap.value <= 10_000
              && (next.byteCap.value * bytes <= n * hint.maxBytes || next.byteCap.value == 1)
              && (n * hint.maxBytes < (next.byteCap.value + 1) * bytes || next.byteCap.value == 10_000)
            else if bytes * 2 < hint.maxBytes then next.byteCap.None?
            else next.byteCap == st.byteCap
  {
    hide ScaledCap;
    var hits := HitsOf(server, st, PageSize(st, hint), answer);
    if BytesOf(answer) > 0 {
      ScaledCapFits(|hits|, hint.maxBytes, BytesOf(answer));
    }
  }

  /** When a call fails, and what it hands out when the server answers in part. */
  lemma FaultsExactly<D(!new)>(server: seq<Hit<D>>, st: State, hint: Hint, answer: Answer<D>)
    ensures var (next, outcome) := Step(server, st, hint, answer);
            var asks := !st.closed && !st.exhausted && st.remaining != Some(0);
            && (outcome == Fault(Closed) <==> st.closed)
            && (outcome == Fault(SearchFailed) <==> asks && answer.Failure?)
            && (outcome == Fault(ShardsFailed) <==> asks && answer.Partial? && answer.hits == [])
            && (asks && answer.Partial? && answer.hits != [] ==> outcome == Batch(answer.hits))
            && (outcome.Fault? && !st.closed ==> next.exhausted && next.context.None?)
            && (outcome.Fault? || !asks ==> next.delivered == st.delivered && next.lastSort == st.lastSort)
  {
  }

  lemma SliceJoin<T>(s: seq<T>, a: nat, b: nat, c: nat)
    requires a <= b <= c <= |s|
    ensures s[a..b] + s[b..c] == s[a..c]
  {
  }

  lemma DeliversJoin<D(!new)>(
    server: seq<Hit<D>>, st: State, mid: State, last: State, first: seq<Hit<D>>, rest: seq<Hit<D>>)
    requires Delivers(server, st, mid, first) && Delivers(server, mid, last, rest)
    ensures Delivers(server, st, last, first + rest)
  {
    SliceJoin(server, Position(server, st), Position(server, mid), Position(server, last));
  }

  /** Over any run: what was delivered is the next stretch of the snapshot, in order, once each. */
  lemma {:induction false} RunDelivers<D(!new)>(server: seq<Hit<D>>, st: State, calls: seq<Call>)
    requires Ordered(server) && Live(st)
    ensures var (last, hits) := Run(server, st, calls);
            Delivers(server, st, last, hits) && (last.exhausted || |hits| >= |calls|)
    decreases |calls|
  {
    if calls != [] {
      StepAdvances(server, st, calls[0]);
      var (next, outcome) := Step(server, st, calls[0].hint, AnswerTo(calls[0]));
      RunDelivers(server, next, calls[1..]);
      var (last, rest) := Run(server, next, calls[1..]);
      DeliversJoin(server, st, next, last, HitsIn(outcome), rest);
      assert next.exhausted ==> last.exhausted by {
        ExhaustedStays(server, next, calls[1..]);
      }
    }
  }

  lemma {:induction false} ExhaustedStays<D(!new)>(server: seq<Hit<D>>, st: State, calls: seq<Call>)
    ensures st.exhausted ==> Run(server, st, calls).0.exhausted
    decreases |calls|
  {
    if st.exhausted && calls != [] {
      ExhaustedStays(server, Step(server, st, calls[0].hint, AnswerTo<D>(calls[0])).0, calls[1..]);
    }
  }

  /** A scan that is done has delivered exactly what it owed. */
  lemma DrainDelivers<D(!new)>(server: seq<Hit<D>>, st: State, calls: seq<Call>)
    requires Ordered(server) && Live(st) && Run(server, st, calls).0.exhausted
    ensures var p := Position(server, st);
            Run(server, st, calls).1 == server[p..p + Owed(server, st)]
  {
    RunDelivers(server, st, calls);
  }

  /** Draining a fresh cursor yields the first min(limit, total) hits, under any hints and sizes. */
  lemma DrainIsExact<D(!new)>(server: seq<Hit<D>>, pitId: string, limit: Option<nat>, calls: seq<Call>)
    requires Ordered(server)
    requires Run(server, Opened(pitId).(remaining := limit), calls).0.exhausted
    ensures Run(server, Opened(pitId).(remaining := limit), calls).1
         == server[..if limit.Some? then Min(limit.value, |server|) else |server|]
  {
    DrainDelivers(server, Opened(pitId).(remaining := limit), calls);
  }

  /** ... and it is done after at most one call more than there are hits. */
  lemma DrainTerminates<D(!new)>(server: seq<Hit<D>>, st: State, calls: seq<Call>)
    requires Ordered(server) && Live(st) && |calls| > |server|
    ensures Run(server, st, calls).0.exhausted
  {
    RunDelivers(server, st, calls);
  }

  /** A resumed cursor stands where the stopped one stood and owes what it owed. */
  lemma ResumeKeepsPosition<D(!new)>(server: seq<Hit<D>>, stopped: State, freshPit: Option<string>)
    requires Live(stopped) && ResumeToken(stopped).Some?
    ensures var resumed := FromResume(ResumeToken(stopped).value, freshPit);
            && Live(resumed)
            && Position(server, resumed) == Position(server, stopped)
            && Owed(server, resumed) == Owed(server, stopped)
            && resumed.delivered == stopped.delivered
            && resumed.context == (if freshPit.Some? then freshPit else stopped.context)
  {
  }

  lemma ResumeJoins<D(!new)>(
    server: seq<Hit<D>>, start: State, stopped: State, resumed: State, done: State,
    seen: seq<Hit<D>>, rest: seq<Hit<D>>)
    requires Delivers(server, start, stopped, seen) && Delivers(server, resumed, done, rest) && done.exhausted
    requires Position(server, resumed) == Position(server, stopped) && Owed(server, resumed) == Owed(server, stopped)
    requires resumed.delivered == stopped.delivered
    ensures var p := Position(server, start);
            && seen + rest == server[p..p + Owed(server, start)]
            && done.delivered == start.delivered + |seen| + |rest|
  {
    SliceJoin(server, Position(server, start), Position(server, stopped), Position(server, done));
  }

  /**
    Stopping at any page and continuing from the token gives the same hits as never stopping:
    those already delivered, then exactly the rest, with the counters carried over.
   */
  lemma ResumeContinues<D(!new)>(
    server: seq<Hit<D>>, start: State, before: seq<Call>, after: seq<Call>, freshPit: Option<string>)
    requires Ordered(server) && Live(start)
    requires var stopped := Run(server, start, before).0;
             ResumeToken(stopped).Some?
             && Run(server, FromResume(ResumeToken(stopped).value, freshPit), after).0.exhausted
    ensures var (stopped, seen) := Run(server, start, before);
            var (done, rest) := Run(server, FromResume(ResumeToken(stopped).value, freshPit), after);
            var p := Position(server, start);
            && seen + rest == server[p..p + Owed(server, start)]
            && done.delivered == start.delivered + |seen| + |rest|
  {
    RunDelivers(server, start, before);
    var (stopped, seen) := Run(server, start, before);
    ResumeKeepsPosition(server, stopped, freshPit);
    var resumed := FromResume(ResumeToken(stopped).value, freshPit);
    RunDelivers(server, resumed, after);
    var (done, rest) := Run(server, resumed, after);
    ResumeJoins(server, start, stopped, resumed, done, seen, rest);
  }

  // ---- The context is given back once, whatever the server does. ----

  /** Anything that can happen to a cursor: a call with any answer, or a close. */
  datatype Event<D> = Fetch(hint: Hint, answer: Answer<D>) | CloseEvent

  function EventStep<D>(server: seq<Hit<D>>, st: State, event: Event<D>): State {
    match event
    case Fetch(hint, answer) => Step(server, st, hint, answer).0
    case CloseEvent => Close(st)
  }

  function After<D>(server: seq<Hit<D>>, st: State, events: seq<Event<D>>): State
    decreases |events|
  {
    if events == [] then st else After(server, EventStep(server, st, events[0]), events[1..])
  }

  /** Dropping the cursor gives back a context that is still held. */
  function Dropped(st: State): State {
    Release(st)
  }

  /** A context is held exactly until the scan ends, and nothing is given back before that. */
  predicate HoldsOrReleased(st: State) {
    && st.context.None? == (st.exhausted || st.closed)
    && (st.context.Some? ==> st.releases == [])
  }

  /** The id a cursor goes by after an event: the one the answer names, unless nothing was asked of the server. */
  function IdAfter<D>(st: State, event: Event<D>): string
    requires st.context.Some?
  {
    if event.CloseEvent? || st.remaining == Some(0) then st.context.value
    else
      match event.answer
      case Failure => st.context.value
      case Complete(_, pit) => if pit.Some? then pit.value else st.context.value
      case Partial(_, _, pit) => if pit.Some? then pit.value else st.context.value
  }

  /** The id the cursor goes by when it gives its context back. */
  function LastId<D>(server: seq<Hit<D>>, st: State, events: seq<Event<D>>): string
    requires st.context.Some?
    decreases |events|
  {
    if events == [] then st.context.value
    else
      var next := EventStep(server, st, events[0]);
      if next.context.None? then IdAfter(st, events[0]) else LastId(server, next, events[1..])
  }

  lemma {:induction false} ReleasedStay<D(!new)>(server: seq<Hit<D>>, st: State, events: seq<Event<D>>)
    requires HoldsOrReleased(st) && st.context.None?
    ensures var last := After(server, st, events);
            last.context.None? && last.releases == st.releases
    decreases |events|
  {
    if events != [] {
      ReleasedStay(server, EventStep(server, st, events[0]), events[1..]);
    }
  }

  lemma EventHolds<D(!new)>(server: seq<Hit<D>>, st: State, event: Event<D>)
    requires HoldsOrReleased(st) && st.context.Some?
    ensures var next := EventStep(server, st, event);
            && HoldsOrReleased(next)
            && (next.context.Some? ==> next.context.value == IdAfter(st, event))
            && (next.context.None? ==> next.releases == NonEmpty(IdAfter(st, event)))
  {
    hide PageSize, HitsOf, NextByteCap;
  }

  /** The deletions sent for an id: none for the empty one, which was never opened. */
  function NonEmpty(id: string): seq<string> {
    if id == "" then [] else [id]
  }

  lemma {:induction false} ReleasesLast<D(!new)>(server: seq<Hit<D>>, st: State, events: seq<Event<D>>)
    requires HoldsOrReleased(st) && st.context.Some?
    ensures Dropped(After(server, st, events)).releases == NonEmpty(LastId(server, st, events))
    decreases |events|
  {
    hide EventStep;
    if events != [] {
      var next := EventStep(server, st, events[0]);
      EventHolds(server, st, events[0]);
      if next.context.None? {
        ReleasedStay(server, next, events[1..]);
      } else {
        ReleasesLast(server, next, events[1..]);
      }
    }
  }

  /**
    Whatever the server answers, by the time it is dropped a cursor has given back exactly one
    context: the id it went by last. Only an empty id is not given back.
   */
  lemma ContextReleasedExactlyOnce<D(!new)>(
    server: seq<Hit<D>>, pitId: string, limit: Option<nat>, events: seq<Event<D>>)
    ensures var start := Opened(pitId).(remaining := limit);
            Dropped(After(server, start, events)).releases == NonEmpty(LastId(server, start, events))
  {
    ReleasesLast(server, Opened(pitId).(remaining := limit), events);
  }

  // ---- When a scan can be resumed. ----

  /** No answer names an empty id. */
  predicate Named<D>(events: seq<Event<D>>) {
    forall i | 0 <= i < |events| && events[i].Fetch? :: PitOf(events[i].answer) != Some("")
  }

  /** Something was read exactly when there is a position. */
  predicate Placed(st: State) {
    && (st.lastSort.Some? <==> st.delivered > 0)
    && HoldsOrReleased(st)
    && (st.context.Some? ==> st.context.value != "")
  }

  lemma {:induction false} PlacedStays<D(!new)>(server: seq<Hit<D>>, st: State, events: seq<Event<D>>)
    requires Placed(st) && Named(events)
    ensures Placed(After(server, st, events))
    decreases |events|
  {
    if events != [] {
      PlacedStays(server, EventStep(server, st, events[0]), events[1..]);
    }
  }

  /**
    After any events whose answers name no empty id, a scan can be resumed exactly when it is neither
    over nor closed and has delivered something; the token then names the context that is still held.
   */
  lemma ResumableExactly<D(!new)>(server: seq<Hit<D>>, pitId: string, limit: Option<nat>, events: seq<Event<D>>)
    requires pitId != "" && Named(events)
    ensures var st := After(server, Opened(pitId).(remaining := limit), events);
            && (ResumeToken(st).Some? <==> !st.exhausted && !st.closed && st.delivered > 0)
            && (ResumeToken(st).Some? ==>
                  var token := ResumeToken(st).value;
                  st.context == Some(token.id) && st.lastSort == Some(token.sort)
                  && token.delivered == st.delivered && token.remaining == st.remaining)
  {
    PlacedStays(server, Opened(pitId).(remaining := limit), events);
  }

  /** A partial answer that brings more hits than the limit still allows. */
  predicate Overshoots<D>(st: State, answer: Answer<D>) {
    && !st.closed && !st.exhausted && answer.Partial?
    && st.remaining.Some? && 0 < st.remaining.value < |answer.hits|
  }

  /** Delivered and remaining add up to the limit after every call, exactly unless an answer overshoots it. */
  lemma StepKeepsLimit<D(!new)>(server: seq<Hit<D>>, st: State, hint: Hint, answer: Answer<D>)
    requires st.remaining.Some?
    ensures var next := Step(server, st, hint, answer).0;
            && next.remaining.Some?
            && (next.delivered + next.remaining.value == st.delivered + st.remaining.value <==> !Overshoots(st, answer))
            && (Overshoots(st, answer) ==>
                  next.remaining == Some(0) && next.exhausted && next.delivered == st.delivered + |answer.hits|)
  {
    if !st.closed && !st.exhausted && st.remaining != Some(0) && answer.Complete? {
      assert |Search(server, st.lastSort, PageSize(st, hint))| <= PageSize(st, hint);
    }
  }
}

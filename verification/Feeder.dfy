/** What one pull of the feeder does: sizing the next fetch, cutting a batch at the cap, and the loop over them. */
module Feeder {
  import opened FeederRuns

  datatype Policy = Policy(
    startFetchRows: nat,
    minFetchRows: nat,
    maxFetchRows: nat,
    targetMs: nat,
    windowLoMs: nat,
    windowHiMs: nat,
    maxBatchBytes: nat,
    softRowCap: nat)

  /** `clamp` refuses a minimum above its maximum, so the source relies on this. */
  predicate Sensible(policy: Policy) {
    policy.minFetchRows <= policy.maxFetchRows
  }

  function Min(a: nat, b: nat): nat {
    if a <= b then a else b
  }

  function Max(a: nat, b: nat): nat {
    if a >= b then a else b
  }

  function Clamp(n: nat, low: nat, high: nat): nat
    requires low <= high
  {
    if n < low then low else if n > high then high else n
  }

  function FirstHint(policy: Policy): nat
    requires Sensible(policy)
  {
    Clamp(policy.startFetchRows, Min(policy.minFetchRows, Max(policy.startFetchRows, 1)), policy.maxFetchRows)
  }

  function NextRows(policy: Policy, prev: nat, actualMs: nat): nat
    requires Sensible(policy)
  {
    if policy.windowLoMs <= actualMs <= policy.windowHiMs then prev
    else Clamp(prev * policy.targetMs / Max(actualMs, 1), policy.minFetchRows, policy.maxFetchRows)
  }

  /** Bytes per row as the exact ratio of a chunk's bytes to its rows. */
  function CapByBytes(policy: Policy, hint: nat, bytes: nat, rows: nat): nat
    requires Sensible(policy)
  {
    if bytes == 0 || rows == 0 then hint
    else Min(hint, Clamp(policy.maxBatchBytes * rows / bytes, policy.minFetchRows, policy.maxFetchRows))
  }

  lemma MulMono(k: nat, a: nat, b: nat)
    requires a <= b
    ensures k * a <= k * b
  {
  }

  lemma MulStep(k: nat, a: nat, b: nat)
    requires a < b
    ensures k * a + k <= k * b
  {
    MulMono(k, a + 1, b);
  }

  /** Scaling by a ratio of at most one does not grow, by one of at least one does not shrink. */
  lemma ScaleBound(prev: nat, target: nat, actual: nat)
    requires actual > 0
    ensures target <= actual ==> prev * target / actual <= prev
    ensures target >= actual ==> prev * target / actual >= prev
  {
    var q := prev * target / actual;
    assert prev * target == actual * q + prev * target % actual;
    if target <= actual {
      MulMono(prev, target, actual);
      if q > prev {
        MulStep(actual, prev, q);
      }
    }
    if target >= actual {
      MulMono(prev, actual, target);
      if q < prev {
        MulStep(actual, q, prev);
      }
    }
  }

  /**
    The hint follows the clock: inside the window it stays; outside it, a fetch no faster than the
    target never raises it and one no slower never lowers it, up to the fixed bounds.
   */
  lemma NextRowsFollowsTheClock(policy: Policy, prev: nat, actualMs: nat)
    requires Sensible(policy)
    ensures var next := NextRows(policy, prev, actualMs);
            && (policy.windowLoMs <= actualMs <= policy.windowHiMs ==> next == prev)
            && (Max(actualMs, 1) >= policy.targetMs ==> next <= Max(prev, policy.minFetchRows))
            && (Max(actualMs, 1) <= policy.targetMs ==> next >= Min(prev, policy.maxFetchRows))
            && (next == prev || policy.minFetchRows <= next <= policy.maxFetchRows)
  {
    ScaleBound(prev, policy.targetMs, Max(actualMs, 1));
  }

  /** The largest whole ratio that fits, brought into a range, told by products alone. */
  lemma ClampedRatio(amount: nat, unit: nat, low: nat, high: nat)
    requires unit > 0 && low <= high
    ensures var n := Clamp(amount / unit, low, high);
            && low <= n <= high
            && (n == low || n * unit <= amount)
            && (n == high || amount < (n + 1) * unit)
  {
    var q := amount / unit;
    assert amount == unit * q + amount % unit;
    if q > high {
      MulMono(unit, high, q);
    } else if q < low {
      MulMono(unit, q + 1, low);
      MulMono(unit, low, low + 1);
    }
  }

  /**
    The next hint, exactly: unchanged inside the window; outside it the largest one that at the measured
    speed would not take longer than the target, brought into the policy's range. A fetch that took
    no time counts as a millisecond.
   */
  lemma NextRowsExactly(policy: Policy, prev: nat, actualMs: nat)
    requires Sensible(policy)
    ensures var next := NextRows(policy, prev, actualMs);
            var spent := if actualMs == 0 then 1 else actualMs;
            if policy.windowLoMs <= actualMs <= policy.windowHiMs then next == prev
            else
              && policy.minFetchRows <= next <= policy.maxFetchRows
              && (next == policy.minFetchRows || next * spent <= prev * policy.targetMs)
              && (next == policy.maxFetchRows || prev * policy.targetMs < (next + 1) * spent)
  {
    ClampedRatio(prev * policy.targetMs, Max(actualMs, 1), policy.minFetchRows, policy.maxFetchRows);
  }

  /** What the byte cap makes of a hint, exactly: the smaller of it and of the most rows of that width that fit a batch. */
  lemma CapByBytesExactly(policy: Policy, hint: nat, bytes: nat, rows: nat)
    requires Sensible(policy)
    ensures var capped := CapByBytes(policy, hint, bytes, rows);
            if bytes == 0 || rows == 0 then capped == hint
            else
              && capped <= hint && capped <= policy.maxFetchRows
              && (capped <= policy.minFetchRows || capped * bytes <= policy.maxBatchBytes * rows)
              && (|| capped == hint || capped == policy.maxFetchRows
                  || (capped >= policy.minFetchRows && policy.maxBatchBytes * rows < (capped + 1) * bytes))
  {
    if bytes > 0 && rows > 0 {
      var fits := Clamp(policy.maxBatchBytes * rows / bytes, policy.minFetchRows, policy.maxFetchRows);
      ClampedRatio(policy.maxBatchBytes * rows, bytes, policy.minFetchRows, policy.maxFetchRows);
      if hint < fits {
        MulMono(bytes, hint, fits);
      }
    }
  }

  /** The first hint is the policy's, at least one row where the policy allows it, and at most its largest fetch. */
  lemma FirstHintExactly(policy: Policy)
    requires Sensible(policy)
    ensures FirstHint(policy) ==
              if policy.startFetchRows >= policy.maxFetchRows then policy.maxFetchRows
              else if policy.startFetchRows > 0 then policy.startFetchRows
              else if policy.minFetchRows == 0 then 0 else 1
  {
  }

  /** A hint the byte cap lowered fits a batch at that width, unless it is already the smallest fetch. */
  lemma CapByBytesFits(policy: Policy, hint: nat, bytes: nat, rows: nat)
    requires Sensible(policy)
    ensures var capped := CapByBytes(policy, hint, bytes, rows);
            && Min(hint, policy.minFetchRows) <= capped <= hint
            && (bytes > 0 && rows > 0 && capped > policy.minFetchRows ==> capped * bytes <= policy.maxBatchBytes * rows)
  {
    if bytes > 0 && rows > 0 {
      var q := policy.maxBatchBytes * rows / bytes;
      var capped := CapByBytes(policy, hint, bytes, rows);
      assert policy.maxBatchBytes * rows == bytes * q + policy.maxBatchBytes * rows % bytes;
      if capped > policy.minFetchRows {
        MulMono(bytes, capped, q);
      }
    }
  }

  /** Between them the two rules never leave the range the first hint started in. */
  predicate InRange(policy: Policy, hint: nat) {
    Min(policy.minFetchRows, Max(policy.startFetchRows, 1)) <= hint <= policy.maxFetchRows
  }

  // ---- Payloads. ----

  datatype Payload<V> =
    | TableRows(rows: seq<seq<V>>)
    | Docs(docs: seq<V>)
    | Pairs(pairs: seq<(V, V)>)
    | Graph(nodes: seq<V>, edges: seq<V>)
    | Empty

  function PayloadRows<V>(payload: Payload<V>): nat {
    match payload
    case TableRows(rows) => |rows|
    case Docs(docs) => |docs|
    case Pairs(pairs) => |pairs|
    case Graph(nodes, _) => |nodes|
    case Empty => 0
  }

  function TruncatePayload<V(==)>(payload: Payload<V>, keep: nat): (r: Payload<V>)
    ensures PayloadRows(r) == Min(PayloadRows(payload), keep)
    ensures PayloadRows(payload) <= keep ==> r == payload
    ensures payload.Graph? ==> r.Graph? && r.nodes <= payload.nodes && r.edges == payload.edges
    ensures payload.TableRows? ==> r.TableRows? && r.rows <= payload.rows
    ensures payload.Docs? ==> r.Docs? && r.docs <= payload.docs
    ensures payload.Pairs? ==> r.Pairs? && r.pairs <= payload.pairs
  {
    match payload
    case TableRows(rows) => TableRows(Truncated(rows, keep))
    case Docs(docs) => Docs(Truncated(docs, keep))
    case Pairs(pairs) => Pairs(Truncated(pairs, keep))
    case Graph(nodes, edges) => Graph(Truncated(nodes, keep), edges)
    case Empty => Empty
  }

  /** Cutting twice is cutting once, at the smaller place. */
  lemma TruncateTwice<V>(payload: Payload<V>, first: nat, second: nat)
    ensures TruncatePayload(TruncatePayload(payload, first), second) == TruncatePayload(payload, Min(first, second))
  {
  }

  // ---- The loop, with a store that always has room. ----

  /** One call on the cursor: what came back, how long it took, and the cursor's byte count so far. */
  datatype Pull<R> = Pull(answer: Answer<R>, elapsedMs: nat, bytes: nat)

  /** All rows before the first answer that is not a batch. */
  function Stream<R>(pulls: seq<Pull<R>>): seq<R> {
    if pulls == [] || !pulls[0].answer.Rows? then [] else pulls[0].answer.rows + Stream(pulls[1..])
  }

  /** How a cursor without a cap in the way ends the loop. */
  function EndOf<R>(pulls: seq<Pull<R>>): Ending {
    if pulls == [] then Done
    else
      match pulls[0].answer
      case Rows(_) => EndOf(pulls[1..])
      case Exhausted => Done
      case CursorCancelled => Cancelled
      case Failure => Failed
  }

  lemma TruncatedJoin<R>(a: seq<R>, b: seq<R>, cap: nat)
    requires |a| <= cap
    ensures Truncated(a + b, cap) == a + Truncated(b, cap - |a|)
  {
  }

  /** One batch: it fits and is all there was, or it is cut exactly at the cap. */
  lemma BatchGoes<R>(before: seq<R>, rows: seq<R>, more: seq<R>, cap: nat)
    requires |before| < cap
    ensures var batch := Truncated(rows, cap - |before|);
            && |before + batch| <= cap
            && (|before + batch| < cap ==> before + (rows + more) == (before + batch) + more)
            && (|before + batch| >= cap ==>
                  |before + (rows + more)| >= cap && before + batch == Truncated(before + (rows + more), cap))
  {
    TruncatedJoin(before, rows + more, cap);
    assert Truncated(rows + more, cap - |before|) == if |rows| >= cap - |before| then Truncated(rows, cap - |before|)
                                                     else rows + Truncated(more, cap - |before| - |rows|);
  }

  lemma HintsInRange(policy: Policy, hint: nat, elapsedMs: nat, bytes: nat, rows: nat)
    requires Sensible(policy)
    ensures InRange(policy, FirstHint(policy))
    ensures InRange(policy, hint) ==> InRange(policy, CapByBytes(policy, NextRows(policy, hint, elapsedMs), bytes, rows))
  {
  }

  /** How many bytes the cursor's count grew by at a pull. */
  function Growth<R>(pulls: seq<Pull<R>>, k: nat): nat
    requires k < |pulls|
  {
    var before := if k == 0 then 0 else pulls[k - 1].bytes;
    if pulls[k].bytes >= before then pulls[k].bytes - before else 0
  }

  /** The first hint is the policy's, and each later one follows from the one before, its time, and what it brought. */
  predicate HintsFollow<R>(policy: Policy, pulls: seq<Pull<R>>, sent: seq<seq<R>>, hints: seq<nat>)
    requires Sensible(policy) && |hints| <= |sent| + 1 && |sent| <= |pulls|
  {
    && (hints != [] ==> hints[0] == FirstHint(policy))
    && (forall k | 0 <= k < |hints| - 1 ::
          hints[k + 1] == CapByBytes(policy, NextRows(policy, hints[k], pulls[k].elapsedMs), Growth(pulls, k), |sent[k]|))
  }

  lemma HintsStart<R>(policy: Policy, pulls: seq<Pull<R>>)
    requires Sensible(policy)
    ensures HintsFollow(policy, pulls, [], []) && HintsFollow(policy, pulls, [], [] + [FirstHint(policy)])
  {
  }

  lemma HintsGrow<R>(policy: Policy, pulls: seq<Pull<R>>, sent: seq<seq<R>>, hints: seq<nat>, batch: seq<R>, hint: nat)
    requires Sensible(policy) && |hints| == |sent| + 1 && |sent| < |pulls| && HintsFollow(policy, pulls, sent, hints)
    requires hint == CapByBytes(policy, NextRows(policy, hints[|sent|], pulls[|sent|].elapsedMs), Growth(pulls, |sent|), |batch|)
    ensures HintsFollow(policy, pulls, sent + [batch], hints) && HintsFollow(policy, pulls, sent + [batch], hints + [hint])
  {
  }

  /**
    The stream is delivered up to the cap and no further, the loop ends as the cursor did unless the
    cap was reached first, and every fetch hint along the way stays in range. The first hint is the
    policy's, and each later one follows from the one before, its time, and the bytes and rows it brought.
   */
  method PullLoop<R>(pulls: seq<Pull<R>>, policy: Policy)
    returns (sent: seq<seq<R>>, rows: nat, hints: seq<nat>, ending: Ending)
    requires Sensible(policy)
    ensures Flat(sent) == Truncated(Stream(pulls), policy.softRowCap) && rows == |Flat(sent)|
    ensures ending == if |Stream(pulls)| >= policy.softRowCap then Capped else EndOf(pulls)
    ensures forall h | h in hints :: InRange(policy, h)
    ensures |sent| <= |hints| <= |sent| + 1 && |sent| <= |pulls|
    ensures HintsFollow(policy, pulls, sent, hints)
  {
    hide HintsFollow, InRange, FirstHint, NextRows, CapByBytes, Truncated, Sensible;
    var cap := policy.softRowCap;
    HintsInRange(policy, 0, 0, 0, 0);
    var hint := FirstHint(policy);
    var prevBytes := 0;
    sent, rows, hints := [], 0, [];
    HintsStart(policy, pulls);
    var i := 0;
    ghost var stream := Stream(pulls);
    while true
      invariant i <= |pulls| && InRange(policy, hint)
      invariant rows == |Flat(sent)| && stream == Flat(sent) + Stream(pulls[i..])
      invariant rows < cap || (rows == 0 && i == 0)
      invariant EndOf(pulls) == EndOf(pulls[i..])
      invariant forall h | h in hints :: InRange(policy, h)
      invariant |hints| == |sent| == i && prevBytes == (if i == 0 then 0 else pulls[i - 1].bytes)
      invariant HintsFollow(policy, pulls, sent, hints + [hint]) && HintsFollow(policy, pulls, sent, hints)
      decreases |pulls| - i
    {
      if rows >= cap {
        NothingFits(stream, cap);
        return sent, rows, hints, Capped;
      }
      hints := hints + [hint];
      if i == |pulls| || !pulls[i].answer.Rows? {
        assert Stream(pulls[i..]) == [];
        StaysWhole(Flat(sent), cap);
        ending := if i == |pulls| then Done else EndOfAnswer(pulls[i].answer);
        return;
      }
      var pull := pulls[i];
      assert pulls[i..][1..] == pulls[i + 1..];
      var batch := Truncated(pull.answer.rows, cap - rows);
      FlatGrows(sent, batch);
      BatchGoes(Flat(sent), pull.answer.rows, Stream(pulls[i + 1..]), cap);
      var bytes := if pull.bytes >= prevBytes then pull.bytes - prevBytes else 0;
      prevBytes := pull.bytes;
      HintsInRange(policy, hint, pull.elapsedMs, bytes, |batch|);
      HintsGrow(policy, pulls, sent, hints, batch, CapByBytes(policy, NextRows(policy, hint, pull.elapsedMs), bytes, |batch|));
      sent, rows := sent + [batch], rows + |batch|;
      hint := CapByBytes(policy, NextRows(policy, hint, pull.elapsedMs), bytes, |batch|);
      if rows >= cap {
        return sent, rows, hints, Capped;
      }
      i := i + 1;
    }
  }

  lemma StaysWhole<R>(rows: seq<R>, cap: nat)
    requires |rows| <= cap
    ensures Truncated(rows + [], cap) == rows
  {
    assert rows + [] == rows;
  }

  lemma NothingFits<R>(rows: seq<R>, cap: nat)
    ensures cap == 0 ==> Truncated(rows, cap) == []
  {
  }

  function EndOfAnswer<R>(answer: Answer<R>): Ending
    requires !answer.Rows?
  {
    match answer
    case Exhausted => Done
    case CursorCancelled => Cancelled
    case Failure => Failed
  }
}

/** What a client is told about a batch of writes: one row per write, and counts that add up. */
module Reports {
  import opened Wrappers
  import opened Bulk

  /** What the server answered to one write. */
  datatype Outcome = Applied | Failed(conflict: bool)

  datatype RowOutcome = RowApplied | RowFailed(conflict: bool) | RowNotAttempted

  datatype ReportRow = ReportRow(op: WriteOp, index: string, id: string, routing: Option<string>, outcome: RowOutcome)

  /** The closing notice of a serial batch: how many applied, and where it halted if it did. */
  datatype SerialNotice =
    | AllApplied(applied: nat)
    | Halted(position: nat, total: nat, applied: nat, notAttempted: int)

  /** The closing notice of a bulk request. */
  datatype BulkNotice =
    | BulkApplied(applied: nat)
    | BulkPartial(applied: nat, total: nat, failed: nat, conflicts: nat)

  function Row(write: CompiledWrite, outcome: RowOutcome): ReportRow {
    ReportRow(write.op, write.index, write.id, write.routing, outcome)
  }

  function RowOutcomeOf(outcome: Outcome): RowOutcome {
    match outcome
    case Applied => RowApplied
    case Failed(conflict) => RowFailed(conflict)
  }

  /** The serial loop: send one write after another and stop at the first failure. */
  method ExecuteSerially(answers: seq<Outcome>) returns (outcomes: seq<Outcome>)
    ensures outcomes == SerialOutcomes(answers)
  {
    outcomes := [];
    for i := 0 to |answers|
      invariant outcomes == answers[..i] == SerialOutcomes(answers[..i])
      invariant forall k | 0 <= k < i :: answers[k].Applied?
    {
      assert answers[..i + 1] == answers[..i] + [answers[i]];
      outcomes := outcomes + [answers[i]];
      SerialKeepsApplied(answers, i);
      if answers[i].Failed? {
        return;
      }
      SerialKeepsApplied(answers[..i + 1], i);
    }
    assert answers[..|answers|] == answers;
  }

  function SerialOutcomes(answers: seq<Outcome>): seq<Outcome> {
    if answers == [] then []
    else if answers[0].Failed? then [answers[0]]
    else [answers[0]] + SerialOutcomes(answers[1..])
  }

  /** While nothing failed, the outcomes are the answers; the first failure ends them. */
  lemma {:induction false} SerialKeepsApplied(answers: seq<Outcome>, i: nat)
    requires i < |answers| && forall k | 0 <= k < i :: answers[k].Applied?
    ensures answers[i].Failed? ==> SerialOutcomes(answers) == answers[..i + 1]
    ensures i == |answers| - 1 ==> SerialOutcomes(answers) == answers
    decreases i
  {
    if i > 0 {
      SerialKeepsApplied(answers[1..], i - 1);
      assert [answers[0]] + answers[1..][..i] == answers[..i + 1];
    } else {
      assert answers[..1] == [answers[0]];
    }
  }

  function CountApplied(outcomes: seq<Outcome>): nat {
    if outcomes == [] then 0
    else CountApplied(outcomes[..|outcomes| - 1]) + (if outcomes[|outcomes| - 1].Applied? then 1 else 0)
  }

  /** The count of applied writes is the number of places where one was applied. */
  lemma {:induction false} CountAppliedIs(outcomes: seq<Outcome>)
    ensures CountApplied(outcomes) == |set i | 0 <= i < |outcomes| && outcomes[i].Applied?|
  {
    if outcomes != [] {
      var init, last := outcomes[..|outcomes| - 1], |outcomes| - 1;
      CountAppliedIs(init);
      var before := set i | 0 <= i < |init| && init[i].Applied?;
      assert (set i | 0 <= i < |outcomes| && outcomes[i].Applied?)
          == before + if outcomes[last].Applied? then {last} else {};
      assert last !in before;
    }
  }

  /** The other writes failed. */
  lemma {:induction false} CountFailedIs(outcomes: seq<Outcome>)
    ensures |outcomes| - CountApplied(outcomes) == |set i | 0 <= i < |outcomes| && outcomes[i].Failed?|
  {
    if outcomes != [] {
      var init, last := outcomes[..|outcomes| - 1], |outcomes| - 1;
      CountFailedIs(init);
      var before := set i | 0 <= i < |init| && init[i].Failed?;
      assert (set i | 0 <= i < |outcomes| && outcomes[i].Failed?)
          == before + if outcomes[last].Failed? then {last} else {};
      assert last !in before;
    }
  }

  lemma {:induction false} AllAppliedIs(outcomes: seq<Outcome>)
    ensures CountApplied(outcomes) <= |outcomes|
    ensures CountApplied(outcomes) == |outcomes| <==> forall i | 0 <= i < |outcomes| :: outcomes[i].Applied?
  {
    if outcomes != [] {
      AllAppliedIs(outcomes[..|outcomes| - 1]);
    }
  }

  /** Position of the last failure, if any. */
  function LastFailure(outcomes: seq<Outcome>): (at: Option<nat>)
    ensures at.Some? ==> at.value < |outcomes|
  {
    if outcomes == [] then None
    else if outcomes[|outcomes| - 1].Failed? then Some(|outcomes| - 1)
    else LastFailure(outcomes[..|outcomes| - 1])
  }

  lemma {:induction false} LastFailureIs(outcomes: seq<Outcome>)
    ensures LastFailure(outcomes).None? <==> forall i | 0 <= i < |outcomes| :: outcomes[i].Applied?
    ensures forall at: nat :: LastFailure(outcomes) == Some(at) ==>
              at < |outcomes| && outcomes[at].Failed? && forall i | at < i < |outcomes| :: outcomes[i].Applied?
  {
    if outcomes != [] && outcomes[|outcomes| - 1].Applied? {
      LastFailureIs(outcomes[..|outcomes| - 1]);
    }
  }

  /** A row tells the write it is about, and what became of it. */
  lemma RowTells(write: CompiledWrite, outcomes: seq<Outcome>, i: nat)
    ensures var row := Row(write, if i < |outcomes| then RowOutcomeOf(outcomes[i]) else RowNotAttempted);
            && row.op == write.op && row.index == write.index && row.id == write.id && row.routing == write.routing
            && (row.outcome == RowApplied <==> i < |outcomes| && outcomes[i].Applied?)
            && (row.outcome == RowFailed(true) <==> i < |outcomes| && outcomes[i] == Failed(true))
            && (row.outcome == RowFailed(false) <==> i < |outcomes| && outcomes[i] == Failed(false))
  {
  }

  /** The notice in terms of the outcomes that have a write. */
  lemma NoticeTells(total: nat, outcomes: seq<Outcome>)
    ensures var notice := SerialNoticeOf(total, if |outcomes| <= total then outcomes else outcomes[..total]);
            && notice.applied == |set i | 0 <= i < total && i < |outcomes| && outcomes[i].Applied?|
            && (notice.AllApplied? <==> forall i | 0 <= i < total && i < |outcomes| :: outcomes[i].Applied?)
            && (notice.Halted? ==>
                  && notice.position < total && notice.position < |outcomes| && outcomes[notice.position].Failed?
                  && (forall i | notice.position < i < total && i < |outcomes| :: outcomes[i].Applied?)
                  && notice.total == total && notice.notAttempted == total - notice.position - 1)
  {
    hide CountApplied, LastFailure;
    var used := if |outcomes| <= total then outcomes else outcomes[..total];
    CountAppliedIs(used);
    LastFailureIs(used);
    assert (set i | 0 <= i < |used| && used[i].Applied?)
        == set i | 0 <= i < total && i < |outcomes| && outcomes[i].Applied?;
  }

  /** `batch_report`: one row per write; writes past the outcomes were never sent. */
  method BatchReport(writes: seq<CompiledWrite>, outcomes: seq<Outcome>)
    returns (rows: seq<ReportRow>, notice: SerialNotice)
    ensures |rows| == |writes|
    ensures forall i | 0 <= i < |writes| ::
              rows[i] == Row(writes[i], if i < |outcomes| then RowOutcomeOf(outcomes[i]) else RowNotAttempted)
    ensures notice == SerialNoticeOf(|writes|, if |outcomes| <= |writes| then outcomes else outcomes[..|writes|])
    ensures forall i | 0 <= i < |writes| ::
              && rows[i].op == writes[i].op && rows[i].index == writes[i].index
              && rows[i].id == writes[i].id && rows[i].routing == writes[i].routing
              && (rows[i].outcome == RowApplied <==> i < |outcomes| && outcomes[i].Applied?)
              && (rows[i].outcome == RowFailed(true) <==> i < |outcomes| && outcomes[i] == Failed(true))
              && (rows[i].outcome == RowFailed(false) <==> i < |outcomes| && outcomes[i] == Failed(false))
    ensures notice.applied == |set i | 0 <= i < |writes| && i < |outcomes| && outcomes[i].Applied?|
    ensures notice.AllApplied? <==> forall i | 0 <= i < |writes| && i < |outcomes| :: outcomes[i].Applied?
    ensures notice.Halted? ==>
              && notice.position < |writes| && notice.position < |outcomes| && outcomes[notice.position].Failed?
              && (forall i | notice.position < i < |writes| && i < |outcomes| :: outcomes[i].Applied?)
              && notice.total == |writes| && notice.notAttempted == |writes| - notice.position - 1
  {
    hide Row, RowOutcomeOf;
    var total := |writes|;
    var applied := 0;
    var failed: Option<nat> := None;
    rows := [];
    ghost var used := if |outcomes| <= total then outcomes else outcomes[..total];
    for i := 0 to total
      invariant |rows| == i
      invariant forall k | 0 <= k < i ::
                  rows[k] == Row(writes[k], if k < |outcomes| then RowOutcomeOf(outcomes[k]) else RowNotAttempted)
      invariant var done := if i <= |used| then used[..i] else used;
                applied == CountApplied(done) && failed == LastFailure(done)
    {
      var outcome := RowNotAttempted;
      assert used[..|used|] == used;
      if i < |outcomes| {
        assert used[..i + 1][..i] == used[..i] && used[i] == outcomes[i];
        outcome := RowOutcomeOf(outcomes[i]);
        if outcomes[i].Applied? {
          applied := applied + 1;
        } else {
          failed := Some(i);
        }
      }
      rows := rows + [Row(writes[i], outcome)];
    }
    assert used[..|used|] == used;
    NoticeTells(total, outcomes);
    forall k | 0 <= k < |writes| {
      RowTells(writes[k], outcomes, k);
    }
    match failed {
      case None => notice := AllApplied(applied);
      case Some(i) => notice := Halted(i, total, applied, total - i - 1);
    }
  }

  function SerialNoticeOf(total: nat, outcomes: seq<Outcome>): SerialNotice {
    match LastFailure(outcomes)
    case None => AllApplied(CountApplied(outcomes))
    case Some(i) => Halted(i, total, CountApplied(outcomes), total - i - 1)
  }

  lemma {:induction false} SerialShape(answers: seq<Outcome>)
    ensures var outcomes := SerialOutcomes(answers);
            || (outcomes == answers && LastFailure(outcomes) == None && CountApplied(outcomes) == |answers|)
            || (outcomes != [] && LastFailure(outcomes) == Some(|outcomes| - 1)
                && CountApplied(outcomes) == |outcomes| - 1 && |outcomes| <= |answers|)
  {
    if answers != [] {
      var first, rest := answers[0], SerialOutcomes(answers[1..]);
      if first.Failed? {
        assert [first][..0] == [];
      } else {
        SerialShape(answers[1..]);
        CountFromFront(first, rest);
        assert [first] + answers[1..] == answers;
      }
    }
  }

  lemma {:induction false} CountFromFront(first: Outcome, rest: seq<Outcome>)
    requires first.Applied?
    ensures CountApplied([first] + rest) == 1 + CountApplied(rest)
    ensures LastFailure([first] + rest)
         == match LastFailure(rest) case None => None case Some(i) => Some(i + 1)
    decreases |rest|
  {
    var all := [first] + rest;
    if rest == [] {
      assert all[..0] == [];
    } else {
      var n := |rest| - 1;
      assert all[..|all| - 1] == [first] + rest[..n];
      CountFromFront(first, rest[..n]);
    }
  }

  /** The closing notice tells the truth about the answers, and its counts add up to the batch. */
  predicate SerialAddsUp(notice: SerialNotice, answers: seq<Outcome>) {
    if notice.AllApplied? then
      notice.applied == |answers| && forall a | a in answers :: a.Applied?
    else
      && notice.applied + 1 + notice.notAttempted == notice.total == |answers|
      && notice.applied == notice.position && notice.notAttempted >= 0
      && answers[notice.position].Failed?
      && forall k | 0 <= k < notice.position :: answers[k].Applied?
  }

  /** Whatever the server answers, applied, failed and not-attempted writes add up to the batch. */
  lemma SerialAccounting(answers: seq<Outcome>)
    ensures SerialAddsUp(SerialNoticeOf(|answers|, SerialOutcomes(answers)), answers)
  {
    SerialShape(answers);
    SerialStopsAtFirst(answers);
  }

  lemma {:induction false} SerialStopsAtFirst(answers: seq<Outcome>)
    ensures var outcomes := SerialOutcomes(answers);
            && outcomes <= answers
            && (forall k | 0 <= k < |outcomes| - 1 :: outcomes[k].Applied?)
            && (outcomes != [] && LastFailure(outcomes).Some? ==> outcomes[|outcomes| - 1].Failed?)
            && (LastFailure(outcomes).None? ==> forall k | 0 <= k < |outcomes| :: outcomes[k].Applied?)
  {
    if answers != [] {
      var first, rest := answers[0], SerialOutcomes(answers[1..]);
      if first.Applied? {
        SerialStopsAtFirst(answers[1..]);
        AppliedInFront(first, rest, answers[1..]);
        assert [first] + answers[1..] == answers;
      } else {
        assert [first][..0] == [] && [first] <= answers;
      }
    }
  }

  /** What holds of outcomes as a prefix of the answers still holds with one more applied write in front. */
  lemma AppliedInFront(first: Outcome, rest: seq<Outcome>, answers: seq<Outcome>)
    requires first.Applied? && rest <= answers
    requires forall k | 0 <= k < |rest| - 1 :: rest[k].Applied?
    requires rest != [] && LastFailure(rest).Some? ==> rest[|rest| - 1].Failed?
    requires LastFailure(rest).None? ==> forall k | 0 <= k < |rest| :: rest[k].Applied?
    ensures var all := [first] + rest;
            && all <= [first] + answers
            && (forall k | 0 <= k < |all| - 1 :: all[k].Applied?)
            && (LastFailure(all).Some? ==> all[|all| - 1].Failed?)
            && (LastFailure(all).None? ==> forall k | 0 <= k < |all| :: all[k].Applied?)
  {
    hide LastFailure, CountApplied;
    CountFromFront(first, rest);
    NoFailureIn(rest);
  }

  lemma NoFailureIn(outcomes: seq<Outcome>)
    ensures outcomes == [] ==> LastFailure(outcomes).None?
  {
  }

  // ---- Bulk. ----

  /** One item of a `_bulk` response; a missing status counts as 0. */
  datatype Item = Item(status: int)

  function ItemOutcome(item: Item): Outcome {
    if 200 <= item.status < 300 then Applied else Failed(item.status == 409)
  }

  function ItemOutcomes(items: seq<Option<Item>>): seq<Outcome>
    requires forall i | 0 <= i < |items| :: items[i].Some?
  {
    seq(|items|, i requires 0 <= i < |items| => ItemOutcome(items[i].value))
  }

  function CountConflicts(outcomes: seq<Outcome>): (n: nat)
    ensures n + CountApplied(outcomes) <= |outcomes|
  {
    if outcomes == [] then 0
    else CountConflicts(outcomes[..|outcomes| - 1]) + (if outcomes[|outcomes| - 1] == Failed(true) then 1 else 0)
  }

  lemma {:induction false} CountConflictsIs(outcomes: seq<Outcome>)
    ensures CountConflicts(outcomes) == |set i | 0 <= i < |outcomes| && outcomes[i] == Failed(true)|
  {
    hide CountApplied;
    if outcomes != [] {
      var init, last := outcomes[..|outcomes| - 1], |outcomes| - 1;
      CountConflictsIs(init);
      assert (set i | 0 <= i < |outcomes| && outcomes[i] == Failed(true))
          == (set i | 0 <= i < |init| && init[i] == Failed(true)) + if outcomes[last] == Failed(true) then {last} else {};
    }
  }

  lemma CountsSnoc(outcomes: seq<Outcome>, last: Outcome)
    ensures CountApplied(outcomes + [last]) == CountApplied(outcomes) + if last.Applied? then 1 else 0
    ensures CountConflicts(outcomes + [last]) == CountConflicts(outcomes) + if last == Failed(true) then 1 else 0
  {
    assert (outcomes + [last])[..|outcomes|] == outcomes;
  }

  lemma NothingCounted()
    ensures CountApplied([]) == 0 && CountConflicts([]) == 0
  {
  }

  predicate BulkAddsUp(notice: BulkNotice, outcomes: seq<Outcome>) {
    if notice.BulkApplied? then
      notice.applied == |outcomes| == CountApplied(outcomes)
    else
      && notice.applied + notice.failed == notice.total == |outcomes| && notice.failed > 0
      && notice.applied == CountApplied(outcomes)
      && notice.conflicts == CountConflicts(outcomes) <= notice.failed
  }

  /** What the outcomes count to, in terms of the statuses the server sent. */
  lemma CountsAreStatuses(items: seq<Option<Item>>)
    requires forall i | 0 <= i < |items| :: items[i].Some?
    ensures var applied := CountApplied(ItemOutcomes(items));
            && applied == |set i | 0 <= i < |items| && 200 <= items[i].value.status < 300|
            && |items| - applied == |set i | 0 <= i < |items| && !(200 <= items[i].value.status < 300)|
            && (applied == |items| <==> forall i | 0 <= i < |items| :: 200 <= items[i].value.status < 300)
    ensures CountConflicts(ItemOutcomes(items)) == |set i | 0 <= i < |items| && items[i].value.status == 409|
  {
    hide CountApplied, CountConflicts;
    var outcomes := ItemOutcomes(items);
    CountAppliedIs(outcomes);
    CountFailedIs(outcomes);
    AllAppliedIs(outcomes);
    CountConflictsIs(outcomes);
    assert (set i | 0 <= i < |outcomes| && outcomes[i].Applied?)
        == set i | 0 <= i < |items| && 200 <= items[i].value.status < 300;
    assert (set i | 0 <= i < |outcomes| && outcomes[i].Failed?)
        == set i | 0 <= i < |items| && !(200 <= items[i].value.status < 300);
    assert (set i | 0 <= i < |outcomes| && outcomes[i] == Failed(true))
        == set i | 0 <= i < |items| && items[i].value.status == 409;
    assert forall i | 0 <= i < |items| :: outcomes[i].Applied? <==> 200 <= items[i].value.status < 300;
  }

  /** A row tells the write it answers, and applied, conflict or failed by the status alone. */
  lemma RowTellsStatus(write: CompiledWrite, item: Item)
    ensures var row := Row(write, RowOutcomeOf(ItemOutcome(item)));
            && row.op == write.op && row.index == write.index && row.id == write.id && row.routing == write.routing
            && (row.outcome == RowApplied <==> 200 <= item.status < 300)
            && (row.outcome == RowFailed(true) <==> item.status == 409)
            && (row.outcome == RowFailed(false) <==> item.status != 409 && !(200 <= item.status < 300))
  {
  }

  /** `bulk_report`: nothing is ever "not attempted"; a malformed response is refused whole. */
  method BulkReport(writes: seq<CompiledWrite>, response: Option<seq<Option<Item>>>)
    returns (r: Result<(seq<ReportRow>, BulkNotice), WriteError>)
    ensures r.Ok? <==> response.Some? && |response.value| == |writes| && forall i | 0 <= i < |writes| :: response.value[i].Some?
    ensures response.None? ==> r == Err(NoItems)
    ensures response.Some? && |response.value| != |writes| ==> r == Err(ItemCountMismatch)
    ensures response.Some? && |response.value| == |writes| ==> r.Ok? || r == Err(ItemWithoutAction)
    ensures r.Ok? ==>
              var outcomes := ItemOutcomes(response.value);
              var (rows, notice) := r.value;
              && |rows| == |writes|
              && (forall i | 0 <= i < |writes| :: rows[i] == Row(writes[i], RowOutcomeOf(outcomes[i])))
              && BulkAddsUp(notice, outcomes)
    ensures r.Ok? ==>
              var (rows, items) := (r.value.0, response.value);
              && |rows| == |writes|
              && forall i | 0 <= i < |writes| ::
                   && rows[i].op == writes[i].op && rows[i].index == writes[i].index
                   && rows[i].id == writes[i].id && rows[i].routing == writes[i].routing
                   && (rows[i].outcome == RowApplied <==> 200 <= items[i].value.status < 300)
                   && (rows[i].outcome == RowFailed(true) <==> items[i].value.status == 409)
                   && (rows[i].outcome == RowFailed(false) <==>
                         items[i].value.status != 409 && !(200 <= items[i].value.status < 300))
    ensures r.Ok? ==>
              var (notice, items) := (r.value.1, response.value);
              && notice.applied == |set i | 0 <= i < |items| && 200 <= items[i].value.status < 300|
              && (notice.BulkApplied? <==> forall i | 0 <= i < |items| :: 200 <= items[i].value.status < 300)
              && (notice.BulkPartial? ==>
                    && notice.total == |writes|
                    && notice.failed == |set i | 0 <= i < |items| && !(200 <= items[i].value.status < 300)|
                    && notice.conflicts == |set i | 0 <= i < |items| && items[i].value.status == 409|)
  {
    hide CountApplied, CountConflicts, Row, RowOutcomeOf;
    NothingCounted();
    if response.None? {
      return Err(NoItems);
    }
    var items := response.value;
    if |items| != |writes| {
      return Err(ItemCountMismatch);
    }
    var rows: seq<ReportRow> := [];
    var applied, failed, conflicts := 0, 0, 0;
    ghost var outcomes: seq<Outcome> := [];
    for i := 0 to |writes|
      invariant forall k | 0 <= k < i :: items[k].Some?
      invariant outcomes == ItemOutcomes(items[..i])
      invariant |rows| == i && forall k | 0 <= k < i :: rows[k] == Row(writes[k], RowOutcomeOf(outcomes[k]))
      invariant applied == CountApplied(outcomes) && conflicts == CountConflicts(outcomes)
      invariant applied + failed == i && conflicts <= failed
    {
      if items[i].None? {
        return Err(ItemWithoutAction);
      }
      var outcome := ItemOutcome(items[i].value);
      assert items[..i + 1][..i] == items[..i];
      assert ItemOutcomes(items[..i + 1]) == outcomes + [outcome];
      CountsSnoc(outcomes, outcome);
      outcomes := outcomes + [outcome];
      if outcome.Applied? {
        applied := applied + 1;
      } else {
        failed := failed + 1;
        if outcome.conflict {
          conflicts := conflicts + 1;
        }
      }
      rows := rows + [Row(writes[i], RowOutcomeOf(outcome))];
    }
    assert items[..|items|] == items;
    CountsAreStatuses(items);
    forall k | 0 <= k < |writes| {
      RowTellsStatus(writes[k], items[k].value);
    }
    assert forall k | 0 <= k < |writes| :: rows[k] == Row(writes[k], RowOutcomeOf(ItemOutcome(items[k].value)));
    if failed == 0 {
      return Ok((rows, BulkApplied(applied)));
    }
    return Ok((rows, BulkPartial(applied, |writes|, failed, conflicts)));
  }
}

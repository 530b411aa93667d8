/**
  What one satisfied challenge clears: each of its bindings once, as far as the gate has room for the
  grants, and which requests are the same to a grant.
 */
module SafetyClearing {
  import opened Wrappers
  import opened SafetyLevels
  import opened SafetyGate
  import Sequences

  // ---- One take after a ceremony. ----

  lemma {:induction false} YoungGrantsKeep(xs: seq<Grant>, now: nat)
    requires forall x | x in xs :: Younger(x.born, now, GRANT_TTL)
    ensures YoungGrants(xs, now) == xs
  {
    if xs != [] {
      YoungGrantsKeep(xs[1..], now);
    }
  }

  function YoungOne(grant: Grant, now: nat): seq<Grant> {
    if Younger(grant.born, now, GRANT_TTL) then [grant] else []
  }

  lemma YoungGrantsStep(grant: Grant, rest: seq<Grant>, now: nat)
    ensures YoungGrants([grant] + rest, now) == YoungOne(grant, now) + YoungGrants(rest, now)
  {
    assert ([grant] + rest)[1..] == rest;
  }

  lemma YoungGrantsNone(ys: seq<Grant>, now: nat)
    ensures YoungGrants([] + ys, now) == YoungGrants([], now) + YoungGrants(ys, now)
  {
    assert [] + ys == ys;
    assert YoungGrants([], now) == [];
  }

  lemma Associative<T>(a: seq<T>, b: seq<T>, c: seq<T>)
    ensures a + (b + c) == (a + b) + c
  {
  }

  lemma {:induction false} YoungGrantsSplit(xs: seq<Grant>, ys: seq<Grant>, now: nat)
    ensures YoungGrants(xs + ys, now) == YoungGrants(xs, now) + YoungGrants(ys, now)
    decreases |xs|
  {
    hide YoungGrants, YoungOne;
    if xs == [] {
      YoungGrantsNone(ys, now);
    } else {
      var x, rest := xs[0], xs[1..];
      YoungGrantsSplit(rest, ys, now);
      YoungGrantsStep(x, rest, now);
      YoungGrantsStep(x, rest + ys, now);
      assert xs == [x] + rest && xs + ys == [x] + (rest + ys);
      Associative(YoungOne(x, now), YoungGrants(rest, now), YoungGrants(ys, now));
    }
  }

  /** What is newest of two lists together ends with what is newest of the second. */
  lemma NewestOfBoth<T>(xs: seq<T>, ys: seq<T>, room: nat) returns (front: seq<T>)
    ensures Newest(xs + ys, room) == front + Newest(ys, room)
    ensures |ys| >= room ==> front == []
  {
    var newest, last := Newest(xs + ys, room), Newest(ys, room);
    front := newest[..|newest| - |last|];
    assert newest[|newest| - |last|..] == last;
  }

  /** The grants a satisfied challenge leaves behind: some older ones if there is room, then the newest of its own. */
  lemma GrantsLeft(gate: Gate, phrase: string, id: nat, attestation: Attestation, now: nat, born: nat, event: nat)
    returns (older: seq<Grant>, given: seq<Grant>)
    requires AfterSatisfy(gate, phrase, id, attestation, now, born, event).1.Ok?
    ensures var (after, r) := AfterSatisfy(gate, phrase, id, attestation, now, born, event);
            var kept := Newest(r.value.bindings, MAX_GRANTS);
            && after.grants == older + given && |given| == |kept| && |after.grants| <= MAX_GRANTS
            && (forall i | 0 <= i < |given| ::
                  given[i].binding == kept[i] && given[i].requirement == r.value.requirement && given[i].born == born)
            && (|r.value.bindings| >= MAX_GRANTS ==> older == [])
  {
    var entry := AfterSatisfy(gate, phrase, id, attestation, now, born, event).1.value;
    var all := GrantsFor(entry, born, event);
    older := NewestOfBoth(YoungGrants(gate.grants, now), all, MAX_GRANTS);
    given := Newest(all, MAX_GRANTS);
  }

  lemma WithinRoom<T>(xs: seq<T>, room: nat)
    ensures |xs| <= room ==> Newest(xs, room) == xs
  {
  }

  lemma TakenExactly(gate: Gate, binding: string, wanted: Requirement, now: nat)
    ensures AfterTake(gate, binding, wanted, now).1.Some?
       <==> exists g | g in YoungGrants(gate.grants, now) :: Serves(g, binding, wanted)
  {
    var young := YoungGrants(gate.grants, now);
    var k := FindGrant(young, binding, wanted);
    assert k < |young| ==> young[k] in young;
  }

  /**
    Until its grants expire, a satisfied challenge lets a binding of its own through exactly when it
    is among the newest ones the gate has room for: with more bindings than that, the first are lost.
   */
  lemma SatisfiedClearsExactly(
    gate: Gate, phrase: string, id: nat, attestation: Attestation, now: nat, born: nat, event: nat,
    k: nat, wanted: Requirement, later: nat)
    requires later - born < 120_000_000_000
    requires var r := AfterSatisfy(gate, phrase, id, attestation, now, born, event).1;
             r.Ok? && k < |r.value.bindings| && AtLeast(r.value.requirement, wanted)
    ensures var (after, r) := AfterSatisfy(gate, phrase, id, attestation, now, born, event);
            AfterTake(after, r.value.bindings[k], wanted, later).1.Some?
            <==> r.value.bindings[k] in Newest(r.value.bindings, 64)
  {
    hide AfterSatisfy, AfterTake, YoungGrants, Newest;
    var (after, r) := AfterSatisfy(gate, phrase, id, attestation, now, born, event);
    var older, given := GrantsLeft(gate, phrase, id, attestation, now, born, event);
    YoungGrantsSplit(older, given, later);
    YoungGrantsKeep(given, later);
    var young, kept := YoungGrants(older, later) + given, Newest(r.value.bindings, MAX_GRANTS);
    assert YoungGrants(after.grants, later) == young;
    var binding := r.value.bindings[k];
    TakenExactly(after, binding, wanted, later);
    if binding in kept {
      var i :| 0 <= i < |kept| && kept[i] == binding;
      assert given[i] in young && Serves(given[i], binding, wanted);
    } else {
      WithinRoom(r.value.bindings, MAX_GRANTS);
      YoungGrantsOf(older, later);
      forall g | g in young ensures g.binding != binding {
        var i :| 0 <= i < |given| && given[i] == g;
        assert kept[i] in kept;
      }
    }
  }

  /** A plan of a long script loses its first statement, though the ceremony was for all of them. */
  lemma LongScriptLosesFirst(
    gate: Gate, phrase: string, id: nat, attestation: Attestation, now: nat, born: nat, event: nat,
    script: string, statements: seq<string>, wanted: Requirement, later: nat)
    requires later - born < 120_000_000_000
    requires |statements| >= 64 && statements[0] !in statements[1..] && statements[0] != Trim(script)
    requires var r := AfterSatisfy(gate, phrase, id, attestation, now, born, event).1;
             r.Ok? && r.value.bindings == PlanBindings(script, statements) && AtLeast(r.value.requirement, wanted)
    ensures AfterTake(AfterSatisfy(gate, phrase, id, attestation, now, born, event).0, statements[0], wanted, later).1.None?
  {
    hide AfterSatisfy;
    var bindings := PlanBindings(script, statements);
    SatisfiedClearsExactly(gate, phrase, id, attestation, now, born, event, 0, wanted, later);
    forall i | 1 <= i < |bindings| ensures bindings[i] != statements[0] {
      assert i < |statements| ==> bindings[i] == statements[1..][i - 1];
    }
  }

  /** The strings of zero, one, two, ... marks. */
  function Tallies(n: nat): seq<string> {
    seq(n, i requires 0 <= i < n => seq(i, _ => 'x'))
  }

  /** A challenge with one binding too many: satisfied, and its first binding refused at once. */
  lemma OneTooMany(level: SafetyLevel)
    ensures var entry := Pending(7, Warn, Tallies(65), 0, 0);
            var (after, r) := AfterSatisfy(Gate(level, [entry], []), "", 7, Acknowledged, 0, 0, 0);
            r == Ok(entry) && AfterTake(after, entry.bindings[0], Warn, 0).1.None?
  {
    var entry := Pending(7, Warn, Tallies(65), 0, 0);
    var gate := Gate(level, [entry], []);
    assert [entry][1..] == [];
    assert YoungPending([entry], 0) == [entry] + YoungPending([], 0) == [entry];
    assert FindChallenge([entry], 7) == 0;
    assert forall i | 0 < i < |entry.bindings| :: |entry.bindings[i]| > |entry.bindings[0]|;
    SatisfiedClearsExactly(gate, "", 7, Acknowledged, 0, 0, 0, 0, Warn, 0);
  }

  // ---- Every binding in turn. ----

  datatype Ask = Ask(binding: string, wanted: Requirement, at: nat)

  /** A series of takes that all succeed. */
  predicate AllTaken(gate: Gate, asks: seq<Ask>)
    decreases |asks|
  {
    asks == [] ||
    var (next, taken) := AfterTake(gate, asks[0].binding, asks[0].wanted, asks[0].at);
    taken.Some? && AllTaken(next, asks[1..])
  }

  function Asked(asks: seq<Ask>): multiset<string>
    decreases |asks|
  {
    if asks == [] then multiset{} else multiset{asks[0].binding} + Asked(asks[1..])
  }

  /** In time for grants given at `born`, and asking for no more than they carry. */
  predicate Covered(asks: seq<Ask>, requirement: Requirement, born: nat) {
    forall i | 0 <= i < |asks| :: asks[i].at - born < 120_000_000_000 && AtLeast(requirement, asks[i].wanted)
  }

  predicate Lasts(grant: Grant, requirement: Requirement, born: nat) {
    grant.born >= born && AtLeast(grant.requirement, requirement)
  }

  /** The bindings of the grants that are at least as young and strong as asked, with repeats. */
  function Held(xs: seq<Grant>, requirement: Requirement, born: nat): multiset<string>
    decreases |xs|
  {
    if xs == [] then multiset{}
    else (if Lasts(xs[0], requirement, born) then multiset{xs[0].binding} else multiset{}) + Held(xs[1..], requirement, born)
  }

  lemma {:induction false} HeldWhenYoung(xs: seq<Grant>, requirement: Requirement, born: nat, now: nat)
    requires now - born < GRANT_TTL
    ensures Held(YoungGrants(xs, now), requirement, born) == Held(xs, requirement, born)
    decreases |xs|
  {
    if xs != [] {
      HeldWhenYoung(xs[1..], requirement, born, now);
      var young := YoungGrants(xs, now);
      if Younger(xs[0].born, now, GRANT_TTL) {
        assert young[1..] == YoungGrants(xs[1..], now);
      } else {
        assert young == YoungGrants(xs[1..], now);
      }
    }
  }

  lemma {:induction false} HeldJoined(xs: seq<Grant>, ys: seq<Grant>, requirement: Requirement, born: nat)
    ensures Held(xs + ys, requirement, born) == Held(xs, requirement, born) + Held(ys, requirement, born)
    decreases |xs|
  {
    if xs == [] {
      assert xs + ys == ys;
    } else {
      assert (xs + ys)[1..] == xs[1..] + ys;
      HeldJoined(xs[1..], ys, requirement, born);
    }
  }

  /** Using up a grant takes away its own binding at most. */
  lemma HeldWithout(xs: seq<Grant>, k: nat, requirement: Requirement, born: nat)
    requires k < |xs|
    ensures Held(xs, requirement, born) <= Held(Without(xs, k), requirement, born) + multiset{xs[k].binding}
  {
    var here, rest := [xs[k]], xs[k + 1..];
    assert xs == xs[..k] + (here + rest);
    HeldJoined(xs[..k], here + rest, requirement, born);
    HeldJoined(here, rest, requirement, born);
    HeldJoined(xs[..k], rest, requirement, born);
    assert here[1..] == [];
    assert Held(here, requirement, born) <= multiset{xs[k].binding};
  }

  lemma {:induction false} HeldIsThere(xs: seq<Grant>, requirement: Requirement, born: nat, binding: string) returns (k: nat)
    requires binding in Held(xs, requirement, born)
    ensures k < |xs| && xs[k].binding == binding && Lasts(xs[k], requirement, born)
    decreases |xs|
  {
    if Lasts(xs[0], requirement, born) && xs[0].binding == binding {
      k := 0;
    } else {
      k := HeldIsThere(xs[1..], requirement, born, binding);
      k := k + 1;
    }
  }

  lemma TakeHeld(gate: Gate, ask: Ask, requirement: Requirement, born: nat)
    requires ask.at - born < GRANT_TTL && AtLeast(requirement, ask.wanted)
    requires ask.binding in Held(gate.grants, requirement, born)
    ensures var (next, taken) := AfterTake(gate, ask.binding, ask.wanted, ask.at);
            && taken.Some?
            && Held(gate.grants, requirement, born) <= Held(next.grants, requirement, born) + multiset{ask.binding}
  {
    var young := YoungGrants(gate.grants, ask.at);
    HeldWhenYoung(gate.grants, requirement, born, ask.at);
    var i := HeldIsThere(young, requirement, born, ask.binding);
    assert Serves(young[i], ask.binding, ask.wanted);
    HeldWithout(young, FindGrant(young, ask.binding, ask.wanted), requirement, born);
  }

  lemma TakeOffBoth(binding: string, asked: multiset<string>, held: multiset<string>)
    requires multiset{binding} + asked <= held + multiset{binding}
    ensures asked <= held
  {
    forall b ensures asked[b] <= held[b] {
      assert (multiset{binding} + asked)[b] <= (held + multiset{binding})[b];
    }
  }

  lemma {:induction false} HeldAreTaken(gate: Gate, asks: seq<Ask>, requirement: Requirement, born: nat)
    requires Covered(asks, requirement, born) && Asked(asks) <= Held(gate.grants, requirement, born)
    ensures AllTaken(gate, asks)
    decreases |asks|
  {
    hide AfterTake, Held, YoungGrants;
    if asks != [] {
      assert Asked(asks)[asks[0].binding] > 0;
      TakeHeld(gate, asks[0], requirement, born);
      var next := AfterTake(gate, asks[0].binding, asks[0].wanted, asks[0].at).0;
      TakeOffBoth(asks[0].binding, Asked(asks[1..]), Held(next.grants, requirement, born));
      HeldAreTaken(next, asks[1..], requirement, born);
    }
  }

  lemma {:induction false} NoMoreThanHeld(gate: Gate, asks: seq<Ask>)
    requires AllTaken(gate, asks)
    ensures |asks| <= |gate.grants|
    decreases |asks|
  {
    if asks != [] {
      YoungGrantsOf(gate.grants, asks[0].at);
      NoMoreThanHeld(AfterTake(gate, asks[0].binding, asks[0].wanted, asks[0].at).0, asks[1..]);
    }
  }

  lemma {:induction false} AllLast(xs: seq<Grant>, bindings: seq<string>, requirement: Requirement, born: nat)
    requires |xs| == |bindings|
    requires forall i | 0 <= i < |xs| :: xs[i].binding == bindings[i] && Lasts(xs[i], requirement, born)
    ensures Held(xs, requirement, born) == multiset(bindings)
    decreases |xs|
  {
    if xs != [] {
      AllLast(xs[1..], bindings[1..], requirement, born);
      assert bindings == [bindings[0]] + bindings[1..];
    }
  }

  lemma {:induction false} AskedCount(asks: seq<Ask>)
    ensures |Asked(asks)| == |asks|
    decreases |asks|
  {
    if asks != [] {
      AskedCount(asks[1..]);
    }
  }

  /** The newest bindings, as many as there is room for, are let through in any order, one take each. */
  lemma NewestAreTaken(
    gate: Gate, phrase: string, id: nat, attestation: Attestation, now: nat, born: nat, event: nat, asks: seq<Ask>)
    requires var r := AfterSatisfy(gate, phrase, id, attestation, now, born, event).1;
             && r.Ok? && Covered(asks, r.value.requirement, born)
             && Asked(asks) <= multiset(Newest(r.value.bindings, 64))
    ensures AllTaken(AfterSatisfy(gate, phrase, id, attestation, now, born, event).0, asks)
  {
    hide AfterSatisfy, Held, AllTaken;
    var (after, r) := AfterSatisfy(gate, phrase, id, attestation, now, born, event);
    var older, given := GrantsLeft(gate, phrase, id, attestation, now, born, event);
    HeldJoined(older, given, r.value.requirement, born);
    AllLast(given, Newest(r.value.bindings, MAX_GRANTS), r.value.requirement, born);
    HeldAreTaken(after, asks, r.value.requirement, born);
  }

  /**
    One ceremony clears each statement it listed: asking for every binding in turn, in any order and
    in time, succeeds throughout exactly when the gate has room for all of the grants.
   */
  lemma CeremonyClearsExactly(
    gate: Gate, phrase: string, id: nat, attestation: Attestation, now: nat, born: nat, event: nat, asks: seq<Ask>)
    requires var r := AfterSatisfy(gate, phrase, id, attestation, now, born, event).1;
             r.Ok? && Covered(asks, r.value.requirement, born) && Asked(asks) == multiset(r.value.bindings)
    ensures var (after, r) := AfterSatisfy(gate, phrase, id, attestation, now, born, event);
            AllTaken(after, asks) <==> |r.value.bindings| <= 64
  {
    hide AfterSatisfy, Held, AllTaken, Covered;
    var (after, r) := AfterSatisfy(gate, phrase, id, attestation, now, born, event);
    if |r.value.bindings| <= MAX_GRANTS {
      NewestAreTaken(gate, phrase, id, attestation, now, born, event, asks);
    }
    if AllTaken(after, asks) {
      var older, given := GrantsLeft(gate, phrase, id, attestation, now, born, event);
      NoMoreThanHeld(after, asks);
      AskedCount(asks);
      assert |asks| == |multiset(r.value.bindings)| == |r.value.bindings|;
    }
  }

  // ---- What a grant can tell apart. ----

  predicate NulFree(request: Request) {
    request.Native? ==> '\0' !in Trim(request.text)
  }

  /** Two requests that read the same once trimmed and printed. */
  predicate SameAsPrinted(a: Request, b: Request, showParams: seq<string> -> string, showOp: Op -> string) {
    match (a, b)
    case (Native(s, ps), Native(t, qs)) =>
      Trim(s) == Trim(t) && (ps == [] <==> qs == []) && (ps != [] ==> showParams(ps) == showParams(qs))
    case (Plain(x), Plain(y)) => showOp(x) == showOp(y)
    case (Native(s, ps), Plain(y)) => Trim(s) == "op" && ps != [] && showParams(ps) == showOp(y)
    case (Plain(x), Native(t, qs)) => Trim(t) == "op" && qs != [] && showParams(qs) == showOp(x)
  }

  lemma NoNulNoMatch(a: string, b: string, c: string)
    requires '\0' !in a
    ensures a != b + ['\0'] + c
  {
    assert (b + ['\0'] + c)[|b|] == '\0';
  }

  /** Among requests without NUL characters, a binding stands for one trimmed text with its printed parameters. */
  lemma BindingTells(a: Request, b: Request, showParams: seq<string> -> string, showOp: Op -> string)
    requires NulFree(a) && NulFree(b)
    ensures BindingOf(a, showParams, showOp) == BindingOf(b, showParams, showOp)
       <==> SameAsPrinted(a, b, showParams, showOp)
  {
    var (p, x) := Pieces(a, showParams, showOp);
    var (q, y) := Pieces(b, showParams, showOp);
    if x.Some? && y.Some? {
      if p + ['\0'] + x.value == q + ['\0'] + y.value {
        Sequences.SplitsAtFirst('\0', p, x.value, q, y.value);
      }
    } else if x.Some? {
      NoNulNoMatch(q, p, x.value);
    } else if y.Some? {
      NoNulNoMatch(p, q, y.value);
    }
  }

  /** A binding before and after its NUL. */
  function Pieces(request: Request, showParams: seq<string> -> string, showOp: Op -> string): (string, Option<string>) {
    match request
    case Native(text, params) => (Trim(text), if params == [] then None else Some(showParams(params)))
    case Plain(op) => ("op", Some(showOp(op)))
  }

  /** A text that holds a NUL can pass for another text with parameters. */
  lemma NulCollides(params: seq<string>, showParams: seq<string> -> string, showOp: Op -> string)
    requires params != [] && showParams(params) != "" && !IsBlank(showParams(params)[|showParams(params)| - 1])
    ensures BindingOf(Native("x" + ['\0'] + showParams(params), []), showParams, showOp)
         == BindingOf(Native("x", params), showParams, showOp)
  {
    var text := "x" + ['\0'] + showParams(params);
    assert text[0] == 'x' && text[|text| - 1] == showParams(params)[|showParams(params)| - 1];
    assert Trim(text) == text && Trim("x") == "x";
  }

  // ---- What is open and what is kept. ----

  predicate DistinctIds(xs: seq<Pending>) {
    forall i, j | 0 <= i < j < |xs| :: xs[i].id != xs[j].id
  }

  lemma {:induction false} YoungExactly(xs: seq<Pending>, now: nat)
    ensures forall p :: p in YoungPending(xs, now) <==> p in xs && now - p.born < 300_000_000_000
    decreases |xs|
  {
    if xs != [] {
      YoungExactly(xs[1..], now);
      assert forall p :: p in xs <==> p == xs[0] || p in xs[1..];
    }
  }

  /** A challenge is cleared exactly when it is pending, not older than five minutes, and the evidence is enough for it. */
  lemma ClearedExactly(
    gate: Gate, phrase: string, id: nat, attestation: Attestation, now: nat, born: nat, event: nat)
    requires DistinctIds(gate.pending)
    ensures AfterSatisfy(gate, phrase, id, attestation, now, born, event).1.Ok? <==>
              exists p :: p in gate.pending && p.id == id && now - p.born < 300_000_000_000
                          && Satisfies(attestation, p.requirement, phrase)
  {
    hide Satisfies, YoungGrants;
    YoungExactly(gate.pending, now);
    var young := YoungPending(gate.pending, now);
    var k := FindChallenge(young, id);
    if k < |young| {
      assert young[k] in young;
    }
    if p :| p in gate.pending && p.id == id && now - p.born < 300_000_000_000 && Satisfies(attestation, p.requirement, phrase) {
      assert p in young;
      assert k < |young|;
      assert young[k] in gate.pending;
      var i :| 0 <= i < |gate.pending| && gate.pending[i] == p;
      var j :| 0 <= j < |gate.pending| && gate.pending[j] == young[k];
    }
  }

  /** Posting a challenge keeps it, and of the pending ones that are not older than five minutes the newest fifteen, in order. */
  lemma PostedExactly(gate: Gate, entry: Pending, now: nat)
    ensures var young, after := YoungPending(gate.pending, now), AfterMint(gate, entry, now);
            && after.pending == (if |young| <= 15 then young else young[|young| - 15..]) + [entry]
            && (forall p :: p in young <==> p in gate.pending && now - p.born < 300_000_000_000)
            && after.level == gate.level
  {
    hide YoungGrants;
    YoungExactly(gate.pending, now);
    var young := YoungPending(gate.pending, now);
    assert young[..] == young;
  }
}

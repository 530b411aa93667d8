/**
  Any number of callers planning, admitting and satisfying at once, one region of the gate's lock at
  a time, with time passing and the rung changing in between. Every admission of a gated request is
  traced back to its own piece of evidence.
 */
module SafetyRuns {
  import opened Wrappers
  import opened SafetyLevels
  import opened SafetyGate
  import opened SafetyReads

  datatype Setting = Setting(
    phrase: string,
    language: Language,
    showParams: seq<string> -> string,
    showOp: Op -> string)

  /** A call between two of its lock regions. */
  datatype Caller =
    | Planning(script: string, todo: seq<string>, bindings: seq<string>, requirement: Requirement)
    | Checking(request: Request, binding: string, read: bool, seen: SafetyLevel)
    | Minting(requirement: Requirement, bindings: seq<string>)
    | Posting(id: nat, requirement: Requirement, bindings: seq<string>)

  /** What happened, in order. `Granted` and `Passed` carry the rung that `admit` read. */
  datatype Entry =
    | Minted(id: nat, requirement: Requirement, bindings: seq<string>, at: nat)
    | Cleared(id: nat, attestation: Attestation, requirement: Requirement, bindings: seq<string>,
              minted: nat, judged: nat, at: nat)
    | Passed(request: Request, binding: string, read: bool, seen: SafetyLevel)
    | Granted(request: Request, binding: string, read: bool, seen: SafetyLevel, at: nat, origin: Origin)
    | Changed(level: SafetyLevel)

  datatype World = World(gate: Gate, next: nat, clock: nat, callers: map<nat, Caller>, log: seq<Entry>)

  datatype Step =
    | StartPlan(caller: nat, script: string)
    | PlanStatement(caller: nat)
    | EndPlan(caller: nat)
    | StartAdmit(caller: nat, request: Request)
    | Take(caller: nat, now: nat)
    | Draw(caller: nat)
    | Post(caller: nat, now: nat, born: nat)
    | Satisfy(id: nat, attestation: Attestation, now: nat, born: nat)
    | SetLevel(level: SafetyLevel)
    | Look(now: nat)

  function Start(level: SafetyLevel): World {
    World(Gate(level, [], []), 1, 0, map[], [])
  }

  /** Which steps can happen: a caller does its regions in order, and the clock never goes back. */
  predicate Enabled(w: World, step: Step) {
    match step
    case StartPlan(c, _) => c !in w.callers
    case PlanStatement(c) => c in w.callers && w.callers[c].Planning? && w.callers[c].todo != []
    case EndPlan(c) => c in w.callers && w.callers[c].Planning? && w.callers[c].todo == []
    case StartAdmit(c, _) => c !in w.callers
    case Take(c, now) => c in w.callers && w.callers[c].Checking? && w.clock <= now
    case Draw(c) => c in w.callers && w.callers[c].Minting?
    case Post(c, now, born) => c in w.callers && w.callers[c].Posting? && w.clock <= now <= born
    case Satisfy(_, _, now, born) => w.clock <= now <= born
    case SetLevel(_) => true
    case Look(now) => w.clock <= now
  }

  function PlanStep(setting: Setting, level: SafetyLevel, plan: Caller): Caller
    requires plan.Planning? && plan.todo != []
  {
    var statement := plan.todo[0];
    plan.(todo := plan.todo[1..],
          bindings := plan.bindings + [statement],
          requirement := Stronger(plan.requirement, Required(level, StatementReads(setting.language, statement))))
  }

  function TakeStep(w: World, c: nat, now: nat): World
    requires c in w.callers && w.callers[c].Checking?
  {
    var caller := w.callers[c];
    var requirement := Required(caller.seen, caller.read);
    var (gate, taken) := AfterTake(w.gate, caller.binding, requirement, now);
    if taken.Some? then
      w.(gate := gate, clock := now, callers := w.callers - {c},
         log := w.log + [Granted(caller.request, caller.binding, caller.read, caller.seen, now, taken.value.origin)])
    else
      w.(gate := gate, clock := now, callers := w.callers[c := Minting(requirement, [caller.binding])])
  }

  function PostStep(w: World, c: nat, now: nat, born: nat): World
    requires c in w.callers && w.callers[c].Posting?
  {
    var caller := w.callers[c];
    var entry := Pending(caller.id, caller.requirement, caller.bindings, born, |w.log|);
    w.(gate := AfterMint(w.gate, entry, now), clock := born, callers := w.callers - {c},
       log := w.log + [Minted(caller.id, caller.requirement, caller.bindings, born)])
  }

  function SatisfyStep(setting: Setting, w: World, id: nat, attestation: Attestation, now: nat, born: nat): World {
    var (gate, r) := AfterSatisfy(w.gate, setting.phrase, id, attestation, now, born, |w.log|);
    if r.Err? then w.(gate := gate, clock := born)
    else
      w.(gate := gate, clock := born,
         log := w.log + [Cleared(id, attestation, r.value.requirement, r.value.bindings, r.value.minted, now, born)])
  }

  function AdmitStep(setting: Setting, w: World, c: nat, request: Request): World {
    var binding := BindingOf(request, setting.showParams, setting.showOp);
    var read := IsRead(setting.language, request);
    if Required(w.gate.level, read) == Nothing then
      w.(log := w.log + [Passed(request, binding, read, w.gate.level)])
    else
      w.(callers := w.callers[c := Checking(request, binding, read, w.gate.level)])
  }

  function Perform(setting: Setting, w: World, step: Step): World
    requires Enabled(w, step)
  {
    match step
    case StartPlan(c, script) =>
      w.(callers := w.callers[c := Planning(script, Statements(setting.language.split(script)), [], Nothing)])
    case PlanStatement(c) =>
      w.(callers := w.callers[c := PlanStep(setting, w.gate.level, w.callers[c])])
    case EndPlan(c) =>
      var plan := w.callers[c];
      if plan.requirement == Nothing then w.(callers := w.callers - {c})
      else w.(callers := w.callers[c := Minting(plan.requirement, PlanBindings(plan.script, plan.bindings))])
    case StartAdmit(c, request) => AdmitStep(setting, w, c, request)
    case Take(c, now) => TakeStep(w, c, now)
    case Draw(c) =>
      var caller := w.callers[c];
      w.(next := w.next + 1, callers := w.callers[c := Posting(w.next, caller.requirement, caller.bindings)])
    case Post(c, now, born) => PostStep(w, c, now, born)
    case Satisfy(id, attestation, now, born) => SatisfyStep(setting, w, id, attestation, now, born)
    case SetLevel(level) =>
      if level == w.gate.level then w
      else w.(gate := AfterSetLevel(w.gate, level), log := w.log + [Changed(level)])
    case Look(now) => w.(gate := Pruned(w.gate, now), clock := now)
  }

  /** A whole run; a step that cannot happen yet is passed over. */
  function Run(setting: Setting, w: World, steps: seq<Step>): World
    decreases |steps|
  {
    if steps == [] then w
    else Run(setting, if Enabled(w, steps[0]) then Perform(setting, w, steps[0]) else w, steps[1..])
  }

  // ---- What is always true. ----

  predicate NoChange(log: seq<Entry>, from: nat, to: nat)
    requires to <= |log|
  {
    forall k | from < k < to :: !log[k].Changed?
  }

  /** A cleared challenge: minted before, under the same rung, still open, and on sufficient evidence. */
  predicate ClearedSound(phrase: string, log: seq<Entry>, i: nat)
    requires i < |log| && log[i].Cleared?
  {
    var c := log[i];
    && c.minted < i
    && log[c.minted].Minted?
    && log[c.minted].id == c.id && log[c.minted].requirement == c.requirement && log[c.minted].bindings == c.bindings
    && log[c.minted].at <= c.judged <= c.at
    && c.judged - log[c.minted].at < CHALLENGE_TTL
    && NoChange(log, c.minted, i)
    && Satisfies(c.attestation, c.requirement, phrase)
  }

  /** The place in the history a grant came from: one binding of one cleared challenge. */
  predicate Backs(log: seq<Entry>, origin: Origin, binding: string, requirement: Requirement, before: nat)
    requires before <= |log|
  {
    && origin.event < before
    && log[origin.event].Cleared?
    && origin.slot < |log[origin.event].bindings|
    && log[origin.event].bindings[origin.slot] == binding
    && AtLeast(log[origin.event].requirement, requirement)
    && NoChange(log, log[origin.event].minted, before)
  }

  predicate GrantedSound(log: seq<Entry>, i: nat)
    requires i < |log| && log[i].Granted?
  {
    var g := log[i];
    && Required(g.seen, g.read) != Nothing
    && Backs(log, g.origin, g.binding, Required(g.seen, g.read), i)
    && 0 <= g.at - log[g.origin.event].at < GRANT_TTL
  }

  predicate EntrySound(phrase: string, log: seq<Entry>, i: nat)
    requires i < |log|
  {
    && (log[i].Cleared? ==> ClearedSound(phrase, log, i))
    && (log[i].Granted? ==> GrantedSound(log, i))
    && (log[i].Passed? ==> Required(log[i].seen, log[i].read) == Nothing)
  }

  /** No id is minted twice, no challenge cleared twice, no grant used twice. */
  predicate Once(log: seq<Entry>) {
    && (forall i, j | 0 <= i < j < |log| && log[i].Minted? && log[j].Minted? :: log[i].id != log[j].id)
    && (forall i, j | 0 <= i < j < |log| && log[i].Cleared? && log[j].Cleared? :: log[i].minted != log[j].minted)
    && (forall i, j | 0 <= i < j < |log| && log[i].Granted? && log[j].Granted? :: log[i].origin != log[j].origin)
  }

  predicate LogSound(phrase: string, log: seq<Entry>) {
    Once(log) && forall i | 0 <= i < |log| :: EntrySound(phrase, log, i)
  }

  predicate PendingSound(log: seq<Entry>, clock: nat, p: Pending) {
    && p.minted < |log|
    && log[p.minted] == Minted(p.id, p.requirement, p.bindings, p.born)
    && p.born <= clock
    && NoChange(log, p.minted, |log|)
    && (forall i | 0 <= i < |log| && log[i].Cleared? :: log[i].minted != p.minted)
  }

  predicate GrantSound(log: seq<Entry>, clock: nat, g: Grant) {
    && Backs(log, g.origin, g.binding, g.requirement, |log|)
    && log[g.origin.event].at == g.born <= clock
    && (forall i | 0 <= i < |log| && log[i].Granted? :: log[i].origin != g.origin)
  }

  predicate DistinctPending(xs: seq<Pending>) {
    forall i, j | 0 <= i < j < |xs| :: xs[i].minted != xs[j].minted
  }

  predicate DistinctGrants(xs: seq<Grant>) {
    forall i, j | 0 <= i < j < |xs| :: xs[i].origin != xs[j].origin
  }

  predicate GateSound(log: seq<Entry>, clock: nat, gate: Gate) {
    && |gate.pending| <= MAX_PENDING && |gate.grants| <= MAX_GRANTS
    && DistinctPending(gate.pending) && DistinctGrants(gate.grants)
    && (forall p | p in gate.pending :: PendingSound(log, clock, p))
    && (forall g | g in gate.grants :: GrantSound(log, clock, g))
  }

  /** Ids come from one counter: none is in two hands, and none in hand has been used. */
  predicate IdsSound(log: seq<Entry>, next: nat, callers: map<nat, Caller>) {
    && (forall i | 0 <= i < |log| && log[i].Minted? :: log[i].id < next)
    && (forall c | c in callers && callers[c].Posting? :: callers[c].id < next)
    && (forall c, i | c in callers && callers[c].Posting? && 0 <= i < |log| && log[i].Minted? ::
          log[i].id != callers[c].id)
    && (forall c, d | c in callers && d in callers && c != d && callers[c].Posting? && callers[d].Posting? ::
          callers[c].id != callers[d].id)
    && (forall c | c in callers && callers[c].Checking? :: Required(callers[c].seen, callers[c].read) != Nothing)
  }

  predicate Sound(setting: Setting, w: World) {
    && LogSound(setting.phrase, w.log)
    && GateSound(w.log, w.clock, w.gate)
    && IdsSound(w.log, w.next, w.callers)
  }

  // ---- Losing entries keeps a gate sound. ----

  lemma {:induction false} YoungPendingDistinct(xs: seq<Pending>, now: nat)
    requires DistinctPending(xs)
    ensures DistinctPending(YoungPending(xs, now))
  {
    if xs != [] {
      assert forall i | 0 <= i < |xs[1..]| :: xs[1..][i] == xs[i + 1];
      YoungPendingDistinct(xs[1..], now);
      YoungPendingOf(xs[1..], now);
    }
  }

  lemma {:induction false} YoungGrantsDistinct(xs: seq<Grant>, now: nat)
    requires DistinctGrants(xs)
    ensures DistinctGrants(YoungGrants(xs, now))
  {
    if xs != [] {
      assert forall i | 0 <= i < |xs[1..]| :: xs[1..][i] == xs[i + 1];
      YoungGrantsDistinct(xs[1..], now);
      YoungGrantsOf(xs[1..], now);
    }
  }

  lemma PruneSound(log: seq<Entry>, clock: nat, gate: Gate, now: nat)
    requires GateSound(log, clock, gate) && clock <= now
    ensures GateSound(log, now, Pruned(gate, now))
    ensures forall p | p in Pruned(gate, now).pending :: Younger(p.born, now, CHALLENGE_TTL)
    ensures forall g | g in Pruned(gate, now).grants :: Younger(g.born, now, GRANT_TTL)
  {
    YoungPendingOf(gate.pending, now);
    YoungGrantsOf(gate.grants, now);
    YoungPendingDistinct(gate.pending, now);
    YoungGrantsDistinct(gate.grants, now);
    forall p | p in Pruned(gate, now).pending ensures PendingSound(log, now, p) {
      assert PendingSound(log, clock, p);
    }
    forall g | g in Pruned(gate, now).grants ensures GrantSound(log, now, g) {
      assert GrantSound(log, clock, g);
    }
  }

  lemma WithoutGrantSound(log: seq<Entry>, clock: nat, gate: Gate, k: nat)
    requires GateSound(log, clock, gate) && k < |gate.grants|
    ensures GateSound(log, clock, gate.(grants := Without(gate.grants, k)))
    ensures forall g | g in Without(gate.grants, k) :: g.origin != gate.grants[k].origin
  {
  }

  lemma WithoutPendingSound(log: seq<Entry>, clock: nat, gate: Gate, k: nat)
    requires GateSound(log, clock, gate) && k < |gate.pending|
    ensures GateSound(log, clock, gate.(pending := Without(gate.pending, k)))
    ensures forall p | p in Without(gate.pending, k) :: p.minted != gate.pending[k].minted
  {
  }

  // ---- One more entry in the history. ----

  lemma NoChangeGrows(log: seq<Entry>, entry: Entry, from: nat, to: nat)
    requires to <= |log| && NoChange(log, from, to)
    ensures NoChange(log + [entry], from, to)
    ensures to == |log| && !entry.Changed? ==> NoChange(log + [entry], from, to + 1)
  {
  }

  lemma EntryStaysSound(phrase: string, log: seq<Entry>, entry: Entry, i: nat)
    requires i < |log| && EntrySound(phrase, log, i)
    ensures EntrySound(phrase, log + [entry], i)
  {
    if log[i].Cleared? {
      NoChangeGrows(log, entry, log[i].minted, i);
    } else if log[i].Granted? {
      NoChangeGrows(log, entry, log[log[i].origin.event].minted, i);
    }
  }

  lemma LogGrows(phrase: string, log: seq<Entry>, entry: Entry)
    requires LogSound(phrase, log)
    requires EntrySound(phrase, log + [entry], |log|)
    requires entry.Minted? ==> forall i | 0 <= i < |log| && log[i].Minted? :: log[i].id != entry.id
    requires entry.Cleared? ==> forall i | 0 <= i < |log| && log[i].Cleared? :: log[i].minted != entry.minted
    requires entry.Granted? ==> forall i | 0 <= i < |log| && log[i].Granted? :: log[i].origin != entry.origin
    ensures LogSound(phrase, log + [entry])
  {
    forall i | 0 <= i < |log| + 1 ensures EntrySound(phrase, log + [entry], i) {
      if i < |log| {
        EntryStaysSound(phrase, log, entry, i);
      }
    }
  }

  lemma PendingStaysSound(log: seq<Entry>, clock: nat, p: Pending, entry: Entry)
    requires PendingSound(log, clock, p) && !entry.Changed?
    requires entry.Cleared? ==> entry.minted != p.minted
    ensures PendingSound(log + [entry], clock, p)
  {
    NoChangeGrows(log, entry, p.minted, |log|);
  }

  lemma GrantStaysSound(log: seq<Entry>, clock: nat, g: Grant, entry: Entry)
    requires GrantSound(log, clock, g) && !entry.Changed?
    requires entry.Granted? ==> entry.origin != g.origin
    ensures GrantSound(log + [entry], clock, g)
  {
    NoChangeGrows(log, entry, log[g.origin.event].minted, |log|);
  }

  lemma GateGrows(log: seq<Entry>, clock: nat, gate: Gate, entry: Entry)
    requires GateSound(log, clock, gate) && !entry.Changed?
    requires entry.Cleared? ==> forall p | p in gate.pending :: entry.minted != p.minted
    requires entry.Granted? ==> forall g | g in gate.grants :: entry.origin != g.origin
    ensures GateSound(log + [entry], clock, gate)
  {
    forall p | p in gate.pending ensures PendingSound(log + [entry], clock, p) {
      PendingStaysSound(log, clock, p, entry);
    }
    forall g | g in gate.grants ensures GrantSound(log + [entry], clock, g) {
      GrantStaysSound(log, clock, g, entry);
    }
  }

  lemma GateClock(log: seq<Entry>, clock: nat, gate: Gate, later: nat)
    requires GateSound(log, clock, gate) && clock <= later
    ensures GateSound(log, later, gate)
  {
    forall p | p in gate.pending ensures PendingSound(log, later, p) {
      assert PendingSound(log, clock, p);
    }
    forall g | g in gate.grants ensures GrantSound(log, later, g) {
      assert GrantSound(log, clock, g);
    }
  }

  // ---- Each step keeps all of it. ----

  /** Using up a grant that is young and strong enough leaves history and gate sound. */
  lemma GrantUsed(phrase: string, log: seq<Entry>, clock: nat, gate: Gate, k: nat, entry: Entry)
    requires LogSound(phrase, log) && GateSound(log, clock, gate) && k < |gate.grants|
    requires Younger(gate.grants[k].born, clock, GRANT_TTL)
    requires entry.Granted? && entry.at == clock && entry.origin == gate.grants[k].origin
    requires Required(entry.seen, entry.read) != Nothing
    requires Serves(gate.grants[k], entry.binding, Required(entry.seen, entry.read))
    ensures LogSound(phrase, log + [entry])
    ensures GateSound(log + [entry], clock, gate.(grants := Without(gate.grants, k)))
  {
    hide Once, PendingSound, DistinctPending;
    var g := gate.grants[k];
    assert GrantSound(log, clock, g);
    WithoutGrantSound(log, clock, gate, k);
    GateGrows(log, clock, gate.(grants := Without(gate.grants, k)), entry);
    NoChangeGrows(log, entry, log[g.origin.event].minted, |log|);
    LogGrows(phrase, log, entry);
  }

  lemma TakeKeeps(setting: Setting, w: World, c: nat, now: nat)
    requires Sound(setting, w) && c in w.callers && w.callers[c].Checking? && w.clock <= now
    ensures Sound(setting, TakeStep(w, c, now))
  {
    hide GateSound, LogSound, Pruned;
    var caller := w.callers[c];
    var requirement := Required(caller.seen, caller.read);
    var young := Pruned(w.gate, now);
    PruneSound(w.log, w.clock, w.gate, now);
    var k := FindGrant(young.grants, caller.binding, requirement);
    if k < |young.grants| {
      var entry := Granted(caller.request, caller.binding, caller.read, caller.seen, now, young.grants[k].origin);
      assert young.grants[k] in young.grants;
      GrantUsed(setting.phrase, w.log, now, young, k, entry);
    }
  }

  lemma PostKeeps(setting: Setting, w: World, c: nat, now: nat, born: nat)
    requires Sound(setting, w) && c in w.callers && w.callers[c].Posting? && w.clock <= now <= born
    ensures Sound(setting, PostStep(w, c, now, born))
  {
    var caller := w.callers[c];
    var young := Pruned(w.gate, now);
    var entry := Minted(caller.id, caller.requirement, caller.bindings, born);
    PruneSound(w.log, w.clock, w.gate, now);
    GateGrows(w.log, now, young, entry);
    GateClock(w.log + [entry], now, young, born);
    LogGrows(setting.phrase, w.log, entry);
    forall i | 0 <= i < |w.log| && w.log[i].Cleared? ensures w.log[i].minted < |w.log| {
      assert EntrySound(setting.phrase, w.log, i);
    }
    forall p | p in young.pending ensures p.minted < |w.log| {
      assert PendingSound(w.log, now, p);
    }
    PostedSound(w.log, entry, young, Pending(caller.id, caller.requirement, caller.bindings, born, |w.log|), born);
  }

  lemma PostedSound(log: seq<Entry>, entry: Entry, gate: Gate, p: Pending, born: nat)
    requires GateSound(log + [entry], born, gate)
    requires entry == Minted(p.id, p.requirement, p.bindings, born) && p.born == born && p.minted == |log|
    requires forall i | 0 <= i < |log| && log[i].Cleared? :: log[i].minted < |log|
    requires forall q | q in gate.pending :: q.minted < |log|
    ensures GateSound(log + [entry], born, gate.(pending := Newest(gate.pending + [p], MAX_PENDING)))
  {
    assert PendingSound(log + [entry], born, p);
  }

  /** The grants of a cleared challenge join the others, each with an origin of its own. */
  lemma NewGrantsSound(log: seq<Entry>, entry: Entry, grants: seq<Grant>, p: Pending, born: nat)
    requires entry.Cleared? && entry.bindings == p.bindings && entry.requirement == p.requirement && entry.at == born
    requires NoChange(log + [entry], entry.minted, |log| + 1)
    requires DistinctGrants(grants) && forall g | g in grants :: GrantSound(log + [entry], born, g)
    requires forall g | g in grants :: g.origin.event < |log|
    requires forall i | 0 <= i < |log| && log[i].Granted? :: log[i].origin.event < |log|
    ensures var all := Newest(grants + GrantsFor(p, born, |log|), MAX_GRANTS);
            DistinctGrants(all) && |all| <= MAX_GRANTS && forall g | g in all :: GrantSound(log + [entry], born, g)
  {
    var given := GrantsFor(p, born, |log|);
    forall g | g in given ensures GrantSound(log + [entry], born, g) {
    }
    assert DistinctGrants(grants + given);
  }

  /** Clearing an open challenge on sufficient evidence leaves history and gate sound. */
  lemma ChallengeCleared(phrase: string, log: seq<Entry>, now: nat, born: nat, gate: Gate, k: nat, entry: Entry)
    requires LogSound(phrase, log) && GateSound(log, now, gate) && now <= born && k < |gate.pending|
    requires Younger(gate.pending[k].born, now, CHALLENGE_TTL)
    requires entry.Cleared? && Satisfies(entry.attestation, gate.pending[k].requirement, phrase)
    requires var p := gate.pending[k];
             entry == Cleared(p.id, entry.attestation, p.requirement, p.bindings, p.minted, now, born)
    ensures LogSound(phrase, log + [entry])
    ensures var grants := Newest(gate.grants + GrantsFor(gate.pending[k], born, |log|), MAX_GRANTS);
            GateSound(log + [entry], born, gate.(pending := Without(gate.pending, k), grants := grants))
  {
    hide Once, Newest, Satisfies;
    var p := gate.pending[k];
    assert PendingSound(log, now, p);
    GateClock(log, now, gate, born);
    NoChangeGrows(log, entry, p.minted, |log|);
    LogGrows(phrase, log, entry);
    var left := gate.(pending := Without(gate.pending, k));
    WithoutPendingSound(log, born, gate, k);
    GateGrows(log, born, left, entry);
    forall i | 0 <= i < |log| && log[i].Granted? ensures log[i].origin.event < |log| {
      assert EntrySound(phrase, log, i);
    }
    NewGrantsSound(log, entry, left.grants, p, born);
  }

  lemma SatisfyKeeps(setting: Setting, w: World, id: nat, attestation: Attestation, now: nat, born: nat)
    requires Sound(setting, w) && w.clock <= now <= born
    ensures Sound(setting, SatisfyStep(setting, w, id, attestation, now, born))
  {
    hide LogSound, Pruned, Satisfies, PendingSound, GrantSound, Newest;
    var young := Pruned(w.gate, now);
    PruneSound(w.log, w.clock, w.gate, now);
    GateClock(w.log, now, young, born);
    var k := FindChallenge(young.pending, id);
    if k < |young.pending| && Satisfies(attestation, young.pending[k].requirement, setting.phrase) {
      var p := young.pending[k];
      assert p in young.pending;
      var entry := Cleared(id, attestation, p.requirement, p.bindings, p.minted, now, born);
      ChallengeCleared(setting.phrase, w.log, now, born, young, k, entry);
    }
  }

  lemma ChangeKeeps(setting: Setting, w: World, level: SafetyLevel)
    requires Sound(setting, w)
    ensures Sound(setting, w.(gate := Gate(level, [], []), log := w.log + [Changed(level)]))
  {
    LogGrows(setting.phrase, w.log, Changed(level));
  }

  lemma AdmitKeeps(setting: Setting, w: World, c: nat, request: Request)
    requires Sound(setting, w) && c !in w.callers
    ensures Sound(setting, AdmitStep(setting, w, c, request))
  {
    var binding := BindingOf(request, setting.showParams, setting.showOp);
    var read := IsRead(setting.language, request);
    if Required(w.gate.level, read) == Nothing {
      var entry := Passed(request, binding, read, w.gate.level);
      LogGrows(setting.phrase, w.log, entry);
      GateGrows(w.log, w.clock, w.gate, entry);
    }
  }

  lemma StepKeeps(setting: Setting, w: World, step: Step)
    requires Sound(setting, w) && Enabled(w, step)
    ensures Sound(setting, Perform(setting, w, step))
  {
    hide LogSound, GateSound, TakeStep, PostStep, SatisfyStep, AdmitStep, Pruned, Statements;
    match step
    case StartPlan(c, script) =>
    case PlanStatement(c) =>
    case EndPlan(c) =>
    case StartAdmit(c, request) => AdmitKeeps(setting, w, c, request);
    case Take(c, now) => TakeKeeps(setting, w, c, now);
    case Draw(c) =>
    case Post(c, now, born) => PostKeeps(setting, w, c, now, born);
    case Satisfy(id, attestation, now, born) => SatisfyKeeps(setting, w, id, attestation, now, born);
    case SetLevel(level) => if level != w.gate.level { ChangeKeeps(setting, w, level); }
    case Look(now) => PruneSound(w.log, w.clock, w.gate, now);
  }

  lemma {:induction false} RunKeeps(setting: Setting, w: World, steps: seq<Step>)
    requires Sound(setting, w)
    ensures Sound(setting, Run(setting, w, steps))
    decreases |steps|
  {
    if steps != [] {
      if Enabled(w, steps[0]) {
        StepKeeps(setting, w, steps[0]);
        RunKeeps(setting, Perform(setting, w, steps[0]), steps[1..]);
      } else {
        RunKeeps(setting, w, steps[1..]);
      }
    }
  }

  // ---- Which request an entry is about. ----

  /** What the gate works out about a request is what the history says of it. */
  predicate About(setting: Setting, request: Request, binding: string, read: bool) {
    read == IsRead(setting.language, request) && binding == BindingOf(request, setting.showParams, setting.showOp)
  }

  predicate Telling(setting: Setting, w: World) {
    && (forall i | 0 <= i < |w.log| && (w.log[i].Passed? || w.log[i].Granted?) ::
          About(setting, w.log[i].request, w.log[i].binding, w.log[i].read))
    && (forall c | c in w.callers && w.callers[c].Checking? ::
          About(setting, w.callers[c].request, w.callers[c].binding, w.callers[c].read))
  }

  lemma StepTells(setting: Setting, w: World, step: Step)
    requires Telling(setting, w) && Enabled(w, step)
    ensures Telling(setting, Perform(setting, w, step))
  {
    hide About, AfterTake, AfterSatisfy, AfterMint, Pruned, Required, Statements;
    match step
    case StartAdmit(c, request) => assert About(
      setting, request, BindingOf(request, setting.showParams, setting.showOp), IsRead(setting.language, request)) by {
      AboutItself(setting, request);
    }
    case _ =>
  }

  lemma AboutItself(setting: Setting, request: Request)
    ensures About(setting, request, BindingOf(request, setting.showParams, setting.showOp), IsRead(setting.language, request))
  {
  }

  lemma {:induction false} RunTells(setting: Setting, w: World, steps: seq<Step>)
    requires Telling(setting, w)
    ensures Telling(setting, Run(setting, w, steps))
    decreases |steps|
  {
    hide Telling, Perform, Enabled;
    if steps != [] {
      if Enabled(w, steps[0]) {
        StepTells(setting, w, steps[0]);
        RunTells(setting, Perform(setting, w, steps[0]), steps[1..]);
      } else {
        RunTells(setting, w, steps[1..]);
      }
    }
  }

  // ---- The main results, over every run. ----

  /** The evidence an admission used: where it was given, and which of the challenge's bindings it spent. */
  predicate Earned(phrase: string, log: seq<Entry>, i: nat)
    requires i < |log| && log[i].Granted?
  {
    var g := log[i];
    && g.origin.event < i
    && log[g.origin.event].Cleared?
    && var c := log[g.origin.event];
       && g.origin.slot < |c.bindings| && c.bindings[g.origin.slot] == g.binding
       && Required(g.seen, g.read) != Nothing
       && Satisfies(c.attestation, Required(g.seen, g.read), phrase)
       && AtLeast(Strength(c.attestation), Required(g.seen, g.read))
       && 0 <= g.at - c.at < 120_000_000_000
       && c.minted < g.origin.event && log[c.minted].Minted? && log[c.minted].id == c.id
       && c.judged - log[c.minted].at < 300_000_000_000
       && (forall k | c.minted < k < i :: !log[k].Changed?)
  }

  /**
    Every request let through at a rung that asks for something was earned by an earlier satisfied
    challenge, and no two requests spent the same binding of the same challenge.
   */
  lemma AdmissionsAreEarned(setting: Setting, level: SafetyLevel, steps: seq<Step>)
    ensures var log := Run(setting, Start(level), steps).log;
            && (forall i | 0 <= i < |log| && log[i].Granted? :: Earned(setting.phrase, log, i))
            && (forall i, j | 0 <= i < j < |log| && log[i].Granted? && log[j].Granted? :: log[i].origin != log[j].origin)
            && (forall i | 0 <= i < |log| && log[i].Passed? :: Required(log[i].seen, log[i].read) == Nothing)
  {
    RunKeeps(setting, Start(level), steps);
    var log := Run(setting, Start(level), steps).log;
    forall i | 0 <= i < |log| && log[i].Granted? ensures Earned(setting.phrase, log, i) {
      assert EntrySound(setting.phrase, log, i);
      var c := log[log[i].origin.event];
      assert EntrySound(setting.phrase, log, log[i].origin.event);
      SatisfiesDownward(c.attestation, c.requirement, Required(log[i].seen, log[i].read), setting.phrase);
    }
    forall i | 0 <= i < |log| && log[i].Passed? ensures Required(log[i].seen, log[i].read) == Nothing {
      assert EntrySound(setting.phrase, log, i);
    }
  }

  /** A challenge is cleared at most once, and what the gate holds stays bounded. */
  lemma ChallengesClearOnce(setting: Setting, level: SafetyLevel, steps: seq<Step>)
    ensures var w := Run(setting, Start(level), steps);
            && (forall i, j | 0 <= i < j < |w.log| && w.log[i].Cleared? && w.log[j].Cleared? :: w.log[i].id != w.log[j].id)
            && |w.gate.pending| <= 16 && |w.gate.grants| <= 64
  {
    RunKeeps(setting, Start(level), steps);
    var log := Run(setting, Start(level), steps).log;
    forall i, j | 0 <= i < j < |log| && log[i].Cleared? && log[j].Cleared? ensures log[i].id != log[j].id {
      assert EntrySound(setting.phrase, log, i) && EntrySound(setting.phrase, log, j);
    }
  }

  // ---- What ran ungated, and what the gated requests cost. ----

  /** The connection's own name typed in, or a device that is named. */
  predicate Proven(phrase: string, attestation: Attestation) {
    || (attestation.TypedPhrase? && attestation.typed == phrase)
    || (attestation.SystemAuth? && HasText(attestation.device))
  }

  /** What went through without a challenge: anything at the silent rung, and at a write rung what changes nothing. */
  predicate PassedFreely(setting: Setting, e: Entry)
    requires e.Passed?
  {
    || e.seen.Silent?
    || ((e.seen.WarnWrites? || e.seen.AuthWrites?) && Harmless(setting.language, e.request))
  }

  /** What needed a grant, and the evidence behind it: proof at an authentication rung, any acknowledgement at a warning one. */
  predicate GrantedOnEvidence(setting: Setting, e: Entry, attestation: Attestation)
    requires e.Granted?
  {
    && (|| e.seen.WarnAll? || e.seen.AuthAll?
        || ((e.seen.WarnWrites? || e.seen.AuthWrites?) && !Harmless(setting.language, e.request)))
    && (e.seen.AuthAll? || e.seen.AuthWrites? ==> Proven(setting.phrase, attestation))
    && (e.seen.WarnAll? || e.seen.WarnWrites? ==> attestation.Acknowledged? || Proven(setting.phrase, attestation))
  }

  lemma RungsTell(setting: Setting, e: Entry, attestation: Attestation)
    requires (e.Passed? || e.Granted?) && About(setting, e.request, e.binding, e.read)
    ensures e.Passed? && Required(e.seen, e.read) == Nothing ==> PassedFreely(setting, e)
    ensures (e.Granted? && Required(e.seen, e.read) != Nothing
              && Satisfies(attestation, Required(e.seen, e.read), setting.phrase)) ==>
              GrantedOnEvidence(setting, e, attestation)
  {
    hide Harmless, IsRead, HasText, Trim;
    ReadExactly(setting.language, e.request);
    RequiredExactly(e.seen, e.read);
    if attestation.SystemAuth? {
      HasTextExactly(attestation.device);
    }
  }

  /**
    What runs without a grant, and what any grant cost. At the silent rung everything passes. At a
    write rung exactly the requests that change nothing pass, and at the other rungs none. Whatever
    else was let through spent the evidence its rung asks for.
   */
  lemma WritesAreEarned(setting: Setting, level: SafetyLevel, steps: seq<Step>)
    ensures var log := Run(setting, Start(level), steps).log;
            && (forall i | 0 <= i < |log| && log[i].Passed? :: PassedFreely(setting, log[i]))
            && (forall i | 0 <= i < |log| && log[i].Granted? ::
                  && log[i].origin.event < i && log[log[i].origin.event].Cleared?
                  && GrantedOnEvidence(setting, log[i], log[log[i].origin.event].attestation))
  {
    hide PassedFreely, GrantedOnEvidence, Earned, Required, Satisfies;
    AdmissionsAreEarned(setting, level, steps);
    RunTells(setting, Start(level), steps);
    var log := Run(setting, Start(level), steps).log;
    forall i | 0 <= i < |log| && log[i].Passed? ensures PassedFreely(setting, log[i]) {
      RungsTell(setting, log[i], Acknowledged);
    }
    forall i | 0 <= i < |log| && log[i].Granted?
      ensures log[i].origin.event < i && log[log[i].origin.event].Cleared?
      ensures GrantedOnEvidence(setting, log[i], log[log[i].origin.event].attestation)
    {
      EarnedMeans(setting.phrase, log, i);
      RungsTell(setting, log[i], log[log[i].origin.event].attestation);
    }
  }

  /** A request is let through at once exactly when its rung asks nothing of it; otherwise it looks for a grant. */
  lemma PassesExactly(setting: Setting, w: World, c: nat, request: Request)
    requires c !in w.callers
    ensures var n := AdmitStep(setting, w, c, request);
            var free := || w.gate.level.Silent?
                        || ((w.gate.level.WarnWrites? || w.gate.level.AuthWrites?) && Harmless(setting.language, request));
            && n.gate == w.gate && n.clock == w.clock && n.next == w.next
            && (free ==> |n.log| == |w.log| + 1 && n.log[..|w.log|] == w.log && n.callers == w.callers
                         && n.log[|w.log|].Passed? && n.log[|w.log|].request == request && n.log[|w.log|].seen == w.gate.level)
            && (!free ==> n.log == w.log && c in n.callers && n.callers[c].Checking?
                          && n.callers[c].request == request && n.callers[c].seen == w.gate.level)
  {
    hide Harmless, IsRead;
    ReadExactly(setting.language, request);
    RequiredExactly(w.gate.level, IsRead(setting.language, request));
  }

  /** A request that finds no grant is refused with a challenge that asks for what its rung asks for, for it alone. */
  lemma RefusalAsks(setting: Setting, w: World, c: nat, now: nat)
    requires c in w.callers && w.callers[c].Checking?
    requires Required(w.callers[c].seen, w.callers[c].read) != Nothing
    ensures var (caller, n) := (w.callers[c], TakeStep(w, c, now));
            || (c !in n.callers && |n.log| == |w.log| + 1 && n.log[|w.log|].Granted? && n.log[|w.log|].request == caller.request)
            || (&& n.log == w.log && c in n.callers && n.callers[c].Minting?
                && n.callers[c].bindings == [caller.binding]
                && n.callers[c].requirement
                     == if caller.seen.WarnAll? || caller.seen.WarnWrites? then Warn else Authenticate)
  {
    hide AfterTake;
    RequiredExactly(w.callers[c].seen, w.callers[c].read);
  }

  lemma EarnedMeans(phrase: string, log: seq<Entry>, i: nat)
    requires i < |log| && log[i].Granted? && Earned(phrase, log, i)
    ensures log[i].origin.event < i && log[log[i].origin.event].Cleared?
    ensures Required(log[i].seen, log[i].read) != Nothing
    ensures Satisfies(log[log[i].origin.event].attestation, Required(log[i].seen, log[i].read), phrase)
  {
  }

  // ---- The ordinary course. ----

  lemma RunStep(setting: Setting, w: World, steps: seq<Step>, rest: seq<Step>)
    requires steps != [] && rest == steps[1..] && Enabled(w, steps[0])
    ensures Run(setting, w, steps) == Run(setting, Perform(setting, w, steps[0]), rest)
    ensures rest == [] ==> Run(setting, w, steps) == Perform(setting, w, steps[0])
  {
  }

  function Repeated(step: Step, n: nat): seq<Step> {
    seq(n, _ => step)
  }

  /** Going through the statements of a plan while the rung stays: each is bound, and the strictest requirement kept. */
  lemma {:induction false} PlanGoes(setting: Setting, w: World, c: nat, done: seq<string>, rest: seq<Step>)
    requires c in w.callers && w.callers[c].Planning? && w.callers[c].bindings == done
    requires w.callers[c].requirement == PlanRequirement(setting.language, w.gate.level, done)
    ensures var plan := w.callers[c];
            var all := done + plan.todo;
            Run(setting, w, Repeated(PlanStatement(c), |plan.todo|) + rest)
            == Run(setting, w.(callers := w.callers[c := Planning(plan.script, [], all,
                              PlanRequirement(setting.language, w.gate.level, all))]), rest)
    decreases |w.callers[c].todo|
  {
    hide Enabled, StatementReads, Stronger, Required, Run, Perform, PlanRequirement;
    var plan := w.callers[c];
    var steps := Repeated(PlanStatement(c), |plan.todo|);
    if plan.todo == [] {
      assert steps + rest == rest && done + [] == done;
      assert w.callers[c := Planning(plan.script, [], done, plan.requirement)] == w.callers;
    } else {
      var next := PlanStep(setting, w.gate.level, plan);
      var n := w.(callers := w.callers[c := next]);
      var grown := done + [plan.todo[0]];
      PlanAsksMore(setting.language, w.gate.level, done, plan.todo[0]);
      OneStatement(setting, w, c, steps + rest);
      assert (steps + rest)[1..] == Repeated(PlanStatement(c), |plan.todo| - 1) + rest;
      PlanGoes(setting, n, c, grown, rest);
      assert grown + plan.todo[1..] == done + plan.todo;
      var all := done + plan.todo;
      var last := Planning(plan.script, [], all, PlanRequirement(setting.language, w.gate.level, all));
      assert n.callers[c := last] == w.callers[c := last];
    }
  }

  lemma PlanAsksMore(language: Language, level: SafetyLevel, done: seq<string>, statement: string)
    ensures PlanRequirement(language, level, done + [statement])
         == Stronger(PlanRequirement(language, level, done), Required(level, StatementReads(language, statement)))
  {
    var grown := done + [statement];
    assert grown[..|grown| - 1] == done && grown[|grown| - 1] == statement;
  }

  lemma OneStatement(setting: Setting, w: World, c: nat, steps: seq<Step>)
    requires c in w.callers && w.callers[c].Planning? && w.callers[c].todo != []
    requires steps != [] && steps[0] == PlanStatement(c)
    ensures Run(setting, w, steps)
         == Run(setting, w.(callers := w.callers[c := PlanStep(setting, w.gate.level, w.callers[c])]), steps[1..])
  {
    hide PlanStep;
  }

  /**
    A plan with nobody in between: it asks for the strictest thing any of its statements needs, and is
    over when that is nothing; otherwise it goes on to mint a challenge bound to each of them, and to
    the whole script when there are several.
   */
  lemma PlanCourse(setting: Setting, w: World, c: nat, script: string)
    requires c !in w.callers
    ensures var statements := Statements(setting.language.split(script));
            var asked := PlanRequirement(setting.language, w.gate.level, statements);
            Run(setting, w, [StartPlan(c, script)] + (Repeated(PlanStatement(c), |statements|) + [EndPlan(c)]))
            == if asked == Nothing then w
            else w.(callers := w.callers[c := Minting(asked, if |statements| > 1 then statements + [Trim(script)] else statements)])
  {
    hide Statements, PlanRequirement, Trim, Run;
    var statements := Statements(setting.language.split(script));
    var steps := Repeated(PlanStatement(c), |statements|) + [EndPlan(c)];
    var started := w.(callers := w.callers[c := Planning(script, statements, [], Nothing)]);
    RunStep(setting, w, [StartPlan(c, script)] + steps, steps);
    NothingAsked(setting.language, w.gate.level);
    PlanGoes(setting, started, c, [], [EndPlan(c)]);
    assert [] + statements == statements;
    var asked := PlanRequirement(setting.language, w.gate.level, statements);
    var planned := started.(callers := started.callers[c := Planning(script, [], statements, asked)]);
    RunStep(setting, planned, [EndPlan(c)], []);
    assert planned.callers - {c} == w.callers;
  }

  lemma NothingAsked(language: Language, level: SafetyLevel)
    ensures PlanRequirement(language, level, []) == Nothing
  {
  }

  /** Minting with nobody in between: the next id, a challenge posted at that moment, and the caller is done. */
  lemma MintCourse(setting: Setting, w: World, c: nat, now: nat, born: nat)
    requires c in w.callers && w.callers[c].Minting? && w.clock <= now <= born
    ensures var caller := w.callers[c];
            Run(setting, w, [Draw(c), Post(c, now, born)])
            == w.(gate := AfterMint(w.gate, Pending(w.next, caller.requirement, caller.bindings, born, |w.log|), now),
               next := w.next + 1, clock := born, callers := w.callers - {c},
               log := w.log + [Minted(w.next, caller.requirement, caller.bindings, born)])
  {
    hide AfterMint, Run;
    var drawn := Perform(setting, w, Draw(c));
    RunStep(setting, w, [Draw(c), Post(c, now, born)], [Post(c, now, born)]);
    RunStep(setting, drawn, [Post(c, now, born)], []);
    assert drawn.callers - {c} == w.callers - {c};
  }
}

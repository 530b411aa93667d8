/**
  The gate every request of a connection passes: challenges it has handed out, single-use grants it
  has given for them, and the regions of its one lock, each as a function of the state and as the
  method that updates it. Times are nanoseconds on a clock that never goes back.
 */
module SafetyGate {
  import opened Wrappers
  import opened SafetyLevels

  const CHALLENGE_TTL := 300_000_000_000
  const GRANT_TTL := 120_000_000_000
  const MAX_PENDING := 16
  const MAX_GRANTS := 64

  /** Where an entry came from. No branch reads it: it only lets a history refer back. */
  datatype Origin = Origin(event: nat, slot: nat)

  datatype Pending = Pending(id: nat, requirement: Requirement, bindings: seq<string>, born: nat, minted: nat)

  datatype Grant = Grant(binding: string, requirement: Requirement, born: nat, origin: Origin)

  datatype Gate = Gate(level: SafetyLevel, pending: seq<Pending>, grants: seq<Grant>)

  datatype Refusal = NoSuchChallenge | NotEnough(requirement: Requirement)

  // ---- The lock's regions, as functions. ----

  predicate Younger(born: nat, now: nat, ttl: nat) {
    now - born < ttl
  }

  function YoungPending(xs: seq<Pending>, now: nat): seq<Pending> {
    if xs == [] then []
    else (if Younger(xs[0].born, now, CHALLENGE_TTL) then [xs[0]] else []) + YoungPending(xs[1..], now)
  }

  function YoungGrants(xs: seq<Grant>, now: nat): seq<Grant> {
    if xs == [] then []
    else (if Younger(xs[0].born, now, GRANT_TTL) then [xs[0]] else []) + YoungGrants(xs[1..], now)
  }

  function Pruned(gate: Gate, now: nat): Gate {
    gate.(pending := YoungPending(gate.pending, now), grants := YoungGrants(gate.grants, now))
  }

  /** The newest `room` entries: what is left when the oldest are dropped until they fit. */
  function Newest<T>(xs: seq<T>, room: nat): seq<T> {
    if |xs| <= room then xs else xs[|xs| - room..]
  }

  function Without<T>(xs: seq<T>, k: nat): seq<T>
    requires k < |xs|
  {
    xs[..k] + xs[k + 1..]
  }

  function AfterSetLevel(gate: Gate, level: SafetyLevel): Gate {
    if gate.level == level then gate else Gate(level, [], [])
  }

  function AfterMint(gate: Gate, entry: Pending, now: nat): Gate {
    var young := Pruned(gate, now);
    young.(pending := Newest(young.pending + [entry], MAX_PENDING))
  }

  /** The place of the first challenge with this id, or the length if there is none. */
  function FindChallenge(xs: seq<Pending>, id: nat): (k: nat)
    ensures k <= |xs|
    ensures k < |xs| ==> xs[k].id == id
    ensures forall i | 0 <= i < k :: xs[i].id != id
  {
    if xs == [] || xs[0].id == id then 0 else 1 + FindChallenge(xs[1..], id)
  }

  predicate Serves(grant: Grant, binding: string, requirement: Requirement) {
    grant.binding == binding && AtLeast(grant.requirement, requirement)
  }

  function FindGrant(xs: seq<Grant>, binding: string, requirement: Requirement): (k: nat)
    ensures k <= |xs|
    ensures k < |xs| ==> Serves(xs[k], binding, requirement)
    ensures forall i | 0 <= i < k :: !Serves(xs[i], binding, requirement)
  {
    if xs == [] || Serves(xs[0], binding, requirement) then 0
    else 1 + FindGrant(xs[1..], binding, requirement)
  }

  function GrantsFor(entry: Pending, born: nat, event: nat): (grants: seq<Grant>)
    ensures |grants| == |entry.bindings|
    ensures forall k | 0 <= k < |grants| ::
              grants[k] == Grant(entry.bindings[k], entry.requirement, born, Origin(event, k))
  {
    seq(|entry.bindings|, k requires 0 <= k < |entry.bindings| =>
      Grant(entry.bindings[k], entry.requirement, born, Origin(event, k)))
  }

  function AfterSatisfy(
    gate: Gate, phrase: string, id: nat, attestation: Attestation, now: nat, born: nat, event: nat)
    : (Gate, Result<Pending, Refusal>)
  {
    var young := Pruned(gate, now);
    var k := FindChallenge(young.pending, id);
    if k == |young.pending| then (young, Err(NoSuchChallenge))
    else
      var entry := young.pending[k];
      if !Satisfies(attestation, entry.requirement, phrase) then (young, Err(NotEnough(entry.requirement)))
      else
        (young.(pending := Without(young.pending, k),
                grants := Newest(young.grants + GrantsFor(entry, born, event), MAX_GRANTS)),
         Ok(entry))
  }

  function AfterTake(gate: Gate, binding: string, requirement: Requirement, now: nat): (Gate, Option<Grant>) {
    var young := Pruned(gate, now);
    var k := FindGrant(young.grants, binding, requirement);
    if k == |young.grants| then (young, None)
    else (young.(grants := Without(young.grants, k)), Some(young.grants[k]))
  }

  // ---- What a request is. ----

  datatype StatementClass = Read | Write | Unknown

  datatype Request = Native(text: string, params: seq<string>) | Plain(op: Op)

  datatype Op =
    | Scan
    | Count
    | Mutate
    | Explain(inner: Request, analyze: bool)
    | Ddl

  /** The parser the gate asks: how a script splits, what each statement is, and whether it leaves the database. */
  datatype Language = Language(
    split: string -> seq<string>,
    classify: string -> StatementClass,
    leaves: string -> bool)

  predicate StatementReads(language: Language, statement: string) {
    language.classify(statement) == Read && !language.leaves(statement)
  }

  function Statements(spans: seq<string>): (statements: seq<string>)
    ensures forall s | s in statements :: s != ""
  {
    if spans == [] then []
    else (if Trim(spans[0]) == "" then [] else [Trim(spans[0])]) + Statements(spans[1..])
  }

  predicate ScriptReads(language: Language, statements: seq<string>) {
    statements != [] && forall s | s in statements :: StatementReads(language, s)
  }

  predicate IsRead(language: Language, request: Request) {
    match request
    case Native(text, _) => ScriptReads(language, Statements(language.split(text)))
    case Plain(op) =>
      match op
      case Scan => true
      case Count => true
      case Explain(inner, analyze) => !analyze || IsRead(language, inner)
      case Mutate => false
      case Ddl => false
  }

  lemma {:induction false} StatementsMember(spans: seq<string>, k: nat)
    requires k < |spans| && Trim(spans[k]) != ""
    ensures Trim(spans[k]) in Statements(spans)
  {
    if k > 0 {
      StatementsMember(spans[1..], k - 1);
    }
  }

  lemma {:induction false} StatementsSplit(spans: seq<string>, k: nat)
    requires k < |spans|
    ensures Statements(spans[..k + 1])
         == Statements(spans[..k]) + (if Trim(spans[k]) == "" then [] else [Trim(spans[k])])
  {
    if k > 0 {
      StatementsSplit(spans[1..], k - 1);
      assert spans[..k + 1][1..] == spans[1..][..k];
      assert spans[..k][1..] == spans[1..][..k - 1];
      assert spans[..k][0] == spans[..k + 1][0] == spans[0];
    }
  }

  /** The loop over a script's spans: one statement that is not a read ends it. */
  method TextIsRead(language: Language, text: string) returns (read: bool)
    ensures read == IsRead(language, Native(text, []))
  {
    var spans := language.split(text);
    var seen := false;
    for i := 0 to |spans|
      invariant seen == (Statements(spans[..i]) != [])
      invariant forall s | s in Statements(spans[..i]) :: StatementReads(language, s)
    {
      StatementsSplit(spans, i);
      var statement := Trim(spans[i]);
      if statement != "" {
        if language.classify(statement) != Read || language.leaves(statement) {
          StatementsMember(spans, i);
          return false;
        }
        seen := true;
      }
    }
    assert spans[..|spans|] == spans;
    return seen;
  }

  /** What a grant is bound to; `show` prints parameters and operations. */
  function BindingOf(request: Request, showParams: seq<string> -> string, showOp: Op -> string): string {
    match request
    case Native(text, params) => if params == [] then Trim(text) else Trim(text) + ['\0'] + showParams(params)
    case Plain(op) => "op" + ['\0'] + showOp(op)
  }

  /** What a plan binds to: each statement, and the whole script when there is more than one. */
  function PlanBindings(script: string, statements: seq<string>): seq<string> {
    if |statements| > 1 then statements + [Trim(script)] else statements
  }

  /** The strongest thing any of the statements needs at this rung. */
  function PlanRequirement(language: Language, level: SafetyLevel, statements: seq<string>): Requirement {
    if statements == [] then Nothing
    else
      var last := |statements| - 1;
      Stronger(PlanRequirement(language, level, statements[..last]),
               Required(level, StatementReads(language, statements[last])))
  }

  lemma {:induction false} PlanCoversEach(language: Language, level: SafetyLevel, statements: seq<string>, k: nat)
    requires k < |statements|
    ensures AtLeast(PlanRequirement(language, level, statements),
                    Required(level, StatementReads(language, statements[k])))
    decreases |statements|
  {
    if k < |statements| - 1 {
      PlanCoversEach(language, level, statements[..|statements| - 1], k);
    }
  }

  /**
    What a plan asks for is enough for the script as a whole too, unless it holds no statement at
    all: then the plan asks for nothing while `admit` treats the script as a write.
   */
  lemma PlanCoversScript(language: Language, level: SafetyLevel, statements: seq<string>)
    ensures AtLeast(PlanRequirement(language, level, statements),
                    Required(level, ScriptReads(language, statements)))
       <==> (statements != [] || Required(level, false) == Nothing)
  {
    if statements != [] {
      if ScriptReads(language, statements) {
        PlanCoversEach(language, level, statements, 0);
      } else {
        var k :| 0 <= k < |statements| && !StatementReads(language, statements[k]);
        PlanCoversEach(language, level, statements, k);
      }
    }
  }

  // ---- The gate itself. ----

  class SafetyGate {
    const phrase: string
    var level: SafetyLevel
    var pending: seq<Pending>
    var grants: seq<Grant>
    var next: nat

    function View(): Gate
      reads this
    {
      Gate(level, pending, grants)
    }

    constructor (phrase: string, level: SafetyLevel)
      ensures this.phrase == phrase && View() == Gate(level, [], []) && next == 1
    {
      this.phrase, this.level := phrase, level;
      pending, grants, next := [], [], 1;
    }

    /** Raising or lowering the rung drops every challenge and grant; setting the same one drops nothing. */
    method SetLevel(level: SafetyLevel)
      modifies this`level, this`pending, this`grants
      ensures View() == AfterSetLevel(old(View()), level)
    {
      if this.level == level {
        return;
      }
      this.level := level;
      pending := [];
      grants := [];
    }

    method Prune(now: nat)
      modifies this`pending, this`grants
      ensures View() == Pruned(old(View()), now)
    {
      var keptPending: seq<Pending> := [];
      for i := 0 to |pending|
        invariant keptPending + YoungPending(pending[i..], now) == YoungPending(pending, now)
      {
        assert pending[i..][1..] == pending[i + 1..];
        if Younger(pending[i].born, now, CHALLENGE_TTL) {
          keptPending := keptPending + [pending[i]];
        }
      }
      var keptGrants: seq<Grant> := [];
      for i := 0 to |grants|
        invariant keptGrants + YoungGrants(grants[i..], now) == YoungGrants(grants, now)
      {
        assert grants[i..][1..] == grants[i + 1..];
        if Younger(grants[i].born, now, GRANT_TTL) {
          keptGrants := keptGrants + [grants[i]];
        }
      }
      pending, grants := keptPending, keptGrants;
    }

    method LocateChallenge(id: nat) returns (index: nat)
      ensures index == FindChallenge(pending, id)
    {
      index := 0;
      while index < |pending| && pending[index].id != id
        invariant index <= |pending| && forall i | 0 <= i < index :: pending[i].id != id
      {
        index := index + 1;
      }
    }

    method LocateGrant(binding: string, requirement: Requirement) returns (index: nat)
      ensures index == FindGrant(grants, binding, requirement)
    {
      index := 0;
      while index < |grants| && !Serves(grants[index], binding, requirement)
        invariant index <= |grants| && forall i | 0 <= i < index :: !Serves(grants[i], binding, requirement)
      {
        index := index + 1;
      }
    }

    method EvictPending()
      modifies this`pending
      ensures pending == Newest(old(pending), MAX_PENDING)
    {
      while |pending| > MAX_PENDING
        invariant |pending| <= |old(pending)| && pending == old(pending)[|old(pending)| - |pending|..]
        invariant |pending| >= MAX_PENDING || pending == old(pending)
      {
        pending := pending[1..];
      }
    }

    method EvictGrants()
      modifies this`grants
      ensures grants == Newest(old(grants), MAX_GRANTS)
    {
      while |grants| > MAX_GRANTS
        invariant |grants| <= |old(grants)| && grants == old(grants)[|old(grants)| - |grants|..]
        invariant |grants| >= MAX_GRANTS || grants == old(grants)
      {
        grants := grants[1..];
      }
    }

    method GiveGrants(entry: Pending, born: nat, event: nat)
      modifies this`grants
      ensures grants == old(grants) + GrantsFor(entry, born, event)
    {
      for i := 0 to |entry.bindings|
        invariant grants == old(grants) + GrantsFor(entry, born, event)[..i]
      {
        grants := grants + [Grant(entry.bindings[i], entry.requirement, born, Origin(event, i))];
      }
    }

    /** Draws the next id and posts the challenge, dropping the oldest ones past the limit. */
    method Mint(requirement: Requirement, bindings: seq<string>, now: nat, born: nat, minted: nat) returns (id: nat)
      modifies this`pending, this`grants, this`next
      ensures id == old(next) && next == old(next) + 1
      ensures View() == AfterMint(old(View()), Pending(id, requirement, bindings, born, minted), now)
    {
      id := next;
      next := next + 1;
      Prune(now);
      pending := pending + [Pending(id, requirement, bindings, born, minted)];
      EvictPending();
    }

    method Satisfy(id: nat, attestation: Attestation, now: nat, born: nat, event: nat) returns (r: Result<Pending, Refusal>)
      modifies this`pending, this`grants
      ensures (View(), r) == AfterSatisfy(old(View()), phrase, id, attestation, now, born, event)
    {
      Prune(now);
      var index := LocateChallenge(id);
      if index == |pending| {
        return Err(NoSuchChallenge);
      }
      var entry := pending[index];
      if !Satisfies(attestation, entry.requirement, phrase) {
        return Err(NotEnough(entry.requirement));
      }
      pending := Without(pending, index);
      GiveGrants(entry, born, event);
      EvictGrants();
      return Ok(entry);
    }

    /** `admit` after it has worked out the requirement: use up one grant that covers it, if there is one. */
    method Take(binding: string, requirement: Requirement, now: nat) returns (taken: Option<Grant>)
      modifies this`pending, this`grants
      ensures (View(), taken) == AfterTake(old(View()), binding, requirement, now)
    {
      Prune(now);
      var index := LocateGrant(binding, requirement);
      if index == |grants| {
        return None;
      }
      taken := Some(grants[index]);
      grants := Without(grants, index);
    }

    /** A whole `plan` with nobody else at the lock. */
    method Plan(language: Language, script: string, now: nat, born: nat, minted: nat)
      returns (requirement: Requirement, challenge: Option<nat>)
      modifies this`pending, this`grants, this`next
      ensures requirement == PlanRequirement(language, level, Statements(language.split(script)))
      ensures requirement == Nothing ==> challenge.None? && View() == old(View()) && next == old(next)
      ensures requirement != Nothing ==>
                var bindings := PlanBindings(script, Statements(language.split(script)));
                && challenge == Some(old(next)) && next == old(next) + 1
                && View() == AfterMint(old(View()), Pending(old(next), requirement, bindings, born, minted), now)
    {
      var spans := language.split(script);
      requirement := Nothing;
      var bindings: seq<string> := [];
      for i := 0 to |spans|
        invariant bindings == Statements(spans[..i])
        invariant requirement == PlanRequirement(language, level, bindings)
        invariant View() == old(View()) && next == old(next)
      {
        StatementsSplit(spans, i);
        var statement := Trim(spans[i]);
        if statement != "" {
          requirement := Stronger(requirement, Required(level, StatementReads(language, statement)));
          bindings := bindings + [statement];
          assert bindings[..|bindings| - 1] == Statements(spans[..i]);
        }
      }
      assert spans[..|spans|] == spans;
      challenge := None;
      if requirement != Nothing {
        if |bindings| > 1 {
          bindings := bindings + [Trim(script)];
        }
        var id := Mint(requirement, bindings, now, born, minted);
        challenge := Some(id);
      }
    }

    /** A whole `admit` with nobody else at the lock: through, or refused with a challenge for just this request. */
    method Admit(binding: string, read: bool, now: nat, born: nat, minted: nat) returns (refused: Option<nat>)
      modifies this`pending, this`grants, this`next
      ensures Required(level, read) == Nothing ==> refused.None? && View() == old(View()) && next == old(next)
      ensures Required(level, read) != Nothing ==>
                var (after, taken) := AfterTake(old(View()), binding, Required(level, read), now);
                if taken.Some? then refused.None? && View() == after && next == old(next)
                else && refused == Some(old(next)) && next == old(next) + 1
                     && View() == AfterMint(after, Pending(old(next), Required(level, read), [binding], born, minted), now)
    {
      var requirement := Required(level, read);
      if requirement == Nothing {
        return None;
      }
      var taken := Take(binding, requirement, now);
      if taken.Some? {
        return None;
      }
      var id := Mint(requirement, [binding], now, born, minted);
      return Some(id);
    }
  }

  // ---- What pruning, taking and posting do to the lists. ----

  lemma {:induction false} YoungPendingOf(xs: seq<Pending>, now: nat)
    ensures |YoungPending(xs, now)| <= |xs|
    ensures forall x | x in YoungPending(xs, now) :: x in xs && Younger(x.born, now, CHALLENGE_TTL)
  {
    if xs != [] {
      YoungPendingOf(xs[1..], now);
    }
  }

  lemma {:induction false} YoungGrantsOf(xs: seq<Grant>, now: nat)
    ensures |YoungGrants(xs, now)| <= |xs|
    ensures forall x | x in YoungGrants(xs, now) :: x in xs && Younger(x.born, now, GRANT_TTL)
  {
    if xs != [] {
      YoungGrantsOf(xs[1..], now);
    }
  }
}

/** The rungs of safe mode: what each one asks for, and what evidence clears it. */
module SafetyLevels {

  datatype SafetyLevel = Silent | WarnAll | WarnWrites | AuthAll | AuthWrites

  datatype Requirement = Nothing | Warn | Authenticate

  datatype Attestation = Acknowledged | TypedPhrase(typed: string) | SystemAuth(device: string)

  /** The order in which the source declares the variants, which is the order it compares them in. */
  function Rank(requirement: Requirement): nat {
    match requirement
    case Nothing => 0
    case Warn => 1
    case Authenticate => 2
  }

  predicate AtLeast(given: Requirement, wanted: Requirement) {
    Rank(given) >= Rank(wanted)
  }

  function Stronger(a: Requirement, b: Requirement): Requirement {
    if AtLeast(a, b) then a else b
  }

  function Required(level: SafetyLevel, read: bool): Requirement {
    match level
    case Silent => Nothing
    case WarnAll => Warn
    case AuthAll => Authenticate
    case WarnWrites => if read then Nothing else Warn
    case AuthWrites => if read then Nothing else Authenticate
  }

  function Strength(attestation: Attestation): Requirement {
    if attestation.Acknowledged? then Warn else Authenticate
  }

  /** White space as `str::trim` sees it: the characters with Unicode's White_Space property. */
  predicate IsBlank(c: char) {
    var n := c as int;
    || 9 <= n <= 13 || n == 32 || n == 0x85 || n == 0xA0 || n == 0x1680
    || 0x2000 <= n <= 0x200A || n == 0x2028 || n == 0x2029 || n == 0x202F || n == 0x205F || n == 0x3000
  }

  /** The same, one by one. */
  lemma BlankExactly(c: char)
    ensures IsBlank(c) <==>
              c as int in {9, 10, 11, 12, 13, 32, 0x85, 0xA0, 0x1680,
                           0x2000, 0x2001, 0x2002, 0x2003, 0x2004, 0x2005, 0x2006, 0x2007, 0x2008, 0x2009, 0x200A,
                           0x2028, 0x2029, 0x202F, 0x205F, 0x3000}
  {
  }

  function TrimStart(s: string): string {
    if s != [] && IsBlank(s[0]) then TrimStart(s[1..]) else s
  }

  function TrimEnd(s: string): string {
    if s != [] && IsBlank(s[|s| - 1]) then TrimEnd(s[..|s| - 1]) else s
  }

  function Trim(s: string): string {
    TrimEnd(TrimStart(s))
  }

  function Satisfies(attestation: Attestation, requirement: Requirement, phrase: string): bool {
    if !AtLeast(Strength(attestation), requirement) then false
    else
      match attestation
      case Acknowledged => true
      case TypedPhrase(typed) => typed == phrase
      case SystemAuth(device) => Trim(device) != ""
  }

  lemma {:induction false} TrimStartEmpty(s: string)
    ensures TrimStart(s) == "" <==> forall k | 0 <= k < |s| :: IsBlank(s[k])
    ensures TrimStart(s) != "" ==> !IsBlank(TrimStart(s)[0])
  {
    if s != [] && IsBlank(s[0]) {
      TrimStartEmpty(s[1..]);
      assert forall k | 0 < k < |s| :: s[k] == s[1..][k - 1];
      assert forall k | 0 <= k < |s[1..]| :: s[1..][k] == s[k + 1];
    }
  }

  lemma {:induction false} TrimEndKeepsHead(s: string)
    requires s != [] && !IsBlank(s[0])
    ensures TrimEnd(s) != []
  {
    if IsBlank(s[|s| - 1]) {
      TrimEndKeepsHead(s[..|s| - 1]);
    }
  }

  /** A text trims to nothing exactly when every character of it is blank. */
  lemma TrimEmpty(s: string)
    ensures Trim(s) == "" <==> forall k | 0 <= k < |s| :: IsBlank(s[k])
  {
    TrimStartEmpty(s);
    if TrimStart(s) != "" {
      TrimEndKeepsHead(TrimStart(s));
    }
  }

  lemma {:induction false} TrimStartIs(s: string) returns (a: nat)
    ensures a <= |s| && TrimStart(s) == s[a..]
    ensures forall k | 0 <= k < a :: IsBlank(s[k])
    ensures a < |s| ==> !IsBlank(s[a])
  {
    a := 0;
    if s != [] && IsBlank(s[0]) {
      var b := TrimStartIs(s[1..]);
      a := b + 1;
      assert forall k | 0 < k < a :: s[k] == s[1..][k - 1];
    }
  }

  lemma {:induction false} TrimEndIs(s: string) returns (b: nat)
    ensures b <= |s| && TrimEnd(s) == s[..b]
    ensures forall k | b <= k < |s| :: IsBlank(s[k])
    ensures 0 < b ==> !IsBlank(s[b - 1])
  {
    b := |s|;
    if s != [] && IsBlank(s[|s| - 1]) {
      b := TrimEndIs(s[..|s| - 1]);
      assert s[..|s| - 1][..b] == s[..b];
    }
  }

  /** Trimming cuts off blanks at both ends and nothing else, and leaves none there. */
  lemma TrimIs(s: string) returns (a: nat, b: nat)
    ensures a <= b <= |s| && Trim(s) == s[a..b]
    ensures forall k | 0 <= k < a || b <= k < |s| :: IsBlank(s[k])
    ensures a < b ==> !IsBlank(s[a]) && !IsBlank(s[b - 1])
  {
    a := TrimStartIs(s);
    var n := TrimEndIs(s[a..]);
    b := a + n;
    assert s[a..][..n] == s[a..b];
    assert forall k | b <= k < |s| :: s[k] == s[a..][k - a];
  }

  /** Exactly what clears an authentication rung: the connection's own name, or a device that is named. */
  lemma AuthenticationExactly(attestation: Attestation, phrase: string)
    ensures Satisfies(attestation, Authenticate, phrase)
       <==> (|| (attestation.TypedPhrase? && attestation.typed == phrase)
             || (attestation.SystemAuth? && exists k | 0 <= k < |attestation.device| :: !IsBlank(attestation.device[k])))
  {
    if attestation.SystemAuth? {
      TrimEmpty(attestation.device);
    }
  }

  /** Evidence that clears a rung clears every lower one, and is never weaker than what it cleared. */
  lemma SatisfiesDownward(attestation: Attestation, higher: Requirement, lower: Requirement, phrase: string)
    requires Satisfies(attestation, higher, phrase) && AtLeast(higher, lower)
    ensures Satisfies(attestation, lower, phrase) && AtLeast(Strength(attestation), lower)
  {
  }
}

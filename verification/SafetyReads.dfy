/** What a request makes the server execute, and which requests the gate takes for reads. */
module SafetyReads {
  import opened SafetyLevels
  import opened SafetyGate

  /** What runs on the server: nothing, a single operation, or a script. */
  datatype Execution = RunsNothing | RunsOp(op: Op) | RunsScript(text: string)

  /** An EXPLAIN executes what it explains when it is asked to analyze it, and nothing otherwise. */
  function Executed(request: Request): Execution
    decreases request
  {
    match request
    case Native(text, _) => RunsScript(text)
    case Plain(op) =>
      if op.Explain? then (if op.analyze then Executed(op.inner) else RunsNothing) else RunsOp(op)
  }

  predicate HasText(s: string) {
    exists k | 0 <= k < |s| :: !IsBlank(s[k])
  }

  /** A script with at least one statement, all of them reads that stay in their own database. */
  predicate OnlyReads(language: Language, text: string) {
    var spans := language.split(text);
    && (exists k | 0 <= k < |spans| :: HasText(spans[k]))
    && (forall k | 0 <= k < |spans| && HasText(spans[k]) ::
          language.classify(Trim(spans[k])) == Read && !language.leaves(Trim(spans[k])))
  }

  /** Whatever this request makes the server execute changes nothing. */
  predicate Harmless(language: Language, request: Request) {
    var runs := Executed(request);
    && !(runs.RunsOp? && (runs.op.Mutate? || runs.op.Ddl?))
    && (runs.RunsScript? ==> OnlyReads(language, runs.text))
  }

  lemma HasTextExactly(s: string)
    ensures HasText(s) <==> Trim(s) != ""
  {
    TrimEmpty(s);
  }

  /** The statements of a script are the trimmed texts of the spans that have any. */
  lemma {:induction false} StatementsExactly(spans: seq<string>)
    ensures forall s :: s in Statements(spans) <==> exists k | 0 <= k < |spans| :: HasText(spans[k]) && Trim(spans[k]) == s
  {
    if spans != [] {
      HasTextExactly(spans[0]);
      StatementsExactly(spans[1..]);
      forall k | 0 <= k < |spans| && HasText(spans[k]) ensures Trim(spans[k]) in Statements(spans) {
        HasTextExactly(spans[k]);
        StatementsMember(spans, k);
      }
      forall s | s in Statements(spans) ensures exists k | 0 <= k < |spans| :: HasText(spans[k]) && Trim(spans[k]) == s {
        if s in Statements(spans[1..]) {
          var k :| 0 <= k < |spans[1..]| && HasText(spans[1..][k]) && Trim(spans[1..][k]) == s;
          assert spans[k + 1] == spans[1..][k];
        } else {
          assert HasText(spans[0]) && Trim(spans[0]) == s;
        }
      }
    }
  }

  lemma ScriptReadsExactly(language: Language, text: string)
    ensures ScriptReads(language, Statements(language.split(text))) <==> OnlyReads(language, text)
  {
    hide HasText, Trim;
    var spans := language.split(text);
    var statements := Statements(spans);
    StatementsExactly(spans);
    if statements != [] {
      assert statements[0] in statements;
    }
    if OnlyReads(language, text) {
      var k :| 0 <= k < |spans| && HasText(spans[k]);
      assert Trim(spans[k]) in statements;
    }
    if ScriptReads(language, statements) {
      forall k | 0 <= k < |spans| && HasText(spans[k])
        ensures language.classify(Trim(spans[k])) == Read && !language.leaves(Trim(spans[k]))
      {
        assert Trim(spans[k]) in statements;
        assert StatementReads(language, Trim(spans[k]));
      }
    }
  }

  /** The gate takes a request for a read exactly when what it executes changes nothing. */
  lemma {:induction false} ReadExactly(language: Language, request: Request)
    ensures IsRead(language, request) <==> Harmless(language, request)
    decreases request
  {
    hide OnlyReads, ScriptReads, Statements;
    match request
    case Native(text, _) => ScriptReadsExactly(language, text);
    case Plain(op) =>
      if op.Explain? && op.analyze {
        ReadExactly(language, op.inner);
      }
  }

  /** What a rung asks of a request, rung by rung. */
  lemma RequiredExactly(level: SafetyLevel, read: bool)
    ensures Required(level, read) == Nothing <==>
              level == Silent || ((level == WarnWrites || level == AuthWrites) && read)
    ensures Required(level, read) == Warn <==> level == WarnAll || (level == WarnWrites && !read)
    ensures Required(level, read) == Authenticate <==> level == AuthAll || (level == AuthWrites && !read)
  {
  }

  /** What a plan asks for, rung by rung: the strictest thing any of its statements needs. */
  lemma {:induction false} PlanAsks(language: Language, level: SafetyLevel, statements: seq<string>)
    ensures var asked := PlanRequirement(language, level, statements);
            && (asked == Authenticate <==>
                  || (level == AuthAll && statements != [])
                  || (level == AuthWrites && exists k | 0 <= k < |statements| :: !StatementReads(language, statements[k])))
            && (asked == Warn <==>
                  || (level == WarnAll && statements != [])
                  || (level == WarnWrites && exists k | 0 <= k < |statements| :: !StatementReads(language, statements[k])))
  {
    hide StatementReads;
    if statements != [] {
      var init, last := statements[..|statements| - 1], statements[|statements| - 1];
      PlanAsks(language, level, init);
      RequiredExactly(level, StatementReads(language, last));
      assert (exists k | 0 <= k < |statements| :: !StatementReads(language, statements[k])) <==>
               (|| !StatementReads(language, last)
                || exists k | 0 <= k < |init| :: !StatementReads(language, init[k])) by {
        assert statements[|init|] == last;
        assert forall k | 0 <= k < |init| :: statements[k] == init[k];
      }
    }
  }
}

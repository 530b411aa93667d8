/**
  Reading a generated update body back: what a reader that knows only the syntax makes of the script's
  text and of the JSON around it. It finds exactly the statements and values that went in.
 */
module ScriptText {
  import opened Wrappers
  import opened Json
  import opened Updates
  import Bulk
  import Decimal
  import JsonText
  import Values

  // ---- Cutting texts. ----

  /** A text cut before the first `mark`. */
  function Cut(text: string, mark: char): (parts: (string, string))
    ensures text == parts.0 + parts.1 && mark !in parts.0
    ensures parts.1 != "" ==> parts.1[0] == mark
  {
    if text == "" || text[0] == mark then ("", text)
    else
      var rest := Cut(text[1..], mark);
      ([text[0]] + rest.0, rest.1)
  }

  lemma {:induction false} CutIs(a: string, mark: char, b: string)
    requires mark !in a && (b == "" || b[0] == mark)
    ensures Cut(a + b, mark) == (a, b)
  {
    if a == "" {
      assert a + b == b;
    } else {
      assert (a + b)[1..] == a[1..] + b;
      CutIs(a[1..], mark, b);
      assert [a[0]] + a[1..] == a;
    }
  }

  predicate Starts(text: string, prefix: string) {
    |prefix| <= |text| && text[..|prefix|] == prefix
  }

  predicate Ends(text: string, suffix: string) {
    |suffix| <= |text| && text[|text| - |suffix|..] == suffix
  }

  // ---- Reading expressions and statements. ----

  predicate NameChar(c: char) {
    'a' <= c <= 'z' || 'A' <= c <= 'Z' || '0' <= c <= '9' || c == '_'
  }

  predicate Plain(name: string) {
    name != "" && forall i | 0 <= i < |name| :: NameChar(name[i])
  }

  predicate AllPlain(names: Names) {
    forall i | 0 <= i < |names| :: Plain(names[i])
  }

  /** Names after `ctx._source`, each behind a dot. */
  function ReadNames(text: string): Option<Names>
    decreases |text|
  {
    if text == "" then Some([])
    else if text[0] != '.' then None
    else
      var (name, rest) := Cut(text[1..], '.');
      match ReadNames(rest)
      case None => None
      case Some(names) => Some([name] + names)
  }

  function ReadAccess(text: string): Option<Names> {
    if Starts(text, "ctx._source") then ReadNames(text[11..]) else None
  }

  /** The paths tested to be maps, in order. */
  function ReadGuards(text: string): Option<seq<Names>>
    decreases |text|
  {
    var (access, rest) := Cut(text, ' ');
    match ReadAccess(access)
    case None => None
    case Some(names) =>
      if rest == " instanceof Map" then Some([names])
      else if Starts(rest, " instanceof Map && ") then
        match ReadGuards(rest[19..])
        case None => None
        case Some(more) => Some([names] + more)
      else None
  }

  /** The first statement form: a step that is no map becomes an empty one. */
  function ReadEnsure(text: string): Option<Stmt>
    requires Starts(text, "if (!(")
  {
    var (access, rest) := Cut(text[6..], ' ');
    if rest != " instanceof Map)) { " + access + " = [:]; }" then None
    else
      match ReadAccess(access)
      case None => None
      case Some(names) => Some(EnsureMap(names))
  }

  function ReadAssign(text: string): Option<Stmt> {
    var (access, rest) := Cut(text, ' ');
    if |rest| < 13 || !Starts(rest, " = params.p") || !Ends(rest, ";") || !Decimal.AllDigits(rest[11..|rest| - 1]) then None
    else
      match ReadAccess(access)
      case None => None
      case Some(names) => Some(Assign(names, Decimal.Value(rest[11..|rest| - 1])))
  }

  function ReadRemoveTop(text: string): Option<Stmt> {
    var (call, rest) := Cut(text, '\'');
    if call != "ctx._source.remove(" || rest == "" then None
    else
      var (name, end) := Cut(rest[1..], '\'');
      if end == "');" then Some(RemoveTop(name)) else None
  }

  /** The nested removal: it tests every step above the field, outermost first, before it removes it. */
  function ReadRemoveNested(text: string): Option<Stmt>
    requires Starts(text, "if (")
  {
    var (guards, rest) := Cut(text[4..], ')');
    if !Starts(rest, ") { ") then None
    else
      var (call, quoted) := Cut(rest[4..], '\'');
      if !Ends(call, ".remove(") || quoted == "" then None
      else
        var (name, end) := Cut(quoted[1..], '\'');
        var parent, tested := ReadAccess(call[..|call| - 8]), ReadGuards(guards);
        if end == "'); }" && parent.Some? && tested == Some(Prefixes(parent.value)) then
          Some(RemoveNested(parent.value + [name]))
        else None
  }

  function Prefixes(names: Names): seq<Names> {
    seq(|names|, d requires 0 <= d < |names| => names[..d + 1])
  }

  function ReadLine(text: string): Option<Stmt> {
    if Starts(text, "if (!(") then ReadEnsure(text)
    else if Starts(text, "if (") then ReadRemoveNested(text)
    else if Starts(text, "ctx._source.remove('") then ReadRemoveTop(text)
    else ReadAssign(text)
  }

  // ---- Reading back what was written. ----

  function Dotted(names: Names): string {
    if names == [] then "" else "." + names[0] + Dotted(names[1..])
  }

  lemma {:induction false} DottedSnoc(names: Names, last: string)
    ensures Dotted(names + [last]) == Dotted(names) + "." + last
  {
    if names == [] {
      assert ([last])[1..] == [];
    } else {
      assert (names + [last])[1..] == names[1..] + [last];
      DottedSnoc(names[1..], last);
    }
  }

  lemma {:induction false} AccessIsDotted(names: Names)
    ensures Bulk.AccessExpr(names) == "ctx._source" + Dotted(names)
    decreases |names|
  {
    if names != [] {
      var init, last := names[..|names| - 1], names[|names| - 1];
      AccessIsDotted(init);
      DottedSnoc(init, last);
      assert names == init + [last];
    }
  }

  predicate AccessChar(c: char) {
    NameChar(c) || c == '.'
  }

  lemma {:induction false} DottedChars(names: Names)
    requires AllPlain(names)
    ensures forall c | c in Dotted(names) :: AccessChar(c)
  {
    if names != [] {
      assert AllPlain(names[1..]);
      DottedChars(names[1..]);
      assert Plain(names[0]);
    }
  }

  lemma AccessChars(names: Names)
    requires AllPlain(names)
    ensures forall c | c in Bulk.AccessExpr(names) :: AccessChar(c)
  {
    AccessIsDotted(names);
    DottedChars(names);
    var root := "ctx._source";
    assert forall c | c in root :: AccessChar(c);
  }

  lemma {:induction false} NamesReadBack(names: Names)
    requires AllPlain(names)
    ensures ReadNames(Dotted(names)) == Some(names)
  {
    hide Plain, NameChar, Cut;
    if names != [] {
      var name, rest := names[0], Dotted(names[1..]);
      assert AllPlain(names[1..]) && Plain(name);
      NamesReadBack(names[1..]);
      NoDot(name);
      assert Dotted(names)[1..] == name + rest;
      CutIs(name, '.', rest);
      assert [name] + names[1..] == names;
    }
  }

  lemma NoDot(name: string)
    requires Plain(name)
    ensures '.' !in name
  {
  }

  lemma AccessReadsBack(names: Names)
    requires AllPlain(names)
    ensures ReadAccess(Bulk.AccessExpr(names)) == Some(names)
  {
    AccessIsDotted(names);
    NamesReadBack(names);
    assert Bulk.AccessExpr(names)[..11] == "ctx._source" && Bulk.AccessExpr(names)[11..] == Dotted(names);
  }

  // ---- One statement. ----

  /** A statement the generator writes: plain names, and a path where one is needed. */
  predicate Sendable(line: Stmt) {
    match line
    case EnsureMap(names) => AllPlain(names)
    case Assign(names, _) => AllPlain(names)
    case RemoveTop(name) => Plain(name)
    case RemoveNested(names) => |names| > 1 && AllPlain(names)
  }

  lemma AccessHas(names: Names, mark: char)
    requires AllPlain(names) && !AccessChar(mark)
    ensures mark !in Bulk.AccessExpr(names)
  {
    AccessChars(names);
  }

  lemma EnsureReadsBack(names: Names)
    requires AllPlain(names)
    ensures ReadLine(Bulk.LineText(EnsureMap(names))) == Some(EnsureMap(names))
  {
    hide Bulk.AccessExpr, AllPlain, ReadAccess, Cut;
    var access := Bulk.AccessExpr(names);
    var text, rest := Bulk.LineText(EnsureMap(names)), " instanceof Map)) { " + access + " = [:]; }";
    assert text[..6] == "if (!(" && text[6..] == access + rest;
    AccessHas(names, ' ');
    CutIs(access, ' ', rest);
    AccessReadsBack(names);
  }

  lemma AssignReadsBack(names: Names, param: nat)
    requires AllPlain(names)
    ensures ReadLine(Bulk.LineText(Assign(names, param))) == Some(Assign(names, param))
  {
    hide Bulk.AccessExpr, AllPlain, ReadAccess, Cut, Decimal.Print, Decimal.Value;
    var access, digits := Bulk.AccessExpr(names), Decimal.Print(param);
    var text, rest := Bulk.LineText(Assign(names, param)), " = params.p" + digits + ";";
    Decimal.PrintThenValue(param);
    assert text == access + rest;
    AccessStarts(names, rest);
    AccessHas(names, ' ');
    CutIs(access, ' ', rest);
    assert rest[..11] == " = params.p" && rest[|rest| - 1..] == ";" && rest[11..|rest| - 1] == digits;
    AccessReadsBack(names);
  }

  /** An assignment starts like none of the other forms. */
  lemma AccessStarts(names: Names, rest: string)
    requires AllPlain(names) && rest != "" && rest[0] == ' '
    ensures var text := Bulk.AccessExpr(names) + rest;
            !Starts(text, "if (!(") && !Starts(text, "if (") && !Starts(text, "ctx._source.remove('")
  {
    hide Bulk.AccessExpr, AllPlain, Dotted;
    AccessIsDotted(names);
    AccessHas(names, '(');
    var access := Bulk.AccessExpr(names);
    var text := access + rest;
    assert text[0] == 'c';
    var call := "ctx._source.remove('";
    var k := if 18 < |access| then 18 else |access|;
    if 18 < |access| {
      assert access[18] in access;
    }
    assert k < |text| && text[k] != call[k];
  }

  lemma NameHas(name: string, mark: char)
    requires Plain(name) && !NameChar(mark)
    ensures mark !in name
  {
  }

  lemma RemoveTopReadsBack(name: string)
    requires Plain(name)
    ensures ReadLine(Bulk.LineText(RemoveTop(name))) == Some(RemoveTop(name))
  {
    hide Cut, Plain;
    var text := Bulk.LineText(RemoveTop(name));
    var call, rest := "ctx._source.remove(", "'" + name + "');";
    assert text[0] == 'c' && text[..20] == "ctx._source.remove('";
    assert text == call + rest;
    CutIs(call, '\'', rest);
    NameHas(name, '\'');
    assert rest[1..] == name + "');";
    CutIs(name, '\'', "');");
  }

  // ---- The guarded removal. ----

  lemma {:induction false} GuardsReadBack(names: Names, depth: nat, more: string)
    requires AllPlain(names) && 1 <= depth <= |names|
    requires more == "" || (Starts(more, " && ") && ReadGuards(more[4..]).Some?)
    ensures ReadGuards(Bulk.MapGuards(names, depth) + more)
         == Some(Prefixes(names)[..depth] + if more == "" then [] else ReadGuards(more[4..]).value)
    decreases depth
  {
    hide Bulk.AccessExpr, Bulk.MapGuards, ReadGuards, Plain, Prefixes;
    var others := if more == "" then [] else ReadGuards(more[4..]).value;
    var last := Bulk.AccessExpr(names[..depth]) + (" instanceof Map" + more);
    assert AllPlain(names[..depth]);
    GuardRead(names[..depth], more);
    GuardsText(names, depth, more);
    PrefixesGrow(names, depth, others);
    if depth > 1 {
      var tail := " && " + last;
      assert tail[..4] == " && " && tail[4..] == last;
      GuardsReadBack(names, depth - 1, tail);
    }
  }

  /** The tests up to a depth, and what follows them, are the tests before it and then the last one. */
  lemma GuardsText(names: Names, depth: nat, more: string)
    requires 1 <= depth <= |names|
    ensures var last := Bulk.AccessExpr(names[..depth]) + (" instanceof Map" + more);
            Bulk.MapGuards(names, depth) + more == if depth == 1 then last else Bulk.MapGuards(names, depth - 1) + (" && " + last)
  {
    hide Bulk.AccessExpr;
  }

  lemma PrefixesGrow(names: Names, depth: nat, others: seq<Names>)
    requires 1 <= depth <= |names|
    ensures Prefixes(names)[..depth] + others == Prefixes(names)[..depth - 1] + ([names[..depth]] + others)
    ensures depth == 1 ==> Prefixes(names)[..depth] + others == [names[..depth]] + others
  {
  }

  /** One guard and what follows it. */
  lemma GuardRead(names: Names, more: string)
    requires AllPlain(names)
    requires more == "" || (Starts(more, " && ") && ReadGuards(more[4..]).Some?)
    ensures ReadGuards(Bulk.AccessExpr(names) + (" instanceof Map" + more))
         == Some([names] + if more == "" then [] else ReadGuards(more[4..]).value)
  {
    hide Bulk.AccessExpr, ReadAccess, Cut, AllPlain;
    var access, rest := Bulk.AccessExpr(names), " instanceof Map" + more;
    AccessHas(names, ' ');
    AccessReadsBack(names);
    CutIs(access, ' ', rest);
    if more == "" {
      var none: seq<Names> := [];
      assert [names] + none == [names];
      assert rest == " instanceof Map";
    } else {
      assert |rest| > 15;
      assert rest[..19] == " instanceof Map && " by {
        assert more == " && " + more[4..];
      }
      assert rest[19..] == more[4..];
    }
  }

  lemma {:induction false} GuardChars(names: Names, depth: nat)
    requires AllPlain(names) && depth <= |names|
    ensures ')' !in Bulk.MapGuards(names, depth)
    decreases depth
  {
    hide Bulk.AccessExpr;
    if depth > 0 {
      assert AllPlain(names[..depth]);
      AccessHas(names[..depth], ')');
      GuardChars(names, depth - 1);
    }
  }

  lemma RemoveNestedReadsBack(names: Names)
    requires |names| > 1 && AllPlain(names)
    ensures ReadLine(Bulk.LineText(RemoveNested(names))) == Some(RemoveNested(names))
  {
    hide Bulk.AccessExpr, Bulk.MapGuards, ReadAccess, Cut, ReadGuards, Plain;
    var n := |names| - 1;
    var parent, name, guards := names[..n], names[n], Bulk.MapGuards(names, n);
    var call := Bulk.AccessExpr(parent) + ".remove(";
    var quoted := "'" + name + "'); }";
    var text, rest := Bulk.LineText(RemoveNested(names)), ") { " + (call + quoted);
    assert AllPlain(parent) && Plain(name);
    assert text[..4] == "if (" && text[4..] == guards + rest;
    GuardChars(names, n);
    CutIs(guards, ')', rest);
    assert rest[..4] == ") { " && rest[4..] == call + quoted;
    CallQuoted(parent);
    CutIs(call, '\'', quoted);
    assert quoted[1..] == name + "'); }";
    NameHas(name, '\'');
    CutIs(name, '\'', "'); }");
    assert call[|call| - 8..] == ".remove(" && call[..|call| - 8] == Bulk.AccessExpr(parent);
    AccessReadsBack(parent);
    assert guards + "" == guards;
    GuardsReadBack(names, n, "");
    GuardsTest(names);
    GuardsStart(names, n);
    assert text[4] == guards[0] && "if (!("[4] == '!';
    assert parent + [name] == names;
  }

  lemma CallQuoted(names: Names)
    requires AllPlain(names)
    ensures '\'' !in Bulk.AccessExpr(names) + ".remove("
  {
    AccessHas(names, '\'');
  }

  lemma GuardsTest(names: Names)
    requires |names| > 1
    ensures var none: seq<Names> := [];
            Prefixes(names)[..|names| - 1] + none == Prefixes(names[..|names| - 1])
  {
    var n := |names| - 1;
    forall d | 0 <= d < n ensures Prefixes(names[..n])[d] == Prefixes(names)[d] {
      assert names[..n][..d + 1] == names[..d + 1];
    }
  }

  lemma {:induction false} GuardsStart(names: Names, depth: nat)
    requires 1 <= depth <= |names|
    ensures |Bulk.MapGuards(names, depth)| > 2 && Bulk.MapGuards(names, depth)[0] == 'c'
    decreases depth
  {
    AccessIsDotted(names[..depth]);
    if depth > 1 {
      GuardsStart(names, depth - 1);
    }
  }

  /** Every statement the generator writes reads back as itself. */
  lemma LineReadsBack(line: Stmt)
    requires Sendable(line)
    ensures ReadLine(Bulk.LineText(line)) == Some(line)
  {
    match line
    case EnsureMap(names) => EnsureReadsBack(names);
    case Assign(names, param) => AssignReadsBack(names, param);
    case RemoveTop(name) => RemoveTopReadsBack(name);
    case RemoveNested(names) => RemoveNestedReadsBack(names);
  }

  // ---- The whole script. ----

  function ReadLines(texts: seq<string>): Option<seq<Stmt>> {
    if texts == [] then Some([])
    else
      match ReadLine(texts[0])
      case None => None
      case Some(line) =>
        match ReadLines(texts[1..])
        case None => None
        case Some(rest) => Some([line] + rest)
  }

  /** A script's text, one statement a line. */
  function ReadScript(text: string): Option<seq<Stmt>> {
    ReadLines(Bulk.SplitLines(text, ""))
  }

  predicate AllSendable(lines: seq<Stmt>) {
    forall i | 0 <= i < |lines| :: Sendable(lines[i])
  }

  lemma OneLineAccess(names: Names)
    requires AllPlain(names)
    ensures JsonText.OneLine(Bulk.AccessExpr(names))
  {
    AccessHas(names, '\n');
  }

  lemma {:induction false} OneLineGuards(names: Names, depth: nat)
    requires AllPlain(names) && depth <= |names|
    ensures JsonText.OneLine(Bulk.MapGuards(names, depth))
    decreases depth
  {
    hide Bulk.AccessExpr;
    if depth > 0 {
      assert AllPlain(names[..depth]);
      OneLineAccess(names[..depth]);
      OneLineGuards(names, depth - 1);
    }
  }

  lemma EnsureIsOneLine(names: Names)
    requires AllPlain(names)
    ensures JsonText.OneLine(Bulk.LineText(EnsureMap(names)))
  {
    hide Bulk.AccessExpr, AllPlain;
    OneLineAccess(names);
  }

  lemma AssignIsOneLine(names: Names, param: nat)
    requires AllPlain(names)
    ensures JsonText.OneLine(Bulk.LineText(Assign(names, param)))
  {
    hide Bulk.AccessExpr, AllPlain, Decimal.Print, Decimal.Value;
    OneLineAccess(names);
    Decimal.PrintThenValue(param);
    assert JsonText.OneLine(Decimal.Print(param));
  }

  lemma RemoveTopIsOneLine(name: string)
    requires Plain(name)
    ensures JsonText.OneLine(Bulk.LineText(RemoveTop(name)))
  {
    NameHas(name, '\n');
  }

  lemma RemoveNestedIsOneLine(names: Names)
    requires |names| > 1 && AllPlain(names)
    ensures JsonText.OneLine(Bulk.LineText(RemoveNested(names)))
  {
    hide Bulk.AccessExpr, Bulk.MapGuards, Plain;
    var n := |names| - 1;
    assert AllPlain(names[..n]) && Plain(names[n]);
    OneLineAccess(names[..n]);
    OneLineGuards(names, n);
    NameHas(names[n], '\n');
  }

  lemma LineIsOneLine(line: Stmt)
    requires Sendable(line)
    ensures JsonText.OneLine(Bulk.LineText(line)) && Bulk.LineText(line) != ""
  {
    hide Bulk.AccessExpr, Bulk.MapGuards, Decimal.Print, AllPlain, Plain;
    match line
    case EnsureMap(names) => EnsureIsOneLine(names);
    case Assign(names, param) => AssignIsOneLine(names, param);
    case RemoveTop(name) => RemoveTopIsOneLine(name);
    case RemoveNested(names) => RemoveNestedIsOneLine(names);
  }

  lemma {:induction false} SplitLast(line: string, before: string)
    requires JsonText.OneLine(line)
    ensures Bulk.SplitLines(line, before) == if before + line == "" then [] else [before + line]
    decreases |line|
  {
    if line != "" {
      SplitLast(line[1..], before + [line[0]]);
      assert before + [line[0]] + line[1..] == before + line;
    } else {
      assert before + line == before;
    }
  }

  /** The script says exactly the statements it was made of, in order. */
  lemma {:induction false} ScriptReadsBack(lines: seq<Stmt>)
    requires lines != [] && AllSendable(lines)
    ensures ReadScript(Bulk.Joined(lines, "\n")) == Some(lines)
  {
    hide Bulk.LineText, Sendable, ReadLine, Bulk.SplitLines;
    var text := Bulk.LineText(lines[0]);
    LineIsOneLine(lines[0]);
    LineReadsBack(lines[0]);
    if |lines| == 1 {
      SplitLast(text, "");
      assert "" + text == text;
      assert ReadLines([text][1..]) == Some([]);
      assert [lines[0]] + [] == lines;
    } else {
      var rest := Bulk.Joined(lines[1..], "\n");
      assert AllSendable(lines[1..]);
      ScriptReadsBack(lines[1..]);
      Bulk.SplitOneLine(text, rest, "");
      assert "" + text == text;
      var texts := Bulk.SplitLines(rest, "");
      assert ([text] + texts)[1..] == texts;
      assert [lines[0]] + lines[1..] == lines;
    }
  }

  // ---- The body around it. ----

  function ReadParams(params: Object, n: nat): Option<seq<Json>> {
    if n == 0 then Some([])
    else
      var key := "p" + Decimal.Print(n - 1);
      if key !in params then None
      else
        match ReadParams(params, n - 1)
        case None => None
        case Some(before) => Some(before + [params[key]])
  }

  /** What an update request asks for: a document to merge, or a script with the values it uses. */
  function ReadBody(json: Json): Option<Body> {
    if !json.JObj? then None
    else if json.fields.Keys == {"doc"} then
      if json.fields["doc"].JObj? then Some(Doc(json.fields["doc"].fields)) else None
    else if json.fields.Keys == {"script"} && json.fields["script"].JObj? then ReadScriptObject(json.fields["script"].fields)
    else None
  }

  function ReadScriptObject(script: Object): Option<Body> {
    if script.Keys != {"lang", "source", "params"} || script["lang"] != JStr("painless") then None
    else if !script["source"].JStr? || !script["params"].JObj? then None
    else
      var lines := ReadScript(script["source"].s);
      var params := ReadParams(script["params"].fields, |script["params"].fields|);
      if lines.Some? && params.Some? then Some(Script(lines.value, params.value)) else None
  }

  lemma {:induction false} ParamKeys(params: seq<Json>, m: nat)
    ensures ("p" + Decimal.Print(m)) in Bulk.ParamsJson(params) <==> m < |params|
    ensures m < |params| ==> Bulk.ParamsJson(params)["p" + Decimal.Print(m)] == params[m]
    decreases |params|
  {
    hide Decimal.Print, Decimal.Value;
    if params != [] {
      var n := |params| - 1;
      ParamKeys(params[..n], m);
      if "p" + Decimal.Print(m) == "p" + Decimal.Print(n) {
        assert ("p" + Decimal.Print(m))[1..] == ("p" + Decimal.Print(n))[1..];
        Decimal.PrintThenValue(m);
        Decimal.PrintThenValue(n);
      }
    }
  }

  lemma {:induction false} ParamCount(params: seq<Json>)
    ensures |Bulk.ParamsJson(params)| == |params|
    decreases |params|
  {
    hide Decimal.Print;
    if params != [] {
      var n := |params| - 1;
      ParamKeys(params[..n], n);
      ParamCount(params[..n]);
      var before, key := Bulk.ParamsJson(params[..n]), "p" + Decimal.Print(n);
      assert before[key := params[n]].Keys == before.Keys + {key};
    }
  }

  lemma {:induction false} ParamsReadBack(params: seq<Json>, n: nat)
    requires n <= |params|
    ensures ReadParams(Bulk.ParamsJson(params), n) == Some(params[..n])
    decreases n
  {
    hide Decimal.Print, Bulk.ParamsJson;
    if n > 0 {
      ParamKeys(params, n - 1);
      ParamsReadBack(params, n - 1);
      assert params[..n - 1] + [params[n - 1]] == params[..n];
    }
  }

  predicate SendableBody(body: Body) {
    body.Script? ==> body.lines != [] && AllSendable(body.lines)
  }

  /** A body reads back as itself: the document, or every statement and every value of the script. */
  lemma BodyReadsBack(body: Body)
    requires SendableBody(body)
    ensures ReadBody(Bulk.BodyJson(body)) == Some(body)
  {
    hide Bulk.Joined, Bulk.ParamsJson, ReadScript, AllSendable;
    if body.Script? {
      ScriptReadsBack(body.lines);
      ParamCount(body.params);
      ParamsReadBack(body.params, |body.params|);
      assert body.params[..|body.params|] == body.params;
    }
  }

  // ---- Every accepted update can be sent. ----

  lemma SafeIsPlain(name: string)
    ensures IsSafePainlessField(name) <==> Plain(name) && !('0' <= name[0] <= '9')
  {
  }

  lemma {:induction false} AdmittedArePlain(seen: seq<Names>, paths: seq<Path>)
    requires AdmitAll(seen, paths).Ok? && forall i | 0 <= i < |seen| :: AllPlain(seen[i])
    ensures forall i | 0 <= i < |AdmitAll(seen, paths).value| :: AllPlain(AdmitAll(seen, paths).value[i])
    decreases |paths|
  {
    hide Plain, IsSafePainlessField, SetFieldNames;
    if paths != [] {
      var names := Admit(seen, paths[0]).value;
      forall i | 0 <= i < |names| ensures Plain(names[i]) {
        assert names[i] in names;
        SafeIsPlain(names[i]);
      }
      AdmittedArePlain(seen + [names], paths[1..]);
    }
  }

  lemma {:induction false} EnsuresAreSendable(names: Names, d: nat)
    requires AllPlain(names) && d <= |names|
    ensures AllSendable(EnsureLines(names, d))
    decreases d
  {
    if d > 0 {
      EnsuresAreSendable(names, d - 1);
    }
  }

  lemma {:induction false} AssignsAreSendable(all: seq<Names>)
    requires NoneEmpty(all) && forall i | 0 <= i < |all| :: AllPlain(all[i])
    ensures AllSendable(AllAssignLines(all))
    decreases |all|
  {
    hide AllPlain;
    if all != [] {
      var n := |all| - 1;
      AssignsAreSendable(all[..n]);
      EnsuresAreSendable(all[n], |all[n]| - 1);
    }
  }

  lemma {:induction false} RemovalsAreSendable(all: seq<Names>)
    requires NoneEmpty(all) && forall i | 0 <= i < |all| :: AllPlain(all[i])
    ensures AllSendable(RemoveLines(all)) && |RemoveLines(all)| == |all|
    decreases |all|
  {
    if all != [] {
      RemovalsAreSendable(all[..|all| - 1]);
      assert AllPlain(all[|all| - 1]);
    }
  }

  /**
    Every accepted update can be read back from the body sent for it, statement by statement and value
    by value: the script text means what the model's script means, and no name can break out of it.
   */
  lemma AcceptedReadsBack(sets: seq<FieldSet>, render: Values.Value -> Json)
    requires UpdateBody(sets, render).Ok?
    ensures ReadBody(Bulk.BodyJson(UpdateBody(sets, render).value)) == Some(UpdateBody(sets, render).value)
  {
    hide Bulk.BodyJson, ReadBody, AllPlain, Sendable;
    var split := SplitSets(sets, render).value;
    if split.removals != [] {
      var all := AdmitAll([], Paths(split.assignments) + split.removals).value;
      AdmittedArePlain([], Paths(split.assignments) + split.removals);
      var n := |split.assignments|;
      AssignsAreSendable(all[..n]);
      RemovalsAreSendable(all[n..]);
    }
    BodyReadsBack(UpdateBody(sets, render).value);
  }
}

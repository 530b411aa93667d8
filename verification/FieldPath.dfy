/**
  Field paths such as `a.b[3].c`: the parser (`FromStr`) and the printer (`Display`).
  Texts are sequences of characters; every delimiter is ASCII, and errors give byte positions.
 */
module FieldPath {
  import opened Wrappers
  import Decimal
  import Utf8

  datatype PathSeg = Field(name: string) | Index(n: nat)

  datatype ParseError = ParseError(at: nat, reason: string)

  type Parsed = Result<seq<PathSeg>, ParseError>

  /** An error at a character; its position counts bytes. */
  function Fault(s: string, i: nat, reason: string): ParseError
    requires i <= |s|
  {
    ParseError(|Utf8.Text(s[..i])|, reason)
  }

  predicate IsDelimiter(c: char) {
    c == '.' || c == '[' || c == ']'
  }

  predicate WellFormedSeg(seg: PathSeg) {
    match seg
    case Field(name) => name != "" && forall i | 0 <= i < |name| :: !IsDelimiter(name[i])
    case Index(n) => n < Decimal.U64_LIMIT
  }

  /** What a path can be spelled as: at least one segment, each of them printable unambiguously. */
  predicate WellFormed(path: seq<PathSeg>) {
    path != [] && forall i | 0 <= i < |path| :: WellFormedSeg(path[i])
  }

  function SegText(seg: PathSeg, first: bool): string {
    match seg
    case Field(name) => (if first then "" else ".") + name
    case Index(n) => "[" + Decimal.Print(n) + "]"
  }

  function TailText(path: seq<PathSeg>): string {
    if path == [] then "" else SegText(path[0], false) + TailText(path[1..])
  }

  function PathText(path: seq<PathSeg>): string {
    if path == [] then "" else SegText(path[0], true) + TailText(path[1..])
  }

  /** End of the run of digits that starts at `i`. */
  function DigitsEnd(s: string, i: nat): (j: nat)
    requires i <= |s|
    ensures i <= j <= |s| && forall k | i <= k < j :: Decimal.IsDigit(s[k])
    ensures j < |s| ==> !Decimal.IsDigit(s[j])
    decreases |s| - i
  {
    if i < |s| && Decimal.IsDigit(s[i]) then DigitsEnd(s, i + 1) else i
  }

  /** End of the run of non-delimiters that starts at `i`. */
  function NameEnd(s: string, i: nat): (j: nat)
    requires i <= |s|
    ensures i <= j <= |s| && forall k | i <= k < j :: !IsDelimiter(s[k])
    ensures j < |s| ==> IsDelimiter(s[j])
    decreases |s| - i
  {
    if i < |s| && !IsDelimiter(s[i]) then NameEnd(s, i + 1) else i
  }

  /** One segment read at `i`, with the position just after it. */
  function SegAt(s: string, i: nat): (r: Result<(PathSeg, nat), ParseError>)
    requires i <= |s|
    ensures r.Ok? ==> i < r.value.1 <= |s|
  {
    if i == |s| then Err(Fault(s, i, "expected a segment"))
    else if s[i] == '[' then
      var j := DigitsEnd(s, i + 1);
      if j == i + 1 then Err(Fault(s, i + 1, "expected digits inside []"))
      else if j == |s| || s[j] != ']' then Err(Fault(s, j, "unterminated index, expected ]"))
      else if Decimal.Value(s[i + 1..j]) >= Decimal.U64_LIMIT then Err(Fault(s, i + 1, "index out of range"))
      else Ok((Index(Decimal.Value(s[i + 1..j])), j + 1))
    else if s[i] == '.' then Err(Fault(s, i, "empty field name"))
    else if s[i] == ']' then Err(Fault(s, i, "unexpected ]"))
    else Ok((Field(s[i..NameEnd(s, i)]), NameEnd(s, i)))
  }

  /** Where the next segment starts when one ended at `j`, short of the end of the text. */
  function NextStart(s: string, j: nat): (r: Result<nat, ParseError>)
    requires j < |s|
    ensures r.Ok? ==> j <= r.value < |s|
  {
    if s[j] == '.' then
      if j + 1 == |s| then Err(Fault(s, j + 1, "trailing dot"))
      else if s[j + 1] == '[' then Err(Fault(s, j + 1, "index must not follow a dot"))
      else Ok(j + 1)
    else if s[j] == '[' then Ok(j)
    else Err(Fault(s, j, "expected . or [ after index"))
  }

  /** Everything from a segment start `i` to the end of the text. */
  function SegsFrom(s: string, i: nat): Parsed
    requires i <= |s|
    decreases |s| - i
  {
    match SegAt(s, i)
    case Err(e) => Err(e)
    case Ok((seg, j)) =>
      if j == |s| then Ok([seg])
      else
        match NextStart(s, j)
        case Err(e) => Err(e)
        case Ok(next) => Prepend(seg, SegsFrom(s, next))
  }

  function Prepend(seg: PathSeg, rest: Parsed): Parsed {
    match rest
    case Ok(segs) => Ok([seg] + segs)
    case Err(e) => Err(e)
  }

  function ParsedPath(s: string): Parsed {
    if s == "" then Err(ParseError(0, "empty path")) else SegsFrom(s, 0)
  }

  /** Reads one segment: a bracketed index, or a field name up to the next delimiter. */
  method ReadSegment(s: string, start: nat) returns (r: Result<(PathSeg, nat), ParseError>)
    requires start <= |s|
    ensures r == SegAt(s, start)
  {
    hide Fault;
    if start == |s| {
      return Err(Fault(s, start, "expected a segment"));
    } else if s[start] == '[' {
      var j := start + 1;
      while j < |s| && Decimal.IsDigit(s[j])
        invariant start + 1 <= j <= |s| && DigitsEnd(s, start + 1) == DigitsEnd(s, j)
      {
        j := j + 1;
      }
      if j == start + 1 {
        return Err(Fault(s, start + 1, "expected digits inside []"));
      }
      if j == |s| || s[j] != ']' {
        return Err(Fault(s, j, "unterminated index, expected ]"));
      }
      var n := Decimal.Value(s[start + 1..j]);
      if n >= Decimal.U64_LIMIT {
        return Err(Fault(s, start + 1, "index out of range"));
      }
      return Ok((Index(n), j + 1));
    } else if s[start] == '.' {
      return Err(Fault(s, start, "empty field name"));
    } else if s[start] == ']' {
      return Err(Fault(s, start, "unexpected ]"));
    }
    var i := start;
    while i < |s| && !IsDelimiter(s[i])
      invariant start <= i <= |s| && NameEnd(s, start) == NameEnd(s, i)
    {
      i := i + 1;
    }
    return Ok((Field(s[start..i]), i));
  }

  /** The parser: one pass over the text with an index, pushing a segment each time round. */
  method Parse(s: string) returns (r: Parsed)
    ensures r == ParsedPath(s)
  {
    hide SegAt, Fault;
    if s == "" {
      return Err(ParseError(0, "empty path"));
    }
    var segs: seq<PathSeg> := [];
    var i := 0;
    OntoNothing(SegsFrom(s, 0));
    while true
      invariant i <= |s|
      invariant ParsedPath(s) == Onto(segs, SegsFrom(s, i))
      decreases |s| - i
    {
      var read := ReadSegment(s, i);
      if read.Err? {
        return Err(read.error);
      }
      var (seg, j) := read.value;
      ghost var before, here := segs, SegsFrom(s, i);
      segs := segs + [seg];
      if j == |s| {
        return Ok(segs);
      } else if s[j] == '.' {
        i := j + 1;
        if i == |s| {
          return Err(Fault(s, i, "trailing dot"));
        }
        if s[i] == '[' {
          return Err(Fault(s, i, "index must not follow a dot"));
        }
      } else if s[j] == '[' {
        i := j;
      } else {
        return Err(Fault(s, j, "expected . or [ after index"));
      }
      assert here == Prepend(seg, SegsFrom(s, i));
      OntoPrepend(before, seg, SegsFrom(s, i));
    }
  }

  ghost function Onto(done: seq<PathSeg>, rest: Parsed): Parsed {
    match rest
    case Ok(segs) => Ok(done + segs)
    case Err(e) => Err(e)
  }

  lemma OntoNothing(rest: Parsed)
    ensures Onto([], rest) == rest
  {
    if rest.Ok? {
      assert [] + rest.value == rest.value;
    }
  }

  lemma OntoPrepend(done: seq<PathSeg>, seg: PathSeg, rest: Parsed)
    ensures Onto(done, Prepend(seg, rest)) == Onto(done + [seg], rest)
  {
    if rest.Ok? {
      assert done + ([seg] + rest.value) == (done + [seg]) + rest.value;
    }
  }

  /** The printer: a dot before every field but the first, brackets round an index. */
  method Print(path: seq<PathSeg>) returns (out: string)
    ensures out == PathText(path)
  {
    hide Decimal.Print;
    out := "";
    ghost var rest := PathText(path);
    for i := 0 to |path|
      invariant rest == if i == 0 then PathText(path) else TailText(path[i..])
      invariant out + rest == PathText(path)
    {
      ghost var piece, before := SegText(path[i], i == 0), out;
      match path[i] {
        case Field(name) =>
          if i > 0 {
            out := out + ".";
          }
          out := out + name;
        case Index(n) =>
          Bracketed(out, Decimal.Print(n));
          out := out + "[" + Decimal.Print(n) + "]";
      }
      assert out == before + piece;
      assert path[i..][1..] == path[i + 1..];
      SplitFront(before, piece, rest, TailText(path[i + 1..]));
      rest := TailText(path[i + 1..]);
    }
    assert out + "" == out;
  }

  lemma Bracketed(before: string, digits: string)
    ensures before + "[" + digits + "]" == before + ("[" + digits + "]")
  {
    assert before + "[" + digits == before + ("[" + digits);
  }

  lemma SplitFront(before: string, piece: string, rest: string, tail: string)
    requires rest == piece + tail
    ensures before + rest == (before + piece) + tail
  {
  }

  lemma DigitsEndIs(s: string, i: nat, j: nat)
    requires i <= j <= |s| && forall k | i <= k < j :: Decimal.IsDigit(s[k])
    requires j < |s| ==> !Decimal.IsDigit(s[j])
    ensures DigitsEnd(s, i) == j
  {
  }

  lemma NameEndIs(s: string, i: nat, j: nat)
    requires i <= j <= |s| && forall k | i <= k < j :: !IsDelimiter(s[k])
    requires j < |s| ==> IsDelimiter(s[j])
    ensures NameEnd(s, i) == j
  {
  }

  lemma ReadsField(s: string, i: nat, j: nat, name: string)
    requires i <= j <= |s| && s[i..j] == name && WellFormedSeg(Field(name))
    requires j == |s| || s[j] == '.' || s[j] == '['
    ensures SegAt(s, i) == Ok((Field(name), j))
  {
    assert forall k | i <= k < j :: s[k] == name[k - i];
    NameEndIs(s, i, j);
  }

  lemma ReadsIndex(s: string, i: nat, j: nat, n: nat)
    requires i + 2 <= j <= |s| && s[i] == '[' && s[i + 1..j - 1] == Decimal.Print(n) && s[j - 1] == ']'
    requires WellFormedSeg(Index(n))
    ensures SegAt(s, i) == Ok((Index(n), j))
  {
    hide Decimal.Print, Decimal.Value;
    var digits := Decimal.Print(n);
    Decimal.PrintThenValue(n);
    assert forall k | i + 1 <= k < j - 1 :: s[k] == digits[k - i - 1];
    DigitsEndIs(s, i + 1, j - 1);
  }

  lemma SliceAt(s: string, i: nat, text: string, rest: string)
    requires i <= |s| && s[i..] == text + rest
    ensures i + |text| <= |s| && s[i..i + |text|] == text && s[i + |text|..] == rest
  {
    assert s[i..][..|text|] == text && s[i..][|text|..] == rest;
  }

  /** A printed segment is read back, whatever delimiter comes next. */
  lemma ReadsSegment(s: string, i: nat, seg: PathSeg, rest: string)
    requires i <= |s| && s[i..] == SegText(seg, true) + rest
    requires WellFormedSeg(seg) && (rest == "" || rest[0] == '.' || rest[0] == '[')
    ensures i + |SegText(seg, true)| <= |s|
    ensures s[i + |SegText(seg, true)|..] == rest
    ensures SegAt(s, i) == Ok((seg, i + |SegText(seg, true)|))
  {
    hide Decimal.Print, SegAt;
    var text := SegText(seg, true);
    SliceAt(s, i, text, rest);
    var j := i + |text|;
    assert j < |s| ==> s[j] == s[j..][0] == rest[0];
    match seg
    case Field(name) =>
      ReadsField(s, i, j, name);
    case Index(n) =>
      var digits := Decimal.Print(n);
      assert s[i] == s[i..j][0] == '[' && s[j - 1] == s[i..j][|text| - 1] == ']';
      assert s[i + 1..j - 1] == s[i..j][1..|text| - 1] == digits;
      ReadsIndex(s, i, j, n);
  }

  lemma TailStart(path: seq<PathSeg>)
    ensures TailText(path) == "" <==> path == []
    ensures path != [] ==> TailText(path)[0] == (if path[0].Field? then '.' else '[')
  {
  }

  lemma {:induction false} ReadsSegments(s: string, i: nat, path: seq<PathSeg>)
    requires WellFormed(path) && i <= |s| && s[i..] == PathText(path)
    ensures SegsFrom(s, i) == Ok(path)
    decreases |path|
  {
    hide SegAt, Decimal.Print, SegText, NextStart;
    var rest := path[1..];
    var tail := TailText(rest);
    TailStart(rest);
    ReadsSegment(s, i, path[0], tail);
    var j := i + |SegText(path[0], true)|;
    assert path == [path[0]] + rest;
    assert |s[j..]| == |tail|;
    if rest == [] {
      assert path == [path[0]];
    } else {
      AfterDot(s, j, rest);
      ReadsSegments(s, j + |Separator(rest[0])|, rest);
    }
  }

  function Separator(seg: PathSeg): string {
    if seg.Field? then "." else ""
  }

  lemma SegTextSeparated(seg: PathSeg)
    ensures SegText(seg, false) == Separator(seg) + SegText(seg, true)
  {
    assert "" + SegText(seg, true) == SegText(seg, true);
  }

  lemma TailIsSeparated(path: seq<PathSeg>)
    requires path != []
    ensures TailText(path) == Separator(path[0]) + PathText(path)
  {
    var sep, text, tail := Separator(path[0]), SegText(path[0], true), TailText(path[1..]);
    SegTextSeparated(path[0]);
    SplitFront(sep, text, text + tail, tail);
  }

  lemma AfterDot(s: string, j: nat, rest: seq<PathSeg>)
    requires WellFormed(rest) && j < |s| && s[j..] == TailText(rest)
    ensures j + |Separator(rest[0])| < |s| && NextStart(s, j) == Ok(j + |Separator(rest[0])|)
    ensures s[j + |Separator(rest[0])|..] == PathText(rest)
  {
    hide SegText, TailText, PathText, Decimal.Print;
    TailIsSeparated(rest);
    PathStart(rest);
    var text, sep := PathText(rest), Separator(rest[0]);
    SliceAt(s, j, sep, text);
    assert s[j + |sep|] == s[j + |sep|..][0] == text[0];
    assert sep != "" ==> s[j] == s[j..j + |sep|][0];
  }

  lemma PathStart(path: seq<PathSeg>)
    requires WellFormed(path)
    ensures PathText(path) != "" && PathText(path)[0] == if path[0].Field? then path[0].name[0] else '['
  {
  }

  /** Every well-formed path survives printing and parsing. */
  lemma ParseOfPrint(path: seq<PathSeg>)
    requires WellFormed(path)
    ensures ParsedPath(PathText(path)) == Ok(path)
  {
    var s := PathText(path);
    assert s[0..] == s;
    Decimal.PrintThenValue(if path[0].Index? then path[0].n else 0);
    ReadsSegments(s, 0, path);
  }

  /** No index is written with a redundant leading zero. */
  predicate PlainIndices(s: string) {
    forall k | 0 <= k && k + 2 < |s| && s[k] == '[' && s[k + 1] == '0' :: s[k + 2] == ']'
  }

  lemma SegmentSpelling(s: string, i: nat)
    requires i <= |s| && SegAt(s, i).Ok?
    ensures WellFormedSeg(SegAt(s, i).value.0)
    ensures PlainIndices(s) ==> s[i..SegAt(s, i).value.1] == SegText(SegAt(s, i).value.0, true)
  {
    var (seg, j) := SegAt(s, i).value;
    if seg.Index? && PlainIndices(s) {
      var digits := s[i + 1..j - 1];
      assert |digits| > 1 ==> Decimal.IsDigit(digits[1]) && digits[1] == s[i + 2] && digits[0] == s[i + 1];
      Decimal.ValueThenPrint(digits);
      BracketSpelling(s, i, j);
    }
  }

  lemma BracketSpelling(s: string, i: nat, j: nat)
    requires i + 2 <= j <= |s| && s[i] == '[' && s[j - 1] == ']'
    ensures s[i..j] == "[" + s[i + 1..j - 1] + "]"
  {
    assert s[i..j] == [s[i]] + s[i + 1..j - 1] + [s[j - 1]];
  }

  lemma OneSegment(seg: PathSeg)
    ensures PathText([seg]) == SegText(seg, true)
  {
  }

  lemma {:induction false} SegmentsSpelling(s: string, i: nat)
    requires i <= |s| && SegsFrom(s, i).Ok?
    ensures WellFormed(SegsFrom(s, i).value)
    ensures i < |s| && (SegsFrom(s, i).value[0].Index? <==> s[i] == '[')
    ensures PlainIndices(s) ==> s[i..] == PathText(SegsFrom(s, i).value)
    decreases |s| - i
  {
    hide SegText, PathText, PlainIndices;
    SegmentSpelling(s, i);
    var (seg, j) := SegAt(s, i).value;
    var path := SegsFrom(s, i).value;
    if j == |s| {
      assert s[i..] == s[i..j];
      OneSegment(seg);
    } else {
      var next := NextStart(s, j).value;
      SegmentsSpelling(s, next);
      var rest := SegsFrom(s, next).value;
      assert path == [seg] + rest;
      if PlainIndices(s) {
        JoinsText(s, i, j, next, path);
      }
    }
  }

  lemma JoinsText(s: string, i: nat, j: nat, next: nat, path: seq<PathSeg>)
    requires i <= j < |s| && NextStart(s, j) == Ok(next) && |path| > 1
    requires s[i..j] == SegText(path[0], true) && s[next..] == PathText(path[1..])
    requires path[1].Index? <==> s[next] == '['
    ensures s[i..] == PathText(path)
  {
    hide SegText, TailText;
    SeparatorAt(s, j, next, path[1]);
    TailIsSeparated(path[1..]);
    assert s[j..] == s[j..next] + s[next..];
    assert s[i..] == s[i..j] + s[j..];
  }

  lemma SeparatorAt(s: string, j: nat, next: nat, seg: PathSeg)
    requires j < |s| && NextStart(s, j) == Ok(next) && (seg.Index? <==> s[next] == '[')
    ensures s[j..next] == Separator(seg)
  {
  }

  lemma SegTextPlain(seg: PathSeg, first: bool, rest: string)
    requires WellFormedSeg(seg) && PlainIndices(rest)
    ensures PlainIndices(SegText(seg, first) + rest)
  {
    var text := SegText(seg, first);
    var s := text + rest;
    assert seg.Field? ==> forall k | 0 <= k < |text| :: text[k] != '[';
    forall k | 0 <= k && k + 2 < |s| && s[k] == '[' && s[k + 1] == '0' ensures s[k + 2] == ']' {
      if k >= |text| {
        assert rest[k - |text|] == '[' && rest[k - |text| + 1] == '0';
      } else if seg.Index? {
        Decimal.PrintThenValue(seg.n);
        assert forall m | 0 <= m < |Decimal.Print(seg.n)| :: text[m + 1] == Decimal.Print(seg.n)[m];
        assert k == 0;
      }
    }
  }

  lemma {:induction false} TailTextPlain(path: seq<PathSeg>)
    requires forall i | 0 <= i < |path| :: WellFormedSeg(path[i])
    ensures PlainIndices(TailText(path))
  {
    if path != [] {
      TailTextPlain(path[1..]);
      SegTextPlain(path[0], false, TailText(path[1..]));
    }
  }

  /**
    The parser accepts only texts of well-formed paths, and printing gives the accepted text back
    exactly when no index in it has a leading zero.
   */
  lemma PrintOfParse(s: string)
    requires ParsedPath(s).Ok?
    ensures WellFormed(ParsedPath(s).value)
    ensures PathText(ParsedPath(s).value) == s <==> PlainIndices(s)
  {
    SegmentsSpelling(s, 0);
    assert s[0..] == s;
    var path := ParsedPath(s).value;
    TailTextPlain(path[1..]);
    SegTextPlain(path[0], true, TailText(path[1..]));
  }
}

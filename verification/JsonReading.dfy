/** JSON text determines its value: nothing else serializes to the same text. */
module JsonReading {
  import opened Json
  import opened JsonText
  import Decimal

  /** What may follow a value: nothing, or what separates and closes values. */
  predicate Delimited(rest: string) {
    rest == "" || rest[0] == ',' || rest[0] == ']' || rest[0] == '}'
  }

  // ---- Strings. ----

  lemma HexDigits(m: nat, n: nat)
    requires m < 16 && n < 16 && HexDigit(m) == HexDigit(n)
    ensures m == n
  {
    var digits := "0123456789abcdef";
    assert forall i, j | 0 <= i < j < 16 :: digits[i] != digits[j];
  }

  /** The escapes of two characters are never one a prefix of the other. */
  lemma EscapeSplits(c: char, x: string, d: char, y: string)
    requires Escaped(c) + x == Escaped(d) + y
    ensures c == d && x == y
  {
    var e, f := Escaped(c), Escaped(d);
    var text := e + x;
    assert e[0] == text[0] == f[0];
    if |e| > 1 && |f| > 1 {
      assert e[1] == text[1] == f[1];
      if |e| == 6 && |f| == 6 {
        assert e[4] == text[4] == f[4] && e[5] == text[5] == f[5];
        HexDigits(c as int / 16, d as int / 16);
        HexDigits(c as int % 16, d as int % 16);
      }
    }
    assert x == text[|e|..] && y == text[|f|..];
  }

  lemma EscapeStarts(c: char)
    ensures Escaped(c) != "" && Escaped(c)[0] != '"'
  {
  }

  lemma {:induction false} TextSplits(s: string, x: string, t: string, y: string)
    requires EscapedText(s) + "\"" + x == EscapedText(t) + "\"" + y
    ensures s == t && x == y
    decreases |s|
  {
    hide Escaped;
    var text := EscapedText(s) + "\"" + x;
    if s == "" || t == "" {
      assert text[0] == '"' by {
        assert s == "" ==> text == "\"" + x;
        assert t == "" ==> text == "\"" + y;
      }
      EmptyText(s, x);
      EmptyText(t, y);
      assert text[1..] == x && text[1..] == y;
    } else {
      var r, u := EscapedText(s[1..]) + "\"" + x, EscapedText(t[1..]) + "\"" + y;
      assert text == Escaped(s[0]) + r;
      assert text == Escaped(t[0]) + u;
      EscapeSplits(s[0], r, t[0], u);
      TextSplits(s[1..], x, t[1..], y);
      assert s == [s[0]] + s[1..] && t == [t[0]] + t[1..];
    }
  }

  lemma EmptyText(s: string, x: string)
    ensures (EscapedText(s) + "\"" + x)[0] == '"' <==> s == ""
  {
    if s != "" {
      EscapeStarts(s[0]);
      assert (EscapedText(s) + "\"" + x)[0] == Escaped(s[0])[0];
    }
  }

  lemma QuotedSplits(s: string, x: string, t: string, y: string)
    requires Quoted(s) + x == Quoted(t) + y
    ensures s == t && x == y
  {
    hide EscapedText;
    OpeningQuote(s, x);
    OpeningQuote(t, y);
    TextSplits(s, x, t, y);
  }

  lemma OpeningQuote(s: string, x: string)
    ensures (Quoted(s) + x)[1..] == EscapedText(s) + "\"" + x
  {
    hide EscapedText;
    assert Quoted(s) + x == "\"" + (EscapedText(s) + "\"" + x);
  }

  // ---- Numbers. ----

  predicate AllNumberChars(s: string) {
    forall i | 0 <= i < |s| :: NumberChar(s[i])
  }

  lemma NumbersSplit(s: string, x: string, t: string, y: string)
    requires AllNumberChars(s) && AllNumberChars(t) && Delimited(x) && Delimited(y) && s + x == t + y
    ensures s == t && x == y
  {
    var text := s + x;
    assert forall i | 0 <= i < |s| :: text[i] == s[i];
    assert forall i | 0 <= i < |t| :: text[i] == t[i];
    assert x != "" ==> text[|s|] == x[0] && !NumberChar(text[|s|]);
    assert y != "" ==> text[|t|] == y[0] && !NumberChar(text[|t|]);
    assert |text| == |s| + |x| == |t| + |y|;
    assert |s| == |t|;
    assert s == text[..|s|] && x == text[|s|..];
  }

  lemma NumberText(n: int)
    ensures Number(n) != "" && AllNumberChars(Number(n)) && '.' !in Number(n) && 'e' !in Number(n)
    ensures Number(n)[0] == '-' || '0' <= Number(n)[0] <= '9'
    ensures Number(n)[0] == '-' <==> n < 0
  {
    hide Decimal.Print, Decimal.Value;
    Decimal.PrintThenValue(if n < 0 then -n else n);
    DigitsAreNumberChars(Decimal.Print(if n < 0 then -n else n));
  }

  lemma DigitsAreNumberChars(digits: string)
    requires Decimal.Canonical(digits)
    ensures AllNumberChars(digits) && '.' !in digits && 'e' !in digits && '0' <= digits[0] <= '9'
  {
    forall i | 0 <= i < |digits| ensures '0' <= digits[i] <= '9' {
      assert Decimal.IsDigit(digits[i]);
    }
  }

  lemma NumberTells(m: int, n: int)
    requires Number(m) == Number(n)
    ensures m == n
  {
    NumberText(m);
    NumberText(n);
    Decimal.PrintThenValue(if m < 0 then -m else m);
    Decimal.PrintThenValue(if n < 0 then -n else n);
    if m < 0 {
      assert Number(m)[1..] == Decimal.Print(-m) && Number(n)[1..] == Decimal.Print(-n);
    }
  }

  // ---- Values. ----

  datatype Kind = Letter | Numeric | Text | List | Record

  /** The kind of value a text starts, by its first character. */
  function KindAt(c: char): Kind {
    if c == '"' then Text
    else if c == '[' then List
    else if c == '{' then Record
    else if NumberChar(c) && c != 'e' && c != 'E' then Numeric
    else Letter
  }

  function KindOf(j: Json): Kind {
    match j
    case JNull => Letter
    case JBool(_) => Letter
    case JNum(_) => Numeric
    case JFloat(_) => Numeric
    case JStr(_) => Text
    case JArr(_) => List
    case JObj(_) => Record
  }

  lemma StartsAsKind(j: Json)
    ensures Serialize(j) != "" && KindAt(Serialize(j)[0]) == KindOf(j)
    ensures Serialize(j)[0] != ']' && Serialize(j)[0] != '}'
  {
    if j.JNum? {
      NumberText(j.n);
    }
  }

  /** A number, whichever way it is held. */
  lemma NumericSplits(a: Json, x: string, b: Json, y: string)
    requires KindOf(a) == Numeric && KindOf(b) == Numeric && Delimited(x) && Delimited(y)
    requires Serialize(a) + x == Serialize(b) + y
    ensures a == b && x == y
  {
    if a.JNum? { NumberText(a.n); }
    if b.JNum? { NumberText(b.n); }
    NumbersSplit(Serialize(a), x, Serialize(b), y);
    if a.JNum? && b.JNum? {
      NumberTells(a.n, b.n);
    }
  }

  lemma LetterSplits(a: Json, x: string, b: Json, y: string)
    requires KindOf(a) == Letter && KindOf(b) == Letter && Serialize(a) + x == Serialize(b) + y
    ensures a == b && x == y
  {
    var text := Serialize(a) + x;
    assert text[0] == Serialize(a)[0] && text[0] == Serialize(b)[0];
    assert x == text[|Serialize(a)|..] && y == text[|Serialize(b)|..];
  }

  lemma StringIsQuoted(s: string)
    ensures Serialize(JStr(s)) == Quoted(s)
  {
  }

  lemma ListStarts(items: seq<Json>, x: string)
    ensures (Serialize(JArr(items)) + x)[1..] == Items(items) + "]" + x
  {
    assert Serialize(JArr(items)) + x == "[" + (Items(items) + "]" + x);
  }

  lemma RecordStarts(fields: Object, x: string)
    ensures (Serialize(JObj(fields)) + x)[1..] == Members(fields, fields.Keys) + "}" + x
  {
    assert Serialize(JObj(fields)) + x == "{" + (Members(fields, fields.Keys) + "}" + x);
  }

  /** Where one value ends and what it is can be told from the text alone. */
  lemma {:induction false} ValueSplits(a: Json, x: string, b: Json, y: string)
    requires Delimited(x) && Delimited(y) && Serialize(a) + x == Serialize(b) + y
    ensures a == b && x == y
    decreases a, 1, 0
  {
    hide Serialize, Quoted, Items, Members, KindAt;
    var text := Serialize(a) + x;
    StartsAsKind(a);
    StartsAsKind(b);
    assert text[0] == Serialize(a)[0] && text[0] == Serialize(b)[0];
    match KindOf(a)
    case Letter => LetterSplits(a, x, b, y);
    case Numeric => NumericSplits(a, x, b, y);
    case Text =>
      StringIsQuoted(a.s);
      StringIsQuoted(b.s);
      QuotedSplits(a.s, x, b.s, y);
    case List =>
      ListStarts(a.items, x);
      ListStarts(b.items, y);
      ItemsSplit(a.items, x, b.items, y);
    case Record =>
      RecordStarts(a.fields, x);
      RecordStarts(b.fields, y);
      MembersSplit(a.fields, a.fields.Keys, x, b.fields, b.fields.Keys, y);
      assert a.fields == b.fields;
  }

  /** The items after the first, with what closes them. */
  function MoreItems(items: seq<Json>, x: string): string {
    if items == [] then "]" + x else "," + Items(items) + "]" + x
  }

  lemma MoreItemsStart(items: seq<Json>, x: string)
    ensures MoreItems(items, x) != "" && (MoreItems(items, x)[0] == ']' <==> items == [])
    ensures MoreItems(items, x)[1..] == if items == [] then x else Items(items) + "]" + x
  {
    if items != [] {
      assert MoreItems(items, x) == "," + (Items(items) + "]" + x);
    }
  }

  lemma ItemsStep(items: seq<Json>, x: string)
    requires items != []
    ensures Items(items) + "]" + x == Serialize(items[0]) + MoreItems(items[1..], x)
    ensures Delimited(MoreItems(items[1..], x))
  {
  }

  lemma {:induction false} ItemsSplit(xs: seq<Json>, x: string, ys: seq<Json>, y: string)
    requires Items(xs) + "]" + x == Items(ys) + "]" + y
    ensures xs == ys && x == y
    decreases xs, 0, 0
  {
    hide Serialize, Items, MoreItems;
    ItemsEnd(xs, x);
    ItemsEnd(ys, y);
    if xs != [] && ys != [] {
      ItemsStep(xs, x);
      ItemsStep(ys, y);
      ValueSplits(xs[0], MoreItems(xs[1..], x), ys[0], MoreItems(ys[1..], y));
      MoreItemsStart(xs[1..], x);
      MoreItemsStart(ys[1..], y);
      if xs[1..] != [] {
        ItemsSplit(xs[1..], x, ys[1..], y);
      }
      assert xs == [xs[0]] + xs[1..] && ys == [ys[0]] + ys[1..];
    }
  }

  lemma ItemsEnd(items: seq<Json>, x: string)
    ensures (Items(items) + "]" + x)[0] == ']' <==> items == []
    ensures items == [] ==> (Items(items) + "]" + x)[1..] == x
  {
    if items != [] {
      StartsAsKind(items[0]);
      ItemsStep(items, x);
    } else {
      assert Items(items) + "]" + x == "]" + x;
    }
  }

  /** The members after the least, with what closes them. */
  function MoreMembers(fields: Object, keys: set<string>, x: string): string
    requires keys <= fields.Keys
  {
    if keys == {} then "}" + x else "," + Members(fields, keys) + "}" + x
  }

  lemma MoreMembersStart(fields: Object, keys: set<string>, x: string)
    requires keys <= fields.Keys
    ensures MoreMembers(fields, keys, x) != "" && (MoreMembers(fields, keys, x)[0] == '}' <==> keys == {})
    ensures MoreMembers(fields, keys, x)[1..] == if keys == {} then x else Members(fields, keys) + "}" + x
  {
    if keys != {} {
      assert MoreMembers(fields, keys, x) == "," + (Members(fields, keys) + "}" + x);
    }
  }

  lemma MembersUnfold(fields: Object, keys: set<string>)
    requires keys <= fields.Keys && keys != {}
    ensures var key := LeastKey(keys);
            Members(fields, keys)
            == Quoted(key) + ":" + Serialize(fields[key])
               + if keys - {key} == {} then "" else "," + Members(fields, keys - {key})
  {
    hide Serialize, Quoted;
    var key := LeastKey(keys);
    assert keys == {key} <==> keys - {key} == {};
  }

  lemma MembersStep(fields: Object, keys: set<string>, x: string)
    requires keys <= fields.Keys && keys != {}
    ensures var key := LeastKey(keys);
            && Members(fields, keys) + "}" + x
               == Quoted(key) + (":" + (Serialize(fields[key]) + MoreMembers(fields, keys - {key}, x)))
            && Delimited(MoreMembers(fields, keys - {key}, x))
  {
    hide Serialize, Quoted, Members;
    var key := LeastKey(keys);
    var more := if keys - {key} == {} then "" else "," + Members(fields, keys - {key});
    MembersUnfold(fields, keys);
    MemberJoins(Quoted(key), Serialize(fields[key]), more, x);
    assert more + "}" + x == MoreMembers(fields, keys - {key}, x);
  }

  lemma MemberJoins(name: string, value: string, more: string, x: string)
    ensures name + ":" + value + more + "}" + x == name + (":" + (value + (more + "}" + x)))
  {
  }

  lemma MembersEnd(fields: Object, keys: set<string>, x: string)
    requires keys <= fields.Keys
    ensures (Members(fields, keys) + "}" + x)[0] == '}' <==> keys == {}
    ensures keys == {} ==> (Members(fields, keys) + "}" + x)[1..] == x
  {
    if keys != {} {
      MembersStep(fields, keys, x);
    } else {
      assert Members(fields, keys) + "}" + x == "}" + x;
    }
  }

  lemma {:induction false} MembersSplit(
    fields: Object, keys: set<string>, x: string, others: Object, theirs: set<string>, y: string)
    requires keys <= fields.Keys && theirs <= others.Keys
    requires Members(fields, keys) + "}" + x == Members(others, theirs) + "}" + y
    ensures keys == theirs && x == y
    ensures forall key | key in keys :: fields[key] == others[key]
    decreases JObj(fields), 0, |keys|
  {
    hide Serialize, Members, Quoted, MoreMembers;
    MembersEnd(fields, keys, x);
    MembersEnd(others, theirs, y);
    if keys != {} && theirs != {} {
      var key, their := LeastKey(keys), LeastKey(theirs);
      var rest, more := MoreMembers(fields, keys - {key}, x), MoreMembers(others, theirs - {their}, y);
      MembersStep(fields, keys, x);
      MembersStep(others, theirs, y);
      QuotedSplits(key, ":" + (Serialize(fields[key]) + rest), their, ":" + (Serialize(others[their]) + more));
      assert (":" + (Serialize(fields[key]) + rest))[1..] == Serialize(fields[key]) + rest;
      assert (":" + (Serialize(others[their]) + more))[1..] == Serialize(others[their]) + more;
      ValueSplits(fields[key], rest, others[their], more);
      MoreMembersStart(fields, keys - {key}, x);
      MoreMembersStart(others, theirs - {their}, y);
      if keys - {key} != {} {
        MembersSplit(fields, keys - {key}, x, others, theirs - {their}, y);
      }
      assert keys == (keys - {key}) + {key} && theirs == (theirs - {their}) + {their};
    }
  }

  /** Two values with the same text are the same value: a line says exactly one thing. */
  lemma SerializeInjective(a: Json, b: Json)
    requires Serialize(a) == Serialize(b)
    ensures a == b
  {
    assert Serialize(a) + "" == Serialize(b) + "";
    ValueSplits(a, "", b, "");
  }
}

/** JSON as `serde_json` writes it: compact, keys in order, control characters escaped. */
module JsonText {
  import opened Wrappers
  import opened Json
  import opened TextOrder
  import Decimal

  predicate IsLeast(key: string, keys: set<string>) {
    key in keys && forall other | other in keys :: Leq(key, other)
  }

  lemma {:induction false} HasLeast(keys: set<string>)
    requires keys != {}
    ensures exists key :: IsLeast(key, keys)
    decreases |keys|
  {
    var one :| one in keys;
    var rest := keys - {one};
    Total(one, one);
    if rest == {} {
      assert keys == {one};
      assert IsLeast(one, keys);
    } else {
      HasLeast(rest);
      var key :| IsLeast(key, rest);
      Total(one, key);
      if Leq(one, key) {
        forall other | other in keys ensures Leq(one, other) {
          if other != one {
            Transitive(one, key, other);
          }
        }
        assert IsLeast(one, keys);
      } else {
        assert IsLeast(key, keys);
      }
    }
  }

  lemma LeastUnique(keys: set<string>)
    ensures forall a, b | IsLeast(a, keys) && IsLeast(b, keys) :: a == b
  {
    forall a, b | IsLeast(a, keys) && IsLeast(b, keys) ensures a == b {
      Antisymmetric(a, b);
    }
  }

  function LeastKey(keys: set<string>): (key: string)
    requires keys != {}
    ensures IsLeast(key, keys)
  {
    HasLeast(keys);
    LeastUnique(keys);
    var key :| IsLeast(key, keys);
    key
  }

  function HexDigit(n: nat): char
    requires n < 16
  {
    "0123456789abcdef"[n]
  }

  function Escaped(c: char): string {
    if c == '"' then ['\\', '"']
    else if c == '\\' then ['\\', '\\']
    else if c == '\n' then ['\\', 'n']
    else if c == '\r' then ['\\', 'r']
    else if c == '\t' then ['\\', 't']
    else if c as int == 8 then ['\\', 'b']
    else if c as int == 12 then ['\\', 'f']
    else if c as int < 32 then ['\\', 'u', '0', '0', HexDigit(c as int / 16), HexDigit(c as int % 16)]
    else [c]
  }

  /** One character of a JSON string, read as section 7 of RFC 8259 says: itself, a short escape, or four hex digits. */
  function ReadCharacter(text: string): Option<char> {
    if |text| == 1 then (if text[0] == '"' || text[0] == '\\' || text[0] as int < 32 then None else Some(text[0]))
    else if |text| == 2 && text[0] == '\\' then
      match text[1]
      case '"' => Some('"')
      case '\\' => Some('\\')
      case 'b' => Some(8 as char)
      case 't' => Some(9 as char)
      case 'n' => Some(10 as char)
      case 'f' => Some(12 as char)
      case 'r' => Some(13 as char)
      case _ => None
    else if |text| == 6 && text[..4] == "\\u00" && ReadHex(text[4]).Some? && ReadHex(text[5]).Some? then
      Some((16 * ReadHex(text[4]).value + ReadHex(text[5]).value) as char)
    else None
  }

  function ReadHex(c: char): (n: Option<nat>)
    ensures n.Some? ==> n.value < 16
  {
    if '0' <= c <= '9' then Some(c as int - '0' as int)
    else if 'a' <= c <= 'f' then Some(c as int - 'a' as int + 10)
    else None
  }

  lemma HexReads(n: nat)
    requires n < 16
    ensures ReadHex(HexDigit(n)) == Some(n)
  {
  }

  /** Every character of a string is written so that a JSON reader reads it back, in the shortest way there is. */
  lemma EscapedReads(c: char)
    ensures ReadCharacter(Escaped(c)) == Some(c)
    ensures |Escaped(c)| == if c as int in {8, 9, 10, 12, 13, 34, 92} then 2 else if c as int < 32 then 6 else 1
  {
    if c as int < 32 {
      HexReads(c as int / 16);
      HexReads(c as int % 16);
    }
  }

  function EscapedText(s: string): string {
    if s == "" then "" else Escaped(s[0]) + EscapedText(s[1..])
  }

  function Quoted(s: string): string {
    "\"" + EscapedText(s) + "\""
  }

  function Number(n: int): string {
    if n < 0 then "-" + Decimal.Print(-n) else Decimal.Print(n)
  }

  function Serialize(j: Json): string
    decreases j, 1, 0
  {
    match j
    case JNull => "null"
    case JBool(b) => if b then "true" else "false"
    case JNum(n) => Number(n)
    case JFloat(text) => text
    case JStr(s) => Quoted(s)
    case JArr(items) => "[" + Items(items) + "]"
    case JObj(fields) => "{" + Members(fields, fields.Keys) + "}"
  }

  function Items(items: seq<Json>): string
    decreases items, 0, 0
  {
    if items == [] then ""
    else if |items| == 1 then Serialize(items[0])
    else Serialize(items[0]) + "," + Items(items[1..])
  }

  function Members(fields: Object, keys: set<string>): string
    requires keys <= fields.Keys
    decreases JObj(fields), 0, |keys|
  {
    if keys == {} then ""
    else
      var key := LeastKey(keys);
      var member := Quoted(key) + ":" + Serialize(fields[key]);
      if keys == {key} then member else member + "," + Members(fields, keys - {key})
  }

  /** The scalars as sections 3 and 6 of RFC 8259 write them: three literal names, and whole numbers with an optional minus. */
  lemma ScalarForms(n: int, s: string)
    ensures Serialize(JNull) == "null" && Serialize(JBool(true)) == "true" && Serialize(JBool(false)) == "false"
    ensures n >= 0 ==> Decimal.Canonical(Serialize(JNum(n))) && Decimal.Value(Serialize(JNum(n))) == n
    ensures n < 0 ==>
              var text := Serialize(JNum(n));
              |text| > 1 && text[0] == '-' && Decimal.Canonical(text[1..]) && Decimal.Value(text[1..]) == -n
    ensures var text := Serialize(JStr(s));
            |text| >= 2 && text[0] == '"' && text[|text| - 1] == '"' && text[1..|text| - 1] == EscapedText(s)
  {
    hide Decimal.Print, Decimal.Value, EscapedText;
    Decimal.PrintThenValue(if n < 0 then -n else n);
    if n < 0 {
      assert Number(n)[1..] == Decimal.Print(-n);
    }
  }

  predicate OneLine(s: string) {
    forall i | 0 <= i < |s| :: s[i] != '\n'
  }

  lemma OneLineConcat(a: string, b: string)
    requires OneLine(a) && OneLine(b)
    ensures OneLine(a + b)
  {
  }

  lemma {:induction false} EscapedOneLine(s: string)
    ensures OneLine(EscapedText(s))
  {
    if s != "" {
      EscapedOneLine(s[1..]);
      EscapedCharOneLine(s[0]);
      OneLineConcat(Escaped(s[0]), EscapedText(s[1..]));
    }
  }

  lemma EscapedCharOneLine(c: char)
    ensures OneLine(Escaped(c))
  {
  }

  lemma QuotedOneLine(s: string)
    ensures OneLine(Quoted(s))
  {
    EscapedOneLine(s);
  }

  /** No JSON text holds a line break, whatever its strings and keys hold. */
  lemma {:induction false} SerializeOneLine(j: Json)
    ensures OneLine(Serialize(j))
    decreases j, 1, 0
  {
    hide Items, Members, Quoted, Number, IsFloatText;
    match j
    case JNull =>
    case JBool(_) =>
    case JNum(n) => NumberOneLine(n);
    case JFloat(text) => FloatOneLine(text);
    case JStr(s) => QuotedOneLine(s);
    case JArr(items) => ItemsOneLine(items);
    case JObj(fields) => MembersOneLine(fields, fields.Keys);
  }

  lemma NumberOneLine(n: int)
    ensures OneLine(Number(n))
  {
    hide Decimal.Print, Decimal.Value;
    Decimal.PrintThenValue(if n < 0 then -n else n);
  }

  lemma FloatOneLine(text: FloatText)
    ensures OneLine(text)
  {
    assert forall i | 0 <= i < |text| :: NumberChar(text[i]);
  }

  lemma {:induction false} ItemsOneLine(items: seq<Json>)
    ensures OneLine(Items(items))
    decreases items, 0, 0
  {
    if items != [] {
      SerializeOneLine(items[0]);
      ItemsOneLine(items[1..]);
    }
  }

  lemma {:induction false} MembersOneLine(fields: Object, keys: set<string>)
    requires keys <= fields.Keys
    ensures OneLine(Members(fields, keys))
    decreases JObj(fields), 0, |keys|
  {
    if keys != {} {
      var key := LeastKey(keys);
      QuotedOneLine(key);
      SerializeOneLine(fields[key]);
      OneLineConcat(Quoted(key) + ":", Serialize(fields[key]));
      MembersOneLine(fields, keys - {key});
    }
  }
}

/** UTF-8: the bytes of characters and texts. */
module Utf8 {

  type Byte = b: int | 0 <= b < 256

  /** The UTF-8 form of one character. */
  function CharBytes(c: char): (bytes: seq<Byte>)
    ensures 1 <= |bytes| <= 4
    ensures |bytes| == 1 <==> c as int < 0x80
    ensures forall i | 0 <= i < |bytes| && |bytes| > 1 :: bytes[i] >= 0x80
  {
    var p := c as int;
    if p < 0x80 then [p]
    else if p < 0x800 then [0xC0 + p / 64, 0x80 + p % 64]
    else if p < 0x1_0000 then [0xE0 + p / 4096, 0x80 + p / 64 % 64, 0x80 + p % 64]
    else [0xF0 + p / 26_2144, 0x80 + p / 4096 % 64, 0x80 + p / 64 % 64, 0x80 + p % 64]
  }

  function Text(s: string): seq<Byte> {
    if s == "" then [] else CharBytes(s[0]) + Text(s[1..])
  }

  /** The character and length a UTF-8 lead sequence denotes. */
  function FirstCode(bytes: seq<Byte>): (int, nat)
    requires bytes != [] && |bytes| >= LeadLength(bytes[0])
  {
    var b := bytes[0];
    if b < 0x80 then (b, 1)
    else if b < 0xE0 then ((b - 0xC0) * 64 + (bytes[1] - 0x80), 2)
    else if b < 0xF0 then ((b - 0xE0) * 4096 + (bytes[1] - 0x80) * 64 + (bytes[2] - 0x80), 3)
    else ((b - 0xF0) * 26_2144 + (bytes[1] - 0x80) * 4096 + (bytes[2] - 0x80) * 64 + (bytes[3] - 0x80), 4)
  }

  function LeadLength(b: Byte): nat {
    if b < 0x80 then 1 else if b < 0xE0 then 2 else if b < 0xF0 then 3 else 4
  }

  lemma ReadsChar(c: char, rest: seq<Byte>)
    ensures LeadLength(CharBytes(c)[0]) == |CharBytes(c)|
    ensures FirstCode(CharBytes(c) + rest) == (c as int, |CharBytes(c)|)
  {
    var p := c as int;
    assert p < 0x11_0000;
    assert p / 64 / 64 == p / 4096 && p / 4096 / 64 == p / 26_2144;
  }

  lemma {:induction false} TextInjective(s: string, t: string)
    requires Text(s) == Text(t)
    ensures s == t
  {
    if s != "" && t != "" {
      ReadsChar(s[0], Text(s[1..]));
      ReadsChar(t[0], Text(t[1..]));
      assert s[0] == t[0];
      assert Text(s)[|CharBytes(s[0])|..] == Text(s[1..]);
      assert Text(t)[|CharBytes(t[0])|..] == Text(t[1..]);
      TextInjective(s[1..], t[1..]);
    }
  }

  // ---- Reading bytes that may not be UTF-8. ----

  /** The length of the sequence a byte starts, or zero if it starts none. */
  function Wanted(lead: Byte): nat {
    if lead < 0x80 then 1
    else if lead < 0xC2 then 0
    else if lead < 0xE0 then 2
    else if lead < 0xF0 then 3
    else if lead < 0xF5 then 4
    else 0
  }

  /** The second byte of a sequence: no overlong forms, no surrogates, nothing past the last character. */
  predicate SecondFits(lead: Byte, second: Byte) {
    && (if lead == 0xE0 then 0xA0 else if lead == 0xF0 then 0x90 else 0x80) <= second
    && second < (if lead == 0xED then 0xA0 else if lead == 0xF4 then 0x90 else 0xC0)
  }

  predicate Continues(bytes: seq<Byte>, k: nat) {
    k < |bytes| && 0x80 <= bytes[k] < 0xC0
  }

  /** How many bytes go together at the start: a whole sequence, or as much of one as there is. */
  function Together(bytes: seq<Byte>): (n: nat)
    requires bytes != []
    ensures 1 <= n <= |bytes|
  {
    var wanted := Wanted(bytes[0]);
    if wanted < 2 || |bytes| < 2 || !SecondFits(bytes[0], bytes[1]) then 1
    else if wanted == 2 || !Continues(bytes, 2) then 2
    else if wanted == 3 || !Continues(bytes, 3) then 3
    else 4
  }

  lemma CodeIsChar(bytes: seq<Byte>)
    requires bytes != [] && Together(bytes) == Wanted(bytes[0])
    ensures |bytes| >= LeadLength(bytes[0])
    ensures 0 <= FirstCode(bytes).0 < 0xD800 || 0xE000 <= FirstCode(bytes).0 < 0x11_0000
  {
  }

  /** `String::from_utf8_lossy`: each stretch that is no character becomes one replacement character. */
  function Lossy(bytes: seq<Byte>): string
    decreases |bytes|
  {
    if bytes == [] then ""
    else
      var n := Together(bytes);
      if n == Wanted(bytes[0]) then
        CodeIsChar(bytes);
        [FirstCode(bytes).0 as char] + Lossy(bytes[n..])
      else ['\U{FFFD}'] + Lossy(bytes[n..])
  }

  lemma CharsGoTogether(c: char, rest: seq<Byte>)
    ensures var bytes := CharBytes(c) + rest;
            Together(bytes) == Wanted(bytes[0]) == |CharBytes(c)|
  {
    var p := c as int;
    assert p < 0xD800 || 0xE000 <= p < 0x11_0000;
  }

  /** Nothing is lost of a text's own bytes. */
  lemma {:induction false} LossyOfText(s: string)
    ensures Lossy(Text(s)) == s
    decreases |s|
  {
    if s != "" {
      var bytes, rest := Text(s), Text(s[1..]);
      CharsGoTogether(s[0], rest);
      ReadsChar(s[0], rest);
      LossyOfText(s[1..]);
      assert bytes[|CharBytes(s[0])|..] == rest;
      assert s == [s[0]] + s[1..];
    }
  }
}

/**
  Percent-encoding of one URL path segment (`encode_segment`) and the lenient decoder that
  reads connection URLs (`percent_decode`). See sections 2.1 and 2.3 of RFC 3986.
 */
module PercentCoding {
  import opened Utf8
  import opened Wrappers

  predicate IsUnreserved(c: char) {
    'a' <= c <= 'z' || 'A' <= c <= 'Z' || '0' <= c <= '9' || c in "-_.~"
  }

  function HexDigit(n: nat): char
    requires n < 16
  {
    "0123456789ABCDEF"[n]
  }

  function HexValue(b: Byte): Option<nat> {
    if '0' as int <= b <= '9' as int then Some(b - '0' as int)
    else if 'a' as int <= b <= 'f' as int then Some(b - 'a' as int + 10)
    else if 'A' as int <= b <= 'F' as int then Some(b - 'A' as int + 10)
    else None
  }

  /** Hex digits of either case, and nothing else. */
  lemma HexValueExactly(b: Byte, n: nat)
    requires n < 16
    ensures HexValue(b) == Some(n) <==> b == "0123456789abcdef"[n] as int || b == "0123456789ABCDEF"[n] as int
    ensures HexValue(b).Some? ==> HexValue(b).value < 16
  {
  }

  function Triple(b: Byte): string {
    ['%', HexDigit(b / 16), HexDigit(b % 16)]
  }

  function Triples(bytes: seq<Byte>): string {
    if bytes == [] then "" else Triple(bytes[0]) + Triples(bytes[1..])
  }

  function EncodedChar(c: char): string {
    if IsUnreserved(c) then [c] else Triples(CharBytes(c))
  }

  function Encoded(s: string): string {
    if s == "" then "" else EncodedChar(s[0]) + Encoded(s[1..])
  }

  /** `u8::from_str_radix(pair, 16)`: two hex digits, or a plus sign and one hex digit. */
  function PairValue(a: Byte, b: Byte): Option<Byte> {
    match HexValue(b)
    case None => None
    case Some(low) =>
      if a == '+' as int then Some(low)
      else
        match HexValue(a)
        case None => None
        case Some(high) => if high < 16 && low < 16 then Some(16 * high + low) else None
  }

  function Decoded(bytes: seq<Byte>): seq<Byte> {
    if bytes == [] then []
    else if bytes[0] == '%' as int && |bytes| > 2 && PairValue(bytes[1], bytes[2]).Some? then
      [PairValue(bytes[1], bytes[2]).value] + Decoded(bytes[3..])
    else [bytes[0]] + Decoded(bytes[1..])
  }

  /** Pushes one `%XX` per UTF-8 byte of a character that may not stand for itself. */
  method PushEscaped(before: string, ch: char) returns (out: string)
    ensures out == before + Triples(CharBytes(ch))
  {
    out := before;
    var bytes := CharBytes(ch);
    for k := 0 to |bytes|
      invariant out + Triples(bytes[k..]) == before + Triples(bytes)
    {
      assert bytes[k..][1..] == bytes[k + 1..];
      Reassociate(out, Triple(bytes[k]), Triples(bytes[k + 1..]));
      out := out + ['%', HexDigit(bytes[k] / 16), HexDigit(bytes[k] % 16)];
    }
    assert out + "" == out;
  }

  method EncodeSegment(segment: string) returns (out: string)
    ensures out == Encoded(segment)
  {
    out := "";
    for i := 0 to |segment|
      invariant out + Encoded(segment[i..]) == Encoded(segment)
    {
      ghost var before := out;
      var ch := segment[i];
      if IsUnreserved(ch) {
        out := out + [ch];
      } else {
        out := PushEscaped(out, ch);
      }
      assert segment[i..][1..] == segment[i + 1..];
      Reassociate(before, EncodedChar(ch), Encoded(segment[i + 1..]));
    }
    assert out + "" == out;
  }

  lemma Reassociate<T>(a: seq<T>, b: seq<T>, c: seq<T>)
    ensures a + (b + c) == (a + b) + c
  {
  }

  /** `percent_decode`: the bytes of the text, triples replaced, read as UTF-8 as far as they are. */
  function DecodedText(s: string): string {
    Lossy(Decoded(Text(s)))
  }

  method PercentDecode(s: string) returns (text: string)
    ensures text == DecodedText(s)
  {
    hide Lossy, Text;
    var bytes := Text(s);
    var out: seq<Byte> := [];
    var i := 0;
    while i < |bytes|
      invariant i <= |bytes| && out + Decoded(bytes[i..]) == Decoded(bytes)
    {
      ghost var rest := bytes[i..];
      if bytes[i] == '%' as int && i + 2 < |bytes| {
        var pair := PairValue(bytes[i + 1], bytes[i + 2]);
        if pair.Some? {
          assert rest[3..] == bytes[i + 3..];
          Reassociate(out, [pair.value], Decoded(bytes[i + 3..]));
          out := out + [pair.value];
          i := i + 3;
          continue;
        }
      }
      assert rest[1..] == bytes[i + 1..];
      Reassociate(out, [bytes[i]], Decoded(bytes[i + 1..]));
      out := out + [bytes[i]];
      i := i + 1;
    }
    assert bytes[i..] == [] && out + [] == out;
    text := Lossy(out);
  }

  /** ASCII text as bytes. */
  function Ascii(s: string): seq<Byte>
    requires forall i | 0 <= i < |s| :: s[i] as int < 0x80
  {
    seq(|s|, i requires 0 <= i < |s| => s[i] as int)
  }

  /** Unreserved characters and `%XX` triples with upper-case hex digits, nothing else. */
  predicate SegmentText(t: string) {
    t == "" ||
    (IsUnreserved(t[0]) && SegmentText(t[1..])) ||
    (|t| > 2 && t[0] == '%' && IsHex(t[1]) && IsHex(t[2]) && SegmentText(t[3..]))
  }

  predicate IsHex(c: char) {
    '0' <= c <= '9' || 'A' <= c <= 'F'
  }

  lemma {:induction false} TriplesText(bytes: seq<Byte>, rest: string)
    requires SegmentText(rest)
    ensures SegmentText(Triples(bytes) + rest)
  {
    if bytes == [] {
      assert Triples(bytes) + rest == rest;
    } else {
      TriplesText(bytes[1..], rest);
      Reassociate(Triple(bytes[0]), Triples(bytes[1..]), rest);
      TripleText(bytes[0], Triples(bytes[1..]) + rest);
    }
  }

  lemma TripleText(b: Byte, rest: string)
    requires SegmentText(rest)
    ensures SegmentText(Triple(b) + rest)
  {
    HexRoundTrip(b / 16);
    HexRoundTrip(b % 16);
    var t := Triple(b) + rest;
    assert t[3..] == rest;
  }

  lemma {:induction false} SegmentTextIsAscii(t: string)
    requires SegmentText(t)
    ensures forall i | 0 <= i < |t| :: IsUnreserved(t[i]) || t[i] == '%'
  {
    if t != "" {
      var n := if IsUnreserved(t[0]) then 1 else 3;
      SegmentTextIsAscii(t[n..]);
      forall i | n <= i < |t| ensures IsUnreserved(t[i]) || t[i] == '%' {
        assert t[i] == t[n..][i - n];
      }
    }
  }

  /** The output alphabet: nothing that could end a path segment or start a query. */
  lemma {:induction false} EncodedIsSegmentText(s: string)
    ensures SegmentText(Encoded(s))
    ensures forall i | 0 <= i < |Encoded(s)| :: IsUnreserved(Encoded(s)[i]) || Encoded(s)[i] == '%'
  {
    if s != "" {
      EncodedIsSegmentText(s[1..]);
      var rest := Encoded(s[1..]);
      if IsUnreserved(s[0]) {
        assert (EncodedChar(s[0]) + rest)[1..] == rest;
      } else {
        TriplesText(CharBytes(s[0]), rest);
      }
    }
    SegmentTextIsAscii(Encoded(s));
  }

  /** Letters, digits and the four marks of section 2.3 of RFC 3986 stay themselves, and nothing else does. */
  lemma UnreservedStays(c: char)
    ensures Encoded([c]) == [c] <==>
              || 'a' <= c <= 'z' || 'A' <= c <= 'Z' || '0' <= c <= '9'
              || c == '-' || c == '_' || c == '.' || c == '~'
  {
    assert [c][1..] == "";
    if !IsUnreserved(c) {
      assert CharBytes(c) != [];
      assert |Encoded([c])| >= 3;
    }
  }

  lemma DecodesTriple(b: Byte, tail: string)
    requires AsciiText(tail)
    ensures AsciiText(Triple(b) + tail)
    ensures Decoded(Ascii(Triple(b) + tail)) == [b] + Decoded(Ascii(tail))
  {
    HexRoundTrip(b / 16);
    HexRoundTrip(b % 16);
    var t := Ascii(Triple(b) + tail);
    assert t[3..] == Ascii(tail);
  }

  lemma HexRoundTrip(n: nat)
    requires n < 16
    ensures HexDigit(n) as int < 0x80 && HexValue(HexDigit(n) as int) == Some(n)
    ensures IsHex(HexDigit(n))
  {
  }

  lemma {:induction false} TriplesAscii(bytes: seq<Byte>)
    ensures AsciiText(Triples(bytes))
  {
    if bytes != [] {
      TriplesAscii(bytes[1..]);
      HexRoundTrip(bytes[0] / 16);
      HexRoundTrip(bytes[0] % 16);
    }
  }

  lemma {:induction false} DecodesTriples(bytes: seq<Byte>, rest: string)
    requires AsciiText(rest) && AsciiText(Triples(bytes))
    ensures Decoded(Ascii(Triples(bytes) + rest)) == bytes + Decoded(Ascii(rest))
  {
    hide Decoded, Ascii, Triple;
    if bytes == [] {
      assert Triples(bytes) + rest == rest;
    } else {
      TriplesAscii(bytes[1..]);
      DecodesTriples(bytes[1..], rest);
      var tail := Triples(bytes[1..]) + rest;
      Reassociate(Triple(bytes[0]), Triples(bytes[1..]), rest);
      DecodesTriple(bytes[0], tail);
      Reassociate([bytes[0]], bytes[1..], Decoded(Ascii(rest)));
    }
  }

  predicate AsciiText(s: string) {
    forall i | 0 <= i < |s| :: s[i] as int < 0x80
  }

  /** Decoding the bytes of an encoded segment gives the UTF-8 bytes of the original text. */
  lemma {:induction false} BytesOfEncode(s: string)
    ensures AsciiText(Encoded(s))
    ensures Decoded(Ascii(Encoded(s))) == Text(s)
  {
    hide Decoded, Ascii, CharBytes, Triples;
    EncodedIsSegmentText(s);
    if s == "" {
      NothingDecoded();
    } else {
      BytesOfEncode(s[1..]);
      var rest := Encoded(s[1..]);
      if IsUnreserved(s[0]) {
        UnreservedDecodes(s[0], rest);
      } else {
        TriplesAscii(CharBytes(s[0]));
        DecodesTriples(CharBytes(s[0]), rest);
      }
    }
  }

  lemma NothingDecoded()
    ensures AsciiText("") && Decoded(Ascii("")) == []
  {
  }

  /** An unreserved character stands for itself. */
  lemma UnreservedDecodes(c: char, rest: string)
    requires IsUnreserved(c) && AsciiText(rest)
    ensures AsciiText([c] + rest) && Decoded(Ascii([c] + rest)) == CharBytes(c) + Decoded(Ascii(rest))
  {
    var text := Ascii([c] + rest);
    assert text[1..] == Ascii(rest);
    assert CharBytes(c) == [text[0]];
  }

  lemma {:induction false} TextOfAscii(s: string)
    requires AsciiText(s)
    ensures Text(s) == Ascii(s)
  {
    if s != "" {
      TextOfAscii(s[1..]);
      assert Ascii(s) == [s[0] as int] + Ascii(s[1..]);
    }
  }

  /** Decoding an encoded segment gives back the text, for every text. */
  lemma DecodeOfEncode(s: string)
    ensures DecodedText(Encoded(s)) == s
  {
    BytesOfEncode(s);
    TextOfAscii(Encoded(s));
    LossyOfText(s);
  }

  /** No two identifiers share an encoded form, so an encoded path addresses one document. */
  lemma EncodedInjective(s: string, t: string)
    requires Encoded(s) == Encoded(t)
    ensures s == t
  {
    DecodeOfEncode(s);
    DecodeOfEncode(t);
  }
}

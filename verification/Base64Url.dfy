/** Unpadded canonical base64url (RFC 4648, sections 3.5 and 5) as the gateway computes it. */
module Base64Url {
  import opened Options

  type Byte = x: int | 0 <= x < 256
  type Sextet = x: int | 0 <= x < 64

  /** A to Z, a to z, 0 to 9, `-` and `_`. */
  function Letter(v: Sextet): (c: char)
    ensures c != '='
    ensures Value(c) == Some(v)
  {
    if v < 26 then ('A' as int + v) as char
    else if v < 52 then ('a' as int + v - 26) as char
    else if v < 62 then ('0' as int + v - 52) as char
    else if v == 62 then '-' else '_'
  }

  function Value(c: char): (v: Option<Sextet>) {
    if 'A' <= c <= 'Z' then Some(c as int - 'A' as int)
    else if 'a' <= c <= 'z' then Some(c as int - 'a' as int + 26)
    else if '0' <= c <= '9' then Some(c as int - '0' as int + 52)
    else if c == '-' then Some(62)
    else if c == '_' then Some(63)
    else None
  }

  lemma LetterInvertsValue(c: char)
    requires Value(c).Some?
    ensures Letter(Value(c).value) == c
  {
  }

  // ----- With padding --------------------------------------------------------------

  function Four(a: Byte, b: Byte, c: Byte): string {
    [Letter(a / 4), Letter(a % 4 * 16 + b / 16), Letter(b % 16 * 4 + c / 64), Letter(c % 64)]
  }

  function Three(a: Byte, b: Byte): string {
    [Letter(a / 4), Letter(a % 4 * 16 + b / 16), Letter(b % 16 * 4)]
  }

  function Two(a: Byte): string {
    [Letter(a / 4), Letter(a % 4 * 16)]
  }

  /** `base64.urlsafe_b64encode`. */
  function EncodePadded(bytes: seq<Byte>): string {
    if bytes == [] then ""
    else if |bytes| == 1 then Two(bytes[0]) + "=="
    else if |bytes| == 2 then Three(bytes[0], bytes[1]) + "="
    else Four(bytes[0], bytes[1], bytes[2]) + EncodePadded(bytes[3..])
  }

  function First(v: Sextet, w: Sextet): Byte { v * 4 + w / 16 }

  function Second(w: Sextet, x: Sextet): Byte { w % 16 * 16 + x / 4 }

  function Third(x: Sextet, y: Sextet): Byte { x % 4 * 64 + y }

  lemma BitsOfBytes(v: Sextet, w: Sextet, x: Sextet, y: Sextet)
    ensures First(v, w) / 4 == v && First(v, w) % 4 == w / 16
    ensures Second(w, x) / 16 == w % 16 && Second(w, x) % 16 == x / 4
    ensures Third(x, y) / 64 == x % 4 && Third(x, y) % 64 == y
  {
  }

  lemma SextetsFromBytes(v: Sextet, w: Sextet, x: Sextet, y: Sextet)
    ensures Four(First(v, w), Second(w, x), Third(x, y)) == [Letter(v), Letter(w), Letter(x), Letter(y)]
    ensures x % 4 == 0 ==> Three(First(v, w), Second(w, x)) == [Letter(v), Letter(w), Letter(x)]
    ensures w % 16 == 0 ==> Two(First(v, w)) == [Letter(v), Letter(w)]
  {
    BitsOfBytes(v, w, x, y);
    var a, b, c := First(v, w), Second(w, x), Third(x, y);
    assert a % 4 * 16 + b / 16 == w;
    assert b % 16 * 4 + c / 64 == x;
    assert x % 4 == 0 ==> b % 16 * 4 == x;
    assert w % 16 == 0 ==> a % 4 * 16 == w;
  }

  /** `base64.urlsafe_b64decode` on letters of the alphabet followed by padding. Bits that do
      not fill a byte are dropped; a lone letter in the last group is an error. */
  function DecodePadded(s: string): Option<seq<Byte>> {
    if s == "" then Some([])
    else if |s| < 4 || Value(s[0]).None? || Value(s[1]).None? then None
    else
      var v, w := Value(s[0]).value, Value(s[1]).value;
      if Value(s[2]).None? then
        if s[2..] == "==" then Some([First(v, w)]) else None
      else
        var x := Value(s[2]).value;
        if Value(s[3]).None? then
          if s[3..] == "=" then Some([First(v, w), Second(w, x)]) else None
        else
          var y := Value(s[3]).value;
          var rest := DecodePadded(s[4..]);
          if rest.None? then None
          else Some([First(v, w), Second(w, x), Third(x, y)] + rest.value)
  }

  // ----- The gateway's pair --------------------------------------------------------

  function StripPadding(s: string): string {
    if s != "" && s[|s| - 1] == '=' then StripPadding(s[..|s| - 1]) else s
  }

  /** `_base64url`. */
  function Encode(bytes: seq<Byte>): string {
    StripPadding(EncodePadded(bytes))
  }

  function Padding(length: nat): string {
    seq((4 - length % 4) % 4, _ => '=')
  }

  predicate InAlphabet(s: string) {
    forall i | 0 <= i < |s| :: Value(s[i]).Some?
  }

  /** `_decode_base64url`; `None` is the error. */
  function Decode(s: string): Option<seq<Byte>> {
    if s == "" || !InAlphabet(s) then None
    else
      var decoded := DecodePadded(s + Padding(|s|));
      if decoded.Some? && Encode(decoded.value) == s then decoded else None
  }

  // ----- Round trips ---------------------------------------------------------------

  lemma {:induction false} StripAfter(head: string, tail: string)
    requires head == "" || head[|head| - 1] != '='
    ensures StripPadding(head + tail) == head + StripPadding(tail)
  {
    if tail == "" {
      assert head + tail == head;
    } else if tail[|tail| - 1] == '=' {
      assert (head + tail)[..|head + tail| - 1] == head + tail[..|tail| - 1];
      StripAfter(head, tail[..|tail| - 1]);
    }
  }

  lemma EncodeUnfolds(bytes: seq<Byte>)
    ensures |bytes| == 0 ==> Encode(bytes) == ""
    ensures |bytes| == 1 ==> Encode(bytes) == Two(bytes[0])
    ensures |bytes| == 2 ==> Encode(bytes) == Three(bytes[0], bytes[1])
    ensures |bytes| >= 3 ==> Encode(bytes) == Four(bytes[0], bytes[1], bytes[2]) + Encode(bytes[3..])
  {
    if |bytes| == 1 {
      StripAfter(Two(bytes[0]), "==");
      assert StripPadding("==") == "" by { assert "=="[..1] == "="; assert "="[..0] == ""; }
    } else if |bytes| == 2 {
      StripAfter(Three(bytes[0], bytes[1]), "=");
      assert StripPadding("=") == "" by { assert "="[..0] == ""; }
    } else if |bytes| >= 3 {
      StripAfter(Four(bytes[0], bytes[1], bytes[2]), EncodePadded(bytes[3..]));
    }
  }

  /** Trailing bits beyond the last full byte are zero. */
  predicate CanonicalTail(s: string) {
    && |s| % 4 != 1
    && (|s| % 4 == 2 ==> Value(s[|s| - 1]).Some? && Value(s[|s| - 1]).value % 16 == 0)
    && (|s| % 4 == 3 ==> Value(s[|s| - 1]).Some? && Value(s[|s| - 1]).value % 4 == 0)
  }

  lemma EncodingIsCanonical(bytes: seq<Byte>)
    ensures InAlphabet(Encode(bytes)) && CanonicalTail(Encode(bytes))
    ensures Encode(bytes) == "" <==> bytes == []
    ensures Encode(bytes) + Padding(|Encode(bytes)|) == EncodePadded(bytes)
  {
    EncodingHasLettersOnly(bytes);
    EncodingHasZeroTail(bytes);
    EncodeUnfolds(bytes);
  }

  lemma {:induction false} EncodingHasLettersOnly(bytes: seq<Byte>)
    ensures InAlphabet(Encode(bytes))
  {
    EncodeUnfolds(bytes);
    if |bytes| >= 3 { EncodingHasLettersOnly(bytes[3..]); }
  }

  lemma TailAfterFour(head: string, rest: string)
    requires |head| == 4
    ensures CanonicalTail(rest) ==> CanonicalTail(head + rest)
    ensures head + rest + Padding(|head + rest|) == head + (rest + Padding(|rest|))
  {
    assert |head + rest| % 4 == |rest| % 4;
    assert Padding(|head + rest|) == Padding(|rest|);
    assert head + rest + Padding(|rest|) == head + (rest + Padding(|rest|));
  }

  lemma LastGroupIsCanonical(bytes: seq<Byte>)
    requires |bytes| < 3
    ensures CanonicalTail(Encode(bytes))
    ensures Encode(bytes) + Padding(|Encode(bytes)|) == EncodePadded(bytes)
  {
    EncodeUnfolds(bytes);
    assert Padding(0) == "" && Padding(2) == "==" && Padding(3) == "=";
  }

  lemma {:induction false} EncodingHasZeroTail(bytes: seq<Byte>)
    ensures CanonicalTail(Encode(bytes))
    ensures Encode(bytes) + Padding(|Encode(bytes)|) == EncodePadded(bytes)
  {
    if |bytes| < 3 {
      LastGroupIsCanonical(bytes);
    } else {
      EncodeUnfolds(bytes);
      EncodingHasZeroTail(bytes[3..]);
      TailAfterFour(Four(bytes[0], bytes[1], bytes[2]), Encode(bytes[3..]));
    }
  }

  lemma DecodeFour(v: Sextet, w: Sextet, x: Sextet, y: Sextet, tail: string, bytes: seq<Byte>)
    requires DecodePadded(tail) == Some(bytes)
    ensures DecodePadded([Letter(v), Letter(w), Letter(x), Letter(y)] + tail) ==
            Some([First(v, w), Second(w, x), Third(x, y)] + bytes)
  {
    assert ([Letter(v), Letter(w), Letter(x), Letter(y)] + tail)[4..] == tail;
  }

  lemma DecodeThree(v: Sextet, w: Sextet, x: Sextet)
    ensures DecodePadded([Letter(v), Letter(w), Letter(x)] + "=") == Some([First(v, w), Second(w, x)])
  {
    assert ([Letter(v), Letter(w), Letter(x)] + "=")[3..] == "=";
  }

  lemma DecodeTwo(v: Sextet, w: Sextet)
    ensures DecodePadded([Letter(v), Letter(w)] + "==") == Some([First(v, w)])
  {
    assert ([Letter(v), Letter(w)] + "==")[2..] == "==";
  }

  lemma FromFour(a: Byte, b: Byte, c: Byte) returns (v: Sextet, w: Sextet, x: Sextet, y: Sextet)
    ensures Four(a, b, c) == [Letter(v), Letter(w), Letter(x), Letter(y)]
    ensures First(v, w) == a && Second(w, x) == b && Third(x, y) == c
  {
    v, w, x, y := a / 4, a % 4 * 16 + b / 16, b % 16 * 4 + c / 64, c % 64;
  }

  lemma FromThree(a: Byte, b: Byte) returns (v: Sextet, w: Sextet, x: Sextet)
    ensures Three(a, b) == [Letter(v), Letter(w), Letter(x)]
    ensures First(v, w) == a && Second(w, x) == b
  {
    v, w, x := a / 4, a % 4 * 16 + b / 16, b % 16 * 4;
  }

  lemma FromTwo(a: Byte) returns (v: Sextet, w: Sextet)
    ensures Two(a) == [Letter(v), Letter(w)] && First(v, w) == a
  {
    v, w := a / 4, a % 4 * 16;
  }

  lemma {:induction false} DecodePaddedInverts(bytes: seq<Byte>)
    ensures DecodePadded(EncodePadded(bytes)) == Some(bytes)
  {
    if |bytes| == 1 {
      var v, w := FromTwo(bytes[0]);
      DecodeTwo(v, w);
      assert bytes == [bytes[0]];
    } else if |bytes| == 2 {
      var v, w, x := FromThree(bytes[0], bytes[1]);
      DecodeThree(v, w, x);
      assert bytes == [bytes[0], bytes[1]];
    } else if |bytes| >= 3 {
      var v, w, x, y := FromFour(bytes[0], bytes[1], bytes[2]);
      DecodePaddedInverts(bytes[3..]);
      DecodeFour(v, w, x, y, EncodePadded(bytes[3..]), bytes[3..]);
      assert bytes == [bytes[0], bytes[1], bytes[2]] + bytes[3..];
    }
  }

  /** The decoder accepts exactly the encodings of non-empty byte strings, and gives back the
      bytes that were encoded. */
  lemma DecodeAcceptsExactlyEncodings(s: string, bytes: seq<Byte>)
    ensures Decode(s) == Some(bytes) <==> bytes != [] && s == Encode(bytes)
  {
    EncodingIsCanonical(bytes);
    DecodePaddedInverts(bytes);
  }

  lemma EncodeIsInjective(a: seq<Byte>, b: seq<Byte>)
    requires Encode(a) == Encode(b)
    ensures a == b
  {
    DecodeAcceptsExactlyEncodings(Encode(a), a);
    DecodeAcceptsExactlyEncodings(Encode(b), b);
    EncodingIsCanonical(a);
    EncodingIsCanonical(b);
  }

  /** What the re-encoding test amounts to, on every text: letters of the alphabet only, no
      lone letter at the end, and zero trailing bits. */
  lemma DecodeAcceptsIffCanonical(s: string)
    ensures Decode(s).Some? <==> s != "" && InAlphabet(s) && CanonicalTail(s)
  {
    if Decode(s).Some? {
      EncodingIsCanonical(Decode(s).value);
    }
    if s != "" && InAlphabet(s) && CanonicalTail(s) {
      var bytes := CanonicalIsAnEncoding(s);
      DecodeAcceptsExactlyEncodings(s, bytes);
    }
  }

  lemma ShortCanonical(s: string) returns (bytes: seq<Byte>)
    requires InAlphabet(s) && CanonicalTail(s) && |s| < 4
    ensures Encode(bytes) == s && (s != "" ==> bytes != [])
  {
    if s == "" {
      bytes := [];
    } else {
      var v, w := Value(s[0]).value, Value(s[1]).value;
      LetterInvertsValue(s[0]);
      LetterInvertsValue(s[1]);
      if |s| == 2 {
        bytes := [First(v, w)];
        SextetsFromBytes(v, w, 0, 0);
      } else {
        LetterInvertsValue(s[2]);
        var x := Value(s[2]).value;
        bytes := [First(v, w), Second(w, x)];
        SextetsFromBytes(v, w, x, 0);
      }
    }
    EncodeUnfolds(bytes);
  }

  lemma {:induction false} CanonicalIsAnEncoding(s: string) returns (bytes: seq<Byte>)
    requires InAlphabet(s) && CanonicalTail(s)
    ensures Encode(bytes) == s && (s != "" ==> bytes != [])
    decreases |s|
  {
    if |s| < 4 {
      bytes := ShortCanonical(s);
    } else {
      var v, w, x, y := Value(s[0]).value, Value(s[1]).value, Value(s[2]).value, Value(s[3]).value;
      forall i | 0 <= i < 4 { LetterInvertsValue(s[i]); }
      assert s[..4] == [Letter(v), Letter(w), Letter(x), Letter(y)];
      assert |s[4..]| % 4 == |s| % 4;
      var rest := CanonicalIsAnEncoding(s[4..]);
      bytes := [First(v, w), Second(w, x), Third(x, y)] + rest;
      assert bytes[3..] == rest;
      EncodeUnfolds(bytes);
      SextetsFromBytes(v, w, x, y);
    }
  }

  // ----- The alphabet and the bits -------------------------------------------------

  const UPPER := "ABCDEFGHIJKLMNOPQRSTUVWXYZ"
  const LOWER := "abcdefghijklmnopqrstuvwxyz"
  const DIGITS := "0123456789"

  /** Table 2 of section 5 of RFC 4648. */
  function Alphabet(v: Sextet): char {
    if v < 26 then UPPER[v]
    else if v < 52 then LOWER[v - 26]
    else if v < 62 then DIGITS[v - 52]
    else if v == 62 then '-'
    else '_'
  }

  lemma LetterIsInAlphabet(v: Sextet)
    ensures Letter(v) == Alphabet(v)
  {
    UpperLetters(v);
    LowerLetters(v);
    DigitLetters(v);
  }

  lemma UpperLetters(v: int)
    ensures 0 <= v < 26 ==> UPPER[v] as int == 'A' as int + v
  {
  }

  lemma LowerLetters(v: int)
    ensures 26 <= v < 52 ==> LOWER[v - 26] as int == 'a' as int + v - 26
  {
  }

  lemma DigitLetters(v: int)
    ensures 52 <= v < 62 ==> DIGITS[v - 52] as int == '0' as int + v - 52
  {
  }

  /** Three bytes are one number of 24 bits, written as four digits to the base 64. */
  lemma ThreeBytesAreFourDigits(a: Byte, b: Byte, c: Byte) returns (v: Sextet, w: Sextet, x: Sextet, y: Sextet)
    ensures Encode([a, b, c]) == [Alphabet(v), Alphabet(w), Alphabet(x), Alphabet(y)]
    ensures ((v * 64 + w) * 64 + x) * 64 + y == (a * 256 + b) * 256 + c
  {
    v, w, x, y := FromFour(a, b, c);
    EncodeUnfolds([a, b, c]);
    EncodeUnfolds([]);
    assert [a, b, c][3..] == [];
    LetterIsInAlphabet(v);
    LetterIsInAlphabet(w);
    LetterIsInAlphabet(x);
    LetterIsInAlphabet(y);
    DigitsAreBytes(v, w, x, y, a, b, c);
  }

  lemma DigitsAreBytes(v: Sextet, w: Sextet, x: Sextet, y: Sextet, a: Byte, b: Byte, c: Byte)
    requires First(v, w) == a && Second(w, x) == b && Third(x, y) == c
    ensures ((v * 64 + w) * 64 + x) * 64 + y == (a * 256 + b) * 256 + c
  {
  }

  /** Two bytes, and two zero bits, are three digits; one byte, and four zero bits, are two. */
  lemma LastBytesAreDigits(a: Byte, b: Byte)
    ensures exists v: Sextet, w: Sextet, x: Sextet ::
              && Encode([a, b]) == [Alphabet(v), Alphabet(w), Alphabet(x)]
              && (v * 64 + w) * 64 + x == (a * 256 + b) * 4
    ensures exists v: Sextet, w: Sextet ::
              Encode([a]) == [Alphabet(v), Alphabet(w)] && v * 64 + w == a * 16
  {
    EncodeUnfolds([a, b]);
    EncodeUnfolds([a]);
    var v, w, x, u := a / 4, a % 4 * 16 + b / 16, b % 16 * 4, a % 4 * 16;
    LetterIsInAlphabet(v);
    LetterIsInAlphabet(w);
    LetterIsInAlphabet(x);
    LetterIsInAlphabet(u);
    assert Encode([a, b]) == [Alphabet(v), Alphabet(w), Alphabet(x)] && (v * 64 + w) * 64 + x == (a * 256 + b) * 4;
    assert Encode([a]) == [Alphabet(v), Alphabet(u)] && v * 64 + u == a * 16;
  }

  /** Longer texts are written three bytes at a time. */
  lemma EncodesInThrees(bytes: seq<Byte>)
    requires |bytes| >= 3
    ensures Encode(bytes) == Encode(bytes[..3]) + Encode(bytes[3..])
  {
    EncodeUnfolds(bytes);
    EncodeUnfolds(bytes[..3]);
    EncodeUnfolds([]);
    assert bytes[..3][3..] == [] && bytes[..3] == [bytes[0], bytes[1], bytes[2]];
  }
}

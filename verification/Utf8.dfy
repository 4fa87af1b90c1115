/** Well-formed UTF-8 (section 4 of RFC 3629), over strings whose characters stand for bytes. */
module Utf8 {
  predicate IsTail(c: char) {
    0x80 <= c as int <= 0xBF
  }

  /** The second byte of a sequence of three or four bytes, which depends on the first. */
  predicate FollowsThree(first: int, second: int) {
    || (first == 0xE0 && 0xA0 <= second <= 0xBF)
    || (first == 0xED && 0x80 <= second <= 0x9F)
    || (0xE1 <= first <= 0xEF && first != 0xED && 0x80 <= second <= 0xBF)
  }

  predicate FollowsFour(first: int, second: int) {
    || (first == 0xF0 && 0x90 <= second <= 0xBF)
    || (0xF1 <= first <= 0xF3 && 0x80 <= second <= 0xBF)
    || (first == 0xF4 && 0x80 <= second <= 0x8F)
  }

  /** The number of bytes of the character that the text begins with, zero if it begins with none. */
  function FirstLength(s: string): (n: nat)
    ensures n <= |s|
  {
    if s == [] then 0
    else if s[0] as int < 0x80 then 1
    else if |s| >= 2 && 0xC2 <= s[0] as int <= 0xDF && IsTail(s[1]) then 2
    else if |s| >= 3 && FollowsThree(s[0] as int, s[1] as int) && IsTail(s[2]) then 3
    else if |s| >= 4 && FollowsFour(s[0] as int, s[1] as int) && IsTail(s[2]) && IsTail(s[3]) then 4
    else 0
  }

  predicate ValidUtf8(s: string)
    decreases |s|
  {
    s == [] || (FirstLength(s) > 0 && ValidUtf8(s[FirstLength(s)..]))
  }

  /** What follows valid text decides whether the whole is valid. */
  lemma {:induction false} ValidConcat(a: string, b: string)
    requires ValidUtf8(a)
    ensures ValidUtf8(a + b) <==> ValidUtf8(b)
    decreases |a|
  {
    if a == [] {
      assert a + b == b;
    } else {
      var n := FirstLength(a);
      assert (a + b)[n..] == a[n..] + b;
      ValidConcat(a[n..], b);
    }
  }

  lemma {:induction false} AsciiIsValid(s: string)
    requires forall k | 0 <= k < |s| :: s[k] as int < 0x80
    ensures ValidUtf8(s)
  {
    if s != [] {
      AsciiIsValid(s[1..]);
    }
  }

  // The encoding of characters (section 3 of RFC 3629)

  /** A Unicode scalar value: any code point but the surrogates. */
  predicate IsScalar(n: nat) {
    n <= 0x10FFFF && !(0xD800 <= n <= 0xDFFF)
  }

  function Tail(n: nat): char {
    (0x80 + n % 64) as char
  }

  /** Six bits in every byte but the first, which says how many bytes there are. */
  function EncodeScalar(n: nat): string
    requires IsScalar(n)
  {
    if n < 0x80 then [n as char]
    else if n < 0x800 then [(0xC0 + n / 64) as char, Tail(n)]
    else if n < 0x10000 then [(0xE0 + n / 4096) as char, Tail(n / 64), Tail(n)]
    else [(0xF0 + n / 262144) as char, Tail(n / 4096), Tail(n / 64), Tail(n)]
  }

  ghost predicate IsText(text: seq<nat>) {
    forall k | 0 <= k < |text| :: IsScalar(text[k])
  }

  ghost function Encode(text: seq<nat>): string
    requires IsText(text)
  {
    if text == [] then [] else EncodeScalar(text[0]) + Encode(text[1..])
  }

  /** The number in groups of six bits. */
  lemma SixBits(n: nat)
    ensures n == n / 64 * 64 + n % 64 && n / 4096 == n / 64 / 64 && n / 262144 == n / 64 / 64 / 64
  {
  }

  lemma SecondFitsThree(n: nat)
    requires IsScalar(n) && 0x800 <= n < 0x10000
    ensures FollowsThree(0xE0 + n / 4096, 0x80 + n / 64 % 64)
  {
    SixBits(n);
    SixBits(n / 64);
  }

  lemma SecondFitsFour(n: nat)
    requires IsScalar(n) && 0x10000 <= n
    ensures FollowsFour(0xF0 + n / 262144, 0x80 + n / 4096 % 64)
  {
    SixBits(n);
    SixBits(n / 64);
    SixBits(n / 4096);
  }

  lemma FirstOfEncoded(n: nat, rest: string)
    requires IsScalar(n)
    ensures FirstLength(EncodeScalar(n) + rest) == |EncodeScalar(n)| > 0
  {
    if 0x800 <= n < 0x10000 {
      SecondFitsThree(n);
    } else if 0x10000 <= n {
      SecondFitsFour(n);
    }
    StartsLike(EncodeScalar(n), rest);
  }

  lemma StartsLike(head: string, rest: string)
    requires FirstLength(head) == |head| > 0
    ensures FirstLength(head + rest) == |head|
  {
  }

  function Bits(c: char): nat
    requires IsTail(c)
  {
    c as int - 0x80
  }

  /** The character that valid text begins with. */
  function DecodeFirst(s: string): nat
    requires FirstLength(s) > 0
  {
    var n := s[0] as int;
    match FirstLength(s)
    case 1 => n
    case 2 => (n - 0xC0) * 64 + Bits(s[1])
    case 3 => SecondOfThree(s); (n - 0xE0) * 4096 + Bits(s[1]) * 64 + Bits(s[2])
    case _ => SecondOfFour(s); (n - 0xF0) * 262144 + Bits(s[1]) * 4096 + Bits(s[2]) * 64 + Bits(s[3])
  }

  lemma SecondOfThree(s: string)
    requires FirstLength(s) == 3
    ensures 0xE0 <= s[0] as int <= 0xEF && IsTail(s[1]) && IsTail(s[2])
  {
  }

  lemma SecondOfFour(s: string)
    requires FirstLength(s) > 3
    ensures 0xF0 <= s[0] as int <= 0xF4 && IsTail(s[1]) && IsTail(s[2]) && IsTail(s[3])
  {
  }

  lemma FirstIsEncoded(s: string)
    requires FirstLength(s) > 0
    ensures IsScalar(DecodeFirst(s)) && s[..FirstLength(s)] == EncodeScalar(DecodeFirst(s))
  {
    match FirstLength(s) {
      case 1 =>
      case 2 => assert DecodeFirst(s) == (s[0] as int - 0xC0) * 64 + Bits(s[1]);
      case 3 => ThreeAreEncoded(s);
      case _ => FourAreEncoded(s);
    }
  }

  lemma ThreeAreEncoded(s: string)
    requires FirstLength(s) == 3
    ensures IsScalar(DecodeFirst(s)) && s[..3] == EncodeScalar(DecodeFirst(s))
  {
    SecondOfThree(s);
    var n, m := DecodeFirst(s), (s[0] as int - 0xE0) * 64 + Bits(s[1]);
    assert n == m * 64 + Bits(s[2]);
    SixBits(n);
    SixBits(m);
  }

  lemma FourAreEncoded(s: string)
    requires FirstLength(s) > 3
    ensures IsScalar(DecodeFirst(s)) && s[..FirstLength(s)] == EncodeScalar(DecodeFirst(s))
  {
    SecondOfFour(s);
    var k := (s[0] as int - 0xF0) * 64 + Bits(s[1]);
    var m := k * 64 + Bits(s[2]);
    var n := DecodeFirst(s);
    assert n == m * 64 + Bits(s[3]);
    SixBits(n);
    assert n / 64 == m && m / 64 == k && k / 64 == s[0] as int - 0xF0;
  }

  lemma {:induction false} EncodedIsValid(text: seq<nat>)
    requires IsText(text)
    ensures ValidUtf8(Encode(text))
  {
    if text != [] {
      var head, rest := EncodeScalar(text[0]), Encode(text[1..]);
      FirstOfEncoded(text[0], rest);
      EncodedIsValid(text[1..]);
      assert (head + rest)[|head|..] == rest;
    }
  }

  lemma {:induction false} ValidIsSomeText(s: string) returns (text: seq<nat>)
    requires ValidUtf8(s)
    ensures IsText(text) && Encode(text) == s
    decreases |s|
  {
    text := [];
    if s != [] {
      var n := FirstLength(s);
      FirstIsEncoded(s);
      var rest := ValidIsSomeText(s[n..]);
      text := [DecodeFirst(s)] + rest;
      assert text[1..] == rest && s == s[..n] + s[n..];
    }
  }

  /** Valid are exactly the encodings of text. */
  lemma ValidExactly(s: string)
    ensures ValidUtf8(s) <==> exists text :: IsText(text) && Encode(text) == s
  {
    if ValidUtf8(s) {
      var text := ValidIsSomeText(s);
    }
    forall text | IsText(text) && Encode(text) == s
      ensures ValidUtf8(s)
    {
      EncodedIsValid(text);
    }
  }

  /** No two texts have the same encoding. */
  lemma {:induction false} EncodingIsUnique(a: seq<nat>, b: seq<nat>)
    requires IsText(a) && IsText(b) && Encode(a) == Encode(b)
    ensures a == b
  {
    EncodedStarts(a);
    EncodedStarts(b);
    if a != [] {
      var x, y := EncodeScalar(a[0]), EncodeScalar(b[0]);
      assert x == Encode(a)[..|x|] == y;
      SameScalar(a[0], b[0]);
      assert Encode(a[1..]) == Encode(a)[|x|..] == Encode(b[1..]);
      EncodingIsUnique(a[1..], b[1..]);
      assert a == [a[0]] + a[1..] && b == [b[0]] + b[1..];
    }
  }

  lemma EncodedStarts(text: seq<nat>)
    requires IsText(text)
    ensures Encode(text) == [] <==> text == []
    ensures text != [] ==> FirstLength(Encode(text)) == |EncodeScalar(text[0])|
  {
    if text != [] {
      FirstOfEncoded(text[0], Encode(text[1..]));
    }
  }

  lemma SameScalar(m: nat, n: nat)
    requires IsScalar(m) && IsScalar(n) && EncodeScalar(m) == EncodeScalar(n)
    ensures m == n
  {
    var x, y := EncodeScalar(m), EncodeScalar(n);
    forall k | 0 <= k < |x|
      ensures x[k] as int == y[k] as int
    {
    }
    SixBits(m);
    SixBits(n);
    if m >= 0x80 {
      assert m % 64 == n % 64;
      if m >= 0x800 {
        SixBits(m / 64);
        SixBits(n / 64);
        assert m / 64 % 64 == n / 64 % 64;
      }
    }
  }
}

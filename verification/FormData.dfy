/**
 * Form data: the key/value machine over a shrinking string, its decoding, and the serializer of
 * section 5.2 of the WHATWG URL Standard that it undoes. Strings are byte sequences.
 */
module FormData {
  import opened Wrappers
  import opened Text

  type Byte = b: nat | b < 256

  const AMPERSAND: Byte := 0x26
  const ASTERISK: Byte := 0x2A
  const DASH: Byte := 0x2D
  const DOT: Byte := 0x2E
  const EQUALS: Byte := 0x3D
  const PERCENT: Byte := 0x25
  const PLUS: Byte := 0x2B
  const SPACE: Byte := 0x20
  const UNDERSCORE: Byte := 0x5F

  datatype Pair = Pair(key: seq<Byte>, value: seq<Byte>)
  datatype Error = CantParseKey(rest: seq<Byte>) | CantParseValue(rest: seq<Byte>)

  // Decoding

  predicate IsHex(b: Byte) {
    0x30 <= b <= 0x39 || 0x41 <= b <= 0x46 || 0x61 <= b <= 0x66
  }

  function HexValue(b: Byte): (v: nat)
    requires IsHex(b)
    ensures v < 16
  {
    if b <= 0x39 then b - 0x30 else if b <= 0x46 then b - 0x37 else b - 0x57
  }

  function PlusToSpace(s: seq<Byte>): seq<Byte> {
    if s == [] then [] else [if s[0] == PLUS then SPACE else s[0]] + PlusToSpace(s[1..])
  }

  /** A percent sign followed by two hexadecimal digits stands for a byte; anything else for itself. */
  function PercentDecode(s: seq<Byte>): seq<Byte> {
    if s == [] then []
    else if s[0] == PERCENT && |s| >= 3 && IsHex(s[1]) && IsHex(s[2]) then
      [HexValue(s[1]) * 16 + HexValue(s[2])] + PercentDecode(s[3..])
    else [s[0]] + PercentDecode(s[1..])
  }

  function Decode(s: seq<Byte>): seq<Byte> {
    PercentDecode(PlusToSpace(s))
  }

  // The machine

  /** The next key, None at the end of the input. */
  function NextKeyOf(s: seq<Byte>): Result<Option<seq<Byte>>, Error> {
    if s == [] then Ok(None)
    else
      match SplitOnce(s, EQUALS)
      case Some((key, _)) => Ok(Some(Decode(key)))
      case None => Err(CantParseKey(s))
  }

  function AfterKey(s: seq<Byte>): seq<Byte> {
    match SplitOnce(s, EQUALS)
    case Some((_, rest)) => rest
    case None => s
  }

  function NextValueOf(s: seq<Byte>): Result<seq<Byte>, Error> {
    if s == [] then Err(CantParseValue(s))
    else
      match SplitOnce(s, AMPERSAND)
      case Some((value, _)) => Ok(Decode(value))
      case None => Ok(Decode(s))
  }

  function AfterValue(s: seq<Byte>): seq<Byte> {
    match SplitOnce(s, AMPERSAND)
    case Some((_, rest)) => rest
    case None => []
  }

  /** Every key that is found leaves less input, and so does every value. */
  lemma InputShrinks(s: seq<Byte>)
    ensures NextKeyOf(s).Ok? && NextKeyOf(s).value.Some? ==> |AfterKey(s)| < |s|
    ensures NextValueOf(s).Ok? ==> |AfterValue(s)| < |s|
  {
    SplitOnceSplits(s, EQUALS);
    SplitOnceSplits(s, AMPERSAND);
  }

  class KeyValuePairs {
    var str: seq<Byte>

    constructor (str: seq<Byte>)
      ensures this.str == str
    {
      this.str := str;
    }

    method NextKey() returns (key: Result<Option<seq<Byte>>, Error>)
      modifies this
      ensures key == NextKeyOf(old(str)) && str == AfterKey(old(str))
    {
      if str == [] {
        return Ok(None);
      }
      match SplitOnce(str, EQUALS)
      case Some((raw, rest)) =>
        str := rest;
        key := Ok(Some(Decode(raw)));
      case None =>
        key := Err(CantParseKey(str));
    }

    method NextValue() returns (value: Result<seq<Byte>, Error>)
      modifies this
      ensures value == NextValueOf(old(str)) && str == AfterValue(old(str))
    {
      if str == [] {
        return Err(CantParseValue(str));
      }
      match SplitOnce(str, AMPERSAND)
      case Some((raw, rest)) =>
        str := rest;
        value := Ok(Decode(raw));
      case None =>
        var raw := str;
        str := [];
        value := Ok(Decode(raw));
    }
  }

  /** All pairs of the input, or the first error. */
  function Parse(s: seq<Byte>): Result<seq<Pair>, Error>
    decreases |s|
  {
    InputShrinks(s);
    match NextKeyOf(s)
    case Err(e) => Err(e)
    case Ok(None) => Ok([])
    case Ok(Some(key)) =>
      InputShrinks(AfterKey(s));
      match NextValueOf(AfterKey(s))
      case Err(e) => Err(e)
      case Ok(value) =>
        match Parse(AfterValue(AfterKey(s)))
        case Err(e) => Err(e)
        case Ok(rest) => Ok([Pair(key, value)] + rest)
  }

  /** A visitor that collects every pair drives the machine to the end of the input or to an error. */
  method FromStr(s: seq<Byte>) returns (r: Result<seq<Pair>, Error>)
    ensures r == Parse(s)
  {
    var machine := new KeyValuePairs(s);
    var pairs: seq<Pair> := [];
    assert Parse(s).Ok? ==> pairs + Parse(s).value == Parse(s).value;
    while true
      invariant Parse(s) == Prepend(pairs, Parse(machine.str))
      decreases |machine.str|
    {
      InputShrinks(machine.str);
      InputShrinks(AfterKey(machine.str));
      var key := machine.NextKey();
      if key.Err? {
        return Err(key.error);
      }
      if key.value.None? {
        assert pairs + [] == pairs;
        return Ok(pairs);
      }
      var value := machine.NextValue();
      if value.Err? {
        return Err(value.error);
      }
      ghost var pair := Pair(key.value.value, value.value);
      PrependMore(pairs, pair, Parse(machine.str));
      pairs := pairs + [Pair(key.value.value, value.value)];
    }
  }

  function Prepend(pairs: seq<Pair>, r: Result<seq<Pair>, Error>): Result<seq<Pair>, Error> {
    if r.Err? then r else Ok(pairs + r.value)
  }

  lemma PrependMore(pairs: seq<Pair>, pair: Pair, r: Result<seq<Pair>, Error>)
    ensures Prepend(pairs + [pair], r) == Prepend(pairs, Prepend([pair], r))
  {
    if r.Ok? {
      assert pairs + [pair] + r.value == pairs + ([pair] + r.value);
    }
  }

  // The serializer

  predicate Unreserved(b: Byte) {
    0x30 <= b <= 0x39 || 0x41 <= b <= 0x5A || 0x61 <= b <= 0x7A || b == ASTERISK || b == DASH || b == DOT || b == UNDERSCORE
  }

  function HexDigit(v: nat): Byte
    requires v < 16
  {
    if v < 10 then 0x30 + v else 0x37 + v
  }

  function EncodeByte(b: Byte): seq<Byte> {
    if Unreserved(b) then [b]
    else if b == SPACE then [PLUS]
    else [PERCENT, HexDigit(b / 16), HexDigit(b % 16)]
  }

  function Encode(s: seq<Byte>): seq<Byte> {
    if s == [] then [] else EncodeByte(s[0]) + Encode(s[1..])
  }

  function SerializePair(p: Pair): seq<Byte> {
    Encode(p.key) + [EQUALS] + Encode(p.value)
  }

  function Serialize(pairs: seq<Pair>): seq<Byte> {
    if pairs == [] then []
    else if |pairs| == 1 then SerializePair(pairs[0])
    else SerializePair(pairs[0]) + [AMPERSAND] + Serialize(pairs[1..])
  }

  // The round trip

  lemma {:induction false} PlusToSpaceConcat(a: seq<Byte>, b: seq<Byte>)
    ensures PlusToSpace(a + b) == PlusToSpace(a) + PlusToSpace(b)
  {
    if a == [] {
      assert a + b == b;
    } else {
      assert (a + b)[1..] == a[1..] + b;
      PlusToSpaceConcat(a[1..], b);
    }
  }

  /** An encoded byte decodes to itself whatever follows. */
  lemma DecodeEncodedByte(b: Byte, rest: seq<Byte>)
    ensures PercentDecode(PlusToSpace(EncodeByte(b)) + rest) == [b] + PercentDecode(rest)
  {
    if Unreserved(b) || b == SPACE {
      assert PlusToSpace(EncodeByte(b)) == [b];
      assert ([b] + rest)[1..] == rest;
    } else {
      var high, low := HexDigit(b / 16), HexDigit(b % 16);
      assert PlusToSpace([low]) == [low];
      assert PlusToSpace([high, low]) == [high] + PlusToSpace([high, low][1..]) && [high, low][1..] == [low];
      assert [PERCENT, high, low][1..] == [high, low];
      assert PlusToSpace(EncodeByte(b)) == [PERCENT, high, low];
      var s := [PERCENT, high, low] + rest;
      assert s[0] == PERCENT && s[1] == high && s[2] == low && s[3..] == rest;
      assert HexValue(high) == b / 16 && HexValue(low) == b % 16;
    }
  }

  lemma {:induction false} DecodeEncoded(s: seq<Byte>)
    ensures Decode(Encode(s)) == s
  {
    if s != [] {
      var rest := Encode(s[1..]);
      DecodeEncoded(s[1..]);
      PlusToSpaceConcat(EncodeByte(s[0]), rest);
      DecodeEncodedByte(s[0], PlusToSpace(rest));
      assert Decode(Encode(s)) == [s[0]] + Decode(rest);
    }
  }

  lemma {:induction false} EncodedIsSafe(s: seq<Byte>)
    ensures EQUALS !in Encode(s) && AMPERSAND !in Encode(s)
    ensures Encode(s) == [] <==> s == []
  {
    if s != [] {
      EncodedIsSafe(s[1..]);
      assert EQUALS !in EncodeByte(s[0]) && AMPERSAND !in EncodeByte(s[0]);
    }
  }

  /** The machine reads a serialized pair back, if the value is not empty at the end of the input. */
  lemma ReadPair(p: Pair, tail: seq<Byte>)
    requires tail == [] || tail[0] == AMPERSAND
    ensures var s := SerializePair(p) + tail;
            && NextKeyOf(s) == Ok(Some(p.key))
            && NextValueOf(AfterKey(s)) == (if p.value == [] && tail == [] then Err(CantParseValue([])) else Ok(p.value))
            && AfterValue(AfterKey(s)) == if tail == [] then [] else tail[1..]
  {
    var k, v := Encode(p.key), Encode(p.value);
    EncodedIsSafe(p.key);
    EncodedIsSafe(p.value);
    ReadKey(k, v + tail);
    assert SerializePair(p) + tail == k + [EQUALS] + (v + tail);
    DecodeEncoded(p.key);
    DecodeEncoded(p.value);
    if tail == [] {
      assert v + tail == v;
      NoSplit(v, AMPERSAND);
    } else {
      assert v + tail == v + [AMPERSAND] + tail[1..];
      SplitAtFirst(v, AMPERSAND, tail[1..]);
    }
  }

  lemma ReadKey(k: seq<Byte>, rest: seq<Byte>)
    requires EQUALS !in k
    ensures var s := k + [EQUALS] + rest; NextKeyOf(s) == Ok(Some(Decode(k))) && AfterKey(s) == rest
  {
    SplitAtFirst(k, EQUALS, rest);
  }

  /** What the parser makes of a serialized list: the list, unless its last value is empty. */
  lemma {:induction false} ParseSerialized(pairs: seq<Pair>)
    ensures Parse(Serialize(pairs))
         == if pairs != [] && pairs[|pairs| - 1].value == [] then Err(CantParseValue([])) else Ok(pairs)
  {
    if |pairs| == 1 {
      ParseLast(pairs);
    } else if pairs != [] {
      var rest := pairs[1..];
      ParseSerialized(rest);
      assert rest[|rest| - 1] == pairs[|pairs| - 1];
      assert [pairs[0]] + rest == pairs;
      ParseFirst(pairs);
    }
  }

  lemma ParseLast(pairs: seq<Pair>)
    requires |pairs| == 1
    ensures Parse(Serialize(pairs)) == if pairs[0].value == [] then Err(CantParseValue([])) else Ok(pairs)
  {
    var s := SerializePair(pairs[0]);
    assert s + [] == s;
    ReadPair(pairs[0], []);
    ParseStep(s, pairs[0]);
    assert Parse([]) == Ok([]);
    assert [pairs[0]] + [] == pairs;
  }

  lemma ParseFirst(pairs: seq<Pair>)
    requires |pairs| > 1
    ensures Parse(Serialize(pairs)) == Prepend([pairs[0]], Parse(Serialize(pairs[1..])))
  {
    var tail := [AMPERSAND] + Serialize(pairs[1..]);
    var s := SerializePair(pairs[0]) + tail;
    assert Serialize(pairs) == s;
    ReadPair(pairs[0], tail);
    ParseStep(s, pairs[0]);
    assert tail[1..] == Serialize(pairs[1..]);
  }

  lemma ParseStep(s: seq<Byte>, p: Pair)
    requires NextKeyOf(s) == Ok(Some(p.key))
    ensures NextValueOf(AfterKey(s)).Err? ==> Parse(s) == Err(NextValueOf(AfterKey(s)).error)
    ensures NextValueOf(AfterKey(s)) == Ok(p.value) ==> Parse(s) == Prepend([p], Parse(AfterValue(AfterKey(s))))
  {
  }

  /** The round trip holds exactly for the lists that are empty or end in a non-empty value. */
  lemma RoundTripExactly(pairs: seq<Pair>)
    ensures Parse(Serialize(pairs)) == Ok(pairs) <==> pairs == [] || pairs[|pairs| - 1].value != []
  {
    ParseSerialized(pairs);
  }
}

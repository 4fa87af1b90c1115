/** What the form data machine makes of arbitrary input: percent triplets in either case, pairs, and its errors. */
module FormInputs {
  import opened Wrappers
  import opened Text
  import opened FormData

  // Decoding

  /** The byte is the hexadecimal digit of that value, in lower or upper case. */
  predicate IsDigitOf(b: Byte, v: nat) {
    || (v < 10 && b == '0' as nat + v)
    || (10 <= v < 16 && (b == 'a' as nat + v - 10 || b == 'A' as nat + v - 10))
  }

  lemma HexDigits(b: Byte)
    ensures IsHex(b) <==> exists v :: IsDigitOf(b, v)
    ensures IsHex(b) ==> IsDigitOf(b, HexValue(b))
    ensures forall v | IsDigitOf(b, v) :: IsHex(b) && v == HexValue(b)
  {
    if IsHex(b) {
      assert IsDigitOf(b, HexValue(b));
    }
  }

  /** A percent sign and two hexadecimal digits stand for one byte, in whatever case the digits are. */
  lemma TripletDecodes(high: Byte, low: Byte, v: nat, w: nat, rest: seq<Byte>)
    requires IsDigitOf(high, v) && IsDigitOf(low, w)
    ensures Decode([PERCENT, high, low] + rest) == [16 * v + w] + Decode(rest)
  {
    HexDigits(high);
    HexDigits(low);
    PlusToSpaceConcat([PERCENT, high, low], rest);
    assert [PERCENT, high, low][1..] == [high, low] && [high, low][1..] == [low] && [low][1..] == [];
    assert PlusToSpace([low]) == [low] && PlusToSpace([high, low]) == [high, low];
    assert PlusToSpace([PERCENT, high, low]) == [PERCENT, high, low];
    var s := [PERCENT, high, low] + PlusToSpace(rest);
    assert s[3..] == PlusToSpace(rest);
  }

  /** A plus sign stands for a space, and every other byte that begins no triplet for itself. */
  lemma OtherDecodes(b: Byte, rest: seq<Byte>)
    requires b == PERCENT ==> |rest| < 2 || forall v, w :: !IsDigitOf(rest[0], v) || !IsDigitOf(rest[1], w)
    ensures Decode([b] + rest) == [if b == PLUS then SPACE else b] + Decode(rest)
  {
    var s := PlusToSpace([b] + rest);
    assert ([b] + rest)[1..] == rest;
    assert s[1..] == PlusToSpace(rest);
    PlusKeepsLength(rest);
    if b == PERCENT && |rest| >= 2 {
      HexDigits(rest[0]);
      HexDigits(rest[1]);
      assert PlusToSpace(rest)[0] == rest[0] || rest[0] == PLUS;
      assert PlusToSpace(rest)[1] == PlusToSpace(rest[1..])[0];
    }
  }

  lemma {:induction false} PlusKeepsLength(s: seq<Byte>)
    ensures |PlusToSpace(s)| == |s|
  {
    if s != [] {
      PlusKeepsLength(s[1..]);
    }
  }

  // Pairs and errors

  /** A pair as it stands in the input. */
  datatype Raw = Raw(key: seq<Byte>, value: seq<Byte>)

  predicate IsRaw(r: Raw) {
    EQUALS !in r.key && AMPERSAND !in r.value
  }

  ghost predicate AreRaw(raws: seq<Raw>) {
    forall i | 0 <= i < |raws| :: IsRaw(raws[i])
  }

  /** Pairs that each end in an ampersand. */
  function Join(raws: seq<Raw>): seq<Byte> {
    if raws == [] then [] else raws[0].key + [EQUALS] + raws[0].value + [AMPERSAND] + Join(raws[1..])
  }

  function Decoded(raws: seq<Raw>): seq<Pair> {
    if raws == [] then [] else [Pair(Decode(raws[0].key), Decode(raws[0].value))] + Decoded(raws[1..])
  }

  lemma KeyOfRaw(key: seq<Byte>, rest: seq<Byte>)
    requires EQUALS !in key
    ensures NextKeyOf(key + [EQUALS] + rest) == Ok(Some(Decode(key))) && AfterKey(key + [EQUALS] + rest) == rest
  {
    SplitAtFirst(key, EQUALS, rest);
  }

  lemma ParseOneRaw(r: Raw, rest: seq<Byte>)
    requires IsRaw(r)
    ensures Parse(r.key + [EQUALS] + r.value + [AMPERSAND] + rest)
         == Prepend([Pair(Decode(r.key), Decode(r.value))], Parse(rest))
  {
    var values := r.value + [AMPERSAND] + rest;
    assert r.key + [EQUALS] + r.value + [AMPERSAND] + rest == r.key + [EQUALS] + values;
    KeyOfRaw(r.key, values);
    SplitAtFirst(r.value, AMPERSAND, rest);
    ParseStep(r.key + [EQUALS] + values, Pair(Decode(r.key), Decode(r.value)));
  }

  /** Complete pairs are decoded one by one, whatever follows them. */
  lemma {:induction false} ParsePairs(raws: seq<Raw>, rest: seq<Byte>)
    requires AreRaw(raws)
    ensures Parse(Join(raws) + rest) == Prepend(Decoded(raws), Parse(rest))
  {
    if raws == [] {
      assert [] + rest == rest;
      PrependNone(Parse(rest));
    } else {
      var r := raws[0];
      var one := [Pair(Decode(r.key), Decode(r.value))];
      assert raws == [r] + raws[1..];
      JoinOneMore(r, raws[1..], rest);
      ParseOneRaw(r, Join(raws[1..]) + rest);
      ParsePairs(raws[1..], rest);
      PrependTwice(one, Decoded(raws[1..]), Parse(rest));
      assert Decoded(raws) == one + Decoded(raws[1..]);
    }
  }

  lemma PrependNone(r: Result<seq<Pair>, Error>)
    ensures Prepend([], r) == r
  {
    assert r.Ok? ==> [] + r.value == r.value;
  }

  lemma PrependTwice(a: seq<Pair>, b: seq<Pair>, r: Result<seq<Pair>, Error>)
    ensures Prepend(a, Prepend(b, r)) == Prepend(a + b, r)
  {
    assert r.Ok? ==> a + (b + r.value) == a + b + r.value;
  }

  /** What can follow the last ampersand that ends a pair. */
  datatype End =
    | Nothing
    | LastPair(key: seq<Byte>, value: seq<Byte>)
    | NoValue(key: seq<Byte>)
    | NoEquals(text: seq<Byte>)

  predicate IsEnd(e: End) {
    match e
    case Nothing => true
    case LastPair(key, value) => EQUALS !in key && AMPERSAND !in value && value != []
    case NoValue(key) => EQUALS !in key
    case NoEquals(text) => EQUALS !in text && text != []
  }

  function EndText(e: End): seq<Byte> {
    match e
    case Nothing => []
    case LastPair(key, value) => key + [EQUALS] + value
    case NoValue(key) => key + [EQUALS]
    case NoEquals(text) => text
  }

  /** Every input is complete pairs and one of the four ends. */
  lemma {:induction false} EveryInput(s: seq<Byte>) returns (raws: seq<Raw>, end: End)
    ensures AreRaw(raws) && IsEnd(end) && s == Join(raws) + EndText(end)
    decreases |s|
  {
    raws := [];
    SplitOnceSplits(s, EQUALS);
    match SplitOnce(s, EQUALS)
    case None =>
      end := if s == [] then Nothing else NoEquals(s);
      assert s == [] + EndText(end);
    case Some((key, values)) =>
      SplitOnceSplits(values, AMPERSAND);
      match SplitOnce(values, AMPERSAND) {
        case None =>
          end := if values == [] then NoValue(key) else LastPair(key, values);
          assert s == [] + EndText(end);
        case Some((value, rest)) =>
          var more, e := EveryInput(rest);
          raws, end := [Raw(key, value)] + more, e;
          JoinOneMore(Raw(key, value), more, EndText(e));
          PairAndRest(key, value, rest);
      }
  }

  lemma PairAndRest(key: seq<Byte>, value: seq<Byte>, rest: seq<Byte>)
    ensures key + [EQUALS] + (value + [AMPERSAND] + rest) == key + [EQUALS] + value + [AMPERSAND] + rest
  {
  }

  lemma JoinOneMore(r: Raw, more: seq<Raw>, rest: seq<Byte>)
    ensures Join([r] + more) + rest == r.key + [EQUALS] + r.value + [AMPERSAND] + (Join(more) + rest)
  {
    assert ([r] + more)[1..] == more;
    Associate(r.key + [EQUALS] + r.value + [AMPERSAND], Join(more), rest);
  }

  /** The result on each of the ends: the pairs so far, one more, or the error with the text that is left. */
  lemma ParseEnd(e: End)
    requires IsEnd(e)
    ensures Parse(EndText(e)) == match e
                                 case Nothing => Ok([])
                                 case LastPair(key, value) => Ok([Pair(Decode(key), Decode(value))])
                                 case NoValue(_) => Err(CantParseValue([]))
                                 case NoEquals(text) => Err(CantParseKey(text))
  {
    match e {
      case Nothing =>
      case LastPair(key, value) => ParseLastPair(key, value);
      case NoValue(key) => ParseNoValue(key);
      case NoEquals(text) => NoSplit(text, EQUALS);
    }
  }

  lemma ParseLastPair(key: seq<Byte>, value: seq<Byte>)
    requires EQUALS !in key && AMPERSAND !in value && value != []
    ensures Parse(key + [EQUALS] + value) == Ok([Pair(Decode(key), Decode(value))])
  {
    var s, pair := key + [EQUALS] + value, Pair(Decode(key), Decode(value));
    KeyOfRaw(key, value);
    NoSplit(value, AMPERSAND);
    ParseStep(s, pair);
    assert AfterValue(AfterKey(s)) == [] && Parse([]) == Ok([]);
    assert [pair] + [] == [pair];
  }

  lemma ParseNoValue(key: seq<Byte>)
    requires EQUALS !in key
    ensures Parse(key + [EQUALS]) == Err(CantParseValue([]))
  {
    var s := key + [EQUALS];
    assert s + [] == s;
    KeyOfRaw(key, []);
    assert NextValueOf(AfterKey(s)) == Err(CantParseValue([]));
    ParseStep(s, Pair(Decode(key), []));
  }

  /** The result on every input, by the complete pairs it begins with and its end. */
  lemma ParseExactly(raws: seq<Raw>, end: End)
    requires AreRaw(raws) && IsEnd(end)
    ensures Parse(Join(raws) + EndText(end)) == match end
                                                case Nothing => Ok(Decoded(raws))
                                                case LastPair(key, value) =>
                                                  Ok(Decoded(raws) + [Pair(Decode(key), Decode(value))])
                                                case NoValue(_) => Err(CantParseValue([]))
                                                case NoEquals(text) => Err(CantParseKey(text))
  {
    ParsePairs(raws, EndText(end));
    ParseEnd(end);
    assert Decoded(raws) + [] == Decoded(raws);
  }
}

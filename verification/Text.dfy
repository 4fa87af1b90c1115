/** Splitting sequences at an element, decimal numbers, ASCII case and white space. */
module Text {
  import opened Wrappers

  /** The parts before and after the first occurrence. */
  function SplitOnce<T(==)>(s: seq<T>, at: T): Option<(seq<T>, seq<T>)> {
    if s == [] then None
    else if s[0] == at then Some(([], s[1..]))
    else
      match SplitOnce(s[1..], at)
      case None => None
      case Some((before, after)) => Some(([s[0]] + before, after))
  }

  lemma {:induction false} SplitAtFirst<T>(a: seq<T>, at: T, rest: seq<T>)
    requires at !in a
    ensures SplitOnce(a + [at] + rest, at) == Some((a, rest))
  {
    var s := a + [at] + rest;
    if a == [] {
      assert s == [at] + rest;
    } else {
      assert a[0] in a && s[0] == a[0] && s[1..] == a[1..] + [at] + rest;
      SplitAtFirst(a[1..], at, rest);
      assert [a[0]] + a[1..] == a;
    }
  }

  lemma {:induction false} NoSplit<T>(s: seq<T>, at: T)
    requires at !in s
    ensures SplitOnce(s, at) == None
  {
    if s != [] {
      NoSplit(s[1..], at);
    }
  }

  lemma {:induction false} SplitOnceSplits<T>(s: seq<T>, at: T)
    ensures match SplitOnce(s, at)
            case None => at !in s
            case Some((before, after)) => s == before + [at] + after && at !in before
  {
    if s != [] && s[0] != at {
      SplitOnceSplits(s[1..], at);
      match SplitOnce(s[1..], at) {
        case None => assert s == [s[0]] + s[1..];
        case Some((before, after)) => assert s == [s[0]] + (before + [at] + after) == [s[0]] + before + [at] + after;
      }
    }
  }

  // Decimal numbers

  predicate IsDigit(c: char) {
    '0' <= c <= '9'
  }

  predicate AllDigits(s: string) {
    forall k | 0 <= k < |s| :: IsDigit(s[k])
  }

  function Digit(d: nat): char
    requires d < 10
  {
    '0' + d as char
  }

  function Decimal(n: nat): (s: string)
    ensures s != []
  {
    if n < 10 then [Digit(n)] else Decimal(n / 10) + [Digit(n % 10)]
  }

  function Number(s: string): nat
    requires AllDigits(s)
  {
    if s == [] then 0 else Number(s[..|s| - 1]) * 10 + (s[|s| - 1] - '0') as nat
  }

  lemma {:induction false} DecimalIsNumber(n: nat)
    ensures AllDigits(Decimal(n)) && Number(Decimal(n)) == n
  {
    if n >= 10 {
      DecimalIsNumber(n / 10);
      assert Decimal(n)[..|Decimal(n)| - 1] == Decimal(n / 10);
    } else {
      assert Decimal(n)[..0] == [];
    }
  }

  // ASCII case and white space

  function LowerChar(c: char): char {
    if 'A' <= c <= 'Z' then c - 'A' + 'a' else c
  }

  function Lower(s: string): (r: string)
    ensures |r| == |s|
  {
    if s == [] then [] else [LowerChar(s[0])] + Lower(s[1..])
  }

  lemma {:induction false} LowerTwice(s: string)
    ensures Lower(Lower(s)) == Lower(s)
  {
    if s != [] {
      LowerTwice(s[1..]);
    }
  }

  lemma {:induction false} LowerAt(s: string, k: nat)
    requires k < |s|
    ensures Lower(s)[k] == LowerChar(s[k])
  {
    if k > 0 {
      LowerAt(s[1..], k - 1);
    }
  }

  lemma {:induction false} LowerIs(s: string, t: string)
    requires |s| == |t| && forall k | 0 <= k < |s| :: LowerChar(s[k]) == t[k]
    ensures Lower(s) == t
  {
    if s != [] {
      LowerIs(s[1..], t[1..]);
    }
  }

  /** The same letter of the alphabet in either case, or the same character. */
  predicate SameLetter(c: char, d: char) {
    || c == d
    || ('a' <= c <= 'z' && d as int == c as int - 'a' as int + 'A' as int)
    || ('a' <= d <= 'z' && c as int == d as int - 'a' as int + 'A' as int)
  }

  lemma LowerCharExactly(c: char, d: char)
    ensures LowerChar(c) == LowerChar(d) <==> SameLetter(c, d)
    ensures SameLetter(LowerChar(c), c) && !('A' <= LowerChar(c) <= 'Z')
  {
  }

  /** Lowered names are the same exactly if the names are, but for the case of their letters. */
  lemma {:induction false} LowerExactly(s: string, t: string)
    ensures Lower(s) == Lower(t) <==> |s| == |t| && forall k | 0 <= k < |s| :: SameLetter(s[k], t[k])
  {
    if s != [] && t != [] {
      LowerExactly(s[1..], t[1..]);
      LowerCharExactly(s[0], t[0]);
      var a, b := Lower(s), Lower(t);
      assert a == b <==> a[0] == b[0] && a[1..] == b[1..];
      assert forall k | 0 < k < |s| :: s[k] == s[1..][k - 1];
      assert forall k | 0 < k < |t| :: t[k] == t[1..][k - 1];
    }
  }

  predicate IsSpace(c: char) {
    c == ' ' || ('\t' <= c <= '\r')
  }

  function TrimEnd(s: string): string {
    if s != [] && IsSpace(s[|s| - 1]) then TrimEnd(s[..|s| - 1]) else s
  }

  lemma TrimOne(s: string, c: char)
    requires IsSpace(c)
    ensures TrimEnd(s + [c]) == TrimEnd(s)
  {
  }

  lemma Associate<T>(a: seq<T>, b: seq<T>, c: seq<T>)
    ensures a + (b + c) == a + b + c
  {
  }
}

/** What the request reader makes of arbitrary input: which heads it accepts, and with what error it rejects the others. */
module RequestInputs {
  import opened Wrappers
  import opened Text
  import opened Utf8
  import opened HttpRequest

  // White space

  const SPACES: set<char> := {' ', '\t', '\n', '\r', '\U{0B}', '\U{0C}'}

  lemma SpacesAreSpaces(c: char)
    ensures IsSpace(c) <==> c in SPACES
  {
  }

  predicate AllSpaces(s: string) {
    forall k | 0 <= k < |s| :: s[k] in SPACES
  }

  /** Trimming takes off the white space at the end and nothing else. */
  lemma {:induction false} TrimExactly(s: string) returns (spaces: string)
    ensures s == TrimEnd(s) + spaces && AllSpaces(spaces)
    ensures TrimEnd(s) != [] ==> TrimEnd(s)[|TrimEnd(s)| - 1] !in SPACES
  {
    spaces := [];
    if s != [] {
      var c := s[|s| - 1];
      SpacesAreSpaces(c);
      if IsSpace(c) {
        var more := TrimExactly(s[..|s| - 1]);
        spaces := more + [c];
        assert s == s[..|s| - 1] + [c];
      }
    }
  }

  // Words

  /** A word of the line: white space, the word, and an end of line or white space after it. */
  predicate WordAt(line: string, spaces: string, word: string, rest: string) {
    && line == spaces + word + rest && AllSpaces(spaces)
    && word != [] && (forall k | 0 <= k < |word| :: word[k] !in SPACES)
    && (rest == [] || rest[0] in SPACES)
  }

  ghost predicate HasWord(line: string, word: string, rest: string) {
    exists spaces :: WordAt(line, spaces, word, rest)
  }

  lemma {:induction false} WordTaken(s: string)
    ensures var (word, rest) := TakeWord(s);
            && s == word + rest && (forall k | 0 <= k < |word| :: word[k] !in SPACES)
            && (rest == [] || rest[0] in SPACES) && (s != [] && s[0] !in SPACES ==> word != [])
  {
    if s != [] {
      SpacesAreSpaces(s[0]);
      if !IsSpace(s[0]) {
        WordTaken(s[1..]);
      }
    }
  }

  /** The next word is found exactly if there is anything but white space. */
  lemma {:induction false} NextWordIs(s: string)
    ensures match NextWord(s)
            case None => AllSpaces(s)
            case Some((word, rest)) => HasWord(s, word, rest)
  {
    if s != [] {
      SpacesAreSpaces(s[0]);
      if IsSpace(s[0]) {
        NextWordIs(s[1..]);
        if NextWord(s).Some? {
          var (word, rest) := NextWord(s).value;
          var spaces :| WordAt(s[1..], spaces, word, rest);
          assert s == [s[0]] + s[1..];
          assert WordAt(s, [s[0]] + spaces, word, rest);
        }
      } else {
        WordTaken(s);
        var (word, rest) := TakeWord(s);
        assert WordAt(s, "", word, rest);
        assert HasWord(s, word, rest);
      }
    }
  }

  lemma {:induction false} WordIsNext(s: string, spaces: string, word: string, rest: string)
    requires WordAt(s, spaces, word, rest)
    ensures NextWord(s) == Some((word, rest))
    decreases |spaces|
  {
    if spaces == [] {
      forall k | 0 <= k < |word|
        ensures !IsSpace(word[k])
      {
        SpacesAreSpaces(word[k]);
      }
      if rest != [] {
        SpacesAreSpaces(rest[0]);
      }
      TakePrintedWord(word, rest);
      assert s == word + rest && s[0] == word[0] && !IsSpace(s[0]);
      assert NextWord(s) == Some(TakeWord(s));
    } else {
      assert s[0] == spaces[0] && spaces[0] in SPACES;
      SpacesAreSpaces(s[0]);
      assert s[1..] == spaces[1..] + word + rest;
      WordIsNext(s[1..], spaces[1..], word, rest);
      assert NextWord(s) == NextWord(s[1..]);
    }
  }

  // The request line

  /** Names of methods in any case, and nothing else. */
  lemma ParseMethodExactly(s: string, m: Method)
    ensures ParseMethod(s) == Some(m) <==> Lower(s) == LowerName(m)
  {
  }

  /** The line begins with a method and a target, each a word of its own. */
  ghost predicate RequestLineIs(line: string, m: Method, url: string) {
    exists s0, name, after, s1, rest ::
      WordAt(line, s0, name, after) && Lower(name) == LowerName(m) && WordAt(after, s1, url, rest)
  }

  /** A request line is accepted exactly if it begins with a method and a target. */
  lemma RequestLineExactly(line: string, m: Method, url: string)
    ensures ParseRequestLine(line) == Ok((m, url)) <==> RequestLineIs(line, m, url)
  {
    NextWordIs(line);
    if ParseRequestLine(line) == Ok((m, url)) {
      var (name, after) := NextWord(line).value;
      NextWordIs(after);
      ParseMethodExactly(name, m);
      var (_, rest) := NextWord(after).value;
      var s0 :| WordAt(line, s0, name, after);
      var s1 :| WordAt(after, s1, url, rest);
    }
    if RequestLineIs(line, m, url) {
      var s0, name, after, s1, rest :|
        WordAt(line, s0, name, after) && Lower(name) == LowerName(m) && WordAt(after, s1, url, rest);
      WordIsNext(line, s0, name, after);
      WordIsNext(after, s1, url, rest);
      ParseMethodExactly(name, m);
    }
  }

  /** The first word is wrong exactly if it names no method, and otherwise it is the line. */
  lemma RequestLineErrors(line: string)
    ensures ParseRequestLine(line) == Err(BadMethod) <==>
            exists s0, name, after :: WordAt(line, s0, name, after) && forall m :: Lower(name) != LowerName(m)
    ensures ParseRequestLine(line).Err? ==>
              ParseRequestLine(line).error == BadMethod || ParseRequestLine(line).error == BadRequestLine
  {
    NextWordIs(line);
    if NextWord(line).Some? {
      var (name, after) := NextWord(line).value;
      forall m
        ensures ParseMethod(name) == Some(m) <==> Lower(name) == LowerName(m)
      {
        ParseMethodExactly(name, m);
      }
      if ParseMethod(name).Some? {
        assert Lower(name) == LowerName(ParseMethod(name).value);
      }
    }
    forall s0, name, after | WordAt(line, s0, name, after)
      ensures NextWord(line) == Some((name, after))
    {
      WordIsNext(line, s0, name, after);
    }
  }

  // Header lines

  /** Name and value are what stands around the first colon with a space after it. */
  lemma {:induction false} SplitHeaderExactly(line: string)
    ensures match SplitHeader(line)
            case None => forall i | 0 <= i < |line| - 1 :: !(line[i] == ':' && line[i + 1] == ' ')
            case Some((name, value)) =>
              && line == name + ": " + value
              && forall i | 0 <= i < |name| :: !(line[i] == ':' && line[i + 1] == ' ')
  {
    if |line| >= 2 && !(line[0] == ':' && line[1] == ' ') {
      SplitHeaderExactly(line[1..]);
      assert line == [line[0]] + line[1..];
      assert forall i | 1 <= i < |line| :: line[i] == line[1..][i - 1];
    } else if |line| >= 2 {
      assert line == [] + ": " + line[2..];
    }
  }

  /** A line of the head that the loop takes in. */
  predicate IsHeaderLine(line: string) {
    && line != [] && line[|line| - 1] == '\n' && '\n' !in line[..|line| - 1]
    && ValidUtf8(line) && line != "\r\n" && SplitHeader(line).Some?
  }

  ghost predicate AreHeaderLines(lines: seq<string>) {
    forall i | 0 <= i < |lines| :: IsHeaderLine(lines[i])
  }

  function Concat(lines: seq<string>): string {
    if lines == [] then [] else lines[0] + Concat(lines[1..])
  }

  function FieldOf(line: string): Header
    requires IsHeaderLine(line)
  {
    var (name, value) := SplitHeader(line).value;
    Header(name, TrimEnd(value))
  }

  ghost function FieldsOf(lines: seq<string>): seq<Header>
    requires AreHeaderLines(lines)
  {
    if lines == [] then [] else [FieldOf(lines[0])] + FieldsOf(lines[1..])
  }

  lemma ReadHeaderLine(line: string, rest: string, headers: Headers)
    requires IsHeaderLine(line)
    ensures ReadHeaders(line + rest, headers)
         == ReadHeaders(rest, headers[Lower(FieldOf(line).name) := FieldOf(line).value])
  {
    var front := line[..|line| - 1];
    assert line == front + "\n" && line + rest == front + "\n" + rest;
    ReadPrintedLine(front, rest);
    SplitHeaderExactly(line);
  }

  /** Header lines are taken in one by one, whatever follows them; of those with one name the last counts. */
  lemma {:induction false} ReadHeaderLines(lines: seq<string>, rest: string, headers: Headers)
    requires AreHeaderLines(lines)
    ensures ReadHeaders(Concat(lines) + rest, headers) == ReadHeaders(rest, LastValues(FieldsOf(lines), headers))
    decreases |lines|
  {
    if lines == [] {
      assert [] + rest == rest;
    } else {
      var h := FieldOf(lines[0]);
      Associate(lines[0], Concat(lines[1..]), rest);
      ReadHeaderLine(lines[0], Concat(lines[1..]) + rest, headers);
      ReadHeaderLines(lines[1..], rest, headers[Lower(h.name) := h.value]);
      assert FieldsOf(lines)[1..] == FieldsOf(lines[1..]);
    }
  }

  /** What the loop stops at: the empty line, a line that is not UTF-8, or one without a colon and a space. */
  ghost predicate StopsAt(rest: string) {
    var line := ReadLine(rest).0;
    line == "\r\n" || !ValidUtf8(line) || SplitHeader(line).None?
  }

  /** Every head is header lines and something that the loop stops at; the end of the input is such. */
  lemma {:induction false} EveryHead(s: string) returns (lines: seq<string>, rest: string)
    ensures AreHeaderLines(lines) && s == Concat(lines) + rest
    ensures StopsAt(rest) || (rest != [] && '\n' !in rest)
    decreases |s|
  {
    lines, rest := [], s;
    assert s == [] + s;
    SplitOnceSplits(s, '\n');
    var (line, after) := ReadLine(s);
    if SplitOnce(s, '\n').Some? && IsHeaderLine(line) {
      var more, r := EveryHead(after);
      lines, rest := [line] + more, r;
      assert lines[1..] == more;
      Associate(line, Concat(more), r);
    } else if SplitOnce(s, '\n').Some? {
      assert line[..|line| - 1] == SplitOnce(s, '\n').value.0;
    }
  }

  /** The result on every head, by the header lines it begins with and what the loop stops at. */
  lemma HeadersExactly(lines: seq<string>, rest: string)
    requires AreHeaderLines(lines) && (StopsAt(rest) || (rest != [] && '\n' !in rest))
    ensures var line := ReadLine(rest).0;
            ReadHeaders(Concat(lines) + rest, map[])
            == (if !ValidUtf8(line) then Err(NotUtf8)
                else if line == "\r\n" then Ok((LastValues(FieldsOf(lines), map[]), rest[2..]))
                else if SplitHeader(line).None? then Err(BadHeader(line))
                else Err(BadHeader([])))
  {
    var (line, after) := ReadLine(rest);
    ReadHeaderLines(lines, rest, map[]);
    SplitOnceSplits(rest, '\n');
    if line == "\r\n" {
      assert rest == line + after && rest[2..] == after;
    } else if !StopsAt(rest) {
      assert line == rest && after == [];
    }
  }

  /** The input is valid text and then the body. */
  predicate TextThen(s: string, body: string) {
    |body| <= |s| && s[|s| - |body|..] == body && ValidUtf8(s[..|s| - |body|])
  }

  lemma LineAndText(line: string, rest: string, body: string)
    requires ValidUtf8(line) && TextThen(rest, body)
    ensures TextThen(line + rest, body)
  {
    var k := |rest| - |body|;
    ValidConcat(line, rest[..k]);
    CutAfter(line, rest, k);
  }

  lemma CutAfter(line: string, rest: string, k: nat)
    requires k <= |rest|
    ensures (line + rest)[..|line| + k] == line + rest[..k] && (line + rest)[|line| + k..] == rest[k..]
  {
  }

  lemma LineThenRest(s: string)
    ensures ReadLine(s).0 + ReadLine(s).1 == s && (s != "" ==> |ReadLine(s).1| < |s|)
  {
    SplitOnceSplits(s, '\n');
  }

  /** What the header loop takes in before the body is valid text. */
  lemma {:induction false} TakenHeadersAreText(s: string, headers: Headers)
    requires ReadHeaders(s, headers).Ok?
    ensures TextThen(s, ReadHeaders(s, headers).value.1)
    decreases |s|
  {
    var (line, rest) := ReadLine(s);
    LineThenRest(s);
    if line == "\r\n" {
      assert rest[..0] == "" && rest[0..] == rest;
      LineAndText(line, rest, rest);
    } else {
      var (name, value) := SplitHeader(line).value;
      TakenHeadersAreText(rest, headers[Lower(name) := TrimEnd(value)]);
      LineAndText(line, rest, ReadHeaders(s, headers).value.1);
    }
  }

  /** A request is accepted only if its whole head is valid text, and what follows the head is left unread. */
  lemma HeadIsText(s: string)
    ensures ParseRequest(s).Ok? ==> TextThen(s, ParseRequest(s).value.body)
    ensures !ValidUtf8(ReadLine(s).0) ==> ParseRequest(s) == Err(NotUtf8)
  {
    if ParseRequest(s).Ok? {
      var (line, rest) := ReadLine(s);
      LineThenRest(s);
      TakenHeadersAreText(rest, map[]);
      LineAndText(line, rest, ParseRequest(s).value.body);
    }
  }

  // The announced length

  function Zeros(k: nat): string {
    if k == 0 then [] else ['0'] + Zeros(k - 1)
  }

  lemma {:induction false} ZerosSnoc(k: nat)
    ensures Zeros(k) + ['0'] == Zeros(k + 1) && AllDigits(Zeros(k))
  {
    if k > 0 {
      ZerosSnoc(k - 1);
      assert Zeros(k) + ['0'] == ['0'] + (Zeros(k - 1) + ['0']);
    }
  }

  lemma {:induction false} DigitsAreDecimal(s: string) returns (k: nat)
    requires s != [] && AllDigits(s)
    ensures s == Zeros(k) + Decimal(Number(s))
  {
    var front, d := s[..|s| - 1], (s[|s| - 1] - '0') as nat;
    assert s == front + [Digit(d)];
    if front == [] {
      k := 0;
      assert Number(front) == 0;
      assert s == [] + Decimal(d);
    } else {
      k := DigitsAreDecimal(front);
      if Number(front) == 0 {
        ZerosSnoc(k);
        assert Decimal(0) == ['0'];
        k := k + 1;
      } else {
        assert Decimal(Number(s)) == Decimal(Number(front)) + [Digit(d)];
        Associate(Zeros(k), Decimal(Number(front)), [Digit(d)]);
      }
    }
  }

  lemma {:induction false} ZerosBefore(k: nat, s: string)
    requires AllDigits(s)
    ensures AllDigits(Zeros(k) + s) && Number(Zeros(k) + s) == Number(s)
    decreases k, |s|
  {
    ZerosSnoc(k);
    if s != [] {
      var front := s[..|s| - 1];
      ZerosBefore(k, front);
      assert (Zeros(k) + s)[..|Zeros(k) + s| - 1] == Zeros(k) + front;
    } else if k > 0 {
      ZerosSnoc(k - 1);
      assert Zeros(k) + [] == Zeros(k - 1) + ['0'];
      assert (Zeros(k - 1) + ['0'])[..k - 1 + |Zeros(k - 1)| - (k - 1)] == Zeros(k - 1);
      ZerosBefore(k - 1, []);
      assert Zeros(k - 1) + [] == Zeros(k - 1);
    } else {
      assert Zeros(0) + s == s;
    }
  }

  /** The text is the number in decimal, perhaps after a plus sign and zeros. */
  ghost predicate IsNumeral(s: string, n: nat) {
    exists k :: s == Zeros(k) + Decimal(n) || s == "+" + (Zeros(k) + Decimal(n))
  }

  /** A length is understood exactly if it is the numeral of a number below 2^64. */
  lemma ParseUsizeExactly(s: string, n: nat)
    ensures ParseUsize(s) == Some(n) <==> n <= 18446744073709551615 && IsNumeral(s, n)
  {
    var digits := if s != [] && s[0] == '+' then s[1..] else s;
    if ParseUsize(s) == Some(n) {
      var k := DigitsAreDecimal(digits);
      assert digits == s || s == "+" + digits;
    }
    DecimalIsNumber(n);
    forall k | s == Zeros(k) + Decimal(n) || s == "+" + (Zeros(k) + Decimal(n))
      ensures digits == Zeros(k) + Decimal(n)
      ensures digits != [] && AllDigits(digits) && Number(digits) == n
    {
      ZerosBefore(k, Decimal(n));
      var text := Zeros(k) + Decimal(n);
      assert IsDigit(text[0]);
      assert ("+" + text)[1..] == text;
    }
  }

  /** The errors of the announced length: none announced, or one that is not understood. */
  lemma ContentLengthExactly(headers: Headers)
    ensures ContentLength(headers) == Err(NoContentLength) <==> "content-length" !in headers
    ensures forall n :: ContentLength(headers) == Ok(n) <==>
              "content-length" in headers && n <= 18446744073709551615 && IsNumeral(headers["content-length"], n)
    ensures ContentLength(headers).Err? && "content-length" in headers ==>
              ContentLength(headers).error == BadContentLength(headers["content-length"])
  {
    if "content-length" in headers {
      forall n
        ensures ContentLength(headers) == Ok(n) <==> n <= 18446744073709551615 && IsNumeral(headers["content-length"], n)
      {
        ParseUsizeExactly(headers["content-length"], n);
      }
    }
  }
}

/**
 * HTTP requests as they are read from a connection and as a client prints them (sections 3, 5 and
 * 6.2 of RFC 9112). A character stands for a byte; names are lowered as ASCII.
 */
module HttpRequest {
  import opened Wrappers
  import opened Text
  import opened Utf8

  datatype Method = Get | Put | Post | Delete | Patch | Head | Options | Trace | Connect

  datatype Error =
    | BadRequestLine
    | BadMethod
    | BadHeader(line: string)
    | NoContentLength
    | BadContentLength(value: string)
    | UnexpectedEnd
    | NotUtf8

  type Headers = map<string, string>

  const MAX_USIZE: nat := 0xFFFF_FFFF_FFFF_FFFF

  function MethodName(m: Method): string {
    match m
    case Get => "GET" case Put => "PUT" case Post => "POST" case Delete => "DELETE" case Patch => "PATCH"
    case Head => "HEAD" case Options => "OPTIONS" case Trace => "TRACE" case Connect => "CONNECT"
  }

  function ParseMethod(s: string): Option<Method> {
    var l := Lower(s);
    if l == "get" then Some(Get)
    else if l == "put" then Some(Put)
    else if l == "post" then Some(Post)
    else if l == "delete" then Some(Delete)
    else if l == "patch" then Some(Patch)
    else if l == "head" then Some(Head)
    else if l == "options" then Some(Options)
    else if l == "trace" then Some(Trace)
    else if l == "connect" then Some(Connect)
    else None
  }

  // Reading

  /** The next line with its LF, or what is left at the end of the input. */
  function ReadLine(s: string): (r: (string, string))
    ensures |r.0| + |r.1| == |s|
  {
    SplitOnceSplits(s, '\n');
    match SplitOnce(s, '\n')
    case None => (s, [])
    case Some((line, rest)) => (line + "\n", rest)
  }

  /** The next word between white space, and what follows it. */
  function NextWord(s: string): Option<(string, string)> {
    if s == [] then None
    else if IsSpace(s[0]) then NextWord(s[1..])
    else Some(TakeWord(s))
  }

  function TakeWord(s: string): (string, string) {
    if s == [] || IsSpace(s[0]) then ([], s)
    else
      var (word, rest) := TakeWord(s[1..]);
      ([s[0]] + word, rest)
  }

  function ParseRequestLine(line: string): Result<(Method, string), Error> {
    match NextWord(line)
    case None => Err(BadRequestLine)
    case Some((name, rest)) =>
      match ParseMethod(name)
      case None => Err(BadMethod)
      case Some(m) =>
        match NextWord(rest)
        case None => Err(BadRequestLine)
        case Some((url, _)) => Ok((m, url))
  }

  /** The parts before and after the first colon that a space follows. */
  function SplitHeader(line: string): Option<(string, string)> {
    if |line| < 2 then None
    else if line[0] == ':' && line[1] == ' ' then Some(([], line[2..]))
    else
      match SplitHeader(line[1..])
      case None => None
      case Some((name, value)) => Some(([line[0]] + name, value))
  }

  /** Reads header lines up to the empty one; a later header replaces an earlier one of the same name. */
  function ReadHeaders(s: string, headers: Headers): Result<(Headers, string), Error>
    decreases |s|
  {
    var (line, rest) := ReadLine(s);
    if !ValidUtf8(line) then Err(NotUtf8)
    else if line == "\r\n" then Ok((headers, rest))
    else
      match SplitHeader(line)
      case None => Err(BadHeader(line))
      case Some((name, value)) => ReadHeaders(rest, headers[Lower(name) := TrimEnd(value)])
  }

  datatype RequestHead = RequestHead(kind: Method, url: string, headers: Headers, body: string)

  function ParseRequest(s: string): Result<RequestHead, Error> {
    var (line, rest) := ReadLine(s);
    if !ValidUtf8(line) then Err(NotUtf8)
    else
      match ParseRequestLine(line)
      case Err(e) => Err(e)
      case Ok((m, url)) =>
        match ReadHeaders(rest, map[])
        case Err(e) => Err(e)
        case Ok((headers, body)) => Ok(RequestHead(m, url, headers, body))
  }

  /** An unsigned 64-bit number, with an optional plus sign. */
  function ParseUsize(s: string): Option<nat> {
    var digits := if s != [] && s[0] == '+' then s[1..] else s;
    if digits != [] && AllDigits(digits) && Number(digits) <= MAX_USIZE then Some(Number(digits)) else None
  }

  /** The number of body bytes that the headers announce. */
  function ContentLength(headers: Headers): Result<nat, Error> {
    if "content-length" !in headers then Err(NoContentLength)
    else
      match ParseUsize(headers["content-length"])
      case None => Err(BadContentLength(headers["content-length"]))
      case Some(n) => Ok(n)
  }

  class Request {
    const kind: Method
    const url: string
    const headers: Headers
    var reader: string // what has not been read from the connection

    constructor (kind: Method, url: string, headers: Headers, reader: string)
      ensures this.kind == kind && this.url == url && this.headers == headers && this.reader == reader
    {
      this.kind, this.url, this.headers, this.reader := kind, url, headers, reader;
    }

    /** Reads the head of a request. Every round of the header loop consumes input or fails, so it ends. */
    static method TryFromStream(stream: string) returns (r: Result<Request, Error>)
      ensures r.Ok? ==> fresh(r.value)
      ensures match ParseRequest(stream)
              case Err(e) => r == Err(e)
              case Ok(head) => r.Ok? && RequestHead(r.value.kind, r.value.url, r.value.headers, r.value.reader) == head
    {
      var (line, rest) := ReadLine(stream);
      if !ValidUtf8(line) {
        return Err(NotUtf8);
      }
      var first := ParseRequestLine(line);
      if first.Err? {
        return Err(first.error);
      }
      var headers: Headers := map[];
      var reader := rest;
      while true
        invariant ReadHeaders(rest, map[]) == ReadHeaders(reader, headers)
        decreases |reader|
      {
        var (next, more) := ReadLine(reader);
        if !ValidUtf8(next) {
          return Err(NotUtf8);
        }
        if next == "\r\n" {
          reader := more;
          break;
        }
        match SplitHeader(next)
        case None =>
          return Err(BadHeader(next));
        case Some((name, value)) =>
          headers := headers[Lower(name) := TrimEnd(value)];
          reader := more;
      }
      var request := new Request(first.value.0, first.value.1, headers, reader);
      r := Ok(request);
    }

    /** Reads exactly as many bytes as the headers announce. */
    method Content() returns (r: Result<string, Error>)
      modifies this
      ensures match ContentLength(headers)
              case Err(e) => r == Err(e) && reader == old(reader)
              case Ok(n) =>
                if n > |old(reader)| then r == Err(UnexpectedEnd)
                else
                  && reader == old(reader)[n..]
                  && r == if ValidUtf8(old(reader)[..n]) then Ok(old(reader)[..n]) else Err(NotUtf8)
    {
      var length := ContentLength(headers);
      if length.Err? {
        return Err(length.error);
      }
      if |reader| < length.value {
        reader := [];
        return Err(UnexpectedEnd);
      }
      var buffer := reader[..length.value];
      reader := reader[length.value..];
      r := if ValidUtf8(buffer) then Ok(buffer) else Err(NotUtf8);
    }
  }

  // Printing

  datatype Header = Header(name: string, value: string)

  function PrintHeader(h: Header): string {
    h.name + ": " + h.value + "\r\n"
  }

  function PrintHeaders(headers: seq<Header>): string {
    if headers == [] then [] else PrintHeader(headers[0]) + PrintHeaders(headers[1..])
  }

  function PrintRequest(m: Method, target: string, headers: seq<Header>, body: string): string {
    MethodName(m) + " " + target + " HTTP/1.1\r\n" + (PrintHeaders(headers) + ("\r\n" + body))
  }

  /** The header map in which the last value of a name wins, on top of an earlier one. */
  function LastValues(headers: seq<Header>, earlier: Headers): Headers {
    if headers == [] then earlier
    else LastValues(headers[1..], earlier[Lower(headers[0].name) := headers[0].value])
  }

  predicate WellFormed(h: Header) {
    && '\n' !in h.name && SplitHeader(h.name) == None
    && '\n' !in h.value && (h.value == [] || !IsSpace(h.value[|h.value| - 1]))
    && ValidUtf8(h.name) && ValidUtf8(h.value)
  }

  // The round trip

  lemma ReadPrintedLine(line: string, rest: string)
    requires '\n' !in line
    ensures ReadLine(line + "\n" + rest) == (line + "\n", rest)
  {
    SplitAtFirst(line, '\n', rest);
  }

  lemma {:induction false} SplitPrinted(name: string, value: string)
    requires SplitHeader(name) == None
    ensures SplitHeader(name + ": " + value) == Some((name, value))
  {
    var line := name + ": " + value;
    if name == [] {
      assert line[2..] == value;
    } else {
      assert line[1..] == name[1..] + ": " + value;
      assert !(line[0] == ':' && line[1] == ' ') by {
        if |name| == 1 {
          assert line[1] == ':';
        } else {
          assert line[1] == name[1];
        }
      }
      SplitPrinted(name[1..], value);
      assert [name[0]] + name[1..] == name;
    }
  }

  lemma TrimPrinted(value: string)
    requires value == [] || !IsSpace(value[|value| - 1])
    ensures TrimEnd(value + "\r\n") == value
  {
    TrimOne(value, '\r');
    TrimOne(value + "\r", '\n');
    assert value + "\r\n" == value + "\r" + "\n";
  }

  lemma ValidHeaderLine(name: string, value: string)
    requires ValidUtf8(name) && ValidUtf8(value)
    ensures ValidUtf8(name + ": " + (value + "\r\n"))
  {
    AsciiIsValid("\r\n");
    ValidConcat(value, "\r\n");
    AsciiIsValid(": ");
    ValidConcat(name, ": ");
    ValidConcat(name + ": ", value + "\r\n");
  }

  lemma ReadPrintedHeader(h: Header, rest: string, headers: Headers)
    requires WellFormed(h)
    ensures ReadHeaders(PrintHeader(h) + rest, headers) == ReadHeaders(rest, headers[Lower(h.name) := h.value])
  {
    var line := h.name + ": " + h.value + "\r";
    assert PrintHeader(h) + rest == line + "\n" + rest;
    ReadPrintedLine(line, rest);
    assert line + "\n" == h.name + ": " + (h.value + "\r\n");
    ValidHeaderLine(h.name, h.value);
    assert |line + "\n"| >= 4;
    SplitPrinted(h.name, h.value + "\r\n");
    TrimPrinted(h.value);
  }

  /** The header loop reads printed headers back, the last value of each name. */
  lemma {:induction false} ReadPrintedHeaders(printed: seq<Header>, body: string, headers: Headers)
    requires forall i | 0 <= i < |printed| :: WellFormed(printed[i])
    ensures ReadHeaders(PrintHeaders(printed) + ("\r\n" + body), headers) == Ok((LastValues(printed, headers), body))
    decreases |printed|
  {
    var end := "\r\n" + body;
    if printed == [] {
      assert [] + end == end == "\r" + "\n" + body;
      ReadPrintedLine("\r", body);
      assert "\r" + "\n" == "\r\n";
      AsciiIsValid("\r\n");
    } else {
      var rest := PrintHeaders(printed[1..]) + end;
      assert PrintHeaders(printed) + end == PrintHeader(printed[0]) + rest;
      ReadPrintedHeader(printed[0], rest, headers);
      ReadPrintedHeaders(printed[1..], body, headers[Lower(printed[0].name) := printed[0].value]);
    }
  }

  predicate IsWord(s: string) {
    s != [] && forall k | 0 <= k < |s| :: !IsSpace(s[k])
  }

  lemma {:induction false} TakePrintedWord(word: string, rest: string)
    requires (forall k | 0 <= k < |word| :: !IsSpace(word[k])) && (rest == [] || IsSpace(rest[0]))
    ensures TakeWord(word + rest) == (word, rest)
  {
    if word == [] {
      assert word + rest == rest;
    } else {
      assert (word + rest)[1..] == word[1..] + rest;
      TakePrintedWord(word[1..], rest);
      assert [word[0]] + word[1..] == word;
    }
  }

  lemma MethodNameParses(m: Method)
    ensures ParseMethod(MethodName(m)) == Some(m) && IsWord(MethodName(m)) && '\n' !in MethodName(m)
  {
    LowerOf(m);
  }

  function LowerName(m: Method): string {
    match m
    case Get => "get" case Put => "put" case Post => "post" case Delete => "delete" case Patch => "patch"
    case Head => "head" case Options => "options" case Trace => "trace" case Connect => "connect"
  }

  lemma LowerOf(m: Method)
    ensures Lower(MethodName(m)) == LowerName(m)
  {
    LowerIs(MethodName(m), LowerName(m));
  }

  lemma RequestLineParses(m: Method, target: string, tail: string)
    requires IsWord(target) && tail != [] && IsSpace(tail[0])
    ensures ParseRequestLine(MethodName(m) + (" " + (target + tail))) == Ok((m, target))
  {
    MethodNameParses(m);
    var rest := " " + (target + tail);
    TakePrintedWord(MethodName(m), rest);
    assert rest[1..] == target + tail;
    TakePrintedWord(target, tail);
    assert NextWord(rest) == NextWord(target + tail) == Some((target, tail));
  }

  lemma WordHasNoNewline(s: string)
    requires IsWord(s)
    ensures '\n' !in s
  {
  }

  lemma MethodNameIsValid(m: Method)
    ensures ValidUtf8(MethodName(m) + " ")
  {
    AsciiIsValid(MethodName(m));
    AsciiIsValid(" ");
    ValidConcat(MethodName(m), " ");
  }

  lemma ValidRequestLine(head: string, target: string, tail: string)
    requires ValidUtf8(head) && ValidUtf8(target) && tail == " HTTP/1.1\r\n"
    ensures ValidUtf8(head + (target + tail))
  {
    AsciiIsValid(tail);
    ValidConcat(target, tail);
    ValidConcat(head, target + tail);
  }

  lemma ReadToTail(head: string, target: string, tail: string, rest: string)
    requires '\n' !in head && '\n' !in target && '\n' !in tail
    ensures ReadLine(head + target + (tail + "\n") + rest) == (head + (target + (tail + "\n")), rest)
  {
    var line := head + target + tail;
    assert head + target + (tail + "\n") + rest == line + "\n" + rest;
    ReadPrintedLine(line, rest);
    assert line + "\n" == head + (target + (tail + "\n"));
  }

  /** The printed request line is read as one line and parsed. */
  lemma PrintedRequestLine(m: Method, target: string, rest: string)
    requires IsWord(target) && ValidUtf8(target)
    ensures var s := MethodName(m) + " " + target + " HTTP/1.1\r\n" + rest;
            && ReadLine(s).1 == rest && ValidUtf8(ReadLine(s).0)
            && ParseRequestLine(ReadLine(s).0) == Ok((m, target))
  {
    var head, tail := MethodName(m) + " ", " HTTP/1.1\r";
    assert tail + "\n" == " HTTP/1.1\r\n" && '\n' !in tail;
    MethodNameParses(m);
    WordHasNoNewline(target);
    ReadToTail(head, target, tail, rest);
    MethodNameIsValid(m);
    ValidRequestLine(head, target, tail + "\n");
    Associate(MethodName(m), " ", target + (tail + "\n"));
    RequestLineParses(m, target, tail + "\n");
  }

  /** Parsing a printed request gives its method, target, last header values, and leaves its body. */
  lemma RequestRoundTrip(m: Method, target: string, headers: seq<Header>, body: string)
    requires IsWord(target) && ValidUtf8(target) && forall i | 0 <= i < |headers| :: WellFormed(headers[i])
    ensures ParseRequest(PrintRequest(m, target, headers, body))
         == Ok(RequestHead(m, target, LastValues(headers, map[]), body))
  {
    var rest := PrintHeaders(headers) + ("\r\n" + body);
    PrintedRequestLine(m, target, rest);
    ReadPrintedHeaders(headers, body, map[]);
  }

  lemma ParseDecimal(n: nat)
    requires n <= MAX_USIZE
    ensures ParseUsize(Decimal(n)) == Some(n)
  {
    DecimalIsNumber(n);
    assert IsDigit(Decimal(n)[0]);
  }

  /** A printed request that announces its body's length delivers exactly that body through `Content`. */
  lemma AnnouncedBodyIsRead(headers: Headers, body: string)
    requires |body| <= MAX_USIZE && "content-length" in headers && headers["content-length"] == Decimal(|body|)
    ensures ContentLength(headers) == Ok(|body|) && body[..|body|] == body && body[|body|..] == []
  {
    ParseDecimal(|body|);
  }

  /**
   * A request read from a connection gives back what was printed, through its accessors and its
   * content, except for a body that is not valid UTF-8, which is an error.
   */
  method ReadBack(m: Method, target: string, headers: seq<Header>, body: string)
    returns (request: Request, content: Result<string, Error>)
    requires IsWord(target) && ValidUtf8(target) && forall i | 0 <= i < |headers| :: WellFormed(headers[i])
    requires |body| <= MAX_USIZE
    requires "content-length" in LastValues(headers, map[])
    requires LastValues(headers, map[])["content-length"] == Decimal(|body|)
    ensures request.kind == m && request.url == target && request.headers == LastValues(headers, map[])
    ensures content == (if ValidUtf8(body) then Ok(body) else Err(NotUtf8)) && request.reader == []
    ensures content == Ok(body) <==> exists text :: IsText(text) && Encode(text) == body
  {
    ValidExactly(body);
    RequestRoundTrip(m, target, headers, body);
    AnnouncedBodyIsRead(LastValues(headers, map[]), body);
    var parsed := Request.TryFromStream(PrintRequest(m, target, headers, body));
    request := parsed.value;
    content := request.Content();
  }
}

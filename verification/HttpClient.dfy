/**
 * A client that reads responses by RFC 9112 (sections 4, 5 and 6.3) and RFC 9110 (section 5), and
 * exactly which of the builder's responses it reads as they were meant. A character stands for a byte.
 */
module HttpClient {
  import opened Wrappers
  import opened Text
  import opened HttpRequest
  import opened HttpResponse

  // Field lines

  /** The characters of a token. */
  predicate IsTokenChar(c: char) {
    || IsDigit(c) || 'A' <= c <= 'Z' || '^' <= c <= 'z' || '#' <= c <= '\''
    || c == '!' || c == '*' || c == '+' || c == '-' || c == '.' || c == '|' || c == '~'
  }

  predicate IsToken(s: string) {
    s != [] && forall k | 0 <= k < |s| :: IsTokenChar(s[k])
  }

  /** A field value has no CR, LF or NUL. */
  predicate IsFieldValue(s: string) {
    forall k | 0 <= k < |s| :: s[k] != '\r' && s[k] != '\n' && s[k] != '\0'
  }

  /** Optional white space. */
  predicate IsOws(c: char) {
    c == ' ' || c == '\t'
  }

  function StripStart(s: string): string {
    if s != [] && IsOws(s[0]) then StripStart(s[1..]) else s
  }

  function StripEnd(s: string): string {
    if s != [] && IsOws(s[|s| - 1]) then StripEnd(s[..|s| - 1]) else s
  }

  function Strip(s: string): string {
    StripEnd(StripStart(s))
  }

  /** The next line, ended by LF, without a CR before that. */
  function NextLine(s: string): Option<(string, string)> {
    match SplitOnce(s, '\n')
    case None => None
    case Some((line, rest)) =>
      Some((if line != [] && line[|line| - 1] == '\r' then line[..|line| - 1] else line, rest))
  }

  lemma NextLineShrinks(s: string)
    ensures NextLine(s).Some? ==> |NextLine(s).value.1| < |s|
  {
    SplitOnceSplits(s, '\n');
  }

  /** Name and value around the first colon: the name a token, the value without white space around it. */
  function ReadField(line: string): Option<(string, string)> {
    match SplitOnce(line, ':')
    case None => None
    case Some((name, value)) => if IsToken(name) && IsFieldValue(value) then Some((Lower(name), Strip(value))) else None
  }

  /** Fields of the same name are combined into one list. */
  function Combine(fields: Headers, name: string, value: string): Headers {
    fields[name := if name in fields then fields[name] + ", " + value else value]
  }

  datatype ClientError = Incomplete | BadStatusLine | BadFieldLine | BadLength | TransferCoded

  function ReadFields(s: string, fields: Headers): Result<(Headers, string), ClientError>
    decreases |s|
  {
    NextLineShrinks(s);
    match NextLine(s)
    case None => Err(Incomplete)
    case Some((line, rest)) =>
      if line == [] then Ok((fields, rest))
      else
        match ReadField(line)
        case None => Err(BadFieldLine)
        case Some((name, value)) => ReadFields(rest, Combine(fields, name, value))
  }

  // Responses

  datatype ResponseHead = ResponseHead(code: string, reason: string, fields: Headers, rest: string)
  datatype Response = Response(code: string, reason: string, fields: Headers, body: string)

  /** Version, three digits and a reason, single spaces between them. */
  function ReadStatusLine(line: string): Option<(string, string)> {
    match SplitOnce(line, ' ')
    case None => None
    case Some((version, status)) =>
      match SplitOnce(status, ' ')
      case None => None
      case Some((code, reason)) =>
        if version == "HTTP/1.1" && |code| == 3 && AllDigits(code) then Some((code, reason)) else None
  }

  function ReadHead(s: string): Result<ResponseHead, ClientError> {
    match NextLine(s)
    case None => Err(Incomplete)
    case Some((line, rest)) =>
      match ReadStatusLine(line)
      case None => Err(BadStatusLine)
      case Some((code, reason)) =>
        match ReadFields(rest, map[])
        case Err(e) => Err(e)
        case Ok((fields, after)) => Ok(ResponseHead(code, reason, fields, after))
  }

  /** The body of a response: as long as announced, else up to the close; transfer codings are not understood. */
  function ReadBody(fields: Headers, rest: string): Result<string, ClientError> {
    if "transfer-encoding" in fields then Err(TransferCoded)
    else if "content-length" in fields then
      var length := fields["content-length"];
      if length == [] || !AllDigits(length) then Err(BadLength)
      else if Number(length) > |rest| then Err(Incomplete)
      else Ok(rest[..Number(length)])
    else Ok(rest)
  }

  function ReadResponse(s: string): Result<Response, ClientError> {
    match ReadHead(s)
    case Err(e) => Err(e)
    case Ok(head) =>
      match ReadBody(head.fields, head.rest)
      case Err(e) => Err(e)
      case Ok(body) => Ok(Response(head.code, head.reason, head.fields, body))
  }

  // White space

  predicate IsStripped(s: string) {
    s == [] || (!IsOws(s[0]) && !IsOws(s[|s| - 1]))
  }

  lemma {:induction false} StripStartIsTail(s: string)
    ensures StripStart(s) == [] || !IsOws(StripStart(s)[0])
    ensures exists k :: 0 <= k <= |s| && StripStart(s) == s[k..]
  {
    if s != [] && IsOws(s[0]) {
      StripStartIsTail(s[1..]);
      var k :| 0 <= k <= |s[1..]| && StripStart(s[1..]) == s[1..][k..];
      assert StripStart(s) == s[k + 1..];
    } else {
      assert s[0..] == s;
    }
  }

  lemma {:induction false} StripEndIsFront(s: string)
    ensures StripEnd(s) == [] || !IsOws(StripEnd(s)[|StripEnd(s)| - 1])
    ensures StripEnd(s) <= s
  {
    if s != [] && IsOws(s[|s| - 1]) {
      StripEndIsFront(s[..|s| - 1]);
    }
  }

  /** Stripping leaves a part of the text, and leaves it alone exactly if there is no white space around it. */
  lemma StripExactly(s: string)
    ensures Strip(s) == s <==> IsStripped(s)
    ensures IsStripped(Strip(s))
    ensures forall c | c in Strip(s) :: c in s
  {
    StripStartIsTail(s);
    StripEndIsFront(StripStart(s));
    var k :| 0 <= k <= |s| && StripStart(s) == s[k..];
    forall c | c in Strip(s)
      ensures c in s
    {
      assert c in StripStart(s);
    }
  }

  lemma StripKeepsFieldValue(s: string)
    requires IsFieldValue(s)
    ensures IsFieldValue(Strip(s))
  {
    StripExactly(s);
    assert forall k | 0 <= k < |Strip(s)| :: Strip(s)[k] in s;
  }

  /** The space that is printed after the colon does not come through. */
  lemma StripPrinted(value: string)
    ensures Strip([' '] + value) == Strip(value)
  {
  }

  // What the reader can return

  lemma LowerTokenIsToken(s: string)
    requires IsToken(s)
    ensures IsToken(Lower(s))
  {
  }

  /** Fields whose names and values can stand on a line. */
  ghost predicate Printable(fields: Headers) {
    forall name | name in fields :: IsToken(name) && IsFieldValue(fields[name])
  }

  /** The reader returns nothing that could not stand on a line. */
  lemma {:induction false} ReadFieldsPrintable(s: string, fields: Headers)
    requires Printable(fields)
    ensures ReadFields(s, fields).Ok? ==> Printable(ReadFields(s, fields).value.0)
    decreases |s|
  {
    NextLineShrinks(s);
    if NextLine(s).Some? && NextLine(s).value.0 != [] {
      var (line, rest) := NextLine(s).value;
      if ReadField(line).Some? {
        var (raw, text) := SplitOnce(line, ':').value;
        LowerTokenIsToken(raw);
        StripKeepsFieldValue(text);
        ReadFieldsPrintable(rest, Combine(fields, Lower(raw), Strip(text)));
      }
    }
  }

  // Reading printed lines

  lemma NextPrintedLine(line: string, rest: string)
    requires '\n' !in line
    ensures NextLine(line + "\r\n" + rest) == Some((line, rest))
  {
    var cr := line + ['\r'];
    assert line + "\r\n" + rest == cr + ['\n'] + rest;
    SplitAtFirst(cr, '\n', rest);
    assert cr[..|cr| - 1] == line;
  }

  lemma TokenHasNo(s: string, c: char)
    requires IsToken(s) && !IsTokenChar(c)
    ensures c !in s
  {
  }

  lemma ReadPrintedField(h: Header)
    requires IsToken(h.name) && IsFieldValue(h.value)
    ensures ReadField(h.name + ": " + h.value) == Some((Lower(h.name), Strip(h.value)))
    ensures '\n' !in h.name + ": " + h.value
  {
    TokenHasNo(h.name, ':');
    TokenHasNo(h.name, '\n');
    assert h.name + ": " + h.value == h.name + [':'] + ([' '] + h.value);
    SplitAtFirst(h.name, ':', [' '] + h.value);
    StripPrinted(h.value);
  }

  function Stripped(order: seq<Header>): seq<Header> {
    if order == [] then [] else [Header(order[0].name, Strip(order[0].value))] + Stripped(order[1..])
  }

  lemma ReadOneField(h: Header, rest: string, fields: Headers)
    requires IsToken(h.name) && IsFieldValue(h.value) && h.name !in fields && Lower(h.name) == h.name
    ensures ReadFields(PrintHeader(h) + rest, fields) == ReadFields(rest, fields[h.name := Strip(h.value)])
  {
    var line := h.name + ": " + h.value;
    ReadPrintedField(h);
    NextPrintedLine(line, rest);
    assert PrintHeader(h) == line + "\r\n";
    assert |line| > 0;
  }

  /** Printed headers of different names are read as their names with their stripped values. */
  lemma {:induction false} ReadPrintedFields(order: seq<Header>, rest: string, fields: Headers)
    requires forall i | 0 <= i < |order| :: IsToken(order[i].name) && IsFieldValue(order[i].value)
    requires forall i | 0 <= i < |order| :: Lower(order[i].name) == order[i].name && order[i].name !in fields
    requires forall i, j | 0 <= i < j < |order| :: order[i].name != order[j].name
    ensures ReadFields(PrintHeaders(order) + ("\r\n" + rest), fields) == Ok((LastValues(Stripped(order), fields), rest))
    decreases |order|
  {
    var end := "\r\n" + rest;
    if order == [] {
      assert PrintHeaders(order) + end == [] + "\r\n" + rest;
      NextPrintedLine([], rest);
    } else {
      var h, more := order[0], PrintHeaders(order[1..]) + end;
      Associate(PrintHeader(h), PrintHeaders(order[1..]), end);
      ReadOneField(h, more, fields);
      ReadPrintedFields(order[1..], rest, fields[h.name := Strip(h.value)]);
      assert Stripped(order)[1..] == Stripped(order[1..]);
    }
  }

  lemma {:induction false} StrippedAt(order: seq<Header>, k: nat)
    requires k < |order|
    ensures |Stripped(order)| == |order| && Stripped(order)[k] == Header(order[k].name, Strip(order[k].value))
  {
    if |order| > 1 {
      StrippedAt(order[1..], if k > 0 then k - 1 else 0);
    }
  }

  function StripValues(fields: Headers): Headers {
    map name | name in fields :: Strip(fields[name])
  }

  lemma StrippedOrder(order: seq<Header>, fields: Headers)
    requires OrderOf(order, fields)
    ensures OrderOf(Stripped(order), StripValues(fields))
  {
    var s := Stripped(order);
    if order != [] {
      StrippedAt(order, 0);
    }
    forall i | 0 <= i < |order|
      ensures s[i] == Header(order[i].name, Strip(order[i].value))
    {
      StrippedAt(order, i);
    }
    forall name | name in StripValues(fields)
      ensures Lists(s, name)
    {
      assert Lists(order, name);
      var i :| 0 <= i < |order| && order[i].name == name;
      assert s[i].name == name;
    }
  }

  /** Whatever the order of the map, its printable fields are read with their stripped values. */
  lemma FieldsReadStripped(order: seq<Header>, fields: Headers, rest: string)
    requires OrderOf(order, fields) && Printable(fields) && Lowered(fields)
    ensures ReadFields(PrintHeaders(order) + ("\r\n" + rest), map[]) == Ok((StripValues(fields), rest))
  {
    ReadPrintedFields(order, rest, map[]);
    StrippedOrder(order, fields);
    forall i | 0 <= i < |Stripped(order)|
      ensures Lower(Stripped(order)[i].name) == Stripped(order)[i].name
    {
      assert Stripped(order)[i].name in StripValues(fields);
    }
    OrderReadsBack(Stripped(order), StripValues(fields), map[]);
  }

  // Exactly which responses come through

  /** A field that can stand on a line and has no white space around its value. */
  predicate Clean(name: string, value: string) {
    IsToken(name) && IsFieldValue(value) && IsStripped(value)
  }

  ghost predicate AllClean(fields: Headers) {
    forall name | name in fields :: Clean(name, fields[name])
  }

  /** Printed fields are read as they are exactly if they are all clean. */
  lemma FieldsReadBackExactly(order: seq<Header>, fields: Headers, rest: string)
    requires OrderOf(order, fields) && Lowered(fields)
    ensures var r := ReadFields(PrintHeaders(order) + ("\r\n" + rest), map[]);
            && (r.Ok? && r.value.0 == fields <==> AllClean(fields))
            && (AllClean(fields) ==> r == Ok((fields, rest)))
  {
    ReadFieldsPrintable(PrintHeaders(order) + ("\r\n" + rest), map[]);
    if Printable(fields) {
      FieldsReadStripped(order, fields, rest);
      StrippedIsSameExactly(fields);
    }
  }

  lemma StrippedIsSameExactly(fields: Headers)
    requires Printable(fields)
    ensures StripValues(fields) == fields <==> AllClean(fields)
  {
    forall name | name in fields
      ensures StripValues(fields)[name] == fields[name] <==> IsStripped(fields[name])
    {
      StripExactly(fields[name]);
    }
  }

  lemma StatusTextParts(status: Status)
    ensures var s := StatusText(status);
            |s| > 4 && AllDigits(s[..3]) && s[3] == ' ' && '\n' !in s
  {
  }

  function CodeOf(status: Status): string {
    StatusTextParts(status);
    StatusText(status)[..3]
  }

  function ReasonOf(status: Status): string {
    StatusTextParts(status);
    StatusText(status)[4..]
  }

  lemma WordsParse(version: string, code: string, reason: string)
    requires version == "HTTP/1.1" && ' ' !in version
    requires |code| == 3 && AllDigits(code)
    ensures ReadStatusLine(version + [' '] + (code + [' '] + reason)) == Some((code, reason))
  {
    SplitAtFirst(version, ' ', code + [' '] + reason);
    SplitAtFirst(code, ' ', reason);
  }

  lemma StatusLineReads(status: Status, after: string)
    ensures var s := "HTTP/1.1 " + StatusText(status) + "\r\n" + after;
            && NextLine(s).Some? && NextLine(s).value.1 == after
            && ReadStatusLine(NextLine(s).value.0) == Some((CodeOf(status), ReasonOf(status)))
  {
    var version := "HTTP/1.1";
    var text := StatusText(status);
    StatusTextParts(status);
    assert ' ' !in version && '\n' !in version && "HTTP/1.1 " == version + [' '];
    assert text == CodeOf(status) + [' '] + ReasonOf(status);
    var line := version + [' '] + text;
    NextPrintedLine(line, after);
    WordsParse(version, CodeOf(status), ReasonOf(status));
  }

  /**
   * After any builder calls, and for any order of the headers, a client reads the head of the response
   * as the last status and every header with its last value, and leaves what follows, exactly if all
   * headers that are sent are clean.
   */
  lemma HeadReadsBackExactly(calls: seq<Call>, order: seq<Header>, rest: string)
    requires OrderOf(order, SentHeaders(DoAll(BLANK, calls)))
    ensures var draft := DoAll(BLANK, calls);
            var head := ReadHead(Assemble(draft.status, PrintHeaders(order), rest));
            && (head.Ok? && head.value.fields == SentHeaders(draft) <==> AllClean(SentHeaders(draft)))
            && (AllClean(SentHeaders(draft)) ==>
                  head == Ok(ResponseHead(CodeOf(draft.status), ReasonOf(draft.status), SentHeaders(draft), rest)))
  {
    var draft := DoAll(BLANK, calls);
    SentAreLowered(BLANK, calls);
    StatusLineReads(draft.status, PrintHeaders(order) + ("\r\n" + rest));
    FieldsReadBackExactly(order, SentHeaders(draft), rest);
  }

  lemma SameLengthKey()
    ensures Lower(CONTENT_LENGTH) == "content-length"
  {
    LowerIs(CONTENT_LENGTH, "content-length");
  }

  /** No transfer coding is announced, and a response without a body announces no length but zero. */
  predicate Framed(fields: Headers, body: Option<string>) {
    && "transfer-encoding" !in fields
    && (body.None? && "content-length" in fields ==>
          fields["content-length"] != [] && AllDigits(fields["content-length"]) && Number(fields["content-length"]) == 0)
  }

  lemma LengthIsSent(draft: Draft)
    requires draft.body.Some?
    ensures "content-length" in SentHeaders(draft)
    ensures SentHeaders(draft)["content-length"] == Decimal(|draft.body.value|)
  {
    SameLengthKey();
  }

  lemma BodyReadsBackExactly(fields: Headers, body: Option<string>)
    requires body.Some? ==> "content-length" in fields && fields["content-length"] == Decimal(|body.value|)
    ensures ReadBody(fields, BodyText(body)) == Ok(BodyText(body)) <==> Framed(fields, body)
  {
    if body.Some? {
      DecimalIsNumber(|body.value|);
      assert body.value[..|body.value|] == body.value;
    }
  }

  lemma HeadThenBody(s: string, head: ResponseHead, clean: bool, framed: bool)
    requires ReadHead(s).Ok? && ReadHead(s).value.fields == head.fields <==> clean
    requires clean ==> ReadHead(s) == Ok(head)
    requires ReadBody(head.fields, head.rest) == Ok(head.rest) <==> framed
    ensures ReadResponse(s) == Ok(Response(head.code, head.reason, head.fields, head.rest)) <==> clean && framed
  {
  }

  /**
   * A client reads a built response back, with its body, exactly if the headers that are sent are
   * clean and announce no transfer coding and no wrong length. With a body the length cannot be wrong.
   */
  lemma BuiltResponseReadsBack(calls: seq<Call>, order: seq<Header>)
    requires OrderOf(order, SentHeaders(DoAll(BLANK, calls)))
    ensures var draft := DoAll(BLANK, calls);
            ReadResponse(Render(draft.status, order, draft.body))
            == Ok(Response(CodeOf(draft.status), ReasonOf(draft.status), SentHeaders(draft), BodyText(draft.body))) <==>
            AllClean(SentHeaders(draft)) && Framed(SentHeaders(draft), draft.body)
  {
    var draft := DoAll(BLANK, calls);
    var body := BodyText(draft.body);
    HeadReadsBackExactly(calls, order, body);
    if draft.body.Some? {
      LengthIsSent(draft);
    }
    BodyReadsBackExactly(SentHeaders(draft), draft.body);
    var head := ResponseHead(CodeOf(draft.status), ReasonOf(draft.status), SentHeaders(draft), body);
    HeadThenBody(Render(draft.status, order, draft.body), head,
                 AllClean(SentHeaders(draft)), Framed(SentHeaders(draft), draft.body));
  }

  /** The length that a client reads is the body's, even when a caller had set another one. */
  lemma AnnouncedLengthIsBodys(calls: seq<Call>, order: seq<Header>)
    requires OrderOf(order, SentHeaders(DoAll(BLANK, calls)))
    ensures var draft := DoAll(BLANK, calls);
            var head := ReadHead(Render(draft.status, order, draft.body));
            draft.body.Some? && AllClean(SentHeaders(draft)) ==>
              && head.Ok? && "content-length" in head.value.fields
              && AllDigits(head.value.fields["content-length"])
              && Number(head.value.fields["content-length"]) == |draft.body.value|
              && head.value.rest == draft.body.value
  {
    var draft := DoAll(BLANK, calls);
    HeadReadsBackExactly(calls, order, BodyText(draft.body));
    if draft.body.Some? {
      LengthIsSent(draft);
      DecimalIsNumber(|draft.body.value|);
    }
  }

  // What callers have to see to

  lemma CleanLength(n: nat)
    ensures IsFieldValue(Decimal(n)) && IsStripped(Decimal(n))
  {
  }

  lemma ContentLengthIsToken()
    ensures IsToken(Lower(CONTENT_LENGTH))
  {
    var name := "content-length";
    assert IsToken(name);
    SameLengthKey();
  }

  lemma ContentTypeIsToken()
    ensures IsToken(CONTENT_TYPE)
  {
  }

  predicate CleanCalls(calls: seq<Call>) {
    forall i | 0 <= i < |calls| && calls[i].SetHeader? :: Clean(calls[i].header.name, calls[i].header.value)
  }

  lemma MediaTypesFit(call: Call)
    requires MediaType(call).Some?
    ensures var value := MediaType(call).value;
            IsFieldValue(value) && |value| > 0 && !IsOws(value[0])
  {
  }

  lemma CharsetFits()
    ensures IsFieldValue(CHARSET) && |CHARSET| > 0 && !IsOws(CHARSET[|CHARSET| - 1])
  {
  }

  lemma JoinedFits(a: string, b: string)
    requires IsFieldValue(a) && a != [] && !IsOws(a[0])
    requires IsFieldValue(b) && b != [] && !IsOws(b[|b| - 1])
    ensures IsFieldValue(a + b) && IsStripped(a + b)
  {
  }

  lemma HeadersOfCallsFit(call: Call)
    requires call.SetHeader? ==> Clean(call.header.name, call.header.value)
    ensures HeaderOf(call) != [] ==> Clean(HeaderOf(call)[0].name, HeaderOf(call)[0].value)
  {
    if !call.SetHeader? && MediaType(call).Some? {
      MediaTypesFit(call);
      CharsetFits();
      JoinedFits(MediaType(call).value, CHARSET);
      ContentTypeIsToken();
    }
  }

  lemma PutKeepsClean(fields: Headers, puts: seq<Header>, after: Headers)
    requires AllClean(fields) && (puts != [] ==> Clean(puts[0].name, puts[0].value))
    requires after == if puts == [] then fields else fields[Lower(puts[0].name) := puts[0].value]
    ensures AllClean(after)
  {
    if puts != [] {
      LowerTokenIsToken(puts[0].name);
    }
  }

  lemma DoKeepsClean(draft: Draft, call: Call)
    requires AllClean(draft.headers) && (call.SetHeader? ==> Clean(call.header.name, call.header.value))
    ensures AllClean(Do(draft, call).headers)
  {
    DoPuts(draft, call);
    HeadersOfCallsFit(call);
    PutKeepsClean(draft.headers, HeaderOf(call), Do(draft, call).headers);
  }

  /** If every header that callers set is clean, all headers that are sent are. */
  lemma {:induction false} CleanCallsSendClean(draft: Draft, calls: seq<Call>)
    requires AllClean(draft.headers) && CleanCalls(calls)
    ensures AllClean(SentHeaders(DoAll(draft, calls)))
    decreases |calls|
  {
    if calls == [] {
      if draft.body.Some? {
        CleanLength(|draft.body.value|);
        ContentLengthIsToken();
      }
    } else {
      DoKeepsClean(draft, calls[0]);
      CleanCallsSendClean(Do(draft, calls[0]), calls[1..]);
    }
  }

  lemma EventStreamDraft()
    ensures var draft := DoAll(BLANK, [ContentEventStream]);
            draft.status == OK && draft.body == None && forall name | name in draft.headers :: |name| == 12
  {
    assert [ContentEventStream][1..] == [];
    DoPuts(BLANK, ContentEventStream);
  }

  /** What is written after the head of an event stream is, for a client, the body of the response. */
  lemma StreamFollowsHead(order: seq<Header>, stream: string)
    requires OrderOf(order, SentHeaders(DoAll(BLANK, [ContentEventStream])))
    ensures ReadResponse(Render(OK, order, None) + stream)
         == Ok(Response(CodeOf(OK), ReasonOf(OK), SentHeaders(DoAll(BLANK, [ContentEventStream])), stream))
  {
    var calls := [ContentEventStream];
    var draft := DoAll(BLANK, calls);
    EventStreamDraft();
    CleanCallsSendClean(BLANK, calls);
    HeadReadsBackExactly(calls, order, stream);
    AppendToEmptyBody(PrintHeaders(order), stream);
    UnframedBody(SentHeaders(draft), stream);
  }

  lemma UnframedBody(fields: Headers, rest: string)
    requires forall name | name in fields :: |name| == 12
    ensures ReadBody(fields, rest) == Ok(rest)
  {
  }

  lemma AppendToEmptyBody(lines: string, stream: string)
    ensures Assemble(OK, lines, "") + stream == Assemble(OK, lines, stream)
  {
  }

  // What a client reads, as text

  /** The status line of a response is read as the code and the reason that RFC 9110 gives to the status. */
  lemma StatusIsRead(calls: seq<Call>, order: seq<Header>, rest: string)
    requires OrderOf(order, SentHeaders(DoAll(BLANK, calls))) && AllClean(SentHeaders(DoAll(BLANK, calls)))
    ensures var draft := DoAll(BLANK, calls);
            var head := ReadHead(Assemble(draft.status, PrintHeaders(order), rest));
            && head.Ok?
            && match draft.status
               case OK => head.value.code == "200" && head.value.reason == "OK"
               case BadRequest => head.value.code == "400" && head.value.reason == "Bad Request"
               case SeeOther => head.value.code == "303" && head.value.reason == "See Other"
               case InternalServerError => head.value.code == "500" && head.value.reason == "Internal Server Error"
  {
    HeadReadsBackExactly(calls, order, rest);
    StatusParts(DoAll(BLANK, calls).status);
  }

  lemma StatusParts(status: Status)
    ensures match status
            case OK => CodeOf(status) == "200" && ReasonOf(status) == "OK"
            case BadRequest => CodeOf(status) == "400" && ReasonOf(status) == "Bad Request"
            case SeeOther => CodeOf(status) == "303" && ReasonOf(status) == "See Other"
            case InternalServerError => CodeOf(status) == "500" && ReasonOf(status) == "Internal Server Error"
  {
  }

  /** Calls that set no status make a response that is read as 200 OK. */
  lemma UnsetStatusIsRead(calls: seq<Call>, order: seq<Header>, rest: string)
    requires OrderOf(order, SentHeaders(DoAll(BLANK, calls))) && AllClean(SentHeaders(DoAll(BLANK, calls)))
    requires forall i | 0 <= i < |calls| :: !calls[i].SetStatus?
    ensures var head := ReadHead(Assemble(DoAll(BLANK, calls).status, PrintHeaders(order), rest));
            head.Ok? && head.value.code == "200" && head.value.reason == "OK"
  {
    StatusOfCalls(calls, |calls|);
    StatusIsRead(calls, order, rest);
  }

  /** The content type that a client reads after the last of the four setters, when nothing follows it. */
  lemma ContentTypeIsRead(calls: seq<Call>, call: Call, order: seq<Header>, rest: string)
    requires OrderOf(order, SentHeaders(DoAll(BLANK, calls + [call])))
    requires AllClean(SentHeaders(DoAll(BLANK, calls + [call]))) && ContentTypeText(call) != ""
    ensures var head := ReadHead(Assemble(DoAll(BLANK, calls + [call]).status, PrintHeaders(order), rest));
            head.Ok? && "content-type" in head.value.fields && head.value.fields["content-type"] == ContentTypeText(call)
  {
    var draft := DoAll(BLANK, calls + [call]);
    HeadReadsBackExactly(calls + [call], order, rest);
    ContentTypeOfCalls(calls, call);
    assert |"content-type"| != |CONTENT_LENGTH|;
    OtherIsSent(draft, "content-type");
  }

  lemma OtherIsSent(draft: Draft, name: string)
    requires name in draft.headers && |name| != |CONTENT_LENGTH|
    ensures name in SentHeaders(draft) && SentHeaders(draft)[name] == draft.headers[name]
  {
    PutKeeps(draft.headers, Lower(CONTENT_LENGTH), BodyText(draft.body), name);
  }

  lemma PutKeeps(headers: Headers, key: string, text: string, name: string)
    requires name in headers && |name| != |key|
    ensures name in headers[key := Decimal(|text|)] && headers[key := Decimal(|text|)][name] == headers[name]
  {
  }
}

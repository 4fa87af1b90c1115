/** The response builder, and what its calls amount to. */
module HttpResponse {
  import opened Wrappers
  import opened Text
  import opened HttpRequest

  datatype Status = OK | BadRequest | SeeOther | InternalServerError

  function StatusText(status: Status): string {
    match status
    case OK => "200 OK"
    case BadRequest => "400 Bad Request"
    case SeeOther => "303 See Other"
    case InternalServerError => "500 Internal Server Error"
  }

  /** What has been set so far; header names are kept lowered. */
  datatype Draft = Draft(status: Status, headers: Headers, body: Option<string>)

  const BLANK := Draft(OK, map[], None)

  datatype Call =
    | SetStatus(status: Status)
    | SetHeader(header: Header)
    | SetBody(body: string)
    | ContentText
    | ContentHtml
    | ContentJson
    | ContentEventStream

  const CHARSET := "; charset=utf-8"
  const CONTENT_LENGTH := "Content-Length"
  const CONTENT_TYPE := "Content-Type"

  function MediaType(call: Call): Option<string> {
    match call
    case ContentText => Some("text/plain")
    case ContentHtml => Some("text/html")
    case ContentJson => Some("application/json")
    case ContentEventStream => Some("text/event-stream")
    case _ => None
  }

  function ContentType(call: Call): Option<string> {
    match MediaType(call) case Some(t) => Some(t + CHARSET) case None => None
  }

  /** The header that the call sets, if any. */
  function HeaderOf(call: Call): seq<Header> {
    if call.SetHeader? then [call.header]
    else if ContentType(call).Some? then [Header(CONTENT_TYPE, ContentType(call).value)]
    else []
  }

  function Do(draft: Draft, call: Call): Draft {
    match call
    case SetStatus(status) => draft.(status := status)
    case SetBody(body) => draft.(body := Some(body))
    case _ => draft.(headers := LastValues(HeaderOf(call), draft.headers))
  }

  function DoAll(draft: Draft, calls: seq<Call>): Draft
    decreases |calls|
  {
    if calls == [] then draft else DoAll(Do(draft, calls[0]), calls[1..])
  }

  /** The headers that are sent: with a body, its length replaces whatever was set. */
  function SentHeaders(draft: Draft): Headers {
    match draft.body
    case None => draft.headers
    case Some(body) => draft.headers[Lower(CONTENT_LENGTH) := Decimal(|body|)]
  }

  ghost predicate Lists(order: seq<Header>, name: string) {
    exists i :: 0 <= i < |order| && order[i].name == name
  }

  /** The iteration order of a map: all of its entries, each once. */
  ghost predicate OrderOf(order: seq<Header>, headers: Headers) {
    && (forall i | 0 <= i < |order| :: order[i].name in headers && headers[order[i].name] == order[i].value)
    && (forall name | name in headers :: Lists(order, name))
    && (forall i, j | 0 <= i < j < |order| :: order[i].name != order[j].name)
  }

  function BodyText(body: Option<string>): string {
    match body case None => "" case Some(b) => b
  }

  /** Status line, header lines, empty line and what follows it, in one piece. */
  function Assemble(status: Status, lines: string, rest: string): string {
    "HTTP/1.1 " + StatusText(status) + "\r\n" + (lines + ("\r\n" + rest))
  }

  function Render(status: Status, order: seq<Header>, body: Option<string>): string {
    Assemble(status, PrintHeaders(order), BodyText(body))
  }

  class HttpResponseBuilder {
    var status: Status
    var headers: Headers
    var body: Option<string>

    ghost function Contents(): Draft
      reads this
    {
      Draft(status, headers, body)
    }

    constructor ()
      ensures Contents() == BLANK
    {
      status, headers, body := OK, map[], None;
    }

    method SetStatus(status: Status)
      modifies this
      ensures Contents() == Do(old(Contents()), Call.SetStatus(status))
    {
      this.status := status;
    }

    method SetHeader(header: Header)
      modifies this
      ensures Contents() == Do(old(Contents()), Call.SetHeader(header))
    {
      LastOfOne(header, headers);
      headers := headers[Lower(header.name) := header.value];
    }

    method SetBody(body: string)
      modifies this
      ensures Contents() == Do(old(Contents()), Call.SetBody(body))
    {
      this.body := Some(body);
    }

    /** The four setters of the content type. */
    method SetContent(call: Call)
      requires ContentType(call).Some?
      modifies this
      ensures Contents() == Do(old(Contents()), call)
    {
      SetHeader(Header(CONTENT_TYPE, ContentType(call).value));
    }

    /** With a body, sets its length whatever was set before. */
    method InsertLength()
      modifies this
      ensures Contents() == old(Contents()).(headers := SentHeaders(old(Contents())))
    {
      if body.Some? {
        headers := headers[Lower(CONTENT_LENGTH) := Decimal(|body.value|)];
      }
    }

    /** Sets the length of the body, then prints the headers in whatever order the map yields them. */
    method Build() returns (response: string)
      modifies this
      ensures Contents() == old(Contents()).(headers := SentHeaders(old(Contents())))
      ensures exists order ::
                OrderOf(order, SentHeaders(old(Contents()))) && response == Render(old(status), order, old(body))
    {
      InsertLength();
      var lines := PrintMap(headers);
      response := Assemble(status, lines, BodyText(body));
    }

    /** Prints the entries one by one as the map yields them. */
    static method PrintMap(headers: Headers) returns (lines: string)
      ensures exists order :: OrderOf(order, headers) && lines == PrintHeaders(order)
    {
      lines := "";
      ghost var order := [];
      var left := headers.Keys;
      while left != {}
        invariant left <= headers.Keys
        invariant OrderOf(order, headers - left)
        invariant lines == PrintHeaders(order)
        decreases left
      {
        var name :| name in left;
        var line := name + ": " + headers[name] + "\r\n";
        ExtendOrder(order, headers - left, name, headers[name]);
        assert headers - (left - {name}) == (headers - left)[name := headers[name]];
        PrintOneMore(order, Header(name, headers[name]));
        left := left - {name};
        lines := lines + line;
        order := order + [Header(name, headers[name])];
      }
      assert headers - left == headers;
    }
  }

  lemma LastOfOne(h: Header, earlier: Headers)
    ensures LastValues([h], earlier) == earlier[Lower(h.name) := h.value]
  {
  }

  lemma ExtendOrder(order: seq<Header>, headers: Headers, name: string, value: string)
    requires OrderOf(order, headers) && name !in headers
    ensures OrderOf(order + [Header(name, value)], headers[name := value])
  {
    var more, all := order + [Header(name, value)], headers[name := value];
    forall n | n in all
      ensures Lists(more, n)
    {
      if n == name {
        assert more[|order|].name == n;
      } else {
        assert Lists(order, n);
        var i :| 0 <= i < |order| && order[i].name == n;
        assert more[i].name == n;
      }
    }
  }

  lemma {:induction false} PrintHeadersConcat(a: seq<Header>, b: seq<Header>)
    ensures PrintHeaders(a + b) == PrintHeaders(a) + PrintHeaders(b)
  {
    if a == [] {
      assert a + b == b;
    } else {
      assert (a + b)[1..] == a[1..] + b;
      PrintHeadersConcat(a[1..], b);
      Associate(PrintHeader(a[0]), PrintHeaders(a[1..]), PrintHeaders(b));
    }
  }

  lemma PrintOneMore(order: seq<Header>, h: Header)
    ensures PrintHeaders(order + [h]) == PrintHeaders(order) + PrintHeader(h)
  {
    PrintHeadersConcat(order, [h]);
    assert PrintHeaders([h]) == PrintHeader(h) + [];
  }

  // The headers that are sent

  /** Header names are kept lowered. */
  ghost predicate Lowered(headers: Headers) {
    forall name | name in headers :: Lower(name) == name
  }

  lemma DoKeepsLowered(draft: Draft, call: Call)
    requires Lowered(draft.headers)
    ensures Lowered(Do(draft, call).headers)
  {
    DoPuts(draft, call);
    if HeaderOf(call) != [] {
      LowerTwice(HeaderOf(call)[0].name);
    }
  }

  lemma {:induction false} SentAreLowered(draft: Draft, calls: seq<Call>)
    requires Lowered(draft.headers)
    ensures Lowered(SentHeaders(DoAll(draft, calls)))
    decreases |calls|
  {
    if calls == [] {
      LowerTwice(CONTENT_LENGTH);
    } else {
      DoKeepsLowered(draft, calls[0]);
      SentAreLowered(Do(draft, calls[0]), calls[1..]);
    }
  }

  /** Reading the entries of a map in any order gives the map. */
  lemma {:induction false} OrderReadsBack(order: seq<Header>, headers: Headers, earlier: Headers)
    requires forall i | 0 <= i < |order| :: Lower(order[i].name) == order[i].name
    requires forall i, j | 0 <= i < j < |order| :: order[i].name != order[j].name
    requires forall i | 0 <= i < |order| :: order[i].name in headers && headers[order[i].name] == order[i].value
    requires forall name | name in earlier :: name in headers && headers[name] == earlier[name]
    requires forall name | name in headers && name !in earlier :: Lists(order, name)
    ensures LastValues(order, earlier) == headers
    decreases |order|
  {
    if order != [] {
      var next := earlier[order[0].name := order[0].value];
      forall name | name in headers && name !in next
        ensures Lists(order[1..], name)
      {
        assert Lists(order, name);
        var i :| 0 <= i < |order| && order[i].name == name;
        assert order[1..][i - 1].name == name;
      }
      OrderReadsBack(order[1..], headers, next);
    }
  }

  // What the calls amount to

  function LastStatus(calls: seq<Call>): Status {
    if calls == [] then OK
    else if calls[|calls| - 1].SetStatus? then calls[|calls| - 1].status
    else LastStatus(calls[..|calls| - 1])
  }

  function LastBody(calls: seq<Call>): Option<string> {
    if calls == [] then None
    else if calls[|calls| - 1].SetBody? then Some(calls[|calls| - 1].body)
    else LastBody(calls[..|calls| - 1])
  }

  function LastHeader(calls: seq<Call>, name: string): Option<string> {
    if calls == [] then None
    else
      var latest := HeaderOf(calls[|calls| - 1]);
      if latest != [] && Lower(latest[0].name) == name then Some(latest[0].value)
      else LastHeader(calls[..|calls| - 1], name)
  }

  lemma {:induction false} DoAllSnoc(draft: Draft, calls: seq<Call>, call: Call)
    ensures DoAll(draft, calls + [call]) == Do(DoAll(draft, calls), call)
    decreases |calls|
  {
    if calls == [] {
      assert calls + [call] == [call] && [call][1..] == [];
    } else {
      assert (calls + [call])[1..] == calls[1..] + [call];
      DoAllSnoc(Do(draft, calls[0]), calls[1..], call);
    }
  }

  lemma DoPuts(draft: Draft, call: Call)
    ensures Do(draft, call).headers
         == if HeaderOf(call) == [] then draft.headers
            else draft.headers[Lower(HeaderOf(call)[0].name) := HeaderOf(call)[0].value]
  {
    if HeaderOf(call) != [] {
      assert HeaderOf(call) == [HeaderOf(call)[0]];
      LastOfOne(HeaderOf(call)[0], draft.headers);
    }
  }

  /** The draft holds the status, the body and each header of the last call that set it. */
  lemma {:induction false} LastCallsCount(calls: seq<Call>, name: string)
    ensures var draft := DoAll(BLANK, calls);
            && draft.status == LastStatus(calls) && draft.body == LastBody(calls)
            && LastHeader(calls, name) == if name in draft.headers then Some(draft.headers[name]) else None
  {
    if calls != [] {
      var front, last := calls[..|calls| - 1], calls[|calls| - 1];
      assert calls == front + [last];
      LastCallsCount(front, name);
      DoAllSnoc(BLANK, front, last);
      DoPuts(DoAll(BLANK, front), last);
    }
  }

  /** Without a call that sets the status it is 200 OK; otherwise that of the last such call. */
  lemma {:induction false} StatusOfCalls(calls: seq<Call>, i: nat)
    requires i <= |calls| && (forall j | i < j < |calls| :: !calls[j].SetStatus?)
    requires i < |calls| ==> calls[i].SetStatus?
    requires i == |calls| ==> forall j | 0 <= j < |calls| :: !calls[j].SetStatus?
    ensures DoAll(BLANK, calls).status == if i < |calls| then calls[i].status else OK
    decreases |calls|
  {
    if calls != [] && i != |calls| - 1 {
      var n := |calls| - 1;
      StatusOfCalls(calls[..n], if i < n then i else n);
      assert calls == calls[..n] + [calls[n]];
      DoAllSnoc(BLANK, calls[..n], calls[n]);
    } else if calls != [] {
      assert calls == calls[..i] + [calls[i]];
      DoAllSnoc(BLANK, calls[..i], calls[i]);
    }
  }

  /** The content types as text. */
  function ContentTypeText(call: Call): string {
    match call
    case ContentText => "text/plain; charset=utf-8"
    case ContentHtml => "text/html; charset=utf-8"
    case ContentJson => "application/json; charset=utf-8"
    case ContentEventStream => "text/event-stream; charset=utf-8"
    case _ => ""
  }

  lemma ContentTypeIsText(call: Call)
    requires ContentTypeText(call) != ""
    ensures ContentType(call) == Some(ContentTypeText(call))
  {
    if call.ContentText? || call.ContentHtml? {
      PageTypesAreText();
    } else {
      DataTypesAreText();
    }
  }

  lemma PageTypesAreText()
    ensures "text/plain" + CHARSET == "text/plain; charset=utf-8"
    ensures "text/html" + CHARSET == "text/html; charset=utf-8"
  {
  }

  lemma DataTypesAreText()
    ensures "application/json" + CHARSET == "application/json; charset=utf-8"
    ensures "text/event-stream" + CHARSET == "text/event-stream; charset=utf-8"
  {
  }

  lemma ContentTypeKey()
    ensures Lower(CONTENT_TYPE) == "content-type"
  {
    LowerIs(CONTENT_TYPE, "content-type");
  }

  /** Each of the four setters leaves its content type. */
  lemma ContentTypeOfCalls(calls: seq<Call>, call: Call)
    requires ContentTypeText(call) != ""
    ensures var headers := DoAll(BLANK, calls + [call]).headers;
            "content-type" in headers && headers["content-type"] == ContentTypeText(call)
  {
    ContentTypeIsText(call);
    ContentTypeKey();
    DoAllSnoc(BLANK, calls, call);
    DoPuts(DoAll(BLANK, calls), call);
  }
}

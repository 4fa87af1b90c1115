/**
 * The event stream writer, and a client that reads it by section 9.2.6 of the WHATWG HTML
 * Standard. Strings are sequences of characters; the HTTP response head is not part of the stream.
 */
module EventStream {
  import opened Wrappers
  import opened Text

  datatype EventSourceEvent = EventSourceEvent(data: string, id: string, event: Option<string>)

  datatype Item = Event(event: EventSourceEvent) | KeepAlive

  // The writer

  /** The lines of a text: split at LF, a CR before it dropped, no empty line after the last LF. */
  function TextLines(s: string): seq<string>
    decreases |s|
  {
    if s == [] then []
    else
      SplitOnceSplits(s, '\n');
      match SplitOnce(s, '\n')
      case None => [s]
      case Some((line, rest)) => [DropCr(line)] + TextLines(rest)
  }

  function DropCr(line: string): string {
    if line != [] && line[|line| - 1] == '\r' then line[..|line| - 1] else line
  }

  function WriteData(lines: seq<string>): string {
    if lines == [] then [] else "data: " + lines[0] + "\n" + WriteData(lines[1..])
  }

  function WriteEvent(e: EventSourceEvent): string {
    (match e.event case Some(t) => "event: " + t + "\n" case None => "") +
    WriteData(TextLines(e.data)) + "id: " + e.id + "\n" + "\n"
  }

  function WriteItem(item: Item): string {
    match item
    case Event(e) => WriteEvent(e)
    case KeepAlive => ": keep-alive\n"
  }

  function WriteItems(items: seq<Item>): string {
    if items == [] then [] else WriteItem(items[0]) + WriteItems(items[1..])
  }

  function Signed(n: int): string {
    if n < 0 then "-" + Decimal(-n) else Decimal(n)
  }

  function WriteRetry(retry: Option<int>): string {
    match retry
    case Some(n) => "retry: " + Signed(n) + "\n"
    case None => ""
  }

  lemma {:induction false} WriteDataConcat(a: seq<string>, b: seq<string>)
    ensures WriteData(a + b) == WriteData(a) + WriteData(b)
  {
    if a == [] {
      assert a + b == b;
    } else {
      assert (a + b)[1..] == a[1..] + b;
      WriteDataConcat(a[1..], b);
      var head := "data: " + a[0] + "\n";
      assert head + (WriteData(a[1..]) + WriteData(b)) == head + WriteData(a[1..]) + WriteData(b);
    }
  }

  lemma WriteDataLine(lines: seq<string>, i: nat)
    requires i < |lines|
    ensures WriteData(lines[..i + 1]) == WriteData(lines[..i]) + ("data: " + lines[i] + "\n")
  {
    assert lines[..i + 1] == lines[..i] + [lines[i]];
    WriteDataConcat(lines[..i], [lines[i]]);
    assert WriteData([lines[i]]) == "data: " + lines[i] + "\n" + [];
  }

  /** Builds the text of one event. */
  method SendEvent(e: EventSourceEvent) returns (response: string)
    ensures response == WriteEvent(e)
  {
    response := "";
    if e.event.Some? {
      response := response + ("event: " + e.event.value + "\n");
    }
    ghost var head := response;
    var lines := TextLines(e.data);
    for i := 0 to |lines|
      invariant response == head + WriteData(lines[..i])
    {
      WriteDataLine(lines, i);
      Associate(head, WriteData(lines[..i]), "data: " + lines[i] + "\n");
      response := response + ("data: " + lines[i] + "\n");
    }
    assert lines[..|lines|] == lines;
    response := response + ("id: " + e.id + "\n");
    response := response + "\n";
  }

  /** What wakes the writer up: the keep-alive timer, the client's side of the connection, or the queue of events. */
  datatype Wake = Timer | ClientGone | Received(event: EventSourceEvent) | QueueEnded

  function ItemOf(wake: Wake): Item
    requires wake.Timer? || wake.Received?
  {
    if wake.Timer? then KeepAlive else Event(wake.event)
  }

  /** The items written before the loop ends. */
  function Written(wakes: seq<Wake>): seq<Item> {
    if wakes == [] || wakes[0].ClientGone? || wakes[0].QueueEnded? then []
    else [ItemOf(wakes[0])] + Written(wakes[1..])
  }

  method HandleEventStream(retry: Option<int>, wakes: seq<Wake>) returns (written: string)
    ensures written == WriteRetry(retry) + WriteItems(Written(wakes))
  {
    written := "";
    if retry.Some? {
      written := written + ("retry: " + Signed(retry.value) + "\n");
    }
    ghost var all := written + WriteItems(Written(wakes));
    var i := 0;
    assert wakes[0..] == wakes;
    while i < |wakes| && !wakes[i].ClientGone? && !wakes[i].QueueEnded?
      invariant i <= |wakes|
      invariant all == written + WriteItems(Written(wakes[i..]))
    {
      WrittenNext(wakes, i);
      Associate(written, WriteItem(ItemOf(wakes[i])), WriteItems(Written(wakes[i + 1..])));
      var text := ": keep-alive\n";
      if wakes[i].Received? {
        text := SendEvent(wakes[i].event);
      }
      written := written + text;
      i := i + 1;
    }
    assert Written(wakes[i..]) == [];
    assert written + [] == written;
  }

  lemma WrittenNext(wakes: seq<Wake>, i: nat)
    requires i < |wakes| && !wakes[i].ClientGone? && !wakes[i].QueueEnded?
    ensures WriteItems(Written(wakes[i..])) == WriteItem(ItemOf(wakes[i])) + WriteItems(Written(wakes[i + 1..]))
  {
  }

  predicate Ends(wake: Wake) {
    wake.ClientGone? || wake.QueueEnded?
  }

  /** The loop ends at wake-up n, or goes on through all of them. */
  ghost predicate EndsAt(wakes: seq<Wake>, n: nat) {
    && n <= |wakes| && (n < |wakes| ==> Ends(wakes[n]))
    && forall k | 0 <= k < n :: !Ends(wakes[k])
  }

  /** Up to its end the loop writes one item for each wake-up: the event received, or a keep-alive at the timer. */
  lemma {:induction false} WrittenExactly(wakes: seq<Wake>, n: nat)
    requires EndsAt(wakes, n)
    ensures |Written(wakes)| == n
    ensures forall k | 0 <= k < n ::
              && (forall e :: Written(wakes)[k] == Event(e) <==> wakes[k] == Wake.Received(e))
              && (Written(wakes)[k] == KeepAlive <==> wakes[k] == Timer)
    decreases |wakes|
  {
    if n > 0 {
      WrittenExactly(wakes[1..], n - 1);
      assert forall k | 0 < k < n :: Written(wakes)[k] == Written(wakes[1..])[k - 1] && wakes[k] == wakes[1..][k - 1];
    }
  }

  /** The events among the first wake-ups, in order. */
  function Arrivals(wakes: seq<Wake>): seq<EventSourceEvent> {
    if wakes == [] then []
    else
      var last := wakes[|wakes| - 1];
      Arrivals(wakes[..|wakes| - 1]) + match last case Received(e) => [e] case _ => []
  }

  // The reader

  datatype Dispatched = Dispatched(kind: string, data: string, lastEventId: string)

  datatype Reader = Reader(data: string, kind: string, lastEventId: string, retry: Option<nat>, events: seq<Dispatched>)

  const FRESH := Reader("", "", "", None, [])

  predicate IsNewline(c: char) {
    c == '\n' || c == '\r'
  }

  predicate OneLine(s: string) {
    forall k | 0 <= k < |s| :: !IsNewline(s[k])
  }

  /** The next complete line, ended by CR LF, LF or CR. */
  function ReadLine(s: string): Option<(string, string)> {
    if s == [] then None
    else if s[0] == '\r' && |s| > 1 && s[1] == '\n' then Some(([], s[2..]))
    else if IsNewline(s[0]) then Some(([], s[1..]))
    else
      match ReadLine(s[1..])
      case None => None
      case Some((line, rest)) => Some(([s[0]] + line, rest))
  }

  lemma {:induction false} ReadLineSplits(s: string)
    ensures ReadLine(s).Some? ==> OneLine(ReadLine(s).value.0) && |ReadLine(s).value.1| < |s|
  {
    if s != [] && !IsNewline(s[0]) {
      ReadLineSplits(s[1..]);
    }
  }

  function Process(r: Reader, line: string): Reader {
    if line == [] then Dispatch(r)
    else if line[0] == ':' then r
    else
      match SplitOnce(line, ':')
      case None => Field(r, line, "")
      case Some((name, value)) => Field(r, name, if value != [] && value[0] == ' ' then value[1..] else value)
  }

  function Field(r: Reader, name: string, value: string): Reader {
    if name == "event" then r.(kind := value)
    else if name == "data" then r.(data := r.data + value + "\n")
    else if name == "id" then if '\0' in value then r else r.(lastEventId := value)
    else if name == "retry" then if value != [] && AllDigits(value) then r.(retry := Some(Number(value))) else r
    else r
  }

  function DropLf(s: string): string {
    if s != [] && s[|s| - 1] == '\n' then s[..|s| - 1] else s
  }

  function Dispatch(r: Reader): Reader {
    if r.data == [] then r.(kind := "")
    else
      var event := Dispatched(if r.kind == [] then "message" else r.kind, DropLf(r.data), r.lastEventId);
      r.(data := "", kind := "", events := r.events + [event])
  }

  function Read(r: Reader, s: string): Reader
    decreases |s|
  {
    ReadLineSplits(s);
    match ReadLine(s)
    case None => r
    case Some((line, rest)) => Read(Process(r, line), rest)
  }

  // One line at a time

  lemma {:induction false} ReadLineOf(line: string, rest: string)
    requires OneLine(line)
    ensures ReadLine(line + "\n" + rest) == Some((line, rest))
  {
    var s := line + "\n" + rest;
    if line == [] {
      assert s == "\n" + rest;
    } else {
      assert s[1..] == line[1..] + "\n" + rest;
      ReadLineOf(line[1..], rest);
      assert [line[0]] + line[1..] == line;
    }
  }

  lemma ReadOneLine(r: Reader, line: string, rest: string)
    requires OneLine(line)
    ensures Read(r, line + "\n" + rest) == Read(Process(r, line), rest)
  {
    ReadLineOf(line, rest);
  }

  lemma ProcessField(r: Reader, name: string, value: string)
    requires name != [] && ':' !in name
    ensures Process(r, name + ": " + value) == Field(r, name, value)
  {
    var line := name + ": " + value;
    assert line == name + ":" + (" " + value);
    SplitAtFirst(name, ':', " " + value);
    assert line[0] == name[0] && name[0] in name;
    assert (" " + value)[1..] == value;
  }

  lemma ReadField(r: Reader, name: string, value: string, rest: string)
    requires name != [] && ':' !in name && OneLine(name) && OneLine(value)
    ensures Read(r, name + ": " + value + "\n" + rest) == Read(Field(r, name, value), rest)
  {
    ReadOneLine(r, name + ": " + value, rest);
    ProcessField(r, name, value);
  }

  function Joined(lines: seq<string>): string {
    if lines == [] then [] else lines[0] + "\n" + Joined(lines[1..])
  }

  lemma {:induction false} ReadData(r: Reader, lines: seq<string>, rest: string)
    requires forall k | 0 <= k < |lines| :: OneLine(lines[k])
    ensures Read(r, WriteData(lines) + rest) == Read(r.(data := r.data + Joined(lines)), rest)
    decreases |lines|
  {
    if lines == [] {
      assert WriteData(lines) + rest == rest;
      assert r.data + [] == r.data;
    } else {
      var tail := WriteData(lines[1..]) + rest;
      Associate("data: " + lines[0] + "\n", WriteData(lines[1..]), rest);
      assert "data: " == "data" + ": ";
      ReadField(r, "data", lines[0], tail);
      var r' := Field(r, "data", lines[0]);
      ReadData(r', lines[1..], rest);
      Associate(r.data, lines[0], "\n");
      Associate(r.data, lines[0] + "\n", Joined(lines[1..]));
    }
  }

  /** The data lines of a text without CR put the text back together, closed by an LF. */
  lemma {:induction false} TextLinesJoin(s: string)
    requires '\r' !in s
    ensures forall k | 0 <= k < |TextLines(s)| :: OneLine(TextLines(s)[k])
    ensures Joined(TextLines(s)) == if s == [] || s[|s| - 1] == '\n' then s else s + "\n"
    decreases |s|
  {
    if s != [] {
      SplitOnceSplits(s, '\n');
      match SplitOnce(s, '\n') {
        case None =>
          assert OneLine(s);
          assert Joined([s]) == s + "\n" + [];
        case Some((line, rest)) =>
          assert forall c | c in line :: c in s;
          assert forall c | c in rest :: c in s;
          assert DropCr(line) == line && OneLine(line);
          TextLinesJoin(rest);
          assert TextLines(s)[1..] == TextLines(rest);
          assert line + "\n" + Joined(TextLines(rest)) == Joined(TextLines(s));
      }
    }
  }

  // Events

  /** Ids and names fit on a line, ids have no NUL, and a name is not empty. */
  predicate WellNamed(e: EventSourceEvent) {
    && OneLine(e.id) && '\0' !in e.id
    && (e.event.Some? ==> e.event.value != [] && OneLine(e.event.value))
  }

  function KindOf(e: EventSourceEvent): string {
    if e.event.Some? then e.event.value else "message"
  }

  predicate AtRest(r: Reader) {
    r.data == [] && r.kind == []
  }

  function AfterEvent(r: Reader, e: EventSourceEvent): Reader {
    r.(lastEventId := e.id,
       events := r.events + if e.data == [] then [] else [Dispatched(KindOf(e), DropLf(e.data), e.id)])
  }

  lemma ReadName(r: Reader, e: EventSourceEvent, rest: string)
    requires WellNamed(e)
    ensures Read(r, (match e.event case Some(t) => "event: " + t + "\n" case None => "") + rest)
         == Read(r.(kind := if e.event.Some? then e.event.value else r.kind), rest)
  {
    if e.event.Some? {
      var t := e.event.value;
      assert "event: " + t + "\n" + rest == "event" + ": " + t + "\n" + rest;
      ReadField(r, "event", t, rest);
    } else {
      assert "" + rest == rest;
    }
  }

  lemma ReadIdAndBlank(r: Reader, id: string, rest: string)
    requires OneLine(id) && '\0' !in id
    ensures Read(r, "id: " + id + "\n" + "\n" + rest) == Read(Dispatch(r.(lastEventId := id)), rest)
  {
    var blank := "\n" + rest;
    assert "id: " + id + "\n" + "\n" + rest == "id" + ": " + id + "\n" + blank;
    ReadField(r, "id", id, blank);
    assert blank == [] + "\n" + rest;
    ReadOneLine(r.(lastEventId := id), [], rest);
  }

  lemma ReadEvent(r: Reader, e: EventSourceEvent, rest: string)
    requires AtRest(r) && WellNamed(e) && '\r' !in e.data
    ensures Read(r, WriteEvent(e) + rest) == Read(AfterEvent(r, e), rest) && AtRest(AfterEvent(r, e))
  {
    var lines := TextLines(e.data);
    var end := "id: " + e.id + "\n" + "\n" + rest;
    EventText(e, rest);
    ReadName(r, e, WriteData(lines) + end);
    var r1 := r.(kind := if e.event.Some? then e.event.value else r.kind);
    TextLinesJoin(e.data);
    ReadData(r1, lines, end);
    assert r1.data + Joined(lines) == Joined(lines);
    ReadIdAndBlank(r1.(data := Joined(lines)), e.id, rest);
    DispatchEvent(r, e);
  }

  lemma EventText(e: EventSourceEvent, rest: string)
    ensures WriteEvent(e) + rest
         == (match e.event case Some(t) => "event: " + t + "\n" case None => "")
            + (WriteData(TextLines(e.data)) + ("id: " + e.id + "\n" + "\n" + rest))
  {
  }

  lemma DispatchEvent(r: Reader, e: EventSourceEvent)
    requires AtRest(r) && WellNamed(e) && '\r' !in e.data
    ensures var read := r.(kind := if e.event.Some? then e.event.value else r.kind,
                          data := Joined(TextLines(e.data)), lastEventId := e.id);
            Dispatch(read) == AfterEvent(r, e)
    ensures AtRest(AfterEvent(r, e))
  {
    TextLinesJoin(e.data);
    assert e.data != [] ==> DropLf(Joined(TextLines(e.data))) == DropLf(e.data);
    assert r.events + [] == r.events;
  }

  // Streams

  function EventsOf(items: seq<Item>): seq<EventSourceEvent> {
    if items == [] then []
    else (if items[0].Event? then [items[0].event] else []) + EventsOf(items[1..])
  }

  function AfterEvents(r: Reader, events: seq<EventSourceEvent>): Reader
    decreases |events|
  {
    if events == [] then r else AfterEvents(AfterEvent(r, events[0]), events[1..])
  }

  ghost predicate AllWellNamed(items: seq<Item>) {
    forall e | e in EventsOf(items) :: WellNamed(e)
  }

  ghost predicate NoCr(items: seq<Item>) {
    forall e | e in EventsOf(items) :: '\r' !in e.data
  }

  /** A keep-alive is something, and means nothing to a reader, whatever it has read before. */
  lemma ReadKeepAlive(r: Reader, rest: string)
    ensures WriteItem(KeepAlive) != "" && Read(r, WriteItem(KeepAlive) + rest) == Read(r, rest)
  {
    var line := ": keep-alive";
    assert OneLine(line);
    assert ": keep-alive\n" + rest == line + "\n" + rest;
    ReadOneLine(r, line, rest);
  }

  lemma {:induction false} ReadItems(r: Reader, items: seq<Item>)
    requires AtRest(r) && AllWellNamed(items) && NoCr(items)
    ensures Read(r, WriteItems(items)) == AfterEvents(r, EventsOf(items))
    decreases |items|
  {
    if items != [] {
      var rest := WriteItems(items[1..]);
      assert forall e | e in EventsOf(items[1..]) :: e in EventsOf(items);
      match items[0] {
        case KeepAlive =>
          ReadKeepAlive(r, rest);
          ReadItems(r, items[1..]);
          assert EventsOf(items) == EventsOf(items[1..]);
        case Event(e) =>
          assert e in EventsOf(items);
          ReadEvent(r, e, rest);
          ReadItems(AfterEvent(r, e), items[1..]);
          assert EventsOf(items)[1..] == EventsOf(items[1..]);
      }
    }
  }

  lemma ReadRetry(retry: Option<int>, rest: string)
    ensures Read(FRESH, WriteRetry(retry) + rest)
         == Read(FRESH.(retry := if retry.Some? && retry.value >= 0 then Some(retry.value) else None), rest)
  {
    if retry.Some? {
      var n := retry.value;
      DecimalIsNumber(if n < 0 then -n else n);
      assert OneLine(Signed(n));
      assert n < 0 ==> Signed(n)[0] == '-';
      assert "retry: " + Signed(n) + "\n" + rest == "retry" + ": " + Signed(n) + "\n" + rest;
      ReadField(FRESH, "retry", Signed(n), rest);
    } else {
      assert "" + rest == rest;
    }
  }

  function Received(retry: Option<int>, items: seq<Item>): Reader {
    Read(FRESH, WriteRetry(retry) + WriteItems(items))
  }

  /** One dispatch for each event, with its data, kind and id. */
  function Faithful(events: seq<EventSourceEvent>): seq<Dispatched> {
    if events == [] then []
    else [Dispatched(KindOf(events[0]), events[0].data, events[0].id)] + Faithful(events[1..])
  }

  /** What is dispatched when no data has a CR: empty data is dropped, and so is one LF at its end. */
  function Delivered(events: seq<EventSourceEvent>): seq<Dispatched> {
    if events == [] then []
    else
      (if events[0].data == [] then [] else [Dispatched(KindOf(events[0]), DropLf(events[0].data), events[0].id)])
      + Delivered(events[1..])
  }

  lemma {:induction false} AfterEventsDelivers(r: Reader, events: seq<EventSourceEvent>)
    ensures var q := AfterEvents(r, events);
            && q.events == r.events + Delivered(events) && q.retry == r.retry
            && q.lastEventId == (if events == [] then r.lastEventId else events[|events| - 1].id)
    decreases |events|
  {
    if events == [] {
      assert r.events + [] == r.events;
    } else {
      var r' := AfterEvent(r, events[0]);
      AfterEventsDelivers(r', events[1..]);
      var e := events[0];
      var first := if e.data == [] then [] else [Dispatched(KindOf(e), DropLf(e.data), e.id)];
      assert r.events + first + Delivered(events[1..]) == r.events + (first + Delivered(events[1..]));
    }
  }

  /** The stream of events without CR: what is dispatched, the reconnection time and the last id. */
  lemma StreamDelivers(retry: Option<int>, items: seq<Item>)
    requires AllWellNamed(items) && NoCr(items)
    ensures var q := Received(retry, items);
            var events := EventsOf(items);
            && q.events == Delivered(events)
            && q.retry == (if retry.Some? && retry.value >= 0 then Some(retry.value) else None)
            && q.lastEventId == (if events == [] then "" else events[|events| - 1].id)
  {
    ReadRetry(retry, WriteItems(items));
    FromRest(FRESH.(retry := if retry.Some? && retry.value >= 0 then Some(retry.value) else None), items);
  }

  lemma FromRest(r: Reader, items: seq<Item>)
    requires AtRest(r) && r.events == [] && r.lastEventId == "" && AllWellNamed(items) && NoCr(items)
    ensures var q, events := Read(r, WriteItems(items)), EventsOf(items);
            && q.events == Delivered(events) && q.retry == r.retry
            && q.lastEventId == (if events == [] then "" else events[|events| - 1].id)
  {
    ReadItems(r, items);
    AfterEventsDelivers(r, EventsOf(items));
    assert [] + Delivered(EventsOf(items)) == Delivered(EventsOf(items));
  }

  // Exactly which streams come through

  predicate Carried(e: EventSourceEvent) {
    e.data != [] && '\r' !in e.data && e.data[|e.data| - 1] != '\n'
  }

  ghost predicate CrFree(r: Reader) {
    '\r' !in r.data && forall k | 0 <= k < |r.events| :: '\r' !in r.events[k].data
  }

  lemma ProcessKeepsCrFree(r: Reader, line: string)
    requires CrFree(r) && OneLine(line)
    ensures CrFree(Process(r, line))
  {
    if line != [] && line[0] != ':' {
      SplitOnceSplits(line, ':');
      if SplitOnce(line, ':').Some? {
        var (name, value) := SplitOnce(line, ':').value;
        assert line == name + [':'] + value;
        assert forall c | c in value :: c in line;
        assert '\r' !in value;
      }
    }
  }

  /** The reader never dispatches a CR. */
  lemma {:induction false} ReadKeepsCrFree(r: Reader, s: string)
    requires CrFree(r)
    ensures CrFree(Read(r, s))
    decreases |s|
  {
    ReadLineSplits(s);
    if ReadLine(s).Some? {
      var (line, rest) := ReadLine(s).value;
      ProcessKeepsCrFree(r, line);
      ReadKeepsCrFree(Process(r, line), rest);
    }
  }

  lemma {:induction false} FaithfulAt(events: seq<EventSourceEvent>, k: nat)
    requires k < |events|
    ensures |Faithful(events)| == |events|
    ensures Faithful(events)[k] == Dispatched(KindOf(events[k]), events[k].data, events[k].id)
  {
    if |events| > 1 {
      FaithfulAt(events[1..], if k > 0 then k - 1 else 0);
    }
  }

  lemma {:induction false} DeliveredLength(events: seq<EventSourceEvent>)
    ensures |Delivered(events)| <= |Faithful(events)|
    ensures Delivered(events) == Faithful(events) <==>
            forall k | 0 <= k < |events| :: events[k].data != [] && events[k].data[|events[k].data| - 1] != '\n'
  {
    if events != [] {
      DeliveredLength(events[1..]);
      var d, f := Delivered(events), Faithful(events);
      assert f[1..] == Faithful(events[1..]);
      if events[0].data != [] {
        assert d[1..] == Delivered(events[1..]);
        assert d == f <==> d[0] == f[0] && d[1..] == f[1..];
      }
      assert forall k | 0 < k < |events| :: events[k] == events[1..][k - 1];
    }
  }

  /**
   * The client dispatches exactly the written events, each with its data, kind and id, exactly when
   * every data is non-empty, free of CR and does not end in LF; keep-alives and the retry line do
   * not matter.
   */
  lemma RoundTripExactly(retry: Option<int>, items: seq<Item>)
    requires AllWellNamed(items)
    ensures Received(retry, items).events == Faithful(EventsOf(items)) <==>
            forall k | 0 <= k < |EventsOf(items)| :: Carried(EventsOf(items)[k])
  {
    if NoCr(items) {
      CrFreeRoundTrip(retry, items);
    } else {
      CrIsNotReceived(retry, items);
    }
  }

  lemma CrFreeRoundTrip(retry: Option<int>, items: seq<Item>)
    requires AllWellNamed(items) && NoCr(items)
    ensures Received(retry, items).events == Faithful(EventsOf(items)) <==>
            forall k | 0 <= k < |EventsOf(items)| :: Carried(EventsOf(items)[k])
  {
    var events := EventsOf(items);
    StreamDelivers(retry, items);
    DeliveredLength(events);
    assert forall k | 0 <= k < |events| :: events[k] in events;
  }

  lemma CrIsNotReceived(retry: Option<int>, items: seq<Item>)
    requires !NoCr(items)
    ensures Received(retry, items).events != Faithful(EventsOf(items))
    ensures exists k :: 0 <= k < |EventsOf(items)| && !Carried(EventsOf(items)[k])
  {
    var events := EventsOf(items);
    var e :| e in events && '\r' in e.data;
    var k :| 0 <= k < |events| && events[k] == e;
    assert !Carried(events[k]);
    FaithfulAt(events, k);
    ReadKeepsCrFree(FRESH, WriteRetry(retry) + WriteItems(items));
    assert CrFree(Received(retry, items));
  }

  // From what wakes the writer up to what the client dispatches

  lemma {:induction false} ArrivalsFront(wakes: seq<Wake>)
    requires wakes != []
    ensures Arrivals(wakes) == (match wakes[0] case Received(e) => [e] case _ => []) + Arrivals(wakes[1..])
  {
    if |wakes| == 1 {
      assert wakes[..0] == [] && wakes[1..] == [];
    } else {
      var front, rest := wakes[..|wakes| - 1], wakes[1..];
      ArrivalsFront(front);
      assert front[1..] == rest[..|rest| - 1] && front[0] == wakes[0] && rest[|rest| - 1] == wakes[|wakes| - 1];
    }
  }

  lemma {:induction false} WrittenEvents(wakes: seq<Wake>, n: nat)
    requires EndsAt(wakes, n)
    ensures EventsOf(Written(wakes)) == Arrivals(wakes[..n])
    decreases |wakes|
  {
    if n > 0 {
      WrittenEvents(wakes[1..], n - 1);
      ArrivalsFront(wakes[..n]);
      assert wakes[..n][1..] == wakes[1..][..n - 1];
    }
  }

  /**
   * From what the loop writes a client dispatches exactly the events that were received before the loop
   * ended, in order and as they were, exactly when every one of them can be carried.
   */
  lemma ReceivedAreDispatched(retry: Option<int>, wakes: seq<Wake>, n: nat)
    requires EndsAt(wakes, n) && forall e | e in Arrivals(wakes[..n]) :: WellNamed(e)
    ensures Read(FRESH, WriteRetry(retry) + WriteItems(Written(wakes))).events == Faithful(Arrivals(wakes[..n])) <==>
            forall k | 0 <= k < |Arrivals(wakes[..n])| :: Carried(Arrivals(wakes[..n])[k])
  {
    WrittenEvents(wakes, n);
    RoundTripExactly(retry, Written(wakes));
  }

  /** The dispatches are those of the events, one for one. */
  lemma DispatchedAt(events: seq<EventSourceEvent>, k: nat)
    requires k < |events|
    ensures |Faithful(events)| == |events|
    ensures Faithful(events)[k].data == events[k].data && Faithful(events)[k].lastEventId == events[k].id
    ensures Faithful(events)[k].kind == match events[k].event case Some(name) => name case None => "message"
  {
    FaithfulAt(events, k);
  }

  // Lines that end in CR LF

  /** A CR stands only before an LF. */
  predicate CrBeforeLf(s: string) {
    s == [] || ((s[0] == '\r' ==> |s| > 1 && s[1] == '\n') && CrBeforeLf(s[1..]))
  }

  function WithoutCr(s: string): string {
    if s == [] then [] else (if s[0] == '\r' then [] else [s[0]]) + WithoutCr(s[1..])
  }

  lemma {:induction false} WithoutCrHasNone(s: string)
    ensures '\r' !in WithoutCr(s)
  {
    if s != [] {
      WithoutCrHasNone(s[1..]);
    }
  }

  /** A line up to its LF: a CR can only be its last character. */
  lemma {:induction false} LineWithoutCr(line: string, rest: string)
    requires '\n' !in line && CrBeforeLf(line + "\n" + rest)
    ensures WithoutCr(line + "\n" + rest) == DropCr(line) + "\n" + WithoutCr(rest)
    ensures CrBeforeLf(rest) && '\r' !in DropCr(line) && '\n' !in DropCr(line)
  {
    var s := line + "\n" + rest;
    if line == [] {
      assert s[0] == '\n' && s[1..] == rest;
    } else {
      var t := line[1..] + "\n" + rest;
      assert s[0] == line[0] && s[1..] == t;
      LineWithoutCr(line[1..], rest);
      if line[0] == '\r' {
        assert t[0] == '\n';
        assert line == "\r";
        assert DropCr(line) == "" && DropCr("") == "";
      } else {
        DropCrTail(line);
        Associate([line[0]], DropCr(line[1..]), "\n");
        Associate([line[0]], DropCr(line[1..]) + "\n", WithoutCr(rest));
      }
    }
  }

  lemma DropCrTail(line: string)
    requires line != [] && line[0] != '\r'
    ensures DropCr(line) == [line[0]] + DropCr(line[1..])
  {
  }

  lemma {:induction false} LastLineWithoutCr(s: string)
    requires '\n' !in s && CrBeforeLf(s)
    ensures WithoutCr(s) == s
  {
    if s != [] {
      LastLineWithoutCr(s[1..]);
      assert s == [s[0]] + s[1..];
    }
  }

  /** The lines of a text are the same whether they end in CR LF or in LF. */
  lemma {:induction false} LinesWithoutCr(s: string)
    requires CrBeforeLf(s)
    ensures TextLines(s) == TextLines(WithoutCr(s))
    decreases |s|
  {
    SplitOnceSplits(s, '\n');
    match SplitOnce(s, '\n')
    case None =>
      LastLineWithoutCr(s);
    case Some((line, rest)) =>
      assert s == line + "\n" + rest;
      LineWithoutCr(line, rest);
      LinesWithoutCr(rest);
      SplitAtFirst(DropCr(line), '\n', WithoutCr(rest));
      assert WithoutCr(s) == DropCr(line) + ['\n'] + WithoutCr(rest);
  }

  /** An event whose data has CR only before LF is written as the event without those CR. */
  lemma CrLfIsLf(e: EventSourceEvent)
    requires CrBeforeLf(e.data)
    ensures WriteEvent(e) == WriteEvent(e.(data := WithoutCr(e.data))) && '\r' !in WithoutCr(e.data)
  {
    LinesWithoutCr(e.data);
    WithoutCrHasNone(e.data);
  }
}

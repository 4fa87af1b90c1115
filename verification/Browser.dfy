/** The chat page's buffers: older messages fetched page by page, live ones pushed, chats moved to the top. */
module Browser {
  import opened Wrappers
  import opened Messages
  import opened Queries
  import opened ChatList

  /** The page as the server sends it: the query's result turned round, oldest first. */
  function JsonPage(log: seq<Message>, user: UserId, chat: UserId, start: Option<MessageId>): seq<Message> {
    Reverse(LastInChat(log, user, chat, start))
  }

  datatype MessagesResponse = MessagesResponse(success: bool, messages: seq<Message>)

  /** What the page asks for: a chat's latest messages to show, or older ones to put before those it shows. */
  datatype Request = Latest(chat: UserId) | Older(chat: UserId, start: Option<MessageId>)

  /** The answer to a request: without a session, no success and no messages. */
  function MessagesJson(log: seq<Message>, user: UserId, request: Request, authorized: bool): MessagesResponse {
    if authorized then
      MessagesResponse(true, JsonPage(log, user, request.chat, if request.Latest? then None else request.start))
    else
      MessagesResponse(false, [])
  }

  /** The messages that the page shows, and whether it knows that there are no older ones. */
  datatype View = View(buffer: seq<Message>, noMore: bool)

  function Loaded(log: seq<Message>, user: UserId, chat: UserId): View {
    View(JsonPage(log, user, chat, None), false)
  }

  /** The request for older messages: none once the page knows that there are none. */
  function OlderRequest(view: View, chat: UserId): seq<Request> {
    if view.noMore then [] else [Older(chat, if view.buffer == [] then None else Some(view.buffer[0].id))]
  }

  /** The page does not compare an answer with what it shows by then. */
  function Answered(view: View, request: Request, response: MessagesResponse): View {
    if !response.success then view
    else if request.Latest? then View(response.messages, false)
    else if response.messages != [] then view.(buffer := response.messages + view.buffer)
    else view.(noMore := true)
  }

  function Pushed(view: View, m: Message): View {
    view.(buffer := view.buffer + [m])
  }

  /** Takes the chat's node out of the list, or makes one, and puts it first. */
  function ToTop(chats: seq<UserId>, id: UserId): seq<UserId> {
    [id] + RemoveFirst(chats, id)
  }

  function RemoveFirst(chats: seq<UserId>, id: UserId): seq<UserId> {
    if chats == [] then [] else if chats[0] == id then chats[1..] else [chats[0]] + RemoveFirst(chats[1..], id)
  }

  class ChatPage {
    const userId: UserId
    var currentChat: UserId
    var messagesBuffer: seq<Message>
    var noMoreOldMessages: bool
    var chats: seq<UserId>

    ghost function CurrentView(): View
      reads this
    {
      View(messagesBuffer, noMoreOldMessages)
    }

    constructor (userId: UserId, chat: UserId, chats: seq<UserId>)
      ensures this.userId == userId && currentChat == chat && this.chats == chats
      ensures CurrentView() == View([], false)
    {
      this.userId := userId;
      currentChat := chat;
      messagesBuffer, noMoreOldMessages := [], false;
      this.chats := chats;
    }

    /** Opens a chat: the buffer stays as it is until the answer to the request arrives. */
    method ChatWith(id: UserId) returns (request: Request)
      modifies this`currentChat
      ensures currentChat == id && request == Latest(id)
    {
      currentChat := id;
      request := LoadMessages();
    }

    method LoadMessages() returns (request: Request)
      ensures request == Latest(currentChat)
    {
      request := Latest(currentChat);
    }

    /** Replaces the buffer; without a session the page is left alone and leads to the login. */
    method MessagesLoaded(response: MessagesResponse) returns (toLogin: bool)
      modifies this`messagesBuffer, this`noMoreOldMessages
      ensures toLogin == !response.success
      ensures forall chat :: CurrentView() == Answered(old(CurrentView()), Latest(chat), response)
    {
      if !response.success {
        return true;
      }
      messagesBuffer := response.messages;
      noMoreOldMessages := false;
      toLogin := false;
    }

    method LoadMoreOldMessages() returns (request: Option<Request>)
      ensures OlderRequest(CurrentView(), currentChat) == match request case None => [] case Some(r) => [r]
    {
      if noMoreOldMessages {
        return None;
      }
      if |messagesBuffer| == 0 {
        request := Some(Older(currentChat, None));
      } else {
        request := Some(Older(currentChat, Some(messagesBuffer[0].id)));
      }
    }

    method OldMessagesLoaded(response: MessagesResponse) returns (toLogin: bool)
      modifies this`messagesBuffer, this`noMoreOldMessages
      ensures toLogin == !response.success
      ensures forall chat, start :: CurrentView() == Answered(old(CurrentView()), Older(chat, start), response)
    {
      if !response.success {
        return true;
      }
      if |response.messages| != 0 {
        messagesBuffer := response.messages + messagesBuffer;
      } else {
        noMoreOldMessages := true;
      }
      toLogin := false;
    }

    method MoveChatToTop(id: UserId)
      modifies this`chats
      ensures chats == ToTop(old(chats), id)
    {
      var i := 0;
      while i < |chats| && chats[i] != id
        invariant i <= |chats| && id !in chats[..i] && chats == old(chats)
      {
        assert chats[..i + 1] == chats[..i] + [chats[i]];
        i := i + 1;
      }
      RemoveFirstAt(chats, id, i);
      if i < |chats| {
        chats := chats[..i] + chats[i + 1..];
      }
      chats := [id] + chats;
    }

    method OnMessage(m: Message, searching: bool)
      modifies this`messagesBuffer, this`chats
      ensures CurrentView()
           == if {m.from, m.to} == {userId, currentChat} then Pushed(old(CurrentView()), m) else old(CurrentView())
      ensures chats == if searching then old(chats) else ToTop(old(chats), Partner(m, userId))
    {
      if (m.from == currentChat && m.to == userId) || (m.to == currentChat && m.from == userId) {
        messagesBuffer := messagesBuffer + [m];
      }
      if !searching {
        MoveChatToTop(if m.from == userId then m.to else m.from);
      }
    }
  }

  lemma {:induction false} RemoveFirstAt(chats: seq<UserId>, id: UserId, i: nat)
    requires i <= |chats| && id !in chats[..i] && (i < |chats| ==> chats[i] == id)
    ensures RemoveFirst(chats, id) == if i < |chats| then chats[..i] + chats[i + 1..] else chats
  {
    if i > 0 {
      var first, rest := chats[0], chats[1..];
      assert chats == [first] + rest;
      assert first in chats[..i] && chats[..i] == [first] + rest[..i - 1];
      RemoveFirstAt(rest, id, i - 1);
      if i < |chats| {
        assert rest[i - 1] == chats[i] && rest[i..] == chats[i + 1..];
        assert [first] + (rest[..i - 1] + rest[i..]) == ([first] + rest[..i - 1]) + rest[i..];
      }
    }
  }

  // The list of chats

  ghost predicate NoRepeats<T(!new)>(s: seq<T>) {
    forall i, j | 0 <= i < j < |s| :: s[i] != s[j]
  }

  lemma {:induction false} RemoveFirstIsWithout(chats: seq<UserId>, id: UserId)
    requires NoRepeats(chats)
    ensures RemoveFirst(chats, id) == Without(chats, id)
  {
    if chats != [] {
      if chats[0] == id {
        assert id !in chats[1..];
        WithoutAbsent(chats[1..], id);
      } else {
        RemoveFirstIsWithout(chats[1..], id);
      }
    }
  }

  lemma {:induction false} WithoutAbsent(chats: seq<UserId>, id: UserId)
    requires id !in chats
    ensures Without(chats, id) == chats
  {
    if chats != [] {
      assert chats[0] in chats;
      WithoutAbsent(chats[1..], id);
    }
  }

  lemma {:induction false} FirstSeenNoRepeats<T(!new)>(s: seq<T>)
    ensures NoRepeats(FirstSeen(s))
  {
    if s != [] {
      FirstSeenNoRepeats(s[..|s| - 1]);
    }
  }

  function AllToTop(chats: seq<UserId>, live: seq<Message>, user: UserId): seq<UserId>
    decreases |live|
  {
    if live == [] then chats else AllToTop(ToTop(chats, Partner(live[0], user)), live[1..], user)
  }

  /**
   * A page that starts from the recomputed list and handles the user's new messages one at a time
   * keeps showing the recomputed list.
   */
  lemma {:induction false} ChatListStaysCurrent(log: seq<Message>, fresher: seq<Message>, user: UserId)
    ensures AllToTop(Chats(log, user), Inbox(fresher, user), user) == Chats(log + fresher, user)
    decreases |fresher|
  {
    if fresher == [] {
      assert log + fresher == log;
    } else {
      var m := fresher[0];
      assert log + fresher == log + [m] + fresher[1..];
      NewMessageMovesToTop(log, m, user);
      ChatListStaysCurrent(log + [m], fresher[1..], user);
      var rest := Inbox(fresher[1..], user);
      if Involves(m, user) {
        FirstSeenNoRepeats(Partners(Reverse(log), user));
        RemoveFirstIsWithout(Chats(log, user), Partner(m, user));
        assert Inbox(fresher, user)[0] == m && Inbox(fresher, user)[1..] == rest;
      } else {
        assert Inbox(fresher, user) == rest;
      }
    }
  }

  method HandleEvents(page: ChatPage, live: seq<Message>)
    modifies page`messagesBuffer, page`chats
    ensures page.chats == AllToTop(old(page.chats), live, page.userId)
    ensures page.messagesBuffer == old(page.messagesBuffer) + ChatOf(live, page.userId, page.currentChat)
    ensures page.noMoreOldMessages == old(page.noMoreOldMessages)
  {
    ghost var before, shown := page.chats, page.messagesBuffer;
    for i := 0 to |live|
      invariant AllToTop(page.chats, live[i..], page.userId) == AllToTop(before, live, page.userId)
      invariant page.messagesBuffer == shown + ChatOf(live[..i], page.userId, page.currentChat)
      invariant page.noMoreOldMessages == old(page.noMoreOldMessages)
    {
      assert live[i..][1..] == live[i + 1..];
      assert live[..i + 1] == live[..i] + [live[i]];
      ChatConcat(live[..i], [live[i]], page.userId, page.currentChat);
      page.OnMessage(live[i], false);
    }
    assert live[..|live|] == live;
  }

  // Paging

  function Back(k: int): nat {
    if k < 0 then 0 else k
  }

  lemma TakeIsCut<T>(s: seq<T>, n: nat, k: nat)
    requires k <= |s| && (k == n || (k < n && k == |s|))
    ensures Take(s, n) == s[..k]
  {
  }

  lemma TailReversed(c: seq<Message>)
    ensures Reverse(Take(Reverse(c), MESSAGE_LOAD_BUF_SIZE)) == c[Back(|c| - MESSAGE_LOAD_BUF_SIZE)..]
  {
    var k := Back(|c| - MESSAGE_LOAD_BUF_SIZE);
    ReverseCut(c, k);
    TakeIsCut(Reverse(c), MESSAGE_LOAD_BUF_SIZE, |c| - k);
    ReverseReverse(c[k..]);
  }

  lemma JsonPageIsTail(log: seq<Message>, part: seq<Message>, user: UserId, chat: UserId, start: Option<MessageId>)
    requires (match start case None => Reverse(log) case Some(id) => After(Reverse(log), id)) == Reverse(part)
    ensures var c := ChatOf(part, user, chat);
            JsonPage(log, user, chat, start) == c[Back(|c| - MESSAGE_LOAD_BUF_SIZE)..]
  {
    ChatReverse(part, user, chat);
    TailReversed(ChatOf(part, user, chat));
  }

  /** The first page is the end of the chat. */
  lemma LatestPage(log: seq<Message>, user: UserId, chat: UserId)
    ensures var c := ChatOf(log, user, chat); JsonPage(log, user, chat, None) == c[Back(|c| - MESSAGE_LOAD_BUF_SIZE)..]
  {
    JsonPageIsTail(log, log, user, chat, None);
  }

  /** The page before the k-th message of the chat is the piece of the chat that ends there. */
  lemma PageBefore(log: seq<Message>, user: UserId, chat: UserId, k: nat)
    requires DistinctIds(log) && k < |ChatOf(log, user, chat)|
    ensures var c := ChatOf(log, user, chat);
            JsonPage(log, user, chat, Some(c[k].id)) == c[Back(k - MESSAGE_LOAD_BUF_SIZE)..k]
  {
    var c := ChatOf(log, user, chat);
    var p := ChatPosition(log, user, chat, k);
    BeforeKnown(log, p);
    JsonPageIsTail(log, log[..p], user, chat, Some(c[k].id));
    EndOfFront(c, Back(k - MESSAGE_LOAD_BUF_SIZE), k);
  }

  lemma EndOfFront<T>(s: seq<T>, from: nat, to: nat)
    requires from <= to <= |s|
    ensures |s[..to]| == to && s[..to][from..] == s[from..to]
  {
  }

  // The open page: requests are answered later, in any order, from whatever the log is by then

  datatype Tab = Tab(chat: UserId, view: View, asked: seq<Request>)

  datatype Event = Open(chat: UserId) | AskOlder | Answer(k: nat, log: seq<Message>) | Live(message: Message)

  function Next(tab: Tab, event: Event, user: UserId): Tab {
    match event
    case Open(chat) => tab.(chat := chat, asked := tab.asked + [Latest(chat)])
    case AskOlder => tab.(asked := tab.asked + OlderRequest(tab.view, tab.chat))
    case Live(m) => if InChat(m, user, tab.chat) then tab.(view := Pushed(tab.view, m)) else tab
    case Answer(k, log) =>
      if k >= |tab.asked| then tab
      else
        var view := Answered(tab.view, tab.asked[k], MessagesJson(log, user, tab.asked[k], true));
        tab.(view := view, asked := tab.asked[..k] + tab.asked[k + 1..])
  }

  function Browse(tab: Tab, events: seq<Event>, user: UserId): Tab {
    if events == [] then tab
    else Next(Browse(tab, events[..|events| - 1], user), events[|events| - 1], user)
  }

  /** Only outstanding requests are answered. */
  predicate Legal(tab: Tab, events: seq<Event>, user: UserId) {
    events == [] ||
    var front, last := events[..|events| - 1], events[|events| - 1];
    Legal(tab, front, user) && (last.Answer? ==> last.k < |Browse(tab, front, user).asked|)
  }

  /** Every answer is to a request for what comes before the first message shown when it arrives. */
  predicate AllCurrent(tab: Tab, events: seq<Event>, user: UserId) {
    events == [] ||
    var front, last := events[..|events| - 1], events[|events| - 1];
    AllCurrent(tab, front, user) && (last.Answer? ==> Current(Browse(tab, front, user), last.k))
  }

  predicate Current(tab: Tab, k: nat) {
    k < |tab.asked| && tab.view.buffer != [] && tab.asked[k] == Older(tab.chat, Some(tab.view.buffer[0].id))
  }

  /** No request for older messages while another one is outstanding. */
  predicate OneAtATime(tab: Tab, events: seq<Event>, user: UserId) {
    events == [] ||
    var front, last := events[..|events| - 1], events[|events| - 1];
    OneAtATime(tab, front, user) && (last.AskOlder? ==> Browse(tab, front, user).asked == [])
  }

  function Answers(events: seq<Event>): nat {
    if events == [] then 0
    else Answers(events[..|events| - 1]) + if events[|events| - 1].Answer? then 1 else 0
  }

  function Pushes(events: seq<Event>, user: UserId, chat: UserId): seq<Message> {
    if events == [] then []
    else
      Pushes(events[..|events| - 1], user, chat) + PushedBy(events[|events| - 1], user, chat)
  }

  function PushedBy(event: Event, user: UserId, chat: UserId): seq<Message> {
    match event
    case Live(m) => if InChat(m, user, chat) then [m] else []
    case _ => []
  }

  /** The chat stays open, and the server's log only grows between its first load and the answers. */
  ghost predicate Stays(log: seq<Message>, events: seq<Event>) {
    forall i | 0 <= i < |events| ::
      !events[i].Open? && (events[i].Answer? ==> log <= events[i].log && DistinctIds(events[i].log))
  }

  lemma ChatPrefix(log: seq<Message>, longer: seq<Message>, user: UserId, chat: UserId)
    requires log <= longer
    ensures ChatOf(log, user, chat) <= ChatOf(longer, user, chat)
  {
  }

  /** What the page shows after k answers with older messages, when those messages were pushed. */
  function Held(c: seq<Message>, k: nat, pushed: seq<Message>): View {
    View(c[Front(c, k)..] + pushed, MESSAGE_LOAD_BUF_SIZE * k >= |c|)
  }

  function Front(c: seq<Message>, k: nat): (front: nat)
    ensures front <= |c|
  {
    Back(|c| - MESSAGE_LOAD_BUF_SIZE * (k + 1))
  }

  /** An end of the chat, then what was pushed. */
  ghost predicate Fits(c: seq<Message>, buffer: seq<Message>, pushed: seq<Message>) {
    exists x: nat :: FitsAt(c, buffer, pushed, x)
  }

  predicate FitsAt(c: seq<Message>, buffer: seq<Message>, pushed: seq<Message>, x: nat) {
    x <= |c| && buffer == c[x..] + pushed
  }

  /**
   * The chat of n messages was just loaded, whatever else is still outstanding. As long as every answer
   * is current, k answers later the page shows the last 50 (k + 1) messages in order, each once,
   * followed by the pushed ones, and knows that there are no older ones exactly when 50 k >= n.
   */
  lemma {:induction false} CurrentAnswersExtend(log: seq<Message>, tab: Tab, events: seq<Event>, user: UserId)
    requires Stays(log, events) && ChatOf(log, user, tab.chat) != [] && tab.view == Loaded(log, user, tab.chat)
    requires AllCurrent(tab, events, user)
    ensures Browse(tab, events, user).chat == tab.chat
    ensures Browse(tab, events, user).view
         == Held(ChatOf(log, user, tab.chat), Answers(events), Pushes(events, user, tab.chat))
    decreases |events|
  {
    var c := ChatOf(log, user, tab.chat);
    if events == [] {
      FirstPageHeld(log, user, tab.chat);
    } else {
      var front, last := events[..|events| - 1], events[|events| - 1];
      StaysFront(log, events);
      CurrentAnswersExtend(log, tab, front, user);
      EventKeepsHeld(log, Browse(tab, front, user), last, user, Answers(front), Pushes(front, user, tab.chat));
    }
  }

  lemma EventKeepsHeld(log: seq<Message>, now: Tab, event: Event, user: UserId, k: nat, pushed: seq<Message>)
    requires !event.Open? && ChatOf(log, user, now.chat) != []
    requires event.Answer? ==> log <= event.log && DistinctIds(event.log) && Current(now, event.k)
    requires now.view == Held(ChatOf(log, user, now.chat), k, pushed)
    ensures Next(now, event, user).chat == now.chat
    ensures Next(now, event, user).view
         == Held(ChatOf(log, user, now.chat), if event.Answer? then k + 1 else k,
                 pushed + PushedBy(event, user, now.chat))
  {
    var c := ChatOf(log, user, now.chat);
    assert pushed + [] == pushed;
    match event {
      case Live(m) => PushHeld(c, k, pushed, m);
      case Answer(i, later) =>
        assert now.view.buffer[0] == c[Front(c, k)];
        AnswerAt(log, later, now, i, user, Front(c, k));
        JoinPages(c, Front(c, k + 1), Front(c, k), pushed);
      case AskOlder =>
    }
  }

  /**
   * The chat was just loaded and nothing else is outstanding: the page keeps showing an end of the chat
   * and then what was pushed if and only if every answer is current.
   */
  lemma PagingRebuildsChat(log: seq<Message>, tab: Tab, events: seq<Event>, user: UserId)
    requires Stays(log, events) && DistinctIds(log) && ChatOf(log, user, tab.chat) != []
    requires tab.view == Loaded(log, user, tab.chat) && tab.asked == [] && Legal(tab, events, user)
    ensures var c, pushed := ChatOf(log, user, tab.chat), Pushes(events, user, tab.chat);
            && (AllCurrent(tab, events, user) <==> Fits(c, Browse(tab, events, user).view.buffer, pushed))
            && (AllCurrent(tab, events, user) <==> Browse(tab, events, user).view == Held(c, Answers(events), pushed))
  {
    var c, pushed := ChatOf(log, user, tab.chat), Pushes(events, user, tab.chat);
    var end := Browse(tab, events, user).view;
    if AllCurrent(tab, events, user) {
      CurrentAnswersExtend(log, tab, events, user);
    }
    if end == Held(c, Answers(events), pushed) {
      assert FitsAt(c, end.buffer, pushed, Front(c, Answers(events)));
    }
    if Fits(c, end.buffer, pushed) {
      FitsOnlyIfCurrent(log, tab, events, user);
    }
  }

  lemma StaysFront(log: seq<Message>, events: seq<Event>)
    requires Stays(log, events) && events != []
    ensures Stays(log, events[..|events| - 1])
    ensures var last := events[|events| - 1];
            !last.Open? && (last.Answer? ==> log <= last.log && DistinctIds(last.log))
  {
  }

  /** The request that a click sends while the page shows the chat from message b on. */
  predicate AskedAt(c: seq<Message>, request: Request, chat: UserId, b: nat) {
    b < |c| && request == Older(chat, Some(c[b].id))
  }

  ghost predicate AskedFrom(c: seq<Message>, asked: seq<Request>, chat: UserId, a: nat) {
    forall r | r in asked :: exists b: nat :: a <= b && AskedAt(c, r, chat, b)
  }

  lemma {:induction false} FitsOnlyIfCurrent(log: seq<Message>, tab: Tab, events: seq<Event>, user: UserId)
    requires Stays(log, events) && DistinctIds(log) && ChatOf(log, user, tab.chat) != []
    requires tab.view == Loaded(log, user, tab.chat) && tab.asked == [] && Legal(tab, events, user)
    requires Fits(ChatOf(log, user, tab.chat), Browse(tab, events, user).view.buffer, Pushes(events, user, tab.chat))
    ensures AllCurrent(tab, events, user)
    ensures var c := ChatOf(log, user, tab.chat);
            AskedFrom(c, Browse(tab, events, user).asked, tab.chat, Front(c, Answers(events)))
    decreases |events|
  {
    if events != [] {
      var front, last := events[..|events| - 1], events[|events| - 1];
      var now, pushed := Browse(tab, front, user), Pushes(front, user, tab.chat);
      StaysFront(log, events);
      PagesOnlyGrow(log, tab, front, user);
      FitsBefore(ChatOf(log, user, tab.chat), now, last, user, pushed);
      FitsOnlyIfCurrent(log, tab, front, user);
      CurrentAnswersExtend(log, tab, front, user);
      if last.Answer? {
        assert pushed + [] == pushed;
        FittingAnswerIsCurrent(log, now, last.k, last.log, user, Answers(front), pushed);
      }
      EventKeepsAsked(ChatOf(log, user, tab.chat), now, last, user, Answers(front), pushed);
    }
  }

  lemma FittingAnswerIsCurrent(log: seq<Message>, now: Tab, i: nat, later: seq<Message>, user: UserId,
                               k: nat, pushed: seq<Message>)
    requires DistinctIds(log) && log <= later && DistinctIds(later) && ChatOf(log, user, now.chat) != []
    requires i < |now.asked| && now.view == Held(ChatOf(log, user, now.chat), k, pushed)
    requires var c := ChatOf(log, user, now.chat); AskedFrom(c, now.asked, now.chat, Front(c, k))
    requires Fits(ChatOf(log, user, now.chat), Next(now, Answer(i, later), user).view.buffer, pushed)
    ensures Current(now, i)
  {
    var c := ChatOf(log, user, now.chat);
    var a := Front(c, k);
    assert now.asked[i] in now.asked;
    var b: nat :| a <= b && AskedAt(c, now.asked[i], now.chat, b);
    AnswerAt(log, later, now, i, user, b);
    if b != a {
      StaleDoesNotFit(log, user, now.chat, a, b, pushed);
    }
    assert now.view.buffer[0] == c[a];
  }

  lemma EventKeepsAsked(c: seq<Message>, now: Tab, event: Event, user: UserId, k: nat, pushed: seq<Message>)
    requires !event.Open? && c != [] && now.view == Held(c, k, pushed)
    requires AskedFrom(c, now.asked, now.chat, Front(c, k))
    ensures AskedFrom(c, Next(now, event, user).asked, now.chat, Front(c, if event.Answer? then k + 1 else k))
  {
    var a := Front(c, k);
    var next := Next(now, event, user).asked;
    assert now.view.buffer[0] == c[a] && AskedAt(c, Older(now.chat, Some(c[a].id)), now.chat, a);
    forall r | r in next && r !in now.asked
      ensures event.AskOlder? && r == Older(now.chat, Some(c[a].id))
    {
    }
  }

  lemma FirstPageHeld(log: seq<Message>, user: UserId, chat: UserId)
    requires ChatOf(log, user, chat) != []
    ensures Loaded(log, user, chat) == Held(ChatOf(log, user, chat), 0, [])
  {
    LatestPage(log, user, chat);
  }

  lemma PushHeld(c: seq<Message>, k: nat, pushed: seq<Message>, m: Message)
    ensures Pushed(Held(c, k, pushed), m) == Held(c, k, pushed + [m])
  {
  }

  /** The answer to a request that starts from the chat's b-th message. */
  lemma AnswerAt(log: seq<Message>, later: seq<Message>, now: Tab, i: nat, user: UserId, b: nat)
    requires log <= later && DistinctIds(later)
    requires i < |now.asked| && AskedAt(ChatOf(log, user, now.chat), now.asked[i], now.chat, b)
    ensures var c := ChatOf(log, user, now.chat);
            var rest := now.(asked := now.asked[..i] + now.asked[i + 1..]);
            Next(now, Answer(i, later), user)
            == (if b == 0 then rest.(view := now.view.(noMore := true))
                else rest.(view := Above(c[Back(b - MESSAGE_LOAD_BUF_SIZE)..b], now.view)))
  {
    LaterPage(log, later, user, now.chat, b);
  }

  function Above(page: seq<Message>, view: View): View {
    view.(buffer := page + view.buffer)
  }

  lemma SameId(log: seq<Message>, user: UserId, chat: UserId, a: nat, b: nat)
    requires DistinctIds(log) && a < |ChatOf(log, user, chat)| && b < |ChatOf(log, user, chat)|
    requires ChatOf(log, user, chat)[a].id == ChatOf(log, user, chat)[b].id
    ensures a == b
  {
    var c := ChatOf(log, user, chat);
    var p := ChatPosition(log, user, chat, a);
    var q := ChatPosition(log, user, chat, b);
    assert |c[..a]| == |c[..b]|;
  }

  /** A page put before the wrong message never fits: the chat has another message there. */
  lemma StaleDoesNotFit(log: seq<Message>, user: UserId, chat: UserId, a: nat, b: nat, pushed: seq<Message>)
    requires DistinctIds(log) && a < b < |ChatOf(log, user, chat)|
    ensures var c := ChatOf(log, user, chat);
            !Fits(c, c[Back(b - MESSAGE_LOAD_BUF_SIZE)..b] + (c[a..] + pushed), pushed)
  {
    var c := ChatOf(log, user, chat);
    var page := c[Back(b - MESSAGE_LOAD_BUF_SIZE)..b];
    var shown := page + (c[a..] + pushed);
    if Fits(c, shown, pushed) {
      var x: nat :| FitsAt(c, shown, pushed, x);
      assert x + |page| == a;
      assert shown[|page| - 1] == c[b - 1] && (c[x..] + pushed)[|page| - 1] == c[a - 1];
      SameId(log, user, chat, a - 1, b - 1);
    }
  }

  /** Without requests for the latest page, what is shown is never taken away. */
  lemma {:induction false} PagesOnlyGrow(log: seq<Message>, tab: Tab, events: seq<Event>, user: UserId)
    requires Stays(log, events) && (forall r | r in tab.asked :: r.Older?)
    ensures forall r | r in Browse(tab, events, user).asked :: r.Older?
    ensures Browse(tab, events, user).chat == tab.chat
    ensures |Browse(tab, events, user).view.buffer| >= |Pushes(events, user, tab.chat)|
    decreases |events|
  {
    if events != [] {
      StaysFront(log, events);
      PagesOnlyGrow(log, tab, events[..|events| - 1], user);
      EventOnlyGrows(Browse(tab, events[..|events| - 1], user), events[|events| - 1], user);
    }
  }

  lemma EventOnlyGrows(now: Tab, event: Event, user: UserId)
    requires !event.Open? && forall r | r in now.asked :: r.Older?
    ensures forall r | r in Next(now, event, user).asked :: r.Older?
    ensures Next(now, event, user).chat == now.chat
    ensures |Next(now, event, user).view.buffer| >= |now.view.buffer| + |PushedBy(event, user, now.chat)|
  {
    var more := PutAbove(now, event, user);
  }

  /** What an event other than a reload puts before the shown messages. */
  lemma PutAbove(now: Tab, event: Event, user: UserId) returns (more: seq<Message>)
    requires !event.Open? && forall r | r in now.asked :: r.Older?
    ensures Next(now, event, user).view.buffer == more + (now.view.buffer + PushedBy(event, user, now.chat))
  {
    more := [];
    if event.Answer? && event.k < |now.asked| {
      assert now.asked[event.k] in now.asked;
      more := MessagesJson(event.log, user, now.asked[event.k], true).messages;
    }
  }

  /** What fits after an event other than a reload did before it. */
  lemma FitsBefore(c: seq<Message>, now: Tab, event: Event, user: UserId, pushed: seq<Message>)
    requires !event.Open? && (forall r | r in now.asked :: r.Older?) && |now.view.buffer| >= |pushed|
    requires Fits(c, Next(now, event, user).view.buffer, pushed + PushedBy(event, user, now.chat))
    ensures Fits(c, now.view.buffer, pushed)
  {
    var delta := PushedBy(event, user, now.chat);
    var shown, next := now.view.buffer, Next(now, event, user).view.buffer;
    var x: nat :| FitsAt(c, next, pushed + delta, x);
    var more := PutAbove(now, event, user);
    assert next == (c[x..] + pushed) + delta;
    EndsAt(c, x, pushed, more, shown, delta);
    assert FitsAt(c, shown, pushed, x + |more|);
  }

  lemma EndsAt(c: seq<Message>, x: nat, pushed: seq<Message>,
               more: seq<Message>, shown: seq<Message>, delta: seq<Message>)
    requires x <= |c| && |shown| >= |pushed|
    requires more + (shown + delta) == (c[x..] + pushed) + delta
    ensures x + |more| <= |c| && shown == c[x + |more|..] + pushed
  {
    var whole := (c[x..] + pushed) + delta;
    assert |more| + |shown| == |c| - x + |pushed|;
    assert shown == whole[|more|..|more| + |shown|];
    assert c[x + |more|..] == c[x..][|more|..];
  }

  /** With one request at a time every answer is current. */
  lemma {:induction false} OneAtATimeIsCurrent(log: seq<Message>, tab: Tab, events: seq<Event>, user: UserId)
    requires Stays(log, events) && ChatOf(log, user, tab.chat) != []
    requires tab.view == Loaded(log, user, tab.chat) && tab.asked == [] && Legal(tab, events, user)
    requires OneAtATime(tab, events, user)
    ensures AllCurrent(tab, events, user)
    ensures var now := Browse(tab, events, user);
            now.asked == [] || (|now.asked| == 1 && Current(now, 0))
    decreases |events|
  {
    if events != [] {
      var front, last := events[..|events| - 1], events[|events| - 1];
      StaysFront(log, events);
      OneAtATimeIsCurrent(log, tab, front, user);
      CurrentAnswersExtend(log, tab, front, user);
    }
  }

  /**
   * Two clicks before the first answer, in a chat of more than 50 messages: both are answered with the
   * same page, and the page shows it twice.
   */
  lemma DoubleClickRepeats(log: seq<Message>, tab: Tab, user: UserId)
    requires DistinctIds(log) && |ChatOf(log, user, tab.chat)| > MESSAGE_LOAD_BUF_SIZE
    requires tab.view == Loaded(log, user, tab.chat) && tab.asked == []
    ensures var events := [AskOlder, AskOlder, Answer(0, log), Answer(0, log)];
            var c := ChatOf(log, user, tab.chat);
            && Stays(log, events) && Legal(tab, events, user) && !AllCurrent(tab, events, user)
            && Browse(tab, events, user).view.buffer == PageTwice(c) && Front(c, 1) < Front(c, 0)
  {
    var two := TwoClicks(log, tab, user);
    AnsweredTwice(log, two, user);
    FourEvents(tab, AskOlder, AskOlder, Answer(0, log), Answer(0, log), user);
  }

  function PageTwice(c: seq<Message>): seq<Message> {
    var page, end := c[Front(c, 1)..Front(c, 0)], c[Front(c, 0)..];
    page + (page + end)
  }

  lemma TwoClicks(log: seq<Message>, tab: Tab, user: UserId) returns (two: Tab)
    requires |ChatOf(log, user, tab.chat)| > MESSAGE_LOAD_BUF_SIZE
    requires tab.view == Loaded(log, user, tab.chat) && tab.asked == []
    ensures two == Next(Next(tab, AskOlder, user), AskOlder, user) && two.chat == tab.chat
    ensures AskedTwice(ChatOf(log, user, tab.chat), two)
  {
    FirstPageHeld(log, user, tab.chat);
    two := Next(Next(tab, AskOlder, user), AskOlder, user);
  }

  predicate AskedTwice(c: seq<Message>, two: Tab) {
    && two.view.buffer == c[Front(c, 0)..] && |two.asked| == 2
    && AskedAt(c, two.asked[0], two.chat, Front(c, 0)) && AskedAt(c, two.asked[1], two.chat, Front(c, 0))
  }

  lemma AnsweredTwice(log: seq<Message>, two: Tab, user: UserId)
    requires DistinctIds(log) && |ChatOf(log, user, two.chat)| > MESSAGE_LOAD_BUF_SIZE
    requires AskedTwice(ChatOf(log, user, two.chat), two)
    ensures var c := ChatOf(log, user, two.chat);
            var three := Next(two, Answer(0, log), user);
            && |three.asked| == 1 && !Current(three, 0)
            && Next(three, Answer(0, log), user).view.buffer == PageTwice(c)
  {
    var c := ChatOf(log, user, two.chat);
    var page, end := c[Front(c, 1)..Front(c, 0)], c[Front(c, 0)..];
    AnswerAt(log, log, two, 0, user, Front(c, 0));
    var three := Next(two, Answer(0, log), user);
    assert three.asked == [two.asked[1]] && three.view.buffer == page + end;
    AnswerAt(log, log, three, 0, user, Front(c, 0));
    assert three.view.buffer[0] == c[Front(c, 1)];
    if Current(three, 0) {
      SameId(log, user, two.chat, Front(c, 0), Front(c, 1));
    }
  }

  lemma FourEvents(tab: Tab, a: Event, b: Event, x: Event, y: Event, user: UserId)
    ensures var two := Next(Next(tab, a, user), b, user);
            var three := Next(two, x, user);
            && Browse(tab, [a, b, x, y], user) == Next(three, y, user)
            && (!a.Answer? && !b.Answer? && (x.Answer? ==> x.k < |two.asked|) && (y.Answer? ==> y.k < |three.asked|)
                ==> Legal(tab, [a, b, x, y], user))
            && (AllCurrent(tab, [a, b, x, y], user) && y.Answer? ==> Current(three, y.k))
  {
    var events := [a, b, x, y];
    assert events[..3] == [a, b, x] && [a, b, x][..2] == [a, b] && [a, b][..1] == [a] && [a][..0] == [];
    assert Browse(tab, [], user) == tab && Legal(tab, [], user);
    assert Browse(tab, [a], user) == Next(tab, a, user);
    assert Browse(tab, [a, b], user) == Next(Browse(tab, [a], user), b, user);
    assert Browse(tab, [a, b, x], user) == Next(Browse(tab, [a, b], user), x, user);
    if !a.Answer? && !b.Answer? {
      assert Legal(tab, [a], user) && Legal(tab, [a, b], user);
    }
  }

  /** The answer to a load shows only messages of the open chat exactly if it is that chat's or empty. */
  lemma LoadShowsOpenChat(tab: Tab, k: nat, log: seq<Message>, user: UserId)
    requires k < |tab.asked| && tab.asked[k].Latest?
    ensures (forall m | m in Next(tab, Answer(k, log), user).view.buffer :: InChat(m, user, tab.chat))
       <==> tab.asked[k].chat == tab.chat || ChatOf(log, user, tab.asked[k].chat) == []
  {
    var loaded := tab.asked[k].chat;
    var c := ChatOf(log, user, loaded);
    LatestPage(log, user, loaded);
    forall m | m in c
      ensures InChat(m, user, loaded) && (InChat(m, user, tab.chat) <==> loaded == tab.chat)
    {
      ChatMembers(log, user, loaded, m);
    }
    if c != [] {
      assert c[|c| - 1] in c[Back(|c| - MESSAGE_LOAD_BUF_SIZE)..];
    }
  }

  /** Two chats opened in a row, the first one's messages arriving last: they stay under the second one. */
  lemma LateLoadShowsOtherChat(tab: Tab, first: UserId, second: UserId, log: seq<Message>, user: UserId)
    requires tab.asked == [] && first != second && ChatOf(log, user, first) != []
    ensures var events := [Open(first), Open(second), Answer(1, log), Answer(0, log)];
            var end := Browse(tab, events, user);
            && Legal(tab, events, user) && end.chat == second && end.asked == []
            && end.view == Loaded(log, user, first)
            && exists m :: m in end.view.buffer && !InChat(m, user, second)
  {
    var two := Next(Next(tab, Open(first), user), Open(second), user);
    assert two == Tab(second, tab.view, [Latest(first), Latest(second)]);
    var three := Next(two, Answer(1, log), user);
    assert three.asked == [Latest(first)];
    FourEvents(tab, Open(first), Open(second), Answer(1, log), Answer(0, log), user);
    LoadShowsOpenChat(three, 0, log, user);
  }

  lemma JoinPages(c: seq<Message>, from: nat, a: nat, pushed: seq<Message>)
    requires from <= a <= |c|
    ensures c[from..a] + (c[a..] + pushed) == c[from..] + pushed
    ensures c[from..a] == [] <==> from == a
  {
  }

  /** Messages stored later do not change an older page. */
  lemma LaterPage(log: seq<Message>, later: seq<Message>, user: UserId, chat: UserId, a: nat)
    requires log <= later && DistinctIds(later) && a < |ChatOf(log, user, chat)|
    ensures var c := ChatOf(log, user, chat);
            JsonPage(later, user, chat, Some(c[a].id)) == c[Back(a - MESSAGE_LOAD_BUF_SIZE)..a]
  {
    var c, d := ChatOf(log, user, chat), ChatOf(later, user, chat);
    ChatPrefix(log, later, user, chat);
    PageBefore(later, user, chat, a);
    var from := Back(a - MESSAGE_LOAD_BUF_SIZE);
    assert d[from..a] == c[from..a];
  }

  /** Rounded up. */
  function PagesOf(n: nat): nat {
    (n + MESSAGE_LOAD_BUF_SIZE - 1) / MESSAGE_LOAD_BUF_SIZE
  }

  /**
   * While every answer is current: counting the first load, the answer that finds nothing is number
   * ceil(n / 50) + 1. Before it the page does not know that it has everything, after it the page shows
   * the whole chat and knows.
   */
  lemma PagingEndsExactly(log: seq<Message>, tab: Tab, events: seq<Event>, user: UserId)
    requires Stays(log, events) && ChatOf(log, user, tab.chat) != [] && tab.view == Loaded(log, user, tab.chat)
    requires AllCurrent(tab, events, user)
    ensures var c, view := ChatOf(log, user, tab.chat), Browse(tab, events, user).view;
            && (view.noMore <==> Answers(events) + 1 >= PagesOf(|c|) + 1)
            && (view.noMore ==> view.buffer == c + Pushes(events, user, tab.chat))
  {
    CurrentAnswersExtend(log, tab, events, user);
    var n, k := |ChatOf(log, user, tab.chat)|, Answers(events);
    assert MESSAGE_LOAD_BUF_SIZE * k >= n <==> k >= PagesOf(n);
  }

  /** Under the same condition, the page asks for nothing more exactly from then on. */
  lemma CompleteAsksNothing(log: seq<Message>, tab: Tab, events: seq<Event>, user: UserId)
    requires Stays(log, events) && ChatOf(log, user, tab.chat) != [] && tab.view == Loaded(log, user, tab.chat)
    requires AllCurrent(tab, events, user)
    ensures var now, c := Browse(tab, events, user), ChatOf(log, user, tab.chat);
            && (Answers(events) >= PagesOf(|c|) ==> Next(now, AskOlder, user) == now)
            && (Answers(events) < PagesOf(|c|) ==> |Next(now, AskOlder, user).asked| == |now.asked| + 1)
  {
    PagingEndsExactly(log, tab, events, user);
    var now := Browse(tab, events, user);
    assert now.asked + [] == now.asked;
  }

  /** An empty chat loads as an empty page, and the next answer ends it if nothing was stored meanwhile. */
  lemma EmptyChat(log: seq<Message>, later: seq<Message>, user: UserId, chat: UserId)
    requires ChatOf(log, user, chat) == []
    ensures Loaded(log, user, chat) == View([], false)
    ensures OlderRequest(Loaded(log, user, chat), chat) == [Older(chat, None)]
    ensures var response := MessagesJson(later, user, Older(chat, None), true);
            Answered(Loaded(log, user, chat), Older(chat, None), response).noMore <==> ChatOf(later, user, chat) == []
  {
    LatestPage(log, user, chat);
    LatestPage(later, user, chat);
  }

  /** Without a session no request shows, takes away or ends anything. */
  lemma NoSessionChangesNothing(view: View, log: seq<Message>, user: UserId, request: Request)
    ensures !MessagesJson(log, user, request, false).success && MessagesJson(log, user, request, false).messages == []
    ensures Answered(view, request, MessagesJson(log, user, request, false)) == view
  {
  }

  /** The start of the last fifty of n, or of all if there are fewer. */
  function LastFifty(n: nat): (from: nat)
    ensures from <= n && n - from == if n < 50 then n else 50
  {
    if n < 50 then 0 else n - 50
  }

  /** A chat that was just loaded shows its last fifty messages, oldest first, or all of them if there are fewer. */
  lemma FirstPageShows(log: seq<Message>, user: UserId, chat: UserId)
    ensures Loaded(log, user, chat) == View(ChatOf(log, user, chat)[LastFifty(|ChatOf(log, user, chat)|)..], false)
  {
    LatestPage(log, user, chat);
    assert Back(|ChatOf(log, user, chat)| - MESSAGE_LOAD_BUF_SIZE) == LastFifty(|ChatOf(log, user, chat)|);
  }
}

/**
 * Live message delivery as a transition system: sends that persist and then publish,
 * subscriptions that register and then fetch their history, and the cleanup job.
 *
 * The history is what the store answers, and there are two stores, the in-memory and the relational one.
 *
 * One step is one critical section or one atomic call. A publish holds the read lock from its
 * first to its second send, so registration and cleanup, which take the write lock, wait for
 * every send that is in the middle of publishing.
 */
module Delivery {
  import opened Wrappers
  import opened Messages
  import opened Pipelines
  import opened Histories

  datatype Phase =
    | Created     // id and timestamp chosen
    | Persisted   // stored in the message log
    | Publishing  // offered to the sender's own channel, read lock held
    | Completed   // offered to every channel it is due to
    | CutShort    // the sender's own channel had no receivers: publishing was abandoned there
    | Failed      // the store refused it

  datatype Send = Send(message: Message, phase: Phase)

  /** A broadcast channel: everything ever accepted by it. Receivers see the last `capacity` items. */
  datatype Channel = Channel(owner: UserId, sent: seq<Message>)

  datatype Progress = Registered | Streaming | Abandoned

  datatype Subscription = Subscription(
    user: UserId,
    start: Option<MessageId>,
    channel: nat,
    joined: nat,                     // length of the channel when the receiver was created
    next: nat,                       // what the receiver reads next
    storedBefore: nat,               // length of the message log when the receiver was created
    publishedBefore: set<MessageId>, // what had been offered to the user's channel by then
    progress: Progress,
    fetched: nat,                    // length of the message log when the history was read
    history: seq<Message>,
    pipe: Pipeline<Message>)

  datatype State = State(
    backend: Backend,
    capacity: nat,
    log: seq<Message>,
    sends: map<MessageId, Send>,
    routes: map<UserId, nat>,        // the map new_messages, to channel numbers
    channels: seq<Channel>,
    subs: seq<Subscription>)

  datatype Step =
    | Create(message: Message)
    | Persist(id: MessageId)
    | FailToPersist(id: MessageId)
    | PublishToSender(id: MessageId)
    | PublishToReceiver(id: MessageId)
    | Register(user: UserId, start: Option<MessageId>)
    | OpenStream(sub: nat, history: seq<Message>) // read the history, as the store answers, and start forwarding
    | Abandon(sub: nat)          // reading the history failed: the receiver is dropped
    | Receive(sub: nat)          // stage 0 receives the next message of the channel
    | Lag(sub: nat)              // stage 0 is told that it missed messages
    | SeeChannelClosed(sub: nat) // stage 0 is told that the channel is gone
    | Pump(sub: nat, pipeStep: PipeStep<Message>)
    | Cleanup

  function Init(backend: Backend, capacity: nat): State {
    State(backend, capacity, [], map[], map[], [], [])
  }

  // Receivers

  /** The broadcast receiver of this subscription exists. */
  predicate Attached(sub: Subscription) {
    sub.progress.Registered? || (sub.progress.Streaming? && |sub.pipe.running| > 0 && sub.pipe.running[0])
  }

  ghost predicate HasReceivers(s: State, c: nat) {
    exists i :: 0 <= i < |s.subs| && Attached(s.subs[i]) && s.subs[i].channel == c
  }

  ghost predicate NobodyPublishes(s: State) {
    forall id | id in s.sends :: !s.sends[id].phase.Publishing?
  }

  // Shape

  ghost predicate SubShaped(s: State, sub: Subscription) {
    && sub.channel < |s.channels|
    && sub.joined <= sub.next <= |s.channels[sub.channel].sent|
    && Valid(sub.pipe)
  }

  ghost predicate Shaped(s: State) {
    && s.capacity >= 1
    && (forall u | u in s.routes :: s.routes[u] < |s.channels|)
    && forall i | 0 <= i < |s.subs| :: SubShaped(s, s.subs[i])
  }

  // Steps

  ghost predicate SendIs(s: State, id: MessageId, phase: Phase) {
    id in s.sends && s.sends[id].phase == phase
  }

  ghost predicate SubIs(s: State, i: nat, progress: Progress) {
    i < |s.subs| && s.subs[i].progress == progress
  }

  function Behind(s: State, sub: Subscription): int
    requires sub.channel < |s.channels|
  {
    |s.channels[sub.channel].sent| - sub.next
  }

  ghost predicate Enabled(s: State, step: Step) {
    && Shaped(s)
    && match step
       case Create(m) => m.id !in s.sends
       case Persist(id) => SendIs(s, id, Created)
       case FailToPersist(id) => SendIs(s, id, Created)
       case PublishToSender(id) => SendIs(s, id, Persisted)
       case PublishToReceiver(id) => SendIs(s, id, Publishing)
       case Register(_, _) => NobodyPublishes(s)
       case OpenStream(i, history) =>
         SubIs(s, i, Registered) && Answers(s.backend, s.log, s.subs[i].user, s.subs[i].start, history)
       case Abandon(i) => SubIs(s, i, Registered) && s.subs[i].start.Some?
       case Receive(i) =>
         && SubIs(s, i, Streaming) && s.subs[i].pipe.running[0]
         && 0 < Behind(s, s.subs[i]) <= s.capacity
       case Lag(i) =>
         && SubIs(s, i, Streaming) && s.subs[i].pipe.running[0]
         && Behind(s, s.subs[i]) > s.capacity
       case SeeChannelClosed(i) =>
         && SubIs(s, i, Streaming) && s.subs[i].pipe.running[0]
         && Behind(s, s.subs[i]) == 0
         && s.subs[i].channel !in s.routes.Values
       case Pump(i, pipeStep) =>
         && SubIs(s, i, Streaming)
         && !pipeStep.Accept? && !pipeStep.SourceEnds?
         && CanStep(s.subs[i].pipe, pipeStep)
       case Cleanup => NobodyPublishes(s)
  }

  function SetPhase(s: State, id: MessageId, phase: Phase): State
    requires id in s.sends
  {
    s.(sends := s.sends[id := s.sends[id].(phase := phase)])
  }

  function SetSub(s: State, i: nat, sub: Subscription): State
    requires i < |s.subs|
  {
    s.(subs := s.subs[i := sub])
  }

  function Broadcast(s: State, c: nat, m: Message): State
    requires c < |s.channels|
  {
    s.(channels := s.channels[c := s.channels[c].(sent := s.channels[c].sent + [m])])
  }

  /** Offers the message to the sender's channel; an error there ends the publish. */
  ghost function PublishToSenderStep(s: State, id: MessageId): State
    requires Shaped(s) && id in s.sends
  {
    var m := s.sends[id].message;
    if m.from !in s.routes then SetPhase(s, id, Publishing)
    else if HasReceivers(s, s.routes[m.from]) then SetPhase(Broadcast(s, s.routes[m.from], m), id, Publishing)
    else SetPhase(s, id, CutShort)
  }

  ghost function PublishToReceiverStep(s: State, id: MessageId): State
    requires Shaped(s) && id in s.sends
  {
    var m := s.sends[id].message;
    if m.from != m.to && m.to in s.routes && HasReceivers(s, s.routes[m.to])
    then SetPhase(Broadcast(s, s.routes[m.to], m), id, Completed)
    else SetPhase(s, id, Completed)
  }

  /** The message has been offered to this user's channel, or publishing it was abandoned. */
  predicate Attempted(send: Send, user: UserId) {
    match send.phase
    case Publishing => user == send.message.from
    case Completed => Involves(send.message, user)
    case CutShort => Involves(send.message, user)
    case _ => false
  }

  /** The queues between the broadcast receiver and the connection: two, or three with a history. */
  function NewPipe(start: Option<MessageId>, history: seq<Message>): Pipeline<Message> {
    match start
    case None => Pipeline([[], []], [true, true, true], [])
    case Some(_) => Pipeline([[], history, []], [true, true, true, true], [])
  }

  ghost function RegisterStep(s: State, user: UserId, start: Option<MessageId>): State
    requires Shaped(s)
  {
    var c := if user in s.routes then s.routes[user] else |s.channels|;
    var s1 := if user in s.routes then s
              else s.(routes := s.routes[user := c], channels := s.channels + [Channel(user, [])]);
    var position := |s1.channels[c].sent|;
    var published := set id | id in s.sends && Attempted(s.sends[id], user);
    s1.(subs := s1.subs + [Subscription(user, start, c, position, position, |s.log|, published,
                                        Registered, 0, [], NewPipe(None, []))])
  }

  function OpenStreamStep(s: State, i: nat, history: seq<Message>): State
    requires i < |s.subs|
  {
    var sub := s.subs[i];
    SetSub(s, i, sub.(progress := Streaming, fetched := |s.log|, history := history,
                      pipe := NewPipe(sub.start, history)))
  }

  ghost function ReceiveStep(s: State, i: nat): State
    requires i < |s.subs| && SubShaped(s, s.subs[i]) && s.subs[i].pipe.running[0] && Behind(s, s.subs[i]) > 0
  {
    var sub := s.subs[i];
    var m := s.channels[sub.channel].sent[sub.next];
    var pipe := if m.id in Ids(sub.history) then sub.pipe else StepPipe(sub.pipe, Accept(m));
    SetSub(s, i, sub.(next := sub.next + 1, pipe := pipe))
  }

  ghost function Apply(s: State, step: Step): State
    requires Enabled(s, step)
  {
    match step
    case Create(m) => s.(sends := s.sends[m.id := Send(m, Created)])
    case Persist(id) => SetPhase(s.(log := s.log + [s.sends[id].message]), id, Persisted)
    case FailToPersist(id) => SetPhase(s, id, Failed)
    case PublishToSender(id) => PublishToSenderStep(s, id)
    case PublishToReceiver(id) => PublishToReceiverStep(s, id)
    case Register(user, start) => RegisterStep(s, user, start)
    case OpenStream(i, history) => OpenStreamStep(s, i, history)
    case Abandon(i) => SetSub(s, i, s.subs[i].(progress := Abandoned))
    case Receive(i) => ReceiveStep(s, i)
    case Lag(i) => SetSub(s, i, s.subs[i].(pipe := StepPipe(s.subs[i].pipe, SourceEnds)))
    case SeeChannelClosed(i) => SetSub(s, i, s.subs[i].(pipe := StepPipe(s.subs[i].pipe, SourceEnds)))
    case Pump(i, pipeStep) => SetSub(s, i, s.subs[i].(pipe := StepPipe(s.subs[i].pipe, pipeStep)))
    case Cleanup => s.(routes := map u | u in s.routes && HasReceivers(s, s.routes[u]) :: s.routes[u])
  }

  // Runs

  ghost predicate Legal(s: State, steps: seq<Step>)
    decreases |steps|
  {
    steps != [] ==> Enabled(s, steps[0]) && Legal(Apply(s, steps[0]), steps[1..])
  }

  ghost function Run(s: State, steps: seq<Step>): State
    requires Legal(s, steps)
    decreases |steps|
  {
    if steps == [] then s else Run(Apply(s, steps[0]), steps[1..])
  }
}

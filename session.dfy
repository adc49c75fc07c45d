/** The ephemeral chat session of the chat page, as a state machine over
    values: the component's state, one step function per event (the
    one-second tick, typing, sending, the delayed peer echo and the AI
    advisor's outcome), runs of events, and the invariants they keep. The
    class in module ChatPage holds the same state in fields and is proved
    against these functions. */
module ChatSession {
  import opened JsString

  datatype Sender = User | Peer | System

  /** A chat message. Ids are numbers: 0 stands for the opening notice's
      literal id, and every later message takes the next unused number, in
      place of a random UUID. Timestamps are milliseconds. */
  datatype Message = Message(id: nat, timestamp: int, text: string, sender: Sender)

  const InitialTimeoutSeconds: int := 300
  const ActivityWindowMs: int := 60000
  const ExpiredNotice: string := "Session expired due to inactivity."
  const PeerEcho: string := "Message received."
  const AdvisorPrefix: string := "AI Advisor: "
  const AdvisorUnreachable: string := "Could not reach AI advisor. Session timeout remains unchanged."

  function StartNotice(chatId: string): string {
    "Session started. Code: " + chatId
    + ". This chat is ephemeral and will expire after a period of inactivity."
  }

  /** The component's state. `pendingEchoes` counts the peer echoes that
      accepted sends have scheduled and that have not fired yet; `nextId` is
      the next unused message id. */
  datatype State = State(
    messages: seq<Message>,
    inputValue: string,
    sessionActive: bool,
    timeoutSeconds: int,
    timeLeft: int,
    isSending: bool,
    pendingEchoes: nat,
    nextId: nat)

  /** What the send handler passes to the timeout evaluator. */
  datatype EvaluatorRequest = EvaluatorRequest(
    messageContent: string,
    userActivityLevel: int,
    currentTimeout: int)

  /** How the evaluator call ends: with a new timeout and a reason, or by
      throwing (transport failure, malformed reply, missing output). */
  datatype EvaluatorOutcome = Succeeded(newTimeout: int, reason: string) | Failed

  function Initial(chatId: string, now: int): State {
    State([Message(0, now, StartNotice(chatId), System)], "", true,
          InitialTimeoutSeconds, InitialTimeoutSeconds, false, 0, 1)
  }

  /** Appends one message stamped `now` under a fresh id. */
  function Append(s: State, now: int, text: string, sender: Sender): (r: State)
    ensures r.messages == s.messages + [Message(s.nextId, now, text, sender)]
    ensures r.nextId == s.nextId + 1
  {
    s.(messages := s.messages + [Message(s.nextId, now, text, sender)],
       nextId := s.nextId + 1)
  }

  // ----- the one-second tick -----

  /** One firing of the one-second interval. The interval only runs while
      the session is active; at 1 second or less the session expires, the
      countdown shows 0 and the expiry notice is appended. */
  function TickStep(s: State, now: int): (r: State)
    ensures !s.sessionActive ==> r == s
    ensures s.sessionActive ==> r.timeLeft >= 0
    ensures r.sessionActive ==> s.sessionActive
    ensures s.sessionActive && s.timeLeft > 1 ==> r == s.(timeLeft := s.timeLeft - 1)
    ensures s.sessionActive && s.timeLeft <= 1 ==>
      r == s.(timeLeft := 0, sessionActive := false,
              messages := s.messages + [Message(s.nextId, now, ExpiredNotice, System)],
              nextId := s.nextId + 1)
  {
    if !s.sessionActive then s
    else if s.timeLeft <= 1 then
      Append(s.(timeLeft := 0, sessionActive := false), now, ExpiredNotice, System)
    else s.(timeLeft := s.timeLeft - 1)
  }

  // ----- typing -----

  /** The text area's change handler. The text area is disabled while the
      session is inactive or a send is in flight, so no edit happens then. */
  function EditStep(s: State, text: string): (r: State)
    ensures r == s.(inputValue := if !s.sessionActive || s.isSending then s.inputValue else text)
  {
    if !s.sessionActive || s.isSending then s else s.(inputValue := text)
  }

  // ----- sending -----

  /** The send handler's guard: there is non-blank input, the session is
      active and no send is in flight. The input counts as non-blank when it
      holds a character other than whitespace, so an input of spaces and line
      breaks is refused. */
  function SendAccepted(s: State): (accepted: bool)
    ensures accepted <==> !AllWhitespace(s.inputValue) && s.sessionActive && !s.isSending
  {
    Trim(s.inputValue) != [] && s.sessionActive && !s.isSending
  }

  /** The number of messages the user sent within the trailing window before
      `now`. A message stamped after `now` also counts. */
  function RecentUserCount(msgs: seq<Message>, now: int): (n: nat)
    ensures n <= UserCount(msgs)
  {
    if msgs == [] then 0
    else
      var last := msgs[|msgs| - 1];
      RecentUserCount(msgs[..|msgs| - 1], now)
      + (if last.sender == User && now - last.timestamp < ActivityWindowMs then 1 else 0)
  }

  function UserCount(msgs: seq<Message>): nat {
    if msgs == [] then 0
    else UserCount(msgs[..|msgs| - 1]) + (if msgs[|msgs| - 1].sender == User then 1 else 0)
  }

  /** The activity level sent to the evaluator: the recent user messages of
      the log as it stood before this send, plus one for the message being
      sent. */
  function ActivityLevel(msgs: seq<Message>, now: int): (level: int)
    ensures 1 <= level <= 1 + UserCount(msgs)
  {
    RecentUserCount(msgs, now) + 1
  }

  /** An accepted send marks a send in flight, appends the user's message
      with the untrimmed input, clears the input, schedules one peer echo and
      resets the countdown to the current timeout, which itself stays put.
      A rejected send changes nothing. */
  function SendStep(s: State, now: int): (r: State)
    ensures !SendAccepted(s) ==> r == s
    ensures SendAccepted(s) ==>
      r == s.(isSending := true, inputValue := "", timeLeft := s.timeoutSeconds,
              messages := s.messages + [Message(s.nextId, now, s.inputValue, User)],
              pendingEchoes := s.pendingEchoes + 1, nextId := s.nextId + 1)
  {
    if !SendAccepted(s) then s
    else
      Append(s.(isSending := true, inputValue := "", timeLeft := s.timeoutSeconds,
                pendingEchoes := s.pendingEchoes + 1),
             now, s.inputValue, User)
  }

  /** The evaluator request an accepted send makes, from the state it
      started in. */
  function SendRequest(s: State, now: int): (req: EvaluatorRequest)
    ensures req.messageContent == s.inputValue && req.currentTimeout == s.timeoutSeconds
    ensures 1 <= req.userActivityLevel <= 1 + UserCount(s.messages)
  {
    EvaluatorRequest(s.inputValue, ActivityLevel(s.messages, now), s.timeoutSeconds)
  }

  // ----- the delayed peer echo -----

  /** A scheduled peer echo fires. Nothing cancels it, so it fires after
      expiry too. */
  function EchoStep(s: State, now: int): (r: State)
    requires s.pendingEchoes > 0
    ensures r.messages == s.messages + [Message(s.nextId, now, PeerEcho, Peer)]
    ensures r.pendingEchoes == s.pendingEchoes - 1
    ensures r == s.(messages := s.messages + [Message(s.nextId, now, PeerEcho, Peer)],
                    pendingEchoes := s.pendingEchoes - 1, nextId := s.nextId + 1)
  {
    Append(s.(pendingEchoes := s.pendingEchoes - 1), now, PeerEcho, Peer)
  }

  // ----- the evaluator's outcome -----

  /** The in-flight evaluator call ends. On success both the timeout and the
      countdown become the returned value, with no floor, and the advisor's
      reason is appended; on failure the timeout stays and one notice is
      appended. Either way no send is in flight afterwards, and a result that
      arrives after expiry does not reactivate the session. */
  function ResolveStep(s: State, outcome: EvaluatorOutcome, now: int): (r: State)
    requires s.isSending
    ensures !r.isSending && r.sessionActive == s.sessionActive
    ensures r.inputValue == s.inputValue && r.pendingEchoes == s.pendingEchoes
    ensures outcome.Succeeded? ==>
      r == s.(timeoutSeconds := outcome.newTimeout, timeLeft := outcome.newTimeout,
              isSending := false, nextId := s.nextId + 1,
              messages := s.messages + [Message(s.nextId, now, AdvisorPrefix + outcome.reason, System)])
    ensures outcome.Failed? ==>
      r == s.(isSending := false, nextId := s.nextId + 1,
              messages := s.messages + [Message(s.nextId, now, AdvisorUnreachable, System)])
  {
    match outcome
    case Succeeded(newTimeout, reason) =>
      Append(s.(timeoutSeconds := newTimeout, timeLeft := newTimeout, isSending := false),
             now, AdvisorPrefix + reason, System)
    case Failed =>
      Append(s.(isSending := false), now, AdvisorUnreachable, System)
  }

  // ----- the countdown display -----

  /** The "Xm Ys" split of the countdown: `Math.floor(t / 60)` and JavaScript's
      `t % 60`, whose remainder takes the sign of `t`. */
  function CountdownDisplay(t: int): (ms: (int, int))
    ensures t >= 0 ==> ms.0 >= 0 && 60 * ms.0 + ms.1 == t && 0 <= ms.1 < 60
    ensures t < 0 ==> ms.0 < 0 && -60 < ms.1 <= 0
  {
    (t / 60, if t >= 0 then t % 60 else -((-t) % 60))
  }

  // ----- runs of events -----

  datatype Event =
    | Tick(now: int)
    | Edit(text: string)
    | Send(now: int)
    | Echo(now: int)
    | Resolve(outcome: EvaluatorOutcome, now: int)

  /** An echo needs one scheduled, and an outcome needs a call in flight. */
  predicate Enabled(s: State, e: Event) {
    (e.Echo? ==> s.pendingEchoes > 0) && (e.Resolve? ==> s.isSending)
  }

  function Apply(s: State, e: Event): (r: State)
    requires Enabled(s, e)
    ensures s.messages <= r.messages && |r.messages| <= |s.messages| + 1
    ensures r.sessionActive ==> s.sessionActive
  {
    match e
    case Tick(now) => TickStep(s, now)
    case Edit(text) => EditStep(s, text)
    case Send(now) => SendStep(s, now)
    case Echo(now) => EchoStep(s, now)
    case Resolve(outcome, now) => ResolveStep(s, outcome, now)
  }

  /** Applies the events in order, passing over each one that cannot happen
      in the state it meets. */
  function Run(s: State, events: seq<Event>): State
    decreases |events|
  {
    if events == [] then s
    else if Enabled(s, events[0]) then Run(Apply(s, events[0]), events[1..])
    else Run(s, events[1..])
  }

  /** Only ticks, stamped with the given times. */
  function RunTicks(s: State, times: seq<int>): State
    decreases |times|
  {
    if times == [] then s else RunTicks(TickStep(s, times[0]), times[1..])
  }

  // ----- invariants -----

  predicate IsExpiryNotice(m: Message) {
    m.sender == System && m.text == ExpiredNotice
  }

  function ExpiryNotices(msgs: seq<Message>): nat {
    if msgs == [] then 0
    else ExpiryNotices(msgs[..|msgs| - 1]) + (if IsExpiryNotice(msgs[|msgs| - 1]) then 1 else 0)
  }

  /** The log is never empty, its ids are distinct and below `nextId`, and it
      holds one expiry notice once the session has expired and none before. */
  predicate Inv(s: State) {
    s.messages != []
    && (forall i :: 0 <= i < |s.messages| ==> s.messages[i].id < s.nextId)
    && (forall i, j :: 0 <= i < j < |s.messages| ==> s.messages[i].id != s.messages[j].id)
    && ExpiryNotices(s.messages) == if s.sessionActive then 0 else 1
  }

  lemma ExpiryNoticesAppend(msgs: seq<Message>, m: Message)
    ensures ExpiryNotices(msgs + [m]) == ExpiryNotices(msgs) + if IsExpiryNotice(m) then 1 else 0
  {
    assert (msgs + [m])[..|msgs + [m]| - 1] == msgs;
  }

  lemma InitialInv(chatId: string, now: int)
    ensures Inv(Initial(chatId, now))
  {
    var m := Initial(chatId, now).messages[0];
    assert m.text[8] != ExpiredNotice[8];
    ExpiryNoticesAppend([], m);
    assert [] + [m] == [m];
  }

  /** Appending any message but the expiry notice keeps the invariant. */
  lemma AppendKeepsInv(s: State, now: int, text: string, sender: Sender)
    requires Inv(s) && !IsExpiryNotice(Message(s.nextId, now, text, sender))
    ensures Inv(Append(s, now, text, sender))
  {
    ExpiryNoticesAppend(s.messages, Message(s.nextId, now, text, sender));
  }

  lemma TickKeepsInv(s: State, now: int)
    requires Inv(s)
    ensures Inv(TickStep(s, now))
  {
    if s.sessionActive && s.timeLeft <= 1 {
      ExpiryNoticesAppend(s.messages, Message(s.nextId, now, ExpiredNotice, System));
    }
  }

  lemma SendKeepsInv(s: State, now: int)
    requires Inv(s)
    ensures Inv(SendStep(s, now))
  {
    if SendAccepted(s) {
      AppendKeepsInv(s.(isSending := true, inputValue := "", timeLeft := s.timeoutSeconds,
                        pendingEchoes := s.pendingEchoes + 1),
                     now, s.inputValue, User);
    }
  }

  lemma ResolveKeepsInv(s: State, outcome: EvaluatorOutcome, now: int)
    requires Inv(s) && s.isSending
    ensures Inv(ResolveStep(s, outcome, now))
  {
    match outcome
    case Succeeded(t, reason) =>
      var text := AdvisorPrefix + reason;
      assert text[0] != ExpiredNotice[0];
      AppendKeepsInv(s.(timeoutSeconds := t, timeLeft := t, isSending := false), now, text, System);
    case Failed =>
      assert |AdvisorUnreachable| != |ExpiredNotice|;
      AppendKeepsInv(s.(isSending := false), now, AdvisorUnreachable, System);
  }

  /** Every enabled event keeps the invariant. */
  lemma ApplyKeepsInv(s: State, e: Event)
    requires Inv(s) && Enabled(s, e)
    ensures Inv(Apply(s, e))
  {
    match e
    case Tick(now) => TickKeepsInv(s, now);
    case Edit(_) =>
    case Send(now) => SendKeepsInv(s, now);
    case Echo(now) => AppendKeepsInv(s.(pendingEchoes := s.pendingEchoes - 1), now, PeerEcho, Peer);
    case Resolve(outcome, now) => ResolveKeepsInv(s, outcome, now);
  }

  lemma {:induction false} RunKeepsInv(s: State, events: seq<Event>)
    requires Inv(s)
    ensures Inv(Run(s, events))
    decreases |events|
  {
    if events != [] {
      if Enabled(s, events[0]) {
        ApplyKeepsInv(s, events[0]);
        RunKeepsInv(Apply(s, events[0]), events[1..]);
      } else {
        RunKeepsInv(s, events[1..]);
      }
    }
  }

  // ----- properties of whole sessions -----

  /** The log only grows: whatever happens, the old log is a prefix of the
      new one, and each event adds at most one message. */
  lemma {:induction false} RunExtendsLog(s: State, events: seq<Event>)
    ensures s.messages <= Run(s, events).messages
    ensures |Run(s, events).messages| <= |s.messages| + |events|
    decreases |events|
  {
    if events != [] {
      if Enabled(s, events[0]) {
        RunExtendsLog(Apply(s, events[0]), events[1..]);
      } else {
        RunExtendsLog(s, events[1..]);
      }
    }
  }

  /** Expiry is terminal: once the session is inactive no event, not even
      a late evaluator success, makes it active again. */
  lemma {:induction false} ExpiryIsTerminal(s: State, events: seq<Event>)
    requires !s.sessionActive
    ensures !Run(s, events).sessionActive
    decreases |events|
  {
    if events != [] {
      if Enabled(s, events[0]) {
        ExpiryIsTerminal(Apply(s, events[0]), events[1..]);
      } else {
        ExpiryIsTerminal(s, events[1..]);
      }
    }
  }

  /** In any session, from its start onwards, the expiry notice appears at
      most once, and exactly once when the session has expired. */
  lemma ExpiryNoticeAtMostOnce(chatId: string, now: int, events: seq<Event>)
    ensures var r := Run(Initial(chatId, now), events);
      ExpiryNotices(r.messages) <= 1
      && (ExpiryNotices(r.messages) == 1 <==> !r.sessionActive)
  {
    InitialInv(chatId, now);
    RunKeepsInv(Initial(chatId, now), events);
  }

  /** Message ids stay distinct throughout a session. */
  lemma MessageIdsDistinct(chatId: string, now: int, events: seq<Event>)
    ensures var msgs := Run(Initial(chatId, now), events).messages;
      forall i, j :: 0 <= i < j < |msgs| ==> msgs[i].id != msgs[j].id
  {
    InitialInv(chatId, now);
    RunKeepsInv(Initial(chatId, now), events);
  }

  lemma {:induction false} TicksAfterExpiryChangeNothing(s: State, times: seq<int>)
    requires !s.sessionActive
    ensures RunTicks(s, times) == s
    decreases |times|
  {
    if times != [] {
      TicksAfterExpiryChangeNothing(s, times[1..]);
    }
  }

  /** Before the k-th tick (k the seconds left) the session is still active
      and the countdown has gone down by one per tick, with nothing else
      changed. */
  lemma {:induction false} TicksCountDown(s: State, times: seq<int>)
    requires s.sessionActive && |times| < s.timeLeft
    ensures RunTicks(s, times) == s.(timeLeft := s.timeLeft - |times|)
    decreases |times|
  {
    if times != [] {
      TicksCountDown(s.(timeLeft := s.timeLeft - 1), times[1..]);
    }
  }

  /** With k seconds left (k at least 1) and no send, the session expires on
      exactly the k-th tick: the countdown is 0 and the one message added is
      the expiry notice stamped with that tick's time. */
  lemma {:induction false} ExpiresOnKthTick(s: State, times: seq<int>)
    requires s.sessionActive && |times| == s.timeLeft >= 1
    ensures RunTicks(s, times) ==
      s.(timeLeft := 0, sessionActive := false,
         messages := s.messages + [Message(s.nextId, times[|times| - 1], ExpiredNotice, System)],
         nextId := s.nextId + 1)
    decreases |times|
  {
    if s.timeLeft == 1 {
      TicksAfterExpiryChangeNothing(TickStep(s, times[0]), times[1..]);
    } else {
      ExpiresOnKthTick(s.(timeLeft := s.timeLeft - 1), times[1..]);
    }
  }

  /** The "+ 1" of the activity level stands for the message being sent: it
      equals the count of recent user messages in the log just after the
      send appended it. */
  lemma ActivityLevelCountsSentMessage(s: State, now: int)
    requires SendAccepted(s)
    ensures SendRequest(s, now).userActivityLevel
         == RecentUserCount(SendStep(s, now).messages, now)
  {
    var msgs := SendStep(s, now).messages;
    assert msgs[..|msgs| - 1] == s.messages;
  }

  lemma NonBlankInput()
    ensures Trim("hi") != []
  {
    assert !IsWhitespace("hi"[0]);
  }

  /** Nothing holds the timeout to a floor of 60 seconds: an advisor answer
      of 10 seconds becomes the timeout and the countdown as it is. */
  lemma AdvisorTimeoutIsNotClamped(chatId: string, now: int)
    ensures var sent := SendStep(EditStep(Initial(chatId, now), "hi"), now);
      sent.isSending
      && var r := ResolveStep(sent, Succeeded(10, "short"), now);
      r.sessionActive && r.timeoutSeconds == 10 && r.timeLeft == 10
  {
    NonBlankInput();
  }
}

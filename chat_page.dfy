/** The chat page component's session state held in place: one object whose
    fields are the component's state variables, and one method per event
    that updates them. Each event method is proved to move the object exactly
    as the matching step function of ChatSession moves a state value, and to
    keep that module's invariant. */
module ChatComponent {
  import opened JsString
  import opened ChatSession

  datatype Option<T> = None | Some(value: T)

  class ChatPage {
    var messages: seq<Message>
    var inputValue: string
    var sessionActive: bool
    var timeoutSeconds: int
    var timeLeft: int
    var isSending: bool
    /** Peer echoes scheduled by accepted sends that have not fired yet. */
    var pendingEchoes: nat
    /** The next unused message id. */
    var nextId: nat

    /** The fields as a ChatSession state value. */
    function Snapshot(): State
      reads this
    {
      State(messages, inputValue, sessionActive, timeoutSeconds, timeLeft,
            isSending, pendingEchoes, nextId)
    }

    ghost predicate Valid()
      reads this
    {
      Inv(Snapshot())
    }

    /** Mounting the page for session `chatId`: the log holds the opening
        notice, the input is empty, the session is active and both the
        timeout and the countdown are 300 seconds. */
    constructor (chatId: string, now: int)
      ensures Valid() && Snapshot() == Initial(chatId, now)
    {
      messages := [Message(0, now, StartNotice(chatId), System)];
      inputValue := "";
      sessionActive := true;
      timeoutSeconds := InitialTimeoutSeconds;
      timeLeft := InitialTimeoutSeconds;
      isSending := false;
      pendingEchoes := 0;
      nextId := 1;
      InitialInv(chatId, now);
    }

    /** `setMessages(prev => [...prev, m])` with a freshly minted id. */
    method AppendMessage(now: int, text: string, sender: Sender)
      modifies this
      ensures Snapshot() == Append(old(Snapshot()), now, text, sender)
    {
      messages := messages + [Message(nextId, now, text, sender)];
      nextId := nextId + 1;
    }

    /** `resetTimer(newTimeout)`: both the timeout and the countdown take the
        new value; nothing else changes. */
    method ResetTimer(newTimeout: int)
      modifies this
      ensures Snapshot() == old(Snapshot()).(timeoutSeconds := newTimeout, timeLeft := newTimeout)
    {
      timeoutSeconds := newTimeout;
      timeLeft := newTimeout;
    }

    /** One firing of the one-second interval (which runs only while the
        session is active). */
    method Tick(now: int)
      requires Valid()
      modifies this
      ensures Valid() && Snapshot() == TickStep(old(Snapshot()), now)
    {
      TickKeepsInv(Snapshot(), now);
      if !sessionActive {
        return;
      }
      if timeLeft <= 1 {
        sessionActive := false;
        AppendMessage(now, ExpiredNotice, System);
        timeLeft := 0;
      } else {
        timeLeft := timeLeft - 1;
      }
    }

    /** The text area's change handler; the text area is disabled while the
        session is inactive or a send is in flight. */
    method EditInput(text: string)
      requires Valid()
      modifies this
      ensures Valid() && Snapshot() == EditStep(old(Snapshot()), text)
    {
      if sessionActive && !isSending {
        inputValue := text;
      }
    }

    /** The send handler up to the evaluator call: the guard, the optimistic
        steps, scheduling the peer echo, and the request it sends (computed
        from the log as it was before the user's message went in). A
        rejected send returns no request and changes nothing. */
    method SendMessage(now: int) returns (request: Option<EvaluatorRequest>)
      requires Valid()
      modifies this
      ensures Valid() && Snapshot() == SendStep(old(Snapshot()), now)
      ensures request == if SendAccepted(old(Snapshot())) then Some(SendRequest(old(Snapshot()), now)) else None
    {
      if Trim(inputValue) == [] || !sessionActive || isSending {
        return None;
      }
      var req := AcceptSend(now);
      request := Some(req);
    }

    /** The steps of a send that passed the guard. */
    method AcceptSend(now: int) returns (request: EvaluatorRequest)
      requires Valid() && SendAccepted(Snapshot())
      modifies this
      ensures Valid() && Snapshot() == SendStep(old(Snapshot()), now)
      ensures request == SendRequest(old(Snapshot()), now)
    {
      SendKeepsInv(Snapshot(), now);
      var previous := messages;
      var text := inputValue;
      var timeout := timeoutSeconds;
      isSending := true;
      AppendMessage(now, text, User);
      inputValue := "";
      ResetTimer(timeout);
      pendingEchoes := pendingEchoes + 1;
      request := EvaluatorRequest(text, ActivityLevel(previous, now), timeout);
    }

    /** A scheduled peer echo fires. */
    method DeliverPeerEcho(now: int)
      requires Valid() && pendingEchoes > 0
      modifies this
      ensures Valid() && Snapshot() == EchoStep(old(Snapshot()), now)
    {
      AppendKeepsInv(Snapshot().(pendingEchoes := pendingEchoes - 1), now, PeerEcho, Peer);
      pendingEchoes := pendingEchoes - 1;
      AppendMessage(now, PeerEcho, Peer);
    }

    /** The in-flight evaluator call ends: the success or failure branch,
        then the finally clause. */
    method ResolveEvaluator(outcome: EvaluatorOutcome, now: int)
      requires Valid() && isSending
      modifies this
      ensures Valid() && Snapshot() == ResolveStep(old(Snapshot()), outcome, now)
    {
      ResolveKeepsInv(Snapshot(), outcome, now);
      match outcome {
        case Succeeded(newTimeout, reason) =>
          ResetTimer(newTimeout);
          AppendMessage(now, AdvisorPrefix + reason, System);
        case Failed =>
          AppendMessage(now, AdvisorUnreachable, System);
      }
      isSending := false;
    }
  }
}

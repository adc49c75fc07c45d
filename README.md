# Ephemeral chat session and join-code validation, modelled in Dafny

ShadowSpeak is a two-party ephemeral chat. One user creates a session
identified by a short code and the other joins by typing that code. The chat
expires after a period of inactivity. After each message an AI advisor
proposes a new inactivity timeout. This project models the two parts of the
application that hold logic of their own:

- **The chat page's session state machine** (`src/components/chat-page.tsx`).
  The page holds the message log, the input text, whether the session is
  active, the timeout, the seconds left and whether a send is in flight.
  - A one-second tick counts the timer down and expires the session when it
    runs out.
  - Sending a message first checks a guard. It then appends the user's
    message, clears the input and resets the countdown to the current
    timeout. It schedules a peer echo ("Message received.") and asks the
    advisor for a new timeout, passing an activity level. That level counts
    the user's messages of the trailing 60 seconds, plus one.
  - The advisor's answer sets both the timeout and the countdown and is
    posted as "AI Advisor: …". If the advisor cannot be reached, a notice is
    posted and the timeout stays. Either way, the send is over.
  - Module `ChatSession` (`session.dfy`) states all of this on values. It
    has a `State` datatype, one step function per event, `Run` over sequences
    of events, and an invariant `Inv`.
  - Module `ChatComponent` (`chat_page.dfy`) holds the same state in the
    fields of a class `ChatPage`. Each of its event methods is proved to move
    the object exactly as the matching step function moves a `State`, and to
    keep `Inv`.
- **The `joinChat` server action** (`src/lib/actions.ts`), in module
  `Actions` (`actions.dfy`). A schema trims the submitted `code` and requires
  at least one character. On success the action redirects to
  `/chat/<trimmed code>`. Otherwise it returns the field errors.
  - Both parts use JavaScript's `String.prototype.trim`, modelled once in
    module `JsString` (`js_string.dfy`). It strips the ECMAScript WhiteSpace
    and LineTerminator code points from both ends.

Each event is one atomic step, applied one at a time. The current time
(`Date.now()`) is a parameter of every event that stamps a message. Message
ids are natural numbers: 0 stands for the opening notice's literal id
`system-1`, and each later message takes the next unused number. That number
stands in for `crypto.randomUUID()`, and the ids are proved distinct.

Two behaviours of the page are worth knowing before reading the model:

- **No timeout floor.** The advisor's prompt asks for a timeout of at least 60
  seconds (`src/ai/flows/adaptive-session-timeout.ts:52`), but the page stores
  whatever comes back (`src/components/chat-page.tsx:100`).
  `AdvisorTimeoutIsNotClamped` shows an answer of 10 seconds being taken as it
  is.
- **Late answers still reset the timer.** An answer that arrives after expiry
  is still applied by `resetTimer` (`src/components/chat-page.tsx:100`). It
  does not make the session active again, and that is proved
  (`ExpiryIsTerminal`).

## Model

| member | source | states |
|---|---|---|
| JsString.Trim | src/lib/actions.ts:7 | `trim()` gives a slice of the input with only whitespace before and after it; the result is empty exactly when the input is all whitespace, and otherwise starts and ends with a non-whitespace character |
| JsString.TrimStart | src/lib/actions.ts:7 | the result is a suffix of the input; everything dropped is whitespace; the result does not start with whitespace |
| JsString.TrimEnd | src/lib/actions.ts:7 | the result is a prefix of the input; everything dropped is whitespace; the result does not end with whitespace |
| JsString.TrimIdempotent | src/lib/actions.ts:7 | trimming twice equals trimming once |
| JsString.TrimIgnoresPadding | src/lib/actions.ts:7 | whitespace added at either end does not change the trimmed string |
| Actions.ParseCode | src/lib/actions.ts:6-8 | the schema accepts exactly a string whose trimmed form is non-empty, and yields the trimmed form; a blank string gets the one issue "Code is required." |
| Actions.JoinChat | src/lib/actions.ts:10-24 | redirects iff `code` is a string with a non-empty trimmed form, to `/chat/` + the trimmed code; otherwise returns non-empty field errors and no redirect; whitespace-only input gives `["Code is required."]` |
| Actions.JoinChatDependsOnlyOnTrimmedCode | src/lib/actions.ts:7 | inputs that differ only in surrounding whitespace, or the input and its trimmed form, give the same result |
| Actions.ChatPathShape | src/lib/actions.ts:23 | `/chat/` followed by a non-empty code with no whitespace at either end starts with `/chat/`, is longer than 6 characters and has non-whitespace at position 6 and at its end |
| Actions.RedirectPathShape | src/lib/actions.ts:23 | a redirect target starts with `/chat/`, is longer than 6 characters, and its code part has no whitespace at either end |
| Actions.RejoinFromRedirectPath | src/lib/actions.ts:7-23 | submitting the code taken from a redirect target gives the same redirect |
| ChatSession.InitialInv | src/components/chat-page.tsx:23-30 | the state at mount (opening notice, empty input, active, 300 s timeout and countdown, nothing in flight) satisfies the invariant |
| ChatSession.TickStep | src/components/chat-page.tsx:53-65 | an inactive session does not tick; above 1 s the tick only decrements `timeLeft`; at 1 s or below `timeLeft` becomes 0, the session becomes inactive and exactly the expiry notice is appended under the next id; every other field is unchanged in each case; a tick that runs never leaves a negative countdown |
| ChatSession.EditStep | src/components/chat-page.tsx:194-208 | typing replaces the input only while the session is active and no send is in flight; every other field is unchanged |
| ChatSession.SendAccepted | src/components/chat-page.tsx:74 | a send passes the guard iff the input holds a non-whitespace character (its trimmed form is non-empty), the session is active and no send is in flight |
| ChatSession.SendStep | src/components/chat-page.tsx:72-87 | a blank input, an inactive session or a send in flight leaves the state unchanged; otherwise the send sets `isSending`, appends the untrimmed input as a `user` message, clears the input, resets `timeLeft` to `timeoutSeconds` (unchanged) and schedules one peer echo |
| ChatSession.RecentUserCount | src/components/chat-page.tsx:90 | the user messages younger than 60000 ms number at most the user messages in the log |
| ChatSession.ActivityLevel | src/components/chat-page.tsx:90 | the activity level is between 1 and one more than the number of user messages |
| ChatSession.SendRequest | src/components/chat-page.tsx:89-96 | the evaluator gets the untrimmed input, the timeout in force before the send, and an activity level between 1 and one more than the user messages |
| ChatSession.ActivityLevelCountsSentMessage | src/components/chat-page.tsx:77-90 | the "+ 1" counts the message being sent: the level equals the recent-user count of the log after the send appended it |
| ChatSession.EchoStep | src/components/chat-page.tsx:84-87 | a scheduled echo appends exactly "Message received." from the peer under the next id, decrements the pending count, and leaves every other field unchanged |
| ChatSession.ResolveStep | src/components/chat-page.tsx:98-121 | on success `timeoutSeconds` and `timeLeft` both become the returned value (no floor) and "AI Advisor: " + reason is appended; on failure the timeout and countdown stay and exactly the "Could not reach AI advisor…" notice is appended; on both paths `isSending` ends false and `sessionActive` is unchanged |
| ChatSession.CountdownDisplay | src/components/chat-page.tsx:190 | for `timeLeft >= 0`, `60*m + s == timeLeft` with `0 <= s < 60`; a negative countdown shows non-positive minutes and seconds |
| ChatSession.Apply | src/components/chat-page.tsx:53-121 | every event keeps the old log as a prefix, adds at most one message, and never makes an inactive session active |
| ChatSession.AppendKeepsInv | src/components/chat-page.tsx:79 | appending any message other than the expiry notice under a fresh id keeps the invariant |
| ChatSession.TickKeepsInv | src/components/chat-page.tsx:57-65 | a tick keeps the invariant: the expiry notice is appended exactly when the session turns inactive |
| ChatSession.SendKeepsInv | src/components/chat-page.tsx:74-87 | a send keeps the invariant |
| ChatSession.ResolveKeepsInv | src/components/chat-page.tsx:98-121 | the evaluator outcome keeps the invariant (the advisor and failure notices are never taken for the expiry notice) |
| ChatSession.ApplyKeepsInv | src/components/chat-page.tsx:53-121 | every event that can happen keeps the invariant: a non-empty log, distinct ids, and one expiry notice iff inactive |
| ChatSession.RunKeepsInv | src/components/chat-page.tsx:53-121 | any run of events keeps the invariant |
| ChatSession.RunExtendsLog | src/components/chat-page.tsx:57-119 | the message log is append-only over any run, and grows by at most one message per event |
| ChatSession.ExpiryIsTerminal | src/components/chat-page.tsx:54-100 | once inactive, the session stays inactive whatever events follow, including a late advisor success |
| ChatSession.ExpiryNoticeAtMostOnce | src/components/chat-page.tsx:58-62 | in any session the expiry notice appears at most once, and exactly once iff the session has expired |
| ChatSession.MessageIdsDistinct | src/components/chat-page.tsx:77-117 | all message ids in any session are distinct |
| ChatSession.TicksAfterExpiryChangeNothing | src/components/chat-page.tsx:54 | ticks after expiry change nothing |
| ChatSession.TicksCountDown | src/components/chat-page.tsx:57-65 | with k seconds left and fewer than k ticks, the session stays active and only the countdown goes down, by one per tick |
| ChatSession.ExpiresOnKthTick | src/components/chat-page.tsx:57-65 | with k >= 1 seconds left and no send, the k-th tick expires the session: countdown 0, inactive, and the one added message is the expiry notice stamped at that tick |
| ChatSession.AdvisorTimeoutIsNotClamped | src/components/chat-page.tsx:98-100 | an advisor answer of 10 seconds after a send becomes the timeout and the countdown as it is, and the session stays active |
| ChatComponent.ChatPage.constructor | src/components/chat-page.tsx:23-30 | the fields start as the mount state and satisfy the invariant |
| ChatComponent.ChatPage.AppendMessage | src/components/chat-page.tsx:79 | appends one message under a fresh id and changes nothing else |
| ChatComponent.ChatPage.ResetTimer | src/components/chat-page.tsx:48-51 | `timeoutSeconds` and `timeLeft` both become the new value; nothing else changes |
| ChatComponent.ChatPage.Tick | src/components/chat-page.tsx:56-65 | the fields move as `TickStep` says, and the invariant is kept |
| ChatComponent.ChatPage.EditInput | src/components/chat-page.tsx:194-208 | the fields move as `EditStep` says, and the invariant is kept |
| ChatComponent.ChatPage.SendMessage | src/components/chat-page.tsx:72-96 | the fields move as `SendStep` says; an accepted send returns the evaluator request `SendRequest`, a rejected one returns none; the invariant is kept |
| ChatComponent.ChatPage.AcceptSend | src/components/chat-page.tsx:76-96 | a send that passed the guard moves the fields as `SendStep` says and returns `SendRequest`; the invariant is kept |
| ChatComponent.ChatPage.DeliverPeerEcho | src/components/chat-page.tsx:84-87 | the fields move as `EchoStep` says, and the invariant is kept |
| ChatComponent.ChatPage.ResolveEvaluator | src/components/chat-page.tsx:98-121 | the fields move as `ResolveStep` says (success or failure branch, then the finally clause), and the invariant is kept |
| Actions.ActionArgs | src/components/home-page.tsx:17 | `useActionState` passes two arguments: first the previous state, which is never form data, then the submitted form |
| Actions.JoinChatOneParam | src/lib/actions.ts:10-12 | the one-parameter action returns iff its parameter is form data, and then redirects exactly when the trimmed code is non-empty; `undefined` or an `{ error }` object makes `formData.get` throw |
| Actions.JoinChatAsBound | src/components/home-page.tsx:17 | the action reached through `useActionState` binds the previous state to `formData` and throws for every previous state and every form |
| Actions.BoundJoinLosesValidCode | src/components/home-page.tsx:17 | the home page binds `joinChat` through `useActionState`, which passes the previous state first, so `formData` is the previous state and `formData.get` throws: any code with no whitespace at either end, which `joinChat` itself redirects to `/chat/` + the code, is lost |
| Actions.JoinChatWithState | src/lib/actions.ts:10-24 | the action with the `(previousState, formData)` signature always returns, and redirects iff the form's code trims to a non-empty string, to `/chat/` + the trimmed code |

## Left out

- The advisor itself (`src/ai/flows/adaptive-session-timeout.ts`) is a templated call to a hosted language model. Its three retries are managed by a library. It is modelled only by its outcome, `Succeeded(newTimeout, reason)` or `Failed`, with any integer timeout and any reason.
- The timer machinery is not modelled. That covers `setInterval`/`clearInterval`, the interval's restart when `timeoutSeconds` changes (which shifts the tick phase), and the 1-second `setTimeout` before the peer echo. Ticks and echoes are events; an echo can occur only after a send scheduled it.
- React's asynchronous batching and StrictMode's double calls of state updaters are not modelled. Each event is applied atomically.
- Evaluator timestamps are simplified. The send handler reads `Date.now()` once when it stamps the user's message and again inside the activity filter; the model uses one `now` for both.
- Unmounting the page, which would drop pending echoes and evaluator results, is not modelled.
- The progress bar (`timeLeft / timeoutSeconds * 100`) is floating point, and it divides by zero when the timeout is 0. It is not modelled.
- Rendering, scrolling, clipboard copy, toasts and `console.error` are not modelled.
- ChatSession.ResolveStep: the advisor's `newTimeout` is a JavaScript number and can be fractional; the model takes it as an integer.
- Actions.ParseCode: the messages for a `code` value that is not a string are the schema library's default type-mismatch texts. They are not part of the repository's files, and the model copies them as that library writes them.
- Next.js `redirect` ends the action by throwing. The model returns `Redirect(path)` instead, with the path exactly as built (no URL encoding).
- The Firebase provider, the Firestore collection hook and app initialisation (`src/firebase/`) are thin wrappers over a hosted SDK. The home page (`src/components/home-page.tsx`) is UI and navigation; only the way it binds `joinChat` (line 17) is modelled. `generateChatCode` is not part of this model.

## Findings

| source | as written | input that shows it | evidently intended | confidence | as-written member | corrected member |
|---|---|---|---|---|---|---|
| src/components/home-page.tsx:17, src/lib/actions.ts:10-12 | `useActionState(joinChat, undefined)` calls `joinChat(previousState, formData)`, but `joinChat` takes one parameter, so `formData` is `undefined` (or the previous `{ error }`) and `formData.get('code')` throws | submitting the code `abc` on the home page | `joinChat(prevState, formData)` validates the form and redirects to `/chat/abc` | not executed | Actions.JoinChatAsBound, Actions.BoundJoinLosesValidCode | Actions.JoinChatWithState |

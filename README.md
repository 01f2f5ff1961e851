# Chat client: join screen and chat session

A model of the two screens of a small React chat client.

- **Join screen.** `handleJoin` refuses a name or a room that trims to nothing. Otherwise it navigates to
  `/chat?name=…&room=…`, with both values percent-encoded as typed.
- **Chat screen.** It reads `name` and `room` from the query string. It sends the user back to `/` when
  either is missing or empty. Otherwise it opens a socket and emits `join`.
  - It then folds five kinds of inbound socket event into its state: `message`, `chatHistory`, `roomData`,
    `typing` and `stopTyping`. The state is the transcript, the user list and the list of other users typing.
  - It drives a typing indicator from keystrokes, with one debounce timer.
  - It sends non-blank drafts.
  - On unmount it emits `stopTyping` and closes the socket.

The files:

- `text.dfy` (`Text`): ECMAScript `trim`, over the exact set of white-space and line-terminator code points.
- `uri.dfy` (`Uri`): `encodeURIComponent` and `decodeURIComponent`, over UTF-8 octets.
- `wrappers.dfy` (`Wrappers`): `Option`.
- `join.dfy` (`Join`):
  - the join decision `Validate`;
  - the `JoinForm` component as a class;
  - a reference reader for the query string of the target path.
- `room_events.dfy` (`RoomEvents`): the five inbound handlers as pure folds, and the handler table.
- `session.dfy` (`ChatSession`): the chat screen as a state machine.
  - Its state is a `Session` value: phase, `useState` values, timeout ref, and what was done to the
    outside world (outbox of emits, navigations, pending timers, awaited acknowledgements).
  - It has one transition function per event.
  - It has an invariant `Inv` that every transition keeps.
- `chat.dfy` (`Chat`): the component as the class `ChatView`.
  - Its fields are updated in place by one method per event.
  - Each method is proved to perform its `ChatSession` transition and to keep `Valid()`.
  - `Valid()` is `Inv` plus a ghost count of quiet periods: every `typing` emit opens an episode that only
    the debounce timer closes.
- `navigation.dfy` (`Navigation`): the two screens together. The join form's target passes the chat screen's
  mount guard.

Socket emits are an append-only outbox. `navigate` calls are a list of paths. A debounce timer firing is an
event of its own (`TimerFires`), not wall-clock time. The `join` and `sendMessage` acknowledgements are events
too.

The model follows the code where one might expect something else:

- The chat screen's mount guard does not trim: a name of one space typed into the address bar joins
  (`Navigation.MountGuardDoesNotTrim`). The join screen trims only to decide, and sends the untrimmed values.
- `sendMessage` does not cancel the debounce timer or lower the typing flag. A send while typing is followed
  by the timer's own `stopTyping`, a second one (`ChatSession.SendWhileTyping`). The draft is cleared only by
  the acknowledgement.
- The cleanup does not clear the debounce timer, and does not reset `socketRef`. A timer can still fire after
  teardown. Running the cleanup twice emits `stopTyping` twice (`ChatSession.LeaveWhileTyping`).
- The `typing` handler compares the incoming name with the screen's own name untrimmed.

## Model

| member | source | states |
|---|---|---|
| Text.TrimSpec | src/components/Join/Join.js:14 | `s.trim()` is the piece of `s` left after removing leading and trailing white space, and neither starts nor ends with white space |
| Text.TrimEmptyIff | src/components/Join/Join.js:14 | `s.trim()` is empty, so falsy, exactly when every character of `s` is white space |
| Uri.DecodeEncode | src/components/Join/Join.js:19 | decoding the encoding of any string gives that string back |
| Uri.EncodedAlphabet | src/components/Join/Join.js:19 | an encoded component holds only unreserved characters, `%` and upper-case hexadecimal digits |
| Uri.EncodedHasNoDelimiters | src/components/Join/Join.js:19 | an encoded component holds no `&`, `=`, `?`, `#`, `+`, `/` or space |
| Uri.EncodeUnescaped | src/components/Join/Join.js:19 | letters, digits and `-_.!~*'()` are sent unchanged |
| Uri.EncodeSpace | src/components/Join/Join.js:19 | a space is sent as `%20` |
| Join.Validate | src/components/Join/Join.js:14-19 | an error exactly when the name or the room trims to nothing, with the fixed message; otherwise a path from which the query reader gets back exactly the two values typed |
| Join.JoinForm.constructor | src/components/Join/Join.js:8-10 | both inputs and the error start empty, and nothing has been navigated |
| Join.JoinForm.SetName | src/components/Join/Join.js:34 | the name input's change handler stores the value |
| Join.JoinForm.SetRoom | src/components/Join/Join.js:46 | the room input's change handler stores the value |
| Join.JoinForm.HandleJoin | src/components/Join/Join.js:12-20 | a refused submission sets the error and does not navigate; an accepted one navigates exactly once to the chat path and leaves the error as it was |
| Join.BlankNameRejected | src/components/Join/Join.js:14-17 | an all-white-space name is refused with the error, whatever the room |
| Join.BlankRoomRejected | src/components/Join/Join.js:14-17 | an all-white-space room is refused with the error, whatever the name |
| Join.FilledFormNavigates | src/components/Join/Join.js:19 | with both values not all white space, the form navigates to the path built from the untrimmed values |
| Join.ChatPathRoundTrip | src/components/Join/Join.js:19 | the target starts with `/chat?`, its query splits into exactly the parameters `name` and `room` in that order, and they decode to the values typed |
| Join.PaddingIsEncoded | src/components/Join/Join.js:19 | a leading space is kept and sent as `%20` |
| Join.PaddedNameAccepted | src/components/Join/Join.js:14-19 | a padded name is accepted and read back with its padding |
| RoomEvents.ApplyMessage | src/components/Chat/Chat.js:65-68 | `message` makes the transcript one longer, keeps every earlier message in place, and puts the message last |
| RoomEvents.HistoryReplaces | src/components/Chat/Chat.js:93-96 | `chatHistory` replaces the transcript whatever it held, and a repeated history changes nothing |
| RoomEvents.RoomDataReplaces | src/components/Chat/Chat.js:71-73 | `roomData` replaces the user list whatever it held, and a repeated list changes nothing |
| RoomEvents.ApplyTyping | src/components/Chat/Chat.js:76-85 | `typing` lists exactly the old names plus the incoming one unless it is the user's own; it only appends; it keeps the list free of duplicates and of the user's own name |
| RoomEvents.TypingIsIdempotent | src/components/Chat/Chat.js:79-82 | a repeated `typing` for the same name changes nothing |
| RoomEvents.TypingIgnoresSelf | src/components/Chat/Chat.js:77 | a `typing` for the user's own name changes nothing |
| RoomEvents.StopTypingSpec | src/components/Chat/Chat.js:88-90 | `stopTyping` removes the name, keeps every other name listed, changes nothing when the name is absent, and keeps the list free of duplicates |
| RoomEvents.StopTypingKeepsOrder | src/components/Chat/Chat.js:89 | the remaining names keep their order |
| RoomEvents.StopTypingKeepsOthers | src/components/Chat/Chat.js:89 | every other name is kept exactly as many times as it was listed |
| RoomEvents.StopTypingAppend | src/components/Chat/Chat.js:89 | filtering a concatenation filters each part |
| RoomEvents.StopTypingIsIdempotent | src/components/Chat/Chat.js:88-90 | a repeated `stopTyping` for the same name changes nothing |
| RoomEvents.StopTypingUndoesTyping | src/components/Chat/Chat.js:76-90 | `stopTyping` undoes a `typing` for a name that was not listed |
| RoomEvents.Dispatch | src/components/Chat/Chat.js:99-103 | each event goes to its own handler; every handler keeps the typing list free of duplicates and of the user's own name |
| RoomEvents.DispatchAllKeepsTypingList | src/components/Chat/Chat.js:99-103 | whatever events arrive, in whatever order, the typing list stays free of duplicates and of the user's own name |
| RoomEvents.DispatchAppends | src/components/Chat/Chat.js:99-103 | every event but `chatHistory` leaves the transcript alone, except `message`, which appends its message |
| RoomEvents.TranscriptAppendOnly | src/components/Chat/Chat.js:65-68 | without `chatHistory`, the transcript grows by exactly the received messages, in arrival order |
| RoomEvents.HistoryThenMessages | src/components/Chat/Chat.js:93-96 | a history followed by further events gives the history and then the messages received after it |
| ChatSession.OutboxMeaning | src/components/Chat/Chat.js:43-140 | a connected screen's outbox starts with its one `join`; every later emit is for the session's name and room; every `sendMessage` is non-blank and followed at once by `stopTyping` |
| ChatSession.RescheduleKeepsSingleTimer | src/components/Chat/Chat.js:137-138 | clearing the timer in the ref and scheduling a new one leaves only the new one pending |
| ChatSession.FiringEmptiesTimers | src/components/Chat/Chat.js:138-141 | a timer that fires was the only one pending |
| ChatSession.FirstRenderInv | src/components/Chat/Chat.js:16-23 | the first render satisfies the invariant |
| ChatSession.MountKeepsInv | src/components/Chat/Chat.js:26-48 | the mount effect keeps the invariant and emits no `typing` |
| ChatSession.JoinAckKeepsInv | src/components/Chat/Chat.js:43-48 | the `join` acknowledgement keeps the invariant |
| ChatSession.ReceiveKeepsInv | src/components/Chat/Chat.js:60-103 | every inbound event keeps the invariant |
| ChatSession.KeystrokeKeepsInv | src/components/Chat/Chat.js:129-142 | a keystroke keeps the invariant, and adds one `typing` emit when the flag was down and none otherwise |
| ChatSession.TimerKeepsInv | src/components/Chat/Chat.js:138-141 | a timer firing keeps the invariant and emits no `typing` |
| ChatSession.SubmitKeepsInv | src/components/Chat/Chat.js:116-123 | a submission keeps the invariant and emits no `typing` |
| ChatSession.SendAckKeepsInv | src/components/Chat/Chat.js:120 | the send acknowledgement keeps the invariant |
| ChatSession.TeardownKeepsInv | src/components/Chat/Chat.js:51-56 | the cleanup keeps the invariant and emits no `typing` |
| ChatSession.MountOutcome | src/components/Chat/Chat.js:28-48 | with both parameters present and non-empty, exactly one `join` for them and no navigation; otherwise no emit at all and one navigation to `/` |
| ChatSession.JoinAckOutcome | src/components/Chat/Chat.js:43-48 | the screen has navigated to `/` exactly when the acknowledgement carried an error, and not at all otherwise |
| ChatSession.KeystrokeLeavesOneTimer | src/components/Chat/Chat.js:137-138 | after a keystroke exactly one timer is pending, a new one, and the ref holds it |
| ChatSession.BurstEmitsOneTyping | src/components/Chat/Chat.js:129-135 | any burst of keystrokes leaves the last value in the draft, the flag up and one timer pending, and emits one `typing` when it started idle and none otherwise |
| ChatSession.BurstThenQuiet | src/components/Chat/Chat.js:129-141 | a burst from idle and then a quiet period emit exactly one `typing` and one `stopTyping`, and leave the flag down and no timer pending |
| ChatSession.TimerOutcome | src/components/Chat/Chat.js:138-141 | a firing timer finds the flag up, lowers it, leaves no timer pending, and emits exactly one `stopTyping` for the session |
| ChatSession.BlankDraftIgnored | src/components/Chat/Chat.js:119 | submitting a white-space draft changes nothing at all |
| ChatSession.SubmitOutcome | src/components/Chat/Chat.js:116-123 | a non-blank send, typing or idle, emits the draft as typed and then `stopTyping`, leaves the view, the flag, the timer and the navigations as they were, awaits one more acknowledgement, and only that acknowledgement clears the draft; an idle screen has no timer pending |
| ChatSession.SendWhileTyping | src/components/Chat/Chat.js:116-123 | a send while typing emits the draft as typed and then `stopTyping`, and leaves the view, the flag and the pending timer as they were; the timer then still fires, so a second `stopTyping` follows, and only the acknowledgement clears the draft |
| ChatSession.LeaveWhileTyping | src/components/Chat/Chat.js:51-56 | leaving while typing emits `stopTyping`; the timer, which is not cleared, emits another; a second cleanup emits a third |
| ChatSession.SilentWhenNotLive | src/components/Chat/Chat.js:60-63 | before mount, after a redirect and after teardown, inbound events change nothing |
| ChatSession.VisitFromFirstRender | src/components/Chat/Chat.js:25-142 | a whole visit (mount, join, keystroke, send, acknowledgement, quiet period, leave) emits exactly `join`, `typing`, `sendMessage`, and then three `stopTyping` |
| Chat.ChatView.constructor | src/components/Chat/Chat.js:16-23 | the first render: every piece of state at its initial value, and the component valid |
| Chat.ChatView.Mount | src/components/Chat/Chat.js:25-48 | performs the mount transition in place and keeps the component valid |
| Chat.ChatView.JoinAck | src/components/Chat/Chat.js:43-48 | performs the `join` acknowledgement in place and keeps the component valid |
| Chat.ChatView.Receive | src/components/Chat/Chat.js:60-103 | folds an inbound event into the fields through the handler table and keeps the component valid |
| Chat.ChatView.Keystroke | src/components/Chat/Chat.js:129-142 | performs `handleInputChange` in place and keeps the component valid |
| Chat.ChatView.TimerFires | src/components/Chat/Chat.js:138-141 | performs the timer callback in place, keeps the component valid, and counts one more quiet period |
| Chat.ChatView.Submit | src/components/Chat/Chat.js:116-123 | performs `sendMessage` in place and keeps the component valid |
| Chat.ChatView.SendAck | src/components/Chat/Chat.js:120 | performs the send acknowledgement in place and keeps the component valid |
| Chat.ChatView.Teardown | src/components/Chat/Chat.js:51-56 | performs the cleanup in place and keeps the component valid |
| Navigation.JoinTargetPassesMountGuard | src/components/Chat/Chat.js:26-31 | every path the join form navigates to yields, through the query reader, the name and the room typed, and both pass the chat screen's guard |
| Navigation.JoinThenMount | src/components/Chat/Chat.js:26-48 | mounting the chat screen on the join form's target emits exactly one `join`, for the values typed, and does not navigate |
| Navigation.MountGuardDoesNotTrim | src/components/Chat/Chat.js:28 | a name of one space is refused by the join form, yet the chat screen reached on the same path joins under it |

## Left out

- JSX rendering, CSS and icons, the emoji picker and `addEmoji`, and `dayjs` formatting: presentation only.
- `console.log` and `alert`: output only. The error shown by `alert` is not recorded; the navigation it
  precedes is.
- The socket.io transport: `io(...)`, the backend URL, `disconnect` and `off` are left out. Each `emit` is
  appended to the outbox, including an emit on a socket already disconnected (a timer firing after teardown).
  Closing the socket is the `TornDown` phase.
- Real time: the 1000 ms interval is only the constant `TypingTimeoutMs`, and timers fire when the
  `TimerFires` event says so.
- `query-string` parsing on the chat screen: the mount effect takes two optional strings.
  `Join.ChatQuery`, a reference reader written for this model, connects those to the join screen's path. It
  splits at `&` and at the first `=`, and decodes the value of the first parameter with each key. It does not
  treat `+` as a space, arrays, or duplicate keys the way `query-string` does.
- React scheduling: the state updates of one handler are applied together, and handlers run one at a time to
  completion.
- The first registration of the inbound handlers is left out. The model registers them once, at mount, with
  the session's name. In the code (src/components/Chat/Chat.js:60-114), on a mount that passes the guard,
  the second effect runs in the same commit as the first, after `socketRef.current` is set. So it registers
  all five handlers while `name` is still `''` from the first render. After the re-render that `setName`
  causes, it removes them and registers them again with the real name. An event that arrives between the two
  is not modelled; in particular, a `typing` for the user's own name arriving then would not be filtered out.
  After a redirect the second effect sees no socket and registers nothing, as in the model.
- A re-run of the mount effect when its dependencies change (`location.search` or `navigate`,
  src/components/Chat/Chat.js:58) is left out. That re-run is the cleanup followed by a new mount in the same
  component, keeping its state and any pending timer. In the model `OnMount` requires `Unmounted` and
  `TornDown` is final, so a screen mounts at most once.
- A `typing` state update after unmount: React ignores it. The model still records the flag, which nothing
  reads afterwards.
- Keystrokes, submissions and acknowledgements before mount or after teardown: the model requires a connected
  screen. Before mount the code would call `emit` on an undefined `socketRef.current`.
- The HTML `required` attribute on the join form's inputs also blocks an empty submission in the browser. Only
  `handleJoin`'s own check is modelled.
- Lone UTF-16 surrogates: Dafny characters are Unicode scalar values, so the `URIError` that
  `encodeURIComponent` raises for an unpaired surrogate has no counterpart.

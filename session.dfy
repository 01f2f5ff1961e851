/** The chat screen's session as a state machine: the mount guard and `join` handshake, the
    inbound handler table, the draft and its typing indicator with one debounce timer,
    submitting a message, and teardown, each a transition from one `Session` to the next.
    Every `socket.emit` the screen makes is appended to an outbox, every `navigate` call to a
    list of navigations; a timer firing is an event of its own. */
module ChatSession {
  import opened Wrappers
  import opened Text
  import opened RoomEvents

  /** The quiet interval after the last keystroke before `stopTyping` is sent, in milliseconds. */
  const TypingTimeoutMs: nat := 1000

  /** The value `setTimeout` returns: a handle that `clearTimeout` cancels. */
  type TimerId = nat

  /** One `socket.emit` call with its event name and payload. */
  datatype Emit =
    | Join(name: string, room: string)
    | SendMessage(text: string)
    | Typing(name: string, room: string)
    | StopTyping(name: string, room: string)

  /** Where the screen is in its life: not yet mounted; mounted without usable query parameters
      (sent back to `/`, no socket); mounted with a socket and its handlers; torn down (the
      socket disconnected and its handlers removed, but `socketRef` still set). */
  datatype Phase = Unmounted | Redirected | Live | TornDown

  /** The mount effect's guard: both query parameters present and not the empty string.
      Unlike the join screen, it does not trim. */
  predicate MountGuard(qName: Option<string>, qRoom: Option<string>) {
    qName.Some? && qName.value != [] && qRoom.Some? && qRoom.value != []
  }

  /** JavaScript truthiness of the `join` acknowledgement's argument. */
  predicate IsError(ack: Option<string>) {
    ack.Some? && ack.value != []
  }

  /** The number of `typing` emits in an outbox. */
  function CountTyping(out: seq<Emit>): nat
    decreases |out|
  {
    if out == [] then 0
    else CountTyping(out[..|out| - 1]) + (if out[|out| - 1].Typing? then 1 else 0)
  }

  /** The emits a connected screen makes after its `join`, read from the end: typing
      indicators for the session's name and room, and non-blank messages each followed at once
      by a `stopTyping`. */
  predicate SessionEmits(evs: seq<Emit>, name: string, room: string)
    decreases |evs|
  {
    if evs == [] then true
    else
      var n := |evs|;
      match evs[n - 1]
      case Join(_, _) => false
      case SendMessage(_) => false
      case Typing(nm, rm) => nm == name && rm == room && SessionEmits(evs[..n - 1], name, room)
      case StopTyping(nm, rm) =>
        nm == name && rm == room &&
        if n >= 2 && evs[n - 2].SendMessage? then
          Trim(evs[n - 2].text) != [] && SessionEmits(evs[..n - 2], name, room)
        else SessionEmits(evs[..n - 1], name, room)
  }

  /** What every outbox of a connected screen looks like: one `join` for the session's name
      and room, first, then the session's emits. */
  predicate OutboxOk(out: seq<Emit>, name: string, room: string) {
    |out| > 0 && out[0] == Join(name, room) && SessionEmits(out[1..], name, room)
  }

  lemma CountTypingAppend(out: seq<Emit>, e: Emit)
    ensures CountTyping(out + [e]) == CountTyping(out) + (if e.Typing? then 1 else 0)
  {
    assert (out + [e])[..|out|] == out;
  }

  /** A typing indicator for the session extends the session's emits. */
  lemma SessionAppendIndicator(evs: seq<Emit>, name: string, room: string, e: Emit)
    requires SessionEmits(evs, name, room)
    requires e == Typing(name, room) || e == StopTyping(name, room)
    ensures SessionEmits(evs + [e], name, room)
  {
    var evs' := evs + [e];
    assert evs'[..|evs|] == evs;
    if evs != [] {
      // the event before is not a message: a message is never last
      assert evs'[|evs| - 1] == evs[|evs| - 1];
    }
  }

  /** Emitting a typing indicator for the session keeps the outbox well formed. */
  lemma OutboxAppendIndicator(out: seq<Emit>, name: string, room: string, e: Emit)
    requires OutboxOk(out, name, room)
    requires e == Typing(name, room) || e == StopTyping(name, room)
    ensures OutboxOk(out + [e], name, room)
  {
    assert (out + [e])[1..] == out[1..] + [e];
    SessionAppendIndicator(out[1..], name, room, e);
  }

  /** Emitting a non-blank message followed by `stopTyping` keeps the outbox well formed. */
  lemma OutboxAppendSend(out: seq<Emit>, name: string, room: string, text: string)
    requires OutboxOk(out, name, room) && Trim(text) != []
    ensures OutboxOk(out + [SendMessage(text), StopTyping(name, room)], name, room)
  {
    var evs := out[1..];
    var evs' := evs + [SendMessage(text), StopTyping(name, room)];
    assert (out + [SendMessage(text), StopTyping(name, room)])[1..] == evs';
    assert evs'[..|evs'| - 2] == evs;
  }

  /** The session's emits, element by element: no `join`, every event for the session's name
      and room, and every message non-blank and followed at once by a `stopTyping`. */
  lemma {:induction false} SessionEmitsMeaning(evs: seq<Emit>, name: string, room: string)
    requires SessionEmits(evs, name, room)
    ensures forall i :: 0 <= i < |evs| ==> !evs[i].Join?
    ensures forall i :: 0 <= i < |evs| && !evs[i].SendMessage? ==>
              evs[i].name == name && evs[i].room == room
    ensures forall i :: 0 <= i < |evs| && evs[i].SendMessage? ==>
              Trim(evs[i].text) != [] && i + 1 < |evs| && evs[i + 1] == StopTyping(name, room)
    decreases |evs|
  {
    if evs != [] {
      var n := |evs|;
      // the last step: one indicator event, or a message and its stopTyping
      var k := if n >= 2 && evs[n - 1].StopTyping? && evs[n - 2].SendMessage? then n - 2 else n - 1;
      var pre := evs[..k];
      assert SessionEmits(pre, name, room);
      SessionEmitsMeaning(pre, name, room);
      assert forall i :: 0 <= i < k ==> evs[i] == pre[i];
      assert k == n - 1 ==> !evs[n - 1].SendMessage? && !evs[n - 1].Join?;
    }
  }

  /** The outbox of a connected screen, element by element: exactly one `join`, at the start;
      every other event for the session's name and room; every message non-blank and followed
      at once by a `stopTyping`. */
  lemma OutboxMeaning(out: seq<Emit>, name: string, room: string)
    requires OutboxOk(out, name, room)
    ensures out[0] == Join(name, room)
    ensures forall i :: 1 <= i < |out| ==> !out[i].Join?
    ensures forall i :: 1 <= i < |out| && !out[i].SendMessage? ==>
              out[i].name == name && out[i].room == room
    ensures forall i :: 1 <= i < |out| && out[i].SendMessage? ==>
              Trim(out[i].text) != [] && i + 1 < |out| && out[i + 1] == StopTyping(name, room)
  {
    var evs := out[1..];
    SessionEmitsMeaning(evs, name, room);
    forall i | 1 <= i < |out| ensures out[i] == evs[i - 1] { }
  }

  /** At most one debounce timer is pending, and it is the one `typingTimeoutRef` holds. */
  predicate SingleTimer(timeoutRef: Option<TimerId>, pending: set<TimerId>, nextTimerId: TimerId) {
    && (timeoutRef.Some? ==> timeoutRef.value < nextTimerId)
    && (pending == {} || (timeoutRef.Some? && pending == {timeoutRef.value}))
  }

  /** `clearTimeout` of the timer in the ref followed by `setTimeout` leaves exactly the new
      timer pending. */
  lemma RescheduleKeepsSingleTimer(timeoutRef: Option<TimerId>, pending: set<TimerId>, next: TimerId)
    requires SingleTimer(timeoutRef, pending, next)
    ensures var cleared := if timeoutRef.Some? then pending - {timeoutRef.value} else pending;
      cleared + {next} == {next} && SingleTimer(Some(next), cleared + {next}, next + 1)
  {
  }

  /** A timer that fires was the only one pending. */
  lemma FiringEmptiesTimers(timeoutRef: Option<TimerId>, pending: set<TimerId>, next: TimerId, id: TimerId)
    requires SingleTimer(timeoutRef, pending, next) && id in pending
    ensures pending - {id} == {} && SingleTimer(timeoutRef, {}, next)
  {
  }

  /** The component's `useState` values. `draft` is the value the component calls `message`. */
  datatype View = View(
    name: string, room: string,
    messages: seq<Message>, users: seq<User>, typingUsers: seq<string>,
    draft: string, typing: bool)

  /** What the component has done to the world outside it: every `socket.emit` call, every
      `navigate` call, the timers scheduled and neither fired nor cleared, and the
      acknowledgements still awaited from the server. */
  datatype World = World(
    outbox: seq<Emit>, navigations: seq<string>,
    pending: set<TimerId>, nextTimerId: TimerId,
    joinAckPending: bool, sendAcksPending: nat)

  /** The state of the first render. */
  const InitialView: View := View([], [], [], [], [], [], false)

  /** Nothing emitted, no navigation, no timer, no acknowledgement awaited. */
  const Untouched: World := World([], [], {}, 0, false, 0)

  /** Everything about one chat screen: where it is in its life, its `useState` values,
      `typingTimeoutRef.current`, and what it has done to the world. */
  datatype Session = Session(phase: Phase, view: View, timeoutRef: Option<TimerId>, world: World)

  /** The screen at its first render, before the mount effect runs. */
  const FirstRender: Session := Session(Unmounted, InitialView, None, Untouched)

  /** What holds of a screen whatever has happened to it. */
  predicate Inv(s: Session) {
    var Session(phase, view, timeoutRef, world) := s;
    var View(name, room, _, _, typingUsers, _, typing) := view;
    var World(outbox, navigations, pending, nextTimerId, joinAckPending, sendAcksPending) := world;
    && SingleTimer(timeoutRef, pending, nextTimerId)
    // the flag is up exactly while a stopTyping timer is pending
    && (typing <==> pending != {})
    && TypingListOk(typingUsers, name)
    // the chat screen only ever navigates back to the join screen
    && (forall i :: 0 <= i < |navigations| ==> navigations[i] == "/")
    && (phase == Unmounted ==>
          outbox == [] && navigations == [] && typingUsers == [] && !typing
          && !joinAckPending && sendAcksPending == 0)
    && (phase == Redirected ==>
          outbox == [] && navigations == ["/"] && !typing && !joinAckPending && sendAcksPending == 0)
    // once connected, the outbox is well formed and at most one redirect was made
    && (phase == Live || phase == TornDown ==>
          OutboxOk(outbox, name, room) && MountGuard(Some(name), Some(room)) && |navigations| <= 1)
    && (phase == Live && joinAckPending ==> navigations == [])
  }

  // ---------------------------------------------------------------------------------------
  // The transitions, one per event the screen reacts to.

  /** The mount effect: without a usable name and room, one navigation to `/` and nothing
      else; otherwise the parameters become the name and room, a socket is opened and one
      `join` is emitted, whose acknowledgement is then awaited. */
  function OnMount(s: Session, qName: Option<string>, qRoom: Option<string>): Session
    requires s.phase == Unmounted
  {
    if qName.None? || qName.value == [] || qRoom.None? || qRoom.value == [] then
      s.(phase := Redirected, world := s.world.(navigations := s.world.navigations + ["/"]))
    else
      var name, room := qName.value, qRoom.value;
      s.(phase := Live, view := s.view.(name := name, room := room),
         world := s.world.(outbox := s.world.outbox + [Join(name, room)], joinAckPending := true))
  }

  /** The `join` acknowledgement: a truthy error navigates to `/`. */
  function OnJoinAck(s: Session, ack: Option<string>): Session
    requires s.phase == Live && s.world.joinAckPending
  {
    var home := if ack.Some? && ack.value != [] then ["/"] else [];
    s.(world := s.world.(joinAckPending := false, navigations := s.world.navigations + home))
  }

  /** An inbound event: folded into the room state by its handler while the handlers are
      registered, ignored before mount and after teardown. */
  function OnReceive(s: Session, e: Inbound): Session {
    if s.phase != Live then s
    else
      var r := Dispatch(RoomEvents.Room(s.view.messages, s.view.users, s.view.typingUsers), e, s.view.name);
      s.(view := s.view.(messages := r.messages, users := r.users, typingUsers := r.typingUsers))
  }

  /** `handleInputChange`: the draft takes the new value; from idle the flag goes up and
      `typing` is emitted; the timer in the ref is cleared and a new one is scheduled. */
  function OnKeystroke(s: Session, value: string): Session
    requires s.phase == Live
  {
    var View(name, room, _, _, _, _, typing) := s.view;
    var emitted := if typing then [] else [Typing(name, room)];
    var cleared := if s.timeoutRef.Some? then s.world.pending - {s.timeoutRef.value} else s.world.pending;
    var id := s.world.nextTimerId;
    s.(view := s.view.(draft := value, typing := true), timeoutRef := Some(id),
       world := s.world.(outbox := s.world.outbox + emitted, pending := cleared + {id}, nextTimerId := id + 1))
  }

  /** A debounce timer fires: the flag goes down and `stopTyping` is emitted. Nothing stops
      it after a send or after teardown. */
  function OnTimerFires(s: Session, id: TimerId): Session
    requires id in s.world.pending
  {
    s.(view := s.view.(typing := false),
       world := s.world.(outbox := s.world.outbox + [StopTyping(s.view.name, s.view.room)],
                         pending := s.world.pending - {id}))
  }

  /** `sendMessage`: a draft that trims to nothing is ignored; otherwise the draft as typed
      is emitted, then `stopTyping`. The draft, the flag and the timer are left alone. */
  function OnSubmit(s: Session): Session
    requires s.phase == Live
  {
    if Trim(s.view.draft) == [] then s
    else
      var View(name, room, _, _, _, draft, _) := s.view;
      s.(world := s.world.(outbox := s.world.outbox + [SendMessage(draft), StopTyping(name, room)],
                           sendAcksPending := s.world.sendAcksPending + 1))
  }

  /** The `sendMessage` acknowledgement clears the draft, whatever it holds by then. */
  function OnSendAck(s: Session): Session
    requires s.phase == Live && s.world.sendAcksPending > 0
  {
    s.(view := s.view.(draft := []), world := s.world.(sendAcksPending := s.world.sendAcksPending - 1))
  }

  /** The mount effect's cleanup, registered only when a socket was opened: `stopTyping` is
      emitted before the socket is closed. The timer is not cleared and `socketRef` is not
      reset, so a second run emits `stopTyping` again. */
  function OnTeardown(s: Session): Session
    requires s.phase != Unmounted
  {
    if s.phase == Redirected then s
    else s.(phase := TornDown, world := s.world.(outbox := s.world.outbox + [StopTyping(s.view.name, s.view.room)]))
  }

  /** Keystrokes one after another, with no timer firing in between. */
  function TypeKeys(s: Session, keys: seq<string>): Session
    requires s.phase == Live
    decreases |keys|
  {
    if keys == [] then s else TypeKeys(OnKeystroke(s, keys[0]), keys[1..])
  }

  // ---------------------------------------------------------------------------------------
  // Every transition keeps the invariant.

  lemma FirstRenderInv()
    ensures Inv(FirstRender)
  {
  }

  lemma MountKeepsInv(s: Session, qName: Option<string>, qRoom: Option<string>)
    requires Inv(s) && s.phase == Unmounted
    ensures Inv(OnMount(s, qName, qRoom))
    ensures CountTyping(OnMount(s, qName, qRoom).world.outbox) == 0
  {
    if MountGuard(qName, qRoom) {
      var out := [Join(qName.value, qRoom.value)];
      assert out[1..] == [];
      CountTypingAppend([], out[0]);
    }
  }

  lemma JoinAckKeepsInv(s: Session, ack: Option<string>)
    requires Inv(s) && s.phase == Live && s.world.joinAckPending
    ensures Inv(OnJoinAck(s, ack))
  {
  }

  lemma ReceiveKeepsInv(s: Session, e: Inbound)
    requires Inv(s)
    ensures Inv(OnReceive(s, e))
  {
  }

  lemma KeystrokeKeepsInv(s: Session, value: string)
    requires Inv(s) && s.phase == Live
    ensures Inv(OnKeystroke(s, value))
    ensures CountTyping(OnKeystroke(s, value).world.outbox) ==
              CountTyping(s.world.outbox) + (if s.view.typing then 0 else 1)
  {
    var View(name, room, _, _, _, _, typing) := s.view;
    RescheduleKeepsSingleTimer(s.timeoutRef, s.world.pending, s.world.nextTimerId);
    var out := OnKeystroke(s, value).world.outbox;
    if typing {
      assert out == s.world.outbox;
    } else {
      OutboxAppendIndicator(s.world.outbox, name, room, Typing(name, room));
      CountTypingAppend(s.world.outbox, Typing(name, room));
      assert out == s.world.outbox + [Typing(name, room)];
    }
  }

  lemma TimerKeepsInv(s: Session, id: TimerId)
    requires Inv(s) && id in s.world.pending
    ensures Inv(OnTimerFires(s, id))
    ensures CountTyping(OnTimerFires(s, id).world.outbox) == CountTyping(s.world.outbox)
  {
    CountTypingAppend(s.world.outbox, StopTyping(s.view.name, s.view.room));
    FiringEmptiesTimers(s.timeoutRef, s.world.pending, s.world.nextTimerId, id);
    if s.phase == Live || s.phase == TornDown {
      OutboxAppendIndicator(s.world.outbox, s.view.name, s.view.room, StopTyping(s.view.name, s.view.room));
    }
  }

  lemma SubmitKeepsInv(s: Session)
    requires Inv(s) && s.phase == Live
    ensures Inv(OnSubmit(s))
    ensures CountTyping(OnSubmit(s).world.outbox) == CountTyping(s.world.outbox)
  {
    var View(name, room, _, _, _, draft, _) := s.view;
    if Trim(draft) != [] {
      var out := s.world.outbox;
      OutboxAppendSend(out, name, room, draft);
      CountTypingAppend(out, SendMessage(draft));
      CountTypingAppend(out + [SendMessage(draft)], StopTyping(name, room));
      assert out + [SendMessage(draft)] + [StopTyping(name, room)] == out + [SendMessage(draft), StopTyping(name, room)];
    }
  }

  lemma SendAckKeepsInv(s: Session)
    requires Inv(s) && s.phase == Live && s.world.sendAcksPending > 0
    ensures Inv(OnSendAck(s))
  {
  }

  lemma TeardownKeepsInv(s: Session)
    requires Inv(s) && s.phase != Unmounted
    ensures Inv(OnTeardown(s))
    ensures CountTyping(OnTeardown(s).world.outbox) == CountTyping(s.world.outbox)
  {
    if s.phase != Redirected {
      CountTypingAppend(s.world.outbox, StopTyping(s.view.name, s.view.room));
      OutboxAppendIndicator(s.world.outbox, s.view.name, s.view.room, StopTyping(s.view.name, s.view.room));
    }
  }

  // ---------------------------------------------------------------------------------------
  // What the transitions promise.

  /** Mounting emits exactly one `join`, for the parameters, when both are present and
      non-empty, and otherwise emits nothing and navigates to `/` once. */
  lemma MountOutcome(s: Session, qName: Option<string>, qRoom: Option<string>)
    requires Inv(s) && s.phase == Unmounted
    ensures var t := OnMount(s, qName, qRoom);
      && (MountGuard(qName, qRoom) ==>
            t.phase == Live && t.world.outbox == [Join(qName.value, qRoom.value)] && t.world.navigations == [])
      && (!MountGuard(qName, qRoom) ==>
            t.phase == Redirected && t.world.outbox == [] && t.world.navigations == ["/"])
  {
  }

  /** An error acknowledgement of `join` is the screen's one navigation to `/`; any other
      acknowledgement leaves it with none. */
  lemma JoinAckOutcome(s: Session, ack: Option<string>)
    requires Inv(s) && s.phase == Live && s.world.joinAckPending
    ensures var t := OnJoinAck(s, ack);
      (t.world.navigations == ["/"] <==> IsError(ack)) && (t.world.navigations == [] <==> !IsError(ack))
  {
  }

  /** Each keystroke leaves exactly one timer pending, a new one, held in the ref. */
  lemma KeystrokeLeavesOneTimer(s: Session, value: string)
    requires Inv(s) && s.phase == Live
    ensures var t := OnKeystroke(s, value);
      && t.timeoutRef == Some(s.world.nextTimerId) && t.world.pending == {s.world.nextTimerId}
      && s.world.nextTimerId !in s.world.pending
  {
    RescheduleKeepsSingleTimer(s.timeoutRef, s.world.pending, s.world.nextTimerId);
  }

  /** A burst of keystrokes leaves the last value in the draft, the flag up and one timer
      pending, and emits one `typing` if it started from idle and none otherwise. */
  lemma {:induction false} BurstEmitsOneTyping(s: Session, keys: seq<string>)
    requires Inv(s) && s.phase == Live && keys != []
    ensures var t := TypeKeys(s, keys);
      && Inv(t) && t.phase == Live
      && t.view == s.view.(draft := keys[|keys| - 1], typing := true)
      && t.world.outbox == s.world.outbox + (if s.view.typing then [] else [Typing(s.view.name, s.view.room)])
      && t.timeoutRef.Some? && t.world.pending == {t.timeoutRef.value}
    decreases |keys|
  {
    var s' := OnKeystroke(s, keys[0]);
    KeystrokeKeepsInv(s, keys[0]);
    KeystrokeLeavesOneTimer(s, keys[0]);
    if |keys| > 1 {
      BurstEmitsOneTyping(s', keys[1..]);
      assert keys[1..][|keys[1..]| - 1] == keys[|keys| - 1];
    }
  }

  /** A burst of keystrokes from idle followed by a quiet second emits exactly one `typing`
      and one `stopTyping`, and leaves the flag down and no timer pending. */
  lemma BurstThenQuiet(s: Session, keys: seq<string>)
    requires Inv(s) && s.phase == Live && !s.view.typing && keys != []
    ensures var t := TypeKeys(s, keys);
      && t.timeoutRef.Some? && t.timeoutRef.value in t.world.pending
      && var u := OnTimerFires(t, t.timeoutRef.value);
         && u.world.outbox == s.world.outbox + [Typing(s.view.name, s.view.room), StopTyping(s.view.name, s.view.room)]
         && !u.view.typing && u.world.pending == {} && Inv(u)
  {
    BurstEmitsOneTyping(s, keys);
    var t := TypeKeys(s, keys);
    TimerKeepsInv(t, t.timeoutRef.value);
  }

  /** A firing timer was the only one pending: afterwards none is, the flag is down, and one
      `stopTyping` for the session went out. */
  lemma TimerOutcome(s: Session, id: TimerId)
    requires Inv(s) && id in s.world.pending
    ensures var t := OnTimerFires(s, id);
      && s.view.typing && !t.view.typing && t.world.pending == {}
      && t.world.outbox == s.world.outbox + [StopTyping(s.view.name, s.view.room)]
  {
    FiringEmptiesTimers(s.timeoutRef, s.world.pending, s.world.nextTimerId, id);
  }

  /** Submitting a draft of white space only changes nothing at all. */
  lemma BlankDraftIgnored(s: Session)
    requires s.phase == Live && AllWs(s.view.draft)
    ensures OnSubmit(s) == s
  {
    TrimEmptyIff(s.view.draft);
  }

  /** Submitting a draft that is not all white space, typing or idle: the draft as typed goes
      out, then `stopTyping`; the view, the flag and the timer are left as they were, one more
      acknowledgement is awaited, and only that acknowledgement clears the draft. An idle screen
      has no timer pending, so nothing follows. */
  lemma SubmitOutcome(s: Session)
    requires Inv(s) && s.phase == Live && !AllWs(s.view.draft)
    ensures var t := OnSubmit(s);
      && t.phase == Live && t.view == s.view && t.timeoutRef == s.timeoutRef
      && t.world.pending == s.world.pending && t.world.navigations == s.world.navigations
      && t.world.outbox == s.world.outbox + [SendMessage(s.view.draft), StopTyping(s.view.name, s.view.room)]
      && t.world.sendAcksPending == s.world.sendAcksPending + 1
      && OnSendAck(t).view == s.view.(draft := [])
      && (!s.view.typing ==> t.world.pending == {})
  {
    TrimEmptyIff(s.view.draft);
  }

  /** Submitting while the indicator is up sends the message and a `stopTyping` but leaves the
      flag up and the timer pending, so the timer still fires and a second `stopTyping` follows;
      the draft stays until the acknowledgement clears it. */
  lemma SendWhileTyping(s: Session)
    requires Inv(s) && s.phase == Live && s.view.typing && !AllWs(s.view.draft)
    ensures var View(name, room, _, _, _, draft, _) := s.view;
      var t := OnSubmit(s);
      && t.view == s.view && t.timeoutRef == s.timeoutRef && t.world.pending == s.world.pending
      && t.world.outbox == s.world.outbox + [SendMessage(draft), StopTyping(name, room)]
      && t.timeoutRef.Some? && t.timeoutRef.value in t.world.pending
      && var u := OnTimerFires(OnSendAck(t), t.timeoutRef.value);
         && u.world.outbox == s.world.outbox + [SendMessage(draft), StopTyping(name, room), StopTyping(name, room)]
         && u.view.draft == [] && !u.view.typing
  {
    SubmitOutcome(s);
  }

  /** Leaving while typing: the cleanup emits `stopTyping`, the timer it does not clear emits
      another, and running the cleanup again a third. */
  lemma LeaveWhileTyping(s: Session)
    requires Inv(s) && s.phase == Live && s.view.typing
    ensures var stop := StopTyping(s.view.name, s.view.room);
      var t := OnTeardown(s);
      && t.phase == TornDown && t.timeoutRef.Some? && t.timeoutRef.value in t.world.pending
      && var u := OnTeardown(OnTimerFires(t, t.timeoutRef.value));
         u.world.outbox == s.world.outbox + [stop, stop, stop] && Inv(u)
  {
    var t := OnTeardown(s);
    TeardownKeepsInv(s);
    TimerKeepsInv(t, t.timeoutRef.value);
    TeardownKeepsInv(OnTimerFires(t, t.timeoutRef.value));
  }

  /** After teardown, and after a redirect, inbound events change nothing. */
  lemma SilentWhenNotLive(s: Session, e: Inbound)
    requires s.phase != Live
    ensures OnReceive(s, e) == s
  {
  }

  /** A whole visit: join, a keystroke, a send while typing, its acknowledgement, the quiet
      second and leaving. */
  lemma VisitFromFirstRender(name: string, room: string, text: string)
    requires MountGuard(Some(name), Some(room)) && Trim(text) != []
    ensures
      var s1 := OnKeystroke(OnJoinAck(OnMount(FirstRender, Some(name), Some(room)), None), text);
      var s2 := OnSendAck(OnSubmit(s1));
      && s2.timeoutRef == Some(0) && 0 in s2.world.pending
      && var s3 := OnTeardown(OnTimerFires(s2, 0));
         && s3.world.outbox == [Join(name, room), Typing(name, room), SendMessage(text),
                                StopTyping(name, room), StopTyping(name, room), StopTyping(name, room)]
         && s3.world.navigations == [] && s3.view.draft == [] && !s3.view.typing
  {
  }
}

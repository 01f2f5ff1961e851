/** The chat screen component: its state held in fields that each handler updates in place,
    one method per event, each proved to make the transition the session model describes. */
module Chat {
  import opened Wrappers
  import opened Text
  import opened RoomEvents
  import opened ChatSession

  /** One chat screen. `phase` stands for `socketRef.current` and the mount effect's
      progress, `timeoutRef` for `typingTimeoutRef.current`. */
  class ChatView {
    var phase: Phase
    var view: View
    /** The last timer scheduled, fired or not. */
    var timeoutRef: Option<TimerId>
    var world: World
    /** How many debounce timers have fired. */
    ghost var quietPeriods: nat

    function State(): Session
      reads this
    {
      Session(phase, view, timeoutRef, world)
    }

    ghost predicate Valid()
      reads this
    {
      && Inv(State())
      // each typing emit opens an episode that only a timer closes
      && CountTyping(world.outbox) == quietPeriods + (if view.typing then 1 else 0)
    }

    /** The first render: every piece of state at its initial value. */
    constructor ()
      ensures Valid() && State() == FirstRender
    {
      phase, view, timeoutRef, world := Unmounted, InitialView, None, Untouched;
      quietPeriods := 0;
    }

    /** The mount effect (`OnMount`): redirect to `/`, or connect and emit `join`. */
    method Mount(qName: Option<string>, qRoom: Option<string>)
      requires Valid() && phase == Unmounted
      modifies this`phase, this`view, this`world
      ensures Valid() && State() == OnMount(old(State()), qName, qRoom)
    {
      MountKeepsInv(State(), qName, qRoom);
      if qName.None? || qName.value == [] || qRoom.None? || qRoom.value == [] {
        phase, world := Redirected, world.(navigations := world.navigations + ["/"]);
        return;
      }
      var name, room := qName.value, qRoom.value;
      phase, view := Live, view.(name := name, room := room);
      world := world.(outbox := world.outbox + [Join(name, room)], joinAckPending := true);
    }

    /** The `join` acknowledgement callback (`OnJoinAck`): leave for `/` on an error. */
    method JoinAck(ack: Option<string>)
      requires Valid() && phase == Live && world.joinAckPending
      modifies this`world
      ensures Valid() && State() == OnJoinAck(old(State()), ack)
    {
      JoinAckKeepsInv(State(), ack);
      var navigations := world.navigations;
      if ack.Some? && ack.value != [] {
        navigations := navigations + ["/"];
      }
      world := world.(joinAckPending := false, navigations := navigations);
    }

    /** One inbound socket event through the handler table (`OnReceive`). */
    method Receive(e: Inbound)
      requires Valid()
      modifies this`view
      ensures Valid() && State() == OnReceive(old(State()), e)
    {
      ReceiveKeepsInv(State(), e);
      if phase == Live {
        var r := Dispatch(RoomEvents.Room(view.messages, view.users, view.typingUsers), e, view.name);
        view := view.(messages := r.messages, users := r.users, typingUsers := r.typingUsers);
      }
    }

    /** `handleInputChange` (`OnKeystroke`): store the draft, raise the indicator, reschedule the timer. */
    method Keystroke(value: string)
      requires Valid() && phase == Live
      modifies this`view, this`timeoutRef, this`world
      ensures Valid() && State() == OnKeystroke(old(State()), value)
    {
      ghost var t := OnKeystroke(State(), value);
      KeystrokeKeepsInv(State(), value);
      var v, out := view.(draft := value), world.outbox;
      if !v.typing {
        v, out := v.(typing := true), out + [Typing(v.name, v.room)];
      }
      var pending := world.pending;
      if timeoutRef.Some? {
        pending := pending - {timeoutRef.value};
      }
      var id := world.nextTimerId;
      view, timeoutRef := v, Some(id);
      world := world.(outbox := out, pending := pending + {id}, nextTimerId := id + 1);
      assert view == t.view;
      assert world.outbox == t.world.outbox && world.pending == t.world.pending;
      assert State() == t;
    }

    /** The debounce timer's callback (`OnTimerFires`): lower the indicator, emit `stopTyping`. */
    method TimerFires(id: TimerId)
      requires Valid() && id in world.pending
      modifies this`view, this`world, this`quietPeriods
      ensures Valid() && State() == OnTimerFires(old(State()), id)
      ensures quietPeriods == old(quietPeriods) + 1
    {
      TimerKeepsInv(State(), id);
      var name, room := view.name, view.room;
      view := view.(typing := false);
      world := world.(outbox := world.outbox + [StopTyping(name, room)], pending := world.pending - {id});
      quietPeriods := quietPeriods + 1;
    }

    /** `sendMessage` (`OnSubmit`): emit a non-blank draft, then `stopTyping`. */
    method Submit()
      requires Valid() && phase == Live
      modifies this`world
      ensures Valid() && State() == OnSubmit(old(State()))
    {
      ghost var t := OnSubmit(State());
      SubmitKeepsInv(State());
      var name, room, text := view.name, view.room, view.draft;
      if Trim(text) != [] {
        var out := world.outbox;
        world := world.(outbox := out + [SendMessage(text), StopTyping(name, room)],
                        sendAcksPending := world.sendAcksPending + 1);
        assert world.outbox == t.world.outbox;
      }
      assert State() == t;
    }

    /** The `sendMessage` acknowledgement callback (`OnSendAck`): clear the draft. */
    method SendAck()
      requires Valid() && phase == Live && world.sendAcksPending > 0
      modifies this`view, this`world
      ensures Valid() && State() == OnSendAck(old(State()))
    {
      SendAckKeepsInv(State());
      view := view.(draft := []);
      world := world.(sendAcksPending := world.sendAcksPending - 1);
    }

    /** The mount effect's cleanup (`OnTeardown`): emit `stopTyping` and close the socket. */
    method Teardown()
      requires Valid() && phase != Unmounted
      modifies this`phase, this`world
      ensures Valid() && State() == OnTeardown(old(State()))
    {
      TeardownKeepsInv(State());
      if phase == Redirected {
        return;
      }
      var name, room := view.name, view.room;
      phase, world := TornDown, world.(outbox := world.outbox + [StopTyping(name, room)]);
    }
  }
}

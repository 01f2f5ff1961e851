/** From the join screen to the chat screen: the path the join form navigates to, read back by
    the chat screen's query reader, passes the chat screen's mount guard, and the screen joins
    the room typed under the name typed. */
module Navigation {
  import opened Wrappers
  import opened Text
  import opened Join
  import opened ChatSession

  /** Every path the join form navigates to carries a name and a room the chat screen
      accepts, and they are the values typed. */
  lemma JoinTargetPassesMountGuard(name: string, room: string)
    requires Validate(name, room).Navigate?
    ensures var q := ChatQuery(Validate(name, room).path);
      q == (Some(name), Some(room)) && MountGuard(q.0, q.1)
  {
    // a value that trims to something is not empty
    assert |Trim(name)| > 0 && |Trim(room)| > 0;
  }

  /** Submitting the join form and then mounting the chat screen on the path it navigates to
      emits exactly one `join`, for the name and the room as typed. */
  lemma JoinThenMount(name: string, room: string)
    requires Validate(name, room).Navigate?
    ensures var q := ChatQuery(Validate(name, room).path);
      var s := OnMount(FirstRender, q.0, q.1);
      && s.phase == Live && s.view.name == name && s.view.room == room
      && s.world.outbox == [Emit.Join(name, room)] && s.world.navigations == []
  {
    JoinTargetPassesMountGuard(name, room);
  }

  /** The two screens do not agree on what a usable name is: a name of one space is refused
      by the join form, yet the chat screen, reached with the same path typed by hand, joins
      under it, because its guard does not trim. */
  lemma MountGuardDoesNotTrim(name: string, room: string)
    requires name == " " && room == "lobby"
    ensures Validate(name, room) == SetError(RequiredError)
    ensures ChatQuery(ChatPath(name, room)) == (Some(name), Some(room))
    ensures OnMount(FirstRender, Some(name), Some(room)).world.outbox == [Emit.Join(name, room)]
  {
    assert AllWs(name) && !AllWs(room) by {
      assert name[0] == ' ' && IsWs(' ');
      assert room[0] == 'l' && !IsWs('l');
    }
    BlankNameRejected(name, room);
    ChatPathRoundTrip(name, room);
  }
}

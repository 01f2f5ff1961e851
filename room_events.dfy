/** The chat screen's inbound event handlers (`message`, `chatHistory`, `roomData`, `typing`,
    `stopTyping`), each a fold of one server event into the transcript, the roster, or the
    list of other users currently typing. */
module RoomEvents {

  /** A transcript entry as the server sends it; `time` is the server's timestamp. */
  datatype Message = Message(user: string, text: string, time: int)

  /** A roster entry; the screen shows its `name`. */
  datatype User = User(name: string)

  /** The three pieces of chat-screen state the handlers write. */
  datatype Room = Room(messages: seq<Message>, users: seq<User>, typingUsers: seq<string>)

  /** One inbound socket event with its payload. */
  datatype Inbound =
    | MessageEvent(message: Message)
    | ChatHistory(history: seq<Message>)
    | RoomData(users: seq<User>)
    | TypingEvent(name: string)
    | StopTypingEvent(name: string)

  predicate NoDuplicates<T(==)>(s: seq<T>) {
    forall i, j :: 0 <= i < j < |s| ==> s[i] != s[j]
  }

  /** What the typing list keeps: no name twice, and never the user's own name. */
  predicate TypingListOk(typingUsers: seq<string>, self: string) {
    NoDuplicates(typingUsers) && self !in typingUsers
  }

  /** `a` is `b` with some elements deleted, the kept ones in their original order. */
  predicate SubsequenceOf<T(==)>(a: seq<T>, b: seq<T>)
    decreases |b|
  {
    if a == [] then true
    else if b == [] then false
    else if a[0] == b[0] then SubsequenceOf(a[1..], b[1..])
    else SubsequenceOf(a, b[1..])
  }

  // ---------------------------------------------------------------------------------------
  // The handlers.

  /** `message`: the received message goes at the end; every earlier message stays where it was. */
  function ApplyMessage(transcript: seq<Message>, m: Message): (r: seq<Message>)
    ensures |r| == |transcript| + 1
    ensures r[..|transcript|] == transcript && r[|transcript|] == m
  {
    transcript + [m]
  }

  /** `chatHistory`: the history replaces the transcript, whatever it held before. */
  function ApplyHistory(transcript: seq<Message>, history: seq<Message>): (r: seq<Message>) {
    history
  }

  /** `roomData`: the server's user list replaces the roster, whatever it held before. */
  function ApplyRoomData(users: seq<User>, incoming: seq<User>): (r: seq<User>) {
    incoming
  }

  /** `typing`: another user's name is added at the end unless it is already listed; the
      user's own name is never added. */
  function ApplyTyping(prev: seq<string>, typingName: string, self: string): (r: seq<string>)
    ensures forall x :: x in r <==> x in prev || (x == typingName && x != self)
    ensures |prev| <= |r| <= |prev| + 1 && r[..|prev|] == prev
    ensures NoDuplicates(prev) ==> NoDuplicates(r)
    ensures self !in prev ==> self !in r
  {
    if typingName != self then
      if typingName !in prev then prev + [typingName] else prev
    else prev
  }

  /** `stopTyping`: `prev.filter(user => user !== typingName)`. */
  function ApplyStopTyping(prev: seq<string>, typingName: string): (r: seq<string>)
    ensures |r| <= |prev|
  {
    if prev == [] then []
    else (if prev[0] == typingName then [] else [prev[0]]) + ApplyStopTyping(prev[1..], typingName)
  }

  /** `stopTyping` removes every occurrence of the name and keeps every other name; it changes
      nothing when the name is absent, and keeps the list free of duplicates. */
  lemma {:induction false} StopTypingSpec(prev: seq<string>, n: string)
    ensures var r := ApplyStopTyping(prev, n);
      && n !in r
      && (forall x :: x != n ==> (x in r <==> x in prev))
      && (n !in prev ==> r == prev)
      && (NoDuplicates(prev) ==> NoDuplicates(r))
    decreases |prev|
  {
    if prev != [] {
      var h := if prev[0] == n then [] else [prev[0]];
      var rest := ApplyStopTyping(prev[1..], n);
      StopTypingSpec(prev[1..], n);
      assert ApplyStopTyping(prev, n) == h + rest;
      assert prev == [prev[0]] + prev[1..];
      assert NoDuplicates(prev) ==> prev[0] !in prev[1..] && NoDuplicates(prev[1..]);
    }
  }

  /** The handler table registered with `socket.on`, one handler per event name. */
  function Dispatch(room: Room, e: Inbound, self: string): (r: Room)
    ensures TypingListOk(room.typingUsers, self) ==> TypingListOk(r.typingUsers, self)
  {
    match e
    case MessageEvent(m) => room.(messages := ApplyMessage(room.messages, m))
    case ChatHistory(h) => room.(messages := ApplyHistory(room.messages, h))
    case RoomData(us) => room.(users := ApplyRoomData(room.users, us))
    case TypingEvent(n) => room.(typingUsers := ApplyTyping(room.typingUsers, n, self))
    case StopTypingEvent(n) =>
      StopTypingSpec(room.typingUsers, n);
      room.(typingUsers := ApplyStopTyping(room.typingUsers, n))
  }

  /** The handlers run one at a time, in arrival order. */
  function DispatchAll(room: Room, es: seq<Inbound>, self: string): Room
    decreases |es|
  {
    if es == [] then room else DispatchAll(Dispatch(room, es[0], self), es[1..], self)
  }

  /** The messages carried by the `message` events of a sequence, in order. */
  function MessagesOf(es: seq<Inbound>): seq<Message>
    decreases |es|
  {
    if es == [] then []
    else (if es[0].MessageEvent? then [es[0].message] else []) + MessagesOf(es[1..])
  }

  // ---------------------------------------------------------------------------------------
  // Properties of the handlers.

  /** A history replaces the transcript whatever it held, and receiving the same history twice
      is the same as receiving it once. */
  lemma HistoryReplaces(t: seq<Message>, t': seq<Message>, h: seq<Message>)
    ensures ApplyHistory(ApplyHistory(t, h), h) == ApplyHistory(t, h) == ApplyHistory(t', h) == h
  {
  }

  /** A user list replaces the roster whatever it held, and receiving the same list twice is
      the same as receiving it once. */
  lemma RoomDataReplaces(us: seq<User>, us': seq<User>, incoming: seq<User>)
    ensures ApplyRoomData(ApplyRoomData(us, incoming), incoming) == ApplyRoomData(us', incoming) == incoming
  {
  }

  /** A repeated `typing` event for the same name changes nothing. */
  lemma TypingIsIdempotent(prev: seq<string>, n: string, self: string)
    ensures ApplyTyping(ApplyTyping(prev, n, self), n, self) == ApplyTyping(prev, n, self)
  {
  }

  /** A `typing` event for the user's own name is ignored. */
  lemma TypingIgnoresSelf(prev: seq<string>, self: string)
    ensures ApplyTyping(prev, self, self) == prev
  {
  }

  /** A repeated `stopTyping` event for the same name changes nothing. */
  lemma StopTypingIsIdempotent(prev: seq<string>, n: string)
    ensures ApplyStopTyping(ApplyStopTyping(prev, n), n) == ApplyStopTyping(prev, n)
  {
    StopTypingSpec(prev, n);
    StopTypingSpec(ApplyStopTyping(prev, n), n);
  }

  /** Filtering a concatenation filters each part. */
  lemma {:induction false} StopTypingAppend(a: seq<string>, b: seq<string>, n: string)
    ensures ApplyStopTyping(a + b, n) == ApplyStopTyping(a, n) + ApplyStopTyping(b, n)
    decreases |a|
  {
    if a != [] {
      var h := if a[0] == n then [] else [a[0]];
      assert (a + b)[0] == a[0] && (a + b)[1..] == a[1..] + b;
      StopTypingAppend(a[1..], b, n);
      calc {
        ApplyStopTyping(a + b, n);
        h + ApplyStopTyping(a[1..] + b, n);
        h + (ApplyStopTyping(a[1..], n) + ApplyStopTyping(b, n));
        (h + ApplyStopTyping(a[1..], n)) + ApplyStopTyping(b, n);
        ApplyStopTyping(a, n) + ApplyStopTyping(b, n);
      }
    } else {
      assert a + b == b;
    }
  }

  /** `stopTyping` keeps the remaining names in their original order. */
  lemma {:induction false} StopTypingKeepsOrder(prev: seq<string>, n: string)
    ensures SubsequenceOf(ApplyStopTyping(prev, n), prev)
    decreases |prev|
  {
    if prev != [] {
      var r := ApplyStopTyping(prev, n);
      StopTypingKeepsOrder(prev[1..], n);
      if prev[0] != n {
        assert r[0] == prev[0] && r[1..] == ApplyStopTyping(prev[1..], n);
      } else {
        assert r == ApplyStopTyping(prev[1..], n);
        StopTypingSpec(prev[1..], n);
        assert r != [] ==> r[0] in r;
      }
    }
  }

  /** `stopTyping` keeps every other name exactly as often as it was listed: together with the
      order above, it deletes exactly the occurrences of the name. */
  lemma {:induction false} StopTypingKeepsOthers(prev: seq<string>, n: string)
    ensures forall x :: x != n ==> multiset(ApplyStopTyping(prev, n))[x] == multiset(prev)[x]
    decreases |prev|
  {
    if prev != [] {
      var h := if prev[0] == n then [] else [prev[0]];
      StopTypingKeepsOthers(prev[1..], n);
      assert prev == [prev[0]] + prev[1..];
      assert multiset(ApplyStopTyping(prev, n)) == multiset(h) + multiset(ApplyStopTyping(prev[1..], n));
    }
  }

  /** `stopTyping` undoes a `typing` event for a name that was not listed. */
  lemma StopTypingUndoesTyping(prev: seq<string>, n: string, self: string)
    requires n !in prev
    ensures ApplyStopTyping(ApplyTyping(prev, n, self), n) == prev
  {
    StopTypingSpec(prev, n);
    if n != self {
      StopTypingAppend(prev, [n], n);
      assert ApplyStopTyping([n], n) == [] + ApplyStopTyping([], n);
    }
  }

  /** Whatever events arrive, the typing list never holds a name twice and never the user's own. */
  lemma {:induction false} DispatchAllKeepsTypingList(room: Room, es: seq<Inbound>, self: string)
    requires TypingListOk(room.typingUsers, self)
    ensures TypingListOk(DispatchAll(room, es, self).typingUsers, self)
    decreases |es|
  {
    if es != [] {
      DispatchAllKeepsTypingList(Dispatch(room, es[0], self), es[1..], self);
    }
  }

  /** Any event but `chatHistory` appends its message, if it carries one, and nothing else. */
  lemma DispatchAppends(room: Room, e: Inbound, self: string)
    requires !e.ChatHistory?
    ensures Dispatch(room, e, self).messages ==
              room.messages + (if e.MessageEvent? then [e.message] else [])
  {
  }

  /** With no `chatHistory` among them, events only ever append to the transcript, in arrival
      order: the client never reorders or drops a message. */
  lemma {:induction false} TranscriptAppendOnly(room: Room, es: seq<Inbound>, self: string)
    requires forall i :: 0 <= i < |es| ==> !es[i].ChatHistory?
    ensures DispatchAll(room, es, self).messages == room.messages + MessagesOf(es)
    decreases |es|
  {
    if es != [] {
      var room' := Dispatch(room, es[0], self);
      var now := if es[0].MessageEvent? then [es[0].message] else [];
      DispatchAppends(room, es[0], self);
      var es' := es[1..];
      assert DispatchAll(room, es, self) == DispatchAll(room', es', self);
      TranscriptAppendOnly(room', es', self);
      assert MessagesOf(es) == now + MessagesOf(es');
      assert room.messages + now + MessagesOf(es') == room.messages + MessagesOf(es);
    }
  }

  /** A history followed by further events gives the history and then the new messages,
      whatever the transcript held before. */
  lemma HistoryThenMessages(room: Room, h: seq<Message>, es: seq<Inbound>, self: string)
    requires forall i :: 0 <= i < |es| ==> !es[i].ChatHistory?
    ensures DispatchAll(room, [ChatHistory(h)] + es, self).messages == h + MessagesOf(es)
  {
    var es' := [ChatHistory(h)] + es;
    assert es'[1..] == es;
    TranscriptAppendOnly(Dispatch(room, ChatHistory(h), self), es, self);
  }
}

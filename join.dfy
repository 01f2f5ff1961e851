/** The join screen: `handleJoin` rejects a blank name or room and otherwise navigates to the
    chat screen with both values percent-encoded into the query string. */
module Join {
  import opened Wrappers
  import opened Text
  import opened Uri

  const RequiredError: string := "Name and Room are required"
  const ChatPrefix: string := "/chat?"

  /** What one submission of the form does: show an error, or navigate. */
  datatype Outcome = SetError(message: string) | Navigate(path: string)

  /** The navigation target, built from the values as typed (untrimmed). */
  function ChatPath(name: string, room: string): string {
    ChatPrefix + "name=" + EncodeComponent(name) + "&room=" + EncodeComponent(room)
  }

  /** `handleJoin`'s decision: an error when either value trims to the empty string, and
      otherwise a path from which the chat screen reads back exactly the values typed. */
  function Validate(name: string, room: string): (o: Outcome)
    ensures o.SetError? <==> (Trim(name) == [] || Trim(room) == [])
    ensures o.SetError? ==> o.message == RequiredError
    ensures o.Navigate? ==> ChatQuery(o.path) == (Some(name), Some(room))
  {
    if Trim(name) == [] || Trim(room) == [] then SetError(RequiredError)
    else
      ChatPathRoundTrip(name, room);
      Navigate(ChatPath(name, room))
  }

  /** The join form's state: both inputs, the error shown under them, and the navigations
      made so far. */
  class JoinForm {
    var name: string
    var room: string
    var error: string
    var navigations: seq<string>

    constructor ()
      ensures name == [] && room == [] && error == [] && navigations == []
    {
      name, room, error, navigations := [], [], [], [];
    }

    /** The name input's `onChange`. */
    method SetName(value: string)
      modifies this`name
      ensures name == value
    {
      name := value;
    }

    /** The room input's `onChange`. */
    method SetRoom(value: string)
      modifies this`room
      ensures room == value
    {
      room := value;
    }

    /** Submitting the form. A rejected submission sets the error and does not navigate; an
        accepted one navigates once and leaves an earlier error message as it was. */
    method HandleJoin()
      modifies this`error, this`navigations
      ensures Validate(name, room).SetError? ==>
                error == RequiredError && navigations == old(navigations)
      ensures Validate(name, room).Navigate? ==>
                error == old(error) && navigations == old(navigations) + [ChatPath(name, room)]
    {
      if Trim(name) == [] || Trim(room) == [] {
        error := RequiredError;
        return;
      }
      navigations := navigations + [ChatPath(name, room)];
    }
  }

  // ---------------------------------------------------------------------------------------
  // Reading the query string back: a reference reader for the target path.

  /** Joins parts with a separator between each two. */
  function JoinWith(parts: seq<string>, sep: char): string
    decreases |parts|
  {
    if parts == [] then []
    else if |parts| == 1 then parts[0]
    else parts[0] + [sep] + JoinWith(parts[1..], sep)
  }

  /** Splits at every separator: no part holds the separator, and joining the parts again gives
      the input back. */
  function Split(s: string, sep: char): (parts: seq<string>)
    ensures |parts| >= 1
    ensures forall i :: 0 <= i < |parts| ==> sep !in parts[i]
    ensures JoinWith(parts, sep) == s
    decreases |s|
  {
    if s == [] then [[]]
    else
      var rest := Split(s[1..], sep);
      if s[0] == sep then
        assert s == [sep] + s[1..];
        [[]] + rest
      else
        var parts := [[s[0]] + rest[0]] + rest[1..];
        assert s == [s[0]] + s[1..];
        assert parts[1..] == rest[1..];
        parts
  }

  /** Splits at the first separator; without one, the value part is empty. */
  function SplitFirst(s: string, sep: char): (kv: (string, string))
    ensures sep !in kv.0
    ensures sep in s ==> s == kv.0 + [sep] + kv.1
    ensures sep !in s ==> kv == (s, [])
    decreases |s|
  {
    if s == [] then ([], [])
    else if s[0] == sep then ([], s[1..])
    else
      var kv := SplitFirst(s[1..], sep);
      assert s == [s[0]] + s[1..];
      ([s[0]] + kv.0, kv.1)
  }

  /** The `key=value` pairs of a query string, undecoded, in order. */
  function Parameters(query: string): (ps: seq<(string, string)>)
    ensures |ps| == |Split(query, '&')|
  {
    var parts := Split(query, '&');
    seq(|parts|, i requires 0 <= i < |parts| => SplitFirst(parts[i], '='))
  }

  /** The decoded value of the first parameter with the given key. */
  function Lookup(ps: seq<(string, string)>, key: string): Option<string>
    decreases |ps|
  {
    if ps == [] then None
    else if ps[0].0 == key then DecodeComponent(ps[0].1)
    else Lookup(ps[1..], key)
  }

  /** The `name` and `room` parameters of a chat-screen path, as optional strings. */
  function ChatQuery(path: string): (Option<string>, Option<string>) {
    if |path| < |ChatPrefix| || path[..|ChatPrefix|] != ChatPrefix then (None, None)
    else
      var ps := Parameters(path[|ChatPrefix|..]);
      (Lookup(ps, "name"), Lookup(ps, "room"))
  }

  // ---------------------------------------------------------------------------------------
  // Properties.

  lemma {:induction false} SplitWithoutSeparator(s: string, sep: char)
    requires sep !in s
    ensures Split(s, sep) == [s]
    decreases |s|
  {
    if s != [] {
      SplitWithoutSeparator(s[1..], sep);
      assert [s[0]] + s[1..] == s;
    }
  }

  /** Two pieces without the separator, joined by it, split back into exactly those pieces. */
  lemma {:induction false} SplitTwo(a: string, b: string, sep: char)
    requires sep !in a && sep !in b
    ensures Split(a + [sep] + b, sep) == [a, b]
    decreases |a|
  {
    var s := a + [sep] + b;
    if a == [] {
      assert s[0] == sep && s[1..] == b;
      SplitWithoutSeparator(b, sep);
    } else {
      assert s[0] == a[0] && s[1..] == a[1..] + [sep] + b;
      SplitTwo(a[1..], b, sep);
      assert [a[0]] + a[1..] == a;
    }
  }

  lemma {:induction false} SplitFirstOfPair(k: string, v: string, sep: char)
    requires sep !in k
    ensures SplitFirst(k + [sep] + v, sep) == (k, v)
    decreases |k|
  {
    var s := k + [sep] + v;
    if k == [] {
      assert s[0] == sep && s[1..] == v;
    } else {
      assert s[0] == k[0] && s[1..] == k[1..] + [sep] + v;
      SplitFirstOfPair(k[1..], v, sep);
      assert [k[0]] + k[1..] == k;
    }
  }

  /** One `key=value` parameter, with a key free of `=`, reads back as that pair; with a value
      that is an encoded component, it holds no `&`. */
  lemma EncodedParameter(key: string, value: string)
    requires '=' !in key && '&' !in key
    ensures var e := EncodeComponent(value);
      && '&' !in key + "=" + e
      && SplitFirst(key + "=" + e, '=') == (key, e)
  {
    var e := EncodeComponent(value);
    EncodedHasNoDelimiters(value);
    assert key + "=" + e == key + ['='] + e;
    SplitFirstOfPair(key, e, '=');
  }

  /** The chat path is the prefix followed by the two parameters joined by `&`. */
  lemma ChatPathShape(name: string, room: string)
    ensures var p := ChatPath(name, room);
      && |p| >= |ChatPrefix| && p[..|ChatPrefix|] == ChatPrefix
      && p[|ChatPrefix|..] == ("name" + "=" + EncodeComponent(name)) + ['&'] + ("room" + "=" + EncodeComponent(room))
  {
    var en, er := EncodeComponent(name), EncodeComponent(room);
    var p := ChatPath(name, room);
    var q := ("name" + "=" + en) + ['&'] + ("room" + "=" + er);
    assert p == ChatPrefix + q;
  }

  /** Splitting the query of a chat path gives the two undecoded parameters. */
  lemma ChatPathParameters(name: string, room: string)
    ensures Parameters(ChatPath(name, room)[|ChatPrefix|..]) ==
              [("name", EncodeComponent(name)), ("room", EncodeComponent(room))]
  {
    var en, er := EncodeComponent(name), EncodeComponent(room);
    var pn, pr := "name" + "=" + en, "room" + "=" + er;
    EncodedParameter("name", name);
    EncodedParameter("room", room);
    ChatPathShape(name, room);
    SplitTwo(pn, pr, '&');
  }

  /** The query of a chat path holds exactly two parameters, `name` and `room`, in that order,
      whose values decode to the strings typed. */
  lemma ChatPathRoundTrip(name: string, room: string)
    ensures var p := ChatPath(name, room);
      && |p| >= |ChatPrefix| && p[..|ChatPrefix|] == ChatPrefix
      && Parameters(p[|ChatPrefix|..]) == [("name", EncodeComponent(name)), ("room", EncodeComponent(room))]
      && ChatQuery(p) == (Some(name), Some(room))
  {
    var en, er := EncodeComponent(name), EncodeComponent(room);
    ChatPathShape(name, room);
    ChatPathParameters(name, room);
    var ps := [("name", en), ("room", er)];
    DecodeEncode(name);
    DecodeEncode(room);
    assert ps[1..] == [("room", er)];
    assert Lookup(ps, "name") == Some(name);
    assert Lookup(ps, "room") == Some(room);
  }

  /** A name that is all white space is refused, whatever the room. */
  lemma BlankNameRejected(name: string, room: string)
    requires AllWs(name)
    ensures Validate(name, room) == SetError(RequiredError)
  {
    TrimEmptyIff(name);
  }

  /** A room that is all white space is refused, whatever the name. */
  lemma BlankRoomRejected(name: string, room: string)
    requires AllWs(room)
    ensures Validate(name, room) == SetError(RequiredError)
  {
    TrimEmptyIff(room);
  }

  /** When both values hold something other than white space, the form navigates to the chat
      path built from the values as typed. */
  lemma FilledFormNavigates(name: string, room: string)
    requires !AllWs(name) && !AllWs(room)
    ensures Validate(name, room) == Navigate(ChatPath(name, room))
  {
    TrimEmptyIff(name);
    TrimEmptyIff(room);
  }

  /** Padding is kept in the target: the leading space of " Ann" is sent as `%20`, and the
      room is sent as typed. */
  lemma PaddingIsEncoded(name: string, room: string)
    requires name == " Ann" && room == "lobby"
    ensures EncodeComponent(name) == "%20Ann" && EncodeComponent(room) == room
  {
    var rest := name[1..];
    assert rest == "Ann" && name[0] == ' ';
    EncodeSpace();
    EncodeUnescaped(rest);
    EncodeUnescaped(room);
    assert EncodeComponent(name) == EncodeChar(' ') + EncodeComponent(rest);
  }

  /** A padded name is accepted as typed, not trimmed: the chat screen reads it back with its
      leading space. */
  lemma PaddedNameAccepted(name: string, room: string)
    requires name == " Ann" && room == "lobby"
    ensures Validate(name, room) == Navigate(ChatPath(name, room))
    ensures ChatQuery(ChatPath(name, room)) == (Some(" Ann"), Some("lobby"))
  {
    assert !IsWs(name[1]) && !IsWs(room[0]);
    FilledFormNavigates(name, room);
  }
}

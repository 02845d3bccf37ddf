/** Vocabulary shared by every part of the chat relay model: identifiers,
    the per-connection session, and the envelopes the server sends out. */
module ChatTypes {

  /** A transport connection id (socket.io's `socket.id`). */
  type ConnId = string

  /** A room is only a partition key: no room object is ever created. */
  type Room = string

  type Name = string

  /** The server's `new Date()`, supplied from outside the model. */
  type Time = nat

  datatype Option<+T> = None | Some(value: T)

  /** What `join` stores for a connection: `{ username, room }`. */
  datatype Session = Session(username: Name, room: Room)

  /** The `message` envelope of src/types/chat.ts: a system notice has no
      username, a user message carries its author's name. */
  datatype Message =
    | SystemMessage(content: string, timestamp: Time)
    | UserMessage(username: Name, content: string, timestamp: Time)

  /** The three outbound event names and their payloads. A `typingUsers`
      entry is `None` where the server looked up a connection that has no
      session (JavaScript's `undefined`). */
  datatype Payload =
    | MessageEvent(message: Message)
    | UserList(names: seq<Name>)
    | TypingUsers(typing: seq<Option<Name>>)

  /** One `emit`: the connections it is delivered to, and what it carries. */
  datatype Emission = Emission(audience: set<ConnId>, payload: Payload)

  /** The inbound events a connection can send; `Disconnect` is raised by
      the transport itself. */
  datatype Inbound =
    | Join(username: Name, room: Room)
    | Chat(content: string, room: Room)
    | Typing(isTyping: bool, room: Room)
    | Disconnect

  /** The content of the system message announcing a join: the username
      followed by a fixed 20-character tail. */
  function JoinedNotice(username: Name): (r: string)
    ensures |r| == |username| + 20
    ensures r[..|username|] == username
  {
    username + " has joined the chat"
  }

  /** The content of the system message announcing a departure: the
      username followed by a fixed 18-character tail. */
  function LeftNotice(username: Name): (r: string)
    ensures |r| == |username| + 18
    ensures r[..|username|] == username
  {
    username + " has left the chat"
  }

  /** A join notice is never mistaken for a departure notice, whoever the
      two users are, and each notice names exactly one user. */
  lemma NoticesDiffer(a: Name, b: Name)
    ensures JoinedNotice(a) != LeftNotice(b)
    ensures JoinedNotice(a) == JoinedNotice(b) ==> a == b
    ensures LeftNotice(a) == LeftNotice(b) ==> a == b
  {
    var joined, left := JoinedNotice(a), LeftNotice(b);
    if |joined| == |left| {
      assert joined[|joined| - 18] == " has joined the chat"[2] == 'a';
      assert left[|left| - 18] == " has left the chat"[0] == ' ';
    }
  }
}

/** The four socket handlers of server.js as pure step functions: each takes
    the process-wide state and the sending connection, and returns the new
    state together with the events it emits, in emission order. */
module Server {
  import opened ChatTypes
  import opened Registry
  import TypingSet
  import Rooms

  /** The registry (`users`), the typing set (`typingUsers`) and the
      transport's room subscriptions. */
  datatype State = State(users: Table, typing: TypingSet.Ids, subs: Rooms.Subscriptions)

  datatype Outcome = Outcome(state: State, emitted: seq<Emission>)

  /** The state when the process starts. */
  const Start: State := State([], [], map[])

  /** `users.get(id)?.username`. */
  function NameOf(users: Table, id: ConnId): (r: Option<Name>)
    ensures r.Some? <==> Get(users, id).Some?
    ensures r.Some? ==> r.value == Get(users, id).value.username
  {
    match Get(users, id)
    case Some(session) => Some(session.username)
    case None => None
  }

  /** The `typingUsers` payload: the name of every id of the typing set,
      in set order, except those equal to `self`. The ids are not
      filtered by room. An id without a session contributes `undefined`,
      which is never equal to a name and so is kept. */
  function TypingNames(users: Table, ids: TypingSet.Ids, self: Name): (r: seq<Option<Name>>)
    ensures |r| <= |ids|
    ensures Some(self) !in r
    ensures forall n :: Some(n) in r <==> n != self && exists i :: 0 <= i < |ids| && NameOf(users, ids[i]) == Some(n)
    ensures None in r <==> exists i :: 0 <= i < |ids| && NameOf(users, ids[i]).None?
  {
    if |ids| == 0 then []
    else
      var rest := TypingNames(users, ids[1..], self);
      assert forall i :: 0 < i < |ids| ==> ids[i] == ids[1..][i - 1];
      var head := NameOf(users, ids[0]);
      (if head != Some(self) then [head] else []) + rest
  }

  /** The typing list of two parts of the typing set is the list of the
      first part followed by that of the second: the list keeps the set's
      order, and every id contributes on its own. */
  lemma {:induction false} TypingNamesAppend(users: Table, a: TypingSet.Ids, b: TypingSet.Ids, self: Name)
    ensures TypingNames(users, a + b, self) == TypingNames(users, a, self) + TypingNames(users, b, self)
  {
    if |a| == 0 {
      assert a + b == b;
    } else {
      assert (a + b)[1..] == a[1..] + b;
      TypingNamesAppend(users, a[1..], b, self);
    }
  }

  /** One id contributes its name (or `undefined`) exactly once, unless
      that is the sender's name. */
  lemma TypingNamesSingle(users: Table, id: ConnId, self: Name)
    ensures TypingNames(users, [id], self)
         == if NameOf(users, id) != Some(self) then [NameOf(users, id)] else []
  {
    assert [id][1..] == [];
  }

  /** Ids under the sender's own name contribute nothing, so removing one
      of them leaves the list as it was. */
  lemma {:induction false} TypingNamesRemoveSelf(users: Table, ids: TypingSet.Ids, c: ConnId, self: Name)
    requires NameOf(users, c) == Some(self)
    ensures TypingNames(users, TypingSet.Remove(ids, c), self) == TypingNames(users, ids, self)
  {
    if |ids| > 0 {
      TypingNamesRemoveSelf(users, ids[1..], c, self);
      if ids[0] != c {
        assert TypingSet.Remove(ids, c)[1..] == TypingSet.Remove(ids[1..], c);
      }
    }
  }

  /** Adding an id under the sender's own name leaves the list as it was. */
  lemma TypingNamesAddSelf(users: Table, ids: TypingSet.Ids, c: ConnId, self: Name)
    requires NameOf(users, c) == Some(self)
    ensures TypingNames(users, TypingSet.Add(ids, c), self) == TypingNames(users, ids, self)
  {
    if c !in ids {
      TypingNamesAppend(users, ids, [c], self);
      TypingNamesSingle(users, c, self);
    }
  }

  /** `socket.on('join')`: store the session (in place when the connection
      already has one), subscribe to the room, tell the other subscribers
      that the user joined, then send the room's roster to every
      subscriber, the sender included. */
  function OnJoin(s: State, c: ConnId, username: Name, room: Room, now: Time): (o: Outcome)
    ensures Get(o.state.users, c) == Some(Session(username, room))
    ensures forall d :: d != c ==> Get(o.state.users, d) == Get(s.users, d)
    ensures o.state.typing == s.typing
    ensures c in Rooms.To(o.state.subs, room)
    ensures forall d :: d in s.subs ==> d in o.state.subs && s.subs[d] <= o.state.subs[d]
    ensures o.state.subs.Keys == s.subs.Keys + {c}
    ensures forall d :: d in s.subs && d != c ==> o.state.subs[d] == s.subs[d]
    ensures forall x :: x in o.state.subs[c] ==> x == room || (c in s.subs && x in s.subs[c])
    ensures |o.emitted| == 2
    ensures o.emitted[0].audience == Rooms.To(o.state.subs, room) - {c}
    ensures o.emitted[0].payload == MessageEvent(SystemMessage(JoinedNotice(username), now))
    ensures o.emitted[1].audience == Rooms.To(o.state.subs, room)
    ensures o.emitted[1].payload == UserList(UsersInRoom(o.state.users, room))
  {
    var session := Session(username, room);
    var users := Put(s.users, c, session);
    GetPut(s.users, c, session);
    var subs := Rooms.Subscribe(s.subs, c, room);
    Outcome(
      State(users, s.typing, subs),
      [ Emission(Rooms.Broadcast(subs, c, room), MessageEvent(SystemMessage(JoinedNotice(username), now))),
        Emission(Rooms.To(subs, room), UserList(UsersInRoom(users, room))) ])
  }

  /** `socket.on('message')`: a connection without a session is ignored;
      otherwise one user message signed with the session's username goes
      to every subscriber of the room named in the payload. */
  function OnMessage(s: State, c: ConnId, content: string, room: Room, now: Time): (o: Outcome)
    ensures o.state == s
    ensures Get(s.users, c).None? ==> o.emitted == []
    ensures Get(s.users, c).Some? ==>
      o.emitted == [Emission(Rooms.To(s.subs, room),
                             MessageEvent(UserMessage(Get(s.users, c).value.username, content, now)))]
  {
    match Get(s.users, c)
    case None => Outcome(s, [])
    case Some(user) =>
      Outcome(s, [Emission(Rooms.To(s.subs, room), MessageEvent(UserMessage(user.username, content, now)))])
  }

  /** `socket.on('typing')`: a connection without a session is ignored,
      the typing set included; otherwise the sender is added to or
      removed from the typing set, and the resulting list of typing
      names, minus the sender's own name, goes to the other subscribers
      of the room named in the payload. */
  function OnTyping(s: State, c: ConnId, isTyping: bool, room: Room): (o: Outcome)
    ensures Get(s.users, c).None? ==> o == Outcome(s, [])
    ensures Get(s.users, c).Some? ==> o.state.users == s.users && o.state.subs == s.subs
    ensures Get(s.users, c).Some? ==>
      forall d :: d in o.state.typing <==> if isTyping then d in s.typing || d == c else d in s.typing && d != c
    ensures Get(s.users, c).Some? ==>
      o.state.typing == if isTyping then TypingSet.Add(s.typing, c) else TypingSet.Remove(s.typing, c)
    ensures Get(s.users, c).Some? ==>
      && |o.emitted| == 1
      && o.emitted[0].audience == Rooms.To(s.subs, room) - {c}
      && o.emitted[0].payload == TypingUsers(TypingNames(s.users, o.state.typing, Get(s.users, c).value.username))
  {
    match Get(s.users, c)
    case None => Outcome(s, [])
    case Some(user) =>
      var typing := if isTyping then TypingSet.Add(s.typing, c) else TypingSet.Remove(s.typing, c);
      Outcome(
        State(s.users, typing, s.subs),
        [Emission(Rooms.Broadcast(s.subs, c, room), TypingUsers(TypingNames(s.users, typing, user.username)))])
  }

  /** `socket.on('disconnect')`: the transport has already taken the
      connection out of every room. With a session, the session and the
      typing flag are dropped, then the departure notice and the new
      roster go to the subscribers of the session's room. Without one,
      nothing is emitted. */
  function OnDisconnect(s: State, c: ConnId, now: Time): (o: Outcome)
    ensures Get(o.state.users, c).None?
    ensures forall d :: d != c ==> Get(o.state.users, d) == Get(s.users, d)
    ensures o.state.subs.Keys == s.subs.Keys - {c}
    ensures forall d :: d in o.state.subs ==> o.state.subs[d] == s.subs[d]
    ensures Get(s.users, c).None? ==> o.emitted == [] && o.state.users == s.users && o.state.typing == s.typing
    ensures Get(s.users, c).Some? ==> forall d :: d in o.state.typing <==> d in s.typing && d != c
    ensures Get(s.users, c).Some? ==>
      o.state.users == Delete(s.users, c) && o.state.typing == TypingSet.Remove(s.typing, c)
    ensures Get(s.users, c).Some? ==>
      var user := Get(s.users, c).value;
      && |o.emitted| == 2
      && o.emitted[0] == Emission(Rooms.To(o.state.subs, user.room), MessageEvent(SystemMessage(LeftNotice(user.username), now)))
      && o.emitted[1] == Emission(Rooms.To(o.state.subs, user.room), UserList(UsersInRoom(o.state.users, user.room)))
  {
    var subs := Rooms.LeaveAll(s.subs, c);
    match Get(s.users, c)
    case None => Outcome(State(s.users, s.typing, subs), [])
    case Some(user) =>
      var users := Delete(s.users, c);
      GetDelete(s.users, c);
      Outcome(
        State(users, TypingSet.Remove(s.typing, c), subs),
        [ Emission(Rooms.To(subs, user.room), MessageEvent(SystemMessage(LeftNotice(user.username), now))),
          Emission(Rooms.To(subs, user.room), UserList(UsersInRoom(users, user.room))) ])
  }

  /** One inbound event from connection `c`, handled to completion; `now`
      is the clock reading the handler would take. */
  function Step(s: State, c: ConnId, event: Inbound, now: Time): (o: Outcome)
    ensures |o.emitted| <= 2
    ensures event.Join? ==> Get(o.state.users, c) == Some(Session(event.username, event.room))
    ensures event.Chat? ==> o.state == s
    ensures event.Typing? ==> o.state.users == s.users && o.state.subs == s.subs
    ensures event.Disconnect? ==> Get(o.state.users, c).None? && c !in o.state.subs
    ensures !event.Join? ==> forall d :: d in o.state.subs ==> d in s.subs
  {
    match event
    case Join(username, room) => OnJoin(s, c, username, room, now)
    case Chat(content, room) => OnMessage(s, c, content, room, now)
    case Typing(isTyping, room) => OnTyping(s, c, isTyping, room)
    case Disconnect => OnDisconnect(s, c, now)
  }

  /** One event of a run: who sent what, and the clock when it was handled. */
  datatype Event = Event(conn: ConnId, input: Inbound, time: Time)

  /** Events handled one after another; the emissions are concatenated in
      the order they happen. */
  function Run(s: State, events: seq<Event>): (o: Outcome)
    ensures |o.emitted| <= 2 * |events|
    decreases |events|
  {
    if |events| == 0 then Outcome(s, [])
    else
      var first := Step(s, events[0].conn, events[0].input, events[0].time);
      var rest := Run(first.state, events[1..]);
      Outcome(rest.state, first.emitted + rest.emitted)
  }

  /** Handling `a` and then `b` is handling `a + b`: the state is threaded
      through and the emissions of `b` follow those of `a`. */
  lemma {:induction false} RunAppend(s: State, a: seq<Event>, b: seq<Event>)
    ensures var first := Run(s, a);
      var second := Run(first.state, b);
      Run(s, a + b) == Outcome(second.state, first.emitted + second.emitted)
    decreases |a|, 1
  {
    if |a| == 0 {
      assert a + b == b;
    } else {
      RunAppendFirst(s, a, b);
    }
  }

  /** The step case of `RunAppend`: the first event of `a` is also the
      first of `a + b`. */
  lemma {:induction false} RunAppendFirst(s: State, a: seq<Event>, b: seq<Event>)
    requires |a| > 0
    ensures var first := Run(s, a);
      var second := Run(first.state, b);
      Run(s, a + b) == Outcome(second.state, first.emitted + second.emitted)
    decreases |a|, 0
  {
    var e, rest := a[0], a[1..];
    assert (a + b)[0] == e && (a + b)[1..] == rest + b;
    var step := Step(s, e.conn, e.input, e.time);
    RunAppend(step.state, rest, b);
    var tail := Run(step.state, rest);
    assert step.emitted + (tail.emitted + Run(tail.state, b).emitted)
        == (step.emitted + tail.emitted) + Run(tail.state, b).emitted;
  }
}

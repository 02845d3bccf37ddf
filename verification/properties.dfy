/** What the handlers promise beyond a single call: how the roster moves,
    what a typing list can contain, and which repeated events are no-ops. */
module Properties {
  import opened ChatTypes
  import opened Registry
  import opened Server
  import opened Invariant
  import TypingSet
  import Rooms

  /** A first join appends the new user to the end of the registry, so the
      roster it sends is the room's previous roster followed by the new
      name. */
  lemma FirstJoinAppendsToRoster(s: State, c: ConnId, username: Name, room: Room, now: Time)
    requires Get(s.users, c).None?
    ensures OnJoin(s, c, username, room, now).state.users == s.users + [Entry(c, Session(username, room))]
    ensures OnJoin(s, c, username, room, now).emitted[1].payload
         == UserList(UsersInRoom(s.users, room) + [username])
  {
    var entry := Entry(c, Session(username, room));
    PutAppends(s.users, c, Session(username, room));
    UsersInRoomAppend(s.users, [entry], room);
    assert UsersInRoom([entry], room) == [username];
  }

  /** A re-join rewrites the session where it stands, so the user keeps
      its place in the roster of the new room; the other entries and their
      order are untouched. */
  lemma RejoinKeepsPlace(s: State, k: nat, username: Name, room: Room, now: Time)
    requires Unique(s.users) && k < |s.users|
    ensures var c := s.users[k].conn;
      && OnJoin(s, c, username, room, now).state.users == s.users[k := Entry(c, Session(username, room))]
      && OnJoin(s, c, username, room, now).emitted[1].payload
         == UserList(UsersInRoom(s.users[..k], room) + [username] + UsersInRoom(s.users[k + 1..], room))
  {
    var t := s.users;
    var c := t[k].conn;
    var entry := Entry(c, Session(username, room));
    forall j | 0 <= j < k
      ensures t[j].conn != c
    {
      UniqueApart(t, j, k);
    }
    PutInPlace(t, k, Session(username, room));
    UsersInRoomAround(t, k, entry, room);
    UsersInRoomSingle(entry, room);
  }

  /** A re-join sends nothing to the room left behind: any other
      connection not subscribed to the new room, or not subscribed at all,
      receives neither event, and the re-joining connection stays
      subscribed to every room it had. */
  lemma RejoinSilentToOldRoom(s: State, c: ConnId, username: Name, room: Room, now: Time, d: ConnId)
    requires d != c && (d in s.subs ==> room !in s.subs[d])
    ensures var o := OnJoin(s, c, username, room, now);
      forall e :: e in o.emitted ==> d !in e.audience
    ensures c in s.subs ==>
      forall r :: r in s.subs[c] ==> c in Rooms.To(OnJoin(s, c, username, room, now).state.subs, r)
  {
    var o := OnJoin(s, c, username, room, now);
    assert d !in Rooms.To(o.state.subs, room);
  }

  /** On disconnect the roster of the session's room loses exactly the
      leaving user's entry, and the leaving connection receives neither
      the notice nor the roster. */
  lemma DisconnectDropsFromRoster(s: State, k: nat, now: Time)
    requires Unique(s.users) && k < |s.users|
    ensures var c, user := s.users[k].conn, s.users[k].session;
      && OnDisconnect(s, c, now).state.users == s.users[..k] + s.users[k + 1..]
      && UsersInRoom(s.users, user.room)
         == UsersInRoom(s.users[..k], user.room) + [user.username] + UsersInRoom(s.users[k + 1..], user.room)
      && OnDisconnect(s, c, now).emitted[1].payload
         == UserList(UsersInRoom(s.users[..k], user.room) + UsersInRoom(s.users[k + 1..], user.room))
      && forall e :: e in OnDisconnect(s, c, now).emitted ==> c !in e.audience
  {
    var t := s.users;
    var c, user := t[k].conn, t[k].session;
    var o := OnDisconnect(s, c, now);
    GetFindsEntry(t, k);
    DeleteAt(t, k);
    assert t[k := t[k]] == t;
    UsersInRoomAround(t, k, t[k], user.room);
    UsersInRoomSingle(t[k], user.room);
    UsersInRoomAppend(t[..k], t[k + 1..], user.room);
    assert c !in o.state.subs;
  }

  /** A second disconnect of the same connection changes nothing and
      emits nothing. */
  lemma DisconnectTwiceIsNoOp(s: State, c: ConnId, first: Time, second: Time)
    ensures var once := OnDisconnect(s, c, first).state;
      OnDisconnect(once, c, second) == Outcome(once, [])
  {
    var once := OnDisconnect(s, c, first).state;
    assert Rooms.LeaveAll(once.subs, c) == once.subs;
  }

  /** A disconnect from a connection that never joined changes nothing and
      emits nothing. */
  lemma DisconnectWithoutSessionIsNoOp(s: State, c: ConnId, now: Time)
    requires Inv(s) && Get(s.users, c).None?
    ensures OnDisconnect(s, c, now) == Outcome(s, [])
  {
    assert c !in s.subs;
    assert Rooms.LeaveAll(s.subs, c) == s.subs;
  }

  /** In a reachable state the typing list holds only real names: a name
      is in it exactly when some connection of the typing set (after the
      update) has a session under that name and the name differs from the
      sender's. The sender's own name never appears. */
  lemma TypingListNames(s: State, c: ConnId, isTyping: bool, room: Room)
    requires Inv(s) && Get(s.users, c).Some?
    ensures var o := OnTyping(s, c, isTyping, room);
      var self := Get(s.users, c).value.username;
      && o.emitted[0].payload.TypingUsers?
      && None !in o.emitted[0].payload.typing
      && Some(self) !in o.emitted[0].payload.typing
      && forall n :: Some(n) in o.emitted[0].payload.typing <==>
           n != self && exists id :: id in o.state.typing && NameOf(s.users, id) == Some(n)
  {
    var o := OnTyping(s, c, isTyping, room);
    TypingPreservesInv(s, c, isTyping, room);
    NamesOfTypingSet(o.state);
  }

  /** In a reachable state every id of the typing set has a name, and the
      names found by position are the names found by membership. */
  lemma NamesOfTypingSet(s: State)
    requires Inv(s)
    ensures forall i :: 0 <= i < |s.typing| ==> NameOf(s.users, s.typing[i]).Some?
    ensures forall n :: (exists i :: 0 <= i < |s.typing| && NameOf(s.users, s.typing[i]) == Some(n))
                    <==> (exists id :: id in s.typing && NameOf(s.users, id) == Some(n))
  {
    var ids := s.typing;
    forall i | 0 <= i < |ids|
      ensures NameOf(s.users, ids[i]).Some?
    {
      assert ids[i] in ids;
    }
    forall n | exists id :: id in ids && NameOf(s.users, id) == Some(n)
      ensures exists i :: 0 <= i < |ids| && NameOf(s.users, ids[i]) == Some(n)
    {
      var id :| id in ids && NameOf(s.users, id) == Some(n);
      var i :| 0 <= i < |ids| && ids[i] == id;
    }
  }

  /** `typing` on then off from a joined connection: the connection ends
      up out of the typing set, the rest of the set is as before (the
      whole set, order included, when it was not typing before), and both
      lists go to the room's other subscribers without the sender's name. */
  lemma TypingOnThenOff(s: State, c: ConnId, room: Room)
    requires Get(s.users, c).Some?
    ensures var on := OnTyping(s, c, true, room);
      var off := OnTyping(on.state, c, false, room);
      var self := Get(s.users, c).value.username;
      && c !in off.state.typing
      && (forall d :: d != c ==> (d in off.state.typing <==> d in s.typing))
      && (c !in s.typing ==> off.state.typing == s.typing)
      && off.state.users == s.users
      && on.emitted[0].audience == off.emitted[0].audience == Rooms.To(s.subs, room) - {c}
      && Some(self) !in on.emitted[0].payload.typing
      && Some(self) !in off.emitted[0].payload.typing
  {
    TypingSet.RemoveAdd(s.typing, c);
  }

  /** On disconnect the typing flag of the leaving connection is dropped
      where it stands: the other typing connections keep their order. */
  lemma DisconnectClosesTypingGap(s: State, j: nat, now: Time)
    requires TypingSet.Distinct(s.typing) && j < |s.typing| && Get(s.users, s.typing[j]).Some?
    ensures OnDisconnect(s, s.typing[j], now).state.typing == s.typing[..j] + s.typing[j + 1..]
  {
    forall i | 0 <= i < |s.typing| && i != j
      ensures s.typing[i] != s.typing[j]
    {
      if i < j {
        assert s.typing[i] != s.typing[j];
      }
    }
    TypingSet.RemoveAt(s.typing, j);
  }

  /** The typing list a joined connection sends is the same whether it
      starts or stops typing, and the same as before its event: the
      sender's own flag never shows in the list it sends. */
  lemma TypingListIgnoresOwnFlag(s: State, c: ConnId, isTyping: bool, room: Room)
    requires Get(s.users, c).Some?
    ensures OnTyping(s, c, isTyping, room).emitted[0].payload
         == TypingUsers(TypingNames(s.users, s.typing, Get(s.users, c).value.username))
  {
    var self := Get(s.users, c).value.username;
    if isTyping {
      TypingNamesAddSelf(s.users, s.typing, c, self);
    } else {
      TypingNamesRemoveSelf(s.users, s.typing, c, self);
    }
  }
}

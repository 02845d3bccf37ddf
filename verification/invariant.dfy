/** The state invariant every handler keeps: the registry is a map, the
    typing set holds only connections that have a session, and a
    connection is subscribed exactly when it has a session, at least to
    the room its session names. */
module Invariant {
  import opened ChatTypes
  import opened Registry
  import opened Server
  import TypingSet
  import Rooms

  predicate Inv(s: State)
  {
    && Unique(s.users)
    && TypingSet.Distinct(s.typing)
    && TypingJoined(s)
    && EntriesSubscribed(s)
    && SubscribersJoined(s)
  }

  /** The typing set is a subset of the registry's keys. */
  predicate TypingJoined(s: State)
  {
    forall id :: id in s.typing ==> Get(s.users, id).Some?
  }

  /** Every connection with a session is subscribed. */
  predicate EntriesSubscribed(s: State)
  {
    forall i :: 0 <= i < |s.users| ==> s.users[i].conn in s.subs
  }

  /** Every subscribed connection has a session, and is subscribed to the
      room that session names. */
  predicate SubscribersJoined(s: State)
  {
    forall c :: c in s.subs ==> Get(s.users, c).Some? && Get(s.users, c).value.room in s.subs[c]
  }

  lemma StartInv()
    ensures Inv(Start)
  {
  }

  lemma JoinPreservesInv(s: State, c: ConnId, username: Name, room: Room, now: Time)
    requires Inv(s)
    ensures Inv(OnJoin(s, c, username, room, now).state)
  {
    var o := OnJoin(s, c, username, room, now);
    var t, r := s.users, o.state.users;
    assert r == Put(t, c, Session(username, room));
    PutUnique(t, c, Session(username, room));
    assert o.state.subs == Rooms.Subscribe(s.subs, c, room);
    assert c in o.state.subs;
    assert TypingJoined(o.state) by {
      forall id | id in o.state.typing
        ensures Get(r, id).Some?
      {
        assert id in s.typing;
      }
    }
    assert EntriesSubscribed(o.state) by {
      forall i | 0 <= i < |r|
        ensures r[i].conn in o.state.subs
      {
        if i < |t| {
          assert r[i].conn == t[i].conn && t[i].conn in s.subs;
        } else {
          assert i == |t| && |r| == |t| + 1;
          assert r[i] == Entry(c, Session(username, room));
        }
      }
    }
    assert SubscribersJoined(o.state) by {
      forall d | d in o.state.subs
        ensures Get(r, d).Some? && Get(r, d).value.room in o.state.subs[d]
      {
        if d != c {
          assert d in s.subs;
        }
      }
    }
  }

  lemma MessagePreservesInv(s: State, c: ConnId, content: string, room: Room, now: Time)
    requires Inv(s)
    ensures Inv(OnMessage(s, c, content, room, now).state)
  {
  }

  lemma TypingPreservesInv(s: State, c: ConnId, isTyping: bool, room: Room)
    requires Inv(s)
    ensures Inv(OnTyping(s, c, isTyping, room).state)
  {
  }

  lemma DisconnectPreservesInv(s: State, c: ConnId, now: Time)
    requires Inv(s)
    ensures Inv(OnDisconnect(s, c, now).state)
  {
    var o := OnDisconnect(s, c, now);
    if Get(s.users, c).Some? {
      DeleteUnique(s.users, c);
      DisconnectKeepsTyping(s, c, now);
      DisconnectKeepsEntries(s, c, now);
      DisconnectKeepsSubscribers(s, c, now);
    } else {
      assert o.state.subs == s.subs;
    }
  }

  lemma DisconnectKeepsTyping(s: State, c: ConnId, now: Time)
    requires Inv(s) && Get(s.users, c).Some?
    ensures TypingJoined(OnDisconnect(s, c, now).state)
  {
    var o := OnDisconnect(s, c, now);
    forall id | id in o.state.typing
      ensures Get(o.state.users, id).Some?
    {
      assert id in s.typing && id != c;
    }
  }

  lemma DisconnectKeepsEntries(s: State, c: ConnId, now: Time)
    requires Inv(s) && Get(s.users, c).Some?
    ensures EntriesSubscribed(OnDisconnect(s, c, now).state)
  {
    var o := OnDisconnect(s, c, now);
    var t, r := s.users, o.state.users;
    forall i | 0 <= i < |r|
      ensures r[i].conn in o.state.subs
    {
      var d := r[i].conn;
      assert d != c;
      assert Get(r, d).Some?;
      assert Get(t, d).Some?;
      var k :| 0 <= k < |t| && t[k] == Entry(d, Get(t, d).value);
      assert d in s.subs;
    }
  }

  lemma DisconnectKeepsSubscribers(s: State, c: ConnId, now: Time)
    requires Inv(s) && Get(s.users, c).Some?
    ensures SubscribersJoined(OnDisconnect(s, c, now).state)
  {
    var o := OnDisconnect(s, c, now);
    forall d | d in o.state.subs
      ensures Get(o.state.users, d).Some? && Get(o.state.users, d).value.room in o.state.subs[d]
    {
      assert d in s.subs && d != c;
    }
  }

  lemma StepPreservesInv(s: State, c: ConnId, event: Inbound, now: Time)
    requires Inv(s)
    ensures Inv(Step(s, c, event, now).state)
  {
    match event
    case Join(username, room) => JoinPreservesInv(s, c, username, room, now);
    case Chat(content, room) => MessagePreservesInv(s, c, content, room, now);
    case Typing(isTyping, room) => TypingPreservesInv(s, c, isTyping, room);
    case Disconnect => DisconnectPreservesInv(s, c, now);
  }

  lemma {:induction false} RunPreservesInv(s: State, events: seq<Event>)
    requires Inv(s)
    ensures Inv(Run(s, events).state)
    decreases |events|
  {
    if |events| > 0 {
      var e := events[0];
      StepPreservesInv(s, e.conn, e.input, e.time);
      RunPreservesInv(Step(s, e.conn, e.input, e.time).state, events[1..]);
    }
  }

  /** Every state the server can reach from start-up keeps the invariant. */
  lemma ReachableInv(events: seq<Event>)
    ensures Inv(Run(Start, events).state)
  {
    RunPreservesInv(Start, events);
  }
}

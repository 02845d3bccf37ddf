/** Concrete runs of the server, worked out on literal inputs: Alice on
    connection "A" and Bob on connection "B" in room "general", Carol on
    connection "C" in room "random". */
module Scenarios {
  import opened ChatTypes
  import opened Registry
  import opened Server
  import TypingSet
  import Rooms

  const Alice := Entry("A", Session("alice", "general"))
  const Bob := Entry("B", Session("bob", "general"))
  const Carol := Entry("C", Session("carol", "random"))

  /** After Alice's join. */
  const AliceIn := State([Alice], [], map["A" := {"general"}])

  /** After Alice's and then Bob's join. */
  const BothIn := State([Alice, Bob], [], map["A" := {"general"}, "B" := {"general"}])

  /** Alice and Bob in "general", Carol in "random" and typing. */
  const CarolTyping := State([Alice, Bob, Carol], ["C"],
                             map["A" := {"general"}, "B" := {"general"}, "C" := {"random"}])

  lemma IdsDiffer()
    ensures "A" != "B" && "A" != "C" && "B" != "C" && "general" != "random"
  {
    assert "A"[0] != "B"[0] && "A"[0] != "C"[0] && "B"[0] != "C"[0];
    assert "general"[0] != "random"[0];
  }

  lemma GeneralAudience()
    ensures Rooms.To(AliceIn.subs, "general") == {"A"}
    ensures Rooms.To(BothIn.subs, "general") == {"A", "B"}
    ensures Rooms.To(CarolTyping.subs, "general") == {"A", "B"}
  {
    IdsDiffer();
  }

  lemma Rosters()
    ensures UsersInRoom([Alice], "general") == ["alice"]
    ensures UsersInRoom([Alice, Bob], "general") == ["alice", "bob"]
  {
    assert [Alice][1..] == [] && [Alice, Bob][1..] == [Bob] && [Bob][1..] == [];
  }

  /** Alice joins an empty server: her arrival notice reaches nobody and
      the roster ["alice"] reaches her. */
  lemma AliceJoins()
    ensures OnJoin(Start, "A", "alice", "general", 1)
         == Outcome(AliceIn, [ Emission({}, MessageEvent(SystemMessage(JoinedNotice("alice"), 1))),
                               Emission({"A"}, UserList(["alice"])) ])
  {
    var o := OnJoin(Start, "A", "alice", "general", 1);
    assert {} + {"general"} == {"general"};
    assert o.state == AliceIn;
    GeneralAudience();
    Rosters();
    assert {"A"} - {"A"} == {};
  }

  /** Bob joins after Alice: only Alice hears of it (Bob never hears of
      Alice's arrival), and both receive the roster ["alice", "bob"]. */
  lemma BobJoins()
    ensures OnJoin(AliceIn, "B", "bob", "general", 2)
         == Outcome(BothIn, [ Emission({"A"}, MessageEvent(SystemMessage(JoinedNotice("bob"), 2))),
                              Emission({"A", "B"}, UserList(["alice", "bob"])) ])
  {
    IdsDiffer();
    assert Put([Alice], "B", Bob.session) == [Alice, Bob] by {
      assert [Alice][1..] == [];
      assert Put([Alice], "B", Bob.session) == [Alice] + Put([], "B", Bob.session);
    }
    assert {} + {"general"} == {"general"};
    GeneralAudience();
    Rosters();
    assert {"A", "B"} - {"B"} == {"A"};
  }

  /** Alice says "hi" in "general": both receive it, signed "alice". */
  lemma AliceSaysHi()
    ensures OnMessage(BothIn, "A", "hi", "general", 3)
         == Outcome(BothIn, [Emission({"A", "B"}, MessageEvent(UserMessage("alice", "hi", 3)))])
  {
    GeneralAudience();
  }

  /** A connection that never joined is ignored when it sends a message or
      a typing event. */
  lemma StrangerIsIgnored()
    ensures OnMessage(BothIn, "X", "hello", "general", 3) == Outcome(BothIn, [])
    ensures OnTyping(BothIn, "X", true, "general") == Outcome(BothIn, [])
  {
    assert Get(BothIn.users, "X").None?;
  }

  /** Alice starts typing: she enters the typing set, but the list Bob
      receives leaves out Alice's name, since it drops the sender's name;
      Bob is not told that Alice is typing. */
  lemma AliceTypingIsHiddenFromBob()
    ensures OnTyping(BothIn, "A", true, "general")
         == Outcome(BothIn.(typing := ["A"]), [Emission({"B"}, TypingUsers([]))])
  {
    GeneralAudience();
    assert {"A", "B"} - {"A"} == {"B"};
    assert NameOf(BothIn.users, "A") == Some("alice");
  }

  lemma ThreeUsers()
    ensures Get(CarolTyping.users, "B") == Some(Bob.session)
    ensures NameOf(CarolTyping.users, "B") == Some("bob")
    ensures NameOf(CarolTyping.users, "C") == Some("carol")
  {
    IdsDiffer();
    var users := CarolTyping.users;
    assert users[1..] == [Bob, Carol] && users[1..][1..] == [Carol];
    assert Get(users, "B") == Get([Bob, Carol], "B");
    assert Get(users, "C") == Get([Bob, Carol], "C") == Get([Carol], "C");
  }

  /** With Carol typing in "random", Bob's typing event in "general" sends
      Carol's name to Alice: the typing list is not limited to the room. */
  lemma TypingListIgnoresRooms()
    ensures OnTyping(CarolTyping, "B", true, "general").emitted
         == [Emission({"A"}, TypingUsers([Some("carol")]))]
  {
    GeneralAudience();
    IdsDiffer();
    var users := CarolTyping.users;
    assert {"A", "B"} - {"B"} == {"A"};
    assert TypingSet.Add(["C"], "B") == ["C", "B"];
    ThreeUsers();
    assert "carol" != "bob" by { assert "carol"[0] != "bob"[0]; }
    assert ["C", "B"][1..] == ["B"] && ["B"][1..] == [];
    var names := TypingNames(users, ["C", "B"], "bob");
    assert TypingNames(users, ["B"], "bob") == [];
    assert names == [Some("carol")] + TypingNames(users, ["B"], "bob");
    var o := OnTyping(CarolTyping, "B", true, "general");
    assert o.state.typing == ["C", "B"];
    assert names == [Some("carol")];
    assert o.emitted == [Emission({"A"}, TypingUsers(names))];
  }

  /** Alice is typing alone in "general", where Bob and Carol also are. */
  const AliceTypingAmongThree := State([Alice, Bob, Entry("C", Session("carol", "general"))], ["A"],
                                       map["A" := {"general"}, "B" := {"general"}, "C" := {"general"}])

  /** Bob sends a message, which makes his client send `typing` off: the
      list that event carries shows Alice typing to Alice and Carol. Only
      Alice's own events hide her name. */
  lemma LoneTyperShownByOthersEvent()
    ensures OnTyping(AliceTypingAmongThree, "B", false, "general").emitted
         == [Emission({"A", "C"}, TypingUsers([Some("alice")]))]
  {
    IdsDiffer();
    var s := AliceTypingAmongThree;
    assert s.users[1..] == [Bob, Entry("C", Session("carol", "general"))];
    assert Get(s.users, "B") == Some(Bob.session);
    assert TypingSet.Remove(["A"], "B") == ["A"] by {
      assert ["A"][1..] == [];
    }
    assert Rooms.To(s.subs, "general") == {"A", "B", "C"};
    assert {"A", "B", "C"} - {"B"} == {"A", "C"};
    assert "alice" != "bob" by { assert "alice"[0] != "bob"[0]; }
    Server.TypingNamesSingle(s.users, "A", "bob");
  }

  /** Alice moves to "random": Bob, left in "general", is told nothing,
      and Alice stays subscribed to "general", so Bob's next message still
      reaches her. */
  lemma AliceMovesRoom()
    ensures var moved := OnJoin(BothIn, "A", "alice", "random", 4);
      && (forall e :: e in moved.emitted ==> "B" !in e.audience)
      && OnMessage(moved.state, "B", "still there?", "general", 5).emitted
         == [Emission({"A", "B"}, MessageEvent(UserMessage("bob", "still there?", 5)))]
  {
    IdsDiffer();
    var moved := OnJoin(BothIn, "A", "alice", "random", 4);
    var subs := moved.state.subs;
    assert subs["B"] == {"general"};
    assert "general" in subs["A"];
    assert subs.Keys == {"A", "B"};
    assert "B" !in Rooms.To(subs, "random");
    assert Rooms.To(subs, "general") == {"A", "B"};
    assert Get(moved.state.users, "B") == Some(Bob.session);
  }

  /** Bob disconnects: Alice receives the departure notice and the roster
      ["alice"]; a second disconnect of Bob does nothing. */
  lemma BobLeaves()
    ensures OnDisconnect(BothIn, "B", 6)
         == Outcome(AliceIn, [ Emission({"A"}, MessageEvent(SystemMessage(LeftNotice("bob"), 6))),
                               Emission({"A"}, UserList(["alice"])) ])
    ensures OnDisconnect(AliceIn, "B", 7) == Outcome(AliceIn, [])
  {
    IdsDiffer();
    assert Delete([Alice, Bob], "B") == [Alice] by {
      assert [Alice, Bob][1..] == [Bob] && [Bob][1..] == [];
      assert Delete([Alice, Bob], "B") == [Alice] + Delete([Bob], "B");
    }
    assert TypingSet.Remove([], "B") == [];
    assert BothIn.subs - {"B"} == AliceIn.subs;
    assert AliceIn.subs - {"B"} == AliceIn.subs;
    GeneralAudience();
    Rosters();
  }
}

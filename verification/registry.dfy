/** The connection registry (`users` in server.js): a JavaScript `Map` from
    connection id to session. A `Map` remembers the order in which keys
    were first inserted, and `getUsersInRoom` exposes that order, so the
    registry is modelled as a sequence of entries in insertion order. */
module Registry {
  import opened ChatTypes

  datatype Entry = Entry(conn: ConnId, session: Session)

  type Table = seq<Entry>

  /** `users.get(c)`: the session of `c`, or `None` for a connection that
      has not joined (or has left). */
  function Get(t: Table, c: ConnId): (r: Option<Session>)
    ensures r.Some? ==> exists i :: 0 <= i < |t| && t[i] == Entry(c, r.value)
    ensures r.None? ==> forall i :: 0 <= i < |t| ==> t[i].conn != c
  {
    if |t| == 0 then None
    else if t[0].conn == c then Some(t[0].session)
    else Get(t[1..], c)
  }

  /** No connection appears twice, which is what makes the sequence a
      `Map`: each entry's key is absent from the entries after it. */
  predicate Unique(t: Table)
  {
    |t| == 0 || (Get(t[1..], t[0].conn).None? && Unique(t[1..]))
  }

  /** `users.set(c, s)`: an existing key keeps its position and gets the
      new session; a new key goes to the end. */
  function Put(t: Table, c: ConnId, s: Session): (r: Table)
    ensures |r| == |t| || |r| == |t| + 1
    ensures forall i :: 0 <= i < |t| ==> r[i].conn == t[i].conn
    ensures forall i :: 0 <= i < |t| && t[i].conn != c ==> r[i] == t[i]
    ensures |r| == |t| + 1 ==> r[|t|] == Entry(c, s)
    ensures |r| == |t| + 1 <==> forall i :: 0 <= i < |t| ==> t[i].conn != c
  {
    if |t| == 0 then [Entry(c, s)]
    else if t[0].conn == c then [Entry(c, s)] + t[1..]
    else [t[0]] + Put(t[1..], c, s)
  }

  /** `users.delete(c)`: drops the entry of `c` and keeps the others in
      their order. */
  function Delete(t: Table, c: ConnId): (r: Table)
    ensures |r| <= |t|
    ensures forall i :: 0 <= i < |r| ==> r[i].conn != c
  {
    if |t| == 0 then []
    else if t[0].conn == c then Delete(t[1..], c)
    else [t[0]] + Delete(t[1..], c)
  }

  /** `getUsersInRoom(room)`: the usernames of the entries whose room is
      `room`, in registry order, duplicates kept. */
  function UsersInRoom(t: Table, room: Room): (names: seq<Name>)
    ensures |names| <= |t|
    ensures forall n :: n in names <==> exists i :: 0 <= i < |t| && t[i].session == Session(n, room)
  {
    if |t| == 0 then []
    else
      var rest := UsersInRoom(t[1..], room);
      assert forall i :: 0 < i < |t| ==> t[i] == t[1..][i - 1];
      (if t[0].session.room == room then [t[0].session.username] else []) + rest
  }

  /** The connections whose session is in `room`. */
  function Members(t: Table, room: Room): set<ConnId>
  {
    if |t| == 0 then {}
    else (if t[0].session.room == room then {t[0].conn} else {}) + Members(t[1..], room)
  }

  /** After `users.set(c, s)` the lookup of `c` gives `s` and every other
      lookup is unchanged. */
  lemma {:induction false} GetPut(t: Table, c: ConnId, s: Session)
    ensures forall d :: Get(Put(t, c, s), d) == if d == c then Some(s) else Get(t, d)
  {
    if |t| == 0 {
    } else if t[0].conn == c {
      assert Put(t, c, s)[1..] == t[1..];
    } else {
      assert Put(t, c, s)[1..] == Put(t[1..], c, s);
      GetPut(t[1..], c, s);
    }
  }

  /** After `users.delete(c)` the lookup of `c` misses and every other
      lookup is unchanged. */
  lemma {:induction false} GetDelete(t: Table, c: ConnId)
    ensures forall d :: Get(Delete(t, c), d) == if d == c then None else Get(t, d)
  {
    if |t| > 0 {
      GetDelete(t[1..], c);
      if t[0].conn != c {
        assert Delete(t, c)[1..] == Delete(t[1..], c);
      }
    }
  }

  /** Writing a key keeps the registry a map. */
  lemma {:induction false} PutUnique(t: Table, c: ConnId, s: Session)
    requires Unique(t)
    ensures Unique(Put(t, c, s))
  {
    if |t| > 0 {
      var r := Put(t, c, s);
      if t[0].conn == c {
        assert r[1..] == t[1..];
      } else {
        assert r[1..] == Put(t[1..], c, s);
        PutUnique(t[1..], c, s);
        GetPut(t[1..], c, s);
      }
    }
  }

  /** Deleting a key keeps the registry a map. */
  lemma {:induction false} DeleteUnique(t: Table, c: ConnId)
    requires Unique(t)
    ensures Unique(Delete(t, c))
  {
    if |t| > 0 {
      DeleteUnique(t[1..], c);
      if t[0].conn != c {
        assert Delete(t, c)[1..] == Delete(t[1..], c);
        GetDelete(t[1..], c);
      }
    }
  }

  /** In a map, the lookup of a key finds the entry that holds it. */
  lemma {:induction false} GetFindsEntry(t: Table, k: nat)
    requires Unique(t) && k < |t|
    ensures Get(t, t[k].conn) == Some(t[k].session)
  {
    if k > 0 {
      assert t[1..][k - 1] == t[k];
      GetFindsEntry(t[1..], k - 1);
    }
  }

  /** Two entries of a map at different positions hold different keys. */
  lemma {:induction false} UniqueApart(t: Table, i: nat, j: nat)
    requires Unique(t) && i < j < |t|
    ensures t[i].conn != t[j].conn
  {
    if i == 0 {
      assert t[1..][j - 1] == t[j];
    } else {
      assert t[1..][i - 1] == t[i] && t[1..][j - 1] == t[j];
      UniqueApart(t[1..], i - 1, j - 1);
    }
  }

  /** A key that is new to the registry is appended at the end. */
  lemma {:induction false} PutAppends(t: Table, c: ConnId, s: Session)
    requires Get(t, c).None?
    ensures Put(t, c, s) == t + [Entry(c, s)]
  {
    var r := Put(t, c, s);
    assert |r| == |t| + 1;
    forall i | 0 <= i < |r|
      ensures r[i] == (t + [Entry(c, s)])[i]
    {
    }
  }

  /** A key that is already present is rewritten where it stands: the
      entry keeps its place in the insertion order. */
  lemma {:induction false} PutInPlace(t: Table, k: nat, s: Session)
    requires k < |t|
    requires forall j :: 0 <= j < k ==> t[j].conn != t[k].conn
    ensures Put(t, t[k].conn, s) == t[k := Entry(t[k].conn, s)]
  {
    var c := t[k].conn;
    var rest := t[1..];
    if k == 0 {
      assert Put(t, c, s) == [Entry(c, s)] + rest;
      assert [Entry(c, s)] + rest == t[0 := Entry(c, s)];
    } else {
      assert rest[k - 1] == t[k];
      PutInPlace(rest, k - 1, s);
      assert Put(t, c, s) == [t[0]] + Put(rest, c, s);
      var lhs, rhs := [t[0]] + rest[k - 1 := Entry(c, s)], t[k := Entry(c, s)];
      assert |lhs| == |rhs|;
      forall i | 0 <= i < |lhs|
        ensures lhs[i] == rhs[i]
      {
        if i > 0 {
          assert lhs[i] == rest[k - 1 := Entry(c, s)][i - 1];
        }
      }
    }
  }

  /** Deleting a key that is absent changes nothing. */
  lemma {:induction false} DeleteAbsent(t: Table, c: ConnId)
    requires Get(t, c).None?
    ensures Delete(t, c) == t
  {
    if |t| > 0 {
      DeleteAbsent(t[1..], c);
    }
  }

  /** Deleting from a registry in two parts deletes from each part. */
  lemma {:induction false} DeleteAppend(a: Table, b: Table, c: ConnId)
    ensures Delete(a + b, c) == Delete(a, c) + Delete(b, c)
  {
    if |a| == 0 {
      assert a + b == b;
    } else {
      assert (a + b)[1..] == a[1..] + b;
      DeleteAppend(a[1..], b, c);
    }
  }

  /** Deleting a key of a map closes the gap its entry leaves. */
  lemma DeleteAt(t: Table, k: nat)
    requires Unique(t) && k < |t|
    ensures Delete(t, t[k].conn) == t[..k] + t[k + 1..]
  {
    forall j | 0 <= j < |t| && j != k
      ensures t[j].conn != t[k].conn
    {
      if j < k {
        UniqueApart(t, j, k);
      } else {
        UniqueApart(t, k, j);
      }
    }
    DeleteOnlyAt(t, k);
  }

  /** Deleting a key held only at position k closes the gap there. */
  lemma DeleteOnlyAt(t: Table, k: nat)
    requires k < |t|
    requires forall j :: 0 <= j < |t| && j != k ==> t[j].conn != t[k].conn
    ensures Delete(t, t[k].conn) == t[..k] + t[k + 1..]
  {
    AbsentAround(t, k);
    SplitAt(t, k);
    DeleteSplice(t[..k], t[k], t[k + 1..]);
  }

  /** A registry is what comes before position k, the entry at k, and what
      comes after it. */
  lemma SplitAt(t: Table, k: nat)
    requires k < |t|
    ensures t == t[..k] + [t[k]] + t[k + 1..]
  {
  }

  /** A key held only at position k is absent from both sides of it. */
  lemma AbsentAround(t: Table, k: nat)
    requires k < |t|
    requires forall j :: 0 <= j < |t| && j != k ==> t[j].conn != t[k].conn
    ensures Get(t[..k], t[k].conn).None? && Get(t[k + 1..], t[k].conn).None?
  {
    var before, after := t[..k], t[k + 1..];
    forall i | 0 <= i < |before|
      ensures before[i].conn != t[k].conn
    {
      assert before[i] == t[i];
    }
    forall i | 0 <= i < |after|
      ensures after[i].conn != t[k].conn
    {
      assert after[i] == t[k + 1 + i];
    }
  }

  /** Deleting the key of an entry that is absent around it removes just
      that entry. */
  lemma DeleteSplice(before: Table, e: Entry, after: Table)
    requires Get(before, e.conn).None? && Get(after, e.conn).None?
    ensures Delete(before + [e] + after, e.conn) == before + after
  {
    DeleteAbsent(before, e.conn);
    DeleteAbsent(after, e.conn);
    DeleteAppend(before, [e] + after, e.conn);
    DeleteAppend([e], after, e.conn);
    assert Delete([e], e.conn) == [] by {
      assert [e][1..] == [];
    }
    assert before + [e] + after == before + ([e] + after);
  }

  /** The roster of a registry built in two parts is the roster of the
      first part followed by that of the second: the roster keeps the
      registry's order. */
  lemma {:induction false} UsersInRoomAppend(a: Table, b: Table, room: Room)
    ensures UsersInRoom(a + b, room) == UsersInRoom(a, room) + UsersInRoom(b, room)
  {
    if |a| == 0 {
      assert a + b == b;
    } else {
      assert (a + b)[1..] == a[1..] + b;
      UsersInRoomAppend(a[1..], b, room);
    }
  }

  /** The roster seen around one position: what comes before it, the
      entry itself, and what comes after it. */
  lemma UsersInRoomAround(t: Table, k: nat, e: Entry, room: Room)
    requires k < |t|
    ensures UsersInRoom(t[k := e], room)
         == UsersInRoom(t[..k], room) + UsersInRoom([e], room) + UsersInRoom(t[k + 1..], room)
  {
    assert t[k := e] == (t[..k] + [e]) + t[k + 1..];
    UsersInRoomAppend(t[..k] + [e], t[k + 1..], room);
    UsersInRoomAppend(t[..k], [e], room);
  }

  /** The roster of one entry is its username when it is in the room. */
  lemma UsersInRoomSingle(e: Entry, room: Room)
    ensures UsersInRoom([e], room) == if e.session.room == room then [e.session.username] else []
  {
    assert [e][1..] == [];
  }

  /** A connection is a member of the room exactly when its session names
      that room. */
  lemma {:induction false} MembersIsLookup(t: Table, room: Room, c: ConnId)
    requires Unique(t)
    ensures c in Members(t, room) <==> Get(t, c).Some? && Get(t, c).value.room == room
  {
    if |t| > 0 {
      MembersIsLookup(t[1..], room, c);
    }
  }

  /** The roster has exactly one name per connection in the room. */
  lemma {:induction false} UsersInRoomCount(t: Table, room: Room)
    requires Unique(t)
    ensures |UsersInRoom(t, room)| == |Members(t, room)|
  {
    if |t| > 0 {
      var rest := t[1..];
      UsersInRoomCount(rest, room);
      MembersIsLookup(rest, room, t[0].conn);
    }
  }

  /** `users.delete(c)` after `users.set(c, s)` leaves the registry as the
      delete alone would: the write leaves no trace once its key is gone. */
  lemma {:induction false} DeletePut(t: Table, c: ConnId, s: Session)
    ensures Delete(Put(t, c, s), c) == Delete(t, c)
  {
    if |t| == 0 {
      assert [Entry(c, s)][1..] == [];
    } else if t[0].conn == c {
      assert Put(t, c, s)[1..] == t[1..];
    } else {
      assert Put(t, c, s)[1..] == Put(t[1..], c, s);
      DeletePut(t[1..], c, s);
    }
  }
}

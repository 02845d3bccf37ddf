/** The transport's room subscriptions. `socket.join(room)` adds a room to
    the connection's subscriptions and never leaves the rooms it had;
    the transport drops all of them when the connection closes.
    `io.to(room)` reaches every subscriber of the room and
    `socket.broadcast.to(room)` every subscriber but the sender. */
module Rooms {
  import opened ChatTypes

  type Subscriptions = map<ConnId, set<Room>>

  /** `socket.join(room)`. */
  function Subscribe(subs: Subscriptions, c: ConnId, room: Room): (r: Subscriptions)
    ensures r.Keys == subs.Keys + {c}
    ensures room in r[c]
    ensures c in subs ==> subs[c] <= r[c]
    ensures forall x :: x in r[c] ==> x == room || (c in subs && x in subs[c])
    ensures forall d :: d in subs && d != c ==> r[d] == subs[d]
  {
    subs[c := (if c in subs then subs[c] else {}) + {room}]
  }

  /** The transport leaving every room when `c` disconnects. */
  function LeaveAll(subs: Subscriptions, c: ConnId): (r: Subscriptions)
    ensures r.Keys == subs.Keys - {c}
    ensures forall d :: d in r ==> r[d] == subs[d]
  {
    subs - {c}
  }

  /** The audience of `io.to(room)`: the connections subscribed to
      `room`, and nobody who is not subscribed at all. */
  function To(subs: Subscriptions, room: Room): (r: set<ConnId>)
    ensures r <= subs.Keys
    ensures forall d :: d in r <==> d in subs && room in subs[d]
  {
    set c | c in subs && room in subs[c]
  }

  /** The audience of `socket.broadcast.to(room)` sent by `sender`: the
      room's audience without the sender. */
  function Broadcast(subs: Subscriptions, sender: ConnId, room: Room): (r: set<ConnId>)
    ensures sender !in r
    ensures r <= To(subs, room)
    ensures forall d :: d != sender && d in To(subs, room) ==> d in r
  {
    To(subs, room) - {sender}
  }

  /** Joining a room adds the joiner to that room's audience and changes no
      other audience. */
  lemma ToSubscribe(subs: Subscriptions, c: ConnId, joined: Room, room: Room)
    ensures To(Subscribe(subs, c, joined), room)
         == if room == joined then To(subs, room) + {c} else To(subs, room)
  {
  }

  /** Leaving every room takes the connection out of every audience and
      changes nothing else. */
  lemma ToLeaveAll(subs: Subscriptions, c: ConnId, room: Room)
    ensures To(LeaveAll(subs, c), room) == To(subs, room) - {c}
  {
  }
}

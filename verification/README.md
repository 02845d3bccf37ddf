# Chat relay server: session, presence and broadcast engine

A Dafny model of the server side of a real-time, room-scoped chat relay
(`server.js`). The server keeps two pieces of process-wide state: a
registry that maps each transport connection to its session
(`{ username, room }`), and a set of the connections that are currently
typing. It handles four inbound events, `join`, `message`, `typing` and
`disconnect`. From those it fans out three outbound events: `message`,
`userList` and `typingUsers`. Each one goes to an audience chosen by room.

Modules:

- `ChatTypes` (`chat_types.dfy`) holds the vocabulary: connection ids, sessions, the message envelope, the payloads, and an
  emission. An emission is an audience set paired with a payload.
- `Registry` (`registry.dfy`) models the `users` map. A JavaScript `Map` iterates in first-insertion order, and
  the roster exposes that order. So the registry is a sequence of entries. `set` on an existing key rewrites it
  where it stands, and on a new key it appends.
- `TypingSet` (`typing_set.dfy`) models the `typingUsers` set as a sequence without repetitions, again in insertion order.
- `Rooms` (`rooms.dfy`) models the transport's room subscriptions. Joining a room adds it and never leaves
  another. `io.to(room)` reaches every subscriber, and `socket.broadcast.to(room)` reaches every subscriber except the sender.
- `Server` (`server.dfy`) models the four handlers as pure step functions. Each takes the state and the sending
  connection, and returns the new state plus the emissions in the order they happen. `Run` folds a sequence of events.
- `Invariant` (`invariant.dfy`) defines the state invariant that every handler keeps:
  - the registry holds no key twice;
  - the typing set holds only connections with a session;
  - a connection is subscribed exactly when it has a session, and at least to its session's room.

  It also proves that every reachable state keeps the invariant.
- `Properties` (`properties.dfy`) holds multi-call properties: how the roster moves on join, re-join and disconnect,
  what a typing list can contain, and which repeated events do nothing.
- `Scenarios` (`scenarios.dfy`) works out concrete runs with two or three users.

The clock (`new Date()`) is a parameter of each handler. The transport's room bookkeeping is modelled as state, because
the audiences depend on it.

Where the code and some descriptions of this server differ, the model follows the code:

- A `typing` event from a connection without a session leaves the typing set alone. The `add`/`delete` sits inside the
  session check (`server.js:47-52`), so the mutation is gated as well as the broadcast.
- The typing list is built from the whole typing set, not only from the connections in the event's room
  (`server.js:54-56`). `Scenarios.TypingListIgnoresRooms` shows another room's typer reaching this room.
- The typing list leaves out the sender's name, not the recipient's. A recipient can therefore see their own name. A
  typer's own `typing` events never show their name (`Scenarios.AliceTypingIsHiddenFromBob`,
  `Properties.TypingListIgnoresOwnFlag`). Another user's `typing` event shows it to everyone in the room except that
  user. The client sends `typing` off with every message it sends (`src/App.tsx:75`), so this happens in normal use
  (`Scenarios.LoneTyperShownByOthersEvent`).
- `message` and `typing` go to the room named in the payload, not to the room of the sender's session.
- A re-join rewrites the session in place, keeps the old room subscription, and sends nothing to the old room.

## Model

| member | source | states |
|---|---|---|
| `ChatTypes.JoinedNotice` | server.js:26 | The join notice begins with the username and adds a fixed 20-character tail. |
| `ChatTypes.LeftNotice` | server.js:71 | The departure notice begins with the username and adds a fixed 18-character tail. |
| `ChatTypes.NoticesDiffer` | server.js:26 | A join notice never equals a departure notice, and each notice names exactly one user. |
| `Registry.Get` | server.js:34 | A found session sits in some entry under that key. A miss means no entry holds the key. |
| `Registry.Put` | server.js:21 | Every existing key keeps its position. Entries under other keys are untouched. The registry grows by one, with the new entry at the end, exactly when the key was absent. |
| `Registry.Delete` | server.js:66 | The result is no longer than before and holds no entry for the key. |
| `Registry.UsersInRoom` | server.js:80-84 | The roster is no longer than the registry. A name is in it exactly when some entry's session is that name in that room. |
| `Registry.GetPut` | server.js:21 | After `set`, the lookup of the written key gives the new session, and every other lookup is as before. |
| `Registry.GetDelete` | server.js:66 | After `delete`, the lookup of the key misses, and every other lookup is as before. |
| `Registry.DeletePut` | server.js:21 | A `delete` after a `set` of the same key leaves the registry as the `delete` alone would. |
| `Registry.PutUnique` | server.js:21 | Writing a key keeps the registry free of repeated keys. |
| `Registry.DeleteUnique` | server.js:66 | Deleting a key keeps the registry free of repeated keys. |
| `Registry.PutAppends` | server.js:21 | A key new to the registry is appended after all existing entries. |
| `Registry.PutInPlace` | server.js:21 | A key already present is rewritten at its own position. The rest of the sequence is unchanged. |
| `Registry.DeleteAppend` | server.js:66 | Deleting from a registry in two parts deletes from each part, so the entries that stay keep their order. |
| `Registry.DeleteAt` | server.js:66 | Deleting the key at position k closes the gap: entries before and after keep their order. |
| `Registry.UsersInRoomAppend` | server.js:80-84 | The roster of a registry in two parts is the first part's roster followed by the second part's. |
| `Registry.UsersInRoomCount` | server.js:80-84 | In a registry without repeated keys, the roster has exactly one name per connection whose session is in the room. |
| `Registry.MembersIsLookup` | server.js:80-84 | A connection counts as a room member exactly when its lookup gives a session in that room. |
| `TypingSet.Add` | server.js:49 | The members are the old ones plus the id. The old order is kept as a prefix. The set grows by at most one and stays free of repeats. |
| `TypingSet.Remove` | server.js:51 | The members are the old ones minus the id. Removing an absent id changes nothing. The set stays free of repeats. |
| `TypingSet.RemoveAppend` | server.js:51 | Removing from a set in two parts removes from each part, so the ids that stay keep their order. |
| `TypingSet.RemoveAt` | server.js:51 | Removing an id that occurs only at position k, as every member of a set without repeats does, closes the gap: the ids before and after it keep their order. |
| `TypingSet.RemoveAdd` | server.js:48-52 | A `delete` after an `add` of the same id equals the `delete` alone. It restores the original set, order included, when the id was not a member. |
| `Rooms.Subscribe` | server.js:22 | After `socket.join(room)` the connection is subscribed to the room, keeps every room it had and gains no other. Every other connection's rooms are unchanged. |
| `Server.NameOf` | server.js:55 | `users.get(id)?.username` is defined exactly when the id has a session, and it is that session's username. |
| `Server.TypingNames` | server.js:54-56 | The list never holds the sender's name. A name is in it exactly when it differs from the sender's and some typing id has that name. An undefined entry appears exactly when some typing id has no session. |
| `Server.TypingNamesAppend` | server.js:54-56 | The list for two parts of the typing set is the first part's list followed by the second's. The list follows the set's insertion order. |
| `Server.TypingNamesSingle` | server.js:55-56 | One typing id contributes its name, or undefined, exactly once, unless that is the sender's name. With `TypingNamesAppend`, two connections under the same name give that name twice. |
| `Server.TypingNamesRemoveSelf` | server.js:51-56 | Removing an id under the sender's own name from the typing set leaves the sender's list unchanged. |
| `Server.TypingNamesAddSelf` | server.js:49-56 | Adding an id under the sender's own name to the typing set leaves the sender's list unchanged. |
| `Server.OnJoin` | server.js:20-31 | The connection's lookup becomes the new session, and other lookups and the typing set are unchanged. The connection gains exactly the joined room, and every other connection's subscriptions are unchanged. So the audiences are the room's earlier subscribers plus the joiner. Two emissions follow: the joined notice to the room's other subscribers, then the registry-order roster to all of them. |
| `Server.OnMessage` | server.js:33-43 | The state never changes. Without a session nothing is sent. With one, a single user message signed with the session's username goes to every subscriber of the payload's room. |
| `Server.OnTyping` | server.js:45-60 | Without a session nothing changes and nothing is sent. With one, the sender is added to or removed from the typing set, as `Set.add`/`Set.delete` do, the other ids keeping their order. One typing list, built in set order from the updated set without the sender's name, goes to the room's other subscribers. |
| `Server.OnDisconnect` | server.js:62-77 | The connection loses its session and all subscriptions, and every other lookup and subscription is kept. Without a session nothing else changes and nothing is sent. With one, its entry is deleted from the registry and its id from the typing set, both order-keeping (`Registry.DeleteAt`, `TypingSet.RemoveAt`). Then the left notice and the new roster go to the remaining subscribers of its room. |
| `Server.Step` | server.js:17-78 | Dispatches one inbound event to its handler. At most two emissions follow. A `join` sets the sender's session and a `message` leaves the state alone. A `typing` keeps the registry and the subscriptions. A `disconnect` drops the sender's session and all its subscriptions. Only a `join` adds subscribers. |
| `Server.Run` | server.js:17-78 | Events are handled one after another, to completion. A run of n events emits at most 2n times. |
| `Server.RunAppend` | server.js:17-78 | Handling `a` and then `b` is handling `a + b`: the state is threaded through, and `b`'s emissions follow `a`'s. |
| `Rooms.To` | server.js:30 | `io.to(room)` reaches exactly the connections subscribed to the room, and no connection without subscriptions. |
| `Rooms.Broadcast` | server.js:24 | `socket.broadcast.to(room)` reaches every subscriber of the room except the sender. |
| `Rooms.LeaveAll` | server.js:62 | When a connection closes, the transport drops all of its subscriptions before the `disconnect` handler runs, and keeps everyone else's. |
| `Rooms.ToSubscribe` | server.js:22 | `socket.join(room)` adds the joiner to that room's audience and changes no other audience. |
| `Rooms.ToLeaveAll` | server.js:62 | After the transport's leave-all, the connection is in no audience, and every other connection's audiences are unchanged. |
| `Invariant.StartInv` | server.js:14-15 | The empty registry, typing set and subscriptions satisfy the invariant. |
| `Invariant.JoinPreservesInv` | server.js:20-31 | `join` keeps the invariant. |
| `Invariant.MessagePreservesInv` | server.js:33-43 | `message` keeps the invariant. |
| `Invariant.TypingPreservesInv` | server.js:45-60 | `typing` keeps the invariant. A connection enters the typing set only when it has a session. |
| `Invariant.DisconnectPreservesInv` | server.js:62-77 | `disconnect` keeps the invariant. The typing flag goes with the session, so the typing set stays within the registry's keys. |
| `Invariant.StepPreservesInv` | server.js:17-78 | Every one of the four handlers keeps the invariant. |
| `Invariant.RunPreservesInv` | server.js:17-78 | Any sequence of events handled one after another keeps the invariant. |
| `Invariant.ReachableInv` | server.js:14-15 | Every state reachable from start-up satisfies the invariant. |
| `Properties.FirstJoinAppendsToRoster` | server.js:20-31 | A first join appends the user to the registry. The roster it sends is the room's previous roster followed by the new name. |
| `Properties.RejoinKeepsPlace` | server.js:21 | A re-join rewrites the entry at its own position. The roster sent to the new room lists the user where its entry has always stood. |
| `Properties.RejoinSilentToOldRoom` | server.js:22-30 | Any other connection that is not subscribed to the joined room, or not subscribed at all, receives neither join emission. The re-joining connection stays subscribed to all its earlier rooms. |
| `Properties.DisconnectDropsFromRoster` | server.js:62-77 | After a disconnect, the registry is the old one with the leaver's entry cut out, so the roster is the old roster with exactly the leaver's name removed at its position. The leaver receives neither emission. |
| `Properties.DisconnectTwiceIsNoOp` | server.js:63-64 | A second disconnect of the same connection changes nothing and sends nothing. |
| `Properties.DisconnectWithoutSessionIsNoOp` | server.js:63-64 | In a reachable state, a disconnect from a connection that never joined changes nothing and sends nothing. |
| `Properties.TypingListNames` | server.js:54-58 | In a reachable state, the typing list holds no undefined entry and never the sender's name. A name is in it exactly when it differs from the sender's and some connection of the updated typing set has that name. |
| `Properties.TypingOnThenOff` | server.js:45-60 | After typing on then off, the connection is out of the typing set and every other membership is as before. The set is exactly as before when the connection was not typing. Both lists go to the room's other subscribers and leave out the sender's name. |
| `Properties.DisconnectClosesTypingGap` | server.js:67 | On disconnect, the leaver's typing flag is cut out where it stands, and the other typing connections keep their order. |
| `Properties.TypingListIgnoresOwnFlag` | server.js:48-58 | The list a joined connection sends is the same whether it starts or stops typing: the typing list from before the event. |
| `Scenarios.AliceJoins` | server.js:20-31 | A join on an empty server sends its notice to nobody and the roster `["alice"]` to the joiner. |
| `Scenarios.BobJoins` | server.js:20-31 | A second join's notice reaches only the earlier user. Both receive the roster `["alice", "bob"]`, in join order. |
| `Scenarios.AliceSaysHi` | server.js:33-43 | A message reaches both users of the room, signed with the sender's name. |
| `Scenarios.StrangerIsIgnored` | server.js:34-35 | A connection without a session gets no response to `message` or `typing`. |
| `Scenarios.AliceTypingIsHiddenFromBob` | server.js:54-58 | A lone typer's list, sent to the other user, is empty: the sender's own name is filtered out. |
| `Scenarios.LoneTyperShownByOthersEvent` | server.js:54-58 | When another user sends `typing` off, a lone typer's name goes to everyone in the room except that user, the typer included. |
| `Scenarios.TypingListIgnoresRooms` | server.js:54-58 | A typer in another room appears in the typing list sent to this room. |
| `Scenarios.AliceMovesRoom` | server.js:20-31 | A move to another room sends nothing to the user left behind. The mover still receives messages from the old room. |
| `Scenarios.BobLeaves` | server.js:62-77 | A disconnect sends the left notice and the roster `["alice"]` to the remaining user. A repeated disconnect does nothing. |

## Left out

- The Express app, the HTTP server, the CORS settings and `listen` on port 3000 (`server.js:1-12`, `server.js:86-89`) are transport setup with no chat logic.
- The `console.log` calls are output only.
- Timestamps are not read from a clock. `new Date()` is a `Time` parameter of each handler, and no ordering of clock readings is assumed.
- Delivery is not modelled. An emission is the set of connections it is addressed to plus its payload. Network delivery, loss and per-client ordering belong to the transport.
- The transport's automatic per-connection room is not modelled. Every socket is also subscribed to a room named after its own connection id. Clients name the room of `join`, `message` and `typing` themselves (`server.js:22`, `server.js:36`, `server.js:58`). So in the code, a `message` whose room is the sender's own id echoes back to the sender; in the model it reaches nobody unless some connection joined a room by that name. `Invariant.SubscribersJoined` ("a connection is subscribed exactly when it has a session") holds only because of this choice: in the code, every connection is subscribed to its own room from the moment it connects.
- Malformed payloads are not modelled. Payloads whose fields are missing or not strings are outside the model, which takes typed fields. JavaScript would destructure `undefined` fields and carry them on.
- Concurrency is not modelled beyond order. The handlers run to completion on a single-threaded event loop, so a run is a sequence of whole handler steps (`Server.Run`).
- The React client (`src/App.tsx`) is left out: its forms, rendering, and the debounce and trimming it applies before sending `typing` and `message`. The envelope type in `src/types/chat.ts` is reflected in `ChatTypes.Message`.
- `Array.from` around the roster only copies the array and has no separate model.

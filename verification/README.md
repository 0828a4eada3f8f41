# Secret Hitler lobby server — a Dafny model

This project models the lobby layer of the Secret Hitler websocket server
(`src/game.rs`). Every browser tab is one connection, a `User`. A connection
first names itself and then either creates a room (`CreateRoom`) or joins an
existing room by its id (`JoinRoom`). A room, a `Lobby`, maps display names to
connections. Whenever its membership changes, it broadcasts a `PreGameUI`
snapshot (the room id and the member names) to every member. Rooms live in
the server-wide registry, a `LobbyList`, keyed by an id. The id is the
unpadded standard base64 encoding (RFC 4648, section 4, without `=`
padding) of six random octets.

The files:

- `wrappers.dfy` has `Option`, standing in for Rust's `Option<T>`.
- `base64.dfy` is the encoding the room ids use: the alphabet of Table 1 of
  RFC 4648, `Encode`, and a strict `Decode` as its partner. It proves the
  round trip both ways, so `Encode` is injective.
- `text.dfy` is Rust's `str::trim`, using the Unicode `White_Space` set of
  `char::is_whitespace`.
- `protocol.dfy` holds the two message enums and the three alert texts.
- `game.dfy` has the classes `User`, `Lobby` and `LobbyList`.
  - Their fields are updated in place, as in the source.
  - `send_message` appends to the connection's `outbox`.
  - One inbound websocket frame is one call of `User.Handle`. Each frame is
    handled as one atomic step.

How the code behaves as written, all of which the model keeps:

- The name is stored before the "already in a lobby" assertion, so it is
  stored even when the assertion then fails.
- `CreateRoom` stores the name untrimmed.
- A successful `JoinRoom` never records the room in the connection's `lobby`
  field (src/game.rs:83-88), unlike `CreateRoom`, which records the room it
  creates (src/game.rs:69). As a result, closing that connection does not
  remove it from the room, and the same connection can join a second time
  under another name. It is then sent one copy of each broadcast per name it
  holds (see `Broadcast`).
- A panic (`unwrap` on a JSON payload that fails to decode, or the
  `assert!(!in_lobby)`) is returned as `Panicked(reason)`, with whatever
  state changes came before it.

The HashMap's iteration order is not modelled by a fixed order. `resend_ui`
lists the member names in some order chosen nondeterministically (`:|`). It
then sends the message to the members in that same order, because a
HashMap's `keys()` and `values()` walk the same order. The contracts promise
the order-free facts: every name listed exactly once, and every member
served once per name it holds.

Two ghost sets on the registry carry the invariant that keeps `send_message`
from panicking:

- `created` holds every room ever created through the registry, including a
  room that a later room with the same id displaced.
- `seated` holds every connection that has taken a seat in a room.

`LobbyList.Valid` states that every member of a created room is seated and
that every seated connection's socket is bound. `User.Valid` adds that a
connection which records a room is named and seated, and that the room is a
created one. Every `Handle` step preserves this, and it only grows the two
sets (`RegistryGrew`): the rooms it adds are new objects, and the only
connection it can seat is the one that acts. So every other connection of
the registry stays valid too (`PeerStaysValid`), and steps of different
connections chain; `TwoPlayers` runs three frames of two connections in a
row. The effect predicates (`Quiet`, `CloseEffect`, `CreateRoomEffect`,
`JoinRoomEffect` and `FrameEffect`) state a step's outcome against the rooms
and seated connections as they were before it.

## Model

| member | source | states |
|---|---|---|
| Base64.Symbol | src/game.rs:111 | every sextet maps to a symbol of the standard base64 alphabet |
| Base64.Value | src/game.rs:111 | a character has a sextet value exactly when it is an alphabet symbol |
| Base64.SymbolValue | src/game.rs:111 | reading back the symbol of a sextet gives that sextet |
| Base64.ValueSymbol | src/game.rs:111 | the symbol of a character's value is that character |
| Base64.Encode | src/game.rs:111 | unpadded encoding: ceil(4n/3) characters for n octets, all of them alphabet symbols |
| Base64.SplitJoin | src/game.rs:111 | regrouping three octets into four sextets and back gives the octets |
| Base64.JoinSplit | src/game.rs:111 | regrouping four sextets into three octets and back gives the sextets |
| Base64.GroupRoundTrip | src/game.rs:111 | decoding the four symbols of a full group gives its three octets |
| Base64.OneOctetRoundTrip | src/game.rs:111 | a lone final octet is encoded as two symbols and decoded back |
| Base64.TwoOctetRoundTrip | src/game.rs:111 | two final octets are encoded as three symbols and decoded back |
| Base64.RoundTrip | src/game.rs:111 | decode(encode(data)) == data for every octet string |
| Base64.DecodeCanonical | src/game.rs:111 | whatever decodes to data is exactly encode(data): the encoding is canonical |
| Base64.EncodeInjective | src/game.rs:111 | different random octets give different room ids |
| Text.Trim | src/game.rs:59 | `str::trim`: white space removed at both ends, never longer than its input (`TrimIsSlice` and `TrimIsTrimmed` pin the result down) |
| Text.TrimStartSplits | src/game.rs:59 | trimming the start drops a blank prefix and keeps a suffix that does not start with white space |
| Text.TrimEndSplits | src/game.rs:59 | trimming the end drops a blank suffix and keeps a prefix that does not end with white space |
| Text.TrimIsTrimmed | src/game.rs:59 | the result of trim neither starts nor ends with white space |
| Text.TrimIsSlice | src/game.rs:59 | trim keeps a slice of the input with only white space around it |
| Text.TrimEmptyIffBlank | src/game.rs:59 | `name.trim().is_empty()` holds exactly when every character of the name is white space |
| Text.TrimOfTrimmed | src/game.rs:169 | trim leaves a string that neither starts nor ends with white space unchanged |
| Text.TrimIdempotent | src/game.rs:169 | trimming twice is trimming once |
| Text.TrimIgnoresPadding | src/game.rs:169 | white space added around a string does not change its trim |
| Game.CollectNames | src/game.rs:137-146 | the collected `players` list every member name exactly once |
| Game.ListsLength | src/game.rs:137-146 | a snapshot has exactly as many entries as the room has names |
| Game.ListsSingleton | src/game.rs:137-146 | the only listing of one name is that name |
| Game.ListsDropLast | src/game.rs:137-146 | without its last entry a listing lists the remaining names |
| Game.AddedMember | src/game.rs:122 | inserting a new name for a player adds exactly that player to the members |
| Game.SoleMember | src/game.rs:68-70 | the broadcast in a room whose only member is the creator is one `PreGameUI{id, [name]}` |
| Game.OccurrencesStep | src/game.rs:147-149 | each step of the send loop serves the member under that step's name once more |
| Game.OccurrencesOfListing | src/game.rs:147-149 | walking all names serves each member once per name it holds |
| Game.SharedWithOneMore | src/game.rs:147-149 | one more name walked adds one delivery exactly when it belongs to the member |
| Game.OneMoreCopy | src/game.rs:148 | one more send appends one more copy of the snapshot |
| Game.OneCopyEach | src/game.rs:147-149 | in a room where no connection holds two names, every member gets exactly one snapshot |
| Game.User.constructor | src/main.rs:21-27 | a new connection has no lobby, no name, no socket and has been sent nothing |
| Game.User.SendMessage | src/game.rs:23-32 | needs a bound socket; appends the message to the connection's outbox |
| Game.User.BindSocket | src/game.rs:41-46 | the first frame binds the socket; a bound socket is kept |
| Game.User.OnClose | src/game.rs:48-53 | on close, a connection with a recorded room leaves it under its current name and that room is re-broadcast; nothing else changes, and the invariant is kept |
| Game.User.OnCreateRoom | src/game.rs:58-71 | a blank name gives exactly one "name cannot be empty" alert and no other change; otherwise the untrimmed name is stored; a connection already in a room panics; any other connection gets a fresh room registered under encode(random octets), records it, is its only member, and is sent `PreGameUI{id, [name]}`; the registry's sets of rooms and seated connections only grow |
| Game.User.CreateAndJoin | src/game.rs:68-70 | the created room is registered under its id, holds only this connection under its name, and this connection receives exactly its snapshot; the registry's sets of rooms and seated connections only grow |
| Game.User.OnJoinRoom | src/game.rs:72-94 | a blank name gives one alert; otherwise the name is stored; in a room already, it panics; an unknown room id gives "lobby not found"; a taken name gives "name taken" with no broadcast; otherwise the connection is seated and the room re-broadcast; the connection's `lobby` field is never set; the registry's sets of rooms and seated connections only grow |
| Game.User.JoinFound | src/game.rs:83-88 | a taken name leaves the room as it was and alerts only the joiner; a free name seats the joiner and broadcasts to the room, other connections receiving nothing; the registry's sets of rooms and seated connections only grow |
| Game.User.Dispatch | src/game.rs:47-99 | each kind of frame has the effect of its arm: close, malformed text (panic, no change), `CreateRoom`, `JoinRoom`, and ping, binary and other frames (no state change); the registry's sets of rooms and seated connections only grow |
| Game.User.Handle | src/game.rs:39-101 | binds the socket first, then has the effect of the frame's arm, keeps the registry invariant, and only grows the registry's sets of rooms and seated connections, adding new rooms and at most this connection |
| Game.PeerStaysValid | src/game.rs:39-101 | a step of one connection keeps every other connection of the same registry valid |
| Game.TwoPlayers | src/game.rs:58-94 | alice creates a room and receives `PreGameUI{id, ["alice"]}`; bob asking for "alice" gets only "name taken"; bob joining as "bob" with a white-space-padded id makes both receive the same snapshot listing exactly "alice" and "bob" |
| Game.Lobby.constructor | src/game.rs:107-114 | a new room's id is the unpadded base64 of the six random octets (eight alphabet symbols), and it has no members |
| Game.Lobby.ResendUi | src/game.rs:136-150 | every member receives a `PreGameUI` with the room's id listing each current name exactly once, one copy per name the member holds; no one else is sent anything |
| Game.Lobby.PlayerTryJoin | src/game.rs:115-126 | returns false, with the room and every outbox as before, exactly when the name is taken; otherwise inserts exactly name→player and broadcasts |
| Game.Lobby.PlayerLeave | src/game.rs:127-135 | removes the entry under the player's current name, broadcasts to the remaining members, and sends nothing to those removed |
| Game.LobbyList.constructor | src/game.rs:157-161 | the registry starts without rooms |
| Game.LobbyList.Create | src/game.rs:162-167 | registers a fresh empty room under encode(random octets), overwriting only that key, after which looking up its id finds it |
| Game.LobbyList.GetLobby | src/game.rs:168-175 | a lookup only ever finds a registered room |
| Game.LobbyList.GetLobbyTrims | src/game.rs:168-175 | get_lobby(s) == get_lobby(trim(s)) |
| Game.LobbyList.GetLobbyIgnoresPadding | src/game.rs:168-175 | white space around a room id does not change which room is found |
| Game.LobbyList.GetLobbyById | src/game.rs:168-175 | a found room's id is the trimmed text, and nothing is found exactly when no registered room has that id |
| Game.LobbyList.FindsOwnId | src/game.rs:168-175 | every registered room is found by its own id |

## Left out

- Transport. The actix actor and websocket machinery are not modelled.
  - A ping's `pong` reply and the echo of a binary frame change no lobby
    state. They are modelled as frames with no effect.
  - `try_send` to a connection whose mailbox is closed or full would make
    `send_message` panic. The model assumes every send succeeds.
- The JSON encoding (serde): a text frame arrives already decoded, as
  `Some(message)`, or as `None` when decoding fails. The actor handler that
  serialises an outgoing message into a text frame (src/game.rs:197-203) is
  not modelled either: a message counts as delivered once it is in the
  connection's `outbox`.
- Locks and concurrency. Each frame is handled as one atomic step, whereas
  the source takes a mutex per access and its connections run concurrently.
  Interleavings between connections are not modelled.
- What follows a panic. A panic is returned as an outcome; the actor's
  restart or teardown that follows it is not modelled.
- `rand`. The six random octets are a parameter of `Create` and of the
  `Lobby` constructor.
- `println!` output.
- The server start-up in `src/main.rs` is not part of this model, except the
  initial state of a connection. The browser client, `web/index.js`, is not
  part of this model either.
- `LobbyList::new` gives only the empty registry. A run of arbitrarily many
  frames is not modelled as such: the registry invariant is proved to be
  preserved by each step, for the acting connection and for every other one,
  and `TwoPlayers` chains three steps from start-up.
- Game.User.SendMessage: requires a bound socket instead of modelling the
  `unwrap` panic on an unbound one. The registry invariant shows that every
  connection a step sends to has a bound socket.

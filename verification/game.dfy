/**
 * The lobby and membership state machine behind each websocket connection
 * (src/game.rs). A `User` is one connection, a `Lobby` a room of users keyed
 * by display name, a `LobbyList` the server-wide registry of rooms keyed by
 * id. Every inbound frame is handled by `User.Handle` as one atomic step;
 * `send_message` appends to the connection's `outbox`.
 */
module Game {
  import opened Wrappers
  import opened Text
  import opened Protocol
  import Base64

  /** The actor address a connection's socket field holds once bound. */
  type Addr = nat

  /** One inbound websocket event; a text frame carries its payload as
      `serde_json` decodes it, `None` when decoding fails. Pong,
      continuation and protocol-error events are `OtherFrame`. */
  datatype Inbound =
    | TextFrame(payload: Option<MessageC2S>)
    | CloseFrame
    | PingFrame
    | BinaryFrame
    | OtherFrame

  /** Why handling a frame panicked: the `unwrap` of a failed decode, or
      `assert!(!in_lobby)`. */
  datatype Panic = MalformedPayload | AlreadyInLobby

  datatype Outcome = Handled | Panicked(reason: Panic)

  /** A lobby id: eight symbols of the base64 alphabet (the encoding of six octets). */
  predicate IsLobbyId(s: string) {
    |s| == 8 && forall i :: 0 <= i < |s| ==> Base64.IsSymbol(s[i])
  }

  /** What the ghost `snapshot` result holds when a step broadcasts nothing. */
  const NoSnapshot := SendAlert([])

  /** `n` copies of `m`. */
  function Copies(m: MessageS2C, n: nat): (r: seq<MessageS2C>)
    ensures |r| == n
  {
    if n == 0 then [] else Copies(m, n - 1) + [m]
  }

  /** The names under which `u` sits in `users`. */
  function KeysOf(users: map<string, User>, u: User): set<string> {
    set k | k in users && users[k] == u
  }

  /** `players` lists every name of `names` exactly once, in some order. */
  predicate Lists(players: seq<string>, names: set<string>) {
    && (forall i, j :: 0 <= i < j < |players| ==> players[i] != players[j])
    && (forall i :: 0 <= i < |players| ==> players[i] in names)
    && (forall p :: p in names ==> p in players)
  }

  /** The `PreGameUI` snapshot of a lobby with id `id` and member names `names`. */
  predicate IsSnapshot(m: MessageS2C, id: string, names: set<string>) {
    m.PreGameUI? && m.roomId == id && Lists(m.players, names)
  }

  /** The broadcast of `resend_ui` took place: `snapshot` describes `l` as it is
      now, and each member received one copy per name it is registered under. */
  twostate predicate Broadcast(l: Lobby, snapshot: MessageS2C)
    reads l, l.users.Values
  {
    && IsSnapshot(snapshot, l.id, l.users.Keys)
    && forall u :: u in l.users.Values ==>
         old(allocated(u)) && u.outbox == old(u.outbox) + Copies(snapshot, |KeysOf(l.users, u)|)
  }

  /** The membership of every room of `ls` outside `except` is as before. */
  twostate predicate RoomsKept(ls: set<Lobby>, except: set<Lobby>)
    reads ls
  {
    forall l :: l in ls && l !in except ==> l.users == old(l.users)
  }

  /** No connection of `us` outside `except` was sent anything. */
  twostate predicate OthersSilent(us: set<User>, except: set<User>)
    reads us
  {
    forall u :: u in us && u !in except ==> u.outbox == old(u.outbox)
  }

  /** The connections seated in the rooms of `rooms`. */
  ghost function MembersOf(rooms: set<Lobby>): set<User>
    reads rooms
  {
    set l, u | l in rooms && u in l.users.Values :: u
  }

  /** `keys().map(clone).collect()`: the member names, in the map's own order. */
  method CollectNames(users: map<string, User>) returns (players: seq<string>)
    ensures Lists(players, users.Keys)
  {
    players := [];
    var rest := users.Keys;
    while rest != {}
      invariant rest <= users.Keys
      invariant Lists(players, users.Keys - rest)
      decreases rest
    {
      var k :| k in rest;
      players := players + [k];
      rest := rest - {k};
    }
  }

  /** Dropping the last entry of a listing lists the other names. */
  lemma ListsDropLast(players: seq<string>, names: set<string>)
    requires Lists(players, names) && players != []
    ensures players[|players| - 1] in names
    ensures Lists(players[..|players| - 1], names - {players[|players| - 1]})
  {
    var last := players[|players| - 1];
    var init := players[..|players| - 1];
    forall p | p in names - {last} ensures p in init {
      var i :| 0 <= i < |players| && players[i] == p;
      assert i != |players| - 1;
      assert init[i] == p;
    }
  }

  /** A listing has one entry per name. */
  lemma {:induction false} ListsLength(players: seq<string>, names: set<string>)
    requires Lists(players, names)
    ensures |players| == |names|
    decreases |players|
  {
    if players != [] {
      ListsDropLast(players, names);
      ListsLength(players[..|players| - 1], names - {players[|players| - 1]});
    } else {
      assert forall p :: p !in names;
      assert names == {};
    }
  }

  /** The only listing of a single name is that name. */
  lemma ListsSingleton(players: seq<string>, n: string)
    requires Lists(players, {n})
    ensures players == [n]
  {
    ListsLength(players, {n});
    assert players[0] in {n};
  }

  /** Seating `u` under a fresh name `n` adds exactly `u` to the members. */
  lemma AddedMember(users: map<string, User>, n: string, u: User)
    requires n !in users
    ensures users[n := u].Values == users.Values + {u}
  {
    forall v | v in users.Values ensures v in users[n := u].Values {
      var k :| k in users && users[k] == v;
      assert users[n := u][k] == v;
    }
    assert users[n := u][n] == u;
  }

  /** A broadcast to a room whose only member is `u`, under `n`, hands `u`
      exactly one snapshot, listing just `n`. */
  lemma SoleMember(users: map<string, User>, n: string, u: User, m: MessageS2C, id: string)
    requires users == map[n := u] && IsSnapshot(m, id, users.Keys)
    ensures m == PreGameUI(id, [n]) && Copies(m, |KeysOf(users, u)|) == [m]
  {
    assert KeysOf(users, u) == {n};
    ListsSingleton(m.players, n);
  }

  /** How many entries of `names` are names under which `u` sits in `users`. */
  function Occurrences(users: map<string, User>, names: seq<string>, u: User): nat {
    if names == [] then 0
    else
      var last := names[|names| - 1];
      Occurrences(users, names[..|names| - 1], u) + (if last in users && users[last] == u then 1 else 0)
  }

  /** One more entry of the listing counts once more exactly when it names `u`. */
  lemma OccurrencesStep(users: map<string, User>, names: seq<string>, i: nat, u: User)
    requires i < |names|
    ensures Occurrences(users, names[..i + 1], u)
            == Occurrences(users, names[..i], u) + (if names[i] in users && users[names[i]] == u then 1 else 0)
  {
    assert names[..i + 1][..i] == names[..i];
  }

  /** Walking a listing of the names `keys` meets the names in `held` as many
      times as `keys` and `held` share names. */
  lemma {:induction false} OccurrencesOfListing(users: map<string, User>, names: seq<string>, keys: set<string>,
                                                u: User, held: set<string>)
    requires Lists(names, keys)
    requires forall k :: k in held <==> k in users && users[k] == u
    ensures Occurrences(users, names, u) == |held * keys|
    decreases |names|
  {
    if names == [] {
      assert held * keys == {};
    } else {
      var last := names[|names| - 1];
      ListsDropLast(names, keys);
      OccurrencesOfListing(users, names[..|names| - 1], keys - {last}, u, held);
      SharedWithOneMore(held, keys, last);
    }
  }

  /** Adding `x` back to `keys - {x}` adds one shared name exactly when `held` has `x`. */
  lemma SharedWithOneMore(held: set<string>, keys: set<string>, x: string)
    requires x in keys
    ensures |held * keys| == |held * (keys - {x})| + (if x in held then 1 else 0)
  {
    var before := held * (keys - {x});
    if x in held {
      assert held * keys == before + {x};
    } else {
      assert held * keys == before;
    }
  }

  /** One more copy of `m` after `prefix` and `c` copies. */
  lemma OneMoreCopy(prefix: seq<MessageS2C>, m: MessageS2C, c: nat)
    ensures prefix + Copies(m, c + 1) == prefix + Copies(m, c) + [m]
  {
    assert Copies(m, c + 1) == Copies(m, c) + [m];
  }

  /** In a lobby where no connection sits under two names, a broadcast gives
      every member exactly one snapshot. */
  lemma OneCopyEach(users: map<string, User>, u: User)
    requires forall a, b :: a in users && b in users && users[a] == users[b] ==> a == b
    requires u in users.Values
    ensures |KeysOf(users, u)| == 1
  {
    var k :| k in users && users[k] == u;
    assert KeysOf(users, u) == {k};
  }

  /** One connection (`User`, src/game.rs:16-21). */
  class User {
    var lobby: Option<Lobby>
    var name: Option<string>
    const registry: LobbyList
    var socket: Option<Addr>
    /** Everything `send_message` has queued for this connection. */
    var outbox: seq<MessageS2C>

    /** A connection as it is started (src/main.rs:21-27): nothing set yet. */
    constructor (registry: LobbyList)
      ensures lobby == None && name == None && socket == None && outbox == []
      ensures this.registry == registry
    {
      lobby := None;
      name := None;
      this.registry := registry;
      socket := None;
      outbox := [];
    }

    /** Only a named connection ever records a lobby, a recorded lobby is one
        the registry created, a connection that records a lobby has taken a
        seat, and the registry is well formed. */
    ghost predicate Valid()
      reads this, registry, registry.created, registry.seated`socket
    {
      && (lobby.Some? ==> name.Some? && lobby.value in registry.created && this in registry.seated)
      && registry.Valid()
    }

    /** `UserShared::send_message` (src/game.rs:23-32): queue `m` on the bound socket. */
    method SendMessage(m: MessageS2C)
      requires socket.Some?
      modifies this`outbox
      ensures outbox == old(outbox) + [m]
    {
      outbox := outbox + [m];
    }

    /** The first frame binds the socket; later frames leave it (src/game.rs:41-46). */
    method BindSocket(addr: Addr)
      modifies this`socket
      ensures socket == if old(socket).None? then Some(addr) else old(socket)
    {
      if socket.None? {
        socket := Some(addr);
      }
    }

    /** The registry's ghost sets only grew during the step: every room added
        to `created` is a new object, and this connection is the only one that
        can have taken a seat. */
    twostate predicate RegistryGrew()
      reads registry
    {
      && old(registry.created) <= registry.created
      && (forall l :: l in registry.created && l !in old(registry.created) ==> fresh(l))
      && old(registry.seated) <= registry.seated <= old(registry.seated) + {this}
    }

    /** The lobby this connection has recorded, as a set. */
    ghost function Recorded(): set<Lobby>
      reads this`lobby
    {
      if lobby.Some? then {lobby.value} else {}
    }

    /** This connection's outbox grew by `sent`, its lobby and the registry are
        as before, and nothing in `ls` or in `us` other than this connection
        changed. */
    twostate predicate Quiet(sent: seq<MessageS2C>, ls: set<Lobby>, us: set<User>)
      reads this`name, this`lobby, this`outbox, registry, ls, us
    {
      && outbox == old(outbox) + sent
      && lobby == old(lobby)
      && registry.lobbies == old(registry.lobbies)
      && RoomsKept(ls, {})
      && OthersSilent(us, {this})
    }

    /** Closing the connection (src/game.rs:48-53), from a state whose
        lobbies were `ls` and whose seated connections were `us`: a connection
        with a recorded lobby leaves it under its current name and the lobby
        is re-broadcast; otherwise nothing happens. */
    twostate predicate CloseEffect(snapshot: MessageS2C, ls: set<Lobby>, us: set<User>)
      reads this`name, this`lobby, this`outbox, registry, ls, us, Recorded(), MembersOf(Recorded())
    {
      && name == old(name)
      && if old(lobby).None? then Quiet([], ls, us)
         else
           && lobby == old(lobby)
           && registry.lobbies == old(registry.lobbies)
           && name.Some?
           && lobby.value.users == old(lobby.value.users) - {name.value}
           && Broadcast(lobby.value, snapshot)
           && RoomsKept(ls, {lobby.value})
           && forall u :: u in us && u !in lobby.value.users.Values ==> u.outbox == old(u.outbox)
    }

    /** `CreateRoom { name: n }` (src/game.rs:58-71): a blank name is refused
        with an alert; otherwise the name is stored as given, a connection
        already in a lobby panics, and any other connection gets a new room
        with itself as the only member, and that room's snapshot. */
    twostate predicate CreateRoomEffect(n: string, randomData: seq<Base64.byte>, outcome: Outcome,
                                        snapshot: MessageS2C, ls: set<Lobby>, us: set<User>)
      reads this`name, this`lobby, this`outbox, registry, ls, us, Recorded()
    {
      if Trim(n) == [] then
        outcome == Handled && name == old(name) && Quiet([SendAlert(NameEmptyText)], ls, us)
      else
        && name == Some(n)
        && if old(lobby).Some? then outcome == Panicked(AlreadyInLobby) && Quiet([], ls, us)
           else
             && outcome == Handled
             && lobby.Some?
             && fresh(lobby.value)
             && lobby.value.id == Base64.Encode(randomData)
             && registry.lobbies == old(registry.lobbies)[lobby.value.id := lobby.value]
             && lobby.value.users == map[n := this]
             && snapshot == PreGameUI(lobby.value.id, [n])
             && outbox == old(outbox) + [snapshot]
             && RoomsKept(ls, {})
             && OthersSilent(us, {this})
    }

    /** `JoinRoom { name: n, room_id: roomId }` (src/game.rs:72-94): a blank
        name is refused with an alert; otherwise the name is stored as given,
        a connection already in a lobby panics, an unknown room id and a
        taken name are each answered with an alert, and otherwise the
        connection is seated and the room re-broadcast. The connection's
        lobby is never recorded, whatever happens. */
    twostate predicate JoinRoomEffect(n: string, roomId: string, outcome: Outcome,
                                      snapshot: MessageS2C, ls: set<Lobby>, us: set<User>)
      reads this`name, this`lobby, this`outbox, registry, ls, us, registry.lobbies.Values, MembersOf(registry.lobbies.Values)
    {
      if Trim(n) == [] then
        outcome == Handled && name == old(name) && Quiet([SendAlert(NameEmptyText)], ls, us)
      else
        && name == Some(n)
        && if old(lobby).Some? then outcome == Panicked(AlreadyInLobby) && Quiet([], ls, us)
           else
             && outcome == Handled
             && match registry.GetLobby(roomId)
                case None => Quiet([SendAlert(LobbyNotFoundText)], ls, us)
                case Some(l) =>
                  old(allocated(l)) &&
                  if n in old(l.users) then Quiet([SendAlert(NameTakenText)], ls, us)
                  else
                    && lobby == old(lobby)
                    && registry.lobbies == old(registry.lobbies)
                    && l.users == old(l.users)[n := this]
                    && Broadcast(l, snapshot)
                    && RoomsKept(ls, {l})
                    && forall u :: u in us && u !in l.users.Values ==> u.outbox == old(u.outbox)
    }

    /** The `Close` arm of `handle`. */
    method OnClose() returns (ghost snapshot: MessageS2C)
      requires Valid()
      modifies registry.created, registry.seated`outbox
      ensures Valid()
      ensures CloseEffect(snapshot, old(registry.created), old(registry.seated))
    {
      snapshot := NoSnapshot;
      if lobby.Some? {
        var l := lobby.value;
        assert l.MembersBound();
        snapshot := l.PlayerLeave(this);
      }
    }

    /** The `CreateRoom` arm of `handle`. */
    method OnCreateRoom(n: string, randomData: seq<Base64.byte>) returns (outcome: Outcome, ghost snapshot: MessageS2C)
      requires |randomData| == 6
      requires Valid() && socket.Some?
      modifies this`name, this`lobby, this`outbox, registry`lobbies, registry`created, registry`seated
      ensures Valid()
      ensures RegistryGrew()
      ensures CreateRoomEffect(n, randomData, outcome, snapshot, old(registry.created), old(registry.seated))
    {
      snapshot := NoSnapshot;
      if Trim(n) == [] {
        SendMessage(SendAlert(NameEmptyText));
        return Handled, snapshot;
      }
      name := Some(n);
      if lobby.Some? {
        return Panicked(AlreadyInLobby), snapshot;
      }
      snapshot := CreateAndJoin(randomData);
      outcome := Handled;
    }

    /** The part of the `CreateRoom` arm after the checks: create a room,
        record it, and join it under the connection's name. */
    method CreateAndJoin(randomData: seq<Base64.byte>) returns (ghost snapshot: MessageS2C)
      requires |randomData| == 6
      requires Valid() && name.Some? && lobby.None? && socket.Some?
      modifies this`lobby, this`outbox, registry`lobbies, registry`created, registry`seated
      ensures Valid() && RegistryGrew()
      ensures lobby.Some? && fresh(lobby.value) && lobby.value.id == Base64.Encode(randomData)
      ensures registry.lobbies == old(registry.lobbies)[lobby.value.id := lobby.value]
      ensures lobby.value.users == map[name.value := this]
      ensures snapshot == PreGameUI(lobby.value.id, [name.value])
      ensures outbox == old(outbox) + [snapshot]
    {
      var l := registry.Create(randomData);
      lobby := Some(l);
      var joined;
      joined, snapshot := l.PlayerTryJoin(this);
      AddedMember(map[], name.value, this);
      assert l.users.Values == {this};
      registry.seated := registry.seated + {this};
      SoleMember(l.users, name.value, this, snapshot, l.id);
    }

    /** The `JoinRoom` arm of `handle`. */
    method OnJoinRoom(n: string, roomId: string) returns (outcome: Outcome, ghost snapshot: MessageS2C)
      requires Valid() && socket.Some?
      modifies this`name, this`outbox, registry`seated, registry.created, registry.seated`outbox
      ensures Valid()
      ensures RegistryGrew()
      ensures JoinRoomEffect(n, roomId, outcome, snapshot, old(registry.created), old(registry.seated))
    {
      snapshot := NoSnapshot;
      if Trim(n) == [] {
        SendMessage(SendAlert(NameEmptyText));
        return Handled, snapshot;
      }
      name := Some(n);
      if lobby.Some? {
        return Panicked(AlreadyInLobby), snapshot;
      }
      var found := registry.GetLobby(roomId);
      match found {
        case None =>
          SendMessage(SendAlert(LobbyNotFoundText));
        case Some(l) =>
          assert l in registry.created;
          snapshot := JoinFound(l);
      }
      outcome := Handled;
    }

    /** The part of the `JoinRoom` arm once room `l` is found: join it under
        the connection's name, or report the name as taken. */
    method JoinFound(l: Lobby) returns (ghost snapshot: MessageS2C)
      requires Valid() && name.Some? && lobby.None? && socket.Some? && l in registry.created
      modifies this`outbox, registry`seated, l`users, registry.seated`outbox
      ensures Valid() && RegistryGrew()
      ensures name.value in old(l.users) ==>
                && l.users == old(l.users)
                && outbox == old(outbox) + [SendAlert(NameTakenText)]
                && forall u :: u in old(registry.seated) && u != this ==> u.outbox == old(u.outbox)
      ensures name.value !in old(l.users) ==>
                && l.users == old(l.users)[name.value := this]
                && Broadcast(l, snapshot)
                && forall u :: u in old(registry.seated) && u !in l.users.Values ==> u.outbox == old(u.outbox)
    {
      assert l.MembersBound();
      var joined;
      joined, snapshot := l.PlayerTryJoin(this);
      if joined {
        AddedMember(old(l.users), name.value, this);
        registry.seated := registry.seated + {this};
      } else {
        SendMessage(SendAlert(NameTakenText));
      }
    }

    /** What handling `frame` does once the socket is bound. */
    twostate predicate FrameEffect(frame: Inbound, randomData: seq<Base64.byte>, outcome: Outcome,
                                   snapshot: MessageS2C, ls: set<Lobby>, us: set<User>)
      reads this`name, this`lobby, this`outbox, registry, ls, us, Recorded(), MembersOf(Recorded())
      reads registry.lobbies.Values, MembersOf(registry.lobbies.Values)
    {
      match frame
      case CloseFrame =>
        outcome == Handled && CloseEffect(snapshot, ls, us)
      case TextFrame(None) =>
        outcome == Panicked(MalformedPayload) && name == old(name) && Quiet([], ls, us)
      case TextFrame(Some(CreateRoom(n))) =>
        CreateRoomEffect(n, randomData, outcome, snapshot, ls, us)
      case TextFrame(Some(JoinRoom(n, roomId))) =>
        JoinRoomEffect(n, roomId, outcome, snapshot, ls, us)
      case _ =>
        outcome == Handled && name == old(name) && Quiet([], ls, us)
    }

    /** The dispatch on the frame's kind, after the socket is bound. */
    method Dispatch(frame: Inbound, randomData: seq<Base64.byte>) returns (outcome: Outcome, ghost snapshot: MessageS2C)
      requires |randomData| == 6
      requires Valid() && socket.Some?
      modifies this`name, this`lobby, this`outbox, registry, registry.created, registry.seated`outbox
      ensures Valid()
      ensures RegistryGrew()
      ensures FrameEffect(frame, randomData, outcome, snapshot, old(registry.created), old(registry.seated))
    {
      snapshot := NoSnapshot;
      match frame
      case CloseFrame =>
        snapshot := OnClose();
        outcome := Handled;
      case TextFrame(None) =>
        outcome := Panicked(MalformedPayload);
      case TextFrame(Some(CreateRoom(n))) =>
        outcome, snapshot := OnCreateRoom(n, randomData);
      case TextFrame(Some(JoinRoom(n, roomId))) =>
        outcome, snapshot := OnJoinRoom(n, roomId);
      case _ =>
        outcome := Handled;
    }

    /** `StreamHandler::handle` (src/game.rs:39-101): bind the socket, then
        dispatch on the frame. */
    method Handle(addr: Addr, frame: Inbound, randomData: seq<Base64.byte>)
      returns (outcome: Outcome, ghost snapshot: MessageS2C)
      requires |randomData| == 6
      requires Valid()
      modifies this, registry, registry.created, registry.seated`outbox
      ensures socket == if old(socket).None? then Some(addr) else old(socket)
      ensures Valid()
      ensures RegistryGrew()
      ensures FrameEffect(frame, randomData, outcome, snapshot, old(registry.created), old(registry.seated))
    {
      BindSocket(addr);
      outcome, snapshot := Dispatch(frame, randomData);
    }
  }

  /** A step of `actor` keeps every other connection of the same registry
      valid: its recorded lobby is still a created one, since `created` only
      grows. So the invariant holds across steps of different connections. */
  twostate lemma PeerStaysValid(actor: User, peer: User)
    requires peer != actor && peer.registry == actor.registry
    requires old(peer.Valid()) && unchanged(peer`lobby, peer`name)
    requires actor.Valid() && actor.RegistryGrew()
    ensures peer.Valid()
  {
  }

  /** Two connections in a row of frames: alice creates a room; bob asks to
      join it as "alice" and is refused; bob then joins as "bob", giving the
      id padded with white space. Returns what each connection was sent. */
  method TwoPlayers(randomData: seq<Base64.byte>) returns (aliceSaw: seq<MessageS2C>, bobSaw: seq<MessageS2C>)
    requires |randomData| == 6
    ensures |aliceSaw| == 2 && |bobSaw| == 2
    ensures aliceSaw[0] == PreGameUI(Base64.Encode(randomData), ["alice"])
    ensures bobSaw[0] == SendAlert(NameTakenText)
    ensures aliceSaw[1] == bobSaw[1]
    ensures IsSnapshot(aliceSaw[1], Base64.Encode(randomData), {"alice", "bob"})
  {
    var registry, alice, bob, l := AliceCreates(randomData);
    var padded := " " + l.id + "\n";
    registry.GetLobbyIgnoresPadding(" ", l.id, "\n");
    registry.FindsOwnId(l);
    BobRefused(registry, alice, bob, l, padded);
    ghost var snapshot := BobJoins(registry, alice, bob, l, padded);
    aliceSaw, bobSaw := alice.outbox, bob.outbox;
  }

  /** The first step of `TwoPlayers`: on a new registry, alice's
      `CreateRoom` frame gives her a room of her own. */
  method AliceCreates(randomData: seq<Base64.byte>) returns (registry: LobbyList, alice: User, bob: User, l: Lobby)
    requires |randomData| == 6
    ensures fresh(registry) && fresh(alice) && fresh(bob) && fresh(l)
    ensures alice != bob && alice.registry == registry && bob.registry == registry
    ensures alice.Valid() && bob.Valid() && bob.lobby.None?
    ensures (forall x :: x in registry.created ==> fresh(x)) && registry.seated == {alice}
    ensures l.id == Base64.Encode(randomData) && l.users == map["alice" := alice]
    ensures registry.lobbies == map[l.id := l]
    ensures alice.outbox == [PreGameUI(l.id, ["alice"])] && bob.outbox == []
  {
    registry := new LobbyList();
    alice := new User(registry);
    bob := new User(registry);
    TrimOfTrimmed("alice");
    var outcome, snapshot := alice.Handle(1, TextFrame(Some(CreateRoom("alice"))), randomData);
    l := alice.lobby.value;
    assert l.users["alice"] == alice;
  }

  /** The second step: bob asks for the taken name "alice" and is only sent
      the "name taken" alert. */
  method BobRefused(registry: LobbyList, alice: User, bob: User, l: Lobby, roomId: string)
    requires alice != bob && alice.registry == registry && bob.registry == registry
    requires bob.Valid() && bob.lobby.None? && alice in registry.seated
    requires registry.GetLobby(roomId) == Some(l) && l.users == map["alice" := alice]
    modifies bob, registry, registry.created, registry.seated`outbox
    ensures bob.Valid() && bob.RegistryGrew() && bob.lobby.None? && alice in registry.seated
    ensures registry.lobbies == old(registry.lobbies) && l.users == old(l.users)
    ensures bob.outbox == old(bob.outbox) + [SendAlert(NameTakenText)]
    ensures alice.outbox == old(alice.outbox)
  {
    TrimOfTrimmed("alice");
    var outcome, snapshot := bob.Handle(2, TextFrame(Some(JoinRoom("alice", roomId))), [0, 0, 0, 0, 0, 0]);
  }
  /** The last step: bob joins as "bob", and both members are sent one
      snapshot listing both names. */
  method BobJoins(registry: LobbyList, alice: User, bob: User, l: Lobby, roomId: string) returns (ghost snapshot: MessageS2C)
    requires alice != bob && alice.registry == registry && bob.registry == registry
    requires bob.Valid() && bob.lobby.None?
    requires registry.GetLobby(roomId) == Some(l) && l.users == map["alice" := alice]
    modifies bob, registry, registry.created, registry.seated`outbox
    ensures alice.outbox == old(alice.outbox) + [snapshot]
    ensures bob.outbox == old(bob.outbox) + [snapshot]
    ensures IsSnapshot(snapshot, l.id, {"alice", "bob"})
  {
    TrimOfTrimmed("bob");
    var outcome;
    outcome, snapshot := bob.Handle(2, TextFrame(Some(JoinRoom("bob", roomId))), [0, 0, 0, 0, 0, 0]);
    assert l.users == map["alice" := alice, "bob" := bob];
    assert Broadcast(l, snapshot);
    TwoMembers(l.users, alice, bob);
    assert Copies(snapshot, 1) == [snapshot];
  }

  /** In the room of alice and bob, each sits under one name. */
  lemma TwoMembers(users: map<string, User>, alice: User, bob: User)
    requires alice != bob && users == map["alice" := alice, "bob" := bob]
    ensures users.Keys == {"alice", "bob"}
    ensures alice in users.Values && KeysOf(users, alice) == {"alice"}
    ensures bob in users.Values && KeysOf(users, bob) == {"bob"}
  {
    assert "alice"[0] != "bob"[0];
    assert users["alice"] == alice && users["bob"] == bob;
  }

  /** A room (`Lobby`, src/game.rs:102-151). */
  class Lobby {
    const id: string
    var users: map<string, User>

    /** `Lobby::new` (src/game.rs:107-114), with the six random octets given. */
    constructor (randomData: seq<Base64.byte>)
      requires |randomData| == 6
      ensures id == Base64.Encode(randomData) && IsLobbyId(id)
      ensures users == map[]
    {
      id := Base64.Encode(randomData);
      users := map[];
    }

    /** Every member has a bound socket. */
    ghost predicate MembersBound()
      reads this, users.Values`socket
    {
      forall u :: u in users.Values ==> u.socket.Some?
    }

    /** `resend_ui` (src/game.rs:136-150): a snapshot of the id and the member
        names goes to every member, once per name the member holds. */
    method ResendUi() returns (ghost snapshot: MessageS2C)
      requires MembersBound()
      modifies users.Values`outbox
      ensures Broadcast(this, snapshot)
    {
      var players := CollectNames(users);
      var message := PreGameUI(id, players);
      snapshot := message;
      for i := 0 to |players|
        invariant forall u :: u in users.Values ==>
                    u.outbox == old(u.outbox) + Copies(message, Occurrences(users, players[..i], u))
      {
        var member := users[players[i]];
        label before:
        member.SendMessage(message);
        forall u | u in users.Values
          ensures u.outbox == old(u.outbox) + Copies(message, Occurrences(users, players[..i + 1], u))
        {
          OccurrencesStep(users, players, i, u);
          if u == member {
            OneMoreCopy(old(u.outbox), message, Occurrences(users, players[..i], u));
          }
        }
      }
      assert players[..|players|] == players;
      forall u | u in users.Values
        ensures Occurrences(users, players, u) == |KeysOf(users, u)|
      {
        OccurrencesOfListing(users, players, users.Keys, u, KeysOf(users, u));
        assert KeysOf(users, u) * users.Keys == KeysOf(users, u);
      }
    }

    /** `player_try_join` (src/game.rs:115-126): insert the player under its
        name unless the name is taken; broadcast only on success. */
    method PlayerTryJoin(player: User) returns (joined: bool, ghost snapshot: MessageS2C)
      requires player.name.Some? && player.socket.Some? && MembersBound()
      modifies this`users, users.Values`outbox, player`outbox
      ensures MembersBound()
      ensures joined <==> player.name.value !in old(users)
      ensures joined ==> users == old(users)[player.name.value := player] && Broadcast(this, snapshot)
      ensures !joined ==> users == old(users) && player.outbox == old(player.outbox)
      ensures !joined ==> forall u :: u in users.Values ==> u.outbox == old(u.outbox)
    {
      snapshot := NoSnapshot;
      var n := player.name.value;
      if n in users {
        return false, snapshot;
      }
      users := users[n := player];
      snapshot := ResendUi();
      joined := true;
    }

    /** `player_leave` (src/game.rs:127-135): remove the entry under the
        player's current name, if any, then broadcast. */
    method PlayerLeave(player: User) returns (ghost snapshot: MessageS2C)
      requires player.name.Some? && MembersBound()
      modifies this`users, users.Values`outbox
      ensures users == old(users) - {player.name.value}
      ensures MembersBound() && Broadcast(this, snapshot)
      ensures forall u :: u in old(users.Values) && u !in users.Values ==> u.outbox == old(u.outbox)
    {
      users := users - {player.name.value};
      snapshot := ResendUi();
    }
  }

  /** The registry of rooms (`LobbyList`, src/game.rs:152-176). */
  class LobbyList {
    var lobbies: map<string, Lobby>
    /** Every room ever created through this registry, including one a later
        room with the same id displaced from `lobbies`. */
    ghost var created: set<Lobby>
    /** Every connection that has taken a seat in one of those rooms. */
    ghost var seated: set<User>

    /** `LobbyList::new`: no rooms. */
    constructor ()
      ensures lobbies == map[] && created == {} && seated == {}
    {
      lobbies := map[];
      created := {};
      seated := {};
    }

    /** Every room is registered under its own id, every id is a lobby id,
        every registered room was created here, and every member of such a
        room is a seated connection whose socket is bound. */
    ghost predicate Valid()
      reads this, created, seated`socket
    {
      && (forall k :: k in lobbies ==> lobbies[k].id == k && IsLobbyId(k))
      && lobbies.Values <= created
      && (forall l :: l in created ==> l.users.Values <= seated)
      && (forall u :: u in seated ==> u.socket.Some?)
    }

    /** `create` (src/game.rs:162-167): a new empty room registered under its
        id, replacing any room that had the same id. */
    method Create(randomData: seq<Base64.byte>) returns (l: Lobby)
      requires |randomData| == 6 && Valid()
      modifies this`lobbies, this`created
      ensures fresh(l) && l.id == Base64.Encode(randomData) && l.users == map[]
      ensures lobbies == old(lobbies)[l.id := l] && created == old(created) + {l}
      ensures Valid() && GetLobby(l.id) == Some(l)
    {
      l := new Lobby(randomData);
      lobbies := lobbies[l.id := l];
      created := created + {l};
      FindsOwnId(l);
    }

    /** `get_lobby` (src/game.rs:168-175): look the trimmed id up. */
    function GetLobby(id: string): (r: Option<Lobby>)
      reads this
      ensures r.Some? ==> r.value in lobbies.Values
    {
      var key := Trim(id);
      if key in lobbies then Some(lobbies[key]) else None
    }

    /** Looking up `s` is looking up `trim(s)`. */
    lemma GetLobbyTrims(s: string)
      ensures GetLobby(s) == GetLobby(Trim(s))
    {
      TrimIdempotent(s);
    }

    /** White space around an id does not change what it finds. */
    lemma GetLobbyIgnoresPadding(pre: string, id: string, post: string)
      requires IsBlank(pre) && IsBlank(post)
      ensures GetLobby(pre + id + post) == GetLobby(id)
    {
      TrimIgnoresPadding(pre, id, post);
    }

    /** A lookup finds the registered room whose id is the trimmed text, and
        finds nothing exactly when no registered room has that id. */
    lemma GetLobbyById(s: string)
      requires Valid()
      ensures GetLobby(s).Some? ==> GetLobby(s).value.id == Trim(s)
      ensures GetLobby(s).None? <==> forall l :: l in lobbies.Values ==> l.id != Trim(s)
    {
      if GetLobby(s).None? {
        forall l | l in lobbies.Values ensures l.id != Trim(s) {
          var k :| k in lobbies && lobbies[k] == l;
        }
      }
    }

    /** A registered room is found by its own id. */
    lemma FindsOwnId(l: Lobby)
      requires Valid() && l in lobbies.Values
      ensures GetLobby(l.id) == Some(l)
    {
      var k :| k in lobbies && lobbies[k] == l;
      assert IsTrimmed(l.id) by {
        assert Base64.IsSymbol(l.id[0]) && Base64.IsSymbol(l.id[7]);
      }
      TrimOfTrimmed(l.id);
    }
  }
}

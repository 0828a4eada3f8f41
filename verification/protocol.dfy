/**
 * The JSON messages of the websocket protocol (src/game.rs:177-193), as
 * values; their `serde` encoding is not part of this model.
 */
module Protocol {

  /** Client to server, `MessageC2S`. */
  datatype MessageC2S =
    | CreateRoom(name: string)
    | JoinRoom(name: string, roomId: string)

  /** Server to client, `MessageS2C`. */
  datatype MessageS2C =
    | SendAlert(text: string)
    | PreGameUI(roomId: string, players: seq<string>)

  const NameEmptyText := "name cannot be empty"
  const NameTakenText := "name taken"
  const LobbyNotFoundText := "lobby not found"
}

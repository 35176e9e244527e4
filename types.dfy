/** Identities, error kinds and the result wrappers shared by every module. */
module Types {

  /** A platform user id (a Discord snowflake, kept as text). */
  type UserId = string

  /** A lobby code, the key of the registry. */
  type Code = string

  datatype Option<+T> = None | Some(value: T)

  /** Success with a payload, or one of the named refusals the handlers reply with. */
  datatype Result<+T> = Ok(value: T) | Err(error: Error)

  /** Success without a payload, or a named refusal. */
  datatype Outcome = Pass | Fail(error: Error)

  /** One constructor per refusal the handlers send back to the requester. */
  datatype Error =
    | AlreadyHosting       // create: the user is the host of a live lobby
    | LobbyNotFound        // join and the buttons: no lobby under that code
    | AlreadyJoined        // join: the user is already a player of that lobby
    | GameAlreadyActive    // join: a round is running
    | NotInLobby           // slash start, status, end: the user is in no lobby
    | NotHost              // start, next, end: the requester is not the lobby's host
    | InsufficientPlayers  // slash start: fewer than two players
    | RoundAlreadyActive   // "next" button: a round is running
    | NotYourTurn          // statement button: the requester is not the turn player
    | IsCurrentTurnPlayer  // vote: the turn player may not vote on their own statement
    | AlreadyVoted         // vote: the requester has voted in this round
    | HandlerThrows        // modal submit for a code that is no longer live: the handler throws
}

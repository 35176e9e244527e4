# Really — the lobby game state machine, modelled in Dafny

Really is a Discord bot for a party game played in direct messages. A host creates a lobby and
gets a short code; friends join with that code. Each round one player, taken in join order, makes
a statement on a random topic and marks it true or false. Every other player guesses. A right
guess earns one point. When everyone has guessed, the bot reveals the result and the score board,
and the host starts the next round or ends the game with a final ranking.

This project models the game logic of `index.js` with the Discord transport removed:

- `types.dfy` (module `Types`): identities, lobby codes, the reply outcomes and the error kinds.
- `seqs.dfy` (module `Seqs`): duplicate-free sequences, removal, cardinality facts.
- `codes.dfy` (module `Codes`): the upper-casing of generated and typed lobby codes.
- `results.dfy` (module `RoundResults`): the round result calculator of `revealResults`. It splits
  the voters into right and wrong guessers in vote order and awards the points.
- `ranking.dfy` (module `Ranking`): the score board and final ranking. This is a stable sort by
  descending points with positions counted from 1.
- `game.dfy` (module `Game`): one lobby as a value (`LobbyState`) and the invariant every
  reachable lobby keeps (`Inv`). Each handler step is a function from the state before to the
  reply and the state after. It also holds the lemmas about turn rotation.
- `handlers.dfy` (module `Handlers`): the lobby object as a class, `Lobby`, whose methods update
  its fields in place. The registry of live lobbies is a class, `Registry`, holding the `lobbies`
  Map in insertion order and the created-lobbies counter. Every lobby step is proved to agree
  with the `Game` function of the same step, and to keep the invariant.
- `scenario.dfy` (module `Scenario`): short games traced through the method contracts alone.
  A code is created and joined in either letter case. A round is played in which the only guest
  guesses right and ends with scores host 0, guest 1. A running game refuses joins, only the host
  can end it, and its code is gone afterwards.

Randomness is passed in as parameters. `CreateLobby` takes `drawn`, the random base-36 text that
`generateLobbyCode` upper-cases. The round-start methods take `pick`, the index into the topic
list that `getRandomTopic` draws.

The model follows the code as written, including these behaviours, where the rules of the game
would lead one to expect otherwise:

- Codes are not checked for collisions. A new lobby whose code is already live replaces the old
  lobby under that code, and the code keeps its place in the Map order.
- Generated codes are at most four characters, not exactly four: `substring(2, 6)` of a short
  base-36 expansion is shorter. The model takes the drawn text as given.
- The slash `start-round` has no "round already running" check. Only the "next" button has one.
- Starting a round does not clear the stored statement and answer. Only `revealResults` clears them.
- The statement form has no turn check and no "already submitted" check. A second submission
  overwrites the first.
- There is no "no statement yet" check on votes. A vote is judged against the answer stored when
  the round is revealed. When none is stored, every voter is wrong (`ResolveWithoutAnswer`).
- The vote button checks neither that the voter is a player nor that a round is running.
- The statement form does not check that the lobby exists. A stale form makes the handler throw
  (`HandlerThrows`), and nothing changes.

## Model

| member | source | states |
|---|---|---|
| Codes.UpperChar | index.js:194 | a lower-case ASCII letter becomes the matching capital; every other character stays as it is |
| Codes.ToUpper | index.js:194 | same length; no lower-case letter is left; each lower-case letter moves to its capital, every other character is kept |
| Codes.ToUpperIdempotent | index.js:28 | a code that is already upper case, such as a generated one, is found under itself |
| Codes.ToUpperIgnoresCase | index.js:194 | two typed codes that differ only in letter case look up the same lobby |
| RoundResults.Matches | index.js:733 | a guess never matches a missing (`null`) answer, and matches a stored answer exactly when it equals it |
| RoundResults.Resolve | index.js:727-739 | the two lists together hold as many names as there are votes, and only voters appear in them |
| RoundResults.ResolvePartitions | index.js:732-739 | the right and wrong lists together are a permutation of the voters |
| RoundResults.ResolveSorts | index.js:732-738 | with distinct voters, a voter is in the right list exactly when the guess equals the stored answer, and in the wrong list exactly when it does not |
| RoundResults.ResolveAppend | index.js:732 | both lists keep vote order: resolving two batches of votes concatenates their lists |
| RoundResults.ResolveWithoutAnswer | index.js:728-737 | with no stored answer (`null`) nobody guesses right and every voter is wrong, in vote order |
| RoundResults.ResolveNoDup | index.js:732-738 | with distinct voters, neither list repeats a player |
| RoundResults.ResolveExample | index.js:727-739 | answer TRUE with votes A:true, B:false, C:true gives right [A, C] and wrong [B] |
| RoundResults.TallyStep | index.js:732-739 | one more vote puts its voter at the end of the right list, with one more point, or at the end of the wrong list |
| RoundResults.Award | index.js:735 | awarding points never adds or removes a score key |
| RoundResults.AwardPoints | index.js:735 | with distinct winners, each winner's score rises by exactly one and every other score is unchanged |
| Ranking.SortByPoints | index.js:436 | the sorted board has as many entries as it was given |
| Ranking.SortDescending | index.js:435-436 | the sorted board is ordered by non-increasing points |
| Ranking.SortPermutes | index.js:435-436 | the sorted board holds exactly the entries it was given |
| Ranking.SortStable | index.js:435-436 | players with equal points keep their order from the scores Map |
| Ranking.FinalRanking | index.js:435-438 | one line per entry, positions 1, 2, …, points non-increasing, a permutation of the entries, ties in Map order |
| Game.NewLobby | index.js:163-177 | the new lobby has the creator as host, turn player, only player and first in turn order, with 0 points, round 0, no round running, no statement, no votes, and it satisfies the invariant |
| Game.PlayerCount | index.js:228 | the number of players equals the length of the turn order |
| Game.Join | index.js:205-223 | AlreadyJoined exactly for a member, GameAlreadyActive exactly for a newcomer while a round runs, otherwise the newcomer is added with 0 points at the end of the turn order and nothing else changes; a refusal changes nothing; the invariant is kept |
| Game.TurnPlayer | index.js:280-281 | the turn player is a member of the turn order |
| Game.BeginRound | index.js:279-285 | the round number rises by one, the turn passes to the rotation's player, a round is running, the votes are cleared, and nothing else changes |
| Game.StartRound | index.js:264-285 | NotHost exactly when the requester is not the host, InsufficientPlayers exactly when the host is alone, otherwise the round begins; a refusal changes nothing |
| Game.NextRound | index.js:547-568 | NotHost exactly when the requester is not the host, RoundAlreadyActive exactly when a round runs, otherwise the round begins; a refusal changes nothing |
| Game.SubmitStatement | index.js:684-685 | the statement and its truth value are stored, nothing else changes, and the invariant is kept |
| Game.Standings | index.js:435 | one entry per player, in turn order, carrying that player's score |
| Game.Reveal | index.js:727-809 | the lobby after the reveal still satisfies the invariant |
| Game.RevealFacts | index.js:727-809 | each voter gains a point exactly when the guess matches the answer; non-voters keep their scores; statement, answer and votes are cleared and the round stops; the lists are the resolution of the votes; the board holds exactly the new scores, sorted by non-increasing points, with ties in Map order |
| Game.VotesBounded | index.js:537-542 | there are at most players − 1 votes, and exactly that many exactly when every player but the turn player has voted |
| Game.AddVote | index.js:530-531 | the vote is appended, the voters grow by exactly the new voter, and the invariant is kept |
| Game.CastVote | index.js:516-544 | the lobby after a vote, refused or counted, still satisfies the invariant |
| Game.CastVoteFacts | index.js:516-544 | IsCurrentTurnPlayer exactly for the turn player, AlreadyVoted exactly for a repeat voter, otherwise the vote is appended; the reply counts votes and needed votes; the round is revealed exactly when every other player has voted, and the revealed state is Game.Reveal of the lobby with the new vote; a refusal changes nothing |
| Game.EndGame | index.js:425-438 | NotHost exactly when the requester is not the host, otherwise the final ranking of the scores in Map order |
| Game.RankingListsEveryPlayer | index.js:435-438 | the final ranking has one line per player and lists each player with their score |
| Game.Lines | index.js:387-389 | one status line per player, in join order |
| Game.LinesCover | index.js:387-389 | every player of the lobby has a status line |
| Game.StatusOf | index.js:387-399 | one line per player, each with their points, the host marked and listed first, every player listed, rounds played and whether a round is running |
| Game.Announce | index.js:279-294 | a passed round start is announced with the round after the lobby's last one, the rotation's player for that round, who is a player of the lobby, and the drawn topic; a refusal is passed on with its error |
| Game.RoundsRotate | index.js:279-281 | after k round starts the round number has risen by k and the turn player is the rotation's player for that round |
| Game.TurnPeriodic | index.js:280 | the rotation repeats after as many rounds as there are players |
| Game.EveryoneTakesATurn | index.js:280-281 | any run of as many consecutive rounds as there are players gives every player a turn |
| Handlers.Lobby.constructor | index.js:163-177 | the new object's state is the new lobby of the creator |
| Handlers.Lobby.Join | index.js:205-223 | the reply and the new fields are those of Game.Join; the invariant is kept |
| Handlers.Lobby.BeginRound | index.js:279-285 | the new fields are those of Game.BeginRound |
| Handlers.Lobby.StartRound | index.js:264-285 | the reply and the new fields are those of Game.StartRound |
| Handlers.Lobby.NextRound | index.js:547-568 | the reply and the new fields are those of Game.NextRound |
| Handlers.Lobby.SubmitStatement | index.js:684-685 | the new fields are those of Game.SubmitStatement |
| Handlers.Lobby.Tally | index.js:732-739 | the loop over the votes yields exactly the resolution of the votes and adds the awarded points to the scores |
| Handlers.Lobby.RevealResults | index.js:727-809 | the reply and the new fields are exactly those of Game.Reveal: the lists, the awarded scores, the board and the cleared round |
| Handlers.Lobby.CastVote | index.js:516-544 | the reply and the new fields are those of Game.CastVote, revealing the round on the last vote |
| Handlers.Registry.constructor | index.js:6-8 | no live lobbies and a counter of 0 |
| Handlers.Registry.FirstWithMember | index.js:249-255 | the first code in Map order whose lobby holds the user, or none when no lobby does |
| Handlers.Registry.HostsALobby | index.js:154-161 | true exactly when the user hosts some live lobby |
| Handlers.Registry.FindByMember | index.js:249-255 | the scan returns the first lobby in Map order that holds the user |
| Handlers.Registry.CreateLobby | index.js:149-180 | AlreadyHosting exactly when the user hosts a live lobby, and then nothing changes; otherwise a fresh lobby is stored under the upper-cased code, replacing any lobby under that code, the code is appended to the Map order only if new, and the counter rises by one |
| Handlers.Registry.JoinLobby | index.js:193-223 | LobbyNotFound when the upper-cased code is not live, otherwise the reply and new state of Game.Join on that lobby |
| Handlers.Registry.StartRound | index.js:243-285 | NotInLobby when the requester is in no lobby; otherwise Game.StartRound on the first lobby holding them, announced with the drawn topic |
| Handlers.Registry.PressNext | index.js:545-568 | LobbyNotFound when the button's code is not live; otherwise Game.NextRound on that lobby, announced with the drawn topic |
| Handlers.Registry.LobbyStatus | index.js:367-403 | NotInLobby when the requester is in no lobby; otherwise the status of the first lobby holding them |
| Handlers.Registry.PressStatement | index.js:471-512 | the form opens with the chosen truth value exactly for the turn player of a live lobby; otherwise LobbyNotFound or NotYourTurn |
| Handlers.Registry.SubmitStatement | index.js:675-686 | for a live code, Game.SubmitStatement on that lobby; for a code that is gone, the handler throws and nothing changes |
| Handlers.Registry.PressVote | index.js:471-544 | LobbyNotFound when the code is not live; otherwise the reply and new state of Game.CastVote on that lobby |
| Handlers.Registry.Remove | index.js:460 | the code leaves the registry and the Map order; everything else stays |
| Handlers.Registry.EndGame | index.js:405-466 | NotInLobby when the requester is in no lobby; otherwise Game.EndGame on the first lobby holding them, which is removed exactly when the ranking is produced |
| Handlers.Registry.PressEnd | index.js:626-671 | LobbyNotFound when the code is not live; otherwise Game.EndGame on that lobby, which is removed exactly when the ranking is produced |

## Left out

- Discord I/O: replies, direct messages, embeds, buttons and forms. The handlers return what the
  reply carries instead.
- The message loops that notify players: DM failures are caught and logged and change no state.
  A failing `client.users.fetch` of the turn player after a round start is not modelled. The state
  has already changed at that point.
- `showStats` (`/stats`): it is uptime and ping from the clock, plus the created-lobbies counter,
  which `Registry.created` models.
- `Math.random`: the drawn code text and the topic index are parameters.
- The refusal of slash commands used in a server channel, command registration and logging.
- The parsing of button and form ids. The handlers take the code, action and value already split.
- Concurrency between interactions: each handler runs to completion in the model.
- Unicode `toUpperCase` beyond ASCII. Non-ASCII letters are left as they are.
- JavaScript number limits. Rounds and scores are unbounded naturals.
- Game.Standings: the scores Map is iterated in turn order. This holds because both are filled
  by the same steps, host first and then joins in order.
- Handlers.Registry.PressVote: it requires a live lobby's voter to be one of its players. The
  source has no such check. A non-player who guesses right gets `undefined + 1`, a NaN score,
  which the model's natural-number scores cannot hold.
- Game.CastVote: it requires the voter to be a player, for the same reason.
- Validation and error kinds the code does not have: collision retry, StatementAlreadySubmitted,
  NoStatementYet, and the round-running check on the slash start.

/**
 * One lobby's state machine as values: the state of a lobby object and, per handler, the function
 * from the state before to the reply and the state after. The handler objects in module Handlers
 * perform these steps in place and are proved to agree with them.
 */
module Game {
  import opened Types
  import opened Seqs
  import opened RoundResults
  import opened Ranking

  /** The catalogue of `getRandomTopic`. */
  const Topics: seq<string> := [
    "You're childhood", "Food & Drinks", "Travel & Places", "Relationships",
    "Movies & TV Shows", "Music & Entertainment", "Books & Literature", "Sports & Hobbies",
    "Life Lessons", "Embarrassing Moments", "Dreams & Aspirations", "Animals"
  ]

  /** The fields of a lobby object; `votes` is the vote Map as its entries in insertion order. */
  datatype LobbyState = LobbyState(
    code: Code,
    hostId: UserId,
    players: set<UserId>,
    playersOrder: seq<UserId>,
    scores: map<UserId, nat>,
    currentRound: nat,
    gameActive: bool,
    currentHost: UserId,           // the turn player, who makes this round's statement
    currentStatement: Option<string>,
    currentAnswer: Option<bool>,
    votes: seq<Vote>)

  /** What every reachable lobby satisfies. */
  ghost predicate Inv(s: LobbyState) {
    && s.hostId in s.players
    && s.currentHost in s.players
    && s.scores.Keys == s.players
    && |s.playersOrder| > 0 && s.playersOrder[0] == s.hostId
    && NoDup(s.playersOrder)
    && (forall p :: p in s.players <==> p in s.playersOrder)
    && NoDup(Voters(s.votes))
    && (forall i :: 0 <= i < |s.votes| ==> s.votes[i].voter in s.players && s.votes[i].voter != s.currentHost)
    && (s.currentStatement.Some? <==> s.currentAnswer.Some?)
  }

  /** The object literal of `createLobby`, with the host's score set to 0. */
  function NewLobby(code: Code, user: UserId): (s: LobbyState)
    ensures Inv(s)
    ensures s.code == code && s.hostId == user && s.currentHost == user
    ensures s.players == {user} && s.playersOrder == [user] && s.scores == map[user := 0]
    ensures s.currentRound == 0 && !s.gameActive && s.votes == []
    ensures s.currentStatement == None && s.currentAnswer == None
  {
    LobbyState(code, user, {user}, [user], map[user := 0], 0, false, user, None, None, [])
  }

  /** `lobby.players.size`, which the reply of a join and the vote count report. */
  lemma {:induction false} PlayerCount(s: LobbyState)
    requires Inv(s)
    ensures |s.players| == |s.playersOrder|
  {
    NoDupCard(s.playersOrder);
    assert Elems(s.playersOrder) == s.players;
  }

  /** A join adds the user to `players`, gives them 0 points and appends them to the turn order. */
  function Join(s: LobbyState, user: UserId): (r: (Outcome, LobbyState))
    requires Inv(s)
    ensures Inv(r.1)
    ensures r.0 == Fail(AlreadyJoined) <==> user in s.players
    ensures r.0 == Fail(GameAlreadyActive) <==> user !in s.players && s.gameActive
    ensures r.0 == Pass <==> user !in s.players && !s.gameActive
    ensures r.0.Fail? ==> r.1 == s
    ensures r.0.Pass? ==> r.1 == s.(players := s.players + {user}, scores := s.scores[user := 0],
                                    playersOrder := s.playersOrder + [user])
    ensures r.0.Pass? ==> |r.1.players| == |s.players| + 1
  {
    if user in s.players then (Fail(AlreadyJoined), s)
    else if s.gameActive then (Fail(GameAlreadyActive), s)
    else
      var t := s.(players := s.players + {user}, scores := s.scores[user := 0],
                  playersOrder := s.playersOrder + [user]);
      NoDupSnoc(s.playersOrder, user);
      (Pass, t)
  }

  /** Whose turn round `round` is: `playersOrder[(round - 1) % playersOrder.length]`. */
  function TurnPlayer(order: seq<UserId>, round: nat): (p: UserId)
    requires |order| > 0 && round >= 1
    ensures p in order
  {
    order[(round - 1) % |order|]
  }

  /** The update shared by slash `start-round` and the "next" button. */
  function BeginRound(s: LobbyState): (r: LobbyState)
    requires Inv(s)
    ensures Inv(r)
    ensures r.currentRound == s.currentRound + 1 && r.gameActive && r.votes == []
    ensures r.currentHost == TurnPlayer(s.playersOrder, r.currentRound) && r.currentHost in s.players
    ensures r == s.(currentRound := r.currentRound, currentHost := r.currentHost, gameActive := true, votes := [])
  {
    var round := s.currentRound + 1;
    s.(currentRound := round, currentHost := TurnPlayer(s.playersOrder, round), gameActive := true, votes := [])
  }

  /** Slash `start-round` once the requester's lobby is found: host only, at least two players. */
  function StartRound(s: LobbyState, user: UserId): (r: (Outcome, LobbyState))
    requires Inv(s)
    ensures Inv(r.1)
    ensures r.0 == Fail(NotHost) <==> user != s.hostId
    ensures r.0 == Fail(InsufficientPlayers) <==> user == s.hostId && |s.players| < 2
    ensures r.0 == Pass <==> user == s.hostId && |s.players| >= 2
    ensures r.0.Fail? ==> r.1 == s
    ensures r.0.Pass? ==> r.1 == BeginRound(s)
  {
    if user != s.hostId then (Fail(NotHost), s)
    else if |s.players| < 2 then (Fail(InsufficientPlayers), s)
    else (Pass, BeginRound(s))
  }

  /** The "next" button: host only, and not while a round is running. */
  function NextRound(s: LobbyState, user: UserId): (r: (Outcome, LobbyState))
    requires Inv(s)
    ensures Inv(r.1)
    ensures r.0 == Fail(NotHost) <==> user != s.hostId
    ensures r.0 == Fail(RoundAlreadyActive) <==> user == s.hostId && s.gameActive
    ensures r.0 == Pass <==> user == s.hostId && !s.gameActive
    ensures r.0.Fail? ==> r.1 == s
    ensures r.0.Pass? ==> r.1 == BeginRound(s)
  {
    if user != s.hostId then (Fail(NotHost), s)
    else if s.gameActive then (Fail(RoundAlreadyActive), s)
    else (Pass, BeginRound(s))
  }

  /** The statement form: stores the text and `isTrue === 'true'`, with no turn or phase check. */
  function SubmitStatement(s: LobbyState, text: string, isTrue: bool): (r: LobbyState)
    requires Inv(s)
    ensures Inv(r)
    ensures r == s.(currentStatement := Some(text), currentAnswer := Some(isTrue))
  {
    s.(currentStatement := Some(text), currentAnswer := Some(isTrue))
  }

  /** The `scores` entries in Map order, which is join order: `Array.from(lobby.scores.entries())`. */
  function Standings(s: LobbyState): (r: seq<Entry>)
    requires forall p :: p in s.playersOrder ==> p in s.scores
    ensures |r| == |s.playersOrder|
    ensures forall i :: 0 <= i < |r| ==> r[i].player == s.playersOrder[i] && r[i].points == s.scores[r[i].player]
  {
    seq(|s.playersOrder|, i requires 0 <= i < |s.playersOrder| => Entry(s.playersOrder[i], s.scores[s.playersOrder[i]]))
  }

  /** What `revealResults` computes: the split of the voters and the sorted score board. */
  datatype Revealed = Revealed(result: RoundResult, board: seq<Entry>)

  /** `revealResults`: a point for each right guess, then the round's statement and votes are cleared. */
  function Reveal(s: LobbyState): (r: (Revealed, LobbyState))
    requires Inv(s)
    ensures Inv(r.1)
  {
    var res := Resolve(s.currentAnswer, s.votes);
    var t := s.(scores := Award(s.scores, res.correct), currentStatement := None, currentAnswer := None,
                votes := [], gameActive := false);
    (Revealed(res, SortByPoints(Standings(t))), t)
  }

  /** What the reveal promises: right guessers gain a point, nobody else does, the board is sorted. */
  lemma RevealFacts(s: LobbyState)
    requires Inv(s)
    ensures var r := Reveal(s);
      && r.1 == s.(scores := r.1.scores, currentStatement := None, currentAnswer := None, votes := [], gameActive := false)
      && r.0.result == Resolve(s.currentAnswer, s.votes)
      && (forall i :: 0 <= i < |s.votes| ==>
            r.1.scores[s.votes[i].voter] == s.scores[s.votes[i].voter] + (if Matches(s.currentAnswer, s.votes[i].guess) then 1 else 0))
      && (forall p :: p in s.players && !HasVoted(s.votes, p) ==> r.1.scores[p] == s.scores[p])
      && Descending(r.0.board) && multiset(r.0.board) == multiset(Standings(r.1))
      && (forall k: nat :: WithPoints(r.0.board, k) == WithPoints(Standings(r.1), k))
  {
    var r := Reveal(s);
    var res := Resolve(s.currentAnswer, s.votes);
    ResolveNoDup(s.currentAnswer, s.votes);
    forall p | p in s.players ensures r.1.scores[p] == s.scores[p] + (if p in res.correct then 1 else 0) {
      AwardPoints(s.scores, res.correct, p);
    }
    forall i | 0 <= i < |s.votes| ensures s.votes[i].voter in res.correct <==> Matches(s.currentAnswer, s.votes[i].guess) {
      ResolveSorts(s.currentAnswer, s.votes, i);
    }
    SortDescending(Standings(r.1));
    SortPermutes(Standings(r.1));
    forall k: nat ensures WithPoints(r.0.board, k) == WithPoints(Standings(r.1), k) {
      SortStable(Standings(r.1), k);
    }
  }

  /** There is at most one vote per player other than the turn player. */
  lemma VotesBounded(s: LobbyState)
    requires Inv(s)
    ensures |s.votes| <= |s.players| - 1
    ensures |s.votes| == |s.players| - 1 <==> Elems(Voters(s.votes)) == s.players - {s.currentHost}
  {
    NoDupCard(Voters(s.votes));
    SubsetCard(Elems(Voters(s.votes)), s.players - {s.currentHost});
  }

  /** The reply to a counted vote, and the results when it was the last one. */
  datatype Receipt = Receipt(voted: nat, needed: int, revealed: Option<Revealed>)

  /** `votes.set(user, guess)` for a player who is not the turn player and has not voted yet. */
  function AddVote(s: LobbyState, user: UserId, guess: bool): (r: LobbyState)
    requires Inv(s)
    requires user in s.players && user != s.currentHost && !HasVoted(s.votes, user)
    ensures Inv(r)
    ensures Voters(r.votes) == Voters(s.votes) + [user]
    ensures r == s.(votes := s.votes + [Vote(user, guess)])
  {
    var t := s.(votes := s.votes + [Vote(user, guess)]);
    assert Voters(t.votes) == Voters(s.votes) + [user];
    NoDupSnoc(Voters(s.votes), user);
    t
  }

  /** The vote button (after the lobby lookup). */
  function CastVote(s: LobbyState, user: UserId, guess: bool): (r: (Result<Receipt>, LobbyState))
    requires Inv(s)
    requires user in s.players
    ensures Inv(r.1)
  {
    if s.currentHost == user then (Err(IsCurrentTurnPlayer), s)
    else if HasVoted(s.votes, user) then (Err(AlreadyVoted), s)
    else
      var t := AddVote(s, user, guess);
      if |t.votes| == |t.players| - 1 then
        var (shown, u) := Reveal(t);
        (Ok(Receipt(|t.votes|, |t.players| - 1, Some(shown))), u)
      else (Ok(Receipt(|t.votes|, |t.players| - 1, None)), t)
  }

  /**
   * What a vote does: the turn player and repeat voters are refused and nothing changes; otherwise
   * the vote is appended, the reply counts the votes, and the round is revealed exactly when every
   * player but the turn player has now voted.
   */
  lemma CastVoteFacts(s: LobbyState, user: UserId, guess: bool)
    requires Inv(s)
    requires user in s.players
    ensures var (o, after) := CastVote(s, user, guess);
      && (o == Err(IsCurrentTurnPlayer) <==> user == s.currentHost)
      && (o == Err(AlreadyVoted) <==> user != s.currentHost && HasVoted(s.votes, user))
      && (o.Ok? <==> user != s.currentHost && !HasVoted(s.votes, user))
      && (o.Err? ==> after == s)
      && (o.Ok? ==> Inv(s.(votes := s.votes + [Vote(user, guess)])))
      && (o.Ok? ==> o.value.voted == |s.votes| + 1 && o.value.needed == |s.players| - 1)
      && (o.Ok? ==>
            (o.value.revealed.Some? <==> Elems(Voters(s.votes + [Vote(user, guess)])) == s.players - {s.currentHost}))
      && (o.Ok? && o.value.revealed.None? ==> after == s.(votes := s.votes + [Vote(user, guess)]))
      && (o.Ok? && o.value.revealed.Some? ==>
            (o.value.revealed.value, after) == Reveal(s.(votes := s.votes + [Vote(user, guess)])))
  {
    if s.currentHost != user && !HasVoted(s.votes, user) {
      VotesBounded(AddVote(s, user, guess));
    }
  }

  /** End game (after the lobby lookup): host only; the final ranking of the lobby's scores. */
  function EndGame(s: LobbyState, user: UserId): (r: Result<seq<Place>>)
    requires Inv(s)
    ensures r.Err? <==> user != s.hostId
    ensures r.Err? ==> r.error == NotHost
    ensures r.Ok? ==> r.value == FinalRanking(Standings(s))
  {
    if s.hostId != user then Err(NotHost) else Ok(FinalRanking(Standings(s)))
  }

  /** Every player appears in the final ranking, with their score, and there is one line per player. */
  lemma RankingListsEveryPlayer(s: LobbyState, p: UserId)
    requires Inv(s) && p in s.players
    ensures |FinalRanking(Standings(s))| == |s.players|
    ensures exists i :: 0 <= i < |s.players| && FinalRanking(Standings(s))[i] == Place(i + 1, p, s.scores[p])
  {
    PlayerCount(s);
    var board := Standings(s);
    var r := FinalRanking(board);
    var j :| 0 <= j < |s.playersOrder| && s.playersOrder[j] == p;
    assert board[j] == Entry(p, s.scores[p]);
    assert Entry(p, s.scores[p]) in multiset(Unlabel(r));
    var i :| 0 <= i < |r| && Unlabel(r)[i] == Entry(p, s.scores[p]);
    assert r[i] == Place(i + 1, p, s.scores[p]);
  }

  /** One line of `/lobby-status`. */
  datatype PlayerLine = PlayerLine(player: UserId, isHost: bool, points: nat)

  /** What `/lobby-status` reports, before it is rendered. */
  datatype Status = Status(code: Code, lines: seq<PlayerLine>, rounds: nat, inProgress: bool)

  /** One line per player, in join order. */
  function Lines(s: LobbyState): (lines: seq<PlayerLine>)
    requires Inv(s)
    ensures |lines| == |s.playersOrder|
    ensures forall i :: 0 <= i < |lines| ==> lines[i].player == s.playersOrder[i]
  {
    seq(|s.playersOrder|, i requires 0 <= i < |s.playersOrder| =>
      var p := s.playersOrder[i]; PlayerLine(p, p == s.hostId, s.scores[p]))
  }

  /** Every player has a line. */
  lemma LinesCover(s: LobbyState)
    requires Inv(s)
    ensures forall p :: p in s.players ==> exists i :: 0 <= i < |Lines(s)| && Lines(s)[i].player == p
  {
    forall p | p in s.players ensures exists i :: 0 <= i < |Lines(s)| && Lines(s)[i].player == p {
      var i :| 0 <= i < |s.playersOrder| && s.playersOrder[i] == p;
      assert Lines(s)[i].player == p;
    }
  }

  /** The players in join order, the host marked, with their points; rounds played; running or not. */
  function StatusOf(s: LobbyState): (r: Status)
    requires Inv(s)
    ensures |r.lines| == |s.players|
    ensures forall i :: 0 <= i < |r.lines| ==>
              && r.lines[i].player in s.players
              && r.lines[i].points == s.scores[r.lines[i].player]
              && (r.lines[i].isHost <==> r.lines[i].player == s.hostId)
    ensures forall p :: p in s.players ==> exists i :: 0 <= i < |r.lines| && r.lines[i].player == p
    ensures r.lines[0] == PlayerLine(s.hostId, true, s.scores[s.hostId])
    ensures r.rounds == s.currentRound && r.inProgress == s.gameActive
  {
    PlayerCount(s);
    LinesCover(s);
    Status(s.code, Lines(s), s.currentRound, s.gameActive)
  }

  /** What the round-start reply reports: the round number, whose turn it is and the drawn topic. */
  datatype RoundStart = RoundStart(round: nat, turnPlayer: UserId, topic: string)

  /**
   * The reply to a round start, read off the lobby `after` the step. When the step passed, `after`
   * is `before` with the round begun, so the reply names the next round, the rotation's player
   * for it, who is one of the lobby's players, and the drawn topic.
   */
  function Announce(o: Outcome, before: LobbyState, after: LobbyState, topic: string): (r: Result<RoundStart>)
    requires Inv(before)
    requires o.Pass? ==> after == BeginRound(before)
    ensures r.Ok? <==> o.Pass?
    ensures r.Ok? ==> r.value.round == before.currentRound + 1
    ensures r.Ok? ==> r.value.turnPlayer == TurnPlayer(before.playersOrder, before.currentRound + 1)
    ensures r.Ok? ==> r.value.turnPlayer in before.players && r.value.topic == topic
    ensures r.Err? ==> r.error == o.error
  {
    if o.Pass? then Ok(RoundStart(after.currentRound, after.currentHost, topic)) else Err(o.error)
  }

  /** `k` round starts in a row, with nobody joining in between. */
  ghost function BeginRounds(s: LobbyState, k: nat): (r: LobbyState)
    requires Inv(s)
    ensures Inv(r)
  {
    if k == 0 then s else BeginRound(BeginRounds(s, k - 1))
  }

  /** With a fixed turn order, the turn player of round `r` is `playersOrder[(r - 1) % |playersOrder|]`. */
  lemma {:induction false} RoundsRotate(s: LobbyState, k: nat)
    requires Inv(s) && k >= 1
    ensures BeginRounds(s, k).currentRound == s.currentRound + k
    ensures BeginRounds(s, k).playersOrder == s.playersOrder
    ensures BeginRounds(s, k).currentHost == TurnPlayer(s.playersOrder, s.currentRound + k)
  {
    if k > 1 {
      RoundsRotate(s, k - 1);
    }
  }

  lemma MulAtLeast(a: int, n: int)
    requires a >= 1 && n > 0
    ensures a * n >= n
  {
  }

  /** The remainder is the one `r` in `0 .. n - 1` with `x == q * n + r`. */
  lemma ModUnique(x: int, n: int, q: int, r: int)
    requires n > 0 && 0 <= r < n && x == q * n + r
    ensures x % n == r
  {
    var q0, r0 := x / n, x % n;
    assert x == q0 * n + r0;
    assert (q - q0) * n == r0 - r;
    if q > q0 {
      MulAtLeast(q - q0, n);
    } else if q < q0 {
      MulAtLeast(q0 - q, n);
    }
  }

  /** The rotation is periodic in the number of players. */
  lemma TurnPeriodic(order: seq<UserId>, round: nat)
    requires |order| > 0 && round >= 1
    ensures TurnPlayer(order, round + |order|) == TurnPlayer(order, round)
  {
    var n, x := |order|, round - 1;
    assert x == (x / n) * n + x % n;
    ModUnique(x + n, n, x / n + 1, x % n);
  }

  /** Any |order| consecutive rounds give every player a turn. */
  lemma EveryoneTakesATurn(order: seq<UserId>, round: nat, j: nat)
    requires |order| > 0 && round >= 1 && j < |order|
    ensures exists k :: round <= k < round + |order| && TurnPlayer(order, k) == order[j]
  {
    var n, a := |order|, round - 1;
    var d := (j - a) % n;
    var q := (j - a) / n;
    assert j - a == q * n + d;
    ModUnique(a + d, n, -q, j);
    var k := round + d;
    assert TurnPlayer(order, k) == order[j];
  }
}

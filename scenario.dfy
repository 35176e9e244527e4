/** Short games traced through the handlers' contracts alone: create, join, a round, its votes, the end. */
module Scenario {
  import opened Types
  import opened Seqs
  import opened RoundResults
  import opened Codes
  import opened Game
  import opened Handlers

  /** A whole game through the registry: set up, start, end. */
  method OneGame(h: UserId, p: UserId, q: UserId)
    requires h != p && q != h && q != p
  {
    var reg, lobby := CreateAndJoin(h, p);
    StartThenEnd(reg, lobby, h, p, q);
  }

  /** Create and join through the registry, with the code typed in either case. */
  method CreateAndJoin(h: UserId, p: UserId) returns (reg: Registry, lobby: Lobby)
    requires h != p
    ensures fresh(reg) && fresh(lobby) && reg.Valid()
    ensures reg.codes == ["K1"] && reg.lobbies == map["K1" := lobby]
    ensures lobby.State() == LobbyState("K1", h, {h, p}, [h, p], map[h := 0, p := 0], 0, false, h, None, None, [])
  {
    reg, lobby := Create(h);
    JoinTwice(reg, lobby, h, p);
  }

  /** A fresh registry; the drawn code is upper-cased. */
  method Create(h: UserId) returns (reg: Registry, lobby: Lobby)
    ensures fresh(reg) && fresh(lobby) && reg.Valid()
    ensures reg.codes == ["K1"] && reg.lobbies == map["K1" := lobby]
    ensures lobby.State() == NewLobby("K1", h)
  {
    reg := new Registry();
    assert ToUpper("k1") == "K1";
    var created := reg.CreateLobby(h, "k1");
    assert created == Ok("K1");
    lobby := reg.lobbies["K1"];
  }

  /** The guest joins with the code in lower case; a second join is refused. */
  method JoinTwice(reg: Registry, lobby: Lobby, h: UserId, p: UserId)
    requires h != p && reg.Valid()
    requires reg.codes == ["K1"] && reg.lobbies == map["K1" := lobby]
    requires lobby.State() == NewLobby("K1", h)
    modifies lobby
    ensures reg.Valid() && reg.codes == ["K1"] && reg.lobbies == map["K1" := lobby]
    ensures lobby.State() == LobbyState("K1", h, {h, p}, [h, p], map[h := 0, p := 0], 0, false, h, None, None, [])
  {
    assert ToUpper("k1") == "K1" && ToUpper("K1") == "K1";
    var joined := reg.JoinLobby("k1", p);
    assert joined == Pass;
    assert lobby.players == {h, p} && lobby.scores == map[h := 0, p := 0] && lobby.playersOrder == [h, p];
    var again := reg.JoinLobby("K1", p);
    assert again == Fail(AlreadyJoined);
  }

  /** Starting locks the lobby against joins; only the host can end it, and then the code is gone. */
  method StartThenEnd(reg: Registry, lobby: Lobby, h: UserId, p: UserId, q: UserId)
    requires h != p && q != h && q != p && reg.Valid()
    requires reg.codes == ["K1"] && reg.lobbies == map["K1" := lobby]
    requires lobby.State() == LobbyState("K1", h, {h, p}, [h, p], map[h := 0, p := 0], 0, false, h, None, None, [])
    modifies reg, lobby
  {
    StartLocks(reg, lobby, h, p, q);
    OnlyHostEnds(reg, lobby, h, p, q);
  }

  /** The host starts the first round; a latecomer can no longer join. */
  method StartLocks(reg: Registry, lobby: Lobby, h: UserId, p: UserId, q: UserId)
    requires h != p && q != h && q != p && reg.Valid()
    requires reg.codes == ["K1"] && reg.lobbies == map["K1" := lobby]
    requires lobby.State() == LobbyState("K1", h, {h, p}, [h, p], map[h := 0, p := 0], 0, false, h, None, None, [])
    modifies lobby
    ensures reg.Valid() && reg.codes == ["K1"] && reg.lobbies == map["K1" := lobby]
    ensures lobby.hostId == h && lobby.players == {h, p}
  {
    assert reg.FirstWithMember(h, 0) == Some("K1");
    var started := reg.StartRound(h, 0);
    assert started == Ok(RoundStart(1, h, Topics[0]));
    assert ToUpper("K1") == "K1";
    var late := reg.JoinLobby("K1", q);
    assert late == Fail(GameAlreadyActive);
  }

  /** A guest cannot end the game; the host can, and the code then finds nothing. */
  method OnlyHostEnds(reg: Registry, lobby: Lobby, h: UserId, p: UserId, q: UserId)
    requires h != p && q != h && q != p && reg.Valid()
    requires reg.codes == ["K1"] && reg.lobbies == map["K1" := lobby]
    requires lobby.hostId == h && lobby.players == {h, p}
    modifies reg
  {
    var early := reg.PressEnd("K1", p);
    assert early == Err(NotHost);
    assert reg.FirstWithMember(h, 0) == Some("K1");
    var ended := reg.EndGame(h);
    assert ended.Ok? && reg.lobbies == map[] && reg.codes == [];
    assert ToUpper("K1") == "K1";
    var after := reg.JoinLobby("K1", q);
    assert after == Fail(LobbyNotFound);
  }

  /** One round played on a single lobby: the guest guesses right and earns the only point. */
  method PlayRound(h: UserId, p: UserId)
    requires h != p
  {
    var lobby := new Lobby("K1", h);
    var joined := lobby.Join(p);
    assert joined == Pass;
    assert lobby.players == {h} + {p} && lobby.playersOrder == [h, p];
    assert |lobby.players| == 2;
    var started := lobby.StartRound(h);
    assert started == Pass;
    assert lobby.currentRound == 1 && lobby.currentHost == h && lobby.gameActive && lobby.votes == [];
    lobby.SubmitStatement("the moon is made of cheese", false);
    CloseRound(lobby, h, p);
  }

  /** The turn player may not vote; the one guest's correct vote closes the round. */
  method CloseRound(lobby: Lobby, h: UserId, p: UserId)
    requires h != p && lobby.Valid()
    requires lobby.State() == LobbyState("K1", h, {h, p}, [h, p], map[h := 0, p := 0], 1, true, h,
                                         Some("the moon is made of cheese"), Some(false), [])
    modifies lobby
  {
    ghost var s := lobby.State();
    CastVoteFacts(s, h, true);
    var self := lobby.CastVote(h, true);
    assert self == Err(IsCurrentTurnPlayer) && lobby.State() == s;
    assert Voters(s.votes + [Vote(p, false)]) == [p];
    assert Elems([p]) == {p};
    CastVoteFacts(s, p, false);
    var vote := lobby.CastVote(p, false);
    assert vote.Ok? && vote.value.revealed.Some?;
    ClosingVote(h, p);
    assert lobby.scores == map[h := 0, p := 1];
    assert !lobby.gameActive && lobby.votes == [] && lobby.currentStatement == None;
    assert vote.value.revealed.value.result == RoundResult([p], []);
  }

  /** The reveal after the guest's correct guess: one point to the guest, none to the host. */
  lemma ClosingVote(h: UserId, p: UserId)
    requires h != p
    ensures var t := LobbyState("K1", h, {h, p}, [h, p], map[h := 0, p := 0], 1, true, h,
                                Some("the moon is made of cheese"), Some(false), [Vote(p, false)]);
      && Inv(t)
      && Reveal(t).1 == t.(scores := map[h := 0, p := 1], currentStatement := None, currentAnswer := None,
                           votes := [], gameActive := false)
      && Reveal(t).0.result == RoundResult([p], [])
  {
    var t := LobbyState("K1", h, {h, p}, [h, p], map[h := 0, p := 0], 1, true, h,
                        Some("the moon is made of cheese"), Some(false), [Vote(p, false)]);
    assert Voters(t.votes) == [p];
    assert Inv(t);
    RevealFacts(t);
    assert !HasVoted(t.votes, h);
    assert Matches(t.currentAnswer, t.votes[0].guess);
    var scores := Reveal(t).1.scores;
    assert scores.Keys == {h, p} && scores[h] == 0 && scores[p] == 1;
    assert scores == map[h := 0, p := 1];
  }
}

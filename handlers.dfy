/**
 * The handlers of the bot with the transport removed: the lobby objects, updated in place, and the
 * process-wide registry of live lobbies with its created-lobbies counter.
 */
module Handlers {
  import opened Types
  import opened Seqs
  import opened Codes
  import opened RoundResults
  import opened Ranking
  import opened Game

  /** One lobby object, as built by `createLobby`. */
  class Lobby {
    const code: Code
    const hostId: UserId
    var players: set<UserId>
    var playersOrder: seq<UserId>
    var scores: map<UserId, nat>
    var currentRound: nat
    var gameActive: bool
    var currentHost: UserId
    var currentStatement: Option<string>
    var currentAnswer: Option<bool>
    var votes: seq<Vote>

    function State(): LobbyState
      reads this
    {
      LobbyState(code, hostId, players, playersOrder, scores, currentRound, gameActive,
                 currentHost, currentStatement, currentAnswer, votes)
    }

    ghost predicate Valid()
      reads this
    {
      Inv(State())
    }

    constructor (code: Code, user: UserId)
      ensures State() == NewLobby(code, user)
      ensures Valid()
    {
      this.code := code;
      hostId := user;
      players := {user};
      currentRound := 0;
      gameActive := false;
      currentStatement := None;
      currentAnswer := None;
      votes := [];
      scores := map[];
      currentHost := user;
      playersOrder := [user];
      new;
      scores := scores[user := 0];
    }

    method Join(user: UserId) returns (r: Outcome)
      requires Valid()
      modifies this
      ensures (r, State()) == Game.Join(old(State()), user)
      ensures Valid()
    {
      if user in players {
        return Fail(AlreadyJoined);
      }
      if gameActive {
        return Fail(GameAlreadyActive);
      }
      players := players + {user};
      scores := scores[user := 0];
      playersOrder := playersOrder + [user];
      r := Pass;
    }

    /** Advances the round and hands the turn to the next player in join order. */
    method BeginRound()
      requires Valid()
      modifies this
      ensures State() == Game.BeginRound(old(State()))
      ensures Valid()
    {
      currentRound := currentRound + 1;
      var index := (currentRound - 1) % |playersOrder|;
      currentHost := playersOrder[index];
      gameActive := true;
      votes := [];
    }

    method StartRound(user: UserId) returns (r: Outcome)
      requires Valid()
      modifies this
      ensures (r, State()) == Game.StartRound(old(State()), user)
      ensures Valid()
    {
      if hostId != user {
        return Fail(NotHost);
      }
      if |players| < 2 {
        return Fail(InsufficientPlayers);
      }
      BeginRound();
      r := Pass;
    }

    method NextRound(user: UserId) returns (r: Outcome)
      requires Valid()
      modifies this
      ensures (r, State()) == Game.NextRound(old(State()), user)
      ensures Valid()
    {
      if hostId != user {
        return Fail(NotHost);
      }
      if gameActive {
        return Fail(RoundAlreadyActive);
      }
      BeginRound();
      r := Pass;
    }

    method SubmitStatement(text: string, isTrue: bool)
      requires Valid()
      modifies this
      ensures State() == Game.SubmitStatement(old(State()), text, isTrue)
      ensures Valid()
    {
      currentStatement := Some(text);
      currentAnswer := Some(isTrue);
    }

    /** The loop of `revealResults`: one pass over the votes in insertion order, scoring right guesses. */
    method Tally() returns (res: RoundResult)
      requires forall i :: 0 <= i < |votes| ==> votes[i].voter in scores
      modifies this`scores
      ensures res == Resolve(currentAnswer, votes)
      ensures scores == Award(old(scores), res.correct)
    {
      var answer, all, board := currentAnswer, votes, scores;
      var correct: seq<UserId> := [];
      var wrong: seq<UserId> := [];
      var i := 0;
      while i < |all|
        modifies {}
        invariant 0 <= i <= |all|
        invariant RoundResult(correct, wrong) == Resolve(answer, all[..i])
        invariant forall q :: q in correct ==> q in scores
        invariant board == Award(scores, correct)
      {
        var v := all[i];
        TallyStep(answer, all, scores, i, correct, wrong);
        if Matches(answer, v.guess) {
          correct := correct + [v.voter];
          board := board[v.voter := board[v.voter] + 1];
        } else {
          wrong := wrong + [v.voter];
        }
        i := i + 1;
      }
      assert all[..i] == all;
      res := RoundResult(correct, wrong);
      scores := board;
    }

    /** `revealResults`: the tally, then the round's statement, answer and votes are cleared. */
    method RevealResults() returns (shown: Revealed)
      requires Valid()
      modifies this
      ensures (shown, State()) == Reveal(old(State()))
      ensures Valid()
    {
      ghost var before := State();
      var res := Tally();
      currentStatement := None;
      currentAnswer := None;
      votes := [];
      gameActive := false;
      ghost var after := before.(scores := Award(before.scores, res.correct), currentStatement := None,
                                 currentAnswer := None, votes := [], gameActive := false);
      assert State() == after;
      shown := Revealed(res, SortByPoints(Standings(State())));
      assert Reveal(before) == (shown, after);
    }

    /** The vote button: records the vote and resolves the round when it is the last one expected. */
    method CastVote(user: UserId, guess: bool) returns (r: Result<Receipt>)
      requires Valid()
      requires user in players
      modifies this
      ensures (r, State()) == Game.CastVote(old(State()), user, guess)
      ensures Valid()
    {
      if currentHost == user {
        return Err(IsCurrentTurnPlayer);
      }
      if HasVoted(votes, user) {
        return Err(AlreadyVoted);
      }
      ghost var added := AddVote(State(), user, guess);
      votes := votes + [Vote(user, guess)];
      assert State() == added;
      var voted := |votes|;
      var needed := |players| - 1;
      if voted == needed {
        var shown := RevealResults();
        r := Ok(Receipt(voted, needed, Some(shown)));
      } else {
        r := Ok(Receipt(voted, needed, None));
      }
    }
  }

  /** Every lobby of `m` is filed under its own code and keeps the lobby invariant. */
  ghost predicate AllValid(m: map<Code, Lobby>)
    reads m.Values
  {
    && (forall c :: c in m ==> m[c].code == c)
    && (forall c {:trigger m[c].Valid()} :: c in m ==> m[c].Valid())
  }

  /** Dropping an entry keeps the rest valid. */
  lemma AllValidWithout(m: map<Code, Lobby>, code: Code)
    requires AllValid(m)
    ensures AllValid(m - {code})
  {
  }

  /** The module-level `lobbies` Map with its key order, and `lobbyCountSinceUpdate`. */
  class Registry {
    var codes: seq<Code>             // the Map's keys in insertion order
    var lobbies: map<Code, Lobby>
    var created: nat

    ghost predicate Valid()
      reads this, lobbies.Values
    {
      && NoDup(codes)
      && (forall c :: c in codes <==> c in lobbies)
      && AllValid(lobbies)
    }

    constructor ()
      ensures Valid()
      ensures codes == [] && lobbies == map[] && created == 0
    {
      codes := [];
      lobbies := map[];
      created := 0;
    }

    /** The state of the lobby under `c`, which the registry keeps valid. */
    function StateOf(c: Code): (s: LobbyState)
      reads this, lobbies.Values
      requires Valid() && c in lobbies
      ensures Inv(s) && s == lobbies[c].State()
    {
      assert lobbies[c].Valid();
      lobbies[c].State()
    }

    /** The lobby object under `code`, the only one a button or form handler may change. */
    function Target(code: Code): set<object>
      reads this
    {
      if code in lobbies then {lobbies[code]} else {}
    }

    /** The first lobby, in Map order from position `from`, whose players include `user`. */
    function FirstWithMember(user: UserId, from: nat): (r: Option<Code>)
      reads this, lobbies.Values
      requires Valid()
      decreases |codes| - from
      ensures r.Some? ==> r.value in lobbies && user in lobbies[r.value].players
      ensures r.Some? ==> exists i :: from <= i < |codes| && codes[i] == r.value &&
                            forall j :: from <= j < i ==> user !in lobbies[codes[j]].players
      ensures r.None? ==> forall i :: from <= i < |codes| ==> user !in lobbies[codes[i]].players
    {
      if from >= |codes| then None
      else if user in lobbies[codes[from]].players then Some(codes[from])
      else FirstWithMember(user, from + 1)
    }

    /** The lobby object a slash command of `user` acts on. */
    function MemberFrame(user: UserId): set<object>
      reads this, lobbies.Values
      requires Valid()
    {
      match FirstWithMember(user, 0)
      case Some(c) => {lobbies[c]}
      case None => {}
    }

    /** The scan of `createLobby`: is `user` the host of any live lobby? */
    method HostsALobby(user: UserId) returns (b: bool)
      requires Valid()
      ensures b <==> exists c :: c in lobbies && lobbies[c].hostId == user
    {
      var i := 0;
      while i < |codes|
        invariant 0 <= i <= |codes|
        invariant forall j :: 0 <= j < i ==> lobbies[codes[j]].hostId != user
      {
        if lobbies[codes[i]].hostId == user {
          return true;
        }
        i := i + 1;
      }
      b := false;
    }

    /** The scan of `startRound`, `showLobbyStatus` and `endGame`: the first lobby holding `user`. */
    method FindByMember(user: UserId) returns (r: Option<Code>)
      requires Valid()
      ensures r == FirstWithMember(user, 0)
    {
      var i := 0;
      while i < |codes|
        invariant 0 <= i <= |codes|
        invariant FirstWithMember(user, i) == FirstWithMember(user, 0)
      {
        if user in lobbies[codes[i]].players {
          return Some(codes[i]);
        }
        i := i + 1;
      }
      r := None;
    }

    /** `createLobby`; `drawn` is the random base-36 text that `generateLobbyCode` upper-cases. */
    method CreateLobby(user: UserId, drawn: string) returns (r: Result<Code>)
      requires Valid()
      modifies this
      ensures Valid()
      ensures r.Err? <==> exists c :: c in old(lobbies) && old(lobbies)[c].hostId == user
      ensures r.Err? ==> r.error == AlreadyHosting
      ensures r.Err? ==> codes == old(codes) && lobbies == old(lobbies) && created == old(created)
      ensures r.Ok? ==> r.value == ToUpper(drawn) && r.value in lobbies && fresh(lobbies[r.value])
      ensures r.Ok? ==> lobbies[r.value].State() == NewLobby(r.value, user)
      ensures r.Ok? ==> lobbies == old(lobbies)[r.value := lobbies[r.value]]
      ensures r.Ok? ==> codes == if r.value in old(codes) then old(codes) else old(codes) + [r.value]
      ensures r.Ok? ==> created == old(created) + 1
    {
      var code := ToUpper(drawn);
      var hosting := HostsALobby(user);
      if hosting {
        return Err(AlreadyHosting);
      }
      var lobby := new Lobby(code, user);
      if code !in lobbies {
        NoDupSnoc(codes, code);
        codes := codes + [code];
      }
      lobbies := lobbies[code := lobby];
      created := created + 1;
      r := Ok(code);
    }

    /** `joinLobby`: the typed code is upper-cased before the lookup. */
    method JoinLobby(typed: string, user: UserId) returns (r: Outcome)
      requires Valid()
      modifies Target(ToUpper(typed))
      ensures Valid()
      ensures ToUpper(typed) !in lobbies ==> r == Fail(LobbyNotFound)
      ensures ToUpper(typed) in lobbies ==>
                (r, lobbies[ToUpper(typed)].State()) == Game.Join(old(StateOf(ToUpper(typed))), user)
    {
      var code := ToUpper(typed);
      if code !in lobbies {
        return Fail(LobbyNotFound);
      }
      r := lobbies[code].Join(user);
    }
  
    /** Slash `start-round`: the requester's first lobby, then the host and player-count checks. */
    method StartRound(user: UserId, pick: nat) returns (r: Result<RoundStart>)
      requires Valid()
      requires pick < |Topics|
      modifies MemberFrame(user)
      ensures Valid()
      ensures old(FirstWithMember(user, 0)).None? ==> r == Err(NotInLobby)
      ensures old(FirstWithMember(user, 0)).Some? ==>
                var c := old(FirstWithMember(user, 0)).value;
                var (o, after) := Game.StartRound(old(StateOf(c)), user);
                lobbies[c].State() == after && r == Announce(o, old(StateOf(c)), after, Topics[pick])
    {
      var found := FindByMember(user);
      if found.None? {
        return Err(NotInLobby);
      }
      var lobby := lobbies[found.value];
      var o := lobby.StartRound(user);
      if o.Fail? {
        return Err(o.error);
      }
      var topic := Topics[pick];
      r := Ok(RoundStart(lobby.currentRound, lobby.currentHost, topic));
    }

    /** The "next" button: the lobby named on the button, then the host and round-running checks. */
    method PressNext(code: Code, user: UserId, pick: nat) returns (r: Result<RoundStart>)
      requires Valid()
      requires pick < |Topics|
      modifies Target(code)
      ensures Valid()
      ensures code !in lobbies ==> r == Err(LobbyNotFound)
      ensures code in lobbies ==>
                var (o, after) := Game.NextRound(old(StateOf(code)), user);
                lobbies[code].State() == after && r == Announce(o, old(StateOf(code)), after, Topics[pick])
    {
      if code !in lobbies {
        return Err(LobbyNotFound);
      }
      var lobby := lobbies[code];
      var o := lobby.NextRound(user);
      if o.Fail? {
        return Err(o.error);
      }
      var topic := Topics[pick];
      r := Ok(RoundStart(lobby.currentRound, lobby.currentHost, topic));
    }

    /** `/lobby-status`: what the status reply shows for the requester's first lobby. */
    method LobbyStatus(user: UserId) returns (r: Result<Status>)
      requires Valid()
      ensures FirstWithMember(user, 0).None? ==> r == Err(NotInLobby)
      ensures FirstWithMember(user, 0).Some? ==> r == Ok(StatusOf(StateOf(FirstWithMember(user, 0).value)))
    {
      var found := FindByMember(user);
      if found.None? {
        return Err(NotInLobby);
      }
      r := Ok(StatusOf(StateOf(found.value)));
    }

    /** The statement button: the form opens, carrying the chosen truth value, for the turn player only. */
    method PressStatement(code: Code, user: UserId, isTrue: bool) returns (r: Result<bool>)
      requires Valid()
      ensures r.Ok? <==> code in lobbies && lobbies[code].currentHost == user
      ensures r.Ok? ==> r.value == isTrue
      ensures r.Err? ==> r.error == if code in lobbies then NotYourTurn else LobbyNotFound
    {
      if code !in lobbies {
        return Err(LobbyNotFound);
      }
      if lobbies[code].currentHost != user {
        return Err(NotYourTurn);
      }
      r := Ok(isTrue);
    }

    /** The statement form: no lookup check, so a code that is gone makes the handler throw. */
    method SubmitStatement(code: Code, text: string, isTrue: bool) returns (r: Outcome)
      requires Valid()
      modifies Target(code)
      ensures Valid()
      ensures code !in lobbies ==> r == Fail(HandlerThrows)
      ensures code in lobbies ==>
                r == Pass && lobbies[code].State() == Game.SubmitStatement(old(StateOf(code)), text, isTrue)
    {
      if code !in lobbies {
        return Fail(HandlerThrows);
      }
      lobbies[code].SubmitStatement(text, isTrue);
      r := Pass;
    }

    /** The vote button. Votes come only from the lobby's players (see the precondition). */
    method PressVote(code: Code, user: UserId, guess: bool) returns (r: Result<Receipt>)
      requires Valid()
      requires code in lobbies ==> user in lobbies[code].players
      modifies Target(code)
      ensures Valid()
      ensures code !in lobbies ==> r == Err(LobbyNotFound)
      ensures code in lobbies ==>
                (r, lobbies[code].State()) == Game.CastVote(old(StateOf(code)), user, guess)
    {
      if code !in lobbies {
        return Err(LobbyNotFound);
      }
      r := lobbies[code].CastVote(user, guess);
    }

    /** `lobbies.delete(code)`. */
    method Remove(code: Code)
      requires Valid()
      requires code in lobbies
      modifies this`lobbies, this`codes
      ensures Valid()
      ensures lobbies == old(lobbies) - {code} && codes == Without(old(codes), code) && created == old(created)
    {
      WithoutKeys(codes, lobbies.Keys, code);
      AllValidWithout(lobbies, code);
      lobbies := lobbies - {code};
      codes := Without(codes, code);
    }

    /** Slash `end-game`: the requester's first lobby, host only; the lobby is then removed. */
    method EndGame(user: UserId) returns (r: Result<seq<Place>>)
      requires Valid()
      modifies this
      ensures Valid()
      ensures created == old(created)
      ensures old(FirstWithMember(user, 0)).None? ==> r == Err(NotInLobby)
      ensures old(FirstWithMember(user, 0)).Some? ==>
                r == Game.EndGame(old(StateOf(FirstWithMember(user, 0).value)), user)
      ensures r.Err? ==> lobbies == old(lobbies) && codes == old(codes)
      ensures r.Ok? ==>
                var c := old(FirstWithMember(user, 0)).value;
                lobbies == old(lobbies) - {c} && codes == Without(old(codes), c)
    {
      var found := FindByMember(user);
      if found.None? {
        return Err(NotInLobby);
      }
      var code := found.value;
      r := Game.EndGame(StateOf(code), user);
      if r.Ok? {
        Remove(code);
      }
    }

    /** The end-game button: the lobby named on the button, host only; the lobby is then removed. */
    method PressEnd(code: Code, user: UserId) returns (r: Result<seq<Place>>)
      requires Valid()
      modifies this
      ensures Valid()
      ensures created == old(created)
      ensures code !in old(lobbies) ==> r == Err(LobbyNotFound)
      ensures code in old(lobbies) ==> r == Game.EndGame(old(StateOf(code)), user)
      ensures r.Err? ==> lobbies == old(lobbies) && codes == old(codes)
      ensures r.Ok? ==> lobbies == old(lobbies) - {code} && codes == Without(old(codes), code)
    {
      if code !in lobbies {
        return Err(LobbyNotFound);
      }
      r := Game.EndGame(StateOf(code), user);
      if r.Ok? {
        Remove(code);
      }
    }
  }
}

/** The round result calculator of `revealResults`: split the voters, award the points. */
module RoundResults {
  import opened Types
  import opened Seqs

  /** One entry of a lobby's `votes` Map: who voted and what they guessed. */
  datatype Vote = Vote(voter: UserId, guess: bool)

  /** The two lists `revealResults` builds, in the order the votes came in. */
  datatype RoundResult = RoundResult(correct: seq<UserId>, wrong: seq<UserId>)

  function Voters(votes: seq<Vote>): seq<UserId> {
    seq(|votes|, i requires 0 <= i < |votes| => votes[i].voter)
  }

  predicate HasVoted(votes: seq<Vote>, user: UserId) {
    user in Voters(votes)
  }

  /** `vote === correctAnswer` where the answer may still be `null`: a guess only matches a stored answer. */
  predicate Matches(answer: Option<bool>, guess: bool)
    ensures answer.None? ==> !Matches(answer, guess)
    ensures answer.Some? ==> (Matches(answer, guess) <==> guess == answer.value)
  {
    answer == Some(guess)
  }

  /** Walks the votes in insertion order, putting each voter in `correct` or `wrong`. */
  function Resolve(answer: Option<bool>, votes: seq<Vote>): (r: RoundResult)
    ensures |r.correct| + |r.wrong| == |votes|
    ensures forall p :: p in r.correct ==> p in Voters(votes)
    ensures forall p :: p in r.wrong ==> p in Voters(votes)
  {
    if votes == [] then RoundResult([], [])
    else
      var init := votes[..|votes| - 1];
      var last := votes[|votes| - 1];
      var r := Resolve(answer, init);
      assert Voters(votes) == Voters(init) + [last.voter];
      if Matches(answer, last.guess) then RoundResult(r.correct + [last.voter], r.wrong)
      else RoundResult(r.correct, r.wrong + [last.voter])
  }

  /** One more vote, in the order the votes are walked. */
  lemma ResolveStep(answer: Option<bool>, votes: seq<Vote>, i: nat)
    requires i < |votes|
    ensures Resolve(answer, votes[..i + 1]) ==
      var r := Resolve(answer, votes[..i]);
      if Matches(answer, votes[i].guess) then RoundResult(r.correct + [votes[i].voter], r.wrong)
      else RoundResult(r.correct, r.wrong + [votes[i].voter])
  {
    assert votes[..i + 1][..i] == votes[..i];
  }

  /** Resolution is a partition: every voter lands in exactly one list. */
  lemma {:induction false} ResolvePartitions(answer: Option<bool>, votes: seq<Vote>)
    ensures multiset(Resolve(answer, votes).correct + Resolve(answer, votes).wrong) == multiset(Voters(votes))
  {
    if votes != [] {
      var init := votes[..|votes| - 1];
      ResolvePartitions(answer, init);
      assert Voters(votes) == Voters(init) + [votes[|votes| - 1].voter];
    }
  }

  /** A voter lands in `correct` exactly when their guess equals the stated answer, otherwise in `wrong`. */
  lemma {:induction false} ResolveSorts(answer: Option<bool>, votes: seq<Vote>, i: nat)
    requires NoDup(Voters(votes))
    requires i < |votes|
    ensures votes[i].voter in Resolve(answer, votes).correct <==> Matches(answer, votes[i].guess)
    ensures votes[i].voter in Resolve(answer, votes).wrong <==> !Matches(answer, votes[i].guess)
  {
    var n := |votes| - 1;
    var init := votes[..n];
    assert Voters(votes) == Voters(init) + [votes[n].voter];
    NoDupSnoc(Voters(init), votes[n].voter);
    if i < n {
      assert votes[i] == init[i];
      assert Voters(init)[i] == votes[i].voter;
      ResolveSorts(answer, init, i);
      assert votes[i].voter != votes[n].voter by {
        assert Voters(votes)[i] == votes[i].voter && Voters(votes)[n] == votes[n].voter;
      }
    }
  }

  /** Insertion order is kept: resolving two batches of votes concatenates their lists. */
  lemma {:induction false} ResolveAppend(answer: Option<bool>, earlier: seq<Vote>, later: seq<Vote>)
    ensures Resolve(answer, earlier + later).correct == Resolve(answer, earlier).correct + Resolve(answer, later).correct
    ensures Resolve(answer, earlier + later).wrong == Resolve(answer, earlier).wrong + Resolve(answer, later).wrong
  {
    if later == [] {
      assert earlier + later == earlier;
    } else {
      var m := |later| - 1;
      ResolveAppend(answer, earlier, later[..m]);
      assert (earlier + later)[..|earlier + later| - 1] == earlier + later[..m];
      assert (earlier + later)[|earlier + later| - 1] == later[m];
    }
  }

  /** Before any statement is stored no guess can match, so nobody scores. */
  lemma {:induction false} ResolveWithoutAnswer(votes: seq<Vote>)
    ensures Resolve(None, votes).correct == []
    ensures Resolve(None, votes).wrong == Voters(votes)
  {
    if votes != [] {
      var init := votes[..|votes| - 1];
      ResolveWithoutAnswer(init);
      assert Voters(votes) == Voters(init) + [votes[|votes| - 1].voter];
    }
  }

  /** Voters are distinct, so each list is too. */
  lemma {:induction false} ResolveNoDup(answer: Option<bool>, votes: seq<Vote>)
    requires NoDup(Voters(votes))
    ensures NoDup(Resolve(answer, votes).correct) && NoDup(Resolve(answer, votes).wrong)
  {
    if votes != [] {
      var n := |votes| - 1;
      var init := votes[..n];
      assert Voters(votes) == Voters(init) + [votes[n].voter];
      NoDupSnoc(Voters(init), votes[n].voter);
      ResolveNoDup(answer, init);
    }
  }

  /** Answer TRUE with votes A:true, B:false, C:true: A and C guessed right, B guessed wrong. */
  lemma ResolveExample(a: UserId, b: UserId, c: UserId)
    ensures Resolve(Some(true), [Vote(a, true), Vote(b, false), Vote(c, true)]) == RoundResult([a, c], [b])
  {
    var v := [Vote(a, true), Vote(b, false), Vote(c, true)];
    assert v[..2] == [Vote(a, true), Vote(b, false)];
    assert v[..2][..1] == [Vote(a, true)];
    assert [Vote(a, true)][..0] == [];
    assert Resolve(Some(true), [Vote(a, true)]) == RoundResult([a], []);
    assert Resolve(Some(true), v[..2]) == RoundResult([a], [b]);
  }

  /** `scores.set(p, scores.get(p) + 1)` for each winner in turn. */
  function Award(scores: map<UserId, nat>, winners: seq<UserId>): (r: map<UserId, nat>)
    requires forall p :: p in winners ==> p in scores
    ensures r.Keys == scores.Keys
  {
    if winners == [] then scores
    else
      var t := Award(scores, winners[..|winners| - 1]);
      var p := winners[|winners| - 1];
      t[p := t[p] + 1]
  }

  lemma AwardStep(scores: map<UserId, nat>, winners: seq<UserId>, p: UserId)
    requires forall q :: q in winners ==> q in scores
    requires p in scores
    ensures Award(scores, winners + [p]) == Award(scores, winners)[p := Award(scores, winners)[p] + 1]
  {
    var w := winners + [p];
    assert w != [] && w[|w| - 1] == p;
    assert w[..|w| - 1] == winners;
  }

  /** Each distinct winner gains exactly one point; every other score is unchanged. */
  lemma {:induction false} AwardPoints(scores: map<UserId, nat>, winners: seq<UserId>, p: UserId)
    requires forall q :: q in winners ==> q in scores
    requires NoDup(winners)
    requires p in scores
    ensures Award(scores, winners)[p] == scores[p] + (if p in winners then 1 else 0)
  {
    if winners != [] {
      var n := |winners| - 1;
      var init := winners[..n];
      assert winners == init + [winners[n]];
      NoDupSnoc(init, winners[n]);
      AwardPoints(scores, init, p);
    }
  }

  /** One step of the tally loop: the next vote extends the lists and, for a right guess, the scores. */
  lemma TallyStep(answer: Option<bool>, votes: seq<Vote>, scores: map<UserId, nat>, i: nat,
                  correct: seq<UserId>, wrong: seq<UserId>)
    requires i < |votes|
    requires forall j :: 0 <= j < |votes| ==> votes[j].voter in scores
    requires RoundResult(correct, wrong) == Resolve(answer, votes[..i])
    requires forall q :: q in correct ==> q in scores
    ensures votes[i].voter in scores
    ensures Matches(answer, votes[i].guess) ==>
              && Resolve(answer, votes[..i + 1]) == RoundResult(correct + [votes[i].voter], wrong)
              && Award(scores, correct + [votes[i].voter]) ==
                 Award(scores, correct)[votes[i].voter := Award(scores, correct)[votes[i].voter] + 1]
    ensures !Matches(answer, votes[i].guess) ==>
              Resolve(answer, votes[..i + 1]) == RoundResult(correct, wrong + [votes[i].voter])
  {
    ResolveStep(answer, votes, i);
    AwardStep(scores, correct, votes[i].voter);
  }
}

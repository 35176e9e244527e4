/** The score board: the `scores` entries sorted by points, highest first, stable on ties. */
module Ranking {
  import opened Types

  /** One `[player, points]` entry of a lobby's `scores` Map. */
  datatype Entry = Entry(player: UserId, points: nat)

  /** One line of the final ranking: a 1-based position, the player and their points. */
  datatype Place = Place(position: nat, player: UserId, points: nat)

  predicate Descending(s: seq<Entry>) {
    forall i, j :: 0 <= i < j < |s| ==> s[i].points >= s[j].points
  }

  /** The entries that have exactly `k` points, in their order in `s`. */
  function WithPoints(s: seq<Entry>, k: nat): seq<Entry> {
    if s == [] then []
    else (if s[0].points == k then [s[0]] else []) + WithPoints(s[1..], k)
  }

  /** Puts `e` in front of the first entry that does not outscore it, so ahead of its ties. */
  function Insert(e: Entry, s: seq<Entry>): (r: seq<Entry>)
    ensures |r| == |s| + 1
  {
    if s == [] || s[0].points <= e.points then [e] + s
    else [s[0]] + Insert(e, s[1..])
  }

  /** `entries.sort((a, b) => b[1] - a[1])`, stable as `Array.prototype.sort` is. */
  function SortByPoints(s: seq<Entry>): (r: seq<Entry>)
    ensures |r| == |s|
  {
    if s == [] then [] else Insert(s[0], SortByPoints(s[1..]))
  }

  lemma {:induction false} InsertPermutes(e: Entry, s: seq<Entry>)
    ensures multiset(Insert(e, s)) == multiset(s) + multiset{e}
  {
    if !(s == [] || s[0].points <= e.points) {
      InsertPermutes(e, s[1..]);
      assert s == [s[0]] + s[1..];
    }
  }

  predicate AtMost(s: seq<Entry>, bound: nat) {
    forall i :: 0 <= i < |s| ==> s[i].points <= bound
  }

  lemma {:induction false} InsertAtMost(e: Entry, s: seq<Entry>, bound: nat)
    requires AtMost(s, bound) && e.points <= bound
    ensures AtMost(Insert(e, s), bound)
  {
    if !(s == [] || s[0].points <= e.points) {
      InsertAtMost(e, s[1..], bound);
      var r := [s[0]] + Insert(e, s[1..]);
      assert forall i :: 0 < i < |r| ==> r[i] == Insert(e, s[1..])[i - 1];
    }
  }

  lemma {:induction false} InsertDescending(e: Entry, s: seq<Entry>)
    requires Descending(s)
    ensures Descending(Insert(e, s))
  {
    if s == [] || s[0].points <= e.points {
      var r := [e] + s;
      assert forall i :: 0 < i < |r| ==> r[i] == s[i - 1];
    } else {
      var rest := Insert(e, s[1..]);
      InsertDescending(e, s[1..]);
      InsertAtMost(e, s[1..], s[0].points);
      var r := [s[0]] + rest;
      assert forall i :: 0 < i < |r| ==> r[i] == rest[i - 1];
    }
  }

  lemma {:induction false} InsertKeepsTies(e: Entry, s: seq<Entry>, k: nat)
    ensures WithPoints(Insert(e, s), k) == (if e.points == k then [e] else []) + WithPoints(s, k)
  {
    var mine: seq<Entry> := if e.points == k then [e] else [];
    if s == [] || s[0].points <= e.points {
      assert ([e] + s)[1..] == s;
    } else {
      var rest := Insert(e, s[1..]);
      InsertKeepsTies(e, s[1..], k);
      var head: seq<Entry> := if s[0].points == k then [s[0]] else [];
      assert ([s[0]] + rest)[1..] == rest;
      assert WithPoints(Insert(e, s), k) == head + (mine + WithPoints(s[1..], k));
      assert WithPoints(s, k) == head + WithPoints(s[1..], k);
      assert head == [] || mine == [];
    }
  }

  /** The sorted board is ordered by non-increasing points. */
  lemma {:induction false} SortDescending(s: seq<Entry>)
    ensures Descending(SortByPoints(s))
  {
    if s != [] {
      SortDescending(s[1..]);
      InsertDescending(s[0], SortByPoints(s[1..]));
    }
  }

  /** The sorted board holds exactly the entries it was given. */
  lemma {:induction false} SortPermutes(s: seq<Entry>)
    ensures multiset(SortByPoints(s)) == multiset(s)
  {
    if s != [] {
      SortPermutes(s[1..]);
      InsertPermutes(s[0], SortByPoints(s[1..]));
      assert s == [s[0]] + s[1..];
    }
  }

  /** Ties keep their order: the players with `k` points appear as they did in `scores`. */
  lemma {:induction false} SortStable(s: seq<Entry>, k: nat)
    ensures WithPoints(SortByPoints(s), k) == WithPoints(s, k)
  {
    if s != [] {
      SortStable(s[1..], k);
      InsertKeepsTies(s[0], SortByPoints(s[1..]), k);
    }
  }

  function Unlabel(r: seq<Place>): seq<Entry> {
    seq(|r|, i requires 0 <= i < |r| => Entry(r[i].player, r[i].points))
  }

  /** The final ranking: the sorted entries, labelled with positions counted from 1. */
  function FinalRanking(entries: seq<Entry>): (r: seq<Place>)
    ensures |r| == |entries|
    ensures forall i :: 0 <= i < |r| ==> r[i].position == i + 1
    ensures Descending(Unlabel(r))
    ensures multiset(Unlabel(r)) == multiset(entries)
    ensures forall k: nat :: WithPoints(Unlabel(r), k) == WithPoints(entries, k)
  {
    var sorted := SortByPoints(entries);
    SortDescending(entries);
    SortPermutes(entries);
    var r := seq(|sorted|, i requires 0 <= i < |sorted| => Place(i + 1, sorted[i].player, sorted[i].points));
    assert Unlabel(r) == sorted;
    assert forall k: nat :: WithPoints(Unlabel(r), k) == WithPoints(entries, k) by {
      forall k: nat ensures WithPoints(Unlabel(r), k) == WithPoints(entries, k) {
        SortStable(entries, k);
      }
    }
    r
  }
}

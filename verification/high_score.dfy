/** The leaderboard: a list of (name, time) entries kept sorted by time,
    lower being better, and capped at ten (Assets/Scripts/HighScore.cs).
    Loading and saving the list are file I/O and not part of this model. */
module HighScore {
  import opened Common

  /** How many entries the leaderboard keeps. */
  const MaxScores: nat := 10

  datatype Entry = Entry(playerName: string, score: real)

  /** The entry of the parameterless constructor. */
  const DefaultEntry: Entry := Entry("John Doe", 100.0)

  /** The name stored for a player who gave none. */
  const AnonymousName: string := "Anonymous"

  /** The list of a fresh `HighScoreData`: ten default entries for a dummy
      board, empty otherwise. */
  function HighScoreData(dummy: bool): (r: seq<Entry>)
    ensures dummy ==> |r| == MaxScores && forall i :: 0 <= i < |r| ==> r[i] == DefaultEntry
    ensures !dummy ==> r == []
  {
    if dummy then seq(MaxScores, _ => DefaultEntry) else []
  }

  /** .NET `char.IsWhiteSpace`: the Unicode space separators, the line and
      paragraph separators, and U+0009-U+000D, U+0085, U+00A0. */
  predicate IsWhiteSpace(c: char)
  {
    c == ' ' || ('\t' <= c <= '\r') || c == '\U{0085}' || c == '\U{00A0}' || c == '\U{1680}'
    || ('\U{2000}' <= c <= '\U{200A}') || c == '\U{2028}' || c == '\U{2029}' || c == '\U{202F}'
    || c == '\U{205F}' || c == '\U{3000}'
  }

  /** `string.IsNullOrWhiteSpace`, with `None` for a null reference. */
  predicate IsNullOrWhiteSpace(name: Option<string>)
  {
    match name
    case None => true
    case Some(s) => forall i :: 0 <= i < |s| ==> IsWhiteSpace(s[i])
  }

  /** The name actually stored for an entry. */
  function StoredName(name: Option<string>): (r: string)
    ensures IsNullOrWhiteSpace(name) ==> r == AnonymousName
    ensures !IsNullOrWhiteSpace(name) ==> r == name.value && exists i :: 0 <= i < |r| && !IsWhiteSpace(r[i])
  {
    if IsNullOrWhiteSpace(name) then AnonymousName else name.value
  }

  ghost predicate SortedByScore(xs: seq<Entry>)
  {
    forall i, j :: 0 <= i < j < |xs| ==> xs[i].score <= xs[j].score
  }

  /** Inserts `e` behind every leading entry whose score is not greater. */
  function InsertByScore(sorted: seq<Entry>, e: Entry): (r: seq<Entry>)
    ensures |r| == |sorted| + 1
    decreases |sorted|
  {
    if |sorted| == 0 then [e]
    else if e.score < sorted[0].score then [e] + sorted
    else [sorted[0]] + InsertByScore(sorted[1..], e)
  }

  /** Where `InsertByScore` puts `e`. */
  function InsertIndex(sorted: seq<Entry>, e: Entry): (k: nat)
    ensures k <= |sorted|
    decreases |sorted|
  {
    if |sorted| == 0 then 0
    else if e.score < sorted[0].score then 0
    else 1 + InsertIndex(sorted[1..], e)
  }

  /** `InsertByScore` splits the list at `InsertIndex`: everything before has
      a score <= e.score (so `e` goes after its ties), and in a sorted list
      everything after has a greater score. */
  lemma {:induction false} InsertSplits(sorted: seq<Entry>, e: Entry)
    ensures var k := InsertIndex(sorted, e);
            && InsertByScore(sorted, e) == sorted[..k] + [e] + sorted[k..]
            && (forall i :: 0 <= i < k ==> sorted[i].score <= e.score)
            && (SortedByScore(sorted) ==> forall i :: k <= i < |sorted| ==> e.score < sorted[i].score)
    decreases |sorted|
  {
    if |sorted| > 0 && e.score >= sorted[0].score {
      var t := sorted[1..];
      InsertSplits(t, e);
      var k := InsertIndex(t, e);
      assert sorted[..k + 1] == [sorted[0]] + t[..k];
      assert sorted[k + 1..] == t[k..];
      if SortedByScore(sorted) {
        assert SortedByScore(t);
      }
    }
  }

  lemma InsertKeepsContents(sorted: seq<Entry>, e: Entry)
    ensures multiset(InsertByScore(sorted, e)) == multiset(sorted) + multiset{e}
  {
    InsertSplits(sorted, e);
    var k := InsertIndex(sorted, e);
    assert sorted == sorted[..k] + sorted[k..];
  }

  /** A sorted list stays sorted under an entry whose score is at most
      every score in it. */
  lemma SortedCons(x: Entry, ys: seq<Entry>)
    requires SortedByScore(ys)
    requires forall i :: 0 <= i < |ys| ==> x.score <= ys[i].score
    ensures SortedByScore([x] + ys)
  {
    var r := [x] + ys;
    forall i, j | 0 <= i < j < |r|
      ensures r[i].score <= r[j].score
    {
      assert r[j] == ys[j - 1];
      if i > 0 {
        assert r[i] == ys[i - 1];
      }
    }
  }

  lemma {:induction false} InsertKeepsSorted(sorted: seq<Entry>, e: Entry)
    requires SortedByScore(sorted)
    ensures SortedByScore(InsertByScore(sorted, e))
    decreases |sorted|
  {
    if |sorted| == 0 {
    } else if e.score < sorted[0].score {
      SortedCons(e, sorted);
    } else {
      var t := sorted[1..];
      assert SortedByScore(t);
      InsertKeepsSorted(t, e);
      InsertKeepsContents(t, e);
      var r := InsertByScore(t, e);
      forall i | 0 <= i < |r|
        ensures sorted[0].score <= r[i].score
      {
        assert r[i] in multiset(r);
        assert r[i] in multiset(t) || r[i] == e;
        if r[i] != e {
          var j :| 0 <= j < |t| && t[j] == r[i];
          assert sorted[j + 1] == t[j];
        }
      }
      SortedCons(sorted[0], r);
    }
  }

  lemma InsertKeepsSortedAndContents(sorted: seq<Entry>, e: Entry)
    requires SortedByScore(sorted)
    ensures SortedByScore(InsertByScore(sorted, e))
    ensures multiset(InsertByScore(sorted, e)) == multiset(sorted) + multiset{e}
  {
    InsertKeepsContents(sorted, e);
    InsertKeepsSorted(sorted, e);
  }

  /** The stable ascending sort by score (LINQ `OrderBy`), as an insertion
      sort over the list from the front. */
  function SortByScore(xs: seq<Entry>): (r: seq<Entry>)
    ensures |r| == |xs|
    decreases |xs|
  {
    if |xs| == 0 then []
    else InsertByScore(SortByScore(xs[..|xs| - 1]), xs[|xs| - 1])
  }

  /** The sort yields an ascending permutation of its input. */
  lemma {:induction false} SortByScoreSortsAndPermutes(xs: seq<Entry>)
    ensures SortedByScore(SortByScore(xs))
    ensures multiset(SortByScore(xs)) == multiset(xs)
    ensures |SortByScore(xs)| == |xs|
    decreases |xs|
  {
    if |xs| > 0 {
      var init, last := xs[..|xs| - 1], xs[|xs| - 1];
      var sortedInit := SortByScore(init);
      SortByScoreSortsAndPermutes(init);
      InsertKeepsSortedAndContents(sortedInit, last);
      assert SortByScore(xs) == InsertByScore(sortedInit, last);
      assert multiset(xs) == multiset(init) + multiset{last} by {
        assert xs == init + [last];
      }
    }
  }

  /** The entries with score `v`, in list order. */
  function WithScore(xs: seq<Entry>, v: real): seq<Entry>
    decreases |xs|
  {
    if |xs| == 0 then []
    else (if xs[0].score == v then [xs[0]] else []) + WithScore(xs[1..], v)
  }

  lemma {:induction false} WithScoreAppend(xs: seq<Entry>, ys: seq<Entry>, v: real)
    ensures WithScore(xs + ys, v) == WithScore(xs, v) + WithScore(ys, v)
    decreases |xs|
  {
    if |xs| > 0 {
      assert (xs + ys)[1..] == xs[1..] + ys;
      WithScoreAppend(xs[1..], ys, v);
    } else {
      assert xs + ys == ys;
    }
  }

  lemma {:induction false} WithScoreAllGreater(xs: seq<Entry>, v: real)
    requires forall i :: 0 <= i < |xs| ==> v < xs[i].score
    ensures WithScore(xs, v) == []
    decreases |xs|
  {
    if |xs| > 0 {
      WithScoreAllGreater(xs[1..], v);
    }
  }

  lemma InsertIsStable(sorted: seq<Entry>, e: Entry, v: real)
    requires SortedByScore(sorted)
    ensures WithScore(InsertByScore(sorted, e), v) == WithScore(sorted, v) + WithScore([e], v)
  {
    InsertSplits(sorted, e);
    var k := InsertIndex(sorted, e);
    var before, after := sorted[..k], sorted[k..];
    assert sorted == before + after;
    assert InsertByScore(sorted, e) == (before + [e]) + after;
    WithScoreAppend(before + [e], after, v);
    WithScoreAppend(before, [e], v);
    WithScoreAppend(before, after, v);
    if e.score == v {
      assert forall i :: 0 <= i < |after| ==> v < after[i].score;
      WithScoreAllGreater(after, v);
    }
  }

  /** Stability: for every score, the entries with that score keep their
      relative order through the sort. */
  lemma {:induction false} SortByScoreIsStable(xs: seq<Entry>, v: real)
    ensures WithScore(SortByScore(xs), v) == WithScore(xs, v)
    decreases |xs|
  {
    if |xs| > 0 {
      var init := xs[..|xs| - 1];
      var last := xs[|xs| - 1];
      SortByScoreIsStable(init, v);
      SortByScoreSortsAndPermutes(init);
      InsertIsStable(SortByScore(init), last, v);
      assert xs == init + [last];
      WithScoreAppend(init, [last], v);
    }
  }

  /** Sorting a sorted list changes nothing. */
  lemma {:induction false} SortSortedIsIdentity(xs: seq<Entry>)
    requires SortedByScore(xs)
    ensures SortByScore(xs) == xs
    decreases |xs|
  {
    if |xs| > 0 {
      var init := xs[..|xs| - 1];
      var last := xs[|xs| - 1];
      assert SortedByScore(init);
      SortSortedIsIdentity(init);
      InsertSplits(init, last);
      assert xs == init + [last];
    }
  }

  /** A new time beats the last entry of the board. `HighScoreManager.IsEligibleForLeaderboard` indexes the
      last entry, so it needs a non-empty board. */
  predicate IsEligibleForLeaderboard(board: seq<Entry>, score: real)
    requires |board| > 0
  {
    score < board[|board| - 1].score
  }

  /** On a sorted board the last entry is the worst, so a time is eligible
      exactly when it beats at least one entry of the board. */
  lemma EligibleIffBeatsSomeEntry(board: seq<Entry>, score: real)
    requires |board| > 0 && SortedByScore(board)
    ensures IsEligibleForLeaderboard(board, score) <==> exists i :: 0 <= i < |board| && score < board[i].score
  {
    if exists i :: 0 <= i < |board| && score < board[i].score {
      var i :| 0 <= i < |board| && score < board[i].score;
      assert board[i].score <= board[|board| - 1].score;
    }
  }

  /** Adds an entry, sorts the list stably by score and keeps the first ten. */
  function AddNewScore(board: seq<Entry>, playerName: Option<string>, score: real): (r: seq<Entry>)
    ensures SortedByScore(r)
    ensures |r| == MinInt(MaxScores, |board| + 1)
    ensures r == SortByScore(board + [Entry(StoredName(playerName), score)])[..|r|]
    ensures multiset(r) <= multiset(board) + multiset{Entry(StoredName(playerName), score)}
  {
    var all := board + [Entry(StoredName(playerName), score)];
    var sorted := SortByScore(all);
    SortByScoreSortsAndPermutes(all);
    assert sorted == sorted[..|sorted|];
    var r := if |sorted| > MaxScores then sorted[..MaxScores] else sorted;
    assert sorted == r + sorted[|r|..];
    r
  }

  /** On a sorted board the new entry lands behind every entry with a score
      not greater than its own and before every worse one. */
  lemma AddToSortedBoard(board: seq<Entry>, playerName: Option<string>, score: real)
    requires SortedByScore(board)
    ensures var e := Entry(StoredName(playerName), score);
            var k := InsertIndex(board, e);
            var kept := AddNewScore(board, playerName, score);
            && SortByScore(board + [e]) == board[..k] + [e] + board[k..]
            && (forall i :: 0 <= i < k ==> board[i].score <= score)
            && (forall i :: k <= i < |board| ==> score < board[i].score)
            && (k < MaxScores ==> kept[k] == e)
  {
    var e := Entry(StoredName(playerName), score);
    var all := board + [e];
    assert all[..|all| - 1] == board;
    SortSortedIsIdentity(board);
    InsertSplits(board, e);
  }

  /** An eligible time on a board of at most ten entries survives the cut,
      whether or not the stored board was sorted. */
  lemma EligibleEntrySurvives(board: seq<Entry>, playerName: Option<string>, score: real)
    requires 0 < |board| <= MaxScores
    requires IsEligibleForLeaderboard(board, score)
    ensures Entry(StoredName(playerName), score) in AddNewScore(board, playerName, score)
  {
    var e := Entry(StoredName(playerName), score);
    var all := board + [e];
    assert all[..|all| - 1] == board;
    var s := SortByScore(board);
    SortByScoreSortsAndPermutes(board);
    InsertSplits(s, e);
    var k := InsertIndex(s, e);
    var worst := board[|board| - 1];
    assert worst in multiset(s);
    var j :| 0 <= j < |s| && s[j] == worst;
    assert k <= j;
    var r := AddNewScore(board, playerName, score);
    assert SortByScore(all) == s[..k] + [e] + s[k..];
    assert r[k] == e;
  }

  /** The default board has room for nothing worse than 100: a time of 90
      enters it, one of 100 does not. */
  lemma DefaultBoardEligibility()
    ensures IsEligibleForLeaderboard(HighScoreData(true), 90.0)
    ensures !IsEligibleForLeaderboard(HighScoreData(true), 100.0)
  {
  }
}

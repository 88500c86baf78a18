/** The weekly top-five leaderboard: ranking a new entry by time, and the
    board's round trip through browser storage, stamped with a week
    identifier. */
module Ranking {
  import opened Types
  import opened Wrappers
  import opened JsMath

  /** The most entries a board keeps. */
  const BoardSize: nat := 5

  predicate SortedByTime(s: seq<LeaderboardEntry>) {
    forall i, j :: 0 <= i < j < |s| ==> s[i].time <= s[j].time
  }

  /** `e` inserted into a board sorted by time, after every entry whose time
      is not greater: what a stable sort does with an element that comes
      last in its input. */
  function InsertByTime(e: LeaderboardEntry, s: seq<LeaderboardEntry>): (r: seq<LeaderboardEntry>)
    ensures |r| == |s| + 1
    ensures multiset(r) == multiset(s) + multiset{e}
    ensures SortedByTime(s) ==> SortedByTime(r)
  {
    if s == [] then [e]
    else if s[|s| - 1].time <= e.time then s + [e]
    else
      var init := s[..|s| - 1];
      var last := s[|s| - 1];
      assert s == init + [last];
      var r := InsertByTime(e, init);
      assert SortedByTime(s) ==> SortedByTime(r + [last]) by {
        if SortedByTime(s) {
          SlowerLastKeepsSorted(init, e, last, r);
        }
      }
      r + [last]
  }

  /** Appending an entry slower than all of a sorted board's entries keeps
      it sorted. */
  lemma SlowerLastKeepsSorted(init: seq<LeaderboardEntry>, e: LeaderboardEntry, last: LeaderboardEntry, r: seq<LeaderboardEntry>)
    requires SortedByTime(init + [last]) && e.time < last.time
    requires SortedByTime(r) && multiset(r) == multiset(init) + multiset{e}
    ensures SortedByTime(r + [last])
  {
    forall i | 0 <= i < |r|
      ensures r[i].time <= last.time
    {
      assert r[i] in multiset(r);
      if r[i] != e {
        assert r[i] in multiset(init);
        var j :| 0 <= j < |init| && init[j] == r[i];
        assert (init + [last])[j] == r[i] && (init + [last])[|init|] == last;
      }
    }
  }

  /** Where the insertion puts `e`: behind the entries no slower than it,
      ahead of the slower ones, with the board's own order kept. */
  lemma {:induction false} InsertPosition(e: LeaderboardEntry, s: seq<LeaderboardEntry>)
    requires SortedByTime(s)
    ensures var k := |FasterOrEqual(s, e.time)|;
      InsertByTime(e, s) == s[..k] + [e] + s[k..]
    decreases |s|
  {
    var k := |FasterOrEqual(s, e.time)|;
    if s == [] {
    } else if e.time < s[|s| - 1].time {
      var init, last := s[..|s| - 1], s[|s| - 1];
      assert InsertByTime(e, s) == InsertByTime(e, init) + [last];
      assert k == |FasterOrEqual(init, e.time)| by {
        FasterOrEqualDrop(s, e.time);
      }
      assert InsertByTime(e, init) == init[..k] + [e] + init[k..] by {
        assert SortedByTime(init);
        InsertPosition(e, init);
      }
      InsertBeforeLast(s, e, k);
    } else {
      FasterOrEqualAll(s, e.time);
      assert s[..|s|] == s && s[|s|..] == [];
    }
  }

  /** Splitting a board before position `k` commutes with taking off its
      last entry, when `k` lies before that entry. */
  lemma InsertBeforeLast(s: seq<LeaderboardEntry>, e: LeaderboardEntry, k: int)
    requires 0 <= k < |s|
    ensures var init := s[..|s| - 1];
      s[..k] + [e] + s[k..] == init[..k] + [e] + init[k..] + [s[|s| - 1]]
  {
    var init := s[..|s| - 1];
    assert s[..k] == init[..k];
    assert s[k..] == init[k..] + [s[|s| - 1]];
  }

  /** On a sorted board the entries no slower than `t` come first. */
  lemma {:induction false} FasterOrEqualPrefix(s: seq<LeaderboardEntry>, t: real)
    requires SortedByTime(s)
    ensures var k := |FasterOrEqual(s, t)|;
      && (forall i :: 0 <= i < k ==> s[i].time <= t)
      && (forall i :: k <= i < |s| ==> t < s[i].time)
    decreases |s|
  {
    if s != [] && t < s[|s| - 1].time {
      var init := s[..|s| - 1];
      assert SortedByTime(init);
      FasterOrEqualPrefix(init, t);
      FasterOrEqualDrop(s, t);
    } else if s != [] {
      FasterOrEqualAll(s, t);
    }
  }

  /** The entries, in order, whose time is at most `t`. */
  function FasterOrEqual(s: seq<LeaderboardEntry>, t: real): (r: seq<LeaderboardEntry>)
    ensures |r| <= |s|
  {
    if s == [] then []
    else (if s[0].time <= t then [s[0]] else []) + FasterOrEqual(s[1..], t)
  }

  /** When the slowest entry is slower than `t`, it is not counted. */
  lemma {:induction false} FasterOrEqualDrop(s: seq<LeaderboardEntry>, t: real)
    requires s != [] && t < s[|s| - 1].time
    ensures FasterOrEqual(s, t) == FasterOrEqual(s[..|s| - 1], t)
    decreases |s|
  {
    if |s| > 1 {
      FasterOrEqualDrop(s[1..], t);
      assert s[1..][..|s[1..]| - 1] == s[..|s| - 1][1..];
    }
  }

  /** On a sorted board whose slowest entry is at most `t`, every entry counts. */
  lemma {:induction false} FasterOrEqualAll(s: seq<LeaderboardEntry>, t: real)
    requires SortedByTime(s) && s != [] && s[|s| - 1].time <= t
    ensures FasterOrEqual(s, t) == s
    decreases |s|
  {
    if |s| > 1 {
      FasterOrEqualAll(s[1..], t);
    }
  }

  /** `[...board].sort((a, b) => a.time - b.time)`: a stable sort by time,
      inserting each entry in turn into the sorted prefix. */
  function SortByTime(s: seq<LeaderboardEntry>): (r: seq<LeaderboardEntry>)
    ensures |r| == |s|
    ensures multiset(r) == multiset(s)
    ensures SortedByTime(r)
  {
    if s == [] then []
    else
      var init := s[..|s| - 1];
      assert s == init + [s[|s| - 1]];
      InsertByTime(s[|s| - 1], SortByTime(init))
  }

  /** A board already in time order comes out of the sort unchanged. */
  lemma {:induction false} SortKeepsSorted(s: seq<LeaderboardEntry>)
    requires SortedByTime(s)
    ensures SortByTime(s) == s
    decreases |s|
  {
    if s != [] {
      var init := s[..|s| - 1];
      assert SortedByTime(init);
      SortKeepsSorted(init);
      assert s == init + [s[|s| - 1]];
      if init != [] {
        assert init[|init| - 1].time <= s[|s| - 1].time;
      }
      assert InsertByTime(s[|s| - 1], init) == s;
    }
  }

  /** The board after a winner's entry: sorted by time and cut to five. */
  function TopFive(board: seq<LeaderboardEntry>, e: LeaderboardEntry): (r: seq<LeaderboardEntry>)
    ensures |r| == Min(BoardSize, |board| + 1)
    ensures SortedByTime(r)
    ensures multiset(r) <= multiset(board) + multiset{e}
    ensures forall x, y :: x in r && y in multiset(board) + multiset{e} - multiset(r) ==> x.time <= y.time
  {
    var sorted := SortByTime(board + [e]);
    var n := Min(BoardSize, |board| + 1);
    assert multiset(board + [e]) == multiset(board) + multiset{e};
    SortedPrefixFastest(sorted, n);
    sorted[..n]
  }

  /** A prefix of a sorted board is no slower than the rest of it, and is
      part of it. */
  lemma SortedPrefixFastest(s: seq<LeaderboardEntry>, n: int)
    requires SortedByTime(s) && 0 <= n <= |s|
    ensures SortedByTime(s[..n])
    ensures multiset(s[..n]) <= multiset(s)
    ensures forall x, y :: x in s[..n] && y in multiset(s) - multiset(s[..n]) ==> x.time <= y.time
  {
    assert s == s[..n] + s[n..];
    assert multiset(s) - multiset(s[..n]) == multiset(s[n..]);
    PrefixBeforeSuffix(s, n);
  }

  /** Every entry of a sorted board's prefix is no slower than every entry
      after it. */
  lemma PrefixBeforeSuffix(s: seq<LeaderboardEntry>, n: int)
    requires SortedByTime(s) && 0 <= n <= |s|
    ensures forall x, y :: x in s[..n] && y in s[n..] ==> x.time <= y.time
  {
    forall x, y | x in s[..n] && y in s[n..]
      ensures x.time <= y.time
    {
      var i :| 0 <= i < n && s[..n][i] == x;
      var j :| 0 <= j < |s| - n && s[n..][j] == y;
      assert s[i] == x && s[n + j] == y;
    }
  }

  /** On a board kept in time order, the new entry lands behind the entries
      no slower than it, and is kept when fewer than five of them are no
      slower. */
  lemma NewEntryRank(board: seq<LeaderboardEntry>, e: LeaderboardEntry)
    requires SortedByTime(board)
    ensures var k := |FasterOrEqual(board, e.time)|;
      && TopFive(board, e) == (board[..k] + [e] + board[k..])[..Min(BoardSize, |board| + 1)]
      && (e in TopFive(board, e) <== k < BoardSize)
  {
    SortedAppendSort(board, e);
    InsertPosition(e, board);
    var k := |FasterOrEqual(board, e.time)|;
    if k < BoardSize {
      var s := board[..k] + [e] + board[k..];
      assert s[k] == e;
      assert TopFive(board, e)[k] == e;
    }
  }

  /** When five entries or more are no slower than the new one, the board
      is its first five entries, as before. */
  lemma SlowEntryLeavesBoard(board: seq<LeaderboardEntry>, e: LeaderboardEntry)
    requires SortedByTime(board)
    ensures |FasterOrEqual(board, e.time)| >= BoardSize ==> TopFive(board, e) == board[..BoardSize]
  {
    var k := |FasterOrEqual(board, e.time)|;
    NewEntryRank(board, e);
    if k >= BoardSize {
      PrefixBeforeInsert(board, e, k, BoardSize);
    }
  }

  /** Inserting at `k` leaves the first `n <= k` elements as they were. */
  lemma PrefixBeforeInsert<T>(s: seq<T>, x: T, k: nat, n: nat)
    requires n <= k <= |s|
    ensures (s[..k] + [x] + s[k..])[..n] == s[..n]
  {
  }

  lemma SortedAppendSort(board: seq<LeaderboardEntry>, e: LeaderboardEntry)
    requires SortedByTime(board)
    ensures SortByTime(board + [e]) == InsertByTime(e, board)
  {
    var s := board + [e];
    assert s[..|s| - 1] == board;
    SortKeepsSorted(board);
  }

  /** What the storage key holds, after `JSON.parse`: nothing (no key, or an
      empty string), text that does not parse or whose `weekId` cannot be
      read, or an object whose `weekId` and `scores` fields may be missing
      or of another type. */
  datatype StoredBoard =
    | Absent
    | Unparseable
    | Stored(weekId: Option<string>, scores: Option<seq<LeaderboardEntry>>)

  /** `loadLeaderboard` for one mode: with nothing stored the board in
      memory stays; a parse failure or a board stored in another week
      empties it (the weekly reset); the only board it can take from storage
      is one stamped with the current week. */
  function LoadBoard(current: seq<LeaderboardEntry>, stored: StoredBoard, weekId: string): (board: seq<LeaderboardEntry>)
    ensures stored.Absent? ==> board == current
    ensures stored.Unparseable? ==> board == []
    ensures stored.Stored? && stored.weekId != Some(weekId) ==> board == []
    ensures stored.Stored? && stored.weekId == Some(weekId) && stored.scores.Some? ==> board == stored.scores.value
    ensures board == current || board == [] || (stored.Stored? && stored.weekId == Some(weekId) && stored.scores == Some(board))
  {
    match stored
    case Absent => current
    case Unparseable => []
    case Stored(id, scores) =>
      if id == Some(weekId) && scores.Some? then scores.value else []
  }

  /** `saveLeaderboard`: the board stamped with the week identifier, so
      that loading it gives the board back in the same week and an empty
      board in any other, whatever the board in memory. */
  function SaveBoard(board: seq<LeaderboardEntry>, weekId: string): (stored: StoredBoard)
    ensures stored.Stored? && stored.weekId == Some(weekId) && stored.scores == Some(board)
    ensures forall cur, now :: LoadBoard(cur, stored, now) == if now == weekId then board else []
  {
    Stored(Some(weekId), Some(board))
  }

  /** A board saved and loaded in the same week comes back as saved; loaded
      in another week, it comes back empty. With nothing stored the board in
      memory stays, and storage that does not parse empties it. */
  lemma SaveLoadRoundTrip(current: seq<LeaderboardEntry>, board: seq<LeaderboardEntry>, saved: string, now: string)
    ensures LoadBoard(current, SaveBoard(board, saved), now) == if saved == now then board else []
    ensures LoadBoard(current, Absent, now) == current && LoadBoard(current, Unparseable, now) == []
  {
  }
}

/** The leaderboard panel: one row per entry in board order, each with its
    rank, or a message when the board is empty. */
module LeaderboardView {
  import opened Wrappers
  import opened Types
  import opened Text
  import opened GameOverView
  import Session

  /** What a row shows besides the prize and points, which are formatted
      for the locale. */
  datatype BoardRow = BoardRow(avatar: string, name: string, time: string, rank: string)

  /** The panel: the empty-board message, or the rows. */
  datatype Panel = EmptyMessage | Listing(rows: seq<BoardRow>)

  /** `#` and the position counted from one. */
  function RankLabel(index: nat): (tag: string)
    ensures |tag| >= 2 && tag[0] == '#' && AllDigits(tag[1..])
  {
    "#" + NatToString(index + 1)
  }

  /** The time cell formats the entry's `time_seconds`. An entry without
      that field (every entry the game itself writes carries `time`
      instead) formats `undefined`, and `Math.floor(undefined)` is `NaN`. */
  function TimeCell(e: LeaderboardEntry): string {
    match e.timeSeconds
    case None => "NaN:NaN"
    case Some(t) => FormatTime(t)
  }

  function RowOf(e: LeaderboardEntry, index: nat): BoardRow {
    BoardRow(e.avatar, e.name, TimeCell(e), RankLabel(index))
  }

  function RowsFrom(board: seq<LeaderboardEntry>, from: nat): (rows: seq<BoardRow>)
    requires from <= |board|
    ensures |rows| == |board| - from
    ensures forall k :: 0 <= k < |rows| ==> rows[k] == RowOf(board[from + k], from + k)
    decreases |board| - from
  {
    if from == |board| then [] else [RowOf(board[from], from)] + RowsFrom(board, from + 1)
  }

  /** `leaderboard.length > 0 ? leaderboard.map(...) : <empty message>` */
  function Render(board: seq<LeaderboardEntry>): (p: Panel)
    ensures p.EmptyMessage? <==> board == []
    ensures p.Listing? ==> |p.rows| == |board|
    ensures p.Listing? ==> forall k :: 0 <= k < |board| ==> p.rows[k] == RowOf(board[k], k)
  {
    if |board| > 0 then Listing(RowsFrom(board, 0)) else EmptyMessage
  }

  /** Every row carries its own rank, and the rank reads back as the row's
      position counted from one; no two rows share a rank. */
  lemma RanksReadBack(board: seq<LeaderboardEntry>, i: nat, j: nat)
    requires i < |board| && j < |board|
    ensures Render(board).Listing?
    ensures ParseNat(Render(board).rows[i].rank[1..]) == i + 1
    ensures Render(board).rows[i].rank == Render(board).rows[j].rank <==> i == j
  {
    var rows := Render(board).rows;
    assert rows[i].rank[1..] == NatToString(i + 1);
    assert rows[j].rank[1..] == NatToString(j + 1);
    ParseNatToString(i + 1);
    NatToStringInjective(i + 1, j + 1);
  }

  /** An entry the game records after a win has no `time_seconds`, so its
      row shows `NaN:NaN` whatever the time it took. */
  lemma RecordedEntryShowsNaN(s: Session.Session, name: string, now: int, random: real, index: nat)
    requires s.startTime.Some? && 0.0 <= random < 1.0
    ensures RowOf(Session.NewEntry(s, name, now, random), index).time == "NaN:NaN"
  {
  }

  /** An entry that does carry `time_seconds` shows it as minutes and
      seconds that read back as its whole seconds. This is
      `GameOverView.FormatTimeRoundTrip` restated for the board's time
      column, which uses the same formatting. */
  lemma StoredTimeReadsBack(e: LeaderboardEntry)
    requires e.timeSeconds.Some? && e.timeSeconds.value >= 0.0
    ensures ReadsBackAs(TimeCell(e), e.timeSeconds.value.Floor)
  {
    FormatTimeRoundTrip(e.timeSeconds.value);
  }
}

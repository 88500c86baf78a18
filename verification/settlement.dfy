/** What a finished run pays out: the current score for a walk-away or a
    win, otherwise the prize of the last guaranteed level reached. */
module Settlement {
  import opened Types
  import opened Constants
  import opened JsMath

  /** The scan over the guaranteed levels: remember each level `L` with
      `idx >= L - 1` and stop at the first level that is not reached. */
  function ScanLevels(levels: seq<int>, idx: int, last: int): (r: int)
    ensures r == last || r in levels
    ensures r != last ==> r - 1 <= idx
  {
    if |levels| == 0 then last
    else if idx >= levels[0] - 1 then ScanLevels(levels[1..], idx, levels[0])
    else last
  }

  /** The guaranteed level credited at question index `idx`, or 0 for none. */
  function CreditedLevel(levels: seq<int>, idx: int): int {
    ScanLevels(levels, idx, 0)
  }

  predicate Ascending(levels: seq<int>) {
    forall k, l :: 0 <= k < l < |levels| ==> levels[k] < levels[l]
  }

  /** Over ascending levels above `last`, the early-stopping scan finds the
      highest level reached, and keeps `last` exactly when none is. */
  lemma {:induction false} ScanFindsHighest(levels: seq<int>, idx: int, last: int)
    requires Ascending(levels)
    requires forall k :: 0 <= k < |levels| ==> levels[k] > last
    ensures var r := ScanLevels(levels, idx, last);
      && (r == last <==> forall k :: 0 <= k < |levels| ==> levels[k] - 1 > idx)
      && (r != last ==> r in levels && r - 1 <= idx)
      && (forall k :: 0 <= k < |levels| && levels[k] - 1 <= idx ==> levels[k] <= r)
    decreases |levels|
  {
    if |levels| > 0 {
      if idx >= levels[0] - 1 {
        ScanFindsHighest(levels[1..], idx, levels[0]);
        var r := ScanLevels(levels, idx, last);
        forall k | 0 <= k < |levels| && levels[k] - 1 <= idx
          ensures levels[k] <= r
        {
          if k > 0 {
            assert levels[k] == levels[1..][k - 1];
          }
        }
      }
    }
  }

  /** The credited level is the highest guaranteed level `L` with
      `idx >= L - 1`, or 0 when there is none. */
  lemma CreditedLevelIsHighest(levels: seq<int>, idx: int)
    requires Ascending(levels)
    requires forall k :: 0 <= k < |levels| ==> levels[k] >= 1
    ensures var L := CreditedLevel(levels, idx);
      && (L == 0 <==> forall k :: 0 <= k < |levels| ==> levels[k] - 1 > idx)
      && (L != 0 ==> L in levels && L - 1 <= idx)
      && (forall k :: 0 <= k < |levels| && levels[k] - 1 <= idx ==> levels[k] <= L)
  {
    ScanFindsHighest(levels, idx, 0);
  }

  /** Over the levels 5, 10, ..., n the credited level is the largest
      multiple of five not above `idx + 1`, capped at `n`. */
  lemma CreditedMultipleOfFive(g: seq<int>, n: int, idx: int)
    requires |g| >= 1 && g[|g| - 1] == n
    requires forall k :: 0 <= k < |g| ==> g[k] == 5 * (k + 1)
    ensures CreditedLevel(g, idx) == if idx + 1 < 5 then 0 else Min(5 * ((idx + 1) / 5), n)
  {
    assert Ascending(g);
    CreditedLevelIsHighest(g, idx);
    var L := CreditedLevel(g, idx);
    if idx + 1 >= 5 {
      var q := (idx + 1) / 5;
      var m := Min(q, |g|);
      assert 5 * q <= idx + 1;
      assert 5 * m == Min(5 * q, n);
      assert g[m - 1] == 5 * m;
      assert 5 * m <= L;
      var j :| 0 <= j < |g| && g[j] == L;
      assert j + 1 <= q;
      assert L <= 5 * m;
    } else {
      assert g[0] - 1 > idx;
    }
  }

  /** For the game's own tables the credited level has a closed form: the
      largest multiple of five not above `idx + 1`, capped at the question
      count. A player still ON step 5 (index 4) is already credited level 5. */
  lemma CreditedLevelClosedForm(mode: GameMode, idx: int)
    ensures CreditedLevel(GuaranteedLevels(mode), idx)
      == if idx + 1 < 5 then 0 else Min(5 * ((idx + 1) / 5), QuestionCount(mode))
  {
    GuaranteedLevelsShape(mode);
    CreditedMultipleOfFive(GuaranteedLevels(mode), QuestionCount(mode), idx);
  }

  /** The final winnings of a run. */
  function FinalWinnings(mode: GameMode, walkedAway: bool, isWinner: bool, score: int, idx: int): (w: int)
    ensures walkedAway || isWinner ==> w == score
    ensures !(walkedAway || isWinner) && idx + 1 < 5 ==> w == 0
    ensures !(walkedAway || isWinner) && idx + 1 >= 5 ==>
      w == PrizeTiers(mode)[Min(5 * ((idx + 1) / 5), QuestionCount(mode)) - 1].prize
  {
    if walkedAway || isWinner then score
    else
      var L := CreditedLevel(GuaranteedLevels(mode), idx);
      GuaranteedLevelsShape(mode);
      TierTableShape(mode);
      CreditedLevelClosedForm(mode, idx);
      if L > 0 then PrizeTiers(mode)[L - 1].prize else 0
  }

  /** A failed run never pays more than the tier of the question it ended on
      (or the top tier, past the end of the ladder), and never less than 0. */
  lemma FailedRunBounds(mode: GameMode, idx: int)
    requires 0 <= idx
    ensures 0 <= FinalWinnings(mode, false, false, 0, idx)
    ensures FinalWinnings(mode, false, false, 0, idx)
      <= PrizeTiers(mode)[Min(idx, QuestionCount(mode) - 1)].prize
  {
    TierTableShape(mode);
    PrizesStrictlyIncrease(mode);
    var t := PrizeTiers(mode);
    assert 0 < t[0].prize by { TierAt(mode, 0); }
    if idx + 1 >= 5 {
      var c := Min(5 * ((idx + 1) / 5), QuestionCount(mode));
      assert c - 1 <= Min(idx, QuestionCount(mode) - 1);
      if 0 < c - 1 {
        assert t[0].prize < t[c - 1].prize;
      }
    }
  }

  /** Examples: in HARD mode a wrong answer at index 7 (eighth question)
      pays level 5, and so does one at index 4, because level 5 is credited
      while the player is still on step 5. */
  lemma HardModeExamples()
    ensures FinalWinnings(Hard, false, false, 150000, 7) == 100000
    ensures FinalWinnings(Hard, false, false, 50000, 4) == 100000
    ensures FinalWinnings(Hard, false, false, 50000, 3) == 0
    ensures FinalWinnings(Hard, true, false, 150000, 7) == 150000
  {
    TierAt(Hard, 4);
  }
}

/** The sidebar: the prize ladder shown ten tiers to a page, top tier first,
    with the current and guaranteed steps highlighted, and a pager that
    follows the current question. */
module SidebarView {
  import opened Types
  import opened Constants
  import opened JsMath

  const PrizesPerPage: nat := 10

  /** `Math.ceil(prizeTiers.length / prizesPerPage)` */
  function TotalPages(tierCount: nat): (n: int)
    ensures n == (tierCount + 9) / 10
  {
    var x := tierCount as real / PrizesPerPage as real;
    var q := (tierCount + 9) / 10;
    assert (q - 1) as real < x <= q as real by {
      assert 10 * (q - 1) < tierCount <= 10 * q;
      assert x * 10.0 == tierCount as real;
    }
    FloorIs(-x, -q);
    Ceil(x)
  }

  /** `Math.floor(currentQuestionIndex / prizesPerPage)` */
  function ActivePage(idx: int): (p: int)
    ensures p == idx / 10
  {
    var x := idx as real / PrizesPerPage as real;
    var q := idx / 10;
    assert q as real <= x < (q + 1) as real by {
      assert 10 * q <= idx < 10 * (q + 1);
      assert x * 10.0 == idx as real;
    }
    FloorIs(x, q);
    Floor(x)
  }

  /** The floor of a real is the integer just at or below it. */
  lemma FloorIs(x: real, k: int)
    requires k as real <= x < (k + 1) as real
    ensures Floor(x) == k
  {
  }

  /** An index argument of `Array.prototype.slice`: negative counts from the
      end, and the result is clamped to the sequence. */
  function SliceIndex(len: nat, i: int): (r: nat)
    ensures r <= len
    ensures 0 <= i <= len ==> r == i
  {
    if i < 0 then (if len + i < 0 then 0 else len + i)
    else if i > len then len
    else i
  }

  /** `s.slice(start, end)` */
  function JsSlice<T>(s: seq<T>, start: int, end: int): (r: seq<T>)
    ensures 0 <= start <= end <= |s| ==> r == s[start..end]
    ensures 0 <= start <= |s| < end ==> r == s[start..]
  {
    var a := SliceIndex(|s|, start);
    var b := SliceIndex(|s|, end);
    if a < b then s[a..b] else []
  }

  function Reverse<T>(s: seq<T>): (r: seq<T>)
    ensures |r| == |s|
    ensures forall k :: 0 <= k < |s| ==> r[k] == s[|s| - 1 - k]
  {
    if s == [] then [] else Reverse(s[1..]) + [s[0]]
  }

  /** The rows on page `page`: that page's slice of the ladder, reversed so
      that the highest tier is on top. */
  function Shown(tiers: seq<PrizeTier>, page: int): seq<PrizeTier> {
    Reverse(JsSlice(tiers, page * PrizesPerPage, (page + 1) * PrizesPerPage))
  }

  /** How a ladder row is highlighted. */
  datatype RowStyle = CurrentRow | GuaranteedRow | PlainRow

  /** The current step wins over a guaranteed one. */
  function Row(tier: PrizeTier, idx: int, guaranteed: seq<int>): (style: RowStyle)
    ensures style == CurrentRow <==> tier.step == idx + 1
    ensures style == GuaranteedRow <==> tier.step != idx + 1 && tier.step in guaranteed
  {
    if tier.step == idx + 1 then CurrentRow
    else if tier.step in guaranteed then GuaranteedRow
    else PlainRow
  }

  /** The first effect, run when the current question or the ladder
      changes: the pager at `page` moves to the active page unless it is
      there already. Either way it ends on the page holding question `idx`. */
  function OnIndexChange(page: int, idx: int): (next: int)
    ensures idx >= 0 ==> next * 10 <= idx < (next + 1) * 10
    ensures next == page <==> page == idx / 10
  {
    var active := ActivePage(idx);
    if active != page then active else page
  }

  /** The second effect, run only when the ladder changes. */
  function ResetPage(page: int): int {
    0
  }

  /** When the ladder itself changes (a new mode) both effects run in the
      order they are declared, so the reset runs last and wins. */
  function OnTiersChange(page: int, idx: int): (next: int)
    ensures next == 0
  {
    ResetPage(OnIndexChange(page, idx))
  }

  /** The reset undoes the first effect's move: from question 10 on, the
      first effect alone would leave the first page, yet after both the
      pager is on it. */
  lemma TiersChangeOverridesIndex(page: int, idx: int)
    requires idx >= 10
    ensures OnIndexChange(page, idx) != 0
    ensures OnTiersChange(page, idx) == 0
  {
  }

  /** The pager buttons exist only when there is more than one page. */
  function NavShown(tierCount: nat): (shown: bool)
    ensures shown <==> tierCount > PrizesPerPage
  {
    TotalPages(tierCount) > 1
  }

  /** The "previous" button is disabled on the first page. */
  function PrevEnabled(page: int): (enabled: bool)
    ensures page >= 0 ==> (enabled <==> page >= 1)
  {
    page != 0
  }

  /** The "next" button is disabled from the last page on, so it is enabled
      exactly when some tier lies beyond the page. */
  function NextEnabled(page: int, tierCount: nat): (enabled: bool)
    ensures enabled <==> (page + 1) * PrizesPerPage < tierCount
  {
    !(page >= TotalPages(tierCount) - 1)
  }

  /** Normal mode's ladder spans three pages, Hard mode's five; both show
      the pager. */
  lemma PageCounts()
    ensures TotalPages(|PrizeTiers(Normal)|) == 3 && NavShown(|PrizeTiers(Normal)|)
    ensures TotalPages(|PrizeTiers(Hard)|) == 5 && NavShown(|PrizeTiers(Hard)|)
  {
    TierTableShape(Normal);
    TierTableShape(Hard);
  }

  /** A pager on a valid page stays on a valid page whichever enabled
      button is pressed; and a valid page is the slice of at most ten tiers
      starting at ten times its number. */
  lemma PagerStaysInRange(page: int, tierCount: nat)
    requires 0 <= page < TotalPages(tierCount)
    ensures PrevEnabled(page) ==> 0 <= page - 1 < TotalPages(tierCount)
    ensures NextEnabled(page, tierCount) ==> 0 <= page + 1 < TotalPages(tierCount)
    ensures page * 10 < tierCount
  {
  }

  /** Page `page` of a ladder, for a page in range: its tiers from
      `10 * page`, at most ten of them, highest first. */
  lemma PageContents(tiers: seq<PrizeTier>, page: int)
    requires 0 <= page < TotalPages(|tiers|)
    ensures var hi := Min(10 * page + 10, |tiers|);
      Shown(tiers, page) == Reverse(tiers[10 * page..hi]) && 1 <= |Shown(tiers, page)| <= 10
  {
  }

  /** A ladder whose tier `i` is step `i + 1`, as both of the game's are. */
  predicate Numbered(tiers: seq<PrizeTier>) {
    forall i :: 0 <= i < |tiers| ==> tiers[i].step == i + 1
  }

  /** On a numbered ladder the rows of a page go strictly downwards. */
  lemma ShownDescending(tiers: seq<PrizeTier>, page: int)
    requires Numbered(tiers)
    requires 0 <= page < TotalPages(|tiers|)
    ensures var rows := Shown(tiers, page);
      forall k :: 0 <= k < |rows| - 1 ==> rows[k].step == rows[k + 1].step + 1
  {
    PageContents(tiers, page);
  }

  /** The pages split a numbered ladder: tier `i` is on page `i / 10` and on
      no other page the pager can reach. */
  lemma PagesPartition(tiers: seq<PrizeTier>, i: int, page: int)
    requires Numbered(tiers)
    requires 0 <= i < |tiers| && 0 <= page
    ensures tiers[i] in Shown(tiers, page) <==> page == i / 10
  {
    var rows := Shown(tiers, page);
    var a := SliceIndex(|tiers|, page * 10);
    var b := SliceIndex(|tiers|, (page + 1) * 10);
    var slice := JsSlice(tiers, page * 10, (page + 1) * 10);
    assert slice == if a < b then tiers[a..b] else [];
    if page == i / 10 {
      assert a == page * 10 && i < b;
      assert slice[i - a] == tiers[i];
      assert rows[|slice| - 1 - (i - a)] == tiers[i];
    } else {
      forall k | 0 <= k < |rows|
        ensures rows[k] != tiers[i]
      {
        var j := a + (|slice| - 1 - k);
        assert rows[k] == tiers[j];
        assert page * 10 <= j < page * 10 + 10;
      }
    }
  }

  /** While question `idx` of the ladder is on, the page the pager moves to
      shows it, as the only row highlighted as current. */
  lemma CurrentOnActivePage(tiers: seq<PrizeTier>, page: int, idx: int, guaranteed: seq<int>)
    requires Numbered(tiers)
    requires 0 <= idx < |tiers|
    ensures tiers[idx] in Shown(tiers, OnIndexChange(page, idx))
    ensures var rows := Shown(tiers, OnIndexChange(page, idx));
      forall k :: 0 <= k < |rows| ==> (Row(rows[k], idx, guaranteed) == CurrentRow <==> rows[k] == tiers[idx])
  {
    PagesPartition(tiers, idx, idx / 10);
    PageContents(tiers, idx / 10);
  }

  /** On the game's ladders, the current question is on the first page it
      is opened on after the mode is chosen only while it is among the first
      ten: the tiers-change effect resets the pager to the top page. */
  lemma ModeChangeShowsFirstPage(mode: GameMode, page: int, idx: int)
    requires 0 <= idx < QuestionCount(mode)
    ensures var rows := Shown(PrizeTiers(mode), OnTiersChange(page, idx));
      PrizeTiers(mode)[idx] in rows <==> idx < 10
  {
    TierTableShape(mode);
    PagesPartition(PrizeTiers(mode), idx, 0);
  }
}

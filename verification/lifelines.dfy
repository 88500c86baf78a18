/** The three lifelines' computations: the 50:50 elimination, the audience
    poll and the chat conversation. The random shuffles of the source are
    taken as parameters: any ordering of the wrong options. */
module LifelineEngine {
  import opened Types
  import opened Wrappers
  import opened JsMath

  /** The options other than the correct one, in ascending order. */
  function WrongIndices(answerIndex: int): seq<int> {
    if answerIndex == 0 then [1, 2, 3]
    else if answerIndex == 1 then [0, 2, 3]
    else if answerIndex == 2 then [0, 1, 3]
    else if answerIndex == 3 then [0, 1, 2]
    else [0, 1, 2, 3]
  }

  /** `xs.filter(i => i !== x)` */
  function Without(xs: seq<int>, x: int): seq<int> {
    if xs == [] then []
    else (if xs[0] == x then [] else [xs[0]]) + Without(xs[1..], x)
  }

  /** `WrongIndices` is `[0, 1, 2, 3].filter(i => i !== answerIndex)`. */
  lemma WrongIndicesIsFilter(answerIndex: int)
    ensures WrongIndices(answerIndex) == Without([0, 1, 2, 3], answerIndex)
  {
    var a := answerIndex;
    assert [0, 1, 2, 3][1..] == [1, 2, 3] && [1, 2, 3][1..] == [2, 3] && [2, 3][1..] == [3] && [3][1..] == [];
    assert Without([3], a) == if a == 3 then [] else [3];
    assert Without([2, 3], a) == (if a == 2 then [] else [2]) + Without([3], a);
    assert Without([1, 2, 3], a) == (if a == 1 then [] else [1]) + Without([2, 3], a);
    assert Without([0, 1, 2, 3], a) == (if a == 0 then [] else [0]) + Without([1, 2, 3], a);
  }

  lemma WrongIndicesShape(answerIndex: int)
    requires 0 <= answerIndex < 4
    ensures var w := WrongIndices(answerIndex);
      && |w| == 3
      && w[0] < w[1] < w[2]
      && (forall i :: i in w <==> 0 <= i < 4 && i != answerIndex)
  {
  }

  /** An ordering of the wrong options, as the shuffle produces. */
  predicate ShuffledWrong(shuffled: seq<int>, answerIndex: int)
    requires 0 <= answerIndex < 4
  {
    multiset(shuffled) == multiset(WrongIndices(answerIndex))
  }

  /** A shuffle of the three wrong options holds each of them exactly once. */
  lemma ShuffledWrongShape(shuffled: seq<int>, answerIndex: int)
    requires 0 <= answerIndex < 4
    requires ShuffledWrong(shuffled, answerIndex)
    ensures |shuffled| == 3
    ensures forall k :: 0 <= k < 3 ==> 0 <= shuffled[k] < 4 && shuffled[k] != answerIndex
    ensures shuffled[0] != shuffled[1] && shuffled[0] != shuffled[2] && shuffled[1] != shuffled[2]
  {
    var w := WrongIndices(answerIndex);
    WrongIndicesShape(answerIndex);
    PermutationOfThree(shuffled, w);
    assert shuffled[0] in w && shuffled[1] in w && shuffled[2] in w;
  }

  /** A sequence with the multiset of three distinct values holds each of
      them exactly once. */
  lemma PermutationOfThree(xs: seq<int>, w: seq<int>)
    requires |w| == 3 && w[0] != w[1] && w[0] != w[2] && w[1] != w[2]
    requires multiset(xs) == multiset(w)
    ensures |xs| == 3
    ensures xs[0] != xs[1] && xs[0] != xs[2] && xs[1] != xs[2]
    ensures xs[0] in w && xs[1] in w && xs[2] in w
  {
    SameLength(xs, w);
    assert xs == [xs[0], xs[1], xs[2]] && w == [w[0], w[1], w[2]];
    assert multiset(xs) == multiset{xs[0], xs[1], xs[2]};
    assert multiset(w) == multiset{w[0], w[1], w[2]};
    SameThree(xs[0], xs[1], xs[2], w[0], w[1], w[2]);
  }

  lemma SameLength(xs: seq<int>, w: seq<int>)
    requires multiset(xs) == multiset(w)
    ensures |xs| == |w|
  {
    assert |multiset(xs)| == |xs| && |multiset(w)| == |w|;
  }

  /** Three values with the multiset of three distinct values are those
      values, in some order. */
  lemma SameThree(a: int, b: int, c: int, x: int, y: int, z: int)
    requires multiset{a, b, c} == multiset{x, y, z}
    requires x != y && x != z && y != z
    ensures a != b && a != c && b != c
    ensures (a == x || a == y || a == z) && (b == x || b == y || b == z) && (c == x || c == y || c == z)
  {
    assert multiset{x, y, z}[a] >= 1 && multiset{x, y, z}[b] >= 1 && multiset{x, y, z}[c] >= 1;
  }

  /** 50:50 hides the first two options of the shuffled wrong ones. */
  function FiftyHidden(answerIndex: int, shuffled: seq<int>): (hidden: seq<int>)
    requires 0 <= answerIndex < 4
    requires ShuffledWrong(shuffled, answerIndex)
    ensures HiddenByFifty(hidden, answerIndex)
  {
    ShuffledWrongShape(shuffled, answerIndex);
    shuffled[..2]
  }

  /** After 50:50 exactly two options stay visible: the correct one and
      the wrong one the shuffle placed last. */
  lemma FiftyLeavesTwo(answerIndex: int, shuffled: seq<int>)
    requires 0 <= answerIndex < 4
    requires ShuffledWrong(shuffled, answerIndex)
    ensures forall i :: 0 <= i < 4 ==>
      (i !in FiftyHidden(answerIndex, shuffled) <==> i == answerIndex || i == shuffled[2])
  {
    ShuffledWrongShape(shuffled, answerIndex);
    assert FiftyHidden(answerIndex, shuffled) == [shuffled[0], shuffled[1]];
  }

  /** `Math.min(0.85, 0.4 + (15 - currentIdx) / 20)` */
  function CorrectChance(idx: int): real {
    var c := 0.4 + (15 - idx) as real / 20.0;
    if 0.85 <= c then 0.85 else c
  }

  /** The percentage the audience gives the correct option: five points
      per step below index 23, capped at 85. It is negative from index 24
      on, which HARD mode reaches. */
  function CorrectShare(idx: int): (share: int)
    ensures share == 5 * Min(17, 23 - idx)
  {
    var c := CorrectChance(idx);
    assert 100.0 * c == (5 * Min(17, 23 - idx)) as real;
    Round(100.0 * c)
  }

  lemma CorrectShareNonIncreasing(i: int, j: int)
    requires i <= j
    ensures CorrectShare(j) <= CorrectShare(i) <= 85
  {
  }

  lemma CorrectShareNegativeInHardMode()
    ensures CorrectShare(23) == 0
    ensures CorrectShare(49) == -130
  {
  }

  function Sum(s: seq<int>): int {
    if s == [] then 0 else s[0] + Sum(s[1..])
  }

  lemma Sum4(s: seq<int>)
    requires |s| == 4
    ensures Sum(s) == s[0] + s[1] + s[2] + s[3]
  {
    var t1, t2, t3 := s[1..], s[2..], s[3..];
    assert t1[1..] == t2 && t2[1..] == t3 && t3[1..] == [];
    assert Sum(t3) == s[3];
    assert Sum(t2) == s[2] + s[3];
  }

  /** The wrong options a 50:50 left on screen. */
  function VisibleWrong(wrong: seq<int>, hidden: seq<int>): seq<int> {
    if wrong == [] then []
    else (if wrong[0] in hidden then [] else [wrong[0]]) + VisibleWrong(wrong[1..], hidden)
  }

  /** The audience poll. The correct option gets `CorrectShare`; after a
      50:50 the whole remainder goes to the first visible wrong option,
      otherwise the shuffled wrong options get 60% and 30% of it, rounded,
      and the last one what is left. */
  function Poll(answerIndex: int, idx: int, hidden: Option<seq<int>>, shuffled: seq<int>): (poll: seq<int>)
    requires 0 <= answerIndex < 4
    requires hidden.Some? ==> HiddenByFifty(hidden.value, answerIndex)
    requires ShuffledWrong(shuffled, answerIndex)
    ensures |poll| == 4
    ensures poll[answerIndex] == CorrectShare(idx)
    ensures hidden.None? ==> WrongSplit(poll, shuffled, 100 - CorrectShare(idx))
  {
    var share := CorrectShare(idx);
    var remaining := 100 - share;
    var poll := [0, 0, 0, 0][answerIndex := share];
    ShuffledWrongShape(shuffled, answerIndex);
    if hidden.Some? then
      FiftyPoll(answerIndex, share, hidden.value)
    else
      var first := Round(remaining as real * 0.6);
      var second := Round(remaining as real * 0.3);
      poll[shuffled[0] := first][shuffled[1] := second][shuffled[2] := remaining - first - second]
  }

  /** The wrong options `shuffled` in turn get 60% and 30% of `remaining`,
      each rounded half up, and the last one what is left of it. */
  predicate WrongSplit(poll: seq<int>, shuffled: seq<int>, remaining: int) {
    var first := Round(remaining as real * 0.6);
    var second := Round(remaining as real * 0.3);
    && |shuffled| == 3
    && (forall k :: 0 <= k < 3 ==> 0 <= shuffled[k] < |poll|)
    && poll[shuffled[0]] == first
    && poll[shuffled[1]] == second
    && poll[shuffled[2]] == remaining - first - second
  }

  /** After a 50:50, exactly one wrong option is still visible. */
  lemma OneVisibleWrong(answerIndex: int, hidden: seq<int>)
    requires 0 <= answerIndex < 4
    requires HiddenByFifty(hidden, answerIndex)
    ensures var v := VisibleWrong(WrongIndices(answerIndex), hidden);
      && |v| == 1 && 0 <= v[0] < 4 && v[0] != answerIndex && v[0] !in hidden
      && (forall i :: 0 <= i < 4 ==> i == answerIndex || i == v[0] || i in hidden)
  {
    var w := WrongIndices(answerIndex);
    WrongIndicesShape(answerIndex);
    VisibleWrongOfThree(w, hidden);
    assert hidden[0] in w && hidden[1] in w;
    assert hidden == [hidden[0], hidden[1]];
  }

  lemma VisibleWrongOfThree(w: seq<int>, hidden: seq<int>)
    requires |w| == 3
    ensures VisibleWrong(w, hidden) == (if w[0] in hidden then [] else [w[0]])
      + (if w[1] in hidden then [] else [w[1]]) + (if w[2] in hidden then [] else [w[2]])
  {
    var t1, t2 := w[1..], w[2..];
    assert t1[1..] == t2 && t2[1..] == [];
    assert VisibleWrong(t2, hidden) == (if w[2] in hidden then [] else [w[2]]);
    assert VisibleWrong(t1, hidden) == (if w[1] in hidden then [] else [w[1]]) + VisibleWrong(t2, hidden);
  }

  lemma UpdateTwo(a: int, b: int, x: int, y: int)
    requires 0 <= a < 4 && 0 <= b < 4 && a != b
    ensures var p := [0, 0, 0, 0][a := x][b := y];
      && Sum(p) == x + y
      && forall i :: 0 <= i < 4 && i != a && i != b ==> p[i] == 0
  {
    Sum4([0, 0, 0, 0][a := x][b := y]);
  }

  /** Four distinct positions of a four-element sequence cover it. */
  lemma UpdateAllFour(a: int, b: int, c: int, d: int, x: int, y: int, z: int, u: int)
    requires 0 <= a < 4 && 0 <= b < 4 && 0 <= c < 4 && 0 <= d < 4
    requires a != b && a != c && a != d && b != c && b != d && c != d
    ensures Sum([0, 0, 0, 0][a := x][b := y][c := z][d := u]) == x + y + z + u
  {
    var p := [0, 0, 0, 0][a := x][b := y][c := z][d := u];
    Sum4(p);
  }

  /** The poll always adds up to 100, options hidden by 50:50 get nothing,
      and the one visible wrong option then gets the whole remainder. */
  lemma PollSumsTo100(answerIndex: int, idx: int, hidden: Option<seq<int>>, shuffled: seq<int>)
    requires 0 <= answerIndex < 4
    requires hidden.Some? ==> HiddenByFifty(hidden.value, answerIndex)
    requires ShuffledWrong(shuffled, answerIndex)
    ensures var poll := Poll(answerIndex, idx, hidden, shuffled);
      && Sum(poll) == 100
      && (hidden.Some? ==> forall i :: 0 <= i < 4 && i in hidden.value ==> poll[i] == 0)
      && (hidden.Some? ==> forall i :: 0 <= i < 4 && i != answerIndex && i !in hidden.value ==>
            poll[i] == 100 - CorrectShare(idx))
  {
    if hidden.None? {
      ShuffledWrongShape(shuffled, answerIndex);
      var share := CorrectShare(idx);
      var remaining := 100 - share;
      var first := Round(remaining as real * 0.6);
      var second := Round(remaining as real * 0.3);
      assert Poll(answerIndex, idx, hidden, shuffled)
        == [0, 0, 0, 0][answerIndex := share][shuffled[0] := first][shuffled[1] := second]
                       [shuffled[2] := remaining - first - second];
      UpdateAllFour(answerIndex, shuffled[0], shuffled[1], shuffled[2], share, first, second, remaining - first - second);
    }
  }

  /** The poll after a 50:50: the correct option's share, the whole
      remainder on the first wrong option still visible. It adds up to 100,
      the hidden options get nothing and the one visible wrong option gets
      all the rest. */
  function FiftyPoll(answerIndex: int, share: int, hidden: seq<int>): (poll: seq<int>)
    requires 0 <= answerIndex < 4
    requires HiddenByFifty(hidden, answerIndex)
    ensures |poll| == 4 && poll[answerIndex] == share
    ensures Sum(poll) == 100
    ensures forall i :: 0 <= i < 4 && i in hidden ==> poll[i] == 0
    ensures forall i :: 0 <= i < 4 && i != answerIndex && i !in hidden ==> poll[i] == 100 - share
  {
    var poll := [0, 0, 0, 0][answerIndex := share];
    var visible := VisibleWrong(WrongIndices(answerIndex), hidden);
    OneVisibleWrong(answerIndex, hidden);
    UpdateTwo(answerIndex, visible[0], share, 100 - share);
    assert hidden == [hidden[0], hidden[1]];
    if |visible| > 0 then poll[visible[0] := 100 - share] else poll
  }

  /** The conversation the chat lifeline opens: the question as the user's
      first message, awaiting the friend's reply. */
  function OpenChat(questionText: string): (r: LifelineResult)
    ensures r.Chat? && r.isLoading && |r.messages| == 1 && r.messages[0].sender == User
  {
    Chat([ChatMessage(User, questionText)], true)
  }

  /** A reply arriving from the hint provider: appended as the friend's
      message and ending the wait, if a chat is still on screen; dropped
      otherwise. */
  function ReceiveReply(result: LifelineResult, reply: string): (r: LifelineResult)
    ensures result.Chat? <==> r.Chat?
    ensures !result.Chat? ==> r == result
    ensures result.Chat? ==>
      && !r.isLoading && |r.messages| == |result.messages| + 1
      && r.messages[..|result.messages|] == result.messages
      && r.messages[|result.messages|] == ChatMessage(Ai, reply)
  {
    match result
    case Chat(messages, _) => Chat(messages + [ChatMessage(Ai, reply)], false)
    case _ => result
  }

  /** The user's typed message appended to the chat, now awaiting a reply. */
  function SendMessage(result: LifelineResult, input: string): (r: LifelineResult)
    requires result.Chat?
    ensures r.Chat? && r.isLoading
    ensures |r.messages| == |result.messages| + 1
      && r.messages[..|result.messages|] == result.messages && r.messages[|result.messages|] == ChatMessage(User, input)
  {
    Chat(result.messages + [ChatMessage(User, input)], true)
  }

  /** A conversation in which user and friend take turns, starting with the
      user, and which awaits a reply exactly when the user spoke last. */
  predicate TakingTurns(result: LifelineResult) {
    && result.Chat?
    && |result.messages| >= 1
    && (forall k :: 0 <= k < |result.messages| ==>
          result.messages[k].sender == (if k % 2 == 0 then User else Ai))
    && (result.isLoading <==> |result.messages| % 2 == 1)
  }

  /** Opening a chat, a reply to a waiting chat, and a message sent while
      no reply is awaited keep the conversation turn-based; the chat form
      refuses to send while a reply is awaited. */
  lemma ChatTakesTurns(result: LifelineResult, text: string)
    ensures TakingTurns(OpenChat(text))
    ensures TakingTurns(result) && result.isLoading ==> TakingTurns(ReceiveReply(result, text))
    ensures TakingTurns(result) && !result.isLoading ==> TakingTurns(SendMessage(result, text))
  {
  }
}

/** The answer panel: the four option buttons and their look, the lifeline
    buttons, the audience poll bars and the chat form's guard. */
module QuestionPanelView {
  import opened Wrappers
  import opened Types
  import opened LifelineEngine
  import opened Text

  /** `question.hiddenOptions?.includes(i) ?? false` */
  predicate IsHidden(q: Question, i: int) {
    q.hiddenOptions.Some? && i in q.hiddenOptions.value
  }

  /** The flags the panel passes to the button of option `i`. */
  datatype OptionFlags = OptionFlags(isSelected: bool, isCorrect: bool, isWrong: bool, isDisabled: bool)

  function Flags(q: Question, selected: Option<int>, revealed: bool, locked: bool, i: int): OptionFlags {
    var isSelected := selected == Some(i);
    var isCorrect := revealed && i == q.answerIndex;
    var isWrong := revealed && selected == Some(i) && i != q.answerIndex;
    var isDisabled := locked || IsHidden(q, i);
    OptionFlags(isSelected, isCorrect, isWrong, isDisabled)
  }

  /** The four looks of an option button. */
  datatype OptionStyle = Correct | Wrong | Selected | Idle

  /** The button's colour: correct before wrong before selected. */
  function Style(f: OptionFlags): (style: OptionStyle)
    ensures style == Correct <==> f.isCorrect
    ensures style == Wrong <==> f.isWrong && !f.isCorrect
    ensures style == Selected <==> f.isSelected && !f.isWrong && !f.isCorrect
  {
    if f.isCorrect then Correct
    else if f.isWrong then Wrong
    else if f.isSelected then Selected
    else Idle
  }

  /** A disabled button is faded, unless it shows the correct answer. */
  predicate Faded(f: OptionFlags) {
    f.isDisabled && !f.isCorrect
  }

  /** The look of option `i` on the panel. */
  function OptionLook(q: Question, selected: Option<int>, revealed: bool, locked: bool, i: int): OptionStyle {
    Style(Flags(q, selected, revealed, locked, i))
  }

  /** Before the revealed only the chosen option stands out; after it the
      correct option is green, the chosen one red if it was wrong, and
      every other option plain. No option is ever both right and wrong. */
  lemma OptionLooks(q: Question, selected: Option<int>, revealed: bool, locked: bool, i: int)
    ensures !(Flags(q, selected, revealed, locked, i).isCorrect && Flags(q, selected, revealed, locked, i).isWrong)
    ensures !revealed ==> OptionLook(q, selected, revealed, locked, i) == if selected == Some(i) then Selected else Idle
    ensures revealed ==>
      OptionLook(q, selected, revealed, locked, i)
        == if i == q.answerIndex then Correct else if selected == Some(i) then Wrong else Idle
  {
  }

  /** At most one option is marked wrong, and only a chosen one. */
  lemma AtMostOneWrong(q: Question, selected: Option<int>, revealed: bool, locked: bool, i: int, j: int)
    requires Flags(q, selected, revealed, locked, i).isWrong && Flags(q, selected, revealed, locked, j).isWrong
    ensures i == j && selected == Some(i)
  {
  }

  /** An option can be clicked exactly when no answer is locked and 50:50
      has not hidden it; the correct answer is never hidden, and after 50:50
      exactly two options remain clickable. */
  lemma ClickableOptions(q: Question, selected: Option<int>, revealed: bool, locked: bool)
    requires WellShaped(q)
    ensures !Flags(q, selected, revealed, locked, q.answerIndex).isDisabled <==> !locked
    ensures forall i :: !Flags(q, selected, revealed, locked, i).isDisabled <==> !locked && !IsHidden(q, i)
    ensures q.hiddenOptions.Some? && !locked ==>
      |set i | 0 <= i < 4 && !Flags(q, selected, revealed, locked, i).isDisabled| == 2
  {
    if q.hiddenOptions.Some? && !locked {
      var h := q.hiddenOptions.value;
      var other := OtherOption(q.answerIndex, h[0], h[1]);
      var open := set i | 0 <= i < 4 && !Flags(q, selected, revealed, locked, i).isDisabled;
      assert open == {q.answerIndex, other} by {
        forall i | 0 <= i < 4
          ensures i in open <==> i == q.answerIndex || i == other
        {
          assert IsHidden(q, i) <==> i == h[0] || i == h[1];
        }
      }
    }
  }

  /** The first option index that is none of `a`, `x`, `y`. */
  function OtherOption(a: int, x: int, y: int): (o: int)
    requires 0 <= a < 4 && 0 <= x < 4 && 0 <= y < 4
    ensures 0 <= o < 4 && o != a && o != x && o != y
  {
    if 0 != a && 0 != x && 0 != y then 0
    else if 1 != a && 1 != x && 1 != y then 1
    else if 2 != a && 2 != x && 2 != y then 2
    else 3
  }

  /** `String.fromCharCode(65 + index)`: the option's letter. */
  function OptionLetter(i: int): (c: char)
    requires 0 <= i < 4
    ensures 'A' <= c <= 'D'
  {
    (65 + i) as char
  }

  /** The four options carry four different letters, in order. */
  lemma OptionLettersDistinct(i: int, j: int)
    requires 0 <= i < 4 && 0 <= j < 4
    ensures OptionLetter(i) == OptionLetter(j) <==> i == j
    ensures i < j ==> OptionLetter(i) < OptionLetter(j)
  {
  }

  /** How many of the options `from` up to `to` are not hidden. */
  function ShownCount(q: Question, from: nat, to: nat): nat
    decreases to - from
  {
    if from >= to then 0 else (if IsHidden(q, from) then 0 else 1) + ShownCount(q, from + 1, to)
  }

  /** The poll bars drawn: one per option that is not hidden, as
      (option, share) in option order. */
  function PollBars(poll: seq<int>, q: Question): (bars: seq<(int, int)>)
    ensures |bars| == ShownCount(q, 0, |poll|) <= |poll|
    ensures forall k :: 0 <= k < |bars| ==>
      0 <= bars[k].0 < |poll| && bars[k].1 == poll[bars[k].0] && !IsHidden(q, bars[k].0)
    ensures forall i :: 0 <= i < |poll| ==> (i in Options(bars) <==> !IsHidden(q, i))
    ensures InOptionOrder(bars)
  {
    BarsComplete(poll, q, 0);
    BarsInOrder(poll, q, 0);
    BarsFrom(poll, q, 0)
  }

  function BarsFrom(poll: seq<int>, q: Question, from: nat): (bars: seq<(int, int)>)
    requires from <= |poll|
    ensures |bars| == ShownCount(q, from, |poll|) <= |poll| - from
    ensures forall k :: 0 <= k < |bars| ==>
      from <= bars[k].0 < |poll| && bars[k].1 == poll[bars[k].0] && !IsHidden(q, bars[k].0)
    decreases |poll| - from
  {
    if from == |poll| then []
    else
      var rest := BarsFrom(poll, q, from + 1);
      if IsHidden(q, from) then rest
      else
        [(from, poll[from])] + rest
  }

  /** The options the bars stand for, in order. */
  function Options(bars: seq<(int, int)>): (o: seq<int>)
    ensures |o| == |bars| && forall k :: 0 <= k < |bars| ==> o[k] == bars[k].0
  {
    if bars == [] then [] else [bars[0].0] + Options(bars[1..])
  }

  /** Every option from `from` on that is not hidden has a bar. */
  lemma {:induction false} BarsComplete(poll: seq<int>, q: Question, from: nat)
    requires from <= |poll|
    ensures forall i :: from <= i < |poll| && !IsHidden(q, i) ==> i in Options(BarsFrom(poll, q, from))
    decreases |poll| - from
  {
    if from < |poll| {
      var rest := BarsFrom(poll, q, from + 1);
      BarsComplete(poll, q, from + 1);
      if IsHidden(q, from) {
        assert BarsFrom(poll, q, from) == rest;
      } else {
        var bars := [(from, poll[from])] + rest;
        assert BarsFrom(poll, q, from) == bars;
        var o := Options(bars);
        assert o == [from] + Options(rest);
        forall i | from <= i < |poll| && !IsHidden(q, i)
          ensures i in o
        {
          if i == from {
            assert o[0] == i;
          } else {
            assert i in Options(rest);
          }
        }
      }
    }
  }

  /** Each option comes after the ones before it. */
  predicate InOptionOrder(bars: seq<(int, int)>) {
    forall k, l :: 0 <= k < l < |bars| ==> bars[k].0 < bars[l].0
  }

  /** The bars come in option order. */
  lemma {:induction false} BarsInOrder(poll: seq<int>, q: Question, from: nat)
    requires from <= |poll|
    ensures InOptionOrder(BarsFrom(poll, q, from))
    decreases |poll| - from
  {
    if from < |poll| {
      var rest := BarsFrom(poll, q, from + 1);
      BarsInOrder(poll, q, from + 1);
      if !IsHidden(q, from) {
        AscendingCons(from, poll[from], rest);
      }
    }
  }

  lemma AscendingCons(i: int, x: int, rest: seq<(int, int)>)
    requires InOptionOrder(rest)
    requires forall k :: 0 <= k < |rest| ==> i < rest[k].0
    ensures InOptionOrder([(i, x)] + rest)
  {
    var bars := [(i, x)] + rest;
    forall k, l | 0 <= k < l < |bars|
      ensures bars[k].0 < bars[l].0
    {
      assert bars[l] == rest[l - 1];
      if k > 0 {
        assert bars[k] == rest[k - 1];
      }
    }
  }

  /** After 50:50 the poll shows two bars, the correct option's and the
      remaining wrong option's, which add up to the whole audience. */
  lemma PollAfterFiftyShowsTwo(q: Question, idx: int, shuffled: seq<int>)
    requires WellShaped(q) && q.hiddenOptions.Some?
    requires ShuffledWrong(shuffled, q.answerIndex)
    ensures var bars := PollBars(Poll(q.answerIndex, idx, q.hiddenOptions, shuffled), q);
      && |bars| == 2
      && forall k :: 0 <= k < |bars| ==>
        bars[k].1 == if bars[k].0 == q.answerIndex then CorrectShare(idx) else 100 - CorrectShare(idx)
  {
    PollSumsTo100(q.answerIndex, idx, q.hiddenOptions, shuffled);
    var poll := Poll(q.answerIndex, idx, q.hiddenOptions, shuffled);
    var bars := PollBars(poll, q);
    TwoOptionsShown(q);
  }

  /** A 50:50 leaves two of the four options on show. */
  lemma TwoOptionsShown(q: Question)
    requires WellShaped(q) && q.hiddenOptions.Some?
    ensures ShownCount(q, 0, 4) == 2
  {
    assert ShownCount(q, 0, 4) == ShownCount(q, 2, 4) + (if IsHidden(q, 0) then 0 else 1) + (if IsHidden(q, 1) then 0 else 1);
    assert ShownCount(q, 2, 4) == (if IsHidden(q, 2) then 0 else 1) + (if IsHidden(q, 3) then 0 else 1);
  }


  /** The chat form sends only a non-blank message, and never while a reply
      is awaited. */
  function ChatSubmitAllowed(chatInput: string, isLoading: bool): (allowed: bool)
    ensures allowed <==> !Blank(chatInput) && !isLoading
  {
    Trim(chatInput) != [] && !isLoading
  }

  /** The three lifeline buttons are disabled exactly by their used flag. */
  function LifelineButtonsDisabled(l: Lifelines): (d: (bool, bool, bool))
    ensures d.0 <==> l.fifty
    ensures d.1 <==> l.audience
    ensures d.2 <==> l.chat
  {
    (l.fifty, l.audience, l.chat)
  }

  /** The heading of the lifeline panel, absent when the panel is closed. */
  function PanelHeading(result: LifelineResult): (h: Option<string>)
    ensures h.None? <==> result.NoResult?
    ensures result.AudiencePoll? ==> h == Some("Hasil Polling Audiens")
    ensures result.Chat? ==> h == Some("Chat Teman")
  {
    match result
    case NoResult => None
    case AudiencePoll(_) => Some("Hasil Polling Audiens")
    case Chat(_, _) => Some("Chat Teman")
  }
}

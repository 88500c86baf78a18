/** The countdown bar under the question: its width and its colour. */
module TimerBarView {

  datatype BarColor = Green | Yellow | Red

  /** The bar's width in percent: the share of the duration still left, or
      0 when there is no positive duration. */
  function Percentage(timeLeft: int, totalDuration: int): (p: real)
    ensures totalDuration <= 0 ==> p == 0.0
    ensures totalDuration > 0 ==> p * totalDuration as real == 100.0 * timeLeft as real
  {
    if totalDuration > 0 then (timeLeft as real / totalDuration as real) * 100.0 else 0.0
  }

  /** Green above half, yellow above a quarter, red otherwise. */
  function ColorOf(percentage: real): BarColor {
    if percentage > 50.0 then Green
    else if percentage > 25.0 then Yellow
    else Red
  }

  function BarColorFor(timeLeft: int, totalDuration: int): BarColor {
    ColorOf(Percentage(timeLeft, totalDuration))
  }

  /** Comparing a share of a positive whole against a threshold. */
  lemma ScaleCompare(p: real, t: real, l: real, c: real)
    requires t > 0.0 && p * t == 100.0 * l
    ensures p > c <==> 100.0 * l > c * t
  {
    if p > c {
      assert (p - c) * t > 0.0;
      assert (p - c) * t == p * t - c * t;
    } else {
      assert (c - p) * t >= 0.0;
      assert (c - p) * t == c * t - p * t;
    }
  }

  /** The two thresholds of the percentage, in whole seconds. */
  lemma HalfAndQuarter(timeLeft: int, totalDuration: int)
    requires totalDuration > 0
    ensures Percentage(timeLeft, totalDuration) > 50.0 <==> 2 * timeLeft > totalDuration
    ensures Percentage(timeLeft, totalDuration) > 25.0 <==> 4 * timeLeft > totalDuration
  {
    var p := Percentage(timeLeft, totalDuration);
    var t := totalDuration as real;
    var l := timeLeft as real;
    assert p * t == 100.0 * l;
    ScaleCompare(p, t, l, 50.0);
    ScaleCompare(p, t, l, 25.0);
  }

  /** In whole seconds: green while more than half the time is left,
      yellow while more than a quarter is, red from there on (and red when
      there is no duration). */
  lemma ColorThresholds(timeLeft: int, totalDuration: int)
    ensures totalDuration > 0 ==>
      && (BarColorFor(timeLeft, totalDuration) == Green <==> 2 * timeLeft > totalDuration)
      && (BarColorFor(timeLeft, totalDuration) == Yellow <==> 2 * timeLeft <= totalDuration < 4 * timeLeft)
      && (BarColorFor(timeLeft, totalDuration) == Red <==> 4 * timeLeft <= totalDuration)
    ensures totalDuration <= 0 ==> BarColorFor(timeLeft, totalDuration) == Red
  {
    if totalDuration > 0 {
      HalfAndQuarter(timeLeft, totalDuration);
    }
  }

  function Brightness(c: BarColor): nat {
    match c
    case Green => 2
    case Yellow => 1
    case Red => 0
  }

  /** As the countdown runs down the bar only moves from green to yellow to
      red, never back. */
  lemma ColorNeverBrightens(earlier: int, later: int, totalDuration: int)
    requires later <= earlier
    ensures Brightness(BarColorFor(later, totalDuration)) <= Brightness(BarColorFor(earlier, totalDuration))
  {
    ColorThresholds(earlier, totalDuration);
    ColorThresholds(later, totalDuration);
  }

  /** For the game's two durations: a 30-second question turns yellow at 15
      seconds and red at 7; a 90-second one at 45 and 22. */
  lemma GameDurations(timeLeft: int)
    ensures BarColorFor(timeLeft, 30) == Green <==> timeLeft >= 16
    ensures BarColorFor(timeLeft, 30) == Red <==> timeLeft <= 7
    ensures BarColorFor(timeLeft, 90) == Green <==> timeLeft >= 46
    ensures BarColorFor(timeLeft, 90) == Red <==> timeLeft <= 22
  {
    ColorThresholds(timeLeft, 30);
    ColorThresholds(timeLeft, 90);
  }
}

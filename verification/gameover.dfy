/** The end-of-game dialog: its title, its time display and the name it
    submits to the leaderboard. */
module GameOverView {
  import opened Text
  import opened JsMath

  /** `formatTime`: whole minutes and whole seconds, each padded to two
      digits, as `mm:ss`. */
  function FormatTime(seconds: real): string {
    var minutes := Floor(seconds / 60.0);
    var secs := Floor(Rem(seconds, 60.0));
    PadStart2(IntToString(minutes)) + ":" + PadStart2(IntToString(secs))
  }

  /** For a non-negative time the two halves are the whole seconds divided
      by 60 and their remainder. */
  lemma MinutesAndSeconds(seconds: real)
    requires seconds >= 0.0
    ensures Floor(seconds / 60.0) == Floor(seconds) / 60
    ensures Floor(Rem(seconds, 60.0)) == Floor(seconds) % 60
  {
    var f := Floor(seconds);
    var m := f / 60;
    assert 60 * m <= f < 60 * m + 60;
    assert (m as real) * 60.0 <= seconds < (m as real + 1.0) * 60.0;
    assert seconds / 60.0 * 60.0 == seconds;
    assert m as real <= seconds / 60.0 < m as real + 1.0;
    assert Floor(seconds / 60.0) == m;
    assert Trunc(seconds / 60.0) == m;
    var rest := Rem(seconds, 60.0);
    assert rest == seconds - 60.0 * m as real;
    assert (f - 60 * m) as real <= rest < (f - 60 * m + 1) as real;
  }

  /** A clock display `mm:ss` that reads back as `whole` seconds: the part
      before the colon is the minutes, the two digits after it the seconds
      below 60. */
  predicate ReadsBackAs(r: string, whole: int) {
    && |r| >= 5 && r[|r| - 3] == ':'
    && AllDigits(r[..|r| - 3]) && AllDigits(r[|r| - 2..])
    && ParseNat(r[|r| - 2..]) < 60
    && 60 * ParseNat(r[..|r| - 3]) + ParseNat(r[|r| - 2..]) == whole
  }

  /** For a non-negative time the display is the padded whole minutes and
      the padded remaining whole seconds. */
  lemma FormatTimeHalves(seconds: real)
    requires seconds >= 0.0
    ensures var f := Floor(seconds);
      FormatTime(seconds) == PadStart2(NatToString(f / 60)) + ":" + PadStart2(NatToString(f % 60))
  {
    MinutesAndSeconds(seconds);
  }

  /** Two digit strings joined by a colon read back as their minutes and
      seconds. */
  lemma ClockHalves(mm: string, ss: string, minutes: nat, secs: nat)
    requires |mm| >= 2 && AllDigits(mm) && ParseNat(mm) == minutes
    requires |ss| == 2 && AllDigits(ss) && ParseNat(ss) == secs && secs < 60
    ensures ReadsBackAs(mm + ":" + ss, 60 * minutes + secs)
  {
    var r := mm + ":" + ss;
    assert r[..|r| - 3] == mm;
    assert r[|r| - 2..] == ss;
  }

  /** The display of a non-negative time reads back as its whole seconds. */
  lemma FormatTimeRoundTrip(seconds: real)
    requires seconds >= 0.0
    ensures ReadsBackAs(FormatTime(seconds), Floor(seconds))
  {
    FormatTimeHalves(seconds);
    var f := Floor(seconds);
    PaddedNumber(f / 60);
    PaddedNumber(f % 60);
    ClockHalves(PadStart2(NatToString(f / 60)), PadStart2(NatToString(f % 60)), f / 60, f % 60);
    assert 60 * (f / 60) + f % 60 == f;
  }

  /** Two minutes and five seconds, with the fraction dropped. */
  lemma FormatTimeExample()
    ensures FormatTime(125.7) == "02:05"
  {
    MinutesAndSeconds(125.7);
    assert Floor(125.7) == 125;
    assert NatToString(2) == "2";
    assert NatToString(5) == "5";
  }

  /** Why the game ended, in the dialog's order of precedence. */
  datatype Ending = TimeUp | Disqualified | Champion | WalkedAway | WrongAnswer

  /** A timeout wins over disqualification, which wins over a win, which
      wins over a walk-away; otherwise the player answered wrongly. */
  function EndingOf(timedOut: bool, disqualified: bool, isWinner: bool, walkAway: bool): (e: Ending)
    ensures e == TimeUp <==> timedOut
    ensures e == Disqualified <==> !timedOut && disqualified
    ensures e == Champion <==> !timedOut && !disqualified && isWinner
    ensures e == WalkedAway <==> !timedOut && !disqualified && !isWinner && walkAway
    ensures e == WrongAnswer <==> !(timedOut || disqualified || isWinner || walkAway)
  {
    if timedOut then TimeUp
    else if disqualified then Disqualified
    else if isWinner then Champion
    else if walkAway then WalkedAway
    else WrongAnswer
  }

  /** The dialog's heading. */
  function Title(e: Ending): string {
    match e
    case TimeUp => "Waktu Habis"
    case Disqualified => "Diskualifikasi"
    case Champion => "JUARA!"
    case WalkedAway => "Selamat!"
    case WrongAnswer => "Permainan Berakhir"
  }

  /** The heading tells every ending apart. */
  lemma TitlesDistinct(a: Ending, b: Ending)
    ensures Title(a) == Title(b) <==> a == b
  {
  }

  /** The name field takes at most 20 characters. */
  function NameField(typed: string): (r: string)
    ensures |r| <= 20 && |r| <= |typed|
    ensures r == typed[..|r|]
    ensures |typed| <= 20 ==> r == typed
    ensures |typed| > 20 ==> r == typed[..20]
  {
    if |typed| <= 20 then typed else typed[..20]
  }

  /** `name.trim() || 'Anonymous'` */
  function SubmittedName(name: string): (r: string)
    ensures Blank(name) ==> r == "Anonymous"
    ensures !Blank(name) ==> r == Trim(name)
  {
    var t := Trim(name);
    if t == [] then "Anonymous" else t
  }

  /** The name the dialog submits for what was typed into its field. */
  function EnteredName(typed: string): string {
    SubmittedName(NameField(typed))
  }

  /** The name sent to the leaderboard is never empty, is already trimmed,
      and is no longer than what the field holds (or the default). */
  lemma SubmittedNameShape(typed: string)
    ensures var r := SubmittedName(NameField(typed));
      r != [] && Trim(r) == r && |r| <= 20
  {
    var n := NameField(typed);
    var r := SubmittedName(n);
    if Blank(n) {
      assert !Blank(r) by { assert !IsJsSpace(r[0]); }
      assert Trim(r) == r by {
        assert LeadingSpaces(r) == 0;
      }
    } else {
      TrimIdempotent(n);
    }
  }
}

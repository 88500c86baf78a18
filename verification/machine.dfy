/** The game as a whole: every user action, timer callback and awaited
    reply is an event, enabled when the screen offers it, and each event is
    one transition of the session. The invariants the game relies on hold
    from mount through any sequence of enabled events. */
module GameMachine {
  import opened Wrappers
  import opened Types
  import opened Constants
  import opened LifelineEngine
  import opened Ranking
  import opened Settlement
  import opened JsMath
  import opened Session
  import QuestionPanelView
  import GameOverView
  import Calendar

  datatype Event =
    | StartQuiz
    | PickMode(mode: GameMode)
    | Acknowledge
    | Arrive(response: Result<seq<Question>, string>, now: int)
    | ErrorBack
    | Choose(option: int)
    | Reveal(revealAt: nat)
    | Settle(settleAt: nat)
    | AskWalkAway
    | ConfirmWalk
    | CancelWalk
    | HideTab
    | Tick
    | PanelTick
    | Fifty(fiftyOrder: seq<int>)
    | Audience(pollOrder: seq<int>)
    | AskFriend
    | Reply(reply: string)
    | TypeChat(text: string)
    | SendChat
    | SubmitWinner(typedName: string, submittedAt: int, random: real, today: Calendar.Date)

  predicate AllWellShaped(qs: seq<Question>) {
    forall i :: 0 <= i < |qs| ==> WellShaped(qs[i])
  }

  function Current(s: Session): Question
    requires s.round.currentIdx < |s.questions|
  {
    s.questions[s.round.currentIdx]
  }

  /** A lifeline button can be pressed: a question is on screen and the
      button's lifeline is not spent. */
  predicate LifelineOffered(s: Session, used: bool) {
    OnQuestion(s) && !used
  }

  /** When each event can happen. Buttons exist only on the screen that
      shows them and only while not disabled; timer callbacks only while
      their timer runs; replies only for requests that are out; the
      random orders are shuffles of the wrong options. */
  predicate Enabled(s: Session, e: Event) {
    match e
    case StartQuiz => s.gameState == Welcome
    case PickMode(_) => s.dialogs.showModeSelection
    case Acknowledge => s.dialogs.showEtiquette
    case Arrive(response, _) =>
      s.inflight.awaitingQuestions && (response.Success? ==> AllWellShaped(response.value))
    case ErrorBack => s.gameState == Error
    case Choose(i) =>
      && OnQuestion(s) && 0 <= i < 4
      && !QuestionPanelView.Flags(Current(s), s.round.selected, s.round.revealed, s.round.locked, i).isDisabled
    case Reveal(k) => k < |s.inflight.pending| && s.inflight.pending[k].stage == AwaitReveal
    case Settle(k) => k < |s.inflight.pending| && s.inflight.pending[k].stage == AwaitSettle
    case AskWalkAway => s.gameState == Playing
    case ConfirmWalk => s.dialogs.confirmingWalkAway
    case CancelWalk => s.dialogs.confirmingWalkAway
    case HideTab => true
    case Tick => s.clock.running
    case PanelTick => s.panel.timer.Some?
    case Fifty(order) =>
      && LifelineOffered(s, s.lifelines.fifty) && WellShaped(Current(s))
      && ShuffledWrong(order, Current(s).answerIndex)
    case Audience(order) =>
      && LifelineOffered(s, s.lifelines.audience) && WellShaped(Current(s))
      && ShuffledWrong(order, Current(s).answerIndex)
    case AskFriend => LifelineOffered(s, s.lifelines.chat)
    case Reply(_) => s.inflight.chatRequests > 0
    case TypeChat(_) => OnQuestion(s) && s.panel.result.Chat? && !s.panel.result.isLoading
    case SendChat =>
      && OnQuestion(s) && s.panel.result.Chat?
      && QuestionPanelView.ChatSubmitAllowed(s.panel.chatInput, s.panel.result.isLoading)
    case SubmitWinner(_, _, random, today) =>
      && s.gameState == GameOver
      && Calendar.ValidDate(today) && today.year >= 101 && 0.0 <= random < 1.0
  }

  /** The transition of an enabled event. */
  function Step(s: Session, e: Event): Session
    requires Enabled(s, e)
  {
    if e.StartQuiz? || e.PickMode? || e.Acknowledge? || e.ErrorBack? then
      MenuStep(s, e)
    else if e.Arrive? then
      ArriveStep(s, e)
    else if e.SubmitWinner? then
      SubmitStep(s, e)
    else if e.Choose? || e.Reveal? || e.Settle? || e.Tick? then
      AnswerStep(s, e)
    else if e.AskWalkAway? || e.ConfirmWalk? || e.CancelWalk? || e.HideTab? then
      EndingStep(s, e)
    else if e.Fifty? || e.Audience? || e.AskFriend? then
      LifelineStep(s, e)
    else
      PanelStep(s, e)
  }

  /** The screens around the game: menu, mode, notice and error. */
  function MenuStep(s: Session, e: Event): Session
    requires Enabled(s, e)
    requires e.StartQuiz? || e.PickMode? || e.Acknowledge? || e.ErrorBack?
  {
    match e
    case StartQuiz => StartQuizFlow(s)
    case PickMode(mode) => SelectMode(s, mode)
    case Acknowledge => AcknowledgeEtiquette(s)
    case ErrorBack => BackToMenu(s)
  }

  /** The questions' arrival. */
  function ArriveStep(s: Session, e: Event): Session
    requires Enabled(s, e) && e.Arrive?
  {
    QuestionsArrive(s, e.response, e.now)
  }

  /** The winner's name, as the field holds it. */
  function SubmitStep(s: Session, e: Event): Session
    requires e.SubmitWinner? && 0.0 <= e.random < 1.0 && Calendar.ValidDate(e.today) && e.today.year >= 101
  {
    SubmitName(s, GameOverView.EnteredName(e.typedName), e.submittedAt, e.random, e.today)
  }

  /** Answering and the question countdown. */
  function AnswerStep(s: Session, e: Event): Session
    requires Enabled(s, e)
    requires e.Choose? || e.Reveal? || e.Settle? || e.Tick?
  {
    match e
    case Choose(i) => ChooseAnswer(s, i)
    case Reveal(k) => RevealAnswer(s, k)
    case Settle(k) => SettleAnswer(s, k)
    case Tick => QuestionTick(s)
  }

  /** Walking away and leaving the tab. */
  function EndingStep(s: Session, e: Event): Session
    requires Enabled(s, e)
    requires e.AskWalkAway? || e.ConfirmWalk? || e.CancelWalk? || e.HideTab?
  {
    match e
    case AskWalkAway => WalkAway(s)
    case ConfirmWalk => ConfirmWalkAway(s)
    case CancelWalk => CancelWalkAway(s)
    case HideTab => TabHidden(s)
  }

  /** The three lifelines. */
  function LifelineStep(s: Session, e: Event): Session
    requires Enabled(s, e)
    requires e.Fifty? || e.Audience? || e.AskFriend?
  {
    match e
    case Fifty(order) => UseFifty(s, order)
    case Audience(order) => UseAudience(s, order)
    case AskFriend => UseChat(s)
  }

  /** The lifeline panel: its countdown and the chat with the friend. */
  function PanelStep(s: Session, e: Event): Session
    requires Enabled(s, e)
    requires e.PanelTick? || e.Reply? || e.TypeChat? || e.SendChat?
  {
    match e
    case PanelTick => LifelineTick(s)
    case Reply(text) => ChatReply(s, text)
    case TypeChat(text) => ChatInputChange(s, text)
    case SendChat => SendChatMessage(s)
  }

  /** A running question countdown belongs to the question on screen and
      has between one second and its full duration left. */
  predicate ClockSound(s: Session) {
    && OnQuestion(s)
    && s.clock.timeLeft.Some? && s.clock.totalDuration.Some?
    && 1 <= s.clock.timeLeft.value <= s.clock.totalDuration.value
  }

  /** What holds of every reachable session. */
  predicate Valid(s: Session) {
    && AllWellShaped(s.questions)
    && (s.clock.running ==> ClockSound(s))
    && (s.panel.timer.Some? ==> 1 <= s.panel.timer.value <= 30)
    && s.round.points >= 0 && s.round.points % 10 == 0
    && (s.panel.result.AudiencePoll? ==> |s.panel.result.poll| == 4 && Sum(s.panel.result.poll) == 100)
  }

  /** The app starts in a valid session. */
  lemma MountValid(storedNormal: StoredBoard, storedHard: StoredBoard, today: Calendar.Date)
    requires Calendar.ValidDate(today) && today.year >= 101
    ensures Valid(Mount(storedNormal, storedHard, today))
  {
  }

  /** Every enabled event keeps the session valid. */
  lemma StepPreservesValid(s: Session, e: Event)
    requires Valid(s) && Enabled(s, e)
    ensures Valid(Step(s, e))
  {
    if e.StartQuiz? || e.PickMode? || e.Acknowledge? || e.ErrorBack? {
      MenuKeepsValid(s, e);
    } else if e.Arrive? {
      ArriveKeepsValid(s, e.response, e.now);
    } else if e.SubmitWinner? {
      SubmitKeepsValid(s, e);
    } else if e.Choose? || e.Reveal? || e.Settle? || e.Tick? {
      AnswerKeepsValid(s, e);
    } else if e.AskWalkAway? || e.ConfirmWalk? || e.CancelWalk? || e.HideTab? {
      EndingKeepsValid(s, e);
    } else if e.Fifty? || e.Audience? || e.AskFriend? {
      LifelineKeepsValid(s, e);
    } else {
      PanelKeepsValid(s, e);
    }
  }

  lemma MenuKeepsValid(s: Session, e: Event)
    requires Valid(s) && Enabled(s, e)
    requires e.StartQuiz? || e.PickMode? || e.Acknowledge? || e.ErrorBack?
    ensures Valid(MenuStep(s, e))
  {
  }

  lemma ArriveKeepsValid(s: Session, response: Result<seq<Question>, string>, now: int)
    requires Valid(s) && Enabled(s, Arrive(response, now))
    ensures Valid(QuestionsArrive(s, response, now))
  {
  }

  lemma SubmitKeepsValid(s: Session, e: Event)
    requires Valid(s) && Enabled(s, e) && e.SubmitWinner?
    ensures Valid(Step(s, e))
  {
  }

  lemma AnswerKeepsValid(s: Session, e: Event)
    requires Valid(s) && Enabled(s, e)
    requires e.Choose? || e.Reveal? || e.Settle? || e.Tick?
    ensures Valid(AnswerStep(s, e))
  {
    if e.Settle? {
      SettleKeepsValid(s, e.settleAt);
    }
  }

  lemma EndingKeepsValid(s: Session, e: Event)
    requires Valid(s) && Enabled(s, e)
    requires e.AskWalkAway? || e.ConfirmWalk? || e.CancelWalk? || e.HideTab?
    ensures Valid(EndingStep(s, e))
  {
  }

  lemma LifelineKeepsValid(s: Session, e: Event)
    requires Valid(s) && Enabled(s, e)
    requires e.Fifty? || e.Audience? || e.AskFriend?
    ensures Valid(LifelineStep(s, e))
  {
    match e
    case Fifty(order) =>
      FiftyKeepsValid(s, order);
    case Audience(order) =>
      var q := Current(s);
      PollSumsTo100(q.answerIndex, s.round.currentIdx, q.hiddenOptions, order);
    case AskFriend =>
  }

  lemma PanelKeepsValid(s: Session, e: Event)
    requires Valid(s) && Enabled(s, e)
    requires e.PanelTick? || e.Reply? || e.TypeChat? || e.SendChat?
    ensures Valid(PanelStep(s, e))
  {
  }

  lemma FiftyKeepsValid(s: Session, order: seq<int>)
    requires Valid(s) && OnQuestion(s) && WellShaped(Current(s)) && ShuffledWrong(order, Current(s).answerIndex)
    ensures Valid(UseFifty(s, order))
  {
    var r := UseFifty(s, order);
    var i := s.round.currentIdx;
    forall j | 0 <= j < |r.questions|
      ensures WellShaped(r.questions[j])
    {
      if j != i {
        assert r.questions[j] == s.questions[j];
      }
    }
  }

  lemma SettleKeepsValid(s: Session, k: nat)
    requires Valid(s) && Enabled(s, Settle(k))
    ensures Valid(SettleAnswer(s, k))
  {
  }

  /** The session after `events` in turn, or None when one of them is not
      enabled when its turn comes. */
  function Run(s: Session, events: seq<Event>): Option<Session>
    decreases |events|
  {
    if events == [] then Some(s)
    else if Enabled(s, events[0]) then Run(Step(s, events[0]), events[1..])
    else None
  }

  /** Every session reachable from a valid one is valid. */
  lemma {:induction false} RunPreservesValid(s: Session, events: seq<Event>)
    requires Valid(s) && Run(s, events).Some?
    ensures Valid(Run(s, events).value)
    decreases |events|
  {
    if events != [] {
      StepPreservesValid(s, events[0]);
      RunPreservesValid(Step(s, events[0]), events[1..]);
    }
  }

  /** `n` times the same event. */
  function Repeat(e: Event, n: nat): (es: seq<Event>)
    ensures |es| == n && forall k :: 0 <= k < n ==> es[k] == e
  {
    if n == 0 then [] else [e] + Repeat(e, n - 1)
  }

  /** Left alone, a running countdown runs out: after as many ticks as
      seconds are left, the game is over by timeout with 0 on the clock. */
  lemma {:induction false} TicksRunOut(s: Session)
    requires Valid(s) && s.clock.running
    ensures var t := Run(s, Repeat(Tick, s.clock.timeLeft.value));
      && t.Some? && t.value.gameState == GameOver && t.value.outcome.timedOut
      && t.value.clock.timeLeft == Some(0) && !t.value.clock.running
    decreases s.clock.timeLeft.value
  {
    var n := s.clock.timeLeft.value;
    var s1 := Step(s, Tick);
    assert Repeat(Tick, n)[1..] == Repeat(Tick, n - 1);
    if n > 1 {
      StepPreservesValid(s, Tick);
      assert s1.clock.timeLeft == Some(n - 1) && s1.clock.running;
      TicksRunOut(s1);
    } else {
      assert Repeat(Tick, n - 1) == [];
    }
  }

  /** Left alone, the lifeline panel closes after as many panel ticks as
      its timer shows, with nothing else changed. */
  lemma {:induction false} PanelRunsOut(s: Session)
    requires Valid(s) && s.panel.timer.Some?
    ensures var t := Run(s, Repeat(PanelTick, s.panel.timer.value));
      && t.Some? && t.value.panel.timer.None? && t.value.panel.result.NoResult?
      && t.value.(panel := s.panel) == s
    decreases s.panel.timer.value
  {
    var n := s.panel.timer.value;
    var s1 := Step(s, PanelTick);
    assert Repeat(PanelTick, n)[1..] == Repeat(PanelTick, n - 1);
    if n > 1 {
      StepPreservesValid(s, PanelTick);
      PanelRunsOut(s1);
    } else {
      assert Repeat(PanelTick, n - 1) == [];
    }
  }

  /** Running an enabled first event, then the rest. */
  lemma RunFirst(s: Session, e: Event, rest: seq<Event>)
    requires Enabled(s, e)
    ensures Run(s, [e] + rest) == Run(Step(s, e), rest)
  {
    assert ([e] + rest)[1..] == rest;
  }

  /** The session's question on screen can be answered and no answer is
      waiting. */
  predicate ReadyToAnswer(s: Session) {
    && Valid(s) && OnQuestion(s) && !s.round.locked && s.inflight.pending == []
  }

  /** Locking in a visible option leaves exactly one pending answer. */
  lemma LockIn(s: Session, i: int)
    requires ReadyToAnswer(s) && 0 <= i < 4 && !QuestionPanelView.IsHidden(Current(s), i)
    ensures Enabled(s, Choose(i)) && Step(s, Choose(i)) == ChooseAnswer(s, i)
    ensures ChooseAnswer(s, i).inflight.pending
      == [PendingAnswer(AwaitReveal, i == Current(s).answerIndex, PrizeAt(s.mode, s.round.currentIdx),
                        s.round.currentIdx == |s.questions| - 1)]
  {
  }

  /** The reveal of the one pending answer. */
  lemma RevealOnly(s: Session)
    requires |s.inflight.pending| == 1 && s.inflight.pending[0].stage == AwaitReveal
    ensures Enabled(s, Reveal(0)) && Step(s, Reveal(0)) == RevealAnswer(s, 0)
    ensures RevealAnswer(s, 0).inflight.pending == [s.inflight.pending[0].(stage := AwaitSettle)]
  {
  }

  /** The settlement of the one pending answer. */
  lemma SettleOnly(s: Session)
    requires |s.inflight.pending| == 1 && s.inflight.pending[0].stage == AwaitSettle
    ensures Enabled(s, Settle(0)) && Step(s, Settle(0)) == SettleAnswer(s, 0)
    ensures SettleAnswer(s, 0).inflight.pending == []
  {
  }

  /** A correct answer that is not the last: once revealed and settled,
      the tier's prize is the score, ten points are added, and the next
      question is on screen with its countdown running from the full
      duration. */
  lemma CorrectAnswerAdvances(s: Session)
    requires ReadyToAnswer(s)
    requires s.round.currentIdx + 1 < |s.questions| && s.round.currentIdx < QuestionCount(s.mode)
    ensures var idx := s.round.currentIdx;
      var t := Run(s, [Choose(Current(s).answerIndex), Reveal(0), Settle(0)]);
      && t.Some? && t.value.gameState == Playing && t.value.outcome == s.outcome
      && t.value.round.currentIdx == idx + 1 && t.value.round.score == PrizeTiers(s.mode)[idx].prize
      && t.value.round.points == s.round.points + 10
      && t.value.clock.running && t.value.clock.timeLeft == Some(QuestionDuration(s.questions[idx + 1]))
      && t.value.inflight.pending == []
  {
    var i := Current(s).answerIndex;
    var idx := s.round.currentIdx;
    LockIn(s, i);
    var s1 := ChooseAnswer(s, i);
    RunFirst(s, Choose(i), [Reveal(0), Settle(0)]);
    RevealOnly(s1);
    var s2 := RevealAnswer(s1, 0);
    RunFirst(s1, Reveal(0), [Settle(0)]);
    assert s2.gameState == Playing && s2.questions == s.questions && s2.round.currentIdx == idx;
    var p := s2.inflight.pending[0];
    assert p.correct && p.prize == Some(PrizeTiers(s.mode)[idx].prize) && !p.last;
    SettleOnly(s2);
    var s3 := SettleAnswer(s2, 0);
    assert s3.gameState == Playing && OnQuestion(s3);
    RunFirst(s2, Settle(0), []);
    assert Run(s, [Choose(i), Reveal(0), Settle(0)]) == Some(s3);
  }

  /** A wrong answer, once revealed and settled, ends the game where it
      stood: same question, same score, no outcome flag set, so the player
      leaves with the last guaranteed level's prize. */
  lemma WrongAnswerEnds(s: Session, i: int)
    requires ReadyToAnswer(s) && s.outcome == NoOutcome
    requires 0 <= i < 4 && i != Current(s).answerIndex && !QuestionPanelView.IsHidden(Current(s), i)
    ensures var t := Run(s, [Choose(i), Reveal(0), Settle(0)]);
      && t.Some? && t.value.gameState == GameOver && !t.value.clock.running
      && t.value.round.currentIdx == s.round.currentIdx && t.value.round.score == s.round.score
      && Winnings(t.value) == FinalWinnings(s.mode, false, false, s.round.score, s.round.currentIdx)
  {
    LockIn(s, i);
    var s1 := ChooseAnswer(s, i);
    RunFirst(s, Choose(i), [Reveal(0), Settle(0)]);
    RevealOnly(s1);
    var s2 := RevealAnswer(s1, 0);
    RunFirst(s1, Reveal(0), [Settle(0)]);
    assert s2.gameState == Playing && s2.outcome == NoOutcome && s2.mode == s.mode;
    SettleOnly(s2);
    RunFirst(s2, Settle(0), []);
  }

  /** Walking away while a correct answer is locked in: the game ends at
      once with the score so far, but the settlement still runs and pays
      the locked question's prize, which is what the walk-away then takes
      home. */
  lemma WalkAwayAfterLockIsPaid(s: Session)
    requires ReadyToAnswer(s) && s.outcome == NoOutcome
    requires s.round.currentIdx + 1 < |s.questions| && s.round.currentIdx < QuestionCount(s.mode)
    ensures var t := Run(s, [Choose(Current(s).answerIndex), AskWalkAway, ConfirmWalk, Reveal(0), Settle(0)]);
      && t.Some? && t.value.gameState == GameOver && t.value.outcome == NoOutcome.(walkedAway := true)
      && t.value.round.currentIdx == s.round.currentIdx + 1
      && Winnings(t.value) == PrizeTiers(s.mode)[s.round.currentIdx].prize
  {
    var i := Current(s).answerIndex;
    LockIn(s, i);
    var s1 := ChooseAnswer(s, i);
    RunFirst(s, Choose(i), [AskWalkAway, ConfirmWalk, Reveal(0), Settle(0)]);
    WalkAwayConfirmed(s1, [Reveal(0), Settle(0)]);
    var s3 := ConfirmWalkAway(WalkAway(s1));
    assert s3.inflight == s1.inflight && s3.round == s1.round && s3.outcome == NoOutcome.(walkedAway := true);
    RevealOnly(s3);
    var s4 := RevealAnswer(s3, 0);
    RunFirst(s3, Reveal(0), [Settle(0)]);
    SettleOnly(s4);
    RunFirst(s4, Settle(0), []);
  }

  /** Asking to walk away and confirming it, during play. */
  lemma WalkAwayConfirmed(s: Session, rest: seq<Event>)
    requires s.gameState == Playing
    ensures Run(s, [AskWalkAway, ConfirmWalk] + rest) == Run(ConfirmWalkAway(WalkAway(s)), rest)
  {
    assert [AskWalkAway, ConfirmWalk] + rest == [AskWalkAway] + ([ConfirmWalk] + rest);
    RunFirst(s, AskWalkAway, [ConfirmWalk] + rest);
    RunFirst(WalkAway(s), ConfirmWalk, rest);
  }

  /** Hiding the tab while the last question's correct answer is locked
      in: the game ends as a disqualification, the settlement then makes
      the player the winner too, the dialog still reads as a
      disqualification, and the player takes home the top prize. */
  lemma DisqualifiedWinner(s: Session)
    requires ReadyToAnswer(s) && s.outcome == NoOutcome
    requires s.round.currentIdx == |s.questions| - 1 && s.round.currentIdx < QuestionCount(s.mode)
    ensures var t := Run(s, [Choose(Current(s).answerIndex), HideTab, Reveal(0), Settle(0)]);
      && t.Some? && t.value.gameState == GameOver
      && t.value.outcome == NoOutcome.(disqualified := true, isWinner := true)
      && GameOverView.EndingOf(false, true, true, false) == GameOverView.Disqualified
      && Winnings(t.value) == PrizeTiers(s.mode)[s.round.currentIdx].prize
  {
    var i := Current(s).answerIndex;
    LockIn(s, i);
    var s1 := ChooseAnswer(s, i);
    RunFirst(s, Choose(i), [HideTab, Reveal(0), Settle(0)]);
    var s2 := TabHidden(s1);
    assert Step(s1, HideTab) == s2;
    RunFirst(s1, HideTab, [Reveal(0), Settle(0)]);
    assert s2.inflight == s1.inflight && s2.gameState == GameOver;
    RevealOnly(s2);
    var s3 := RevealAnswer(s2, 0);
    RunFirst(s2, Reveal(0), [Settle(0)]);
    var p := s3.inflight.pending[0];
    assert p.correct && p.prize == Some(PrizeTiers(s.mode)[s.round.currentIdx].prize) && p.last;
    assert s3.outcome == NoOutcome.(disqualified := true);
    SettleOnly(s3);
    var s4 := SettleAnswer(s3, 0);
    assert s4.outcome == NoOutcome.(disqualified := true, isWinner := true);
    assert s4.round.score == PrizeTiers(s.mode)[s.round.currentIdx].prize;
    RunFirst(s3, Settle(0), []);
    assert Run(s, [Choose(i), HideTab, Reveal(0), Settle(0)]) == Some(s4);
  }

  /** A spent lifeline stays spent for the rest of the game: only starting
      a game (the notice's acknowledgement) and the return to the menu
      after a winner's name is recorded give all three back. */
  lemma LifelinesOnlyGrow(s: Session, e: Event)
    requires Enabled(s, e) && !e.Acknowledge? && !e.SubmitWinner?
    ensures LifelinesGrow(s.lifelines, Step(s, e).lifelines)
  {
    // One case per step function, so that each is unfolded on its own.
    if e.StartQuiz? || e.PickMode? || e.ErrorBack? {
    } else if e.Arrive? {
    } else if e.Choose? || e.Reveal? || e.Settle? || e.Tick? {
    } else if e.AskWalkAway? || e.ConfirmWalk? || e.CancelWalk? || e.HideTab? {
    } else if e.Fifty? || e.Audience? || e.AskFriend? {
    } else {
    }
  }

  /** While a question is on, a lifeline can be used exactly when the panel
      leaves its button enabled. */
  lemma LifelineButtonsGateEvents(s: Session, order: seq<int>)
    requires OnQuestion(s) && WellShaped(Current(s)) && ShuffledWrong(order, Current(s).answerIndex)
    ensures var d := QuestionPanelView.LifelineButtonsDisabled(s.lifelines);
      && (Enabled(s, Fifty(order)) <==> !d.0)
      && (Enabled(s, Audience(order)) <==> !d.1)
      && (Enabled(s, AskFriend) <==> !d.2)
  {
  }

  /** Apart from starting a game and recording a winner, no event moves the
      game back to an earlier question. */
  lemma IndexNeverDecreases(s: Session, e: Event)
    requires Enabled(s, e) && !e.Acknowledge? && !e.SubmitWinner?
    ensures Step(s, e).round.currentIdx >= s.round.currentIdx
  {
    // One case per step function, so that each is unfolded on its own.
    if e.StartQuiz? || e.PickMode? || e.ErrorBack? {
    } else if e.Arrive? {
    } else if e.Choose? || e.Reveal? || e.Settle? || e.Tick? {
    } else if e.AskWalkAway? || e.ConfirmWalk? || e.CancelWalk? || e.HideTab? {
    } else if e.Fifty? || e.Audience? || e.AskFriend? {
    } else {
    }
  }

  /** A winner's name is recorded on the mode's board, which is stored
      under this week's identifier: read back in the same week it is
      exactly the board in memory, and in any other week it is empty. The
      other mode's board is untouched. */
  lemma WinnerRecorded(s: Session, typed: string, now: int, random: real, today: Calendar.Date, other: string)
    requires s.gameState == GameOver && s.outcome.isWinner && s.startTime.Some? && s.startTime != Some(0)
    requires Calendar.ValidDate(today) && today.year >= 101 && 0.0 <= random < 1.0
    ensures var t := Step(s, SubmitWinner(typed, now, random, today));
      var week := Calendar.WeekIdentifier(today);
      && t.gameState == Welcome
      && |BoardOf(t.boards, s.mode)| == Min(BoardSize, |BoardOf(s.boards, s.mode)| + 1)
      && (forall cur :: LoadBoard(cur, StoredOf(t.boards, s.mode), week) == BoardOf(t.boards, s.mode))
      && (other != week ==> forall cur :: LoadBoard(cur, StoredOf(t.boards, s.mode), other) == [])
      && (forall m :: m != s.mode ==> BoardOf(t.boards, m) == BoardOf(s.boards, m))
  {
    var t := Step(s, SubmitWinner(typed, now, random, today));
    var week := Calendar.WeekIdentifier(today);
    forall cur
      ensures LoadBoard(cur, StoredOf(t.boards, s.mode), week) == BoardOf(t.boards, s.mode)
      ensures other != week ==> LoadBoard(cur, StoredOf(t.boards, s.mode), other) == []
    {
      SaveLoadRoundTrip(cur, BoardOf(t.boards, s.mode), week, week);
      SaveLoadRoundTrip(cur, BoardOf(t.boards, s.mode), week, other);
    }
  }
}

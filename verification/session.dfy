/** The game session: the state the app keeps and one pure function per
    handler, timer callback and asynchronous continuation.

    React batches the state updates of one handler, so each handler is one
    transition. After a transition that changes the screen, the question
    index or the question array, the question-timer effect runs again: it
    restarts the countdown from the current question's full duration when a
    question is on screen, and stops it otherwise.

    Timer callbacks and awaited replies are separate transitions: a locked
    answer leaves a pending reveal, then a pending settlement; a chat
    request leaves a pending reply. None of them is ever cancelled. The
    values the answer callbacks read from the render in which the answer
    was locked (correctness, prize, whether it was the last question) are
    captured in the pending record; the updates they make through updater
    functions (`prev => prev + 1`) apply to the state at the time they run. */
module Session {
  import opened Wrappers
  import opened Types
  import opened Constants
  import opened Settlement
  import opened LifelineEngine
  import opened Ranking
  import opened Text
  import Calendar

  /** Progress through the ladder and the answer board of the question on
      screen. */
  datatype Round = Round(currentIdx: nat, score: int, points: int, selected: Option<int>, locked: bool, revealed: bool)

  const StartOfRound := Round(0, 0, 0, None, false, false)

  /** How the game ended; several can hold at once. */
  datatype Outcome = Outcome(walkedAway: bool, isWinner: bool, disqualified: bool, timedOut: bool)

  const NoOutcome := Outcome(false, false, false, false)

  /** The lifeline panel: its content, its countdown and the chat input. The
      countdown runs exactly while `timer` holds a value: the source starts
      and clears its interval together with that value. */
  datatype Panel = Panel(result: LifelineResult, timer: Option<int>, chatInput: string)

  const ClosedPanel := Panel(NoResult, None, [])

  /** The two boards in memory and what the two storage keys hold. */
  datatype Boards = Boards(normal: seq<LeaderboardEntry>, hard: seq<LeaderboardEntry>,
                           storedNormal: StoredBoard, storedHard: StoredBoard)

  /** The modal dialogs that can be open. */
  datatype Dialogs = Dialogs(confirmingWalkAway: bool, showEtiquette: bool, showModeSelection: bool)

  /** The question countdown: seconds left, the full duration (for the
      progress bar), and whether the one-second interval is running. */
  datatype Countdown = Countdown(timeLeft: Option<int>, totalDuration: Option<int>, running: bool)

  datatype Stage = AwaitReveal | AwaitSettle

  /** An answer locked in, waiting for its reveal and then its settlement.
      `prize` is the ladder's prize at the question's index, if the ladder
      has that tier. */
  datatype PendingAnswer = PendingAnswer(stage: Stage, correct: bool, prize: Option<int>, last: bool)

  /** Work started and not yet finished: the question request, hint
      requests, and locked answers. */
  datatype InFlight = InFlight(awaitingQuestions: bool, chatRequests: nat, pending: seq<PendingAnswer>)

  datatype Session = Session(
    gameState: GameState,
    mode: GameMode,
    questions: seq<Question>,
    round: Round,
    lifelines: Lifelines,
    panel: Panel,
    outcome: Outcome,
    boards: Boards,
    dialogs: Dialogs,
    clock: Countdown,
    startTime: Option<int>,
    inflight: InFlight)

  /** The seconds allowed for a question: 90 for mathematics, 30 otherwise. */
  function QuestionDuration(q: Question): (d: int)
    ensures d == 90 <==> q.category == "Matematika"
    ensures d == 30 <==> q.category != "Matematika"
  {
    if q.category == "Matematika" then 90 else 30
  }

  /** A question is on screen: the answer panel and the countdown exist. */
  predicate OnQuestion(s: Session) {
    s.gameState == Playing && 0 < |s.questions| && s.round.currentIdx < |s.questions|
  }

  /** The question-timer effect: a full countdown for the question on
      screen, or a stopped timer that keeps its last value. */
  function EffectClock(s: Session): (c: Countdown)
    ensures OnQuestion(s) ==>
      c.running && c.timeLeft == c.totalDuration == Some(QuestionDuration(s.questions[s.round.currentIdx]))
    ensures !OnQuestion(s) ==> c == s.clock.(running := false)
  {
    if OnQuestion(s) then
      var d := QuestionDuration(s.questions[s.round.currentIdx]);
      Countdown(Some(d), Some(d), true)
    else
      s.clock.(running := false)
  }

  /** `after`, followed by the question-timer effect when one of its
      dependencies changed. */
  function Rerender(before: Session, after: Session, questionsReplaced: bool): Session {
    if before.gameState != after.gameState || before.round.currentIdx != after.round.currentIdx || questionsReplaced
    then after.(clock := EffectClock(after))
    else after
  }

  /** What a reset leaves behind: a round at its start, no outcome, the
      lifeline panel closed, the clock stopped and not started. */
  predicate FreshRound(s: Session) {
    s.round == StartOfRound && s.outcome == NoOutcome && s.panel == ClosedPanel
    && !s.clock.running && s.startTime.None?
  }

  /** `resetGame`: a fresh round; a full reset also returns the lifelines.
      Questions, boards, work in flight and the screen are untouched. */
  function ResetGame(s: Session, fullReset: bool): (r: Session)
    ensures FreshRound(r)
    ensures r.lifelines == if fullReset then NoneUsed else s.lifelines
    ensures r.(round := s.round, outcome := s.outcome, panel := s.panel, clock := s.clock,
               startTime := s.startTime, lifelines := s.lifelines) == s
  {
    s.(round := StartOfRound, outcome := NoOutcome, panel := ClosedPanel,
       clock := s.clock.(running := false), startTime := None,
       lifelines := if fullReset then NoneUsed else s.lifelines)
  }

  /** `loadLeaderboard`: both boards read back from storage for the week of
      `today`. */
  function LoadLeaderboards(s: Session, today: Calendar.Date): (r: Session)
    requires Calendar.ValidDate(today) && today.year >= 101
    ensures var id := Calendar.WeekIdentifier(today);
      && r.boards.normal == LoadBoard(s.boards.normal, s.boards.storedNormal, id)
      && r.boards.hard == LoadBoard(s.boards.hard, s.boards.storedHard, id)
    ensures r.(boards := s.boards) == s
    ensures r.boards.storedNormal == s.boards.storedNormal && r.boards.storedHard == s.boards.storedHard
  {
    var id := Calendar.WeekIdentifier(today);
    s.(boards := s.boards.(normal := LoadBoard(s.boards.normal, s.boards.storedNormal, id),
                           hard := LoadBoard(s.boards.hard, s.boards.storedHard, id)))
  }

  /** The app as it mounts: the welcome screen in HARD mode with empty
      boards, then the stored boards loaded. */
  function Mount(storedNormal: StoredBoard, storedHard: StoredBoard, today: Calendar.Date): (r: Session)
    requires Calendar.ValidDate(today) && today.year >= 101
    ensures r.gameState == Welcome && r.mode == Hard && r.questions == [] && r.lifelines == NoneUsed
    ensures FreshRound(r) && r.inflight == InFlight(false, 0, [])
    ensures r.boards.storedNormal == storedNormal && r.boards.storedHard == storedHard
    ensures var id := Calendar.WeekIdentifier(today);
      && r.boards.normal == LoadBoard([], storedNormal, id)
      && r.boards.hard == LoadBoard([], storedHard, id)
    ensures r.dialogs == Dialogs(false, false, false)
  {
    var s := Session(Welcome, Hard, [], StartOfRound, NoneUsed, ClosedPanel, NoOutcome,
                     Boards([], [], storedNormal, storedHard), Dialogs(false, false, false),
                     Countdown(None, None, false), None, InFlight(false, 0, []));
    LoadLeaderboards(s, today)
  }

  /** `handleStartQuizFlow`: the mode picker opens. */
  function StartQuizFlow(s: Session): (r: Session)
    ensures r.dialogs == s.dialogs.(showModeSelection := true) && r.(dialogs := s.dialogs) == s
  {
    s.(dialogs := s.dialogs.(showModeSelection := true))
  }

  /** `handleModeSelect`: the mode is chosen and the etiquette notice opens. */
  function SelectMode(s: Session, mode: GameMode): (r: Session)
    ensures r.mode == mode && r.dialogs == s.dialogs.(showModeSelection := false, showEtiquette := true)
    ensures r.(mode := s.mode, dialogs := s.dialogs) == s
  {
    s.(mode := mode, dialogs := s.dialogs.(showModeSelection := false, showEtiquette := true))
  }

  /** `handleAcknowledgeEtiquette` up to its `await`: loading, with a full
      reset, while the question request is out. */
  function AcknowledgeEtiquette(s: Session): (r: Session)
    ensures r.gameState == Loading && FreshRound(r) && r.lifelines == NoneUsed
    ensures r.inflight.awaitingQuestions && r.dialogs == s.dialogs.(showEtiquette := false)
    ensures r.questions == s.questions && r.mode == s.mode && r.boards == s.boards
    ensures r.inflight.pending == s.inflight.pending && r.inflight.chatRequests == s.inflight.chatRequests
  {
    var t := ResetGame(s.(dialogs := s.dialogs.(showEtiquette := false), gameState := Loading,
                          inflight := s.inflight.(awaitingQuestions := true)), true);
    Rerender(s, t, false)
  }

  /** The rest of `handleAcknowledgeEtiquette`: the questions arrive and the
      game starts, clock running, or the request failed. */
  function QuestionsArrive(s: Session, response: Result<seq<Question>, string>, now: int): (r: Session)
    ensures !r.inflight.awaitingQuestions
    ensures response.Success? ==>
      r.gameState == Playing && r.questions == response.value && r.startTime == Some(now)
    ensures response.Success? && s.round.currentIdx < |response.value| ==>
      r.clock.running && r.clock.timeLeft == Some(QuestionDuration(response.value[s.round.currentIdx]))
    ensures response.Failure? ==> r.gameState == Error && r.questions == s.questions
    ensures response.Failure? && s.gameState != Error ==> r.clock == s.clock.(running := false)
    ensures r.inflight == s.inflight.(awaitingQuestions := false)
    ensures response.Success? ==>
      r.(inflight := s.inflight, questions := s.questions, startTime := s.startTime,
         gameState := s.gameState, clock := s.clock) == s
    ensures response.Failure? ==> r.(inflight := s.inflight, gameState := s.gameState, clock := s.clock) == s
  {
    match response
    case Success(qs) =>
      Rerender(s, s.(inflight := s.inflight.(awaitingQuestions := false), questions := qs,
                     startTime := Some(now), gameState := Playing), true)
    case Failure(_) =>
      Rerender(s, s.(inflight := s.inflight.(awaitingQuestions := false), gameState := Error), false)
  }

  /** "Back to Menu" on the error screen. */
  function BackToMenu(s: Session): (r: Session)
    ensures r.gameState == Welcome
    ensures r.clock == if s.gameState != Welcome then s.clock.(running := false) else s.clock
    ensures r.(gameState := s.gameState, clock := s.clock) == s
  {
    Rerender(s, s.(gameState := Welcome), false)
  }

  /** The prize of the ladder's tier at `idx`, if it has one. */
  function PrizeAt(mode: GameMode, idx: int): (p: Option<int>)
    ensures p.Some? <==> 0 <= idx < QuestionCount(mode)
    ensures p.Some? ==> PrizeTiers(mode)[idx].step == idx + 1 && p.value == PrizeTiers(mode)[idx].prize
  {
    TierTableShape(mode);
    if 0 <= idx < |PrizeTiers(mode)| then TierAt(mode, idx); Some(PrizeTiers(mode)[idx].prize) else None
  }

  /** `handleChooseAnswer` up to its first `setTimeout`: a no-op while an
      answer is locked; otherwise both timers stop, the answer is locked in
      and a reveal is scheduled with what the callbacks will read. */
  function ChooseAnswer(s: Session, index: int): (r: Session)
    requires s.round.currentIdx < |s.questions|
    ensures s.round.locked ==> r == s
    ensures !s.round.locked ==>
      && r.round == s.round.(locked := true, selected := Some(index))
      && r.clock == s.clock.(running := false)
      && r.panel == s.panel.(timer := None)
      && r.inflight.(pending := s.inflight.pending) == s.inflight
      && r.(round := s.round, clock := s.clock, panel := s.panel, inflight := s.inflight) == s
      && |r.inflight.pending| == |s.inflight.pending| + 1
      && r.inflight.pending[..|s.inflight.pending|] == s.inflight.pending
    ensures !s.round.locked ==>
      var p := r.inflight.pending[|s.inflight.pending|];
      && p.stage == AwaitReveal
      && (p.correct <==> index == s.questions[s.round.currentIdx].answerIndex)
      && (p.last <==> s.round.currentIdx == |s.questions| - 1)
      && p.prize == PrizeAt(s.mode, s.round.currentIdx)
  {
    if s.round.locked then s
    else
      var idx := s.round.currentIdx;
      var p := PendingAnswer(AwaitReveal, index == s.questions[idx].answerIndex,
                             PrizeAt(s.mode, idx), idx + 1 >= |s.questions|);
      s.(clock := s.clock.(running := false), round := s.round.(locked := true, selected := Some(index)),
         panel := s.panel.(timer := None), inflight := s.inflight.(pending := s.inflight.pending + [p]))
  }

  /** The 1.5-second callback: the answer is revealed and the settlement
      scheduled. */
  function RevealAnswer(s: Session, k: nat): (r: Session)
    requires k < |s.inflight.pending| && s.inflight.pending[k].stage == AwaitReveal
    ensures r.round == s.round.(revealed := true)
    ensures r.inflight.pending == s.inflight.pending[k := s.inflight.pending[k].(stage := AwaitSettle)]
    ensures r.(round := s.round, inflight := s.inflight) == s
  {
    s.(round := s.round.(revealed := true),
       inflight := s.inflight.(pending := s.inflight.pending[k := s.inflight.pending[k].(stage := AwaitSettle)]))
  }

  function Remove<T>(xs: seq<T>, k: nat): (r: seq<T>)
    requires k < |xs|
    ensures |r| == |xs| - 1
    ensures forall j :: 0 <= j < k ==> r[j] == xs[j]
    ensures forall j :: k <= j < |r| ==> r[j] == xs[j + 1]
  {
    xs[..k] + xs[k + 1..]
  }

  /** The round after a correct answer that was not the last: ten more
      points, the next question, a clear board. */
  function NextQuestion(r: Round, prize: int): (n: Round)
    ensures n.currentIdx == r.currentIdx + 1 && n.score == prize && n.points == r.points + 10
    ensures n.selected.None? && !n.locked && !n.revealed
  {
    Round(r.currentIdx + 1, prize, r.points + 10, None, false, false)
  }

  /** The 2-second callback. A correct answer pays the tier's prize and ten
      points, then either wins the game (last question) or moves on to the
      next question with the board and the lifeline panel cleared; a wrong
      answer ends the game with nothing else changed. It runs whatever
      happened meanwhile. When the ladder has no tier at the index, reading
      its prize throws and a correct answer changes nothing. */
  function SettleAnswer(s: Session, k: nat): (r: Session)
    requires k < |s.inflight.pending| && s.inflight.pending[k].stage == AwaitSettle
    ensures r.inflight == s.inflight.(pending := Remove(s.inflight.pending, k))
    ensures r.lifelines == s.lifelines && r.questions == s.questions && r.mode == s.mode
    ensures r.boards == s.boards && r.startTime == s.startTime && r.dialogs == s.dialogs
    ensures !s.inflight.pending[k].correct ==>
      && r.gameState == GameOver && r.round == s.round && r.outcome == s.outcome
      && r.panel == s.panel && (s.gameState != GameOver ==> !r.clock.running)
    ensures s.inflight.pending[k].correct && s.inflight.pending[k].prize.None? ==>
      r == s.(inflight := r.inflight)
    ensures s.inflight.pending[k].correct && s.inflight.pending[k].prize.Some? && s.inflight.pending[k].last ==>
      && r.gameState == GameOver && r.outcome == s.outcome.(isWinner := true)
      && r.round == s.round.(score := s.inflight.pending[k].prize.value, points := s.round.points + 10)
      && r.panel == s.panel && (s.gameState != GameOver ==> !r.clock.running)
    ensures s.inflight.pending[k].correct && s.inflight.pending[k].prize.Some? && !s.inflight.pending[k].last ==>
      && r.gameState == s.gameState && r.outcome == s.outcome
      && r.round == NextQuestion(s.round, s.inflight.pending[k].prize.value)
      && r.panel == s.panel.(result := NoResult)
      && (OnQuestion(r) ==>
            r.clock.running && r.clock.timeLeft == Some(QuestionDuration(s.questions[s.round.currentIdx + 1])))
      && (!OnQuestion(r) ==> !r.clock.running)
  {
    var p := s.inflight.pending[k];
    var t := s.(inflight := s.inflight.(pending := Remove(s.inflight.pending, k)));
    if !p.correct then Rerender(t, t.(gameState := GameOver), false)
    else if p.prize.None? then t
    else if p.last then
      Rerender(t, t.(round := t.round.(score := p.prize.value, points := t.round.points + 10),
                     outcome := t.outcome.(isWinner := true), gameState := GameOver), false)
    else
      Rerender(t, t.(round := NextQuestion(t.round, p.prize.value),
                     panel := t.panel.(result := NoResult)), false)
  }

  /** `handleWalkAway`: the confirmation opens. */
  function WalkAway(s: Session): (r: Session)
    ensures r.dialogs == s.dialogs.(confirmingWalkAway := true) && r.(dialogs := s.dialogs) == s
  {
    s.(dialogs := s.dialogs.(confirmingWalkAway := true))
  }

  /** `handleConfirmWalkAway`: the game ends with the current score. The
      handler does not check the screen, nor stop the lifeline timer or the
      pending answer callbacks. */
  function ConfirmWalkAway(s: Session): (r: Session)
    ensures r.outcome == s.outcome.(walkedAway := true) && r.gameState == GameOver
    ensures r.dialogs == s.dialogs.(confirmingWalkAway := false) && r.clock == s.clock.(running := false)
    ensures r.(outcome := s.outcome, gameState := s.gameState, dialogs := s.dialogs, clock := s.clock) == s
  {
    Rerender(s, s.(clock := s.clock.(running := false), outcome := s.outcome.(walkedAway := true),
                   gameState := GameOver, dialogs := s.dialogs.(confirmingWalkAway := false)), false)
  }

  /** `handleCancelWalkAway` */
  function CancelWalkAway(s: Session): (r: Session)
    ensures r.dialogs == s.dialogs.(confirmingWalkAway := false) && r.(dialogs := s.dialogs) == s
  {
    s.(dialogs := s.dialogs.(confirmingWalkAway := false))
  }

  /** The visibility listener: hiding the tab during play disqualifies;
      at any other time it does nothing. */
  function TabHidden(s: Session): (r: Session)
    ensures s.gameState == Playing ==>
      && r.outcome == s.outcome.(disqualified := true) && r.gameState == GameOver
      && r.clock == s.clock.(running := false)
      && r.(outcome := s.outcome, gameState := s.gameState, clock := s.clock) == s
    ensures s.gameState != Playing ==> r == s
  {
    if s.gameState == Playing then
      Rerender(s, s.(outcome := s.outcome.(disqualified := true), gameState := GameOver), false)
    else s
  }

  /** One second of the question countdown: down by one while above one;
      otherwise the time is up and the game over, with 0 left. */
  function QuestionTick(s: Session): (r: Session)
    ensures s.clock.timeLeft.Some? && s.clock.timeLeft.value > 1 ==>
      r == s.(clock := s.clock.(timeLeft := Some(s.clock.timeLeft.value - 1)))
    ensures !(s.clock.timeLeft.Some? && s.clock.timeLeft.value > 1) ==>
      && r.outcome == s.outcome.(timedOut := true) && r.gameState == GameOver
      && r.clock == s.clock.(timeLeft := Some(0), running := false)
      && r.(outcome := s.outcome, gameState := s.gameState, clock := s.clock) == s
  {
    if s.clock.timeLeft.Some? && s.clock.timeLeft.value > 1 then
      s.(clock := s.clock.(timeLeft := Some(s.clock.timeLeft.value - 1)))
    else
      Rerender(s, s.(clock := s.clock.(running := false, timeLeft := Some(0)),
                     outcome := s.outcome.(timedOut := true), gameState := GameOver), false)
  }

  /** One second of the lifeline countdown; when it reaches 0 the timer
      stops and the lifeline panel closes. */
  function LifelineTick(s: Session): (r: Session)
    ensures s.panel.timer.Some? && s.panel.timer.value != 1 ==>
      r == s.(panel := s.panel.(timer := Some(s.panel.timer.value - 1)))
    ensures s.panel.timer == Some(1) ==> r == s.(panel := s.panel.(timer := None, result := NoResult))
    ensures s.panel.timer.None? ==> r == s
  {
    match s.panel.timer
    case None => s
    case Some(n) =>
      if n - 1 == 0 then s.(panel := s.panel.(timer := None, result := NoResult))
      else s.(panel := s.panel.(timer := Some(n - 1)))
  }

  /** `useFifty`: a no-op once used or while locked; otherwise the current
      question gets two hidden wrong options. The question array is
      replaced, so the countdown restarts in full. */
  function UseFifty(s: Session, shuffled: seq<int>): (r: Session)
    requires s.round.currentIdx < |s.questions| && WellShaped(s.questions[s.round.currentIdx])
    requires ShuffledWrong(shuffled, s.questions[s.round.currentIdx].answerIndex)
    ensures s.lifelines.fifty || s.round.locked ==> r == s
    ensures !(s.lifelines.fifty || s.round.locked) ==>
      var i := s.round.currentIdx;
      && r.lifelines == s.lifelines.(fifty := true)
      && |r.questions| == |s.questions|
      && (forall j :: 0 <= j < |s.questions| && j != i ==> r.questions[j] == s.questions[j])
      && r.questions[i].hiddenOptions.Some?
      && r.questions[i] == s.questions[i].(hiddenOptions := r.questions[i].hiddenOptions)
      && HiddenByFifty(r.questions[i].hiddenOptions.value, s.questions[i].answerIndex)
      && r.(lifelines := s.lifelines, questions := s.questions, clock := s.clock) == s
      && (s.gameState == Playing ==> r.clock == Countdown(Some(QuestionDuration(s.questions[i])),
                                                         Some(QuestionDuration(s.questions[i])), true))
      && (s.gameState != Playing ==> r.clock == s.clock.(running := false))
  {
    if s.lifelines.fifty || s.round.locked then s
    else
      var q := s.questions[s.round.currentIdx];
      var q' := q.(hiddenOptions := Some(FiftyHidden(q.answerIndex, shuffled)));
      Rerender(s, s.(lifelines := s.lifelines.(fifty := true),
                     questions := s.questions[s.round.currentIdx := q']), true)
  }

  /** `useAudience`: a no-op once used or while locked; otherwise the poll
      for the current question goes on the panel for thirty seconds. */
  function UseAudience(s: Session, shuffled: seq<int>): (r: Session)
    requires s.round.currentIdx < |s.questions| && WellShaped(s.questions[s.round.currentIdx])
    requires ShuffledWrong(shuffled, s.questions[s.round.currentIdx].answerIndex)
    ensures s.lifelines.audience || s.round.locked ==> r == s
    ensures !(s.lifelines.audience || s.round.locked) ==>
      var q := s.questions[s.round.currentIdx];
      && r.lifelines == s.lifelines.(audience := true)
      && r.panel == s.panel.(result := AudiencePoll(Poll(q.answerIndex, s.round.currentIdx, q.hiddenOptions, shuffled)),
                             timer := Some(30))
      && r.(lifelines := s.lifelines, panel := s.panel) == s
  {
    if s.lifelines.audience || s.round.locked then s
    else
      var q := s.questions[s.round.currentIdx];
      var poll := Poll(q.answerIndex, s.round.currentIdx, q.hiddenOptions, shuffled);
      s.(lifelines := s.lifelines.(audience := true), panel := s.panel.(result := AudiencePoll(poll), timer := Some(30)))
  }

  /** `useChat` up to its `await`: a no-op once used or while locked;
      otherwise the chat opens with the question and a hint is requested,
      for thirty seconds. */
  function UseChat(s: Session): (r: Session)
    requires s.round.currentIdx < |s.questions|
    ensures s.lifelines.chat || s.round.locked ==> r == s
    ensures !(s.lifelines.chat || s.round.locked) ==>
      && r.lifelines == s.lifelines.(chat := true)
      && r.panel == s.panel.(result := OpenChat(s.questions[s.round.currentIdx].text), timer := Some(30))
      && r.inflight == s.inflight.(chatRequests := s.inflight.chatRequests + 1)
      && r.(lifelines := s.lifelines, panel := s.panel, inflight := s.inflight) == s
  {
    if s.lifelines.chat || s.round.locked then s
    else
      s.(lifelines := s.lifelines.(chat := true),
         panel := s.panel.(result := OpenChat(s.questions[s.round.currentIdx].text), timer := Some(30)),
         inflight := s.inflight.(chatRequests := s.inflight.chatRequests + 1))
  }

  /** The end of `useChat` or `handleSendChatMessage`: one outstanding hint
      request is answered with `reply`, shown if a chat is still open. */
  function ChatReply(s: Session, reply: string): (r: Session)
    requires s.inflight.chatRequests > 0
    ensures r.panel == s.panel.(result := ReceiveReply(s.panel.result, reply))
    ensures r.inflight.chatRequests == s.inflight.chatRequests - 1
    ensures r.(panel := s.panel, inflight := s.inflight) == s
  {
    s.(inflight := s.inflight.(chatRequests := s.inflight.chatRequests - 1),
       panel := s.panel.(result := ReceiveReply(s.panel.result, reply)))
  }

  /** The chat input's change handler. */
  function ChatInputChange(s: Session, text: string): (r: Session)
    ensures r.panel.chatInput == text && r.(panel := s.panel) == s
    ensures r.panel.result == s.panel.result && r.panel.timer == s.panel.timer
  {
    s.(panel := s.panel.(chatInput := text))
  }

  /** `handleSendChatMessage` up to its `await`: with a non-blank input and
      a chat open, the input (untrimmed) is sent, cleared, and a hint
      requested; otherwise nothing happens. */
  function SendChatMessage(s: Session): (r: Session)
    ensures Trim(s.panel.chatInput) == [] || !s.panel.result.Chat? ==> r == s
    ensures Trim(s.panel.chatInput) != [] && s.panel.result.Chat? ==>
      && r.panel == s.panel.(result := SendMessage(s.panel.result, s.panel.chatInput), chatInput := [])
      && r.inflight == s.inflight.(chatRequests := s.inflight.chatRequests + 1)
      && r.(panel := s.panel, inflight := s.inflight) == s
  {
    if Trim(s.panel.chatInput) == [] || !s.panel.result.Chat? then s
    else
      s.(panel := s.panel.(result := SendMessage(s.panel.result, s.panel.chatInput), chatInput := []),
         inflight := s.inflight.(chatRequests := s.inflight.chatRequests + 1))
  }

  /** `handlePlayAgain`: back to the welcome screen with no questions and a
      full reset. */
  function PlayAgain(s: Session): (r: Session)
    ensures r.gameState == Welcome && r.questions == [] && FreshRound(r) && r.lifelines == NoneUsed
    ensures r.boards == s.boards && r.mode == s.mode && r.inflight == s.inflight && r.dialogs == s.dialogs
  {
    var t := ResetGame(s.(gameState := Welcome, questions := []), true);
    Rerender(s, t, true)
  }

  /** The final winnings of the session as it stands. */
  function Winnings(s: Session): int {
    FinalWinnings(s.mode, s.outcome.walkedAway, s.outcome.isWinner, s.round.score, s.round.currentIdx)
  }

  /** The board of a mode. */
  function BoardOf(b: Boards, mode: GameMode): seq<LeaderboardEntry> {
    if mode == Normal then b.normal else b.hard
  }

  /** What the storage key of a mode holds. */
  function StoredOf(b: Boards, mode: GameMode): StoredBoard {
    if mode == Normal then b.storedNormal else b.storedHard
  }

  /** The entry a winner's name submission records: the winnings, the
      points, the seconds since the questions arrived, and a random
      avatar. */
  function NewEntry(s: Session, name: string, now: int, random: real): (e: LeaderboardEntry)
    requires s.startTime.Some? && 0.0 <= random < 1.0
    ensures e.name == name && e.score == Winnings(s) && e.points == s.round.points
    ensures e.time == (now - s.startTime.value) as real / 1000.0
    ensures e.avatar in Avatars && e.timeSeconds.None?
  {
    LeaderboardEntry(name, Winnings(s), s.round.points, (now - s.startTime.value) as real / 1000.0,
                     Avatars[AvatarIndex(random)], None)
  }

  /** The boards after `board` becomes the board of `mode` and is stored
      under `weekId`. */
  function Record(b: Boards, mode: GameMode, board: seq<LeaderboardEntry>, weekId: string): (r: Boards)
    ensures BoardOf(r, mode) == board && StoredOf(r, mode) == SaveBoard(board, weekId)
    ensures forall m :: m != mode ==> BoardOf(r, m) == BoardOf(b, m) && StoredOf(r, m) == StoredOf(b, m)
  {
    if mode == Normal then b.(normal := board, storedNormal := SaveBoard(board, weekId))
    else b.(hard := board, storedHard := SaveBoard(board, weekId))
  }

  /** `handleNameSubmit`: does nothing unless the game was won (and the
      clock was started); a winner's entry joins the mode's board, the top
      five by time are kept and stored under this week's identifier, and
      the game returns to the welcome screen. */
  function SubmitName(s: Session, name: string, now: int, random: real, today: Calendar.Date): (r: Session)
    requires 0.0 <= random < 1.0
    requires Calendar.ValidDate(today) && today.year >= 101
    ensures !s.outcome.isWinner || s.startTime.None? || s.startTime == Some(0) ==> r == s
    ensures s.outcome.isWinner && s.startTime.Some? && s.startTime != Some(0) ==>
      && r.boards == Record(s.boards, s.mode, TopFive(BoardOf(s.boards, s.mode), NewEntry(s, name, now, random)),
                            Calendar.WeekIdentifier(today))
      && r.gameState == Welcome && r.questions == [] && FreshRound(r) && r.lifelines == NoneUsed
      && r.mode == s.mode && r.dialogs == s.dialogs && r.inflight == s.inflight
  {
    if !s.outcome.isWinner || s.startTime.None? || s.startTime == Some(0) then s
    else
      var board := TopFive(BoardOf(s.boards, s.mode), NewEntry(s, name, now, random));
      PlayAgain(s.(boards := Record(s.boards, s.mode, board, Calendar.WeekIdentifier(today))))
  }
}

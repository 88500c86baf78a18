# Quiz ladder game — a Dafny model

A model of the game logic of *Who Wants to Be a Smartest Indonesian*. This is
a browser quiz in which the player climbs a prize ladder one multiple-choice
question at a time. It has three one-time lifelines:

- 50:50;
- the audience poll;
- a chat with a friend.

There are two modes. NORMAL has 25 questions and HARD has 50. Each has
guaranteed levels every five steps. A wrong answer or a timeout falls back to
the last guaranteed level. Walking away keeps the prize reached. Leaving the
tab disqualifies the player. A winner's time goes on a weekly top-five board
kept in local storage.

The model is organised as follows.

- **Session state and handlers.** The app component's state is one immutable
  `Session` value. Every handler, timer callback and awaited continuation is a
  pure function on it (`session.dfy`).
- **The whole game.** `machine.dfy` makes every user action, timer tick and
  reply an `Event`. Each event is enabled only when the screen offers it. The
  invariants the game relies on are proved to hold from mount through any
  sequence of enabled events.
- **Mode constants** (`constants.dfy`): the prize ladders, guaranteed levels
  and avatar set.
- **Final winnings** (`settlement.dfy`).
- **The week identifier** behind the weekly board reset (`calendar.dfy`).
- **Board sorting, truncation and storage** (`ranking.dfy`).
- **The lifelines' arithmetic** (`lifelines.dfy`).
- **The components' display logic**:
  - answer buttons, poll bars and chat submit (`questionpanel.dfy`);
  - timer bar (`timerbar.dfy`);
  - paged ladder (`sidebar.dfy`);
  - end-of-game dialog (`gameover.dfy`);
  - leaderboard panel (`leaderboardview.dfy`).
- **JavaScript semantics** that matter are written out:
  - `Math.floor`, `Math.ceil`, `Math.round` and `Math.min`;
  - `%` truncating toward zero;
  - `slice` with clamped and negative indices;
  - `trim`;
  - `padStart`;
  - `String(n)`.

The model follows the code as written, and it does so where the code is
surprising. The one exception is the end-of-game dialog, described under
"Left out": as written it fails on its first render, and the model takes it
as designed. Several outcome flags can hold at once, because the end-of-game
dialog resolves them by precedence. A locked answer's settlement still runs
after a walk-away or a disqualification. 50:50 restarts the question countdown
because it replaces the question array. An answer stops the lifeline countdown
but leaves the poll or chat on screen. The board writes `time` and displays
`time_seconds`. These are stated as lemmas: `GameMachine.WalkAwayAfterLockIsPaid`,
`GameMachine.DisqualifiedWinner` and `LeaderboardView.RecordedEntryShowsNaN`.

## Model

| member | source | states |
|---|---|---|
| Constants.TierAt | constants.ts:3-27 | Each ladder has exactly one tier per question of its mode. Tier `i` is step `i + 1` and pays strictly less than tier `i + 1`. |
| Constants.TierTableShape | constants.ts:29-42 | A mode's ladder length equals its question count (25 or 50), and its tiers are numbered 1, 2, … in order. |
| Constants.PrizesStrictlyIncrease | constants.ts:3-27 | On both ladders every later tier pays strictly more than every earlier one. |
| Constants.GuaranteedLevelsShape | constants.ts:29-42 | The guaranteed levels are every fifth step, strictly ascending, each a valid step. The last is the top step of the mode. |
| Constants.TopPrizes | constants.ts:3-27 | The top prize is 500,000,000 in NORMAL mode and 1,000,000,000 in HARD mode. |
| Constants.AvatarIndex | App.tsx:368 | `Math.floor(Math.random() * AVATARS.length)` always indexes one of the ten avatars. |
| Text.ParseNatToString | components/GameOverModal.tsx:22 | `String(n)` of a non-negative integer is a digit string that reads back as `n`. |
| Text.NatToStringInjective | components/Leaderboard.tsx:49 | Different non-negative integers print differently. |
| Text.PaddedNumber | components/GameOverModal.tsx:22 | `padStart(2, '0')` of a printed number still reads back as the number. It is exactly two digits below 100 and never shorter than two. |
| Text.Trim | components/GameOverModal.tsx:51 | `trim()` removes exactly the leading and trailing JavaScript whitespace. It is empty exactly when the input is all whitespace. |
| Text.TrimIdempotent | components/GameOverModal.tsx:51 | Trimming an already trimmed string changes nothing. |
| Settlement.ScanLevels | App.tsx:389-396 | The guaranteed-level loop yields either its start value or a level that the index has reached. |
| Settlement.ScanFindsHighest | App.tsx:389-396 | The loop that stops at the first unreached level finds the highest level reached. It yields 0 exactly when none is reached. |
| Settlement.CreditedLevelIsHighest | App.tsx:389-397 | The credited guaranteed level is the highest level whose step the current question index has reached, or 0 when there is none. |
| Settlement.CreditedLevelClosedForm | App.tsx:387-397 | For both modes the credited level is `5 * ((idx + 1) / 5)`, capped at the question count, and 0 before step 5. |
| Settlement.FinalWinnings | App.tsx:387-398 | A walk-away or a win takes the score. Otherwise the player takes the prize of the last guaranteed level reached, or 0 before the first. |
| Settlement.FailedRunBounds | App.tsx:387-398 | A failed run never pays more than the tier at the question where it failed, and never pays less than 0. |
| Settlement.HardModeExamples | App.tsx:387-398 | In HARD mode, failing at question 8 or question 5 pays 100,000. Failing at question 4 pays nothing. Walking away keeps the score. |
| Calendar.DayNumberInYear | App.tsx:17 | The day count of a valid date lies inside its own year. |
| Calendar.IsoWeekday | App.tsx:18 | `getUTCDay()` with Sunday's 0 replaced by 7 is the ISO weekday 1..7 (Monday = 1), congruent to the day count modulo 7. |
| Calendar.MondayOf | App.tsx:18 | The Monday of a day's week is at most six days before it. |
| Calendar.ThursdayOf | App.tsx:18 | Shifting by `4 - weekday` lands on the Thursday of the same Monday-to-Sunday week. |
| Calendar.ThursdayYear | App.tsx:18-19 | The identifier's year is the calendar year that contains that Thursday. |
| Calendar.ThursdayYearPositive | App.tsx:18-21 | For dates from year 101 on, the Thursday's year is at least 100, so it prints as a plain number. |
| Calendar.WeekNumberIsOrdinalWeek | App.tsx:20 | `Math.ceil(((d - yearStart) / 86400000 + 1) / 7)` is the Thursday's day-of-year divided by seven, rounded up. |
| Calendar.WeekNumberRange | App.tsx:20 | The week number is between 1 and 53. |
| Calendar.ThursdayDecidesWeek | App.tsx:16-22 | A day belongs to ISO week `w` of year `y` when its Thursday is in `y` and is the `w`-th Thursday of `y`. |
| Calendar.WeekIdentifier | App.tsx:16-22 | The identifier is the date's ISO 8601 week-numbering year and week, unpadded and joined by a dash. |
| Calendar.WeekIdentifierIsIsoWeek | App.tsx:16-22 | The year and number in the identifier are the ISO 8601 week-numbering year and week of the date. |
| Calendar.SameIdentifierIffSameWeek | App.tsx:16-22 | Two dates get the same identifier exactly when they fall in the same Monday-to-Sunday week. The board therefore resets every Monday and at no other time. |
| Calendar.DashedPairInjective | App.tsx:21 | The text `year-week` determines both numbers. |
| Calendar.WeekIdentifierExample2026 | App.tsx:16-22 | 10 October 2026 is in week `2026-41`. |
| Calendar.WeekIdentifierExample2021 | App.tsx:16-22 | 1 January 2021 belongs to the previous ISO year: `2020-53`. |
| Calendar.WeekIdentifierExample2024 | App.tsx:16-22 | Monday 30 December 2024 belongs to the next ISO year: `2025-1`, with the week unpadded. |
| Ranking.InsertByTime | App.tsx:372-373 | Inserting an entry into a board sorted by time keeps it sorted. The result is the old board plus the entry, as a multiset. |
| Ranking.InsertPosition | App.tsx:372-373 | The entry goes after every entry at most as slow and before every slower one. |
| Ranking.FasterOrEqualPrefix | App.tsx:373 | On a sorted board, the entries at most as slow as a time form a prefix, and all later entries are strictly slower. |
| Ranking.SortByTime | App.tsx:373 | `sort((a, b) => a.time - b.time)` is a permutation of the board, ordered by time. |
| Ranking.SortKeepsSorted | App.tsx:373 | Sorting a board that is already sorted changes nothing. |
| Ranking.TopFive | App.tsx:372-374 | The new board holds `min(5, n + 1)` entries, sorted by time, drawn from the old board plus the new entry. None left out is faster than one kept. |
| Ranking.SortedPrefixFastest | App.tsx:374 | `slice(0, 5)` of a sorted board keeps the fastest entries. |
| Ranking.NewEntryRank | App.tsx:371-374 | The new board is the old one with the entry inserted at its rank, cut to five. The entry is kept when fewer than five entries are at least as fast. |
| Ranking.SlowEntryLeavesBoard | App.tsx:371-374 | When five entries or more are at least as fast, the new board is the old board's first five. |
| Ranking.SaveBoard | App.tsx:112-119 | The stored value is the board stamped with the week identifier. Loading it gives the board back in the same week and an empty board in any other, whatever the board in memory. |
| Ranking.LoadBoard | App.tsx:71-89 | With nothing stored the board in memory stays. A parse failure or a board stamped with another week empties it: the weekly reset. The only board taken from storage is one stamped with the current week, and such a board with a score array is taken. |
| Ranking.SaveLoadRoundTrip | App.tsx:68-119 | Reading back a saved board gives the same board in the week it was saved and an empty board in any other week. Absent storage keeps the board in memory. Unparseable storage empties it. |
| LifelineEngine.WrongIndicesIsFilter | App.tsx:276 | The wrong options are `[0, 1, 2, 3].filter(i => i !== correct)`. |
| LifelineEngine.WrongIndicesShape | App.tsx:276 | For a valid answer there are exactly three wrong options, in ascending order, and they are exactly the other indices. |
| LifelineEngine.ShuffledWrongShape | App.tsx:277 | A shuffle of the wrong options is three distinct wrong indices. |
| LifelineEngine.FiftyHidden | App.tsx:276-278 | 50:50 hides two distinct wrong options. |
| LifelineEngine.FiftyLeavesTwo | App.tsx:276-278 | After 50:50 exactly two options stay visible: the correct one and the third option of the shuffle. |
| LifelineEngine.CorrectShare | App.tsx:289-290 | The correct option's share is `round(100 * min(0.85, 0.4 + (15 - idx) / 20))`, which is `5 * min(17, 23 - idx)`. |
| LifelineEngine.CorrectShareNonIncreasing | App.tsx:289-290 | The correct option's share never grows along the ladder and is at most 85. |
| LifelineEngine.CorrectShareNegativeInHardMode | App.tsx:289-290 | The share is 0 at question 24 and negative beyond it, down to -130 at question 50, because the formula has no lower bound. |
| LifelineEngine.Poll | App.tsx:286-305 | The poll has one bar per option, and the correct option's bar is the correct share. Without 50:50 the shuffled wrong options get 60% and 30% of the rest, each rounded half up, and the last one what is left. |
| LifelineEngine.OneVisibleWrong | App.tsx:294-299 | After 50:50 exactly one wrong option is still visible. That option receives the rest of the poll. |
| LifelineEngine.PollSumsTo100 | App.tsx:287-305 | The four bars sum to 100. After 50:50 the hidden options get 0 and the visible wrong one gets the rest. |
| LifelineEngine.FiftyPoll | App.tsx:295-299 | The hidden branch gives the correct option its share, the visible wrong option the rest and hidden options 0. |
| LifelineEngine.OpenChat | App.tsx:316-318 | A chat opens with the question as its one user message, waiting for a reply. |
| LifelineEngine.ReceiveReply | App.tsx:324-329 | A reply is appended as the friend's message and ends the wait. It does so only while a chat is on the panel; otherwise the panel is unchanged. |
| LifelineEngine.SendMessage | App.tsx:335-336 | A typed message is appended as a user message and starts a wait. The earlier messages are kept. |
| LifelineEngine.ChatTakesTurns | App.tsx:316-347 | A chat always alternates user and friend messages, starting with the user. It is waiting exactly when the last message is the user's. |
| Session.QuestionDuration | App.tsx:145 | A question allows 90 seconds exactly when its category is `Matematika`, and 30 seconds otherwise. |
| Session.EffectClock | App.tsx:141-166 | While a question is on screen, the timer effect restarts the countdown at that question's full duration. Otherwise it stops the countdown and keeps the last value. |
| Session.ResetGame | App.tsx:176-195 | A reset clears the round, the outcome flags, the lifeline panel and the start time, and stops the clock. It returns the lifelines only on a full reset. It leaves the questions, boards and screen alone. |
| Session.LoadLeaderboards | App.tsx:68-90 | Each mode's board is replaced by what its storage key holds for the current week. Nothing else changes. |
| Session.Mount | App.tsx:26-94 | The app starts on the welcome screen in HARD mode, with no questions, nothing used, a fresh round and all dialogs closed. Each board in memory is the stored board of that mode as loaded for the current week, so a board from another week is reset. |
| Session.StartQuizFlow | App.tsx:197-199 | Starting opens the mode picker. No other dialog flag and nothing else changes. |
| Session.SelectMode | App.tsx:201-205 | Choosing a mode sets it, closes the picker and opens the etiquette notice. The walk-away confirmation is left as it was. |
| Session.AcknowledgeEtiquette | App.tsx:207-212 | Acknowledging the notice closes it and leaves the other dialogs as they were. It fully resets the game, shows the loading screen and sends the question request. |
| Session.QuestionsArrive | App.tsx:212-219 | Success puts the questions on screen, starts the clock at the current question's duration and records the start time. Failure shows the error screen and stops the clock. Either way the fetch is no longer awaited, and nothing else changes. |
| Session.BackToMenu | App.tsx:412 | The error screen's button returns to the welcome screen with the clock stopped, its reading kept. Nothing else changes. |
| Session.PrizeAt | App.tsx:234 | `prizeTiers[currentIdx].prize` exists exactly for the indices of the ladder. It is the prize of the tier whose step is `currentIdx + 1`. |
| Session.ChooseAnswer | App.tsx:222-229 | While locked, a choice does nothing. Otherwise it locks the choice, stops both countdowns and schedules a reveal. The reveal records whether the answer is right, the tier's prize and whether the question is the last. Nothing else changes. |
| Session.RevealAnswer | App.tsx:229-232 | The first callback reveals the answer and moves its pending record on to settlement. Nothing else changes. |
| Session.SettleAnswer | App.tsx:232-250 | A wrong answer ends the game with the round untouched. A correct last answer pays the prize and wins, leaves the panel as it was, and stops the clock unless the game was already over. Any other correct answer pays the prize and ten points, moves on and clears the board and the panel, and restarts the clock. The dialogs are never touched. |
| Session.NextQuestion | App.tsx:236-245 | After a correct answer that is not the last, the next question is on with the prize as score, ten more points and a clear board. |
| Session.WalkAway | App.tsx:254-256 | Asking to walk away opens the confirmation. The other two dialog flags and everything else stay as they were. |
| Session.ConfirmWalkAway | App.tsx:258-263 | Confirming ends the game as a walk-away, closes the dialog and stops the question clock, its reading kept. Nothing else changes. |
| Session.CancelWalkAway | App.tsx:265-267 | Cancelling closes the confirmation. The other two dialog flags and everything else stay as they were. |
| Session.TabHidden | App.tsx:96-102 | Hiding the tab during play disqualifies the player, ends the game and stops the clock. Nothing else changes. At any other time it does nothing. |
| Session.QuestionTick | App.tsx:150-160 | Each second takes one off the question clock while more than one is left. The last second ends the game by timeout with 0 shown. Nothing else changes. |
| Session.LifelineTick | App.tsx:126-138 | Each second takes one off the lifeline countdown. When it reaches 0 the countdown stops and the panel closes. |
| Session.UseFifty | App.tsx:269-281 | Once used or while locked, 50:50 does nothing. Otherwise it marks 50:50 spent and hides two wrong options of the current question only. The replaced question array restarts the question clock in full during play, and stops it otherwise. Nothing else changes. |
| Session.UseAudience | App.tsx:283-309 | Once used or while locked, the audience does nothing. Otherwise the current question's poll goes on the panel for 30 seconds. |
| Session.UseChat | App.tsx:311-319 | Once used or while locked, the chat does nothing. Otherwise the chat opens with the question for 30 seconds and a hint request goes out. |
| Session.ChatReply | App.tsx:321-329 | A reply answers one outstanding request and is shown only if a chat is still open. |
| Session.ChatInputChange | App.tsx:474 | Typing changes only the chat input. |
| Session.SendChatMessage | App.tsx:332-339 | A non-blank input is sent untrimmed while a chat is open: it is appended, the input is cleared and one more request goes out. Nothing else changes. Otherwise nothing happens. |
| Session.PlayAgain | App.tsx:350-354 | Playing again returns to the welcome screen with no questions, a fresh round and all lifelines back. The boards, the mode, the dialogs and the outstanding requests are kept. |
| Session.NewEntry | App.tsx:360-369 | A winner's entry carries the final winnings, the points, the seconds since the questions arrived and one of the avatars. It has no `time_seconds`. |
| Session.Record | App.tsx:376-382 | The new board replaces the played mode's board and is saved under that mode's key. The other mode is untouched. |
| Session.SubmitName | App.tsx:357-385 | A name is recorded only for a winner with a start time. The entry joins the top five of the mode's board, which is saved, and the game returns to the welcome screen. The mode, the dialogs and the outstanding requests are kept. Otherwise nothing happens. |
| GameMachine.MountValid | App.tsx:26-94 | The app starts in a session where every invariant holds. |
| GameMachine.StepPreservesValid | App.tsx:96-385 | Every enabled event keeps the invariants. A running clock belongs to the question on screen and shows between 1 and its duration. A lifeline countdown is between 1 and 30. Points are a non-negative multiple of ten. A poll has four bars summing to 100. |
| GameMachine.MenuKeepsValid | App.tsx:197-220 | The menu, mode, notice and error-screen events keep the invariants. |
| GameMachine.ArriveKeepsValid | App.tsx:212-219 | The arrival of the questions, or the request's failure, keeps the invariants. |
| GameMachine.AnswerKeepsValid | App.tsx:141-252 | Choosing, revealing, settling and clock ticks keep the invariants. |
| GameMachine.SettleKeepsValid | App.tsx:232-250 | The settlement keeps the invariants, including the clock restarted for the next question. |
| GameMachine.EndingKeepsValid | App.tsx:96-267 | Walk-away requests, confirmations and cancellations, and hiding the tab, keep the invariants. |
| GameMachine.LifelineKeepsValid | App.tsx:269-319 | Using the 50:50, the audience or the friend keeps the invariants. |
| GameMachine.PanelKeepsValid | App.tsx:126-339 | Lifeline-panel ticks, chat replies, typing and sending keep the invariants. |
| GameMachine.FiftyKeepsValid | App.tsx:269-281 | 50:50 keeps every question well shaped and the restarted clock sound. |
| GameMachine.SubmitKeepsValid | App.tsx:357-385 | A name submission keeps the invariants. |
| GameMachine.RunPreservesValid | App.tsx:96-385 | The invariants hold after any sequence of enabled events. |
| GameMachine.TicksRunOut | App.tsx:150-160 | Left alone, a running question clock ends the game by timeout after exactly as many ticks as seconds are left. |
| GameMachine.PanelRunsOut | App.tsx:126-138 | Left alone, the lifeline panel closes after exactly as many ticks as its countdown shows. Nothing else changes. |
| GameMachine.LockIn | App.tsx:222-229 | Choosing a visible option on a free board is enabled and leaves exactly one pending answer. |
| GameMachine.CorrectAnswerAdvances | App.tsx:222-252 | Choosing the right answer, then the reveal and the settlement, leads to the next question. The score becomes the tier's prize, ten points are added and the clock runs from the next question's full duration. |
| GameMachine.WrongAnswerEnds | App.tsx:222-252 | A wrong answer, revealed and settled, ends the game at the same question and score. The player takes home the last guaranteed prize. |
| GameMachine.WalkAwayAfterLockIsPaid | App.tsx:229-263 | Confirming a walk-away while a correct answer is locked ends the game at once. The settlement still runs, and the walk-away takes home the locked question's prize. |
| GameMachine.WalkAwayConfirmed | App.tsx:254-263 | Asking to walk away and confirming it is one walk-away during play. |
| GameMachine.DisqualifiedWinner | App.tsx:96-252 | Hiding the tab while the last question's correct answer is locked disqualifies the player. The settlement then also makes them the winner. The dialog reads as a disqualification, but the top prize is paid. |
| GameMachine.LifelineButtonsGateEvents | components/QuestionPanel.tsx:196-198 | While a question is on, each lifeline can be used exactly when its button is enabled. |
| GameMachine.IndexNeverDecreases | App.tsx:176-251 | Apart from starting a game and recording a winner, no event moves the game back to an earlier question. |
| GameMachine.LifelinesOnlyGrow | App.tsx:269-313 | Apart from starting a game and recording a winner, no event gives back a spent lifeline. |
| GameMachine.WinnerRecorded | App.tsx:357-385 | After a winner's name is submitted, the mode's board grows by one up to five. It reads back as itself in the same week and as empty in any other. The other mode's board is unchanged. |
| QuestionPanelView.Style | components/QuestionPanel.tsx:31-36 | A button's style is: correct over wrong, wrong over selected, selected over idle. |
| QuestionPanelView.OptionLooks | components/QuestionPanel.tsx:187-189 | No option is both correct and wrong. Before the reveal only the selected option is highlighted. After it the correct option shows correct and a wrongly selected option shows wrong. |
| QuestionPanelView.AtMostOneWrong | components/QuestionPanel.tsx:189 | At most one option, the selected one, is ever shown as wrong. |
| QuestionPanelView.ClickableOptions | components/QuestionPanel.tsx:190 | An option is clickable exactly when the board is unlocked and the option is not hidden. After 50:50 exactly two options are clickable. |
| QuestionPanelView.OptionLetter | components/QuestionPanel.tsx:45 | `String.fromCharCode(65 + i)` labels the four options A to D. |
| QuestionPanelView.OptionLettersDistinct | components/QuestionPanel.tsx:45 | The labels are distinct and in option order. |
| QuestionPanelView.PollBars | components/QuestionPanel.tsx:152-153 | The poll shows a bar exactly for each option that is not hidden, with that option's value, in option order. |
| QuestionPanelView.BarsComplete | components/QuestionPanel.tsx:152-153 | Every option that is not hidden gets a bar. |
| QuestionPanelView.BarsInOrder | components/QuestionPanel.tsx:152-153 | The bars follow the order of the options. |
| QuestionPanelView.TwoOptionsShown | components/QuestionPanel.tsx:152 | After 50:50 two of the four options are not hidden. |
| QuestionPanelView.ChatSubmitAllowed | components/QuestionPanel.tsx:82 | The chat form submits exactly when the input is not all whitespace and no reply is awaited. |
| QuestionPanelView.LifelineButtonsDisabled | components/QuestionPanel.tsx:196-198 | Each lifeline button is disabled exactly when that lifeline is spent. |
| QuestionPanelView.PanelHeading | components/QuestionPanel.tsx:139-141 | The panel's heading names the poll or the chat, and there is none when the panel is closed. |
| QuestionPanelView.PollAfterFiftyShowsTwo | components/QuestionPanel.tsx:150-165 | After 50:50 the poll shows exactly two bars: the correct share for the right answer and the rest for the remaining wrong option. |
| TimerBarView.Percentage | components/TimerProgressBar.tsx:9 | The bar's width is the share of the duration left, in percent, and 0 without a positive duration. |
| TimerBarView.HalfAndQuarter | components/TimerProgressBar.tsx:9-15 | More than 50% is left exactly when twice the seconds left exceed the duration. More than 25% is left exactly when four times the seconds left exceed it. |
| TimerBarView.ColorThresholds | components/TimerProgressBar.tsx:11-15 | The bar is green above half the time, yellow above a quarter and red otherwise. It is also red without a duration. |
| TimerBarView.ColorNeverBrightens | components/TimerProgressBar.tsx:9-15 | As time runs down the colour only goes from green to yellow to red. |
| TimerBarView.GameDurations | components/TimerProgressBar.tsx:9-15 | A 30-second question stops being green at 15 seconds and turns red at 7. A 90-second question stops being green at 45 and turns red at 22. |
| SidebarView.TotalPages | components/Sidebar.tsx:19 | The page count is the number of tiers divided by ten, rounded up. |
| SidebarView.ActivePage | components/Sidebar.tsx:23 | The active page is the question index divided by ten, rounded down. |
| SidebarView.JsSlice | components/Sidebar.tsx:35-38 | `slice(start, end)` is the subsequence between in-range bounds. An end past the length stops at the end. |
| SidebarView.Reverse | components/Sidebar.tsx:87 | `slice().reverse()` puts the `k`-th from the end in position `k`. |
| SidebarView.Row | components/Sidebar.tsx:90-93 | A row is highlighted as current exactly for the step being played. It is highlighted as guaranteed exactly for another step that is a guaranteed level. |
| SidebarView.OnIndexChange | components/Sidebar.tsx:21-27 | When the question changes, the pager ends on the page holding it. It stays put exactly when it is already there. |
| SidebarView.OnTiersChange | components/Sidebar.tsx:21-32 | When the ladder changes, both effects run in order and the pager ends on the first page. |
| SidebarView.TiersChangeOverridesIndex | components/Sidebar.tsx:21-32 | From question 10 on, the first effect alone would leave the first page. The reset that runs after it brings the pager back. |
| SidebarView.NavShown | components/Sidebar.tsx:104 | The pager is shown exactly when the ladder has more than ten tiers. |
| SidebarView.PrevEnabled | components/Sidebar.tsx:105-111 | On a page from 0 on, "previous" is enabled exactly when there is an earlier page. |
| SidebarView.NextEnabled | components/Sidebar.tsx:115-121 | "Next" is enabled exactly when some tier lies beyond the page. |
| SidebarView.PageCounts | components/Sidebar.tsx:19 | NORMAL's ladder spans three pages and HARD's five. Both show the pager. |
| SidebarView.PagerStaysInRange | components/Sidebar.tsx:104-121 | From a valid page, any enabled pager button leads to a valid page. A valid page starts inside the ladder. |
| SidebarView.PageContents | components/Sidebar.tsx:35-38 | A valid page shows between one and ten tiers from `10 * page`, highest first. |
| SidebarView.ShownDescending | components/Sidebar.tsx:87 | On the game's numbered ladders, the rows of a page go down one step at a time. |
| SidebarView.PagesPartition | components/Sidebar.tsx:35-38 | Each tier is on page `i / 10` and on no other page. |
| SidebarView.CurrentOnActivePage | components/Sidebar.tsx:21-27 | The page the pager moves to shows the current question's tier, and that tier is the only row highlighted as current. |
| SidebarView.ModeChangeShowsFirstPage | components/Sidebar.tsx:29-32 | After a mode change the first page shows the current question only when it is among the first ten. |
| GameOverView.MinutesAndSeconds | components/GameOverModal.tsx:20-21 | For a non-negative time, `floor(t / 60)` and `floor(t % 60)` are the whole seconds divided by 60 and their remainder. |
| GameOverView.FormatTimeRoundTrip | components/GameOverModal.tsx:19-23 | The display of a non-negative time is `mm:ss`, both halves digits and the seconds below 60. It reads back as the whole seconds. |
| GameOverView.FormatTimeExample | components/GameOverModal.tsx:19-23 | 125.7 seconds shows as `02:05`. |
| GameOverView.EndingOf | components/GameOverModal.tsx:32-47 | Each ending holds exactly when its flag is set and no flag earlier in the order is. The order is timeout, disqualification, win, walk-away. |
| GameOverView.TitlesDistinct | components/GameOverModal.tsx:32-47 | The five titles tell the five endings apart. |
| GameOverView.NameField | components/GameOverModal.tsx:115 | The field keeps at most the first 20 characters typed. |
| GameOverView.SubmittedName | components/GameOverModal.tsx:51 | A blank name is submitted as `Anonymous`. Any other name is submitted trimmed. |
| GameOverView.SubmittedNameShape | components/GameOverModal.tsx:49-52 | The submitted name is never empty, is already trimmed and has at most 20 characters. |
| LeaderboardView.RankLabel | components/Leaderboard.tsx:49 | A rank label is `#` followed by digits. |
| LeaderboardView.Render | components/Leaderboard.tsx:31-57 | The empty message shows exactly for an empty board. Otherwise there is one row per entry, in board order. |
| LeaderboardView.RanksReadBack | components/Leaderboard.tsx:49 | Row `i`'s rank reads back as `i + 1`, and no two rows share a rank. |
| LeaderboardView.RecordedEntryShowsNaN | components/Leaderboard.tsx:46 | An entry the game records after a win shows its time as `NaN:NaN`, because it has `time` but not `time_seconds`. |
| LeaderboardView.StoredTimeReadsBack | components/Leaderboard.tsx:10-14 | An entry that does carry `time_seconds` shows minutes and seconds that read back as its whole seconds. |

## Left out

- **Rendering.** Layout, animation, icons, CSS classes and
  `toLocaleString` currency formatting are not modelled. Only the decisions
  the components take are: styles, labels, which rows and buttons exist,
  what is enabled, and the text of the time, rank and title.
- **Static components.** The About, Terms, mobile menu, confirmation, mode
  and etiquette dialogs, the loading spinner and the share/clipboard
  buttons are not modelled. The dialogs are modelled only as the flags that
  open them and the handlers they call.
- **External services.** The question generator and the chat-hint service
  (`services/`) are not part of this model.
  - A question request is modelled as an awaited `Result`: its questions or a failure.
  - A hint is modelled as a reply string. The service's own fallback text on failure is just another reply.
  - The remote leaderboard client is not part of this model.
  - Every question the generator returns is assumed to be well shaped
    (`Types.WellShaped`): four options, an answer index from 0 to 3, and
    hidden options only as 50:50 leaves them. The `Arrive` event is enabled
    only for such responses. The service itself rejects only a missing or
    empty question list, so a malformed question is not modelled.
    `GameMachine.StepPreservesValid` and `GameMachine.RunPreservesValid`
    rest on this assumption.
- **Local storage and JSON parsing.** These are modelled as a `StoredBoard`
  value: absent, unparseable, or an object with an optional week identifier
  and optional scores. Malformed scores inside a parseable object are not
  modelled.
- **Randomness and the clock** become parameters:
  - the shuffles of 50:50 and of the audience poll, as any permutation of
    the wrong options;
  - the avatar draw, as a real in [0, 1);
  - `Date.now()`, as an integer;
  - `new Date()`, as a calendar date.
- **Timers** are modelled as separate `Tick`, `PanelTick`, `Reveal` and `Settle`
  events. Their one-second or 1.5/2-second spacing and their interleaving
  with user actions are left to the event order. Modal overlays are not
  modelled as blocking events outside them.
- **Numbers.** JavaScript numbers are modelled as exact integers and reals,
  not floating point. This matters only for `time`, which is an exact
  quotient here.
- **Early years.** The week identifier is modelled only for years from 101
  on. `Date.UTC` maps years 0–99 to 1900–1999, and JavaScript dates have a
  finite range; neither is modelled.
- **The name field's `maxLength`** counts UTF-16 code units. The model
  counts characters.
- **The end-of-game dialog as written.** The app (App.tsx:532-540) passes
  `finalWinnings` and `onPlayAgain`, but never `finalStats`. The dialog
  reads `finalStats.prize` on its first render
  (components/GameOverModal.tsx:30). `finalStats` is undefined there, so
  the dialog throws and the game-over screen never appears. As written, no
  name can be submitted and no winner is recorded. The model takes the
  dialog as designed: its title, its time format and the name it submits.
  So `GameOverView.EndingOf`, `GameOverView.TitlesDistinct`,
  `GameOverView.SubmittedName`, `Session.SubmitName`,
  `GameMachine.WinnerRecorded` and the titles in
  `GameMachine.DisqualifiedWinner` describe the dialog as its props declare
  it, not a path the shipped code reaches. The statistics block built from
  `finalStats` is not modelled.
- **No bound on the question index.** `GameMachine.Valid` does not bound
  `currentIdx` by the number of questions, because the model admits
  sessions where it exceeds that number. Modal overlays are not modelled as
  blocking events. So the mode dialog can be reopened and confirmed during
  play, and that resets the round to question 0. A settlement scheduled
  before the reset still fires (timeouts are never cancelled). If it
  settles a correct answer, it moves the index to 1. A fetch that then
  returns an empty list leaves a game in play at index 1 with no
  questions. The mode can also change mid-game in the same way. So the
  index is not bounded by the current mode's question count either.
  `GameMachine.IndexNeverDecreases` states what does hold: only starting a
  game or recording a winner moves the index back.
- **Stale chat replies.** A reply to an earlier chat request can arrive
  after the panel closed and a new chat opened. `LifelineEngine.ChatTakesTurns`
  states turn-taking for replies that answer the open request. It does not
  rule out such a stale reply.
- **Sidebar paging.** Negative pages are unreachable, because the pager
  stops at page 0. They are modelled by `SidebarView.JsSlice`'s general case
  but not stated separately.

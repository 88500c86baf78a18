/** The records and unions of the game's type declarations. */
module Types {
  import opened Wrappers

  /** The screen the game is on; exactly one at a time. */
  datatype GameState = Loading | Welcome | Playing | GameOver | Error

  datatype GameMode = Normal | Hard

  /** Which one-time lifelines have been spent; three independent flags. */
  datatype Lifelines = Lifelines(fifty: bool, audience: bool, chat: bool)

  const NoneUsed := Lifelines(false, false, false)

  /** Flags only ever go from unused to used. */
  predicate LifelinesGrow(before: Lifelines, after: Lifelines) {
    && (before.fifty ==> after.fifty)
    && (before.audience ==> after.audience)
    && (before.chat ==> after.chat)
  }

  datatype Sender = User | Ai

  datatype ChatMessage = ChatMessage(sender: Sender, text: string)

  /** The lifeline panel's content: nothing, an audience poll, or a chat
      conversation; one variant at a time. */
  datatype LifelineResult =
    | NoResult
    | AudiencePoll(poll: seq<int>)
    | Chat(messages: seq<ChatMessage>, isLoading: bool)

  /** A multiple-choice question. `hiddenOptions` is absent until the 50:50
      lifeline hides two options. */
  datatype Question = Question(
    text: string,
    options: seq<string>,
    answerIndex: int,
    difficulty: string,
    hiddenOptions: Option<seq<int>>,
    category: string)

  datatype PrizeTier = PrizeTier(step: int, prize: int)

  /** A leaderboard row as the game writes it. The game stores the elapsed
      seconds under `time`; the declared shape (and the board's display) use
      `time_seconds`, which rows written by the game do not carry. */
  datatype LeaderboardEntry = LeaderboardEntry(
    name: string,
    score: int,
    points: int,
    time: real,
    avatar: string,
    timeSeconds: Option<real>)

  /** Two distinct option indices, both wrong: what 50:50 hides. */
  predicate HiddenByFifty(hidden: seq<int>, answerIndex: int) {
    && |hidden| == 2
    && hidden[0] != hidden[1]
    && (forall k :: 0 <= k < 2 ==> 0 <= hidden[k] < 4 && hidden[k] != answerIndex)
  }

  /** What the game assumes of every question but never checks: four
      options, an answer among them, and no hidden options other than the
      ones 50:50 produces. */
  predicate WellShaped(q: Question) {
    && |q.options| == 4
    && 0 <= q.answerIndex < 4
    && (q.hiddenOptions.Some? ==> HiddenByFifty(q.hiddenOptions.value, q.answerIndex))
  }
}

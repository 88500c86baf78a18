/** The two game modes' prize ladders, question counts and guaranteed
    levels, and the avatar set. */
module Constants {
  import opened Types

  const NormalPrizeTiers: seq<PrizeTier> :=
      [PrizeTier(1, 10000), PrizeTier(2, 25000), PrizeTier(3, 50000), PrizeTier(4, 100000)]
    + [PrizeTier(5, 200000), PrizeTier(6, 300000), PrizeTier(7, 400000), PrizeTier(8, 500000)]
    + [PrizeTier(9, 750000), PrizeTier(10, 1000000), PrizeTier(11, 2000000), PrizeTier(12, 3000000)]
    + [PrizeTier(13, 5000000), PrizeTier(14, 7500000), PrizeTier(15, 10000000), PrizeTier(16, 15000000)]
    + [PrizeTier(17, 20000000), PrizeTier(18, 30000000), PrizeTier(19, 40000000), PrizeTier(20, 50000000)]
    + [PrizeTier(21, 75000000), PrizeTier(22, 100000000), PrizeTier(23, 200000000), PrizeTier(24, 300000000)]
    + [PrizeTier(25, 500000000)]

  const HardPrizeTiers: seq<PrizeTier> :=
      [PrizeTier(1, 10000), PrizeTier(2, 20000), PrizeTier(3, 30000), PrizeTier(4, 50000)]
    + [PrizeTier(5, 100000), PrizeTier(6, 150000), PrizeTier(7, 200000), PrizeTier(8, 300000)]
    + [PrizeTier(9, 400000), PrizeTier(10, 500000), PrizeTier(11, 750000), PrizeTier(12, 1000000)]
    + [PrizeTier(13, 1250000), PrizeTier(14, 1500000), PrizeTier(15, 2000000), PrizeTier(16, 2500000)]
    + [PrizeTier(17, 3000000), PrizeTier(18, 4000000), PrizeTier(19, 5000000), PrizeTier(20, 6000000)]
    + [PrizeTier(21, 7000000), PrizeTier(22, 8000000), PrizeTier(23, 9000000), PrizeTier(24, 10000000)]
    + [PrizeTier(25, 12500000), PrizeTier(26, 15000000), PrizeTier(27, 17500000), PrizeTier(28, 20000000)]
    + [PrizeTier(29, 22500000), PrizeTier(30, 25000000), PrizeTier(31, 30000000), PrizeTier(32, 40000000)]
    + [PrizeTier(33, 50000000), PrizeTier(34, 60000000), PrizeTier(35, 75000000), PrizeTier(36, 100000000)]
    + [PrizeTier(37, 125000000), PrizeTier(38, 150000000), PrizeTier(39, 200000000), PrizeTier(40, 250000000)]
    + [PrizeTier(41, 300000000), PrizeTier(42, 400000000), PrizeTier(43, 500000000), PrizeTier(44, 600000000)]
    + [PrizeTier(45, 700000000), PrizeTier(46, 800000000), PrizeTier(47, 850000000), PrizeTier(48, 900000000)]
    + [PrizeTier(49, 950000000), PrizeTier(50, 1000000000)]

  function QuestionCount(mode: GameMode): nat {
    match mode
    case Normal => 25
    case Hard => 50
  }

  function PrizeTiers(mode: GameMode): seq<PrizeTier> {
    match mode
    case Normal => NormalPrizeTiers
    case Hard => HardPrizeTiers
  }

  function GuaranteedLevels(mode: GameMode): seq<int> {
    match mode
    case Normal => [5, 10, 15, 20, 25]
    case Hard => [5, 10, 15, 20, 25, 30, 35, 40, 45, 50]
  }

  function LeaderboardKey(mode: GameMode): string {
    match mode
    case Normal => "quizmasterLeaderboard_normal"
    case Hard => "quizmasterLeaderboard_hard"
  }

  const Avatars: seq<string> := [
    "\U{1F916}", "\U{269B}\U{FE0F}", "\U{1F3A8}", "\U{1F34E}", "\U{26A1}\U{FE0F}",
    "\U{1F680}", "\U{1F9E0}", "\U{1F4A1}", "\U{1F3C6}", "\U{1F31F}"
  ]

  /** One tier of a ladder, checked entry by entry: its step is its
      1-based position and the next tier pays more. */
  lemma TierAt(mode: GameMode, i: nat)
    requires i < QuestionCount(mode)
    ensures |PrizeTiers(mode)| == QuestionCount(mode)
    ensures PrizeTiers(mode)[i].step == i + 1
    ensures i + 1 < QuestionCount(mode) ==> PrizeTiers(mode)[i].prize < PrizeTiers(mode)[i + 1].prize
  {
    if mode == Normal {
      if i == 0 {
      } else if i == 1 {
      } else if i == 2 {
      } else if i == 3 {
      } else if i == 4 {
      } else if i == 5 {
      } else if i == 6 {
      } else if i == 7 {
      } else if i == 8 {
      } else if i == 9 {
      } else if i == 10 {
      } else if i == 11 {
      } else if i == 12 {
      } else if i == 13 {
      } else if i == 14 {
      } else if i == 15 {
      } else if i == 16 {
      } else if i == 17 {
      } else if i == 18 {
      } else if i == 19 {
      } else if i == 20 {
      } else if i == 21 {
      } else if i == 22 {
      } else if i == 23 {
      } else if i == 24 {
      }
    } else {
      if i == 0 {
      } else if i == 1 {
      } else if i == 2 {
      } else if i == 3 {
      } else if i == 4 {
      } else if i == 5 {
      } else if i == 6 {
      } else if i == 7 {
      } else if i == 8 {
      } else if i == 9 {
      } else if i == 10 {
      } else if i == 11 {
      } else if i == 12 {
      } else if i == 13 {
      } else if i == 14 {
      } else if i == 15 {
      } else if i == 16 {
      } else if i == 17 {
      } else if i == 18 {
      } else if i == 19 {
      } else if i == 20 {
      } else if i == 21 {
      } else if i == 22 {
      } else if i == 23 {
      } else if i == 24 {
      } else if i == 25 {
      } else if i == 26 {
      } else if i == 27 {
      } else if i == 28 {
      } else if i == 29 {
      } else if i == 30 {
      } else if i == 31 {
      } else if i == 32 {
      } else if i == 33 {
      } else if i == 34 {
      } else if i == 35 {
      } else if i == 36 {
      } else if i == 37 {
      } else if i == 38 {
      } else if i == 39 {
      } else if i == 40 {
      } else if i == 41 {
      } else if i == 42 {
      } else if i == 43 {
      } else if i == 44 {
      } else if i == 45 {
      } else if i == 46 {
      } else if i == 47 {
      } else if i == 48 {
      } else if i == 49 {
      }
    }
  }

  /** Each ladder has one tier per question, numbered 1, 2, ... in order. */
  lemma TierTableShape(mode: GameMode)
    ensures |PrizeTiers(mode)| == QuestionCount(mode)
    ensures forall i :: 0 <= i < |PrizeTiers(mode)| ==> PrizeTiers(mode)[i].step == i + 1
  {
    TierAt(mode, 0);
    forall i | 0 <= i < |PrizeTiers(mode)|
      ensures PrizeTiers(mode)[i].step == i + 1
    {
      TierAt(mode, i);
    }
  }

  /** The prize is strictly increasing along the whole ladder. */
  lemma PrizesStrictlyIncrease(mode: GameMode)
    ensures forall i, j :: 0 <= i < j < |PrizeTiers(mode)| ==>
      PrizeTiers(mode)[i].prize < PrizeTiers(mode)[j].prize
  {
    var t := PrizeTiers(mode);
    TierAt(mode, 0);
    forall k | 0 <= k < |t| - 1
      ensures t[k].prize < t[k + 1].prize
    {
      TierAt(mode, k);
    }
    forall i, j | 0 <= i < j < |t|
      ensures t[i].prize < t[j].prize
    {
      IncreasingBetween(t, i, j);
    }
  }

  lemma {:induction false} IncreasingBetween(t: seq<PrizeTier>, i: nat, j: nat)
    requires forall k :: 0 <= k < |t| - 1 ==> t[k].prize < t[k + 1].prize
    requires i < j < |t|
    ensures t[i].prize < t[j].prize
    decreases j - i
  {
    if i + 1 < j {
      IncreasingBetween(t, i + 1, j);
    }
  }

  /** Guaranteed levels are the multiples of five up to the question count,
      in ascending order; the last one is the final question. */
  lemma GuaranteedLevelsShape(mode: GameMode)
    ensures var g := GuaranteedLevels(mode);
      && |g| == QuestionCount(mode) / 5
      && g[|g| - 1] == QuestionCount(mode)
      && (forall k :: 0 <= k < |g| ==> g[k] == 5 * (k + 1))
      && (forall k, l :: 0 <= k < l < |g| ==> g[k] < g[l])
      && (forall k :: 0 <= k < |g| ==> 1 <= g[k] <= QuestionCount(mode))
  {
  }

  lemma TopPrizes()
    ensures NormalPrizeTiers[24].prize == 500000000
    ensures HardPrizeTiers[49].prize == 1000000000
  {
  }

  /** `Math.floor(Math.random() * AVATARS.length)`: always a valid index. */
  function AvatarIndex(random: real): (k: nat)
    requires 0.0 <= random < 1.0
    ensures k < |Avatars| == 10
  {
    (random * |Avatars| as real).Floor
  }
}

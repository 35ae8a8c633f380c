/** The reward one player receives at the end of a match: a base reward from the room's
    training factor and the player's vote points, percentage bonuses, the effects of the
    player's selected items, the server's rates, the mission reward and the experience cap.
    Facts that come from the match, the configuration or the database are passed in. */
module MatchRewards {
  import opened Wrappers

  const VotePointsLimit := 100

  /** Java's `int` division, which truncates toward zero. */
  function JavaDiv(a: int, b: int): (q: int)
    requires b > 0
    ensures a >= 0 ==> q == a / b
    ensures a >= 0 ==> q >= 0
    ensures a <= 0 ==> q <= 0
    ensures -b < a < b ==> q == 0
  {
    if a >= 0 then a / b else -((-a) / b)
  }

  /** The quotient truncates toward zero: it is the largest multiple of `b` not above a
      non-negative dividend, and the smallest not below a negative one. */
  lemma JavaDivBounds(a: int, b: int)
    requires b > 0
    ensures var q := JavaDiv(a, b);
            && (a >= 0 ==> q * b <= a < q * b + b)
            && (a < 0 ==> q * b - b < a <= q * b)
  {
    var n := if a >= 0 then a else -a;
    var d, m := n / b, n % b;
    assert n == d * b + m && 0 <= m < b;
    if a < 0 {
      assert JavaDiv(a, b) * b == -(d * b);
    }
  }

  /** What the reward computation reads about the match and the server. */
  datatype MatchFacts = MatchFacts(
    trainingFactor: int,        // the room's training factor
    practiceRewards: bool,      // practice rewards switched on in the configuration
    countdown: int,             // the match countdown left at the end
    isDefender: bool,           // the player's base position is DF
    scoredGoals: int,           // goals of the player's team
    concededGoals: int,         // goals of the rival team
    lowersBonusEnabled: bool,
    averageLevel: int,          // the room's average level
    playerLevel: int,
    levelGapOverLimit: bool,
    goldenTime: bool,
    isMvp: bool,
    experienceRate: int,
    pointRate: int,
    missionReward: Option<int>, // the reward of the room's mission, if it has one
    experienceLimit: int)

  /** The effect of one item bonus: from the bonus id, the base reward and the current
      experience and points, the new experience and points. */
  type ItemBonus = (int, int, int, int) -> (int, int)

  /** The vote points the formula uses: capped at 100. */
  function CappedVotePoints(votePoints: int): (v: int)
    ensures v <= VotePointsLimit
    ensures v == votePoints || v == VotePointsLimit
    ensures votePoints <= VotePointsLimit ==> v == votePoints
  {
    if votePoints > VotePointsLimit then VotePointsLimit else votePoints
  }

  /** The reward factor of a training factor. The practice factor -1 only rewards a
      practice match that ran out its countdown with at least three goals. */
  function RewardFactor(f: MatchFacts, goals: int): (r: int)
    ensures r in {0, 12, 18, 24}
    ensures f.trainingFactor == 6 ==> r == 12
    ensures f.trainingFactor == 8 ==> r == 18
    ensures f.trainingFactor == 10 ==> r == 24
    ensures f.trainingFactor == -1 ==>
              (r == 12 <==> f.practiceRewards && f.countdown <= 0 && goals >= 3)
    ensures f.trainingFactor !in {-1, 6, 8, 10} ==> r == 0
  {
    match f.trainingFactor
    case -1 => if f.practiceRewards && f.countdown <= 0 && goals >= 3 then 12 else 0
    case 6 => 12
    case 8 => 18
    case 10 => 24
    case _ => 0
  }

  /** The base reward: the factor times a tenth of the capped vote points, the tenth rounded
      toward zero. The float product in the source is exact at these magnitudes. */
  function BaseReward(f: MatchFacts, votePoints: int, goals: int): (r: int)
    ensures 0 <= votePoints ==> 0 <= r <= RewardFactor(f, goals) * 10
    ensures RewardFactor(f, goals) == 0 ==> r == 0
    ensures votePoints < 10 ==> r <= 0
  {
    var v := CappedVotePoints(votePoints);
    RewardFactor(f, goals) * JavaDiv(v, 10)
  }

  /** The lowers bonus: two percent per level below the room average, at most 75. */
  function LowersPercent(averageLevel: int, playerLevel: int): (p: int)
    ensures 0 <= p <= 75
    ensures playerLevel >= averageLevel ==> p == 0
    ensures playerLevel < averageLevel ==> p == if 2 * (averageLevel - playerLevel) > 75 then 75
                                                else 2 * (averageLevel - playerLevel)
  {
    var difference := averageLevel - playerLevel;
    if difference > 0 then (if difference * 2 > 75 then 75 else difference * 2) else 0
  }

  /** The defender bonus: 30 percent when the player's team conceded at most one goal and
      did not lose. */
  function DefenderPercent(f: MatchFacts): (p: int)
    ensures p == 0 || p == 30
    ensures p == 30 <==> f.isDefender && f.concededGoals <= 1 && f.scoredGoals >= f.concededGoals
  {
    if f.isDefender && f.concededGoals <= 1 && f.scoredGoals >= f.concededGoals then 30 else 0
  }

  /** The lowers bonus as applied: nothing when the server has it switched off. */
  function LowersBonusPercent(f: MatchFacts): (p: int)
    ensures 0 <= p <= 75
    ensures p > 0 <==> f.lowersBonusEnabled && f.playerLevel < f.averageLevel
  {
    if f.lowersBonusEnabled then LowersPercent(f.averageLevel, f.playerLevel) else 0
  }

  /** The total bonus percentage of the match bonuses. It lies between 0 (no bonus) and
      190 (all of them, lowers at its cap), and is 0 exactly when no bonus applies. */
  function MatchBonusPercent(f: MatchFacts): (p: int)
    ensures 0 <= p <= 190
    ensures p == 0 <==> && DefenderPercent(f) == 0
                        && (!f.lowersBonusEnabled || f.playerLevel >= f.averageLevel)
                        && !f.levelGapOverLimit && !f.goldenTime && !f.isMvp
  {
    DefenderPercent(f) + LowersBonusPercent(f) + (if f.levelGapOverLimit then 10 else 0) +
    (if f.goldenTime then 50 else 0) + (if f.isMvp then 25 else 0)
  }

  /** The experience and points after the selected items' bonuses, each item applying its
      first bonus and then its second, items in order. */
  function ItemBonuses(items: seq<(int, int)>, applyBonus: ItemBonus, base: int,
                       experience: int, points: int): (int, int)
  {
    if items == [] then (experience, points)
    else
      var (e1, p1) := applyBonus(items[0].0, base, experience, points);
      var (e2, p2) := applyBonus(items[0].1, base, e1, p1);
      ItemBonuses(items[1..], applyBonus, base, e2, p2)
  }

  /** Items apply one after the other: the items of `a` and then those of `b` give what `b`
      gives from the values `a` leaves. */
  lemma {:induction false} ItemBonusesAppend(a: seq<(int, int)>, b: seq<(int, int)>, applyBonus: ItemBonus,
                                             base: int, experience: int, points: int)
    ensures var r := ItemBonuses(a, applyBonus, base, experience, points);
            ItemBonuses(a + b, applyBonus, base, experience, points) == ItemBonuses(b, applyBonus, base, r.0, r.1)
    decreases |a|
  {
    if a == [] {
      assert a + b == b;
    } else {
      assert (a + b)[0] == a[0];
      var (e1, p1) := applyBonus(a[0].0, base, experience, points);
      var (e2, p2) := applyBonus(a[0].1, base, e1, p1);
      assert (a + b)[1..] == a[1..] + b;
      ItemBonusesAppend(a[1..], b, applyBonus, base, e2, p2);
    }
  }

  /** Items whose bonuses have no effect leave experience and points as they were. */
  lemma {:induction false} NeutralItemsChangeNothing(items: seq<(int, int)>, applyBonus: ItemBonus,
                                                     base: int, experience: int, points: int)
    requires forall i, e, p :: 0 <= i < |items| ==>
               applyBonus(items[i].0, base, e, p) == (e, p) && applyBonus(items[i].1, base, e, p) == (e, p)
    ensures ItemBonuses(items, applyBonus, base, experience, points) == (experience, points)
    decreases |items|
  {
    if items != [] {
      assert applyBonus(items[0].0, base, experience, points) == (experience, points);
      assert applyBonus(items[0].1, base, experience, points) == (experience, points);
      forall i, e, p | 0 <= i < |items[1..]|
        ensures applyBonus(items[1..][i].0, base, e, p) == (e, p) && applyBonus(items[1..][i].1, base, e, p) == (e, p)
      {
        assert items[1..][i] == items[i + 1];
      }
      NeutralItemsChangeNothing(items[1..], applyBonus, base, experience, points);
    }
  }

  /** The experience a player may still gain: what would take the total past the limit is
      cut so that the total lands exactly on the limit. */
  function CappedExperience(current: int, experience: int, limit: int): (e: int)
    ensures e <= experience
    ensures current + e <= limit || e == experience
    ensures current + experience > limit ==> current + e == limit
    ensures current + experience <= limit ==> e == experience
  {
    if current + experience > limit then limit - current else experience
  }

  /** The experience and points a positive base reward ends with. */
  function FinalRewards(f: MatchFacts, base: int, items: seq<(int, int)>, applyBonus: ItemBonus,
                        current: int): (int, int)
  {
    var withBonus := base + JavaDiv(base, 100) * MatchBonusPercent(f);
    var (e1, p1) := ItemBonuses(items, applyBonus, base, withBonus, withBonus);
    var (e2, p2) := (e1 * f.experienceRate, p1 * f.pointRate);
    var (e3, p3) := match f.missionReward
                    case None => (e2, p2)
                    case Some(m) => (e2 + m, p2 + m);
    (CappedExperience(current, e3, f.experienceLimit), p3)
  }

  /** A rewarded player never ends above the experience limit, whatever the items do. */
  lemma FinalRewardsRespectLimit(f: MatchFacts, base: int, items: seq<(int, int)>, applyBonus: ItemBonus,
                                 current: int)
    requires current <= f.experienceLimit
    ensures current + FinalRewards(f, base, items, applyBonus, current).0 <= f.experienceLimit
  {
  }

  /** Worked examples: factor 24 (training factor 10) and 85 vote points give a base of 192;
      with the MVP bonus alone, 1 percent of it times 25 raises it to 217. */
  lemma RewardExamples(f: MatchFacts)
    requires f.trainingFactor == 10
    requires !f.isDefender && !f.lowersBonusEnabled && !f.levelGapOverLimit && !f.goldenTime && f.isMvp
    ensures BaseReward(f, 85, 0) == 192
    ensures 192 + JavaDiv(192, 100) * MatchBonusPercent(f) == 217
  {
  }

  /** Multiplication distributes over a five-term sum. */
  lemma Distribute(x: int, a: int, b: int, c: int, d: int, e: int)
    ensures x * (a + b + c + d + e) == x * a + x * b + x * c + x * d + x * e
  {
  }

  /** Messages the reward step sends, and the one database write. */
  datatype Event = SumRewards(experience: int, points: int)
                 | UpdateRoomPlayer | PlayerBonusStats | PlayerStats | PlayerProgress(lastQuest: int)
                 | Flush

  /** The player's line in the match result. */
  class PlayerResult {
    const playerId: int
    const votePoints: int
    const goals: int
    var experience: int
    var points: int

    constructor (playerId: int, votePoints: int, goals: int)
      ensures this.playerId == playerId && this.votePoints == votePoints && this.goals == goals
      ensures experience == 0 && points == 0
    {
      this.playerId := playerId;
      this.votePoints := votePoints;
      this.goals := goals;
      experience := 0;
      points := 0;
    }
  }

  /** The reward computation for one player, updated step by step. */
  class PlayerRewards {
    const playerResult: PlayerResult
    const currentExperience: int
    var baseReward: int
    var onePercentOfBaseReward: int
    var rewardWithBonus: int
    var levelsEarned: int
    var lastQuest: int
    var experience: int
    var points: int
    var events: seq<Event>

    constructor (playerResult: PlayerResult, currentExperience: int)
      ensures this.playerResult == playerResult && this.currentExperience == currentExperience
      ensures baseReward == 0 && onePercentOfBaseReward == 0 && rewardWithBonus == 0
      ensures levelsEarned == 0 && lastQuest == -1
      ensures experience == 0 && points == 0 && events == []
    {
      this.playerResult := playerResult;
      this.currentExperience := currentExperience;
      baseReward := 0;
      onePercentOfBaseReward := 0;
      rewardWithBonus := 0;
      levelsEarned := 0;
      lastQuest := -1;
      experience := 0;
      points := 0;
      events := [];
    }

    /** Computes and applies the player's reward. `selectedItems` holds the two bonus ids of
        each selected usage item, `levelUp` the levels a total experience earns from a level,
        and `questReached` the quest the match completes. When the base reward is not positive
        no step after it runs and only the progress message is sent. */
    method ApplyMatchRewards(f: MatchFacts, selectedItems: seq<(int, int)>, applyBonus: ItemBonus,
                             levelUp: (int, int) -> int, questReached: int)
      modifies this, playerResult
      ensures baseReward == BaseReward(f, playerResult.votePoints, playerResult.goals)
      ensures baseReward > 0 ==>
                var r := FinalRewards(f, baseReward, selectedItems, applyBonus, currentExperience);
                && experience == r.0 && points == r.1
                && playerResult.experience == r.0 && playerResult.points == r.1
                && levelsEarned == levelUp(f.playerLevel, currentExperience + r.0)
                && lastQuest == questReached
                && events == old(events) + [SumRewards(r.0, r.1), UpdateRoomPlayer, PlayerBonusStats] +
                                           (if levelsEarned > 0 then [PlayerStats] else []) +
                                           [PlayerProgress(questReached), Flush]
      ensures baseReward <= 0 ==>
                && levelsEarned == old(levelsEarned) && lastQuest == old(lastQuest)
                && experience == old(experience) && points == old(points)
                && unchanged(playerResult)
                && events == old(events) + [PlayerProgress(old(lastQuest)), Flush]
    {
      CalculateBaseReward(f);
      if baseReward > 0 {
        RewardPositiveBase(f, selectedItems, applyBonus, levelUp, questReached);
      }
      SendRequiredMessages();
    }

    /** The steps that run only for a positive base reward, from the bonuses to the quest
        check. */
    method RewardPositiveBase(f: MatchFacts, selectedItems: seq<(int, int)>, applyBonus: ItemBonus,
                              levelUp: (int, int) -> int, questReached: int)
      requires rewardWithBonus == baseReward && onePercentOfBaseReward == JavaDiv(baseReward, 100)
      modifies this, playerResult
      ensures var r := FinalRewards(f, baseReward, selectedItems, applyBonus, currentExperience);
              && experience == r.0 && points == r.1
              && playerResult.experience == r.0 && playerResult.points == r.1
              && levelsEarned == levelUp(f.playerLevel, currentExperience + r.0)
              && lastQuest == questReached
              && events == old(events) + [SumRewards(r.0, r.1)]
      ensures baseReward == old(baseReward)
    {
      CalculateMatchBonuses(f);
      CalculateItemBonuses(selectedItems, applyBonus);
      ApplyRewardRates(f);
      ApplyMissionReward(f);
      LimitMaximumExperience(f);
      UpdateResultRewards();
      GiveReward();
      levelsEarned := levelUp(f.playerLevel, currentExperience + experience);
      lastQuest := questReached;
    }

    method CalculateBaseReward(f: MatchFacts)
      modifies this
      ensures baseReward == BaseReward(f, playerResult.votePoints, playerResult.goals)
      ensures rewardWithBonus == baseReward && onePercentOfBaseReward == JavaDiv(baseReward, 100)
      ensures levelsEarned == old(levelsEarned) && lastQuest == old(lastQuest)
      ensures experience == old(experience) && points == old(points) && events == old(events)
    {
      var rewardFactor := 0;
      var votePoints := if playerResult.votePoints > VotePointsLimit then VotePointsLimit
                        else playerResult.votePoints;
      if f.trainingFactor == -1 {
        if f.practiceRewards && f.countdown <= 0 && playerResult.goals >= 3 {
          rewardFactor := 12;
        }
      } else if f.trainingFactor == 6 {
        rewardFactor := 12;
      } else if f.trainingFactor == 8 {
        rewardFactor := 18;
      } else if f.trainingFactor == 10 {
        rewardFactor := 24;
      }
      SetBaseReward(rewardFactor * JavaDiv(votePoints, 10));
    }

    method SetBaseReward(base: int)
      modifies this
      ensures baseReward == base && rewardWithBonus == base
      ensures onePercentOfBaseReward == JavaDiv(base, 100)
      ensures levelsEarned == old(levelsEarned) && lastQuest == old(lastQuest)
      ensures experience == old(experience) && points == old(points) && events == old(events)
    {
      baseReward := base;
      rewardWithBonus := base;
      onePercentOfBaseReward := JavaDiv(base, 100);
    }

    /** Adds `percentage` percent of the base reward when `condition` holds. */
    method ApplyBonusPercentageIf(condition: bool, percentage: int)
      modifies this`rewardWithBonus
      ensures rewardWithBonus == old(rewardWithBonus) + if condition then onePercentOfBaseReward * percentage else 0
    {
      if condition {
        rewardWithBonus := rewardWithBonus + onePercentOfBaseReward * percentage;
      }
    }

    method ApplyLowersBonus(averageLevel: int, playerLevel: int)
      modifies this`rewardWithBonus
      ensures rewardWithBonus == old(rewardWithBonus) + onePercentOfBaseReward * LowersPercent(averageLevel, playerLevel)
    {
      var bonusPercentage := 0;
      var levelsDifference := averageLevel - playerLevel;
      var levelIsLowerThanRoomAverage := levelsDifference > 0;
      if levelIsLowerThanRoomAverage {
        bonusPercentage := levelsDifference * 2;
        if bonusPercentage > 75 {
          bonusPercentage := 75;
        }
      }
      ApplyBonusPercentageIf(levelIsLowerThanRoomAverage, bonusPercentage);
    }

    /** The match bonuses stack: each adds its percentage of the base reward, so together
        they add the total percentage once. */
    method CalculateMatchBonuses(f: MatchFacts)
      modifies this`rewardWithBonus
      ensures rewardWithBonus == old(rewardWithBonus) + onePercentOfBaseReward * MatchBonusPercent(f)
    {
      ghost var start := rewardWithBonus;
      ghost var one := onePercentOfBaseReward;
      if f.isDefender {
        ApplyBonusPercentageIf(f.concededGoals <= 1 && f.scoredGoals >= f.concededGoals, 30);
      }
      assert rewardWithBonus == start + one * DefenderPercent(f);
      if f.lowersBonusEnabled {
        ApplyLowersBonus(f.averageLevel, f.playerLevel);
      }
      assert rewardWithBonus == start + one * DefenderPercent(f) + one * LowersBonusPercent(f);
      ApplyBonusPercentageIf(f.levelGapOverLimit, 10);
      ApplyBonusPercentageIf(f.goldenTime, 50);
      ApplyBonusPercentageIf(f.isMvp, 25);
      Distribute(one, DefenderPercent(f), LowersBonusPercent(f), if f.levelGapOverLimit then 10 else 0,
                 if f.goldenTime then 50 else 0, if f.isMvp then 25 else 0);
    }

    /** Both counters start from the bonus reward; then every selected item applies its
        two bonuses in order. */
    method CalculateItemBonuses(items: seq<(int, int)>, applyBonus: ItemBonus)
      modifies this`experience, this`points
      ensures (experience, points) == ItemBonuses(items, applyBonus, baseReward, rewardWithBonus, rewardWithBonus)
    {
      points := rewardWithBonus;
      experience := rewardWithBonus;
      var i := 0;
      while i < |items|
        invariant 0 <= i <= |items|
        invariant ItemBonuses(items[i..], applyBonus, baseReward, experience, points) ==
                  ItemBonuses(items, applyBonus, baseReward, rewardWithBonus, rewardWithBonus)
      {
        assert items[i..][1..] == items[i + 1..];
        var (e1, p1) := applyBonus(items[i].0, baseReward, experience, points);
        experience, points := e1, p1;
        var (e2, p2) := applyBonus(items[i].1, baseReward, experience, points);
        experience, points := e2, p2;
        i := i + 1;
      }
    }

    method ApplyRewardRates(f: MatchFacts)
      modifies this`experience, this`points
      ensures experience == old(experience) * f.experienceRate && points == old(points) * f.pointRate
    {
      experience := experience * f.experienceRate;
      points := points * f.pointRate;
    }

    method ApplyMissionReward(f: MatchFacts)
      modifies this`experience, this`points
      ensures f.missionReward.None? ==> experience == old(experience) && points == old(points)
      ensures f.missionReward.Some? ==>
                experience == old(experience) + f.missionReward.value &&
                points == old(points) + f.missionReward.value
    {
      if f.missionReward.Some? {
        experience := experience + f.missionReward.value;
        points := points + f.missionReward.value;
      }
    }

    method LimitMaximumExperience(f: MatchFacts)
      modifies this`experience
      ensures experience == CappedExperience(currentExperience, old(experience), f.experienceLimit)
    {
      if currentExperience + experience > f.experienceLimit {
        experience := f.experienceLimit - currentExperience;
      }
    }

    method UpdateResultRewards()
      modifies playerResult
      ensures playerResult.experience == experience && playerResult.points == points
    {
      playerResult.experience := experience;
      playerResult.points := points;
    }

    /** Records the database write of the result's experience and points. */
    method GiveReward()
      modifies this`events
      ensures events == old(events) + [SumRewards(playerResult.experience, playerResult.points)]
    {
      events := events + [SumRewards(playerResult.experience, playerResult.points)];
    }

    method SendRequiredMessages()
      modifies this`events
      ensures events == old(events) +
                        (if baseReward > 0 then [UpdateRoomPlayer, PlayerBonusStats] +
                                                (if levelsEarned > 0 then [PlayerStats] else [])
                         else []) +
                        [PlayerProgress(lastQuest), Flush]
    {
      if baseReward > 0 {
        events := events + [UpdateRoomPlayer, PlayerBonusStats];
        if levelsEarned > 0 {
          events := events + [PlayerStats];
        }
      }
      events := events + [PlayerProgress(lastQuest), Flush];
    }
  }
}

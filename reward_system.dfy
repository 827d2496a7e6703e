/**
 * The reward and streak engine (utils/rewardSystem.js): the loot catalog, the reward
 * roll, the day gate, the streak transition and the application of a reward to a user.
 * Every `Math.random()` draw is a field of `Draws`; "today" is a day number.
 */
module RewardSystem {
  import opened Wrappers
  import opened Basics
  import opened HabitModel
  import opened UserModel
  import opened LootItemModel
  import opened Store

  /** `REWARD_PROBABILITIES`: the widths of the rarity bands of the loot sub-roll. */
  const COMMON_PROBABILITY: real := 0.6
  const RARE_PROBABILITY: real := 0.3
  const EPIC_PROBABILITY: real := 0.1

  /** One entry of `LOOT_ITEMS` (icons and descriptions are cosmetic and left out). */
  datatype CatalogItem = CatalogItem(itemType: ItemType, name: string)

  /** `LOOT_ITEMS[rarity]`: six fixed items per generated tier; there is no legendary tier. */
  function LootItems(rarity: Rarity): (items: seq<CatalogItem>)
    ensures rarity != Legendary ==> |items| == 6
    ensures rarity == Legendary ==> items == []
  {
    match rarity
    case Common => [
      CatalogItem(Badge, "First Steps"), CatalogItem(Badge, "Consistent"),
      CatalogItem(Theme, "Forest Green"), CatalogItem(Theme, "Ocean Blue"),
      CatalogItem(Effect, "Sparkle"), CatalogItem(Effect, "Glow")]
    case Rare => [
      CatalogItem(Badge, "Streak Master"), CatalogItem(Badge, "Dedicated"),
      CatalogItem(Theme, "Golden Hour"), CatalogItem(Theme, "Midnight Purple"),
      CatalogItem(Avatar, "Warrior"), CatalogItem(Effect, "Fire Trail")]
    case Epic => [
      CatalogItem(Badge, "Legendary"), CatalogItem(Badge, "Unstoppable"),
      CatalogItem(Theme, "Cosmic"), CatalogItem(Theme, "Diamond"),
      CatalogItem(Avatar, "Phoenix"), CatalogItem(Effect, "Lightning")]
    case Legendary => []
  }

  /** The object `calculateReward` returns (the message string is cosmetic and left out). */
  datatype Reward = Reward(
    kind: RewardKind,
    amount: Option<int>,
    rarity: Option<Rarity>,
    item: Option<CatalogItem>,
    xp: int)

  /**
   * The random draws of one call, in the order the source makes them: the outcome roll,
   * the xp jitter `floor(random * 6)`, the rarity roll and the catalog index `floor(random * 6)`.
   * A call uses only the draws its branch makes.
   */
  datatype Draws = Draws(roll: real, xpJitter: int, rarityRoll: real, itemIndex: int)

  predicate ValidDraws(d: Draws) {
    0.0 <= d.roll < 1.0 && 0 <= d.xpJitter <= 5 && 0.0 <= d.rarityRoll < 1.0 && 0 <= d.itemIndex < 6
  }

  /** The shape every reward has: what `applyReward`, the history entry and the client rely on. */
  predicate WellFormedReward(r: Reward) {
    match r.kind
    case NothingReward => r.amount == None && r.rarity == None && r.item == None && r.xp == 0
    case XpReward => r.amount == Some(r.xp) && r.rarity == None && r.item == None
    case TokenReward => r.amount == Some(1) && r.rarity == None && r.item == None && r.xp == 5
    case LootReward =>
      && r.amount == None && r.rarity.Some? && r.item.Some?
      && r.rarity.value != Legendary
      && r.item.value in LootItems(r.rarity.value)
      && r.xp == LootXp(r.rarity.value)
  }

  /** `Math.min(streak * 0.01, 0.2)`: one point per streak day, capped at twenty. */
  function StreakBonus(streak: nat): (bonus: real)
    ensures 0.0 <= bonus <= 0.2
    ensures streak >= 20 ==> bonus == 0.2
    ensures streak <= 20 ==> bonus * 100.0 == streak as real
  {
    var b := streak as real * 0.01;
    if b < 0.2 then b else 0.2
  }

  /** The tier of a loot reward: the rarity roll, shifted down by the streak bonus, against the bands. */
  function LootRarity(streak: nat, rarityRoll: real): (r: Rarity)
    ensures r != Legendary
    ensures r == Epic <==> rarityRoll < EPIC_PROBABILITY + StreakBonus(streak)
    ensures r == Common <==> rarityRoll >= EPIC_PROBABILITY + RARE_PROBABILITY + StreakBonus(streak)
  {
    var adjusted := rarityRoll - StreakBonus(streak);
    if adjusted < EPIC_PROBABILITY then Epic
    else if adjusted < EPIC_PROBABILITY + RARE_PROBABILITY then Rare
    else Common
  }

  /** The xp that comes with a loot item of each tier. */
  function LootXp(r: Rarity): int {
    match r
    case Epic => 25
    case Rare => 15
    case _ => 10
  }

  /** `calculateReward(streak)` for the given draws. */
  function CalculateReward(streak: nat, d: Draws): (reward: Reward)
    requires ValidDraws(d)
    ensures WellFormedReward(reward)
    ensures reward.kind == NothingReward <==> d.roll < 0.2
    ensures reward.kind == XpReward <==> 0.2 <= d.roll < 0.7
    ensures reward.kind == TokenReward <==> 0.7 <= d.roll < 0.85
    ensures reward.kind == LootReward <==> 0.85 <= d.roll
    ensures reward.kind == XpReward ==>
      10 + 5 * (streak / 5) <= reward.xp <= 15 + 5 * (streak / 5)
    ensures reward.kind == XpReward ==> reward.xp == 10 + 5 * (streak / 5) + d.xpJitter
    ensures reward.kind == LootReward ==> reward.rarity == Some(LootRarity(streak, d.rarityRoll))
    ensures reward.kind == LootReward ==> reward.item == Some(LootItems(LootRarity(streak, d.rarityRoll))[d.itemIndex])
    ensures reward.xp >= 0
  {
    if d.roll < 0.2 then
      Reward(NothingReward, None, None, None, 0)
    else if d.roll < 0.7 then
      var baseXp := 10;
      var bonusXp := streak / 5 * 5;
      var totalXp := baseXp + bonusXp + d.xpJitter;
      Reward(XpReward, Some(totalXp), None, None, totalXp)
    else if d.roll < 0.85 then
      Reward(TokenReward, Some(1), None, None, 5)
    else
      var rarity := LootRarity(streak, d.rarityRoll);
      var item := LootItems(rarity)[d.itemIndex];
      Reward(LootReward, None, Some(rarity), Some(item), LootXp(rarity))
  }

  /** Orders the tiers by rarity. */
  function RarityRank(r: Rarity): nat {
    match r
    case Common => 0
    case Rare => 1
    case Epic => 2
    case Legendary => 3
  }

  /** For a fixed rarity roll, a longer streak never yields a less rare tier. */
  lemma LootTierMonotone(s1: nat, s2: nat, rarityRoll: real)
    requires s1 <= s2
    ensures RarityRank(LootRarity(s1, rarityRoll)) <= RarityRank(LootRarity(s2, rarityRoll))
  {
    assert StreakBonus(s1) <= StreakBonus(s2);
  }

  /** The bonus is capped: for the loot branch every streak of 20 or more gives the same reward. */
  lemma StreakBonusCapped(s1: nat, s2: nat, d: Draws)
    requires ValidDraws(d) && s1 >= 20 && s2 >= 20 && d.roll >= 0.85
    ensures CalculateReward(s1, d) == CalculateReward(s2, d)
  {
    assert LootRarity(s1, d.rarityRoll) == LootRarity(s2, d.rarityRoll);
  }

  /** `canCompleteHabit`: a habit can be completed unless it was already completed today. */
  function CanCompleteHabit(h: Habit, today: Day): (can: bool)
    ensures can <==> h.lastCompleted != Some(today)
  {
    if h.lastCompleted.None? then true else h.lastCompleted.value != today
  }

  /** The streak after a completion on a new day: one more after yesterday's, otherwise a fresh 1. */
  function AdvancedStreak(h: Habit, today: Day): nat {
    if h.lastCompleted == Some(today - 1) then h.streak + 1 else 1
  }

  /**
   * `updateStreak(habit)`: first completion starts at 1, a completion the day after the
   * last one continues the streak, a same-day call changes nothing, anything else resets to 1.
   * Except on the same day, `lastCompleted` becomes today and `totalCompletions` grows by one.
   */
  method UpdateStreak(habit: Habit, today: Day) returns (updated: Habit, streak: nat)
    ensures streak == updated.streak
    ensures habit.lastCompleted == None ==> streak == 1
    ensures habit.lastCompleted == Some(today - 1) ==> streak == habit.streak + 1
    ensures (habit.lastCompleted.Some? && habit.lastCompleted.value != today - 1
             && habit.lastCompleted.value != today) ==> streak == 1
    ensures !CanCompleteHabit(habit, today) ==> updated == habit
    ensures CanCompleteHabit(habit, today) ==>
      updated == habit.(streak := streak, lastCompleted := Some(today),
                        totalCompletions := habit.totalCompletions + 1)
    ensures CanCompleteHabit(habit, today) ==> streak >= 1 && streak == AdvancedStreak(habit, today)
  {
    var h := habit;
    if h.lastCompleted.None? {
      h := h.(streak := 1);
    } else {
      var last := h.lastCompleted.value;
      if last == today - 1 {
        h := h.(streak := h.streak + 1);
      } else if last == today {
        return h, h.streak;
      } else {
        h := h.(streak := 1);
      }
    }
    h := h.(lastCompleted := Some(today));
    h := h.(totalCompletions := h.totalCompletions + 1);
    return h, h.streak;
  }

  /** The user document after `applyReward`'s in-memory updates, before it is saved. */
  function RewardedUser(u: User, reward: Reward): User
    requires WellFormedReward(reward)
  {
    var tokens := if reward.kind == TokenReward then u.streakProtectionTokens + 1
                  else u.streakProtectionTokens;
    u.(xp := u.xp + reward.xp, totalHabitsCompleted := u.totalHabitsCompleted + 1,
       streakProtectionTokens := tokens)
  }

  /** The loot item `applyReward` creates for a loot reward. */
  function GrantedItem(id: ObjectId, userId: ObjectId, habitId: ObjectId, reward: Reward, now: Instant): (item: LootItem)
    requires WellFormedReward(reward) && reward.kind == LootReward
    ensures item.userId == userId && item.fromHabit == Some(habitId) && !item.isEquipped
    ensures item.rarity == reward.rarity.value && item.name == reward.item.value.name
    ensures item.itemType == reward.item.value.itemType && item.acquiredAt == now
  {
    NewLootItem(id, userId, reward.item.value.itemType, reward.item.value.name,
                reward.rarity.value, now, Some(habitId))
  }

  /**
   * What a calculated reward does to a user's counters: xp grows by exactly the reward's xp,
   * the completion count by one, tokens by one for a token reward and otherwise not at all;
   * after the save the level matches the xp and has not gone down.
   */
  lemma RewardEffect(u: User, streak: nat, d: Draws)
    requires ValidDraws(d) && LevelMatchesXp(u)
    ensures var r := CalculateReward(streak, d);
      var saved := SavedUser(RewardedUser(u, r));
      && saved.xp == u.xp + r.xp
      && saved.totalHabitsCompleted == u.totalHabitsCompleted + 1
      && (saved.streakProtectionTokens == u.streakProtectionTokens + 1 <==> r.kind == TokenReward)
      && (r.kind != TokenReward ==> saved.streakProtectionTokens == u.streakProtectionTokens)
      && LevelMatchesXp(saved)
      && saved.level >= u.level
  {
    var r := CalculateReward(streak, d);
    LevelMonotone(u, SavedUser(RewardedUser(u, r)));
  }

  /**
   * `applyReward(user, habit, reward)` on the user document loaded from the store: the loot
   * item (for a loot reward only) is created first, then the user document is saved.
   */
  method ApplyReward(db: Database, user: User, habitId: ObjectId, reward: Reward, now: Instant)
    requires db.Valid() && WellFormedReward(reward)
    requires UserIndex(db.users, user.id).Some?
    modifies db
    ensures db.Valid()
    ensures db.users == old(db.users)[UserIndex(old(db.users), user.id).value := SavedUser(RewardedUser(user, reward))]
    ensures db.habits == old(db.habits)
    ensures reward.kind != LootReward ==> db.loot == old(db.loot) && db.nextId == old(db.nextId)
    ensures reward.kind == LootReward ==>
      && db.nextId == old(db.nextId) + 1
      && db.loot == old(db.loot) + [GrantedItem(old(db.nextId), user.id, habitId, reward, now)]
  {
    var u := user;
    u := u.(xp := u.xp + reward.xp);
    u := u.(totalHabitsCompleted := u.totalHabitsCompleted + 1);
    match reward.kind {
      case TokenReward =>
        u := u.(streakProtectionTokens := u.streakProtectionTokens + reward.amount.value);
      case LootReward =>
        var id := db.NewObjectId();
        var item := GrantedItem(id, user.id, habitId, reward, now);
        db.SaveLootItem(item);
      case _ =>
    }
    var k := UserIndex(db.users, u.id).value;
    db.SaveUser(k, u);
  }
}

/**
 * The Habit document (models/Habit.js): its fields and defaults, the completion-history
 * entry, and the pre-save hook that raises `bestStreak` to `streak`.
 */
module HabitModel {
  import opened Wrappers
  import opened Basics
  import JsArrays

  /** The history entry's `reward` enum: `xp`, `loot`, `token` or `nothing`. */
  datatype RewardKind = XpReward | LootReward | TokenReward | NothingReward

  datatype HistoryEntry = HistoryEntry(
    date: Day,
    reward: RewardKind,
    rewardAmount: int,
    rewardItem: Option<string>)

  datatype Habit = Habit(
    id: ObjectId,
    userId: ObjectId,
    name: string,
    icon: string,
    description: string,
    streak: nat,
    bestStreak: nat,
    lastCompleted: Option<Day>,
    totalCompletions: nat,
    isActive: bool,
    completionHistory: seq<HistoryEntry>)

  /** A new document: every counter at zero, never completed, active, no history. */
  function NewHabit(id: ObjectId, userId: ObjectId, name: string, icon: string,
                    description: string): (h: Habit)
    ensures h.streak == 0 && h.bestStreak == 0 && h.totalCompletions == 0
    ensures h.lastCompleted == None && h.isActive && h.completionHistory == []
    ensures h.id == id && h.userId == userId && h.name == name && h.icon == icon
    ensures h.description == description
  {
    Habit(id, userId, name, icon, description, 0, 0, None, 0, true, [])
  }

  /** The invariant the hook establishes on every save. */
  predicate BestStreakCovers(h: Habit) {
    h.bestStreak >= h.streak
  }

  /**
   * The document as the pre-save hook leaves it: `bestStreak` becomes the larger of itself
   * and `streak`; nothing else changes.
   */
  function SavedHabit(h: Habit): (saved: Habit)
    ensures saved == h.(bestStreak := saved.bestStreak)
    ensures saved.bestStreak >= h.bestStreak && saved.bestStreak >= h.streak
    ensures saved.bestStreak == h.bestStreak || saved.bestStreak == h.streak
  {
    if h.streak > h.bestStreak then h.(bestStreak := h.streak) else h
  }

  /** Saving twice leaves the same document as saving once. */
  lemma SaveIdempotent(h: Habit)
    ensures SavedHabit(SavedHabit(h)) == SavedHabit(h)
  {
  }

  /** On a document that already satisfies the invariant the hook changes nothing. */
  lemma SaveKeepsValidHabit(h: Habit)
    requires BestStreakCovers(h)
    ensures SavedHabit(h) == h
  {
  }

  /** The first habit with identifier `id`, as `findOne({_id: id})` finds it. */
  function HabitIndex(hs: seq<Habit>, id: ObjectId): (r: Option<nat>)
    ensures r.Some? ==> r.value < |hs| && hs[r.value].id == id
    ensures r.Some? ==> forall k :: 0 <= k < r.value ==> hs[k].id != id
    ensures r.None? ==> forall k :: 0 <= k < |hs| ==> hs[k].id != id
  {
    JsArrays.FindIndex(hs, (h: Habit) => h.id == id)
  }

  predicate UniqueIds(hs: seq<Habit>) {
    forall i, j :: 0 <= i < |hs| && 0 <= j < |hs| && hs[i].id == hs[j].id ==> i == j
  }
}

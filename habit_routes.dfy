/**
 * The habit routes (routes/habits.js) that the reward engine sits behind: create with its
 * validation, soft delete, the completion orchestrator, the paginated history and the
 * per-user statistics. Each handler is a method on the store; the authenticated caller is
 * passed in as `userId`, "now" as a day number and the random draws as `Draws`.
 */
module HabitRoutes {
  import opened Wrappers
  import opened Basics
  import opened JsBuiltins
  import opened JsArrays
  import opened Sorting
  import opened HabitModel
  import opened UserModel
  import opened Store
  import opened RewardSystem

  const DEFAULT_ICON: string := "\U{2B50}"
  /** The schema's `maxlength` bounds on `name` and `description`. */
  const NAME_MAX_LENGTH: nat := 100
  const DESCRIPTION_MAX_LENGTH: nat := 500
  /** The history page defaults: `parseInt(page) || 1`, `parseInt(limit) || 30`. */
  const DEFAULT_PAGE: int := 1
  const DEFAULT_LIMIT: int := 30

  /** `findOne({_id: id, userId})`: the stored habit with that id, if the caller owns it. */
  function OwnedHabit(hs: seq<Habit>, id: ObjectId, userId: ObjectId): (r: Option<nat>)
    ensures r.Some? ==> r.value < |hs| && hs[r.value].id == id && hs[r.value].userId == userId
    ensures r.None? && HabitModel.UniqueIds(hs) ==>
      forall k :: 0 <= k < |hs| ==> !(hs[k].id == id && hs[k].userId == userId)
  {
    var k := HabitIndex(hs, id);
    if k.Some? && hs[k.value].userId == userId then k else None
  }

  /** `findOne({_id: id, userId, isActive: true})`: as `OwnedHabit`, and not soft-deleted. */
  function ActiveHabit(hs: seq<Habit>, id: ObjectId, userId: ObjectId): (r: Option<nat>)
    ensures r.Some? ==> OwnedHabit(hs, id, userId) == r && hs[r.value].isActive
    ensures r.None? ==> OwnedHabit(hs, id, userId).None? || !hs[OwnedHabit(hs, id, userId).value].isActive
  {
    var k := OwnedHabit(hs, id, userId);
    if k.Some? && hs[k.value].isActive then k else None
  }

  // ----- POST /api/habits -----

  datatype CreateOutcome = Created(habit: Habit) | NameRequired | CreateServerError

  /**
   * The name as stored, or `None` when the request is rejected: a missing name, or one that
   * is empty after trimming. The schema's `trim` setter trims the trimmed name again.
   */
  function StoredName(name: Option<string>): (r: Option<string>)
    ensures r.None? <==> name.None? || AllWhitespace(name.value)
    ensures r.Some? ==> r.value == Trim(name.value) && r.value != [] && Trim(r.value) == r.value
  {
    if name.None? then None
    else
      var trimmed := Trim(name.value);
      TrimEmptyIff(name.value);
      TrimIdempotent(name.value);
      if |trimmed| == 0 then None else Some(Trim(trimmed))
  }

  /** The stored description: the trimmed text, or `""` when none was sent. */
  function DescriptionOf(description: Option<string>): string {
    if Truthy(description) then Trim(description.value) else ""
  }

  /** The stored icon: the one sent, or the star when none was sent. */
  function IconOf(icon: Option<string>): string {
    if Truthy(icon) then icon.value else DEFAULT_ICON
  }

  /**
   * Creates a habit. A missing or all-whitespace name is rejected; a name or description
   * over its schema bound fails validation on save (a server error). Otherwise the new
   * document holds the trimmed name (the schema's `trim` setter trims it once more), the
   * icon or the star, and the trimmed description or `""`.
   */
  method CreateHabit(db: Database, userId: ObjectId, name: Option<string>, icon: Option<string>,
                     description: Option<string>) returns (outcome: CreateOutcome)
    requires db.Valid()
    modifies db`habits, db`nextId
    ensures db.Valid()
    ensures outcome.NameRequired? <==> StoredName(name).None?
    ensures outcome.CreateServerError? <==>
      && StoredName(name).Some?
      && (|StoredName(name).value| > NAME_MAX_LENGTH || |DescriptionOf(description)| > DESCRIPTION_MAX_LENGTH)
    ensures !outcome.Created? ==> db.habits == old(db.habits) && db.nextId == old(db.nextId)
    ensures outcome.Created? ==>
      && outcome.habit == NewHabit(old(db.nextId), userId, StoredName(name).value, IconOf(icon), DescriptionOf(description))
      && db.habits == old(db.habits) + [outcome.habit]
      && db.nextId == old(db.nextId) + 1
    ensures outcome.Created? ==>
      && |outcome.habit.name| <= NAME_MAX_LENGTH && |outcome.habit.description| <= DESCRIPTION_MAX_LENGTH
  {
    var validated := StoredName(name);
    if validated.None? {
      return NameRequired;
    }
    var storedName := validated.value;
    var storedDescription := DescriptionOf(description);
    if |storedName| > NAME_MAX_LENGTH || |storedDescription| > DESCRIPTION_MAX_LENGTH {
      return CreateServerError;
    }
    var habit := InsertNewHabit(db, userId, storedName, IconOf(icon), storedDescription);
    return Created(habit);
  }

  /** `new Habit({...}).save()`: a new document under a fresh id, appended to the collection. */
  method InsertNewHabit(db: Database, userId: ObjectId, name: string, icon: string, description: string)
    returns (habit: Habit)
    requires db.Valid()
    modifies db`habits, db`nextId
    ensures db.Valid()
    ensures habit == NewHabit(old(db.nextId), userId, name, icon, description)
    ensures db.habits == old(db.habits) + [habit] && db.nextId == old(db.nextId) + 1
  {
    var id := db.NewObjectId();
    habit := NewHabit(id, userId, name, icon, description);
    db.InsertHabit(habit);
  }

  // ----- DELETE /api/habits/:id -----

  /** Soft delete: the caller's habit is marked inactive and nothing else about it changes. */
  method DeleteHabit(db: Database, userId: ObjectId, habitId: ObjectId) returns (found: bool)
    requires db.Valid()
    modifies db`habits
    ensures db.Valid()
    ensures found <==> OwnedHabit(old(db.habits), habitId, userId).Some?
    ensures !found ==> db.habits == old(db.habits)
    ensures found ==>
      var k := OwnedHabit(old(db.habits), habitId, userId).value;
      db.habits == old(db.habits)[k := old(db.habits)[k].(isActive := false)]
  {
    var k := OwnedHabit(db.habits, habitId, userId);
    if k.None? {
      return false;
    }
    var habit := db.habits[k.value];
    habit := habit.(isActive := false);
    SaveKeepsValidHabit(habit);
    db.SaveHabit(k.value, habit);
    return true;
  }

  // ----- POST /api/habits/:id/complete -----

  datatype CompleteOutcome =
    | HabitNotFound
    | AlreadyCompleted
    | CompleteServerError
    | Completed(habit: Habit, reward: Reward, user: User, streak: nat)

  /** The history entry pushed for a reward: its kind, `reward.amount || 0` and the item name or null. */
  function HistoryEntryFor(reward: Reward, today: Day): (e: HistoryEntry)
    requires WellFormedReward(reward)
    ensures e.date == today && e.reward == reward.kind
    ensures reward.kind == XpReward ==> e.rewardAmount == reward.xp
    ensures reward.kind == TokenReward ==> e.rewardAmount == 1
    ensures reward.kind == LootReward || reward.kind == NothingReward ==> e.rewardAmount == 0
    ensures e.rewardItem.Some? <==> reward.kind == LootReward
    ensures reward.kind == LootReward ==> e.rewardItem == Some(reward.item.value.name)
  {
    var amount := if reward.amount.Some? && reward.amount.value != 0 then reward.amount.value else 0;
    var item := if reward.item.Some? then Some(reward.item.value.name) else None;
    HistoryEntry(today, reward.kind, amount, item)
  }

  /**
   * The habit document after a completion on a new day, before its save: the streak
   * advanced, completed today, one more completion and one more history entry; every other
   * field as it was.
   */
  function CompletedHabit(h: Habit, today: Day, reward: Reward): (c: Habit)
    requires WellFormedReward(reward)
    ensures c.streak == AdvancedStreak(h, today) && c.streak >= 1
    ensures c.lastCompleted == Some(today) && !CanCompleteHabit(c, today)
    ensures c.totalCompletions == h.totalCompletions + 1
    ensures c.completionHistory == h.completionHistory + [HistoryEntryFor(reward, today)]
    ensures c == h.(streak := c.streak, lastCompleted := c.lastCompleted,
                    totalCompletions := c.totalCompletions, completionHistory := c.completionHistory)
  {
    h.(streak := AdvancedStreak(h, today), lastCompleted := Some(today),
       totalCompletions := h.totalCompletions + 1,
       completionHistory := h.completionHistory + [HistoryEntryFor(reward, today)])
  }

  /**
   * The completion orchestrator. A missing, foreign or inactive habit is not found; a habit
   * already completed today is rejected; a caller with no user document fails when the reward
   * is applied. In those three cases nothing is stored. Otherwise the streak advances, the
   * reward is rolled from the new streak, applied to the user (creating the loot item for a
   * loot reward), one history entry is appended and the habit is saved. The clock reading
   * `now` dates the completion by its day and stamps the loot item's `acquiredAt`.
   */
  method Complete(db: Database, userId: ObjectId, habitId: ObjectId, now: Instant, draws: Draws)
    returns (outcome: CompleteOutcome)
    requires db.Valid() && ValidDraws(draws)
    modifies db
    ensures db.Valid()
    ensures outcome.HabitNotFound? <==> ActiveHabit(old(db.habits), habitId, userId).None?
    ensures outcome.AlreadyCompleted? <==>
      && ActiveHabit(old(db.habits), habitId, userId).Some?
      && !CanCompleteHabit(old(db.habits)[ActiveHabit(old(db.habits), habitId, userId).value], DayOf(now))
    ensures outcome.CompleteServerError? <==>
      && ActiveHabit(old(db.habits), habitId, userId).Some?
      && CanCompleteHabit(old(db.habits)[ActiveHabit(old(db.habits), habitId, userId).value], DayOf(now))
      && UserIndex(old(db.users), userId).None?
    ensures !outcome.Completed? ==> unchanged(db)
    ensures outcome.Completed? ==>
      var k := ActiveHabit(old(db.habits), habitId, userId).value;
      var h := old(db.habits)[k];
      var ui := UserIndex(old(db.users), userId).value;
      && outcome.streak == AdvancedStreak(h, DayOf(now))
      && outcome.streak == outcome.habit.streak
      && outcome.reward == CalculateReward(outcome.streak, draws)
      && outcome.habit == SavedHabit(CompletedHabit(h, DayOf(now), outcome.reward))
      && db.habits == old(db.habits)[k := outcome.habit]
      && db.users == old(db.users)[ui := SavedUser(RewardedUser(old(db.users)[ui], outcome.reward))]
      && outcome.user == db.users[ui]
      && (outcome.reward.kind == LootReward ==>
            db.loot == old(db.loot) + [GrantedItem(old(db.nextId), userId, habitId, outcome.reward, now)]
            && db.nextId == old(db.nextId) + 1)
      && (outcome.reward.kind != LootReward ==> db.loot == old(db.loot) && db.nextId == old(db.nextId))
    ensures outcome.Completed? ==> !CanCompleteHabit(outcome.habit, DayOf(now))
  {
    var today := DayOf(now);
    var found := ActiveHabit(db.habits, habitId, userId);
    if found.None? {
      return HabitNotFound;
    }
    var k := found.value;
    var habit := db.habits[k];
    if !CanCompleteHabit(habit, today) {
      return AlreadyCompleted;
    }
    var updated, newStreak := UpdateStreak(habit, today);
    var reward := CalculateReward(newStreak, draws);
    var ui := UserIndex(db.users, userId);
    if ui.None? {
      return CompleteServerError;
    }
    var user := db.users[ui.value];
    ApplyReward(db, user, habit.id, reward, now);
    updated := updated.(completionHistory := updated.completionHistory + [HistoryEntryFor(reward, today)]);
    db.SaveHabit(k, updated);
    outcome := Completed(db.habits[k], reward, db.users[ui.value], newStreak);
  }

  // ----- GET /api/habits/:id/history -----

  function EntryDate(e: HistoryEntry): int {
    e.date
  }

  /** `completionHistory.sort((a, b) => b.date - a.date)`, on a copy of the loaded array. */
  method SortByDateDesc(entries: seq<HistoryEntry>) returns (sorted: seq<HistoryEntry>)
    ensures sorted == SortDesc(entries, EntryDate)
  {
    var a := new HistoryEntry[|entries|](i requires 0 <= i < |entries| => entries[i]);
    assert a[..] == entries;
    SortInPlace(a, EntryDate);
    sorted := a[..];
  }

  datatype HistoryPage = HistoryPage(
    habitId: ObjectId, name: string, icon: string,
    history: seq<HistoryEntry>,
    page: int, limit: int, total: nat, pages: int)

  /**
   * One page of a habit's history, newest first: `skip = (page - 1) * limit` and the page
   * is `slice(skip, skip + limit)` of the history sorted by date, descending and stable.
   * Nothing is stored.
   */
  method GetHistory(db: Database, userId: ObjectId, habitId: ObjectId,
                    pageParam: Option<int>, limitParam: Option<int>) returns (result: Option<HistoryPage>)
    ensures result.None? <==> OwnedHabit(db.habits, habitId, userId).None?
    ensures result.Some? ==>
      result.value == PageOf(db.habits[OwnedHabit(db.habits, habitId, userId).value],
                             ParamOr(pageParam, DEFAULT_PAGE), ParamOr(limitParam, DEFAULT_LIMIT))
  {
    var k := OwnedHabit(db.habits, habitId, userId);
    if k.None? {
      return None;
    }
    var page := ParamOr(pageParam, DEFAULT_PAGE);
    var limit := ParamOr(limitParam, DEFAULT_LIMIT);
    var p := Paginate(db.habits[k.value], page, limit);
    return Some(p);
  }

  /** Sorts a copy of the history, newest first, and cuts out the requested page. */
  method Paginate(habit: Habit, page: int, limit: int) returns (p: HistoryPage)
    requires limit != 0
    ensures p == PageOf(habit, page, limit)
  {
    var skip := (page - 1) * limit;
    var sorted := SortByDateDesc(habit.completionHistory);
    var history := Slice(sorted, skip, skip + limit);
    var total := |habit.completionHistory|;
    var pages := CeilDiv(total, limit);
    p := HistoryPage(habit.id, habit.name, habit.icon, history, page, limit, total, pages);
  }

  /**
   * The page `GetHistory` answers with: newest first, only entries of the habit, at most
   * `limit` of them, and `pages` the least count of pages of `limit` entries that holds them all.
   */
  function PageOf(h: Habit, page: int, limit: int): (p: HistoryPage)
    requires limit != 0
    ensures p.habitId == h.id && p.name == h.name && p.icon == h.icon
    ensures p.page == page && p.limit == limit && p.total == |h.completionHistory|
    ensures p.history == Slice(SortDesc(h.completionHistory, EntryDate), (page - 1) * limit, (page - 1) * limit + limit)
    ensures SortedDesc(p.history, EntryDate)
    ensures multiset(p.history) <= multiset(h.completionHistory)
    ensures p.pages == CeilDiv(p.total, limit)
    ensures limit > 0 ==> |p.history| <= limit && p.pages * limit - limit < p.total <= p.pages * limit
  {
    var skip := (page - 1) * limit;
    var sorted := SortDesc(h.completionHistory, EntryDate);
    SortDescSorted(h.completionHistory, EntryDate);
    SliceOfSorted(sorted, skip, skip + limit, EntryDate);
    var total := |h.completionHistory|;
    var pages := CeilDiv(total, limit);
    SliceWithin(sorted, skip, limit);
    if limit > 0 then
      CeilDivBounds(total, limit);
      HistoryPage(h.id, h.name, h.icon, Slice(sorted, skip, skip + limit), page, limit, total, pages)
    else
      HistoryPage(h.id, h.name, h.icon, Slice(sorted, skip, skip + limit), page, limit, total, pages)
  }

  // ----- GET /api/habits/stats -----

  datatype HabitStats = HabitStats(
    totalHabits: nat,
    totalCompletions: nat,
    bestStreak: nat,
    activeStreaks: nat,
    habitsCompletedToday: nat)

  /** The filter `{userId, isActive: true}`. */
  function IsActiveOf(userId: ObjectId): Habit -> bool {
    (h: Habit) => h.userId == userId && h.isActive
  }

  /** `habits.reduce((sum, h) => sum + h.totalCompletions, 0)`. */
  function SumCompletions(hs: seq<Habit>): nat {
    if hs == [] then 0 else SumCompletions(hs[..|hs| - 1]) + hs[|hs| - 1].totalCompletions
  }

  /** `Math.max(...habits.map(h => h.bestStreak), 0)`. */
  function MaxBestStreak(hs: seq<Habit>): (m: nat)
    ensures forall i :: 0 <= i < |hs| ==> hs[i].bestStreak <= m
    ensures m == 0 || exists i :: 0 <= i < |hs| && hs[i].bestStreak == m
  {
    if hs == [] then 0
    else
      var m := MaxBestStreak(hs[..|hs| - 1]);
      var last := hs[|hs| - 1].bestStreak;
      if last > m then last else m
  }

  function HasStreak(h: Habit): bool {
    h.streak > 0
  }

  function CompletedOn(today: Day): Habit -> bool {
    (h: Habit) => h.lastCompleted == Some(today)
  }

  /** The statistics over the caller's active habits. */
  function Stats(hs: seq<Habit>, userId: ObjectId, today: Day): (s: HabitStats)
    ensures s.activeStreaks <= s.totalHabits && s.habitsCompletedToday <= s.totalHabits
    ensures s.totalHabits == 0 ==> s == HabitStats(0, 0, 0, 0, 0)
  {
    var active := Filter(hs, IsActiveOf(userId));
    HabitStats(
      |active|,
      SumCompletions(active),
      MaxBestStreak(active),
      |Filter(active, HasStreak)|,
      |Filter(active, CompletedOn(today))|)
  }

  lemma {:induction false} SumCompletionsAppend(a: seq<Habit>, b: seq<Habit>)
    ensures SumCompletions(a + b) == SumCompletions(a) + SumCompletions(b)
  {
    if b == [] {
      assert a + b == a;
    } else {
      SumCompletionsAppend(a, b[..|b| - 1]);
      assert (a + b)[..|a + b| - 1] == a + b[..|b| - 1];
      assert (a + b)[|a + b| - 1] == b[|b| - 1];
    }
  }

  /**
   * The stats' `bestStreak` bounds the streak of every active habit of the caller, because
   * the save hook keeps each stored habit's `bestStreak` at least its `streak`.
   */
  lemma StatsBestStreakCoversStreaks(hs: seq<Habit>, userId: ObjectId, today: Day)
    requires forall i :: 0 <= i < |hs| ==> BestStreakCovers(hs[i])
    ensures forall i :: 0 <= i < |hs| && hs[i].userId == userId && hs[i].isActive ==>
      hs[i].streak <= Stats(hs, userId, today).bestStreak
  {
    var active := Filter(hs, IsActiveOf(userId));
    forall i | 0 <= i < |hs| && hs[i].userId == userId && hs[i].isActive
      ensures hs[i].streak <= Stats(hs, userId, today).bestStreak
    {
      FilterMembers(hs, IsActiveOf(userId), hs[i]);
      var j :| 0 <= j < |active| && active[j] == hs[i];
    }
  }

  /**
   * A successful completion shows up in the stats: the caller's total completions grow by one,
   * the number of active habits stays the same and at least one habit counts as completed today.
   */
  lemma CompletionCountsInStats(hs: seq<Habit>, k: nat, today: Day, reward: Reward)
    requires k < |hs| && hs[k].isActive && WellFormedReward(reward)
    ensures var c := SavedHabit(CompletedHabit(hs[k], today, reward));
      var before := Stats(hs, hs[k].userId, today);
      var after := Stats(hs[k := c], hs[k].userId, today);
      && after.totalHabits == before.totalHabits
      && after.totalCompletions == before.totalCompletions + 1
      && after.habitsCompletedToday >= 1
  {
    var c := SavedHabit(CompletedHabit(hs[k], today, reward));
    var p := IsActiveOf(hs[k].userId);
    var pre, post := hs[..k], hs[k + 1..];
    assert Filter(hs, p) == Filter(pre + [hs[k]] + post, p) by { assert hs == pre + [hs[k]] + post; }
    assert Filter(hs[k := c], p) == Filter(pre + [c] + post, p) by { assert hs[k := c] == pre + [c] + post; }
    FilterSplice(pre, hs[k], post, p);
    FilterSplice(pre, c, post, p);
    var fpre, fpost := Filter(pre, p), Filter(post, p);
    SumCompletionsSplice(fpre, hs[k], fpost);
    SumCompletionsSplice(fpre, c, fpost);
    var after := Filter(hs[k := c], p);
    assert after[|fpre|] == c;
    FilterMembers(after, CompletedOn(today), c);
  }

  /** The completion total of a spliced list is the totals of its parts plus the middle habit's. */
  lemma SumCompletionsSplice(pre: seq<Habit>, x: Habit, post: seq<Habit>)
    ensures SumCompletions(pre + [x] + post) == SumCompletions(pre) + x.totalCompletions + SumCompletions(post)
  {
    SumCompletionsAppend(pre + [x], post);
    SumCompletionsAppend(pre, [x]);
    assert [x][..0] == [];
  }
}

# IMPULSE reward and streak engine, in Dafny

IMPULSE is a gamified habit tracker. Each time a user completes a habit, the server
does four things:
- it advances the habit's streak;
- it rolls a random reward (nothing, xp, a streak-protection token or a loot item whose
  rarity improves with the streak);
- it credits the reward to the user;
- it records the completion in the habit's history.

The Mongoose pre-save hooks keep three invariants:
- `bestStreak` covers `streak`;
- `level` follows `xp`;
- at most one item of each type is equipped per user.

The REST routes build lists, statistics, pagination, equipment toggling and the
leaderboards on top of this engine.

This project models that core:

- `HabitModel`, `UserModel` and `LootItemModel` hold the three documents. Each has its
  schema defaults and its pre-save hook, written as a function from the document (and,
  for loot, the whole collection) to what gets stored.
- `Store.Database` is a class holding the three collections as sequences in natural
  order, plus a counter that stands in for ObjectId generation. Its save methods run
  the hook and write the document back. `Valid()` collects the hooks' invariants, and
  every route method preserves it.
- `RewardSystem` holds `calculateReward`, `applyReward`, `canCompleteHabit` and
  `updateStreak`. The four `Math.random()` draws are a `Draws` parameter. The clock
  reading is an `Instant` (milliseconds since the epoch), also a parameter; `DayOf` gives
  the calendar day it falls on, and a loot item's `acquiredAt` is the instant itself.
- `HabitRoutes`, `InventoryRoutes` and `LeaderboardRoutes` model the route handlers.
  Handlers that change the store are methods on the database, and their outcome datatype
  has one constructor per response (success, 404, 400, 500). `GetHistory` returns an
  `Option` whose `None` is the 404. The read-only statistics and views (`Stats`,
  `EquippedViewOf`, `LeaderboardStats`) are functions over the collections.
- `JsBuiltins`, `JsArrays` and `Sorting` give the exact JavaScript semantics the routes
  rely on:
  - `trim`, `slice`, `Math.ceil` and `parseInt(q) || d`;
  - `filter` and `find`;
  - the stable `sort` by a numeric key, descending.

  `SortInPlace` is the in-place insertion sort on an array, proved to compute the
  specification `SortDesc`.

Two behaviours of the source come out of the proofs:

- Rewards:
  - `Legendary` is never drawn: the rarity branches yield only epic, rare or common
    (`RewardSystem.LootRarity`). The source's catalogue has no legendary list at all; the
    model's empty `LootItems(Legendary)` only stands in for that missing key.
  - A streak of 20 or more already gives the largest rarity bonus.
  - A longer streak never lowers the loot tier.
- Cosmetics: unequipping keeps `currentTheme`/`currentBadge` in step with the equipped
  items only while no user owns two themes (or two badges) with the same name.
  - The route compares names, not ids.
  - With a duplicate name, unequipping the spare copy resets the theme while the other
    copy stays equipped (`InventoryRoutes.DuplicateNamesDesync`).
  - `InventoryRoutes.EquipKeepsCosmeticsInSync` proves the sync holds when names are
    distinct.

Throughout the model, `None` stands for an absent (`undefined`) request field.

## Model

| member | source | states |
|---|---|---|
| HabitModel.NewHabit | models/Habit.js:3-42 | A new habit has zero streak, best streak and completions, no last completion, is active, and has an empty history. |
| HabitModel.SavedHabit | models/Habit.js:67-72 | The hook changes only `bestStreak`. Afterwards it is at least the old `bestStreak` and at least `streak`, and it is one of the two. |
| HabitModel.SaveIdempotent | models/Habit.js:67-72 | Saving twice stores the same document as saving once. |
| HabitModel.SaveKeepsValidHabit | models/Habit.js:67-72 | On a habit whose `bestStreak` already covers `streak`, the hook changes nothing. |
| UserModel.NewUser | models/User.js:23-46 | A new user starts with 0 xp, level 1, no completions or tokens, the `default` theme and no badge. |
| UserModel.CalculatedLevel | models/User.js:60-62 | The level is the one whose band of 100 xp contains the user's xp: `(level-1)*100 <= xp < level*100`. |
| UserModel.SavedUser | models/User.js:65-68 | The hook changes only `level`, which becomes the calculated level whatever it was before. |
| UserModel.LevelAtLeastOne | models/User.js:60-62 | A user with non-negative xp is at least level 1. |
| UserModel.LevelMonotone | models/User.js:60-62 | More xp never gives a lower level. |
| UserModel.NewUserLevelMatches | models/User.js:23-30 | The defaults agree with the hook: a new user's stored level equals its calculated level. |
| UserModel.UserIndex | routes/habits.js:142 | `findById`: a found index holds a user with that id and no earlier user has it. Nothing found means no user has that id. |
| LootItemModel.NewLootItem | models/LootItem.js:3-43 | A new item is unequipped and acquired at the creation instant, with the given owner, type, name, rarity and source habit. |
| LootItemModel.UnequipSiblings | models/LootItem.js:51-59 | The loop's result is the collection with every equipped item of the same owner and type but another id set to unequipped. |
| LootItemModel.SavedItemStored | models/LootItem.js:49-62 | After a save, the collection holds the saved document exactly as given, under its id. |
| LootItemModel.EquipClearsSlot | models/LootItem.js:50-59 | When an item is saved as newly equipped, no other item of that owner and type remains equipped. |
| LootItemModel.OtherSlotsUnchanged | models/LootItem.js:52-57 | Documents with a different owner or type are left exactly as they were. |
| LootItemModel.UnmodifiedSaveTouchesNoSibling | models/LootItem.js:50 | A save that does not newly equip the item changes no other document. |
| LootItemModel.SavePreservesInvariant | models/LootItem.js:48-62 | Saving keeps ids unique and keeps at most one equipped item per owner and type. |
| Store.Database.InsertHabit | models/Habit.js:67-72 | Inserting appends the document as the hook leaves it, and the store invariant is kept. |
| Store.Database.SaveHabit | models/Habit.js:67-72 | Saving replaces the stored habit with the hooked document, and the store invariant is kept. |
| Store.Database.SaveUser | models/User.js:65-68 | Saving replaces the stored user with the hooked document, whose level matches its xp. |
| Store.Database.SaveLootItem | models/LootItem.js:49-62 | Saving an item updates the collection exactly as the hook and write-back do, and keeps the one-equipped-per-slot invariant. |
| RewardSystem.LootItems | utils/rewardSystem.js:11-36 | Each of the common, rare and epic tiers has six catalogue items; legendary has none. |
| RewardSystem.StreakBonus | utils/rewardSystem.js:42-43 | The bonus is one percent per streak day, lies in [0, 0.2], and is exactly 0.2 from a streak of 20 on. |
| RewardSystem.LootRarity | utils/rewardSystem.js:75-83 | The rarity is never legendary. It is epic iff the roll is below 0.1 plus the bonus, and common iff the roll is at least 0.4 plus the bonus. |
| RewardSystem.CalculateReward | utils/rewardSystem.js:39-96 | The four reward kinds correspond exactly to the roll bands [0,0.2), [0.2,0.7), [0.7,0.85) and [0.85,1). Xp is 10 plus 5 per full five streak days plus the drawn jitter (0 to 5), so between 10 and 15 plus the streak bonus. A token is worth 5 xp. Loot is the catalogue item at the drawn index in the list of the drawn rarity, worth 10/15/25 xp. |
| RewardSystem.LootTierMonotone | utils/rewardSystem.js:75-83 | For the same roll, a longer streak never yields a lower rarity. |
| RewardSystem.StreakBonusCapped | utils/rewardSystem.js:43 | Any two streaks of 20 or more give identical loot rewards for the same draws. |
| RewardSystem.CanCompleteHabit | utils/rewardSystem.js:135-143 | A habit can be completed iff it was not last completed today. |
| RewardSystem.UpdateStreak | utils/rewardSystem.js:146-173 | The streak becomes 1 on a first completion or after a gap, and grows by 1 after yesterday. A habit already completed today is returned unchanged. Otherwise `lastCompleted` becomes today and `totalCompletions` grows by one. |
| RewardSystem.GrantedItem | utils/rewardSystem.js:113-121 | The granted item belongs to the user, is linked to the habit, has the reward's rarity, name and type, is acquired at the given instant and starts unequipped. |
| RewardSystem.RewardEffect | utils/rewardSystem.js:99-127 | After a reward is applied and saved, xp grows by the reward's xp and completions by one. Tokens grow by one exactly when the reward is a token. The level matches the xp and never drops. |
| RewardSystem.ApplyReward | utils/rewardSystem.js:99-132 | The user is stored as rewarded and hooked. Loot appends exactly one new item with a fresh id; other rewards leave the loot collection alone. The habits are unchanged. |
| HabitRoutes.OwnedHabit | routes/habits.js:93-96 | When found, the habit has the requested id and owner. With unique ids, not found means no such habit of that owner exists. |
| HabitRoutes.ActiveHabit | routes/habits.js:118-122 | Found exactly when the owned habit exists and is active. |
| HabitRoutes.StoredName | routes/habits.js:33-39 | A name is rejected iff it is missing or all whitespace. Otherwise the stored name is its trim, which is non-empty and trims to itself. |
| HabitRoutes.CreateHabit | routes/habits.js:29-54 | 400 iff the name is missing or blank. 500 iff the trimmed name exceeds 100 characters or the description exceeds 500. Otherwise one new default habit with the trimmed name, the icon or ⭐, and the trimmed description is appended under a fresh id. Nothing changes on failure. |
| HabitRoutes.InsertNewHabit | routes/habits.js:37-44 | The new habit gets the next free id and default counters, and is appended to the stored habits; the store stays valid. |
| HabitRoutes.DeleteHabit | routes/habits.js:91-111 | Found iff the user owns the habit. Then exactly that habit becomes inactive and nothing else changes; otherwise the store is untouched. |
| HabitRoutes.HistoryEntryFor | routes/habits.js:147-152 | The entry records today and the reward kind. Its amount is the xp for xp rewards, 1 for tokens and 0 otherwise. It carries the item name exactly for loot. |
| HabitRoutes.CompletedHabit | routes/habits.js:137-152 | The completed habit has the advanced streak (at least 1), was last completed today and cannot be completed again today. It has one more completion and the new history entry appended; nothing else changes. |
| HabitRoutes.Complete | routes/habits.js:116-170 | 404 iff no active owned habit. 400 iff it was already completed on the day of the clock reading. 500 iff the user is missing. On any failure the store is unchanged. On success the habit is saved with the advanced streak and its reward, the user is rewarded, and for a loot reward one item acquired at the clock reading is granted and the id counter advances by one; for any other reward the loot and the counter are unchanged. |
| HabitRoutes.SortByDateDesc | routes/habits.js:191-192 | The history, sorted by date with the newest first (stably), equals `SortDesc`. |
| HabitRoutes.GetHistory | routes/habits.js:175-213 | 404 iff the user owns no such habit. Otherwise the page is the one `PageOf` describes for `page` and `limit`, defaulting to 1 and 30 when they are absent or zero. |
| HabitRoutes.PageOf | routes/habits.js:187-207 | The page is the slice from `(page-1)*limit` of the date-sorted history, is itself newest-first, and holds only history entries. It has at most `limit` entries. `pages` is the ceiling of total over limit. |
| HabitRoutes.Paginate | routes/habits.js:187-207 | Skipping, sorting by date, slicing and the page count together compute exactly the page `PageOf` describes. |
| HabitRoutes.MaxBestStreak | routes/habits.js:230 | The result bounds every habit's best streak and equals one of them (or is 0). |
| HabitRoutes.Stats | routes/habits.js:218-245 | Active streaks and habits completed today never exceed the number of active habits. A user without active habits gets all zeros. |
| HabitRoutes.SumCompletionsAppend | routes/habits.js:227 | The completion total is additive over concatenated habit lists. |
| HabitRoutes.StatsBestStreakCoversStreaks | routes/habits.js:230 | In a store kept by the save hook, the reported best streak is at least every active habit's current streak. |
| HabitRoutes.CompletionCountsInStats | routes/habits.js:225-237 | Completing an active habit raises the reported completions by exactly one. The habit count stays the same, and at least one habit counts as completed today. |
| InventoryRoutes.QueryItems | routes/inventory.js:16-22 | The listed items are ordered by `acquiredAt`, a millisecond instant, newest first, and are, as a multiset, exactly the owner's items matching the given type and rarity filters. |
| InventoryRoutes.QueryItemsExactly | routes/inventory.js:16-22 | An item is listed iff it is stored, belongs to the user and matches each filter that is present and non-empty. |
| InventoryRoutes.GroupByType | routes/inventory.js:25-29 | The `reduce` builds, for each type present, the items of that type in list order. Absent types get no key. |
| InventoryRoutes.GroupingPartitions | routes/inventory.js:25-29 | Every listed item is in the group of its own type, and every grouped item is a listed item of that type. |
| InventoryRoutes.RarityCountsSum | routes/inventory.js:34-39 | The four rarity counts add up to the number of items. |
| InventoryRoutes.TypeCountsSum | routes/inventory.js:40-45 | The four type counts add up to the number of items. |
| InventoryRoutes.StatsOf | routes/inventory.js:32-47 | The total is the item count, both breakdowns sum to it, and the equipped count never exceeds it. |
| InventoryRoutes.GetInventory | routes/inventory.js:11-58 | The response holds the queried list (newest first by acquisition instant), a grouping of exactly that list, and its statistics. |
| InventoryRoutes.OwnedItem | routes/inventory.js:65-72 | A found item has the requested id and owner, and is the first document with that id. Nothing is found iff no stored item has that id and owner (ids being unique). |
| InventoryRoutes.EquipTarget | routes/inventory.js:74-75 | Without `equip` the state toggles; with it, the state is set to the given value. |
| InventoryRoutes.CosmeticSync | routes/inventory.js:79-92 | Only `currentTheme`/`currentBadge` can change, and only for a theme or badge item. Equipping sets them to the item's name. Unequipping resets them to `default`/none when they name the item. |
| InventoryRoutes.EquipThenUnequipResets | routes/inventory.js:80-92 | Equipping and then unequipping a theme (badge) leaves the default theme (no badge) and the other cosmetic untouched. |
| InventoryRoutes.Equip | routes/inventory.js:63-103 | 404 iff the user owns no such item, and then nothing changes. Otherwise the item is saved with its new state through the hook. A missing user gives a 500 after the item save. Otherwise the user is saved with the cosmetic update. |
| InventoryRoutes.EquipKeepsCosmeticsInSync | routes/inventory.js:75-93 | While a user's theme and badge names are distinct, an equip or unequip keeps `currentTheme`/`currentBadge` naming the equipped theme and badge. |
| InventoryRoutes.EquipKeepsCosmeticsBacked | routes/inventory.js:75-93 | Conversely, an equip or unequip keeps a non-default `currentTheme` and a set `currentBadge` naming an equipped theme and badge of the user, with or without repeated names; the resets on unequip are what maintain it. |
| InventoryRoutes.DuplicateNamesDesync | routes/inventory.js:86-92 | With two themes of the same name, unequipping the spare one resets the theme while the other stays equipped, so the sync is lost. |
| InventoryRoutes.EquippedViewOf | routes/inventory.js:108-120 | Each filled slot holds a stored, equipped item of the user of that slot's type. |
| InventoryRoutes.EquippedViewShowsEquipped | routes/inventory.js:110-120 | Every item the user has equipped appears in its type's slot (given the one-per-slot invariant). |
| LeaderboardRoutes.MongoLimit | routes/leaderboard.js:22 | `.limit(n)` keeps a prefix: all documents for 0, otherwise the first `abs(n)`. |
| LeaderboardRoutes.AllTimeBoard | routes/leaderboard.js:18-22 | The board is sorted by xp, descending, and has at most `abs(limit)` entries. It is a prefix of all users sorted by xp. |
| LeaderboardRoutes.WeeklyCountMonotone | routes/leaderboard.js:35-42 | A later cut-off never counts more completions. |
| LeaderboardRoutes.WeeklyCountAtMostHistory | routes/leaderboard.js:38-41 | The weekly count never exceeds the total number of history entries. |
| LeaderboardRoutes.WeeklyCompletions | routes/leaderboard.js:35-42 | The loop counts the completions, on or after the cut-off, of the user's active habits. |
| LeaderboardRoutes.WeeklyEntriesAt | routes/leaderboard.js:33-53 | The entry at each position is the weekly entry of the user at that position: that user's fields with their count of completions since the cut-off. |
| LeaderboardRoutes.CollectWeeklyEntries | routes/leaderboard.js:33-53 | The `map` over the users produces exactly their weekly entries, in the users' order. |
| LeaderboardRoutes.WeeklyBoard | routes/leaderboard.js:23-58 | The board is the first `limit` entries of all users, each with their last-seven-days count, after a stable sort by that count, descending. It is itself sorted and has at most `limit` entries. |
| LeaderboardRoutes.SortEntries | routes/leaderboard.js:56-57 | The entries come back stably sorted by weekly completions, descending. |
| LeaderboardRoutes.Ranked | routes/leaderboard.js:62-66 | Each entry keeps its position, with rank position+1. It is flagged current iff its id is the caller's. |
| LeaderboardRoutes.RanksFollowOrder | routes/leaderboard.js:62-66 | A better (smaller) rank never has a smaller score. |
| LeaderboardRoutes.RankByXp | routes/leaderboard.js:74-76 | The count-based rank lies between 1 and the number of users plus 1. |
| LeaderboardRoutes.GetLeaderboard | routes/leaderboard.js:11-97 | An unknown timeframe is a 500. Otherwise the ranked board is returned. The current user is the flagged list entry if there is one, else for all-time a synthetic entry ranked by a count of users with more xp, else null. |
| LeaderboardRoutes.XpRankMatchesBoard | routes/leaderboard.js:74-76 | For a user on the all-time board, the count-based rank is at most the board rank. The two agree when that user's xp is unique. |
| LeaderboardRoutes.TopUser | routes/leaderboard.js:109-111 | There is no top user iff there are no users. Otherwise it is a stored user with the maximal xp. |
| LeaderboardRoutes.TopIsMax | routes/leaderboard.js:109-111 | The first user of any xp-sorted permutation is a stored user with the maximal xp. |
| LeaderboardRoutes.RoundedAverageBounds | routes/leaderboard.js:113-121 | The rounded average is within half a unit of the exact mean. |
| LeaderboardRoutes.LeaderboardStats | routes/leaderboard.js:102-130 | The statistics report the user count, the sum of completed habits, the top user (none iff there are no users, otherwise a stored user of maximal xp), a rounded average xp (0 for no users), and the caller's rank as one more than the number of users with more xp. |
| JsBuiltins.Trim | routes/habits.js:33 | The result is the infix of the input after its leading whitespace; only whitespace lies before and after it, and a non-empty result neither starts nor ends with whitespace, so exactly the leading and trailing whitespace is removed. |
| JsBuiltins.TrimEmptyIff | routes/habits.js:33 | A string trims to empty iff it is all whitespace. |
| JsBuiltins.TrimIdempotent | models/Habit.js:12 | Trimming a trimmed string changes nothing. |
| JsBuiltins.Slice | routes/habits.js:193 | For `0 <= start <= end`, the result is the clamped subsequence and has at most `end - start` elements. |
| JsBuiltins.CeilDivBounds | routes/habits.js:206 | For a positive divisor, the ceiling is the least `q` with `q * b >= a`. |
| JsBuiltins.ParamOr | routes/habits.js:187-188 | A present non-zero parameter is used as given; otherwise the non-zero default applies. |
| JsArrays.Filter | routes/inventory.js:35-46 | The kept elements all satisfy the predicate and form a sub-multiset of the input. |
| JsArrays.FilterMembers | routes/inventory.js:35-46 | An element is kept iff it occurs in the input and satisfies the predicate. |
| JsArrays.FilterCountPermutation | routes/inventory.js:35-46 | A filtered count depends only on the multiset of elements, so sorting before counting changes nothing. |
| JsArrays.Find | routes/inventory.js:116-119 | A found element is the first element that satisfies the predicate (it occurs in the input and no earlier element satisfies it). Nothing found means no element satisfies it. |
| Sorting.SortDesc | routes/habits.js:192 | The sort is a permutation of its input. |
| Sorting.SortDescSorted | routes/habits.js:192 | The sort's result is ordered by key, descending. |
| Sorting.SortDescStable | routes/habits.js:192 | The sort is stable: for every key value, the elements with that key keep their input order. |
| Sorting.InsertDescStable | routes/leaderboard.js:57 | Inserting into a sorted sequence places the new element after every element with an equal key. |
| Sorting.SortInPlace | routes/leaderboard.js:57 | The in-place insertion sort leaves the array holding `SortDesc` of its old contents. |
| Sorting.InsertInPlace | routes/leaderboard.js:57 | One insertion step leaves the array's first `i+1` cells equal to `InsertDesc` of the old element into the sorted prefix, and the rest unchanged. |
| Sorting.ShiftRight | routes/leaderboard.js:57 | The inner loop shifts right, by one cell, exactly the run of cells of smaller key just before position `i`, and stops at a cell whose key is at least as large. |
| Sorting.SliceOfSorted | routes/habits.js:191-193 | Any slice of a sorted sequence is sorted and holds only its elements. |

## Left out

- Authentication, user profile routes and server setup (`routes/auth.js`, `routes/users.js`, `index.js`) are not part of this model. The caller is passed in as an id or a user document.
- The habit list (`GET /api/habits`) and edit (`PATCH /api/habits/:id`) routes are not part of this model; the core is the completion engine and the routes built on it.
- Randomness: the four `Math.random()` draws are a parameter, so the model covers every outcome but says nothing about how likely each one is.
- Clock and calendar: the clock is a parameter. A completion is dated by the UTC day of the clock reading (`Basics.DayOf`); "yesterday" is that day minus 1, and the weekly cut-off is the day minus 7. Time zones, `toDateString` and the time of day of the weekly cut-off are not modelled; a history entry records only the day.
- `InventoryRoutes.QueryItems`: items acquired in the same millisecond are listed in insertion order; MongoDB does not fix the order of equal `acquiredAt` values.
- `InventoryRoutes.GetInventory`: inherits the same-millisecond order of `QueryItems`.
- `RewardSystem.StreakBonus`: the bonus and the roll thresholds are exact reals, not IEEE doubles.
  - The threshold sums (0.1 + 0.3 and the streak bonus) can round differently in JavaScript, which may shift a rarity boundary by one unit in the last place.
- `HabitRoutes.Stats`: `averageStreak`, a floating-point mean, is left out.
- `LeaderboardRoutes.LeaderboardStats`: `averageXP` is the exact mean rounded half up in integers. The floating-point mean that MongoDB's `$avg` computes is not modelled.
- Persistence:
  - Saves are not atomic; a failure between two saves leaves partial effects.
  - Concurrency is not modelled.
  - The model only ever writes one document at a time.
  - ObjectIds are drawn from a counter.
- Mongo sort order: ties in `.sort({xp: -1})` and `.sort({acquiredAt: -1})` are modelled as stable. MongoDB itself does not fix the order of equal keys.
- `populate('fromHabit', 'name icon')`, the `select` projections and password fields are not modelled. A board entry always carries `weeklyCompletions` (0 on the all-time board, where the source object has no such field) and an `id`, which the synthetic current-user entry of the source does not have.
- Loot item `description` and `icon` fields, response messages and HTTP status codes are not modelled; outcomes are constructors.
- Request typing:
  - `equip` is `Option<bool>`; Mongoose's casting of other JSON values is not modelled.
  - Text fields are `Option<string>`; a non-string name is not modelled.
  - A query number is `Option<int>`; `parseInt` returning `NaN`, and so `NaN` limits, are not modelled.
- `HabitRoutes.CreateHabit`: the 100- and 500-character limits count Unicode scalar values, whereas Mongoose counts UTF-16 code units.
- Schema-level validation beyond the length limits (required fields, enums) holds by construction of the datatypes.
- `calculateReward(streak, userId)` never uses `userId`, so the model drops that parameter.
- Errors thrown by the database itself (500 responses other than the missing user and the length limits) are not modelled.

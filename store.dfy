/**
 * The three MongoDB collections the engine touches, as sequences of documents in natural
 * (insertion) order. Each save writes a document back after running its model's pre-save
 * hook, so the hooks' invariants are invariants of the store.
 */
module Store {
  import opened Wrappers
  import opened Basics
  import opened HabitModel
  import opened UserModel
  import opened LootItemModel

  class Database {
    var users: seq<User>
    var habits: seq<Habit>
    var loot: seq<LootItem>
    /** The source of fresh ObjectIds for documents created by the routes. */
    var nextId: ObjectId

    /** What the hooks guarantee of every stored document, plus unique and allocated ids. */
    ghost predicate Valid()
      reads this
    {
      && UserModel.UniqueIds(users)
      && HabitModel.UniqueIds(habits)
      && LootItemModel.UniqueIds(loot)
      && (forall i :: 0 <= i < |users| ==> LevelMatchesXp(users[i]))
      && (forall i :: 0 <= i < |habits| ==> BestStreakCovers(habits[i]) && habits[i].id < nextId)
      && AtMostOneEquipped(loot)
      && (forall i :: 0 <= i < |loot| ==> loot[i].id < nextId)
    }

    /** A store holding the registered users (registration itself is not modelled) and nothing else. */
    constructor (registered: seq<User>)
      requires UserModel.UniqueIds(registered)
      requires forall i :: 0 <= i < |registered| ==> LevelMatchesXp(registered[i])
      ensures Valid()
      ensures users == registered && habits == [] && loot == [] && nextId == 0
    {
      users, habits, loot, nextId := registered, [], [], 0;
    }

    /** A fresh ObjectId. */
    method NewObjectId() returns (id: ObjectId)
      requires Valid()
      modifies this`nextId
      ensures Valid()
      ensures id == old(nextId) && nextId == id + 1
      ensures HabitIndex(habits, id).None? && ItemIndex(loot, id).None?
    {
      id := nextId;
      nextId := nextId + 1;
    }

    /** `new Habit(...).save()`: the pre-save hook runs, then the document is inserted. */
    method InsertHabit(h: Habit)
      requires Valid()
      requires h.id < nextId && HabitIndex(habits, h.id).None?
      modifies this`habits
      ensures Valid()
      ensures habits == old(habits) + [SavedHabit(h)]
    {
      var doc := h;
      if doc.streak > doc.bestStreak {
        doc := doc.(bestStreak := doc.streak);
      }
      habits := habits + [doc];
    }

    /** `habit.save()` of the document stored at position `k`. */
    method SaveHabit(k: nat, h: Habit)
      requires Valid()
      requires k < |habits| && habits[k].id == h.id
      modifies this`habits
      ensures Valid()
      ensures habits == old(habits)[k := SavedHabit(h)]
    {
      var doc := h;
      if doc.streak > doc.bestStreak {
        doc := doc.(bestStreak := doc.streak);
      }
      habits := habits[k := doc];
    }

    /** `user.save()` of the document stored at position `k`: the hook recomputes `level`. */
    method SaveUser(k: nat, u: User)
      requires Valid()
      requires k < |users| && users[k].id == u.id
      modifies this`users
      ensures Valid()
      ensures users == old(users)[k := SavedUser(u)]
    {
      var doc := u;
      doc := doc.(level := doc.xp / 100 + 1);
      users := users[k := doc];
    }

    /**
     * `item.save()`, for a new document or one whose owner and type are those of its stored
     * copy: when the item is being equipped the hook unequips its siblings first.
     */
    method SaveLootItem(item: LootItem)
      requires Valid()
      requires item.id < nextId
      requires ItemIndex(loot, item.id).Some? ==> SameSlot(loot[ItemIndex(loot, item.id).value], item)
      modifies this`loot
      ensures Valid()
      ensures loot == SavedInto(old(loot), item)
    {
      SavePreservesInvariant(loot, item);
      var hooked := loot;
      if item.isEquipped && EquippedModified(loot, item) {
        hooked := UnequipSiblings(loot, item);
      }
      var k := ItemIndex(loot, item.id);
      if k.Some? {
        loot := hooked[k.value := item];
      } else {
        loot := hooked + [item];
      }
    }
  }
}

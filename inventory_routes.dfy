/**
 * The inventory routes (routes/inventory.js): the filtered, grouped and counted inventory,
 * the equip toggle that keeps the user's `currentTheme` and `currentBadge` in step, and the
 * view of the equipped item of each type.
 */
module InventoryRoutes {
  import opened Wrappers
  import opened Basics
  import opened JsBuiltins
  import opened JsArrays
  import opened Sorting
  import opened LootItemModel
  import opened UserModel
  import opened Store

  /** The enum strings the query parameters are compared against. */
  function TypeName(t: ItemType): string {
    match t
    case Theme => "theme"
    case Badge => "badge"
    case Avatar => "avatar"
    case Effect => "effect"
  }

  function RarityName(r: Rarity): string {
    match r
    case Common => "common"
    case Rare => "rare"
    case Epic => "epic"
    case Legendary => "legendary"
  }

  function OfType(t: ItemType): LootItem -> bool {
    (x: LootItem) => x.itemType == t
  }

  function OfRarity(r: Rarity): LootItem -> bool {
    (x: LootItem) => x.rarity == r
  }

  function IsEquipped(x: LootItem): bool {
    x.isEquipped
  }

  // ----- GET /api/inventory -----

  /** The query `{userId}`, plus `type` and `rarity` when those parameters are truthy. */
  function MatchesQuery(userId: ObjectId, typeQuery: Option<string>, rarityQuery: Option<string>): LootItem -> bool {
    (x: LootItem) =>
      && x.userId == userId
      && (Truthy(typeQuery) ==> TypeName(x.itemType) == typeQuery.value)
      && (Truthy(rarityQuery) ==> RarityName(x.rarity) == rarityQuery.value)
  }

  function AcquiredAt(x: LootItem): int {
    x.acquiredAt
  }

  /** The matching items, newest first. */
  function QueryItems(loot: seq<LootItem>, userId: ObjectId, typeQuery: Option<string>,
                      rarityQuery: Option<string>): (items: seq<LootItem>)
    ensures SortedDesc(items, AcquiredAt)
    ensures multiset(items) == multiset(Filter(loot, MatchesQuery(userId, typeQuery, rarityQuery)))
  {
    SortDescSorted(Filter(loot, MatchesQuery(userId, typeQuery, rarityQuery)), AcquiredAt);
    SortDesc(Filter(loot, MatchesQuery(userId, typeQuery, rarityQuery)), AcquiredAt)
  }

  /** An item is listed exactly when it belongs to the caller and matches the given filters. */
  lemma QueryItemsExactly(loot: seq<LootItem>, userId: ObjectId, typeQuery: Option<string>,
                          rarityQuery: Option<string>, x: LootItem)
    ensures x in QueryItems(loot, userId, typeQuery, rarityQuery) <==>
      && x in loot && x.userId == userId
      && (Truthy(typeQuery) ==> TypeName(x.itemType) == typeQuery.value)
      && (Truthy(rarityQuery) ==> RarityName(x.rarity) == rarityQuery.value)
  {
    var items := QueryItems(loot, userId, typeQuery, rarityQuery);
    FilterMembers(loot, MatchesQuery(userId, typeQuery, rarityQuery), x);
    assert x in items <==> x in multiset(items);
  }

  /** `groupedItems`: for every type that occurs, the items of that type in listing order. */
  ghost predicate IsGrouping(items: seq<LootItem>, groups: map<ItemType, seq<LootItem>>) {
    forall t :: GroupOf(items, groups, t)
  }

  /** The group of type `t` is present exactly when an item of that type is, and lists those items. */
  ghost predicate GroupOf(items: seq<LootItem>, groups: map<ItemType, seq<LootItem>>, t: ItemType) {
    && (t in groups ==> groups[t] == Filter(items, OfType(t)) && groups[t] != [])
    && (t !in groups ==> Filter(items, OfType(t)) == [])
  }

  /** The `reduce` that builds `groupedItems`, pushing each item onto the list for its type. */
  method GroupByType(items: seq<LootItem>) returns (groups: map<ItemType, seq<LootItem>>)
    ensures IsGrouping(items, groups)
  {
    groups := map[];
    var i := 0;
    while i < |items|
      invariant 0 <= i <= |items|
      invariant IsGrouping(items[..i], groups)
    {
      var item := items[i];
      var current := if item.itemType in groups then groups[item.itemType] else [];
      GroupingStep(items, i, groups);
      groups := groups[item.itemType := current + [item]];
      i := i + 1;
    }
    assert items[..i] == items;
  }

  /** Pushing the next item onto the group of its type extends a grouping by that item. */
  lemma GroupingStep(items: seq<LootItem>, i: nat, groups: map<ItemType, seq<LootItem>>)
    requires i < |items| && IsGrouping(items[..i], groups)
    ensures var x := items[i];
      IsGrouping(items[..i + 1],
        groups[x.itemType := (if x.itemType in groups then groups[x.itemType] else []) + [x]])
  {
    var x := items[i];
    var extended := groups[x.itemType := (if x.itemType in groups then groups[x.itemType] else []) + [x]];
    var s := items[..i + 1];
    assert s[..|s| - 1] == items[..i] && s[|s| - 1] == x;
    forall t
      ensures GroupOf(s, extended, t)
    {
      assert GroupOf(items[..i], groups, t);
      assert Filter(s, OfType(t)) == Filter(items[..i], OfType(t)) + (if OfType(t)(x) then [x] else []);
    }
  }

  /** In a grouping every item appears in the group of its own type and in no other group. */
  lemma GroupingPartitions(items: seq<LootItem>, groups: map<ItemType, seq<LootItem>>, x: LootItem)
    requires IsGrouping(items, groups)
    ensures x in items ==> x.itemType in groups && x in groups[x.itemType]
    ensures forall t :: t in groups && x in groups[t] ==> x.itemType == t && x in items
  {
    FilterMembers(items, OfType(x.itemType), x);
    assert GroupOf(items, groups, x.itemType);
    forall t | t in groups && x in groups[t]
      ensures x.itemType == t && x in items
    {
      assert GroupOf(items, groups, t);
      FilterMembers(items, OfType(t), x);
    }
  }

  datatype InventoryStats = InventoryStats(
    totalItems: nat,
    common: nat, rare: nat, epic: nat, legendary: nat,
    theme: nat, badge: nat, avatar: nat, effect: nat,
    equipped: nat)

  lemma {:induction false} RarityCountsSum(items: seq<LootItem>)
    ensures |Filter(items, OfRarity(Common))| + |Filter(items, OfRarity(Rare))|
          + |Filter(items, OfRarity(Epic))| + |Filter(items, OfRarity(Legendary))| == |items|
  {
    if items != [] {
      RarityCountsSum(items[..|items| - 1]);
    }
  }

  lemma {:induction false} TypeCountsSum(items: seq<LootItem>)
    ensures |Filter(items, OfType(Theme))| + |Filter(items, OfType(Badge))|
          + |Filter(items, OfType(Avatar))| + |Filter(items, OfType(Effect))| == |items|
  {
    if items != [] {
      TypeCountsSum(items[..|items| - 1]);
    }
  }

  /** The inventory `stats`: the per-rarity and per-type counts each add up to the total. */
  function StatsOf(items: seq<LootItem>): (s: InventoryStats)
    ensures s.totalItems == |items|
    ensures s.common + s.rare + s.epic + s.legendary == s.totalItems
    ensures s.theme + s.badge + s.avatar + s.effect == s.totalItems
    ensures s.equipped <= s.totalItems
  {
    RarityCountsSum(items);
    TypeCountsSum(items);
    InventoryStats(
      |items|,
      |Filter(items, OfRarity(Common))|, |Filter(items, OfRarity(Rare))|,
      |Filter(items, OfRarity(Epic))|, |Filter(items, OfRarity(Legendary))|,
      |Filter(items, OfType(Theme))|, |Filter(items, OfType(Badge))|,
      |Filter(items, OfType(Avatar))|, |Filter(items, OfType(Effect))|,
      |Filter(items, IsEquipped)|)
  }

  /** GET /api/inventory: the listing, its grouping and its counts. Nothing is stored. */
  method GetInventory(db: Database, userId: ObjectId, typeQuery: Option<string>, rarityQuery: Option<string>)
    returns (items: seq<LootItem>, groups: map<ItemType, seq<LootItem>>, stats: InventoryStats)
    ensures items == QueryItems(db.loot, userId, typeQuery, rarityQuery)
    ensures IsGrouping(items, groups)
    ensures stats == StatsOf(items)
  {
    items := QueryItems(db.loot, userId, typeQuery, rarityQuery);
    groups := GroupByType(items);
    stats := StatsOf(items);
  }

  // ----- PATCH /api/inventory/:id/equip -----

  /** `findOne({_id: id, userId})` on the loot collection. */
  function OwnedItem(loot: seq<LootItem>, id: ObjectId, userId: ObjectId): (r: Option<nat>)
    ensures r.Some? ==> r.value < |loot| && loot[r.value].id == id && loot[r.value].userId == userId
    ensures r.Some? ==> ItemIndex(loot, id) == r
    ensures r.None? && LootItemModel.UniqueIds(loot) ==>
      forall k :: 0 <= k < |loot| ==> !(loot[k].id == id && loot[k].userId == userId)
  {
    var k := ItemIndex(loot, id);
    if k.Some? && loot[k.value].userId == userId then k else None
  }

  /** `equip === undefined ? !item.isEquipped : equip`: no flag toggles, a flag sets. */
  function EquipTarget(item: LootItem, equip: Option<bool>): (on: bool)
    ensures equip.None? ==> on != item.isEquipped
    ensures equip.Some? ==> on == equip.value
  {
    if equip.None? then !item.isEquipped else equip.value
  }

  /**
   * The user's cosmetics after an item's new state is saved: equipping a theme or badge makes
   * it current; unequipping one resets the current value (to "default", or to none) only when
   * it carries the item's name. Avatars and effects, and every other field, are left alone.
   */
  function CosmeticSync(u: User, item: LootItem): (r: User)
    ensures r == u.(currentTheme := r.currentTheme, currentBadge := r.currentBadge)
    ensures item.itemType != Theme ==> r.currentTheme == u.currentTheme
    ensures item.itemType != Badge ==> r.currentBadge == u.currentBadge
    ensures item.isEquipped && item.itemType == Theme ==> r.currentTheme == item.name
    ensures item.isEquipped && item.itemType == Badge ==> r.currentBadge == Some(item.name)
    ensures !item.isEquipped && item.itemType == Theme ==>
      r.currentTheme == if u.currentTheme == item.name then DEFAULT_THEME else u.currentTheme
    ensures !item.isEquipped && item.itemType == Badge ==>
      r.currentBadge == if u.currentBadge == Some(item.name) then None else u.currentBadge
  {
    if item.isEquipped then
      if item.itemType == Theme then u.(currentTheme := item.name)
      else if item.itemType == Badge then u.(currentBadge := Some(item.name))
      else u
    else
      if item.itemType == Theme && u.currentTheme == item.name then u.(currentTheme := DEFAULT_THEME)
      else if item.itemType == Badge && u.currentBadge == Some(item.name) then u.(currentBadge := None)
      else u
  }

  /** Equipping a theme or badge and then unequipping it leaves the default theme or no badge. */
  lemma EquipThenUnequipResets(u: User, item: LootItem)
    requires item.itemType == Theme || item.itemType == Badge
    ensures var v := CosmeticSync(CosmeticSync(u, item.(isEquipped := true)), item.(isEquipped := false));
      && (item.itemType == Theme ==> v.currentTheme == DEFAULT_THEME && v.currentBadge == u.currentBadge)
      && (item.itemType == Badge ==> v.currentBadge == None && v.currentTheme == u.currentTheme)
  {
  }

  datatype EquipOutcome = ItemNotFound | EquipServerError(item: LootItem) | Toggled(item: LootItem)

  /**
   * The equip toggle. The caller's item gets its new `isEquipped` and is saved (the hook
   * unequips its siblings); then the user's cosmetics are brought in line and the user saved.
   * A caller with no user document fails after the item has been saved.
   */
  method Equip(db: Database, userId: ObjectId, itemId: ObjectId, equip: Option<bool>)
    returns (outcome: EquipOutcome)
    requires db.Valid()
    modifies db`loot, db`users
    ensures db.Valid()
    ensures outcome.ItemNotFound? <==> OwnedItem(old(db.loot), itemId, userId).None?
    ensures outcome.ItemNotFound? ==> db.loot == old(db.loot) && db.users == old(db.users)
    ensures !outcome.ItemNotFound? ==>
      var stored := old(db.loot)[OwnedItem(old(db.loot), itemId, userId).value];
      && outcome.item == stored.(isEquipped := EquipTarget(stored, equip))
      && db.loot == SavedInto(old(db.loot), outcome.item)
    ensures outcome.EquipServerError? <==>
      OwnedItem(old(db.loot), itemId, userId).Some? && UserIndex(old(db.users), userId).None?
    ensures outcome.EquipServerError? ==> db.users == old(db.users)
    ensures outcome.Toggled? ==>
      var ui := UserIndex(old(db.users), userId).value;
      db.users == old(db.users)[ui := SavedUser(CosmeticSync(old(db.users)[ui], outcome.item))]
  {
    var k := OwnedItem(db.loot, itemId, userId);
    if k.None? {
      return ItemNotFound;
    }
    var item := db.loot[k.value];
    item := item.(isEquipped := EquipTarget(item, equip));
    db.SaveLootItem(item);
    var ui := UserIndex(db.users, userId);
    if ui.None? {
      return EquipServerError(item);
    }
    var user := db.users[ui.value];
    user := CosmeticSync(user, item);
    db.SaveUser(ui.value, user);
    return Toggled(item);
  }

  /** The user's current theme and badge name whatever theme and badge they have equipped. */
  ghost predicate CosmeticsInSync(u: User, loot: seq<LootItem>) {
    forall i :: 0 <= i < |loot| && loot[i].userId == u.id && loot[i].isEquipped ==>
      && (loot[i].itemType == Theme ==> u.currentTheme == loot[i].name)
      && (loot[i].itemType == Badge ==> u.currentBadge == Some(loot[i].name))
  }

  /** No two of the user's themes, and no two of the user's badges, share a name. */
  ghost predicate DistinctCosmeticNames(loot: seq<LootItem>, userId: ObjectId) {
    forall i, j ::
      (0 <= i < |loot| && 0 <= j < |loot| && loot[i].userId == userId && loot[j].userId == userId
       && loot[i].itemType == loot[j].itemType && loot[i].name == loot[j].name
       && (loot[i].itemType == Theme || loot[i].itemType == Badge)) ==> i == j
  }

  /**
   * While the user's themes and badges have distinct names, an equip request keeps
   * `currentTheme` and `currentBadge` naming the equipped theme and badge.
   */
  lemma EquipKeepsCosmeticsInSync(loot: seq<LootItem>, u: User, k: nat, equip: Option<bool>)
    requires LootItemModel.UniqueIds(loot) && AtMostOneEquipped(loot)
    requires k < |loot| && loot[k].userId == u.id
    requires CosmeticsInSync(u, loot) && DistinctCosmeticNames(loot, u.id)
    ensures var item := loot[k].(isEquipped := EquipTarget(loot[k], equip));
      CosmeticsInSync(SavedUser(CosmeticSync(u, item)), SavedInto(loot, item))
  {
    var item := loot[k].(isEquipped := EquipTarget(loot[k], equip));
    var r := SavedInto(loot, item);
    var v := SavedUser(CosmeticSync(u, item));
    assert ItemIndex(loot, item.id) == Some(k);
    forall j | 0 <= j < |r| && r[j].userId == v.id && r[j].isEquipped
      ensures r[j].itemType == Theme ==> v.currentTheme == r[j].name
      ensures r[j].itemType == Badge ==> v.currentBadge == Some(r[j].name)
    {
      if j != k {
        assert r[j] == loot[j];
      }
    }
  }

  /** Some equipped item of the user has type `t` and name `name`. */
  ghost predicate EquippedNamed(loot: seq<LootItem>, userId: ObjectId, t: ItemType, name: string) {
    exists i :: 0 <= i < |loot| && loot[i].userId == userId && loot[i].isEquipped
      && loot[i].itemType == t && loot[i].name == name
  }

  /** The converse of the sync: a non-default current theme and a current badge name equipped items. */
  ghost predicate CosmeticsBacked(u: User, loot: seq<LootItem>) {
    && (u.currentTheme != DEFAULT_THEME ==> EquippedNamed(loot, u.id, Theme, u.currentTheme))
    && (u.currentBadge.Some? ==> EquippedNamed(loot, u.id, Badge, u.currentBadge.value))
  }

  /**
   * An equip request keeps the user's current theme and badge backed by equipped items: an
   * equipped theme or badge is its own witness, and unequipping the witness resets the value.
   * Unlike the forward sync, this holds even when names repeat.
   */
  lemma EquipKeepsCosmeticsBacked(loot: seq<LootItem>, u: User, k: nat, equip: Option<bool>)
    requires LootItemModel.UniqueIds(loot)
    requires k < |loot| && loot[k].userId == u.id
    requires CosmeticsBacked(u, loot)
    ensures var item := loot[k].(isEquipped := EquipTarget(loot[k], equip));
      CosmeticsBacked(SavedUser(CosmeticSync(u, item)), SavedInto(loot, item))
  {
    var item := loot[k].(isEquipped := EquipTarget(loot[k], equip));
    var r := SavedInto(loot, item);
    var v := SavedUser(CosmeticSync(u, item));
    assert ItemIndex(loot, item.id) == Some(k);
    assert r[k] == item;
    if v.currentTheme != DEFAULT_THEME {
      if item.isEquipped && item.itemType == Theme {
        assert r[k].name == v.currentTheme;
      } else {
        var i :| 0 <= i < |loot| && loot[i].userId == u.id && loot[i].isEquipped
          && loot[i].itemType == Theme && loot[i].name == u.currentTheme;
        assert i != k;
        UntouchedBySave(loot, item, k, i);
      }
    }
    if v.currentBadge.Some? {
      if item.isEquipped && item.itemType == Badge {
        assert r[k].name == v.currentBadge.value;
      } else {
        var i :| 0 <= i < |loot| && loot[i].userId == u.id && loot[i].isEquipped
          && loot[i].itemType == Badge && loot[i].name == u.currentBadge.value;
        assert i != k;
        UntouchedBySave(loot, item, k, i);
      }
    }
  }

  /** Saving the item stored at `k` leaves any other item alone unless the hook unequips it as a sibling. */
  lemma UntouchedBySave(loot: seq<LootItem>, item: LootItem, k: nat, i: nat)
    requires LootItemModel.UniqueIds(loot) && k < |loot| && i < |loot| && i != k
    requires loot[k].id == item.id
    requires HookFires(loot, item) ==> !SameSlot(loot[i], item)
    ensures SavedInto(loot, item)[i] == loot[i]
  {
    assert ItemIndex(loot, item.id) == Some(k);
    if HookFires(loot, item) {
      OtherSlotsUnchanged(loot, item);
    } else {
      UnmodifiedSaveTouchesNoSibling(loot, item);
    }
  }

  /**
   * With two same-named themes the sync above breaks: explicitly unequipping the copy that is
   * not equipped resets the theme to "default" while the other copy stays equipped.
   */
  lemma DuplicateNamesDesync()
    ensures var u := NewUser(1, "u").(currentTheme := "Forest Green");
      var equipped := LootItem(10, 1, Theme, "Forest Green", Common, true, 0, None);
      var spare := LootItem(11, 1, Theme, "Forest Green", Common, false, 1, None);
      var loot := [equipped, spare];
      var item := spare.(isEquipped := EquipTarget(spare, Some(false)));
      && CosmeticsInSync(u, loot)
      && !CosmeticsInSync(SavedUser(CosmeticSync(u, item)), SavedInto(loot, item))
  {
    var u := NewUser(1, "u").(currentTheme := "Forest Green");
    var equipped := LootItem(10, 1, Theme, "Forest Green", Common, true, 0, None);
    var spare := LootItem(11, 1, Theme, "Forest Green", Common, false, 1, None);
    var loot := [equipped, spare];
    var item := spare.(isEquipped := false);
    assert loot[0].id == 10 && loot[1].id == 11;
    assert ItemIndex(loot, 11) == Some(1);
    var r := SavedInto(loot, item);
    assert r[0] == equipped;
    assert SavedUser(CosmeticSync(u, item)).currentTheme == DEFAULT_THEME;
  }

  // ----- GET /api/inventory/equipped -----

  datatype EquippedView = EquippedView(
    theme: Option<LootItem>, badge: Option<LootItem>,
    avatar: Option<LootItem>, effect: Option<LootItem>)

  function Slot(v: EquippedView, t: ItemType): Option<LootItem> {
    match t
    case Theme => v.theme
    case Badge => v.badge
    case Avatar => v.avatar
    case Effect => v.effect
  }

  function EquippedBy(userId: ObjectId): LootItem -> bool {
    (x: LootItem) => x.userId == userId && x.isEquipped
  }

  /** For each type, the first of the caller's equipped items of that type, or none. */
  function EquippedViewOf(loot: seq<LootItem>, userId: ObjectId): (v: EquippedView)
    ensures forall t :: Slot(v, t).Some? ==>
      var x := Slot(v, t).value;
      x in loot && x.userId == userId && x.isEquipped && x.itemType == t
  {
    var equippedItems := Filter(loot, EquippedBy(userId));
    var v := EquippedView(
      Find(equippedItems, OfType(Theme)), Find(equippedItems, OfType(Badge)),
      Find(equippedItems, OfType(Avatar)), Find(equippedItems, OfType(Effect)));
    ViewEntriesStored(loot, equippedItems, userId, v);
    v
  }

  lemma ViewEntriesStored(loot: seq<LootItem>, equippedItems: seq<LootItem>, userId: ObjectId, v: EquippedView)
    requires equippedItems == Filter(loot, EquippedBy(userId))
    requires forall t :: Slot(v, t) == Find(equippedItems, OfType(t))
    ensures forall t :: Slot(v, t).Some? ==>
      var x := Slot(v, t).value;
      x in loot && x.userId == userId && x.isEquipped && x.itemType == t
  {
    forall t | Slot(v, t).Some?
      ensures Slot(v, t).value in loot
    {
      FilterMembers(loot, EquippedBy(userId), Slot(v, t).value);
    }
  }

  /**
   * Under the store invariant the view is complete and exact: every equipped item of the
   * caller is the one shown for its type.
   */
  lemma EquippedViewShowsEquipped(loot: seq<LootItem>, userId: ObjectId, i: nat)
    requires AtMostOneEquipped(loot)
    requires i < |loot| && loot[i].userId == userId && loot[i].isEquipped
    ensures Slot(EquippedViewOf(loot, userId), loot[i].itemType) == Some(loot[i])
  {
    var t := loot[i].itemType;
    var equippedItems := Filter(loot, EquippedBy(userId));
    var v := EquippedViewOf(loot, userId);
    assert Slot(v, t) == Find(equippedItems, OfType(t));
    FilterMembers(loot, EquippedBy(userId), loot[i]);
    var m :| 0 <= m < |equippedItems| && equippedItems[m] == loot[i];
    assert OfType(t)(equippedItems[m]);
    var x := Slot(v, t).value;
    var j :| 0 <= j < |loot| && loot[j] == x;
    assert SameSlot(loot[i], loot[j]);
  }
}

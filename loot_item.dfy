/**
 * The LootItem document (models/LootItem.js): its enums, its defaults and the
 * pre-save hook that keeps at most one item equipped per owner and item type.
 */
module LootItemModel {
  import opened Wrappers
  import opened Basics
  import JsArrays

  datatype ItemType = Theme | Badge | Avatar | Effect

  datatype Rarity = Common | Rare | Epic | Legendary

  datatype LootItem = LootItem(
    id: ObjectId,
    userId: ObjectId,
    itemType: ItemType,
    name: string,
    rarity: Rarity,
    isEquipped: bool,
    acquiredAt: Instant,
    fromHabit: Option<ObjectId>)

  /** A new document: `isEquipped` takes its default `false`, `acquiredAt` is the creation instant. */
  function NewLootItem(id: ObjectId, userId: ObjectId, itemType: ItemType, name: string,
                       rarity: Rarity, now: Instant, fromHabit: Option<ObjectId>): (item: LootItem)
    ensures !item.isEquipped && item.acquiredAt == now
    ensures item.id == id && item.userId == userId && item.fromHabit == fromHabit
    ensures item.itemType == itemType && item.name == name && item.rarity == rarity
  {
    LootItem(id, userId, itemType, name, rarity, false, now, fromHabit)
  }

  /** Two items compete for the same equipment slot: same owner, same type. */
  predicate SameSlot(a: LootItem, b: LootItem) {
    a.userId == b.userId && a.itemType == b.itemType
  }

  /** The store invariant the hook maintains. */
  predicate AtMostOneEquipped(items: seq<LootItem>) {
    forall i, j ::
      (0 <= i < |items| && 0 <= j < |items| && items[i].isEquipped && items[j].isEquipped &&
       SameSlot(items[i], items[j])) ==> i == j
  }

  predicate UniqueIds(items: seq<LootItem>) {
    forall i, j :: 0 <= i < |items| && 0 <= j < |items| && items[i].id == items[j].id ==> i == j
  }

  /** The first item with identifier `id`, as `findOne({_id: id})` finds it. */
  function ItemIndex(items: seq<LootItem>, id: ObjectId): (r: Option<nat>)
    ensures r.Some? ==> r.value < |items| && items[r.value].id == id
    ensures r.Some? ==> forall k :: 0 <= k < r.value ==> items[k].id != id
    ensures r.None? ==> forall k :: 0 <= k < |items| ==> items[k].id != id
  {
    JsArrays.FindIndex(items, (item: LootItem) => item.id == id)
  }

  /** The filter of the hook's `updateMany`: same owner and type, another id, currently equipped. */
  predicate IsSibling(other: LootItem, saved: LootItem) {
    SameSlot(other, saved) && other.id != saved.id && other.isEquipped
  }

  /** The collection after `updateMany(<sibling filter>, {isEquipped: false})`. */
  function SiblingsUnequipped(items: seq<LootItem>, saved: LootItem): (r: seq<LootItem>)
    ensures |r| == |items|
  {
    seq(|items|, k requires 0 <= k < |items| =>
      if IsSibling(items[k], saved) then items[k].(isEquipped := false) else items[k])
  }

  /** The hook's `updateMany`, one document at a time. */
  method UnequipSiblings(items: seq<LootItem>, saved: LootItem) returns (result: seq<LootItem>)
    ensures result == SiblingsUnequipped(items, saved)
  {
    result := items;
    var i := 0;
    while i < |items|
      invariant 0 <= i <= |items| && |result| == |items|
      invariant forall k :: 0 <= k < i ==> result[k] == SiblingsUnequipped(items, saved)[k]
      invariant forall k :: i <= k < |items| ==> result[k] == items[k]
    {
      if IsSibling(items[i], saved) {
        result := result[i := items[i].(isEquipped := false)];
      }
      i := i + 1;
    }
  }

  /**
   * Mongoose's `isModified('isEquipped')` at save time: the value differs from the stored
   * copy, or, for a new document, was set to `true` (a default `false` is not a modification).
   */
  predicate EquippedModified(items: seq<LootItem>, item: LootItem) {
    var k := ItemIndex(items, item.id);
    if k.Some? then items[k.value].isEquipped != item.isEquipped else item.isEquipped
  }

  /** The hook fires only for an item being equipped. */
  predicate HookFires(items: seq<LootItem>, item: LootItem) {
    item.isEquipped && EquippedModified(items, item)
  }

  /** The collection after `item.save()`: the hook runs, then the document is written (or inserted). */
  function SavedInto(items: seq<LootItem>, item: LootItem): (r: seq<LootItem>)
  {
    var hooked := if HookFires(items, item) then SiblingsUnequipped(items, item) else items;
    var k := ItemIndex(items, item.id);
    if k.Some? then hooked[k.value := item] else hooked + [item]
  }

  /** The saved document is stored as given, so an item saved as equipped stays equipped. */
  lemma SavedItemStored(items: seq<LootItem>, item: LootItem)
    ensures ItemIndex(SavedInto(items, item), item.id).Some?
    ensures var r := SavedInto(items, item); r[ItemIndex(r, item.id).value] == item
  {
    var r := SavedInto(items, item);
    var k := ItemIndex(items, item.id);
    var j := if k.Some? then k.value else |items|;
    assert r[j] == item;
    assert forall m :: 0 <= m < j ==> r[m].id == items[m].id;
  }

  /** After equipping, no other item of the same owner and type is equipped. */
  lemma EquipClearsSlot(items: seq<LootItem>, item: LootItem)
    requires HookFires(items, item)
    ensures var r := SavedInto(items, item);
      forall j :: 0 <= j < |r| && r[j].id != item.id && SameSlot(r[j], item) ==> !r[j].isEquipped
  {
  }

  /** Items of other owners or of other types are left exactly as they were. */
  lemma OtherSlotsUnchanged(items: seq<LootItem>, item: LootItem)
    ensures var r := SavedInto(items, item);
      forall j :: 0 <= j < |items| && items[j].id != item.id && !SameSlot(items[j], item) ==> r[j] == items[j]
  {
  }

  /** Saving an item that is not being equipped touches no other document. */
  lemma UnmodifiedSaveTouchesNoSibling(items: seq<LootItem>, item: LootItem)
    requires !HookFires(items, item)
    ensures var r := SavedInto(items, item);
      forall j :: 0 <= j < |items| && items[j].id != item.id ==> r[j] == items[j]
  {
  }

  /**
   * Saving preserves "at most one equipped item per owner and type" and unique ids, provided
   * the saved document keeps the owner and type of its stored copy (no route changes them).
   */
  lemma {:induction false} SavePreservesInvariant(items: seq<LootItem>, item: LootItem)
    requires UniqueIds(items) && AtMostOneEquipped(items)
    requires ItemIndex(items, item.id).Some? ==> SameSlot(items[ItemIndex(items, item.id).value], item)
    ensures UniqueIds(SavedInto(items, item))
    ensures AtMostOneEquipped(SavedInto(items, item))
  {
    var r := SavedInto(items, item);
    var k := ItemIndex(items, item.id);
    var p := if k.Some? then k.value else |items|;
    assert |r| == (if k.Some? then |items| else |items| + 1);
    assert r[p] == item;
    forall j | 0 <= j < |r| && j != p
      ensures r[j].id == items[j].id && SameSlot(r[j], items[j]) && (r[j].isEquipped ==> items[j].isEquipped)
    {
    }
    forall i, j | 0 <= i < |r| && 0 <= j < |r| && r[i].id == r[j].id
      ensures i == j
    {
      if i != p && j != p {
        assert items[i].id == items[j].id;
      }
    }
    forall i, j | 0 <= i < |r| && 0 <= j < |r| && r[i].isEquipped && r[j].isEquipped && SameSlot(r[i], r[j])
      ensures i == j
    {
      if i != p && j != p {
        assert items[i].isEquipped && items[j].isEquipped && SameSlot(items[i], items[j]);
      }
    }
  }
}

/**
 * The item side of src/game/items.py: items with a value and a rarity, the
 * consumables that heal the player who uses them, and the bounded
 * `Inventory` list of items.
 *
 * `Item`, `Consumable` and `Equipment` are one class here whose `kind` says
 * which constructor built it; the inventory holds item references, and
 * `item in self.items` compares them by identity, as Python does for objects
 * without `__eq__`.
 */
module Items {
  import opened Wrappers
  import opened Characters

  const Common: int := 1
  const Rare: int := 2
  const Epic: int := 3
  const Legendary: int := 4

  /** The inventory size when none is given. */
  const DefaultMaxSize: int := 20

  type Rgb = (int, int, int)

  const RarityColors: map<int, Rgb> :=
    map[Common := (200, 200, 200), Rare := (0, 128, 255), Epic := (128, 0, 255), Legendary := (255, 165, 0)]

  /**
   * `get_rarity_color`: the table colour of a known rarity, and the common
   * grey for any other value.
   */
  function RarityColor(rarity: int): (c: Rgb)
    ensures Common <= rarity <= Legendary ==> c == RarityColors[rarity]
    ensures !(Common <= rarity <= Legendary) ==> c == (200, 200, 200)
  {
    if rarity in RarityColors then RarityColors[rarity] else RarityColors[Common]
  }

  /** The four rarities are told apart by colour, and only common shares its grey. */
  lemma RarityColorsDistinct(a: int, b: int)
    requires Rare <= a <= Legendary && a != b
    ensures RarityColor(a) != RarityColor(b)
  {
  }

  /** Which class built the item, with that class's own attributes. */
  datatype Kind =
    | Plain
    | Consumable(effect: string, amount: int)
    | Equipment(slot: string, armor: int, damageBonus: int)

  /** The classes `get_items_by_type` can be asked for; `Unrelated` is any class no item is an instance of. */
  datatype ItemClass = ItemClass | ConsumableClass | EquipmentClass | Unrelated

  /**
   * `isinstance`: every item is an `Item`, no item is an instance of an
   * unrelated class, and the two subclasses share no item.
   */
  predicate IsInstance(k: Kind, t: ItemClass): (b: bool)
    ensures t == ItemClass ==> b
    ensures t == Unrelated ==> !b
    ensures b && t == ConsumableClass ==> !k.Equipment? && !k.Plain?
    ensures b && t == EquipmentClass ==> !k.Consumable? && !k.Plain?
  {
    match t
    case ItemClass => true
    case ConsumableClass => k.Consumable?
    case EquipmentClass => k.Equipment?
    case Unrelated => false
  }

  class Item {
    const name: string
    const description: string
    const value: int
    const rarity: int
    const position: Pos
    const kind: Kind
    var pickedUp: bool

    /**
     * `Item(...)`, `Consumable(...)` or `Equipment(...)`, as `kind` says: not
     * picked up yet. Only a plain `Item` takes a position; the two subclasses
     * pass none to `Item.__init__`, so they start at (0, 0).
     */
    constructor(name: string, description: string, value: int, rarity: int, x: int, y: int, kind: Kind)
      ensures this.name == name && this.description == description && this.value == value
      ensures this.rarity == rarity && this.kind == kind
      ensures position == if kind.Plain? then Pos(x, y) else Pos(0, 0)
      ensures !pickedUp
    {
      this.name := name;
      this.description := description;
      this.value := value;
      this.rarity := rarity;
      position := if kind.Plain? then Pos(x, y) else Pos(0, 0);
      this.kind := kind;
      pickedUp := false;
    }

    /**
     * `use`: a consumable heals a given player by its amount when its effect
     * is `"heal"` and is picked up in every case; any other item's `use` does
     * nothing.
     */
    method Use(player: Option<Player>)
      modifies this, if player.Some? then Obj(player.value) else {}
      ensures pickedUp == (kind.Consumable? || old(pickedUp))
      ensures player.Some? ==> Position(player.value) == old(Position(player.value)) && LookOf(player.value) == old(LookOf(player.value))
      ensures player.Some? ==> (old(PlayerValid(player.value)) ==> PlayerValid(player.value))
      ensures player.Some? ==>
        Health(player.value) == (if kind.Consumable? && kind.effect == "heal"
                                 then AfterHeal(old(Health(player.value)), kind.amount)
                                 else old(Health(player.value)))
    {
      if kind.Consumable? {
        if player.Some? && kind.effect == "heal" {
          PlayerHeal(player.value, kind.amount);
        }
        pickedUp := true;
      }
    }
  }

  /** `sum(item.value for item in items)`. */
  function TotalValue(items: seq<Item>): (r: int)
    ensures (forall i :: 0 <= i < |items| ==> items[i].value >= 0) ==> r >= 0
  {
    if items == [] then 0 else items[0].value + TotalValue(items[1..])
  }

  /** Appending an item adds its value to the total. */
  lemma {:induction false} TotalValueAppend(items: seq<Item>, item: Item)
    ensures TotalValue(items + [item]) == TotalValue(items) + item.value
  {
    if items != [] {
      assert (items + [item])[1..] == items[1..] + [item];
      TotalValueAppend(items[1..], item);
    }
  }

  /** The position of the first occurrence of `x`. */
  function FirstIndex<T(==)>(s: seq<T>, x: T): (i: nat)
    requires x in s
    ensures i < |s| && s[i] == x && x !in s[..i]
  {
    if s[0] == x then 0 else 1 + FirstIndex(s[1..], x)
  }

  /** `list.remove` after its membership test: the first occurrence goes, nothing else moves. */
  function RemoveFirst<T(==)>(s: seq<T>, x: T): (r: seq<T>)
    ensures x !in s ==> r == s
    ensures x in s ==> |r| == |s| - 1
  {
    if s == [] then []
    else if s[0] == x then s[1..]
    else [s[0]] + RemoveFirst(s[1..], x)
  }

  /** Exactly the first occurrence goes: the items before it and after it stay, in order. */
  lemma {:induction false} RemoveFirstAt<T>(s: seq<T>, x: T)
    requires x in s
    ensures RemoveFirst(s, x) == s[..FirstIndex(s, x)] + s[FirstIndex(s, x) + 1..]
  {
    if s[0] != x {
      var t := s[1..];
      RemoveFirstAt(t, x);
      var i := FirstIndex(t, x);
      assert FirstIndex(s, x) == i + 1;
      assert s[..i + 1] == [s[0]] + t[..i];
      assert s[i + 2..] == t[i + 1..];
    }
  }

  /** Removal takes one copy of `x` out of the items, and nothing else. */
  lemma {:induction false} RemoveFirstMultiset<T>(s: seq<T>, x: T)
    ensures multiset(RemoveFirst(s, x)) == multiset(s) - multiset{x}
  {
    if s != [] {
      assert s == [s[0]] + s[1..];
      if s[0] != x {
        RemoveFirstMultiset(s[1..], x);
      }
    }
  }

  /** Removing an item takes its value off the total. */
  lemma {:induction false} TotalValueRemove(items: seq<Item>, item: Item)
    requires item in items
    ensures TotalValue(RemoveFirst(items, item)) == TotalValue(items) - item.value
  {
    if items[0] != item {
      var r := RemoveFirst(items[1..], item);
      assert RemoveFirst(items, item) == [items[0]] + r;
      assert ([items[0]] + r)[1..] == r;
      TotalValueRemove(items[1..], item);
    }
  }

  /** Adding an item that was not there and then removing it gives the list back. */
  lemma AddThenRemove(items: seq<Item>, item: Item)
    requires item !in items
    ensures RemoveFirst(items + [item], item) == items
  {
    var s := items + [item];
    RemoveFirstAt(s, item);
    assert s[..|items|] == items;
    assert FirstIndex(s, item) == |items|;
  }

  /** `get_items_by_type`: the items that are instances of `t`, in inventory order. */
  function OfType(items: seq<Item>, t: ItemClass): (r: seq<Item>)
    ensures |r| <= |items|
    ensures forall i :: 0 <= i < |r| ==> r[i] in items && IsInstance(r[i].kind, t)
    ensures forall i :: 0 <= i < |items| && IsInstance(items[i].kind, t) ==> items[i] in r
  {
    if items == [] then []
    else if IsInstance(items[0].kind, t) then [items[0]] + OfType(items[1..], t)
    else OfType(items[1..], t)
  }

  /** Filtering keeps the order: the items of a concatenation are those of each part, in turn. */
  lemma {:induction false} OfTypeAppend(a: seq<Item>, b: seq<Item>, t: ItemClass)
    ensures OfType(a + b, t) == OfType(a, t) + OfType(b, t)
  {
    if a != [] {
      assert (a + b)[0] == a[0];
      assert (a + b)[1..] == a[1..] + b;
      OfTypeAppend(a[1..], b, t);
      if IsInstance(a[0].kind, t) {
        assert OfType(a + b, t) == [a[0]] + OfType(a[1..] + b, t);
      } else {
        assert OfType(a + b, t) == OfType(a[1..] + b, t);
      }
    } else {
      assert a + b == b;
    }
  }

  /** Asking for `Item` gives the whole inventory back. */
  lemma {:induction false} OfItemClassIsAll(items: seq<Item>)
    ensures OfType(items, ItemClass) == items
  {
    if items != [] {
      OfItemClassIsAll(items[1..]);
    }
  }

  class Inventory {
    var items: seq<Item>
    var maxSize: int

    /** The item count never exceeds the maximum size. */
    ghost predicate Valid()
      reads this
    {
      |items| <= maxSize
    }

    /** `Inventory(max_size)`: empty. */
    constructor(maxSize: int)
      ensures items == [] && this.maxSize == maxSize
      ensures maxSize >= 0 ==> Valid()
    {
      items := [];
      this.maxSize := maxSize;
    }

    /** `is_full`: at or past the maximum size, which within the bound means exactly at it. */
    function IsFull(): (r: bool)
      reads this
      ensures r <==> |items| >= maxSize
      ensures Valid() ==> (r <==> |items| == maxSize)
    {
      |items| >= maxSize
    }

    /** `add_item`: appended and true when there is room; false and unchanged when full. */
    method AddItem(item: Item) returns (added: bool)
      modifies this
      ensures added <==> !old(IsFull())
      ensures items == (if added then old(items) + [item] else old(items))
      ensures maxSize == old(maxSize)
      ensures old(Valid()) ==> Valid()
    {
      if |items| < maxSize {
        items := items + [item];
        return true;
      }
      return false;
    }

    /** `remove_item`: the first occurrence removed and true, or false and unchanged when absent. */
    method RemoveItem(item: Item) returns (removed: bool)
      modifies this
      ensures removed <==> item in old(items)
      ensures items == RemoveFirst(old(items), item)
      ensures maxSize == old(maxSize)
      ensures old(Valid()) ==> Valid()
    {
      if item in items {
        items := RemoveFirst(items, item);
        return true;
      }
      return false;
    }
  }
}

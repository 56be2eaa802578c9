/** Items (src/Item.cpp, include/Item.h) as values, and the item-list
    helpers that Room and Player share: the case-insensitive search both
    run over their item vectors, removal by position, and total weight. */
module Items {
  import opened Wrappers
  import opened Utils

  datatype ItemType = Misc | Weapon | Armor | Key | Consumable | QuestItem

  /** An item. Weights are natural numbers: every item of the world has a
      non-negative weight, and the carry limit relies on it. */
  datatype Item = Item(
    name: string,
    description: string,
    weight: nat,
    takeable: bool,
    kind: ItemType,
    value: int,
    damage: int,
    defense: int)

  /** Item::Item, with the header's default arguments. */
  function NewItem(name: string, description: string, weight: nat := 1,
                   takeable: bool := true, kind: ItemType := Misc): (it: Item)
    ensures it.name == name && it.description == description
    ensures it.weight == weight && it.takeable == takeable && it.kind == kind
    ensures it.value == 0 && it.damage == 0 && it.defense == 0
  {
    Item(name, description, weight, takeable, kind, 0, 0, 0)
  }

  /** Item::getTypeString. */
  function TypeString(kind: ItemType): (s: string)
    ensures s == "Miscellaneous" <==> kind == Misc
  {
    match kind
    case Weapon => "Weapon"
    case Armor => "Armor"
    case Key => "Key"
    case Consumable => "Consumable"
    case QuestItem => "Quest Item"
    case Misc => "Miscellaneous"
  }

  lemma TypeStringInjective(a: ItemType, b: ItemType)
    ensures TypeString(a) == TypeString(b) ==> a == b
  {
  }

  /** Item::setValue: only the value changes. */
  function SetValue(it: Item, value: int): (r: Item)
    ensures r.value == value && r.(value := it.value) == it
  {
    it.(value := value)
  }

  /** Item::setDamage: only the damage changes. */
  function SetDamage(it: Item, damage: int): (r: Item)
    ensures r.damage == damage && r.(damage := it.damage) == it
  {
    it.(damage := damage)
  }

  /** Item::setDefense: only the defense changes. */
  function SetDefense(it: Item, defense: int): (r: Item)
    ensures r.defense == defense && r.(defense := it.defense) == it
  {
    it.(defense := defense)
  }

  // ------------------------------------------------- searching item vectors

  /** The comparison both containers use: names equal after toLower. */
  predicate NameMatches(it: Item, name: string) {
    ToLower(it.name) == ToLower(name)
  }

  /** The position of the first item whose name matches, ignoring case. */
  function FindItem(items: seq<Item>, name: string): (r: Option<nat>)
    ensures r.Some? ==> r.value < |items| && NameMatches(items[r.value], name)
    ensures r.Some? ==> forall j :: 0 <= j < r.value ==> !NameMatches(items[j], name)
    ensures r.None? ==> forall j :: 0 <= j < |items| ==> !NameMatches(items[j], name)
  {
    if items == [] then None
    else if NameMatches(items[0], name) then Some(0)
    else match FindItem(items[1..], name)
      case None => None
      case Some(k) => Some(k + 1)
  }

  /** The first matching item itself (the pointer the C++ search returns). */
  function FirstMatch(items: seq<Item>, name: string): (r: Option<Item>)
    ensures r.Some? <==> FindItem(items, name).Some?
    ensures r.Some? ==> r.value == items[FindItem(items, name).value]
  {
    match FindItem(items, name)
    case None => None
    case Some(k) => Some(items[k])
  }

  /** A found position is the only position that is both a match and has
      no match before it. */
  lemma FirstMatchIsUnique(items: seq<Item>, name: string, i: nat)
    requires i < |items| && NameMatches(items[i], name)
    requires forall j :: 0 <= j < i ==> !NameMatches(items[j], name)
    ensures FindItem(items, name) == Some(i)
  {
  }

  /** The vector after erase at position k. */
  function RemoveAt(items: seq<Item>, k: nat): (r: seq<Item>)
    requires k < |items|
    ensures |r| == |items| - 1
    ensures multiset(r) + multiset{items[k]} == multiset(items)
  {
    assert items == items[..k] + [items[k]] + items[k + 1..];
    items[..k] + items[k + 1..]
  }

  function TotalWeight(items: seq<Item>): nat {
    if items == [] then 0 else items[0].weight + TotalWeight(items[1..])
  }

  lemma {:induction false} TotalWeightAppend(items: seq<Item>, it: Item)
    ensures TotalWeight(items + [it]) == TotalWeight(items) + it.weight
    decreases |items|
  {
    if items != [] {
      assert (items + [it])[1..] == items[1..] + [it];
      TotalWeightAppend(items[1..], it);
    }
  }

  lemma {:induction false} TotalWeightRemove(items: seq<Item>, k: nat)
    requires k < |items|
    ensures TotalWeight(RemoveAt(items, k)) == TotalWeight(items) - items[k].weight
    decreases k
  {
    if k > 0 {
      TotalWeightRemove(items[1..], k - 1);
      assert RemoveAt(items, k) == [items[0]] + RemoveAt(items[1..], k - 1);
    } else {
      assert RemoveAt(items, 0) == items[1..];
    }
  }

  function Names(items: seq<Item>): (names: seq<string>)
    ensures |names| == |items|
    ensures forall i :: 0 <= i < |items| ==> names[i] == items[i].name
  {
    seq(|items|, i requires 0 <= i < |items| => items[i].name)
  }
}

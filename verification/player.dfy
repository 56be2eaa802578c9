/** The player (src/Player.cpp): where they stand, what they carry and
    their health. The object is updated in place, so it is a class; its
    inventory vector is a sequence field the methods reassign. */
module Players {
  import opened Wrappers
  import opened Utils
  import opened Decimal
  import opened Constants
  import opened Items
  import opened Rooms

  /** The line of the inventory listing for one item: its name and weight. */
  function ItemLine(it: Item): string {
    "  - " + it.name + " (" + IntToString(it.weight) + " lbs)\n"
  }

  /** One line per item, in inventory order. */
  function ItemLines(items: seq<Item>): string {
    if items == [] then "" else ItemLines(items[..|items| - 1]) + ItemLine(items[|items| - 1])
  }

  /** The lines of a prefix grow by the line of the next item. */
  lemma ItemLinesStep(items: seq<Item>, i: nat)
    requires i < |items|
    ensures ItemLines(items[..i + 1]) == ItemLines(items[..i]) + ItemLine(items[i])
  {
    assert items[..i + 1][..i] == items[..i];
  }

  /** The closing line of the inventory listing. */
  function TotalLine(weight: int, limit: int): string {
    "Total weight: " + IntToString(weight) + "/" + IntToString(limit) + " lbs\n"
  }

  /** Player::getInventoryList on an inventory, its recorded weight and
      the carry limit. */
  function InventoryListing(inventory: seq<Item>, weight: int, limit: int): string {
    if inventory == [] then EmptyHanded
    else Carrying + ItemLines(inventory) + TotalLine(weight, limit)
  }

  const EmptyHanded := "\nYou are empty-handed.\n"
  const Carrying := "\nYou are carrying:\n"

  /** The listing says the player is empty-handed exactly when the
      inventory is empty. */
  lemma EmptyHandedIff(inventory: seq<Item>, weight: int, limit: int)
    ensures inventory == [] <==> InventoryListing(inventory, weight, limit) == EmptyHanded
  {
    if inventory != [] {
      var s := InventoryListing(inventory, weight, limit);
      assert |Carrying| == 19 && |EmptyHanded| == 23;
      assert |TotalLine(weight, limit)| > 14;
      assert |s| > |EmptyHanded|;
    }
  }

  class Player {
    const name: string
    var currentRoom: Room
    var inventory: seq<Item>
    const maxInventorySize: int := MaxInventorySize
    const maxCarryWeight: int := MaxCarryWeight
    var currentWeight: int
    var health: int
    const maxHealth: int := InitialPlayerHealth
    const attackPower: int := BaseAttackDamage
    const defense: int := BaseDefense

    /** The carrying invariant: the recorded weight is the weight of the
        inventory, and both limits hold. */
    predicate Valid()
      reads this
    {
      && currentWeight == TotalWeight(inventory)
      && |inventory| <= maxInventorySize
      && currentWeight <= maxCarryWeight
    }

    predicate HealthInRange()
      reads this
    {
      0 <= health <= maxHealth
    }

    /** A new player in the starting room, with full health and nothing
        carried. */
    constructor (name: string, startingRoom: Room)
      ensures this.name == name && currentRoom == startingRoom
      ensures inventory == [] && currentWeight == 0
      ensures health == InitialPlayerHealth
      ensures Valid() && HealthInRange()
    {
      this.name := name;
      currentRoom := startingRoom;
      inventory := [];
      currentWeight := 0;
      health := InitialPlayerHealth;
    }

    method SetCurrentRoom(room: Room)
      modifies this`currentRoom
      ensures currentRoom == room
    {
      currentRoom := room;
    }

    /** Sets the health as given: unlike ModifyHealth it does not clamp. */
    method SetHealth(h: int)
      modifies this`health
      ensures health == h
    {
      health := h;
    }

    /** Adds to the health and clamps the result into [0, maxHealth]. */
    method ModifyHealth(amount: int)
      modifies this`health
      ensures HealthInRange()
      ensures 0 < old(health) + amount <= maxHealth ==> health == old(health) + amount
      ensures old(health) + amount > maxHealth ==> health == maxHealth
      ensures old(health) + amount <= 0 ==> health == 0
    {
      health := health + amount;
      if health > maxHealth {
        health := maxHealth;
      }
      if health < 0 {
        health := 0;
      }
    }

    /** Follows the exit in the given direction unless there is none or the
        room behind it is locked; the room entered is marked visited, and
        no other room changes. */
    method Move(direction: string) returns (moved: bool)
      modifies this`currentRoom, currentRoom.exits.Values`visited
      ensures var next := old(currentRoom.GetExit(direction));
        && (moved <==> next != null && !next.locked)
        && (moved ==> currentRoom == next && currentRoom.visited)
        && (!moved ==> currentRoom == old(currentRoom))
      ensures forall r :: r in old(currentRoom.exits.Values) ==>
        r.visited == (old(r.visited) || (moved && r == currentRoom))
    {
      var nextRoom := currentRoom.GetExit(direction);
      if nextRoom != null {
        if nextRoom.locked {
          return false;
        }
        currentRoom := nextRoom;
        if !currentRoom.visited {
          currentRoom.SetVisited(true);
        }
        return true;
      }
      return false;
    }

    /** Whether an item of this weight fits under the carry limit; under the
        carrying invariant, that is the inventory's total weight plus the
        item's staying within MaxCarryWeight. */
    predicate CanCarry(weight: int): (b: bool)
      reads this
      ensures Valid() ==> (b <==> TotalWeight(inventory) + weight <= MaxCarryWeight)
    {
      currentWeight + weight <= maxCarryWeight
    }

    /** Why Player::takeItem refuses an item, checked in its order: missing,
        not takeable, inventory full, too heavy; None when it accepts. */
    function TakeRefusal(item: Option<Item>): Option<string>
      reads this
    {
      if item.None? then Some("That item doesn't exist.")
      else if !item.value.takeable then Some("You can't take the " + item.value.name + ".")
      else if |inventory| >= maxInventorySize then Some("Your inventory is full!")
      else if !CanCarry(item.value.weight) then Some("That's too heavy to carry!")
      else None
    }

    /** Takes an item unless a check refuses it; the limits keep holding. */
    method TakeItem(item: Option<Item>) returns (ok: bool, message: string)
      requires Valid()
      modifies this`inventory, this`currentWeight
      ensures Valid()
      ensures ok <==> old(TakeRefusal(item)).None?
      ensures !ok ==> message == old(TakeRefusal(item)).value
      ensures !ok ==> inventory == old(inventory) && currentWeight == old(currentWeight)
      ensures ok ==> inventory == old(inventory) + [item.value]
      ensures ok ==> currentWeight == old(currentWeight) + item.value.weight
      ensures ok ==> message == "You take the " + item.value.name + "."
    {
      if item.None? {
        return false, "That item doesn't exist.";
      }
      var it := item.value;
      if !it.takeable {
        return false, "You can't take the " + it.name + ".";
      }
      if |inventory| >= maxInventorySize {
        return false, "Your inventory is full!";
      }
      if !CanCarry(it.weight) {
        return false, "That's too heavy to carry!";
      }
      TotalWeightAppend(inventory, it);
      inventory := inventory + [it];
      currentWeight := currentWeight + it.weight;
      return true, "You take the " + it.name + ".";
    }

    /** Moves the first inventory item whose name matches, ignoring case,
        to the end of the current room's items. */
    method DropItem(itemName: string) returns (ok: bool, message: string)
      requires Valid()
      modifies this`inventory, this`currentWeight, currentRoom`items
      ensures Valid()
      ensures ok <==> FindItem(old(inventory), itemName).Some?
      ensures multiset(inventory) + multiset(currentRoom.items)
        == old(multiset(inventory) + multiset(currentRoom.items))
      ensures !ok ==> message == "You don't have that item."
      ensures !ok ==> inventory == old(inventory) && currentWeight == old(currentWeight)
      ensures !ok ==> currentRoom.items == old(currentRoom.items)
      ensures ok ==> var k := FindItem(old(inventory), itemName).value;
        var it := old(inventory)[k];
        && inventory == RemoveAt(old(inventory), k)
        && currentWeight == old(currentWeight) - it.weight
        && currentRoom.items == old(currentRoom.items) + [it]
        && message == "You drop the " + it.name + "."
    {
      var lowerName := ToLower(itemName);
      var i := 0;
      while i < |inventory|
        invariant 0 <= i <= |inventory|
        invariant forall j :: 0 <= j < i ==> !NameMatches(inventory[j], itemName)
      {
        if ToLower(inventory[i].name) == lowerName {
          FirstMatchIsUnique(inventory, itemName, i);
          TotalWeightRemove(inventory, i);
          var item := inventory[i];
          inventory := RemoveAt(inventory, i);
          currentWeight := currentWeight - item.weight;
          currentRoom.AddItem(item);
          return true, "You drop the " + item.name + ".";
        }
        i := i + 1;
      }
      return false, "You don't have that item.";
    }

    method HasItem(itemName: string) returns (found: bool)
      ensures found <==> exists i :: 0 <= i < |inventory| && NameMatches(inventory[i], itemName)
    {
      var lowerName := ToLower(itemName);
      var i := 0;
      while i < |inventory|
        invariant 0 <= i <= |inventory|
        invariant forall j :: 0 <= j < i ==> !NameMatches(inventory[j], itemName)
      {
        if ToLower(inventory[i].name) == lowerName {
          return true;
        }
        i := i + 1;
      }
      return false;
    }

    method GetInventoryItem(itemName: string) returns (item: Option<Item>)
      ensures item == FirstMatch(inventory, itemName)
    {
      var lowerName := ToLower(itemName);
      var i := 0;
      while i < |inventory|
        invariant 0 <= i <= |inventory|
        invariant forall j :: 0 <= j < i ==> !NameMatches(inventory[j], itemName)
      {
        if ToLower(inventory[i].name) == lowerName {
          FirstMatchIsUnique(inventory, itemName, i);
          return Some(inventory[i]);
        }
        i := i + 1;
      }
      return None;
    }

    /** The damage of one blow; the random critical hit is a parameter. */
    function Attack(critical: bool): (damage: int)
      ensures !critical ==> damage == attackPower
      ensures critical ==> damage == CriticalHitMultiplier * attackPower
      ensures damage >= attackPower > 0
    {
      if critical then attackPower * CriticalHitMultiplier else attackPower
    }

    /** Armor absorbs up to `defense` points of a blow, and health never
        drops below zero. */
    method TakeDamage(damage: int)
      modifies this`health
      ensures var dealt := if damage - defense < 0 then 0 else damage - defense;
        health == if old(health) - dealt < 0 then 0 else old(health) - dealt
      ensures old(health) >= 0 ==> 0 <= health <= old(health)
      ensures damage <= defense ==> health == if old(health) < 0 then 0 else old(health)
    {
      var actualDamage := damage - defense;
      if actualDamage < 0 {
        actualDamage := 0;
      }
      health := health - actualDamage;
      if health < 0 {
        health := 0;
      }
    }

    /** Alive while health is positive: negative health, which setHealth
        may leave, is dead; with health kept in [0, maxHealth], death is
        health exactly zero. */
    predicate IsAlive(): (b: bool)
      reads this
      ensures !b ==> health <= 0
      ensures HealthInRange() ==> (b <==> health != 0)
      ensures health < 0 ==> !b
    {
      health > 0
    }

    /** The listing of the inventory: one line per item with its weight,
        then the total against the carry limit. */
    method GetInventoryList() returns (s: string)
      ensures s == InventoryListing(inventory, currentWeight, maxCarryWeight)
    {
      if inventory == [] {
        return EmptyHanded;
      }
      s := Carrying;
      var i := 0;
      while i < |inventory|
        invariant 0 <= i <= |inventory|
        invariant s == Carrying + ItemLines(inventory[..i])
      {
        ItemLinesStep(inventory, i);
        AppendAssociative(Carrying, ItemLines(inventory[..i]), ItemLine(inventory[i]));
        s := s + ItemLine(inventory[i]);
        i := i + 1;
      }
      assert inventory[..|inventory|] == inventory;
      s := s + TotalLine(currentWeight, maxCarryWeight);
    }
  }
}

/** The world Game::setupWorld builds (src/Game.cpp): the seven rooms'
    ids, names and narratives, the five items placed in them, and the
    layout the rooms have once built, stated over the seven room objects. */
module World {
  import opened Items
  import opened Rooms

  // The ids the rooms are registered under.
  const WestOfHouseId := "west_of_house"
  const ForestId := "forest"
  const BehindHouseId := "behind_house"
  const KitchenId := "kitchen"
  const LivingRoomId := "living_room"
  const AtticId := "attic"
  const CellarId := "cellar"

  // The names the rooms are shown under.
  const WestOfHouseName := "West of House"
  const ForestName := "Forest"
  const BehindHouseName := "Behind House"
  const KitchenName := "Kitchen"
  const LivingRoomName := "Living Room"
  const AtticName := "Attic"
  const CellarName := "Cellar"

  const WorldIds: set<string> :=
    {WestOfHouseId, ForestId, BehindHouseId, KitchenId, LivingRoomId, AtticId, CellarId}

  const Mailbox := NewItem("mailbox", "A small mailbox. It can be opened.", 50, false)
  const Leaflet := NewItem("leaflet", "A small leaflet that reads: 'Welcome to Zork!'", 1)
  const Lamp := NewItem("lamp", "A brass lantern that might provide light.", 3)
  const Rope := NewItem("rope", "A sturdy coil of rope.", 5)
  const Sword :=
    SetValue(SetDamage(NewItem("sword", "An elvish sword of great antiquity.", 8, true, Weapon), 15), 100)

  // The narrative of each room.
  const WestOfHouseText :=
    "You are standing in an open field west of a white house, with a boarded front door. There is a small mailbox here."

  const ForestText :=
    "This is a forest, with trees in all directions. To the east, there appears to be sunlight."

  const BehindHouseText :=
    "You are behind the white house. A path leads into the forest to the east. In one corner of the house there is a small window which is slightly ajar."

  const KitchenText :=
    "You are in the kitchen of the white house. A table seems to have been used recently for the preparation of food. A passage leads to the west and a dark staircase can be seen leading upward."

  const LivingRoomText :=
    "You are in the living room. There is a doorway to the east, a wooden door with strange gothic lettering to the west, which appears to be nailed shut, and a large oriental rug in the center of the room."

  const AtticText :=
    "This is the attic. The only exit is a stairway leading down. A large coil of rope is lying in the corner."

  const CellarText :=
    "You are in a dark and damp cellar with a narrow passageway leading north, and a crawlway to the south. On the west is the bottom of a steep metal ramp which is unclimbable."

  /** The seven rooms of the world, named w, f, b, k, l, a and c in the
      order the world is built, are registered under their own ids. */
  predicate Registry(rooms: map<string, Room>, w: Room, f: Room, b: Room, k: Room, l: Room, a: Room, c: Room)
  {
    && WestOfHouseId in rooms && rooms[WestOfHouseId] == w && w.id == WestOfHouseId
    && ForestId in rooms && rooms[ForestId] == f && f.id == ForestId
    && BehindHouseId in rooms && rooms[BehindHouseId] == b && b.id == BehindHouseId
    && KitchenId in rooms && rooms[KitchenId] == k && k.id == KitchenId
    && LivingRoomId in rooms && rooms[LivingRoomId] == l && l.id == LivingRoomId
    && AtticId in rooms && rooms[AtticId] == a && a.id == AtticId
    && CellarId in rooms && rooms[CellarId] == c && c.id == CellarId
  }

  /** The seven rooms of a registry are seven different rooms, since their
      ids differ. */
  lemma RegistryDistinct(rooms: map<string, Room>, w: Room, f: Room, b: Room, k: Room, l: Room, a: Room, c: Room)
    requires Registry(rooms, w, f, b, k, l, a, c)
    ensures w != f && w != b && w != k && w != l && w != a && w != c
    ensures f != b && f != k && f != l && f != a && f != c
    ensures b != k && b != l && b != a && b != c
    ensures k != l && k != a && k != c
    ensures l != a && l != c && a != c
  {
  }

  /** Registering the seven rooms under their own ids makes them the
      world's rooms. */
  lemma Registered(m0: map<string, Room>, w: Room, f: Room, b: Room, k: Room, l: Room, a: Room, c: Room)
    requires w.id == WestOfHouseId && f.id == ForestId && b.id == BehindHouseId && k.id == KitchenId
    requires l.id == LivingRoomId && a.id == AtticId && c.id == CellarId
    ensures var m := m0[WestOfHouseId := w][ForestId := f][BehindHouseId := b][KitchenId := k]
                       [LivingRoomId := l][AtticId := a][CellarId := c];
      Registry(m, w, f, b, k, l, a, c)
  {
  }

  /** The registry then holds the old ids and the world's. */
  lemma RegisteredIds(m0: map<string, Room>, w: Room, f: Room, b: Room, k: Room, l: Room, a: Room, c: Room)
    ensures var m := m0[WestOfHouseId := w][ForestId := f][BehindHouseId := b][KitchenId := k]
                       [LivingRoomId := l][AtticId := a][CellarId := c];
      m.Keys == m0.Keys + WorldIds
  {
  }

  /** A registry holding just the seven rooms keys each by its own id and
      holds no other room. */
  lemma RegistryExact(m: map<string, Room>, w: Room, f: Room, b: Room, k: Room, l: Room, a: Room, c: Room)
    requires Registry(m, w, f, b, k, l, a, c) && m.Keys == WorldIds
    ensures forall id :: id in m ==> m[id].id == id
    ensures m.Values == {w, f, b, k, l, a, c}
  {
    forall r | r in m.Values
      ensures r in {w, f, b, k, l, a, c}
    {
      var id :| id in m && m[id] == r;
      assert id in WorldIds;
    }
    assert m[WestOfHouseId] == w && m[ForestId] == f && m[BehindHouseId] == b;
    assert m[KitchenId] == k && m[LivingRoomId] == l && m[AtticId] == a && m[CellarId] == c;
  }

  /** The flags of the seven rooms as createRooms leaves them: all
      unvisited and unlocked, and all lit but the cellar. */
  predicate Lighting(w: Room, f: Room, b: Room, k: Room, l: Room, a: Room, c: Room)
    reads w`lit, f`lit, b`lit, k`lit, l`lit, a`lit, c`lit
    reads w`visited, f`visited, b`visited, k`visited, l`visited, a`visited, c`visited
    reads w`locked, f`locked, b`locked, k`locked, l`locked, a`locked, c`locked
  {
    && w.lit && f.lit && b.lit && k.lit && l.lit && a.lit && !c.lit
    && !w.visited && !f.visited && !b.visited && !k.visited && !l.visited && !a.visited && !c.visited
    && !w.locked && !f.locked && !b.locked && !k.locked && !l.locked && !a.locked && !c.locked
  }

  /** The items of the seven rooms as createItems leaves them. */
  predicate Stocked(w: Room, f: Room, b: Room, k: Room, l: Room, a: Room, c: Room)
    reads w`items, f`items, b`items, k`items, l`items, a`items, c`items
  {
    && w.items == [Mailbox, Leaflet] && k.items == [Lamp] && a.items == [Rope] && l.items == [Sword]
    && f.items == [] && b.items == [] && c.items == []
  }

  /** No room holds an item yet. */
  predicate Unstocked(w: Room, f: Room, b: Room, k: Room, l: Room, a: Room, c: Room)
    reads w`items, f`items, b`items, k`items, l`items, a`items, c`items
  {
    && w.items == [] && f.items == [] && b.items == [] && k.items == []
    && l.items == [] && a.items == [] && c.items == []
  }

  /** No room has an exit yet. */
  predicate Unconnected(w: Room, f: Room, b: Room, k: Room, l: Room, a: Room, c: Room)
    reads w`exits, f`exits, b`exits, k`exits, l`exits, a`exits, c`exits
  {
    && w.exits == map[] && f.exits == map[] && b.exits == map[] && k.exits == map[]
    && l.exits == map[] && a.exits == map[] && c.exits == map[]
  }

  /** The exits of the seven rooms as connectRooms lays them. */
  predicate Connected(w: Room, f: Room, b: Room, k: Room, l: Room, a: Room, c: Room)
    reads w`exits, f`exits, b`exits, k`exits, l`exits, a`exits, c`exits
  {
    && w.exits == map[]["north" := f]["south" := b]
    && f.exits == map[]["south" := w]["east" := w]["west" := f]["north" := f]
    && b.exits == map[]["north" := w]["east" := k]
    && k.exits == map[]["west" := b]["east" := l]["up" := a]["down" := c]
    && l.exits == map[]["west" := k] && a.exits == map[]["down" := k] && c.exits == map[]["up" := k]
  }

  /** The seven rooms as the steps of setupWorld leave them: lit and
      unlocked as createRooms makes them, stocked once createItems has run,
      connected once connectRooms has run. */
  predicate Layout(w: Room, f: Room, b: Room, k: Room, l: Room, a: Room, c: Room, stocked: bool, connected: bool)
    reads {w, f, b, k, l, a, c}`lit, {w, f, b, k, l, a, c}`visited, {w, f, b, k, l, a, c}`locked
    reads {w, f, b, k, l, a, c}`items, {w, f, b, k, l, a, c}`exits
  {
    && Lighting(w, f, b, k, l, a, c)
    && (if stocked then Stocked(w, f, b, k, l, a, c) else Unstocked(w, f, b, k, l, a, c))
    && (if connected then Connected(w, f, b, k, l, a, c) else Unconnected(w, f, b, k, l, a, c))
  }

  /** The seven rooms registered and in the state setupWorld leaves them. */
  predicate Built(rooms: map<string, Room>, w: Room, f: Room, b: Room, k: Room, l: Room, a: Room, c: Room)
    reads {w, f, b, k, l, a, c}`lit, {w, f, b, k, l, a, c}`visited, {w, f, b, k, l, a, c}`locked
    reads {w, f, b, k, l, a, c}`items, {w, f, b, k, l, a, c}`exits
  {
    Registry(rooms, w, f, b, k, l, a, c) && Layout(w, f, b, k, l, a, c, true, true)
  }

  /** The seven rooms, with the exits laid by ConnectRooms, form a closed
      map: every exit leads to one of them. */
  lemma FixtureClosed(world: set<Room>, w: Room, f: Room, b: Room, k: Room, l: Room, a: Room, c: Room)
    requires world == {w, f, b, k, l, a, c}
    requires Connected(w, f, b, k, l, a, c)
    ensures forall r, d :: r in world && d in r.exits ==> r.exits[d] in world
  {
    forall r, d | r in world && d in r.exits
      ensures r.exits[d] in world
    {
      assert r.exits[d] in r.exits.Values;
    }
  }
}

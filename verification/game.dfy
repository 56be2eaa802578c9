/** The game session (src/Game.cpp, include/Game.h) and the command parser
    bound to it (src/Command.cpp). The parser keeps a pointer to its game
    and its handlers change the game's state through it, so both are
    classes in one module. */
module Session {
  import opened Wrappers
  import opened Utils
  import opened Constants
  import opened Items
  import opened Rooms
  import opened Players
  import opened Enemies
  import opened Commands
  import opened World

  // The parser's fixed answers.
  const NoExit := "You can't go that way."
  const TakeWhat := "Take what?"
  const DropWhat := "Drop what?"
  const ExamineWhat := "Examine what?"
  const UseWhat := "Use what?"
  const UseUnsure := "You're not sure how to use that right now."
  const NothingToAttack := "There's nothing here to attack."
  const NotSeen := "You don't see that here."
  const SaveUnavailable := "Save functionality is not yet implemented."
  const LoadUnavailable := "Load functionality is not yet implemented."
  const Farewell := "Thanks for playing!"

  /** handleExamine on the inventory, the current room's items and the
      command: the inventory is searched before the room. */
  function ExamineOutcome(inventory: seq<Item>, roomItems: seq<Item>, cmd: Command): (r: CommandResult)
    ensures r.continueGame
    ensures r.success <==> (cmd.HasArgs() &&
      (FindItem(inventory, cmd.ArgsAsString()).Some? || FindItem(roomItems, cmd.ArgsAsString()).Some?))
  {
    if !cmd.HasArgs() then CommandResult(false, ExamineWhat, true)
    else
      var target := cmd.ArgsAsString();
      match FirstMatch(inventory, target)
      case Some(it) => CommandResult(true, it.description, true)
      case None =>
        match FirstMatch(roomItems, target)
        case Some(it) => CommandResult(true, it.description, true)
        case None => CommandResult(false, NotSeen, true)
  }

  /** What the player carries hides a room item of the same name. */
  lemma ExamineCarriedFirst(inventory: seq<Item>, roomItems: seq<Item>, cmd: Command, i: nat)
    requires cmd.HasArgs() && i < |inventory| && NameMatches(inventory[i], cmd.ArgsAsString())
    ensures ExamineOutcome(inventory, roomItems, cmd).success
    ensures ExamineOutcome(inventory, roomItems, cmd).message
      == inventory[FindItem(inventory, cmd.ArgsAsString()).value].description
    ensures FindItem(inventory, cmd.ArgsAsString()).value <= i
  {
  }

  /** The handlers that may change the game: moving, looking, taking and
      dropping. The others only report. */
  predicate Mutates(a: Action) {
    a.Move? || a == Look || a == Take || a == Drop
  }

  /** The answer of a handler that only reports, given what the player
      carries, the weight carried and its limit, and the items of the room
      the player stands in. Only quit stops the game. */
  function Report(action: Action, cmd: Command, inventory: seq<Item>, weight: int, limit: int,
                  roomItems: seq<Item>): (r: CommandResult)
    requires !Mutates(action)
    ensures r.continueGame <==> action != Quit
    ensures r.success <==> (action in {NoOp, ShowInventory, ShowScore, Help, Quit}
      || (action == Examine && ExamineOutcome(inventory, roomItems, cmd).success))
  {
    match action
    case NoOp => CommandResult(true, "", true)
    case Examine => ExamineOutcome(inventory, roomItems, cmd)
    case ShowInventory => CommandResult(true, InventoryListing(inventory, weight, limit), true)
    case Use =>
      if cmd.HasArgs() then CommandResult(false, UseUnsure, true)
      else CommandResult(false, UseWhat, true)
    case Attack => CommandResult(false, NothingToAttack, true)
    case ShowScore => CommandResult(true, "", true)
    case Save => CommandResult(false, SaveUnavailable, true)
    case Load => CommandResult(false, LoadUnavailable, true)
    case Help => CommandResult(true, "", true)
    case Quit => CommandResult(true, Farewell, false)
    case Unknown => CommandResult(false, UnknownCommand, true)
  }

  /** What the handler CommandParser::parse picks for action does to the
      game g, its player p and the room p stood in before, room: the
      score, the move count, where the player stands, what the player
      carries and what lies in that room, and the answer it gives. */
  twostate predicate Outcome(g: Game, p: Player, room: Room, cmd: Command, action: Action,
                             result: CommandResult)
    reads g`score, g`moves, p`currentRoom, p`inventory, room`items, room`exits, room.exits.Values`visited
  {
    match action
    case Move(direction) => Moved(g, p, room, ParseCommand(direction), result)
    case Look => Looked(g, p, room, cmd, result)
    case Take => Took(g, p, room, cmd, result)
    case Drop => Dropped(g, p, room, cmd, result)
    case _ =>
      && result == old(Report(action, cmd, p.inventory, p.currentWeight, p.maxCarryWeight, room.items))
      && g.score == old(g.score) && g.moves == old(g.moves) && p.currentRoom == room
      && p.inventory == old(p.inventory) && room.items == old(room.items)
  }

  /** handleMove: the player goes through the exit the verb names when
      there is one and it is not locked, counting one move; the room
      entered, and no other neighbour, becomes visited. */
  twostate predicate Moved(g: Game, p: Player, room: Room, cmd: Command, result: CommandResult)
    reads g`score, g`moves, p`currentRoom, p`inventory, room`items, room`exits, room.exits.Values`visited
  {
    var next := old(room.GetExit(NormalizeVerb(cmd.verb)));
    && result.continueGame
    && (result.success <==> old(next != null && !next.locked))
    && (result.success ==> p.currentRoom == next && g.moves == old(g.moves) + 1 && result.message == "")
    && (!result.success ==> p.currentRoom == room && g.moves == old(g.moves))
    && (!result.success ==> result.message == NoExit)
    && g.score == old(g.score) && p.inventory == old(p.inventory) && room.items == old(room.items)
    && room.exits == old(room.exits)
    && (forall r :: r in room.exits.Values ==>
          r.visited == (old(r.visited) || (result.success && r == p.currentRoom)))
  }

  /** handleLook: with arguments it examines; without, it shows the room,
      which earns the discovery points when the room is not yet visited. */
  twostate predicate Looked(g: Game, p: Player, room: Room, cmd: Command, result: CommandResult)
    reads g`score, g`moves, p`currentRoom, p`inventory, room`items
  {
    && (cmd.HasArgs() ==>
          result == old(ExamineOutcome(p.inventory, room.items, cmd)) && g.score == old(g.score))
    && (!cmd.HasArgs() ==> result == CommandResult(true, "", true))
    && (!cmd.HasArgs() ==>
          g.score == old(g.score) + (if old(room.visited) then 0 else ScoreRoomDiscovered))
    && g.moves == old(g.moves) && p.currentRoom == room
    && p.inventory == old(p.inventory) && room.items == old(room.items)
  }

  /** handleTake: the first room item the arguments name moves to the
      inventory, for five points, unless the player refuses it; a refused
      item stays in the room. */
  twostate predicate Took(g: Game, p: Player, room: Room, cmd: Command, result: CommandResult)
    reads g`score, g`moves, p`currentRoom, p`inventory, room`items
  {
    var k := FindItem(old(room.items), cmd.ArgsAsString());
    var item := FirstMatch(old(room.items), cmd.ArgsAsString());
    && result.continueGame && g.moves == old(g.moves) && p.currentRoom == room
    && (!cmd.HasArgs() ==> result == CommandResult(false, TakeWhat, true))
    && (result.success <==>
          cmd.HasArgs() && old(p.TakeRefusal(FirstMatch(room.items, cmd.ArgsAsString()))).None?)
    && (result.success ==>
          && k.Some?
          && p.inventory == old(p.inventory) + [old(room.items)[k.value]]
          && room.items == RemoveAt(old(room.items), k.value)
          && g.score == old(g.score) + ScoreItemPickup
          && result.message == "You take the " + item.value.name + ".")
    && (!result.success ==> p.inventory == old(p.inventory) && g.score == old(g.score))
    && (!result.success && cmd.HasArgs() ==> result.message == old(p.TakeRefusal(item)).value)
    && (!cmd.HasArgs() ==> room.items == old(room.items))
    && (!result.success && cmd.HasArgs() && k.None? ==> room.items == old(room.items))
    && (!result.success && cmd.HasArgs() && k.Some? ==>
          room.items == RemoveAt(old(room.items), k.value) + [item.value])
  }

  /** handleDrop: the first carried item the arguments name moves to the
      end of the room's items. */
  twostate predicate Dropped(g: Game, p: Player, room: Room, cmd: Command, result: CommandResult)
    reads g`score, g`moves, p`currentRoom, p`inventory, room`items
  {
    var k := FindItem(old(p.inventory), cmd.ArgsAsString());
    && result.continueGame && g.moves == old(g.moves) && g.score == old(g.score)
    && p.currentRoom == room
    && (!cmd.HasArgs() ==> result == CommandResult(false, DropWhat, true))
    && (result.success <==> cmd.HasArgs() && k.Some?)
    && (result.success ==>
          && k.Some?
          && p.inventory == RemoveAt(old(p.inventory), k.value)
          && room.items == old(room.items) + [old(p.inventory)[k.value]]
          && result.message == "You drop the " + old(p.inventory)[k.value].name + ".")
    && (cmd.HasArgs() && k.None? ==> result.message == "You don't have that item.")
    && (!result.success ==> p.inventory == old(p.inventory) && room.items == old(room.items))
  }

  /** What every command keeps, given the player p, the room p stood in
      and that room's neighbours: the items between the player and that
      room are the same, and a visited neighbour stays visited. */
  twostate predicate Kept(p: Player, room: Room, neighbours: set<Room>)
    reads p`inventory, room`items, neighbours`visited
  {
    && multiset(p.inventory) + multiset(room.items) == old(multiset(p.inventory) + multiset(room.items))
    && (forall r :: r in neighbours && old(r.visited) ==> r.visited)
  }

  /** A world stays closed while the player stays in the same room, no
      room is added and no exit is laid. */
  twostate lemma ClosedKept(g: Game)
    requires old(g.WorldClosed())
    requires g.player == old(g.player) && g.rooms == old(g.rooms)
    requires g.player.currentRoom == old(g.player.currentRoom)
    requires forall r :: r in g.rooms.Values ==> r.exits == old(r.exits)
    ensures g.WorldClosed()
  {
  }

  // ------------------------------------------------------------------ Game

  class Game {
    var player: Player?
    var rooms: map<string, Room>
    var parser: CommandParser?
    var running: bool
    var score: int
    var moves: int
    var currentEnemy: Enemy?
    var inCombat: bool

    /** The parser is bound to this game. */
    predicate Wired()
      reads this`parser
    {
      parser != null && parser.game == this
    }

    /** The session invariant once the world is set up: there is a player
        whose carrying invariant holds, and each room is registered under
        its own id. */
    predicate Valid()
      reads this`parser, this`player, this`rooms, player
    {
      && Wired()
      && player != null
      && player.Valid()
      && forall id :: id in rooms ==> rooms[id].id == id
    }

    /** The player stands in a registered room and every exit of a
        registered room leads to a registered room. */
    predicate WorldClosed()
      reads this`player, this`rooms, (if player == null then {} else {player})`currentRoom
      reads rooms.Values`exits
    {
      && player != null
      && player.currentRoom in rooms.Values
      && ExitsClosed()
    }

    /** Every exit of a registered room leads to a registered room. */
    predicate ExitsClosed()
      reads this`rooms, rooms.Values`exits
    {
      forall r, d :: r in rooms.Values && d in r.exits ==> r.exits[d] in rooms.Values
    }

    /** The world as setupWorld leaves it: the seven rooms unvisited and
        unlocked, the cellar dark and the others lit, the five items where
        createItems puts them, and exactly the exits connectRooms lays, the
        forest's north and west exits leading back into the forest. */
    ghost predicate AsBuilt()
      reads this`rooms, rooms.Values`lit, rooms.Values`items, rooms.Values`exits
      reads rooms.Values`visited, rooms.Values`locked
    {
      exists w, f, b, k, l, a, c |
          && w in rooms.Values && f in rooms.Values && b in rooms.Values && k in rooms.Values
          && l in rooms.Values && a in rooms.Values && c in rooms.Values ::
        Built(rooms, w, f, b, k, l, a, c)
    }

    /** A game that has not started: no rooms, no player, zero counters. */
    constructor ()
      ensures Wired() && !running && score == 0 && moves == 0 && !inCombat
      ensures rooms == map[] && player == null && currentEnemy == null
    {
      running := false;
      score := 0;
      moves := 0;
      inCombat := false;
      rooms := map[];
      player := null;
      currentEnemy := null;
      new;
      parser := new CommandParser(this);
    }

    method AddScore(points: int)
      modifies this`score
      ensures score == old(score) + points
    {
      score := score + points;
    }

    method IncrementMoves()
      modifies this`moves
      ensures moves == old(moves) + 1
    {
      moves := moves + 1;
    }

    /** The room registered under an id, null exactly when there is none. */
    function GetRoom(roomId: string): (r: Room?)
      reads this
      ensures r != null <==> roomId in rooms
      ensures r != null ==> r == rooms[roomId]
      ensures (forall id :: id in rooms ==> rooms[id].id == id) && r != null ==> r.id == roomId
    {
      if roomId in rooms then rooms[roomId] else null
    }

    /** Registers a room under its own id, replacing any room registered
        there before; the session invariant is kept. */
    method AddRoom(room: Room)
      modifies this`rooms
      ensures rooms == old(rooms)[room.id := room]
      ensures old(Valid()) ==> Valid()
    {
      rooms := rooms[room.id := room];
    }

    /** Shows the current room. Its only effect on the state: discovery
        points when the room has not been visited, without marking it. */
    method DisplayRoom()
      requires player != null
      modifies this`score
      ensures !player.currentRoom.visited ==> score == old(score) + ScoreRoomDiscovered
      ensures player.currentRoom.visited ==> score == old(score)
    {
      var room := player.currentRoom;
      if !room.visited {
        AddScore(ScoreRoomDiscovered);
      }
    }

    /** Runs one line of input; the game stops exactly when the command
        says so, and nothing sets it running again. */
    method ProcessCommand(input: string) returns (result: CommandResult)
      requires Valid()
      modifies this`running, this`score, this`moves
      modifies player`currentRoom, player`inventory, player`currentWeight
      modifies player.currentRoom`items, player.currentRoom.exits.Values`visited
      ensures Valid()
      ensures Outcome(this, old(player), old(player.currentRoom),
        ParseCommand(input), Route(ParseCommand(input)), result)
      ensures Kept(old(player), old(player.currentRoom), old(player.currentRoom.exits.Values))
      ensures old(WorldClosed()) ==> WorldClosed()
      ensures result.continueGame <==> Route(ParseCommand(input)) != Quit
      ensures running == (old(running) && result.continueGame)
      ensures score >= old(score) && moves >= old(moves)
    {
      assert parser.game == this;
      result := parser.Parse(input);
      if !result.continueGame {
        running := false;
      }
    }

    method GameOver(victory: bool)
      modifies this`running
      ensures !running
    {
      running := false;
    }

    method StartCombat(enemy: Enemy)
      modifies this`currentEnemy, this`inCombat
      ensures currentEnemy == enemy && inCombat
    {
      currentEnemy := enemy;
      inCombat := true;
    }

    /** Leaves combat; defeating the enemy is worth points. */
    method EndCombat(playerVictory: bool)
      modifies this`inCombat, this`currentEnemy, this`score
      ensures !inCombat && currentEnemy == null
      ensures score == old(score) + (if playerVictory then ScoreEnemyDefeated else 0)
    {
      inCombat := false;
      if playerVictory {
        AddScore(ScoreEnemyDefeated);
      }
      currentEnemy := null;
    }

    /** Not implemented: always fails, and changes nothing. */
    method SaveGame(filename: string) returns (ok: bool)
      ensures !ok
    {
      return false;
    }

    /** Not implemented: always fails, and changes nothing. */
    method LoadGame(filename: string) returns (ok: bool)
      ensures !ok
    {
      return false;
    }

    // ---------------------------------------------------------- the world

    /** Registers the seven rooms, all pristine, the cellar dark. */
    method CreateRooms() returns (ghost westOfHouse: Room, ghost forest: Room, ghost behindHouse: Room,
                                  ghost kitchen: Room, ghost livingRoom: Room, ghost attic: Room, ghost cellar: Room)
      modifies this`rooms
      ensures rooms == old(rooms)[WestOfHouseId := westOfHouse][ForestId := forest]
        [BehindHouseId := behindHouse][KitchenId := kitchen][LivingRoomId := livingRoom]
        [AtticId := attic][CellarId := cellar]
      ensures fresh(westOfHouse) && fresh(forest) && fresh(behindHouse) && fresh(kitchen)
      ensures fresh(livingRoom) && fresh(attic) && fresh(cellar)
      ensures westOfHouse.name == WestOfHouseName && forest.name == ForestName
      ensures behindHouse.name == BehindHouseName && kitchen.name == KitchenName
      ensures livingRoom.name == LivingRoomName && attic.name == AtticName && cellar.name == CellarName
      ensures Layout(westOfHouse, forest, behindHouse, kitchen, livingRoom, attic, cellar, false, false)
      ensures Registry(rooms, westOfHouse, forest, behindHouse, kitchen, livingRoom, attic, cellar)
      ensures rooms.Keys == old(rooms).Keys + WorldIds
    {
      ghost var m0 := rooms;
      var w := new Room(WestOfHouseId, WestOfHouseName, WestOfHouseText);
      var f := new Room(ForestId, ForestName, ForestText);
      var b := new Room(BehindHouseId, BehindHouseName, BehindHouseText);
      var k := new Room(KitchenId, KitchenName, KitchenText);
      var l := new Room(LivingRoomId, LivingRoomName, LivingRoomText);
      var a := new Room(AtticId, AtticName, AtticText);
      var c := new Room(CellarId, CellarName, CellarText);
      c.SetLit(false);
      rooms := rooms[WestOfHouseId := w][ForestId := f][BehindHouseId := b][KitchenId := k]
        [LivingRoomId := l][AtticId := a][CellarId := c];
      westOfHouse, forest, behindHouse, kitchen, livingRoom, attic, cellar := w, f, b, k, l, a, c;
      ghost var pristine := Layout(w, f, b, k, l, a, c, false, false);
      assert pristine;
      Registered(m0, w, f, b, k, l, a, c);
      RegisteredIds(m0, w, f, b, k, l, a, c);
    }

    /** Puts the five items in their rooms. The ghost parameters name the
        registered rooms for the contract; fresh rooms end up stocked, their
        flags and exits as they were. */
    method CreateItems(ghost w: Room, ghost f: Room, ghost b: Room, ghost k: Room,
                       ghost l: Room, ghost a: Room, ghost c: Room)
      requires Registry(rooms, w, f, b, k, l, a, c)
      modifies w, k, a, l
      ensures w.items == old(w.items) + [Mailbox, Leaflet]
      ensures k.items == old(k.items) + [Lamp]
      ensures a.items == old(a.items) + [Rope]
      ensures l.items == old(l.items) + [Sword]
      ensures old(Layout(w, f, b, k, l, a, c, false, false)) ==> Layout(w, f, b, k, l, a, c, true, false)
    {
      rooms[WestOfHouseId].AddItem(Mailbox);
      rooms[WestOfHouseId].AddItem(Leaflet);
      rooms[KitchenId].AddItem(Lamp);
      rooms[AtticId].AddItem(Rope);
      rooms[LivingRoomId].AddItem(Sword);
    }

    /** Lays the map: fifteen exits among the seven rooms. The forest's
        north and west exits lead back into the forest. Stocked rooms
        without exits end up connected, their flags and items as they
        were. */
    method ConnectRooms(ghost w: Room, ghost f: Room, ghost b: Room, ghost k: Room,
                        ghost l: Room, ghost a: Room, ghost c: Room)
      requires Registry(rooms, w, f, b, k, l, a, c)
      modifies w, f, b, k, l, a, c
      ensures w.exits == old(w.exits)["north" := f]["south" := b]
      ensures f.exits == old(f.exits)["south" := w]["east" := w]["west" := f]["north" := f]
      ensures b.exits == old(b.exits)["north" := w]["east" := k]
      ensures k.exits == old(k.exits)["west" := b]["east" := l]["up" := a]["down" := c]
      ensures l.exits == old(l.exits)["west" := k]
      ensures a.exits == old(a.exits)["down" := k]
      ensures c.exits == old(c.exits)["up" := k]
      ensures old(Layout(w, f, b, k, l, a, c, true, false)) ==> Layout(w, f, b, k, l, a, c, true, true)
    {
      var west, forest, behind, kitchen := rooms[WestOfHouseId], rooms[ForestId], rooms[BehindHouseId], rooms[KitchenId];
      var living, attic, cellar := rooms[LivingRoomId], rooms[AtticId], rooms[CellarId];
      RegistryDistinct(rooms, w, f, b, k, l, a, c);
      LowerFixed("north");
      LowerFixed("south");
      LowerFixed("east");
      LowerFixed("west");
      LowerFixed("up");
      LowerFixed("down");
      west.AddExit("north", forest);
      west.AddExit("south", behind);
      forest.AddExit("south", west);
      forest.AddExit("east", west);
      forest.AddExit("west", forest);
      forest.AddExit("north", forest);
      behind.AddExit("north", west);
      behind.AddExit("east", kitchen);
      kitchen.AddExit("west", behind);
      kitchen.AddExit("east", living);
      kitchen.AddExit("up", attic);
      kitchen.AddExit("down", cellar);
      living.AddExit("west", kitchen);
      attic.AddExit("down", kitchen);
      cellar.AddExit("up", kitchen);
    }

    /** Builds the world: the seven rooms, their items and exits as AsBuilt
        lists them, and a player standing west of the house with nothing
        carried. */
    method SetupWorld()
      requires rooms == map[]
      modifies this`rooms, this`player
      ensures rooms.Keys == WorldIds && forall id :: id in rooms ==> rooms[id].id == id
      ensures player != null && fresh(player) && player.name == "Adventurer"
      ensures player.currentRoom == rooms[WestOfHouseId] && !player.currentRoom.visited
      ensures player.inventory == [] && player.health == InitialPlayerHealth && player.Valid()
      ensures WorldClosed() && AsBuilt()
      ensures forall id :: id in rooms ==> fresh(rooms[id])
    {
      BuildWorld();
      player := new Player("Adventurer", rooms[WestOfHouseId]);
    }

    /** The first three steps of SetupWorld: rooms, items and exits. From
        an empty registry they leave the seven rooms keyed by their ids,
        laid out as AsBuilt lists, every exit leading to a registered
        room. */
    method BuildWorld()
      requires rooms == map[]
      modifies this`rooms
      ensures rooms.Keys == WorldIds && forall id :: id in rooms ==> rooms[id].id == id
      ensures !rooms[WestOfHouseId].visited && ExitsClosed() && AsBuilt()
      ensures forall id :: id in rooms ==> fresh(rooms[id])
    {
      ghost var w: Room, f: Room, b: Room, k: Room, l: Room, a: Room, c: Room := CreateRooms();
      assert old(rooms).Keys == {};
      RegistryExact(rooms, w, f, b, k, l, a, c);
      assert forall id :: id in rooms ==> fresh(rooms[id]);
      CreateItems(w, f, b, k, l, a, c);
      ConnectRooms(w, f, b, k, l, a, c);
      FixtureClosed(rooms.Values, w, f, b, k, l, a, c);
      ghost var built := Built(rooms, w, f, b, k, l, a, c);
      assert built;
      assert w in rooms.Values && f in rooms.Values && b in rooms.Values && k in rooms.Values;
      assert l in rooms.Values && a in rooms.Values && c in rooms.Values;
    }

    /** Starts a game: builds the world, lets it run, and shows the first
        room, which earns the discovery points. */
    method Start()
      requires Wired() && rooms == map[]
      modifies this`rooms, this`player, this`running, this`score
      ensures rooms.Keys == WorldIds && Valid() && WorldClosed() && AsBuilt() && running
      ensures player.currentRoom == rooms[WestOfHouseId] && player.inventory == []
      ensures score == old(score) + ScoreRoomDiscovered
      ensures fresh(player) && forall id :: id in rooms ==> fresh(rooms[id])
    {
      SetupWorld();
      running := true;
      DisplayRoom();
    }
  }

  // --------------------------------------------------------- CommandParser

  class CommandParser {
    const game: Game

    constructor (game: Game)
      ensures this.game == game
    {
      this.game := game;
    }

    /** Moves the player in the direction the command's verb names. A move
        that succeeds counts one move; entering a room marks it visited
        before the room is shown, so moving never earns discovery points. */
    method HandleMove(cmd: Command) returns (result: CommandResult)
      requires game.Valid()
      modifies game`moves, game`score, game.player`currentRoom
      modifies game.player.currentRoom.exits.Values`visited
      ensures game.Valid()
      ensures Moved(game, old(game.player), old(game.player.currentRoom), cmd, result)
      ensures Kept(old(game.player), old(game.player.currentRoom), old(game.player.currentRoom.exits.Values))
      ensures old(game.WorldClosed()) ==> game.WorldClosed()
    {
      var direction := NormalizeVerb(cmd.verb);
      var moved := game.player.Move(direction);
      if moved {
        game.IncrementMoves();
        game.DisplayRoom();
        return CommandResult(true, "", true);
      }
      return CommandResult(false, NoExit, true);
    }

    /** Shows the room, or examines when the command has arguments. */
    method HandleLook(cmd: Command) returns (result: CommandResult)
      requires game.Valid()
      modifies game`score
      ensures Kept(old(game.player), old(game.player.currentRoom), old(game.player.currentRoom.exits.Values))
      ensures Looked(game, old(game.player), old(game.player.currentRoom), cmd, result)
    {
      if cmd.HasArgs() {
        result := HandleExamine(cmd);
        return;
      }
      game.DisplayRoom();
      return CommandResult(true, "", true);
    }

    /** Describes the first carried item, else the first item in the room,
        that the arguments name; it changes nothing. */
    method HandleExamine(cmd: Command) returns (result: CommandResult)
      requires game.Valid()
      ensures result == ExamineOutcome(game.player.inventory, game.player.currentRoom.items, cmd)
    {
      if !cmd.HasArgs() {
        return CommandResult(false, ExamineWhat, true);
      }
      var target := cmd.ArgsAsString();
      var player := game.player;
      var item := player.GetInventoryItem(target);
      if item.Some? {
        return CommandResult(true, item.value.description, true);
      }
      item := player.currentRoom.GetItem(target);
      if item.Some? {
        return CommandResult(true, item.value.description, true);
      }
      return CommandResult(false, NotSeen, true);
    }

    /** Moves the named item from the room to the inventory for five points.
        When the player refuses it, the item goes back at the end of the
        room's list: the room keeps the same items, not the same order. */
    method HandleTake(cmd: Command) returns (result: CommandResult)
      requires game.Valid()
      modifies game`score, game.player`inventory, game.player`currentWeight
      modifies game.player.currentRoom`items
      ensures game.Valid()
      ensures Kept(old(game.player), old(game.player.currentRoom), old(game.player.currentRoom.exits.Values))
      ensures Took(game, old(game.player), old(game.player.currentRoom), cmd, result)
      ensures !result.success ==> game.player.currentWeight == old(game.player.currentWeight)
    {
      if !cmd.HasArgs() {
        return CommandResult(false, TakeWhat, true);
      }
      var itemName := cmd.ArgsAsString();
      var player := game.player;
      var room := player.currentRoom;
      var item := room.RemoveItem(itemName);
      var ok, message := player.TakeItem(item);
      if ok {
        game.AddScore(ScoreItemPickup);
      } else if item.Some? {
        room.AddItem(item.value);
      }
      result := CommandResult(ok, message, true);
    }

    /** Moves the named item from the inventory to the room. */
    method HandleDrop(cmd: Command) returns (result: CommandResult)
      requires game.Valid()
      modifies game.player`inventory, game.player`currentWeight, game.player.currentRoom`items
      ensures game.Valid()
      ensures result.continueGame
      ensures Kept(old(game.player), old(game.player.currentRoom), old(game.player.currentRoom.exits.Values))
      ensures Dropped(game, old(game.player), old(game.player.currentRoom), cmd, result)
    {
      if !cmd.HasArgs() {
        return CommandResult(false, DropWhat, true);
      }
      var itemName := cmd.ArgsAsString();
      var success, message := game.player.DropItem(itemName);
      return CommandResult(success, message, true);
    }

    method HandleInventory(cmd: Command) returns (result: CommandResult)
      requires game.Valid()
      ensures result == CommandResult(true,
        InventoryListing(game.player.inventory, game.player.currentWeight, game.player.maxCarryWeight), true)
    {
      var inv := game.player.GetInventoryList();
      return CommandResult(true, inv, true);
    }

    method HandleUse(cmd: Command) returns (result: CommandResult)
      ensures !result.success && result.continueGame
      ensures !cmd.HasArgs() ==> result.message == UseWhat
      ensures cmd.HasArgs() ==> result.message == UseUnsure
    {
      if !cmd.HasArgs() {
        return CommandResult(false, UseWhat, true);
      }
      return CommandResult(false, UseUnsure, true);
    }

    method HandleAttack(cmd: Command) returns (result: CommandResult)
      ensures result == CommandResult(false, NothingToAttack, true)
    {
      return CommandResult(false, NothingToAttack, true);
    }

    method HandleScore(cmd: Command) returns (result: CommandResult)
      ensures result == CommandResult(true, "", true)
    {
      return CommandResult(true, "", true);
    }

    method HandleSave(cmd: Command) returns (result: CommandResult)
      ensures result == CommandResult(false, SaveUnavailable, true)
    {
      return CommandResult(false, SaveUnavailable, true);
    }

    method HandleLoad(cmd: Command) returns (result: CommandResult)
      ensures result == CommandResult(false, LoadUnavailable, true)
    {
      return CommandResult(false, LoadUnavailable, true);
    }

    method HandleHelp(cmd: Command) returns (result: CommandResult)
      ensures result == CommandResult(true, "", true)
    {
      return CommandResult(true, "", true);
    }

    /** The only handler that ends the game. */
    method HandleQuit(cmd: Command) returns (result: CommandResult)
      ensures result == CommandResult(true, Farewell, false)
    {
      return CommandResult(true, Farewell, false);
    }

    /** CommandParser::parse: parses the line and runs the handler that
        the if-chain (Route) selects for its verb. Blank input and the
        handlers that only report change nothing; only quit stops the
        game; the score never decreases. */
    method Parse(input: string) returns (result: CommandResult)
      requires game.Valid()
      modifies game`score, game`moves
      modifies game.player`currentRoom, game.player`inventory, game.player`currentWeight
      modifies game.player.currentRoom`items, game.player.currentRoom.exits.Values`visited
      ensures game.Valid()
      ensures Outcome(game, old(game.player), old(game.player.currentRoom),
        ParseCommand(input), Route(ParseCommand(input)), result)
      ensures Kept(old(game.player), old(game.player.currentRoom), old(game.player.currentRoom.exits.Values))
      ensures old(game.WorldClosed()) ==> game.WorldClosed()
      ensures var action := Route(ParseCommand(input));
        && (result.continueGame <==> action != Quit)
        && (!Mutates(action) ==> unchanged(game.player) && unchanged(old(game.player.currentRoom)))
        && (!Mutates(action) ==> unchanged(old(game.player.currentRoom.exits.Values)))
        && (game.moves == old(game.moves) || (action.Move? && game.moves == old(game.moves) + 1))
      ensures game.score == old(game.score) || game.score == old(game.score) + ScoreItemPickup
        || game.score == old(game.score) + ScoreRoomDiscovered
    {
      var cmd := ParseCommand(input);
      var action := Route(cmd);
      if Mutates(action) {
        result := Perform(cmd, action);
      } else {
        result := Respond(cmd, action);
      }
    }

    /** The branches of CommandParser::parse whose handlers may change the
        game: moving, looking, taking and dropping. */
    method Perform(cmd: Command, action: Action) returns (result: CommandResult)
      requires game.Valid() && Mutates(action)
      modifies game`score, game`moves
      modifies game.player`currentRoom, game.player`inventory, game.player`currentWeight
      modifies game.player.currentRoom`items, game.player.currentRoom.exits.Values`visited
      ensures game.Valid() && result.continueGame
      ensures Outcome(game, old(game.player), old(game.player.currentRoom), cmd, action, result)
      ensures Kept(old(game.player), old(game.player.currentRoom), old(game.player.currentRoom.exits.Values))
      ensures old(game.WorldClosed()) ==> game.WorldClosed()
      ensures game.moves == old(game.moves) || (action.Move? && game.moves == old(game.moves) + 1)
      ensures game.score == old(game.score) || game.score == old(game.score) + ScoreItemPickup
        || game.score == old(game.score) + ScoreRoomDiscovered
    {
      match action {
        case Move(direction) => result := HandleMove(ParseCommand(direction));
        case Look => result := HandleLook(cmd);
        case Take => result := HandleTake(cmd);
        case Drop => result := HandleDrop(cmd);
      }
      if !action.Move? && old(game.WorldClosed()) {
        ClosedKept(game);
      }
    }

    /** The branches of CommandParser::parse whose handlers only report:
        nothing changes. */
    method Respond(cmd: Command, action: Action) returns (result: CommandResult)
      requires game.Valid() && !Mutates(action)
      ensures result == Report(action, cmd, game.player.inventory, game.player.currentWeight,
        game.player.maxCarryWeight, game.player.currentRoom.items)
    {
      match action
      case NoOp => result := CommandResult(true, "", true);
      case Examine => result := HandleExamine(cmd);
      case ShowInventory => result := HandleInventory(cmd);
      case Use => result := HandleUse(cmd);
      case Attack => result := HandleAttack(cmd);
      case ShowScore => result := HandleScore(cmd);
      case Save => result := HandleSave(cmd);
      case Load => result := HandleLoad(cmd);
      case Help => result := HandleHelp(cmd);
      case Quit => result := HandleQuit(cmd);
      case Unknown => result := CommandResult(false, UnknownCommand, true);
    }
  }
}

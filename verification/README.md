# Zork core in Dafny

A model of the core of a small C++ text adventure in the style of Zork. It
covers how a line of input becomes a command, the string helpers that parse
it, and the handler each verb selects. It also covers the rooms, items,
player and enemies those handlers change, the game session that builds the
seven-room world and keeps score, and the text format of saved games.

The model follows the source file by file:

| Dafny file | models | form |
|---|---|---|
| `utils.dfy` (`Utils`) | `include/Utils.h`: toLower, trim, split, contains, join | functions, with the three loops as methods proved equal to them |
| `command.dfy` (`Commands`) | `src/Command.cpp`: `Command`, the alias table, `normalizeVerb`, the if-chain of `parse` | datatypes and functions |
| `item.dfy` (`Items`) | `src/Item.cpp`: items as values; the name search Room and Player share | datatypes and functions |
| `room.dfy` (`Rooms`) | `src/Room.cpp` | class `Room`, its item vector a `seq` field |
| `player.dfy` (`Players`) | `src/Player.cpp` | class `Player` |
| `enemy.dfy` (`Enemies`) | `src/Enemy.cpp` | class `Enemy` |
| `game.dfy` (`Session`) | `src/Game.cpp`, and the handlers of `src/Command.cpp` | classes `Game` and `CommandParser` |
| `world.dfy` (`World`) | `src/Game.cpp`: the rooms, items and exits that createRooms, createItems and connectRooms lay | constants, and predicates over the seven room objects |
| `save.dfy` (`Saves`) | `src/SaveManager.cpp`: serializeGameState, deserializeGameState | datatype `GameState`; the two loops as methods proved against functions |
| `decimal.dfy` (`Decimal`) | `operator<<` for `int` and `std::stoi`, which the save format relies on | functions |
| `constants.dfy`, `wrappers.dfy` | `include/Constants.h`; `Option` for null pointers and `npos` | constants |

Main results:
- `Commands.ParseCommand` is characterised exactly by trim and split.
- An alias routes like the verb it stands for.
- Every verb that is not recognised gets the unknown-command reply.
- Every command has the outcome of the handler its verb selects, stated
  per action: where the player stands, what is carried, what lies in the
  room, the score, the move count and the answer.
- Every command keeps the session invariant: the carried weight equals the
  inventory's weight, and both carrying limits hold.
- Only quit stops the game, and the score only grows.
- Take and drop move items between room and inventory without creating or
  losing any, and no command unmarks a visited room.
- The built world is the seven rooms with their flags, items and exits as
  setupWorld lays them. It is closed: every exit leads to a registered
  room, and every command keeps it closed.
- A saved game reads back its name, room, score, moves and health.

Two behaviours of the code are worth stating plainly:
- `Player::move` marks the room visited before `handleMove` calls
  `displayRoom`, so a move never earns the discovery points
  (`Session.CommandParser.HandleMove` leaves the score unchanged).
  A room pays them whenever it is shown while unvisited, and only a
  move marks a room visited. `start` shows the first room without
  marking it, so every bare `look` there pays the points again until
  the player walks back into it (`Session.Looked`).
- `setHealth` (`Player`, `Enemy`) stores any value; only `modifyHealth`
  and `takeDamage` clamp.

## Model

| member | source | states |
|---|---|---|
| Utils.LowerChar | include/Utils.h:13-17 | only the 26 ASCII capitals change, and the result is never a capital |
| Utils.ToLower | include/Utils.h:13-17 | same length; a character changes only if it is a capital; no capital remains |
| Utils.LowerFixed | include/Utils.h:13-17 | a string without capitals is its own lower-case form |
| Utils.ToLowerIdempotent | include/Utils.h:13-17 | lower-casing twice is lower-casing once |
| Utils.ToLowerLoop | include/Utils.h:13-17 | the in-place transform of a copy yields exactly ToLower |
| Utils.FirstNonSpace | include/Utils.h:20-23 | find_first_not_of(' '): all spaces before it, a non-space at it, or the length for npos |
| Utils.LastNonSpace | include/Utils.h:24 | find_last_not_of(' '): all spaces after it, a non-space at it, or -1 for npos |
| Utils.LastNonSpaceBelow | include/Utils.h:24 | the search from the back below a bound: every position between the answer and the bound holds a space, and the answer does not |
| Utils.TrimPieces | include/Utils.h:19-26 | for a string with a non-space, first <= last, both ends are non-spaces, and the cut is surrounded by spaces only |
| Utils.Trim | include/Utils.h:19-26 | an empty or all-space string comes back unchanged; otherwise the result starts and ends with a non-space and is the input minus leading and trailing spaces |
| Utils.TrimIdempotent | include/Utils.h:19-26 | trimming twice is trimming once |
| Utils.SplitFromProperties | include/Utils.h:28-45 | from any point of the loop, the tokens still produced are non-empty and free of the delimiter, and concatenate to the pending token plus the rest without delimiters |
| Utils.Split | include/Utils.h:28-45 | every token is non-empty and free of the delimiter, and together, in order, they are exactly the input's other characters |
| Utils.SplitLoop | include/Utils.h:28-45 | the character loop with its pending token yields exactly Split |
| Utils.SplitPadded | include/Utils.h:28-45 | splitting on spaces ignores any spaces a string is padded with |
| Utils.SplitAtDelim | include/Utils.h:28-45 | a delimiter ends a token: the tokens of s, delimiter, t are the tokens of s followed by those of t |
| Utils.SplitRun | include/Utils.h:28-45 | a non-empty run without the delimiter is one token |
| Utils.SplitTrim | include/Utils.h:19-45 | splitting on spaces after trimming gives the same tokens as splitting the raw input |
| Utils.Join | include/Utils.h:51-60 | with an empty delimiter, the plain concatenation of the elements |
| Utils.JoinLength | include/Utils.h:51-60 | the length is the elements' total plus one delimiter per gap |
| Utils.JoinCons | include/Utils.h:51-60 | a join is the first element, the delimiter, and the join of the rest |
| Utils.JoinLoop | include/Utils.h:51-60 | the loop that adds a delimiter after every element but the last yields exactly Join |
| Utils.SplitJoin | include/Utils.h:28-60 | splitting the join of non-empty, delimiter-free tokens on that delimiter gives the tokens back |
| Utils.JoinSplit | include/Utils.h:28-60 | joining with " " the tokens of a string with no leading, trailing or doubled space gives the string back |
| Utils.FindFrom | include/Utils.h:47-49 | std::string::find: the first position at or after the start where the substring occurs; None exactly when there is none |
| Utils.Contains | include/Utils.h:47-49 | true exactly when the substring occurs somewhere |
| Utils.ContainsEmpty | include/Utils.h:47-49 | every string contains the empty string |
| Commands.SplitEmpty | src/Command.cpp:8-16 | splitting yields no token exactly when the input is all spaces |
| Commands.ParseCommand | src/Command.cpp:8-16 | empty verb exactly for a blank line, then no arguments; otherwise the verb is the first token lower-cased and the arguments are the other tokens; no argument is empty or holds a space |
| Commands.Command.ArgsAsString | src/Command.cpp:18-20 | arguments that are words split back into themselves; a single argument is returned as it is |
| Commands.ParseWord | src/Command.cpp:8-16 | a single word parses to itself lower-cased with no arguments, as when parse hands a direction to handleMove |
| Commands.VerbIgnoresCase | src/Command.cpp:8-16 | a line and its lower-case form give the same verb |
| Commands.SplitLower | src/Command.cpp:8-16 | splitting a lower-cased line gives the lower-cased tokens of the line |
| Commands.NormalizeVerb | src/Command.cpp:26-51 | an alias becomes the verb of setupAliases, any other word is unchanged, and the result is never an alias |
| Commands.NormalizeVerbIdempotent | src/Command.cpp:46-51 | normalizing twice is normalizing once |
| Commands.Route | src/Command.cpp:53-108 | nothing happens exactly for an empty verb; a move exactly for a direction or "go" with an argument, carrying that direction or the first argument; quit exactly for "quit" or its aliases; the unknown-command reply exactly for a non-empty verb that is not recognised, with "go" recognised only with an argument |
| Commands.RouteVerb | src/Command.cpp:60-107 | on a normalized verb every branch selects a handler; move, quit and the fall-through are each taken exactly by the verbs that lead to them |
| Commands.MoveHeading | src/Command.cpp:62-68 | the direction handleMove normalizes is the verb itself for a direction, and the lower-cased, normalized first argument for "go" |
| Commands.DirectionWord | src/Command.cpp:63-65 | each of the six directions parses back to itself with no arguments |
| Commands.PlainWord | src/Command.cpp:8-16 | a non-empty lower-case word parses to itself with no arguments |
| Commands.AliasRoutesLikeVerb | src/Command.cpp:26-108 | an alias selects the same handler as the verb it stands for, whatever the arguments |
| Commands.GoAloneUnknown | src/Command.cpp:67-69 | "go" without a direction is not understood |
| Items.NewItem | src/Item.cpp:6-19 | the given name, description, weight, takeable flag and type; value, damage and defense 0 |
| Items.TypeString | src/Item.cpp:21-30 | "Miscellaneous" exactly for the miscellaneous type |
| Items.TypeStringInjective | src/Item.cpp:21-30 | different types have different names |
| Items.SetValue | include/Item.h:47 | the value changes and nothing else |
| Items.SetDamage | include/Item.h:48 | the damage changes and nothing else |
| Items.SetDefense | include/Item.h:49 | the defense changes and nothing else |
| Items.FindItem | src/Room.cpp:47-57 | the first position whose name equals the search name ignoring case; None exactly when no name does |
| Items.FirstMatch | src/Room.cpp:59-67 | the item at that position, null exactly when there is none |
| Items.FirstMatchIsUnique | src/Room.cpp:59-67 | a match with no match before it is the position found |
| Items.RemoveAt | src/Room.cpp:52 | erase leaves one item fewer: the same multiset minus the erased item |
| Items.TotalWeightAppend | src/Player.cpp:69-70 | adding an item adds its weight |
| Items.TotalWeightRemove | src/Player.cpp:80-81 | removing an item subtracts its weight |
| Rooms.LessIrreflexive | src/Room.cpp:31-37 | no string is before itself in std::map's order |
| Rooms.LessTransitive | src/Room.cpp:31-37 | std::map's key order is transitive |
| Rooms.LessTotal | src/Room.cpp:31-37 | of two different strings, one is before the other |
| Rooms.AscendingDistinct | src/Room.cpp:31-37 | a strictly ascending list has no repeats |
| Rooms.Least | src/Room.cpp:31-37 | the least of a non-empty key set, before every other key |
| Rooms.Room.constructor | src/Room.cpp:8-17 | the given id, name and description; lit, unlocked, unvisited, no exits, no items |
| Rooms.Room.SetVisited | include/Room.h:37 | the visited flag is set as given |
| Rooms.Room.SetLit | include/Room.h:38 | the lit flag is set as given |
| Rooms.Room.SetLocked | include/Room.h:39 | the locked flag is set as given |
| Rooms.Room.AddExit | src/Room.cpp:19-21 | the exit table gains or replaces the lower-cased direction, and nothing else changes |
| Rooms.Room.HasExit | src/Room.cpp:39-41 | an exit is found only under a direction equal to the asked one up to case, and, once the stored directions are lower case, always then |
| Rooms.Room.GetExit | src/Room.cpp:23-29 | null exactly when hasExit is false; otherwise the room stored under the lower-cased direction |
| Rooms.Room.ExitIgnoresCase | src/Room.cpp:19-29 | a direction and its lower-case spelling lead to the same exit |
| Rooms.Room.GetExits | src/Room.cpp:31-37 | every direction of the exit table, each once, in ascending order |
| Rooms.Room.AddItem | src/Room.cpp:43-45 | the item is appended |
| Rooms.Room.RemoveItem | src/Room.cpp:47-57 | returns the first item matching the name ignoring case and erases exactly that one, the others keeping their order; null and nothing changed when none matches |
| Rooms.Room.GetItem | src/Room.cpp:59-67 | the first item matching the name ignoring case, or null |
| Rooms.Room.HasItem | src/Room.cpp:69-77 | true exactly when some item matches the name ignoring case |
| Rooms.Room.FullDescription | src/Room.cpp:79-90 | the name on its own line, then the description when lit or the grue warning when dark |
| Rooms.Room.GetItemsList | src/Room.cpp:92-107 | empty for an empty room; otherwise "You see: " and the names separated by ", " with no trailing separator |
| Players.EmptyHandedIff | src/Player.cpp:139-153 | the listing says empty-handed exactly when nothing is carried |
| Players.Player.constructor | src/Player.cpp:9-19 | the given name and room, full health, nothing carried; the carrying invariant and the health range hold |
| Players.Player.SetCurrentRoom | include/Player.h:40 | the room is set as given |
| Players.Player.SetHealth | include/Player.h:41 | health is set as given, without clamping |
| Players.Player.ModifyHealth | src/Player.cpp:21-29 | health moves by the amount and is clamped into [0, maxHealth] |
| Players.Player.Move | src/Player.cpp:31-44 | moves exactly when an exit exists and its room is unlocked; the room entered is marked visited; otherwise the player stays; no other room changes |
| Players.Player.TakeItem | src/Player.cpp:46-73 | refuses, in this order: a missing item, one not takeable, a full inventory, one too heavy, each with its message and nothing changed; otherwise appends the item and adds its weight; the carrying invariant is kept |
| Players.Player.DropItem | src/Player.cpp:75-89 | succeeds exactly when a carried item matches the name; that first match moves to the end of the room's items and its weight is subtracted; no item is lost or created; the carrying invariant is kept |
| Players.Player.CanCarry | src/Player.cpp:111-113 | under the carrying invariant, true exactly when the inventory's total weight plus the item's stays within the carry limit |
| Players.Player.HasItem | src/Player.cpp:91-99 | true exactly when a carried item matches the name ignoring case |
| Players.Player.GetInventoryItem | src/Player.cpp:101-109 | the first carried item matching the name ignoring case, or null |
| Players.Player.Attack | src/Player.cpp:115-127 | exactly the attack power, or the critical-hit multiplier times it on a critical hit; never less than the attack power |
| Players.Player.TakeDamage | src/Player.cpp:129-137 | armor absorbs up to the defense; health drops by the rest, never below zero, and never rises |
| Players.Player.IsAlive | include/Player.h:58 | not alive only at or below zero health; dead whenever health is negative, as `setHealth` may leave it; with health in range, dead exactly at zero |
| Players.Player.GetInventoryList | src/Player.cpp:139-153 | one line per item with its weight, in order, then the total against the carry limit |
| Enemies.CppDiv | src/Enemy.cpp:53 | C++ division by a positive divisor: for a non-negative dividend the largest quotient whose multiple fits below it, for a negative one the smallest whose multiple fits above it, so truncated toward zero |
| Enemies.DivBounds | src/Enemy.cpp:53 | for a natural dividend the quotient is non-negative and its multiple lies within one divisor below the dividend |
| Enemies.Enemy.constructor | src/Enemy.cpp:7-20 | full health, hostile, experience reward twice the health |
| Enemies.Enemy.SetHealth | include/Enemy.h:38 | health is set as given, without clamping |
| Enemies.Enemy.SetIsHostile | include/Enemy.h:39 | the hostile flag is set as given |
| Enemies.Enemy.SetExperienceReward | include/Enemy.h:40 | the reward is set as given |
| Enemies.Enemy.Attack | src/Enemy.cpp:22-36 | attack power plus the variance, at least 1, within 2 of the attack power when that is at least 3 |
| Enemies.Enemy.TakeDamage | src/Enemy.cpp:38-46 | armor absorbs up to the defense; health drops by the rest and never below zero |
| Enemies.Enemy.IsAlive | include/Enemy.h:45 | not alive only at or below zero health; dead whenever health is negative, as `setHealth` or the constructor may leave it; otherwise dead exactly at zero |
| Enemies.Enemy.GetAction | src/Enemy.cpp:48-64 | flee exactly below a quarter of the maximum health (C++ division) when the flee draw succeeds; otherwise defend exactly when the defend draw succeeds; never flee at a quarter or more |
| World.RegistryDistinct | src/Game.cpp:30-87 | the seven registered rooms are seven different rooms |
| World.Registered | src/Game.cpp:30-87 | registering the seven rooms under their ids makes each findable under its own id |
| World.RegisteredIds | src/Game.cpp:30-87 | the registry then holds the ids it held before and the seven ids of the world |
| World.RegistryExact | src/Game.cpp:30-87 | a registry of just the seven ids keys each room by its own id and holds no other room |
| World.FixtureClosed | src/Game.cpp:120-149 | with the exits of connectRooms, every exit of the seven rooms leads to one of them |
| Session.ExamineOutcome | src/Command.cpp:130-151 | succeeds exactly when there are arguments and the inventory or the room holds a matching item; the game goes on |
| Session.ExamineCarriedFirst | src/Command.cpp:138-148 | a carried item is found before a room item of the same name |
| Session.Report | src/Command.cpp:53-108 | the answer of each branch whose handler only reports: only quit stops the game; success exactly for blank input, inventory, score, help, quit and an examine that finds its item |
| Session.ClosedKept | src/Command.cpp:122-186 | the world stays closed when the player stays in the same room, no room is registered and no exit laid, as by look, take and drop |
| Session.Game.constructor | src/Game.cpp:9-15 | not running, zero score and moves, not in combat, parser bound to this game, no rooms or player |
| Session.Game.AddScore | include/Game.h:45 | the score grows by the points |
| Session.Game.IncrementMoves | include/Game.h:46 | moves grow by one |
| Session.Game.GetRoom | src/Game.cpp:151-156 | the room registered under the id, null exactly when there is none |
| Session.Game.AddRoom | src/Game.cpp:158-160 | registers the room under its own id, replacing any earlier one; the session invariant is kept |
| Session.Game.DisplayRoom | src/Game.cpp:183-201 | discovery points exactly when the current room is unvisited; the room is not marked |
| Session.Game.ProcessCommand | src/Game.cpp:203-213 | the outcome parse gives the command's action, with every message and state change Parse states, no item created or lost between the player and the room stood in, no visited room unmarked, a closed world kept closed; the game stops exactly when the command is quit and is never restarted; score and moves never decrease |
| Session.Game.GameOver | src/Game.cpp:215-226 | the game stops |
| Session.Game.StartCombat | src/Game.cpp:228-233 | the enemy is current and combat begins |
| Session.Game.EndCombat | src/Game.cpp:239-245 | combat ends with no enemy; a victory adds the enemy-defeated points |
| Session.Game.SaveGame | src/Game.cpp:247-250 | always fails |
| Session.Game.LoadGame | src/Game.cpp:252-255 | always fails |
| Session.Game.CreateRooms | src/Game.cpp:30-87 | seven fresh rooms registered under their ids, the old keys kept, with their names; unvisited, unlocked, empty and without exits, all lit but the cellar |
| Session.Game.CreateItems | src/Game.cpp:89-118 | mailbox and leaflet appended west of the house, the lamp in the kitchen, the rope in the attic, the sword in the living room; rooms fresh from createRooms end up stocked with their flags and exits unchanged |
| Session.Game.ConnectRooms | src/Game.cpp:120-149 | exactly the fifteen exits of the map added to each room's table, the forest's north and west leading back to the forest; stocked rooms end up connected with their flags and items unchanged |
| Session.Game.BuildWorld | src/Game.cpp:21-24 | from an empty table, exactly the seven ids, each room keyed by its own id; the rooms' lit and locked flags, items and exits as createRooms, createItems and connectRooms lay them, none visited; every exit leading to a registered room; every room newly allocated |
| Session.Game.SetupWorld | src/Game.cpp:21-28 | the world is built as BuildWorld states and a fresh "Adventurer" stands, unladen and at full health, in the unvisited room west of the house; the world is closed and every room newly allocated |
| Session.Game.Start | src/Game.cpp:162-168 | the world is built as SetupWorld states with a fresh player and fresh rooms, the game runs with the player west of the house, and showing the first room earns the discovery points |
| Session.CommandParser.constructor | src/Command.cpp:22-24 | the parser is bound to the game |
| Session.CommandParser.HandleMove | src/Command.cpp:110-120 | succeeds exactly when the exit the normalized verb names exists and is unlocked: the player moves there, that room alone among the neighbours is marked visited, one move is counted, no points are earned; otherwise "You can't go that way." and the player stays; no item moves; the world stays closed |
| Session.CommandParser.HandleLook | src/Command.cpp:122-128 | with arguments, the examine answer and no points; without, success with no message and the discovery points exactly when the room is unvisited; the player, the items and the move count stay |
| Session.CommandParser.HandleExamine | src/Command.cpp:130-151 | the description of the first carried, else first room item that matches; "Examine what?" without arguments |
| Session.CommandParser.HandleTake | src/Command.cpp:153-174 | "Take what?" without arguments; otherwise succeeds exactly when the player accepts the first matching room item: it moves from the room to the end of the inventory for five points; on refusal the message is the player's, nothing is carried, and a found item goes back at the end of the room's list; no item is lost or created |
| Session.CommandParser.HandleDrop | src/Command.cpp:176-186 | "Drop what?" without arguments; otherwise succeeds exactly when a carried item matches: the first match moves to the end of the room's list with its message, else "You don't have that item."; score and moves stay; no item is lost or created |
| Session.CommandParser.HandleInventory | src/Command.cpp:188-191 | the inventory listing, as a success |
| Session.CommandParser.HandleUse | src/Command.cpp:193-201 | always fails, asking what to use when there is no argument |
| Session.CommandParser.HandleAttack | src/Command.cpp:203-207 | always fails: nothing to attack |
| Session.CommandParser.HandleScore | src/Command.cpp:209-212 | succeeds with no message |
| Session.CommandParser.HandleSave | src/Command.cpp:214-217 | always fails: not implemented |
| Session.CommandParser.HandleLoad | src/Command.cpp:219-222 | always fails: not implemented |
| Session.CommandParser.HandleHelp | src/Command.cpp:224-227 | succeeds with no message |
| Session.CommandParser.HandleQuit | src/Command.cpp:229-231 | the only result that ends the game |
| Session.CommandParser.Parse | src/Command.cpp:53-108 | the action Route selects has the outcome of its handler: a move as HandleMove states, with the room entered alone among the neighbours marked visited; a look as HandleLook states; a take with "Take what?", the player's refusal or "You take the X.", a refused item put back at the end of the room's list; a drop with "Drop what?", "You don't have that item." or "You drop the X."; any other the answer of Report with player and room unchanged; no item is lost or created; visited rooms stay visited; a closed world stays closed; only quit stops the game; moves grow by at most one and only on a move; the score stays or grows by the pickup or discovery points; the session invariant is kept |
| Session.CommandParser.Perform | src/Command.cpp:62-81 | the moving, looking, taking and dropping branches: the outcome of the handler selected, as Parse states it per action (the visited marking, the take and drop messages, where a refused item ends up), with the invariant, the items between player and room and the closed world kept, and the game going on |
| Session.CommandParser.Respond | src/Command.cpp:53-108 | the branches whose handlers only report answer as Report, so only quit ends the game; blank input and unknown verbs get their fixed answers |
| Decimal.NatToString | src/SaveManager.cpp:19-21 | non-empty decimal digits with no leading zero |
| Decimal.IntToString | src/SaveManager.cpp:19-21 | what operator<< writes for an int: a leading '-' exactly for a negative number |
| Decimal.NatToStringValue | src/SaveManager.cpp:19-21 | the digits written read back as the number |
| Decimal.Stoi | src/SaveManager.cpp:55-60 | std::stoi: a result is always within int; None stands for invalid_argument or out_of_range |
| Decimal.StoiIntToString | src/SaveManager.cpp:19-21 | stoi reads back every int that operator<< writes |
| Saves.SerializeGameState | src/SaveManager.cpp:12-33 | the header, the five key=value lines in fixed order, then the inventory joined by "," with no trailing comma, each line ending in a newline |
| Saves.FixedLines | src/SaveManager.cpp:16-21 | the first six lines of the save text, as written one by one |
| Saves.InventoryLineLast | src/SaveManager.cpp:23-30 | the inventory line comes last |
| Saves.NextLine | src/SaveManager.cpp:43-45 | getline consumes a line and its newline, so each read shortens the rest |
| Saves.DeserializeGameState | src/SaveManager.cpp:35-66 | skips the first line, then applies every later line to a default state in order; a stoi failure fails the whole read |
| Saves.NextLineOf | src/SaveManager.cpp:43-45 | getline stops at the newline ending a line that holds none |
| Saves.LinesText | src/SaveManager.cpp:43-45 | getline reads back, one by one, newline-free lines written with their newlines |
| Saves.EntrySplit | src/SaveManager.cpp:46-50 | the key is the text before the first '=' and the value all that follows, '=' included |
| Saves.NameLineSets | src/SaveManager.cpp:51-54 | a name or room line sets that field to its value |
| Saves.NumberLineSets | src/SaveManager.cpp:55-60 | a score, moves or health line sets the field to what stoi reads, and fails when stoi throws |
| Saves.InventoryLineIgnored | src/SaveManager.cpp:51-62 | the inventory line is not read back |
| Saves.ApplyLinesAppend | src/SaveManager.cpp:45-63 | reading two runs of lines is reading the first and then the second |
| Saves.LastNameWins | src/SaveManager.cpp:51-52 | a later line for a key overrides an earlier one |
| Saves.BadNumberFails | src/SaveManager.cpp:55-56 | a number stoi rejects fails the read, whatever follows |
| Saves.LineWithoutEquals | src/SaveManager.cpp:46-47 | a line without '=' changes nothing |
| Saves.HeaderSkipped | src/SaveManager.cpp:42-43 | whatever the first line holds, it is skipped; with nothing after it the defaults 0, 0, 100 stand |
| Saves.ApplySavedFields | src/SaveManager.cpp:45-63 | the saved lines after the header set name, room, score, moves and health in turn |
| Saves.RoundTrip | src/SaveManager.cpp:12-66 | reading back a saved state restores name, room, score, moves and health, with the inventory, visited rooms and room items empty, when no saved text holds a newline |

## Left out

- Console output: the messages printed by displayRoom, displayWelcome, displayScore, displayHelp, gameOver and startCombat, and the ANSI colour codes. The printed text is not part of the state.
- Console input, `Game::run` and `main`: the input loop only feeds processCommand.
- Files: `SaveManager::save`, `load`, `deleteSave` and `listSaveFiles`, and the file helpers of `include/Utils.h`. Only the text conversion they rely on is modelled (`Saves`).
- Randomness: `randomInt` and `randomBool` are not modelled. Their draws are parameters of `Players.Player.Attack`, `Enemies.Enemy.Attack` and `Enemies.Enemy.GetAction`.
- Enemies.Enemy.GetAction: the flee draw is a parameter even when the health is not low enough to use it, so the number of draws consumed is not modelled.
- `Player::getStatus` and `Enemy::getStatus`: formatting only, and the enemy's uses floating point.
- `Game::processCombatTurn` is empty in the source. `Item::use` only prints.
- `Game::displayRoom`: only its effect on the score is modelled, not the exit list it prints.
- 32-bit integers: score, moves, health and weights are unbounded `int`, so wrap-around on overflow is not modelled. The save format's numbers are the exception: `Decimal.Stoi` rejects values outside int, as std::stoi does.
- Items.Item: weights are `nat`. Every item the game creates weighs at least 1; a negative weight would let a drop break the carry limit.
- Exits hold `Room` references rather than `shared_ptr`. Reference counting and the cycles it leaks are not modelled.
- Session.Game.SetupWorld: stated from an empty room table, the only state `start` calls it in. The source would also overwrite an existing table.
- Session.Game.Start: stated from an empty room table, as SetupWorld.
- Session.Game.CreateItems: requires the seven rooms to be registered. The source's `rooms_[id]` would insert a null pointer for a missing id and crash.
- Session.Game.ConnectRooms: requires the seven rooms to be registered, as CreateItems.
- Session.Game.CreateItems: its frame is the whole of the four rooms it stocks, so what it leaves alone in them (flags, exits) is stated through `World.Layout` for rooms fresh from createRooms, not for any rooms.
- Session.Game.ConnectRooms: likewise its frame is the whole of the seven rooms; their flags and items are stated unchanged through `World.Layout` for stocked rooms.
- Session.Game.ProcessCommand: the message it prints is console output and is not modelled; the result it comes from is.
- Session.CommandParser.HandleMove: requires a player; the source dereferences it unchecked. The other handlers and Parse likewise require the session invariant, which holds from Start onwards.
- Players.Player.TakeItem: requires the carrying invariant; every state the game reaches has it.
- Players.Player.DropItem: requires the carrying invariant, as TakeItem.
- Saves.RoundTrip: requires no newline in the name, the room id or any inventory name, since getline would split such a line. It also requires score, moves and health to be within int.
- Saves.DeserializeGameState: a std::stoi exception becomes `None` rather than propagating; the source does not catch it.

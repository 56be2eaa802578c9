/** The save format of src/SaveManager.cpp: a header line followed by
    key=value lines, written from a GameState and read back line by line
    with std::getline. Only the text conversion is modelled; the files it
    is written to and read from are not. */
module Saves {
  import opened Wrappers
  import opened Decimal
  import opened Utils

  /** The GameState record of include/SaveManager.h. */
  datatype GameState = GameState(
    playerName: string,
    currentRoomId: string,
    inventory: seq<string>,
    visitedRooms: map<string, bool>,
    roomItems: map<string, seq<string>>,
    score: int,
    moves: int,
    health: int)

  /** A default-constructed GameState: empty strings and collections,
      score 0, moves 0, health 100. */
  const DefaultState := GameState("", "", [], map[], map[], 0, 0, 100)

  const Header := "ZORK_SAVE_V1"
  const NameKey := "player_name"
  const RoomKey := "current_room"
  const ScoreKey := "score"
  const MovesKey := "moves"
  const HealthKey := "health"
  const InventoryKey := "inventory"

  // ---------------------------------------------------------------- writing

  /** One key=value line, without its terminator. */
  function Entry(key: string, value: string): string {
    key + "=" + value
  }

  /** Lines, each followed by a newline. */
  function Text(lines: seq<string>): string {
    if lines == [] then "" else Text(lines[..|lines| - 1]) + lines[|lines| - 1] + "\n"
  }

  /** The lines serializeGameState writes, in order: the header, the name,
      the room id, score, moves and health, and the inventory names joined
      by commas. */
  function SaveLines(state: GameState): seq<string> {
    [Header,
     Entry(NameKey, state.playerName),
     Entry(RoomKey, state.currentRoomId),
     Entry(ScoreKey, IntToString(state.score)),
     Entry(MovesKey, IntToString(state.moves)),
     Entry(HealthKey, IntToString(state.health)),
     Entry(InventoryKey, Join(state.inventory, ","))]
  }

  /** The text SaveManager::serializeGameState returns. */
  function Serialized(state: GameState): string {
    Text(SaveLines(state))
  }

  /** SaveManager::serializeGameState: the fixed lines, then the inventory
      written name by name with a comma between consecutive names. */
  method SerializeGameState(state: GameState) returns (data: string)
    ensures data == Serialized(state)
  {
    data := Header + "\n";
    data := data + Entry(NameKey, state.playerName) + "\n";
    data := data + Entry(RoomKey, state.currentRoomId) + "\n";
    data := data + Entry(ScoreKey, IntToString(state.score)) + "\n";
    data := data + Entry(MovesKey, IntToString(state.moves)) + "\n";
    data := data + Entry(HealthKey, IntToString(state.health)) + "\n";
    FixedLines(state);
    ghost var fixed := data;
    data := data + InventoryKey + "=";
    ghost var prefix := data;
    ghost var written := "";
    var inventory := state.inventory;
    var i := 0;
    while i < |inventory|
      invariant 0 <= i <= |inventory|
      invariant written == Join(inventory[..i], ",") + (if 0 < i < |inventory| then "," else "")
      invariant data == prefix + written
    {
      assert inventory[..i + 1][..i] == inventory[..i];
      AppendAssociative(prefix, written, inventory[i]);
      data := data + inventory[i];
      written := written + inventory[i];
      if i < |inventory| - 1 {
        AppendAssociative(prefix, written, ",");
        data := data + ",";
        written := written + ",";
      }
      i := i + 1;
    }
    assert inventory[..|inventory|] == inventory;
    assert written == Join(inventory, ",");
    AppendAssociative(fixed, InventoryKey, "=");
    AppendAssociative(fixed, InventoryKey + "=", written);
    data := data + "\n";
    InventoryLineLast(state);
  }

  /** The first six saved lines, as serializeGameState writes them. */
  lemma FixedLines(state: GameState)
    ensures Text(SaveLines(state)[..6]) == Header + "\n"
      + Entry(NameKey, state.playerName) + "\n"
      + Entry(RoomKey, state.currentRoomId) + "\n"
      + Entry(ScoreKey, IntToString(state.score)) + "\n"
      + Entry(MovesKey, IntToString(state.moves)) + "\n"
      + Entry(HealthKey, IntToString(state.health)) + "\n"
  {
    var lines := SaveLines(state);
    assert Text(lines[..0]) == "";
    assert "" + Header == Header;
    TextSnoc(lines, 0);
    TextSnoc(lines, 1);
    TextSnoc(lines, 2);
    TextSnoc(lines, 3);
    TextSnoc(lines, 4);
    TextSnoc(lines, 5);
  }

  /** The saved text is the first six lines and then the inventory line. */
  lemma InventoryLineLast(state: GameState)
    ensures Serialized(state)
      == Text(SaveLines(state)[..6]) + Entry(InventoryKey, Join(state.inventory, ",")) + "\n"
  {
    var lines := SaveLines(state);
    TextSnoc(lines, 6);
    assert lines[..7] == lines;
  }

  // ---------------------------------------------------------------- reading

  /** std::getline on a non-empty remainder: the text up to the first
      newline, and what follows that newline; the whole remainder when
      there is no newline. */
  function NextLine(s: string): (r: (string, string))
    requires s != []
    ensures |r.1| < |s|
  {
    match Find(s, "\n")
    case None => (s, [])
    case Some(k) => (s[..k], s[k + 1..])
  }

  /** The lines successive getline calls read, until one reads nothing. */
  function Lines(s: string): seq<string>
    decreases |s|
  {
    if s == [] then [] else [NextLine(s).0] + Lines(NextLine(s).1)
  }

  /** The branch of the loop body of deserializeGameState for one line:
      a line without '=' or with an unknown key leaves the state alone;
      None stands for the exception std::stoi throws. */
  function ApplyLine(state: GameState, line: string): Option<GameState> {
    match Find(line, "=")
    case None => Some(state)
    case Some(pos) =>
      var key := line[..pos];
      var value := line[pos + 1..];
      if key == NameKey then Some(state.(playerName := value))
      else if key == RoomKey then Some(state.(currentRoomId := value))
      else if key == ScoreKey then
        (match Stoi(value) case None => None case Some(n) => Some(state.(score := n)))
      else if key == MovesKey then
        (match Stoi(value) case None => None case Some(n) => Some(state.(moves := n)))
      else if key == HealthKey then
        (match Stoi(value) case None => None case Some(n) => Some(state.(health := n)))
      else Some(state)
  }

  /** The lines applied in order; the first failure ends the parse. */
  function ApplyLines(state: GameState, lines: seq<string>): Option<GameState>
    decreases |lines|
  {
    if lines == [] then Some(state)
    else
      match ApplyLine(state, lines[0])
      case None => None
      case Some(next) => ApplyLines(next, lines[1..])
  }

  /** What SaveManager::deserializeGameState returns: the first line is
      skipped, the rest are applied to a default GameState. */
  function Deserialized(data: string): Option<GameState> {
    var lines := Lines(data);
    ApplyLines(DefaultState, if lines == [] then [] else lines[1..])
  }

  /** SaveManager::deserializeGameState: one getline for the header, then
      one per remaining line until the text is used up. */
  method DeserializeGameState(data: string) returns (result: Option<GameState>)
    ensures result == Deserialized(data)
  {
    var rest := data;
    if rest != [] {
      rest := NextLine(rest).1;
    }
    var state := DefaultState;
    while rest != []
      invariant ApplyLines(state, Lines(rest)) == Deserialized(data)
      decreases |rest|
    {
      var line := NextLine(rest).0;
      assert Lines(rest)[0] == line && Lines(rest)[1..] == Lines(NextLine(rest).1);
      match ApplyLine(state, line) {
        case None =>
          return None;
        case Some(next) =>
          state := next;
      }
      rest := NextLine(rest).1;
    }
    return Some(state);
  }

  // ------------------------------------------------------------- properties

  /** Text of a prefix grows by the next line and its newline. */
  lemma TextSnoc(lines: seq<string>, i: nat)
    requires i < |lines|
    ensures Text(lines[..i + 1]) == Text(lines[..i]) + lines[i] + "\n"
  {
    assert lines[..i + 1][..i] == lines[..i];
  }

  /** Text ends each line with a newline, so it also reads from the front. */
  lemma {:induction false} TextCons(line: string, lines: seq<string>)
    ensures Text([line] + lines) == line + "\n" + Text(lines)
    decreases |lines|
  {
    if lines != [] {
      var all := [line] + lines;
      assert all[..|all| - 1] == [line] + lines[..|lines| - 1];
      TextCons(line, lines[..|lines| - 1]);
      AppendAssociative(line + "\n", Text(lines[..|lines| - 1]), lines[|lines| - 1] + "\n");
    }
  }

  /** getline stops at the newline that ends a line holding none. */
  lemma NextLineOf(line: string, rest: string)
    requires '\n' !in line
    ensures NextLine(line + "\n" + rest) == (line, rest)
  {
    var s := line + "\n" + rest;
    assert OccursAt(s, "\n", |line|) by {
      assert s[|line|..|line| + 1] == "\n";
    }
    forall j | 0 <= j < |line|
      ensures !OccursAt(s, "\n", j)
    {
      assert s[j..j + 1] == [line[j]];
    }
    var k := Find(s, "\n").value;
    assert k == |line|;
    assert s[..k] == line && s[k + 1..] == rest;
  }

  /** getline reads back, one by one, lines written with their newlines. */
  lemma {:induction false} LinesText(lines: seq<string>)
    requires forall i :: 0 <= i < |lines| ==> '\n' !in lines[i]
    ensures Lines(Text(lines)) == lines
    decreases |lines|
  {
    if lines != [] {
      TextCons(lines[0], lines[1..]);
      assert [lines[0]] + lines[1..] == lines;
      NextLineOf(lines[0], Text(lines[1..]));
      LinesText(lines[1..]);
    }
  }

  /** The key is the text before the first '=', the value everything after
      it, so the value may itself contain '='. */
  lemma EntrySplit(key: string, value: string)
    requires '=' !in key
    ensures Find(Entry(key, value), "=") == Some(|key|)
    ensures Entry(key, value)[..|key|] == key && Entry(key, value)[|key| + 1..] == value
  {
    var s := Entry(key, value);
    assert OccursAt(s, "=", |key|) by {
      assert s[|key|..|key| + 1] == "=";
    }
    forall j | 0 <= j < |key|
      ensures !OccursAt(s, "=", j)
    {
      assert s[j..j + 1] == [key[j]];
    }
  }

  /** A name or room line sets that field to its value, whatever the value
      holds. */
  lemma NameLineSets(state: GameState, value: string)
    ensures ApplyLine(state, Entry(NameKey, value)) == Some(state.(playerName := value))
    ensures ApplyLine(state, Entry(RoomKey, value)) == Some(state.(currentRoomId := value))
  {
    EntrySplit(NameKey, value);
    EntrySplit(RoomKey, value);
  }

  /** A number line sets its field to what std::stoi reads, and fails when
      std::stoi throws. */
  lemma NumberLineSets(state: GameState, value: string)
    ensures ApplyLine(state, Entry(ScoreKey, value))
      == (if Stoi(value).Some? then Some(state.(score := Stoi(value).value)) else None)
    ensures ApplyLine(state, Entry(MovesKey, value))
      == (if Stoi(value).Some? then Some(state.(moves := Stoi(value).value)) else None)
    ensures ApplyLine(state, Entry(HealthKey, value))
      == (if Stoi(value).Some? then Some(state.(health := Stoi(value).value)) else None)
  {
    EntrySplit(ScoreKey, value);
    EntrySplit(MovesKey, value);
    EntrySplit(HealthKey, value);
  }

  /** The inventory line is written but never read back. */
  lemma InventoryLineIgnored(state: GameState, value: string)
    ensures ApplyLine(state, Entry(InventoryKey, value)) == Some(state)
  {
    EntrySplit(InventoryKey, value);
  }

  /** Applying two runs of lines is applying the first, then the second. */
  lemma {:induction false} ApplyLinesAppend(state: GameState, first: seq<string>, second: seq<string>)
    ensures ApplyLines(state, first + second)
      == (match ApplyLines(state, first) case None => None case Some(mid) => ApplyLines(mid, second))
    decreases |first|
  {
    if first != [] {
      var step := ApplyLine(state, first[0]);
      assert (first + second)[0] == first[0] && (first + second)[1..] == first[1..] + second;
      if step.Some? {
        ApplyLinesAppend(step.value, first[1..], second);
      }
    } else {
      assert first + second == second;
    }
  }

  /** A later line for the same key overrides an earlier one. */
  lemma LastNameWins(state: GameState, lines: seq<string>, value: string)
    requires ApplyLines(state, lines).Some?
    ensures ApplyLines(state, lines + [Entry(NameKey, value)])
      == Some(ApplyLines(state, lines).value.(playerName := value))
  {
    ApplyLinesAppend(state, lines, [Entry(NameKey, value)]);
    NameLineSets(ApplyLines(state, lines).value, value);
  }

  /** A line std::stoi rejects makes the whole parse fail, whatever
      follows it. */
  lemma BadNumberFails(state: GameState, lines: seq<string>, value: string, rest: seq<string>)
    requires ApplyLines(state, lines).Some? && Stoi(value).None?
    ensures ApplyLines(state, lines + [Entry(ScoreKey, value)] + rest).None?
  {
    NumberLineSets(ApplyLines(state, lines).value, value);
    ApplyLinesAppend(state, lines, [Entry(ScoreKey, value)]);
    ApplyLinesAppend(state, lines + [Entry(ScoreKey, value)], rest);
  }

  /** A line without '=' changes nothing. */
  lemma LineWithoutEquals(state: GameState, line: string)
    requires '=' !in line
    ensures ApplyLine(state, line) == Some(state)
  {
    forall j | 0 <= j < |line|
      ensures !OccursAt(line, "=", j)
    {
      assert line[j..j + 1] == [line[j]];
    }
  }

  /** Whatever the first line says, it is skipped: the state comes from
      the lines after it alone, and with none the defaults stand. */
  lemma HeaderSkipped(first: string, rest: string)
    requires '\n' !in first
    ensures Deserialized(first + "\n" + rest) == ApplyLines(DefaultState, Lines(rest))
    ensures Deserialized(first + "\n") == Some(DefaultState)
  {
    NextLineOf(first, rest);
    NextLineOf(first, "");
    assert first + "\n" + "" == first + "\n";
  }

  /** Reading back a saved state restores the name, the room, score, moves
      and health, provided no saved text holds a newline and the numbers
      fit in an int; the inventory, visited rooms and room items come back
      empty. */
  lemma RoundTrip(state: GameState)
    requires '\n' !in state.playerName && '\n' !in state.currentRoomId
    requires forall i :: 0 <= i < |state.inventory| ==> '\n' !in state.inventory[i]
    requires InIntRange(state.score) && InIntRange(state.moves) && InIntRange(state.health)
    ensures Deserialized(Serialized(state)) == Some(Restored(state))
  {
    SaveLinesNoNewline(state);
    LinesText(SaveLines(state));
    ApplySavedFields(state);
  }

  /** What a round trip keeps of a state. */
  function Restored(state: GameState): GameState {
    DefaultState.(playerName := state.playerName, currentRoomId := state.currentRoomId,
      score := state.score, moves := state.moves, health := state.health)
  }

  lemma SaveLinesNoNewline(state: GameState)
    requires '\n' !in state.playerName && '\n' !in state.currentRoomId
    requires forall i :: 0 <= i < |state.inventory| ==> '\n' !in state.inventory[i]
    ensures forall i :: 0 <= i < |SaveLines(state)| ==> '\n' !in SaveLines(state)[i]
  {
    NoNewlineInJoin(state.inventory, ",");
    NoNewlineInNumber(state.score);
    NoNewlineInNumber(state.moves);
    NoNewlineInNumber(state.health);
  }

  /** The saved lines after the header set the five fields in turn. */
  lemma ApplySavedFields(state: GameState)
    requires InIntRange(state.score) && InIntRange(state.moves) && InIntRange(state.health)
    ensures ApplyLines(DefaultState, SaveLines(state)[1..]) == Some(Restored(state))
  {
    var l1, l2, l3 := Entry(NameKey, state.playerName), Entry(RoomKey, state.currentRoomId),
      Entry(ScoreKey, IntToString(state.score));
    var l4, l5 := Entry(MovesKey, IntToString(state.moves)), Entry(HealthKey, IntToString(state.health));
    var l6 := Entry(InventoryKey, Join(state.inventory, ","));
    assert SaveLines(state)[1..] == [l1, l2, l3, l4, l5, l6];
    StoiIntToString(state.score);
    StoiIntToString(state.moves);
    StoiIntToString(state.health);
    var s0 := DefaultState;
    NameLineSets(s0, state.playerName);
    var s1 := s0.(playerName := state.playerName);
    ApplyLinesStep(s0, s1, [l1, l2, l3, l4, l5, l6]);
    NameLineSets(s1, state.currentRoomId);
    var s2 := s1.(currentRoomId := state.currentRoomId);
    ApplyLinesStep(s1, s2, [l2, l3, l4, l5, l6]);
    NumberLineSets(s2, IntToString(state.score));
    var s3 := s2.(score := state.score);
    ApplyLinesStep(s2, s3, [l3, l4, l5, l6]);
    NumberLineSets(s3, IntToString(state.moves));
    var s4 := s3.(moves := state.moves);
    ApplyLinesStep(s3, s4, [l4, l5, l6]);
    NumberLineSets(s4, IntToString(state.health));
    var s5 := s4.(health := state.health);
    ApplyLinesStep(s4, s5, [l5, l6]);
    InventoryLineIgnored(s5, Join(state.inventory, ","));
    ApplyLinesStep(s5, s5, [l6]);
  }

  /** A line that applies cleanly hands its state on to the rest. */
  lemma ApplyLinesStep(state: GameState, next: GameState, lines: seq<string>)
    requires |lines| > 0 && ApplyLine(state, lines[0]) == Some(next)
    ensures ApplyLines(state, lines) == ApplyLines(next, lines[1..])
  {
  }

  /** The decimal form of a number holds no newline. */
  lemma NoNewlineInNumber(n: int)
    ensures '\n' !in IntToString(n)
  {
    var s := IntToString(n);
    var digits := NatToString(if n < 0 then -n else n);
    assert s == digits || s == "-" + digits;
    forall i | 0 <= i < |s|
      ensures s[i] != '\n'
    {
      if s != digits && i > 0 {
        assert s[i] == digits[i - 1];
      }
    }
  }

  /** Joining newline-free strings with a newline-free delimiter gives a
      newline-free string. */
  lemma {:induction false} NoNewlineInJoin(v: seq<string>, delim: string)
    requires forall i :: 0 <= i < |v| ==> '\n' !in v[i]
    requires '\n' !in delim
    ensures '\n' !in Join(v, delim)
    decreases |v|
  {
    if |v| > 1 {
      NoNewlineInJoin(v[..|v| - 1], delim);
    }
  }
}

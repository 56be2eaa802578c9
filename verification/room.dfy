/** Rooms (src/Room.cpp): a location with its exits, the items lying in
    it and three flags. Room objects are shared and updated in place, so a
    room is a class; its item vector is a sequence field the methods
    reassign, and its exit table maps a lower-case direction to a room. */
module Rooms {
  import opened Wrappers
  import opened Utils
  import opened Items

  // ------------------------------------------------ ordering of std::string

  /** std::string's operator<: lexicographic by character, a proper prefix
      first. std::map keeps its keys in this order. */
  predicate Less(a: string, b: string)
    decreases |a|
  {
    if a == [] then b != []
    else if b == [] then false
    else if a[0] != b[0] then a[0] < b[0]
    else Less(a[1..], b[1..])
  }

  lemma {:induction false} LessIrreflexive(a: string)
    ensures !Less(a, a)
    decreases |a|
  {
    if a != [] {
      LessIrreflexive(a[1..]);
    }
  }

  lemma {:induction false} LessTransitive(a: string, b: string, c: string)
    requires Less(a, b) && Less(b, c)
    ensures Less(a, c)
    decreases |a|
  {
    if a != [] && b != [] && c != [] && a[0] == b[0] && b[0] == c[0] {
      LessTransitive(a[1..], b[1..], c[1..]);
    }
  }

  lemma {:induction false} LessTotal(a: string, b: string)
    requires a != b
    ensures Less(a, b) || Less(b, a)
    decreases |a|
  {
    if a != [] && b != [] && a[0] == b[0] {
      assert a == [a[0]] + a[1..] && b == [b[0]] + b[1..];
      LessTotal(a[1..], b[1..]);
    }
  }

  ghost predicate StrictlyAscending(s: seq<string>) {
    forall i, j :: 0 <= i < j < |s| ==> Less(s[i], s[j])
  }

  /** A strictly ascending list names each of its elements once. */
  lemma AscendingDistinct(s: seq<string>)
    requires StrictlyAscending(s)
    ensures forall i, j :: 0 <= i < j < |s| ==> s[i] != s[j]
  {
    forall i, j | 0 <= i < j < |s|
      ensures s[i] != s[j]
    {
      LessIrreflexive(s[i]);
    }
  }

  /** The least element of a non-empty set of strings. */
  method Least(keys: set<string>) returns (m: string)
    requires keys != {}
    ensures m in keys
    ensures forall k :: k in keys && k != m ==> Less(m, k)
  {
    m :| m in keys;
    var rest := keys - {m};
    ghost var seen := {m};
    while rest != {}
      invariant rest + seen == keys && m in seen
      invariant forall k :: k in seen && k != m ==> Less(m, k)
      decreases rest
    {
      var k :| k in rest;
      if Less(k, m) {
        forall x | x in seen && x != k
          ensures Less(k, x)
        {
          if x != m {
            LessTransitive(k, m, x);
          }
        }
        m := k;
      } else if k != m {
        LessTotal(k, m);
      }
      rest := rest - {k};
      seen := seen + {k};
    }
  }

  // ------------------------------------------------------------------ Room

  const PitchBlack := "It is pitch black. You are likely to be eaten by a grue.\n"

  class Room {
    const id: string
    const name: string
    const description: string
    var exits: map<string, Room>
    var items: seq<Item>
    var visited: bool
    var lit: bool
    var locked: bool

    /** A new room: lit, unlocked, not visited, no exits and no items. */
    constructor (id: string, name: string, description: string)
      ensures this.id == id && this.name == name && this.description == description
      ensures exits == map[] && items == [] && !visited && !locked && lit
    {
      this.id := id;
      this.name := name;
      this.description := description;
      exits := map[];
      items := [];
      visited := false;
      lit := true;
      locked := false;
    }

    /** Nothing has happened to the room yet: no exits, no items, never
        visited, not locked. */
    predicate Pristine()
      reads this`exits, this`items, this`visited, this`locked
    {
      exits == map[] && items == [] && !visited && !locked
    }

    method SetVisited(v: bool)
      modifies this`visited
      ensures visited == v
    {
      visited := v;
    }

    method SetLit(l: bool)
      modifies this`lit
      ensures lit == l
    {
      lit := l;
    }

    method SetLocked(l: bool)
      modifies this`locked
      ensures locked == l
    {
      locked := l;
    }

    // ---------------------------------------------------------- exits

    /** Adds or replaces the exit in a direction; directions are stored in
        lower case (see ExitIgnoresCase for the lookup side). */
    method AddExit(direction: string, room: Room)
      modifies this`exits
      ensures exits == old(exits)[ToLower(direction) := room]
    {
      exits := exits[ToLower(direction) := room];
    }

    /** Whether there is an exit in a direction, whatever its case. AddExit
        stores directions lower-cased; for such a room a direction has an exit
        exactly when it agrees with a stored one up to case. */
    predicate HasExit(direction: string): (b: bool)
      reads this
      ensures b ==> exists key :: key in exits && ToLower(key) == ToLower(direction)
      ensures (forall key :: key in exits ==> ToLower(key) == key) ==>
        (b <==> exists key :: key in exits && ToLower(key) == ToLower(direction))
    {
      ToLowerIdempotent(direction);
      ToLower(direction) in exits
    }

    /** The room in a direction, null exactly when there is no such exit. */
    function GetExit(direction: string): (r: Room?)
      reads this
      ensures r != null <==> HasExit(direction)
      ensures r != null ==> r == exits[ToLower(direction)]
    {
      var dir := ToLower(direction);
      if dir in exits then exits[dir] else null
    }

    /** A direction and its lower-case spelling lead to the same exit. */
    lemma ExitIgnoresCase(direction: string)
      ensures GetExit(ToLower(direction)) == GetExit(direction)
    {
      ToLowerIdempotent(direction);
    }

    /** The directions of the exit table in the order std::map iterates
        them: ascending, each direction once. */
    method GetExits() returns (dirs: seq<string>)
      ensures StrictlyAscending(dirs)
      ensures forall d :: d in dirs <==> d in exits
      ensures |dirs| == |exits|
    {
      dirs := [];
      var remaining := exits.Keys;
      while remaining != {}
        invariant remaining <= exits.Keys
        invariant forall d :: d in dirs <==> d in exits && d !in remaining
        invariant StrictlyAscending(dirs)
        invariant forall i, d :: 0 <= i < |dirs| && d in remaining ==> Less(dirs[i], d)
        invariant |dirs| + |remaining| == |exits|
        decreases remaining
      {
        var m := Least(remaining);
        forall i, d | 0 <= i < |dirs| && d in remaining - {m}
          ensures Less(dirs[i], d)
        {
          LessTransitive(dirs[i], m, d);
        }
        dirs := dirs + [m];
        remaining := remaining - {m};
      }
    }

    // ---------------------------------------------------------- items

    method AddItem(item: Item)
      modifies this`items
      ensures items == old(items) + [item]
    {
      items := items + [item];
    }

    /** Removes and returns the first item whose name matches, ignoring
        case; the others keep their order. */
    method RemoveItem(itemName: string) returns (item: Option<Item>)
      modifies this`items
      ensures item == FirstMatch(old(items), itemName)
      ensures item.None? ==> items == old(items)
      ensures item.Some? ==> items == RemoveAt(old(items), FindItem(old(items), itemName).value)
    {
      var lowerName := ToLower(itemName);
      var i := 0;
      while i < |items|
        invariant 0 <= i <= |items|
        invariant forall j :: 0 <= j < i ==> !NameMatches(items[j], itemName)
      {
        if ToLower(items[i].name) == lowerName {
          FirstMatchIsUnique(items, itemName, i);
          item := Some(items[i]);
          items := items[..i] + items[i + 1..];
          return;
        }
        i := i + 1;
      }
      item := None;
    }

    method GetItem(itemName: string) returns (item: Option<Item>)
      ensures item == FirstMatch(items, itemName)
    {
      var lowerName := ToLower(itemName);
      var i := 0;
      while i < |items|
        invariant 0 <= i <= |items|
        invariant forall j :: 0 <= j < i ==> !NameMatches(items[j], itemName)
      {
        if ToLower(items[i].name) == lowerName {
          FirstMatchIsUnique(items, itemName, i);
          return Some(items[i]);
        }
        i := i + 1;
      }
      return None;
    }

    method HasItem(itemName: string) returns (found: bool)
      ensures found <==> exists i :: 0 <= i < |items| && NameMatches(items[i], itemName)
    {
      var lowerName := ToLower(itemName);
      var i := 0;
      while i < |items|
        invariant 0 <= i <= |items|
        invariant forall j :: 0 <= j < i ==> !NameMatches(items[j], itemName)
      {
        if ToLower(items[i].name) == lowerName {
          return true;
        }
        i := i + 1;
      }
      return false;
    }

    // ---------------------------------------------------------- text

    /** The room's name, then its description, or the grue warning in
        place of the description when the room is dark. */
    function FullDescription(): (s: string)
      reads this
      ensures |s| > |name| + 2 && s[..|name| + 2] == "\n" + name + "\n"
      ensures !lit ==> s[|name| + 2..] == PitchBlack
      ensures lit ==> s[|name| + 2..] == description + "\n"
    {
      "\n" + name + "\n" + (if lit then description + "\n" else PitchBlack)
    }

    /** Nothing for an empty room; otherwise the item names separated by
        commas after "You see: ". */
    method GetItemsList() returns (s: string)
      ensures items == [] ==> s == ""
      ensures items != [] ==> s == "\nYou see: " + Join(Names(items), ", ") + "\n"
    {
      if items == [] {
        return "";
      }
      ghost var names := Names(items);
      s := "\nYou see: ";
      var i := 0;
      while i < |items|
        invariant 0 <= i <= |items|
        invariant s == "\nYou see: " + Join(names[..i], ", ") + (if 0 < i < |items| then ", " else "")
      {
        assert names[..i + 1][..i] == names[..i];
        s := s + items[i].name;
        if i < |items| - 1 {
          s := s + ", ";
        }
        i := i + 1;
      }
      assert names[..|items|] == names;
      s := s + "\n";
    }
  }
}

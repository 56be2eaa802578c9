/** Commands (src/Command.cpp): how a line of input becomes a verb and its
    arguments, the verb aliases, and which handler a verb selects. The
    handlers themselves act on the game and live with it. */
module Commands {
  import opened Utils

  /** The outcome of one command: whether it succeeded, the message to
      show, and whether the game goes on. */
  datatype CommandResult = CommandResult(success: bool, message: string, continueGame: bool)

  /** A parsed command: a lower-case verb and the remaining words. */
  datatype Command = Command(verb: string, args: seq<string>)
  {
    predicate HasArgs() {
      args != []
    }

    /** The arguments joined back with single spaces; arguments that are
        words (non-empty, without a space) split back into themselves. */
    function ArgsAsString(): (s: string)
      ensures ProperTokens(args, ' ') ==> Split(s, ' ') == args
      ensures |args| == 1 ==> s == args[0]
    {
      if ProperTokens(args, ' ') then
        SplitJoin(args, ' ');
        Join(args, " ")
      else
        Join(args, " ")
    }
  }

  /** A string is blank when it has no character other than a space. */
  lemma {:induction false} WithoutEmpty(s: string, c: char)
    ensures Without(s, c) == [] <==> forall i :: 0 <= i < |s| ==> s[i] == c
    decreases |s|
  {
    if s != [] {
      WithoutEmpty(s[1..], c);
      if s[0] == c {
        assert forall i :: 1 <= i < |s| ==> s[i] == s[1..][i - 1];
      }
    }
  }

  /** Splitting yields no token exactly when the input is blank. */
  lemma SplitEmpty(s: string)
    ensures Split(s, ' ') == [] <==> AllSpaces(s)
  {
    var tokens := Split(s, ' ');
    WithoutEmpty(s, ' ');
    if tokens != [] {
      assert Concat(tokens) == tokens[0] + Concat(tokens[1..]);
      assert |Concat(tokens)| > 0;
    }
  }

  /** Command::Command: the input is trimmed and split on spaces; the first
      word, lower-cased, is the verb and the others are the arguments. */
  function ParseCommand(input: string): (cmd: Command)
    ensures cmd.verb == "" <==> AllSpaces(input)
    ensures cmd.verb == "" ==> cmd.args == []
    ensures !AllSpaces(input) ==> var tokens := Split(input, ' ');
      tokens != [] && cmd.verb == ToLower(tokens[0]) && cmd.args == tokens[1..]
    ensures forall i :: 0 <= i < |cmd.verb| ==> !IsUpper(cmd.verb[i])
    ensures ProperTokens(cmd.args, ' ')
  {
    var tokens := Split(Trim(input), ' ');
    SplitTrim(input);
    SplitEmpty(input);
    if tokens != [] then
      assert tokens[0] != [];
      Command(ToLower(tokens[0]), tokens[1..])
    else
      Command("", [])
  }

  /** Parsing a single word gives that word, lower-cased, and no arguments;
      this is how a direction reaches the move handler. */
  lemma ParseWord(word: string)
    requires word != [] && ' ' !in word
    ensures ParseCommand(word) == Command(ToLower(word), [])
  {
    SplitJoin([word], ' ');
    assert Join([word], " ") == word;
    assert !AllSpaces(word) by {
      assert word[0] != ' ';
    }
  }

  /** Upper and lower case spellings of a command parse alike, save for
      the arguments, which keep their case. */
  lemma VerbIgnoresCase(input: string)
    ensures ParseCommand(ToLower(input)).verb == ParseCommand(input).verb
  {
    var lower := ToLower(input);
    assert AllSpaces(lower) <==> AllSpaces(input);
    if !AllSpaces(input) {
      SplitLower(input, []);
    }
  }

  /** Lower-casing the input lower-cases each token of its split. */
  lemma {:induction false} SplitLower(s: string, token: string)
    ensures SplitFrom(ToLower(s), ' ', ToLower(token)) == LowerAll(SplitFrom(s, ' ', token))
    decreases |s|
  {
    if s != [] {
      var l := ToLower(s);
      assert l[0] == LowerChar(s[0]) && l[1..] == ToLower(s[1..]);
      assert l[0] == ' ' <==> s[0] == ' ';
      if s[0] == ' ' {
        SplitLower(s[1..], []);
        assert ToLower([]) == [];
        LowerAllAppend(if token == [] then [] else [token], SplitFrom(s[1..], ' ', []));
      } else {
        assert ToLower(token) + [l[0]] == ToLower(token + [s[0]]);
        SplitLower(s[1..], token + [s[0]]);
      }
    }
  }

  function LowerAll(ss: seq<string>): (r: seq<string>)
    ensures |r| == |ss|
    ensures forall i :: 0 <= i < |ss| ==> r[i] == ToLower(ss[i])
  {
    seq(|ss|, i requires 0 <= i < |ss| => ToLower(ss[i]))
  }

  lemma LowerAllAppend(a: seq<string>, b: seq<string>)
    ensures LowerAll(a + b) == LowerAll(a) + LowerAll(b)
  {
  }

  // ---------------------------------------------------------------- aliases

  /** CommandParser::setupAliases: each short form and the verb it stands for. */
  const Aliases: map<string, string> := map[
    "n" := "north", "s" := "south", "e" := "east", "w" := "west",
    "u" := "up", "d" := "down",
    "l" := "look", "x" := "examine",
    "i" := "inventory", "inv" := "inventory",
    "get" := "take", "pick" := "take",
    "q" := "quit", "exit" := "quit",
    "?" := "help",
    "kill" := "attack", "fight" := "attack"]

  /** CommandParser::normalizeVerb: an alias becomes its verb, any other
      word stays as it is. No alias stands for another alias. */
  function NormalizeVerb(verb: string): (r: string)
    ensures verb in Aliases ==> r == Aliases[verb]
    ensures verb !in Aliases ==> r == verb
    ensures r !in Aliases
  {
    if verb in Aliases then Aliases[verb] else verb
  }

  lemma NormalizeVerbIdempotent(verb: string)
    ensures NormalizeVerb(NormalizeVerb(verb)) == NormalizeVerb(verb)
  {
  }

  // ---------------------------------------------------------------- routing

  /** The handler CommandParser::parse selects. A move carries the word
      that is parsed again as the direction. */
  datatype Action =
    | NoOp
    | Move(direction: string)
    | Look | Examine | Take | Drop | ShowInventory | Use | Attack
    | ShowScore | Save | Load | Help | Quit
    | Unknown

  const Directions: set<string> := {"north", "south", "east", "west", "up", "down"}

  /** The verbs that select a handler whatever the arguments. */
  const Verbs: set<string> := Directions + {
    "look", "examine", "take", "drop", "inventory", "use", "attack",
    "score", "save", "load", "help", "quit"}

  const UnknownCommand := "I don't understand that command. Type 'help' for a list of commands."

  /** The if-chain of CommandParser::parse: nothing for an empty command, a
      move for a direction (or "go" with an argument) carrying that
      direction, the quit handler exactly for "quit" and its aliases, and the
      unknown-command reply exactly for a verb that is none of the
      recognised ones. */
  function Route(cmd: Command): (a: Action)
    ensures a == NoOp <==> cmd.verb == ""
    ensures a.Move? <==> (cmd.verb != "" &&
      (NormalizeVerb(cmd.verb) in Directions || (NormalizeVerb(cmd.verb) == "go" && cmd.HasArgs())))
    ensures a.Move? && NormalizeVerb(cmd.verb) in Directions ==> a.direction == NormalizeVerb(cmd.verb)
    ensures a.Move? && NormalizeVerb(cmd.verb) == "go" ==> a.direction == cmd.args[0]
    ensures a == Quit <==> cmd.verb != "" && NormalizeVerb(cmd.verb) == "quit"
    ensures a == Unknown <==> (cmd.verb != "" && NormalizeVerb(cmd.verb) !in Verbs &&
      !(NormalizeVerb(cmd.verb) == "go" && cmd.HasArgs()))
  {
    if cmd.verb == "" then NoOp else RouteVerb(NormalizeVerb(cmd.verb), cmd.args)
  }

  /** The branches taken on a normalized, non-empty verb: every one selects
      a handler, and the fall-through is reached exactly by the verbs that
      are not recognised. */
  function RouteVerb(verb: string, args: seq<string>): (a: Action)
    ensures a != NoOp
    ensures a.Move? <==> verb in Directions || (verb == "go" && |args| > 0)
    ensures a.Move? ==> a.direction == if verb in Directions then verb else args[0]
    ensures a == Quit <==> verb == "quit"
    ensures a == Unknown <==> verb !in Verbs && !(verb == "go" && |args| > 0)
  {
    if verb in Directions then Move(verb)
    else if verb == "go" && |args| > 0 then Move(args[0])
    else if verb == "look" then Look
    else if verb == "examine" then Examine
    else if verb == "take" then Take
    else if verb == "drop" then Drop
    else if verb == "inventory" then ShowInventory
    else if verb == "use" then Use
    else if verb == "attack" then Attack
    else if verb == "score" then ShowScore
    else if verb == "save" then Save
    else if verb == "load" then Load
    else if verb == "help" then Help
    else if verb == "quit" then Quit
    else Unknown
  }

  /** The move handler parses the word a move carries once more and
      normalizes its verb. A direction ("n", "North") heads the way it
      names; "go" heads the way its first argument names, so that "go n"
      heads north as well. */
  lemma MoveHeading(input: string)
    requires Route(ParseCommand(input)).Move?
    ensures var cmd := ParseCommand(input);
      var verb := NormalizeVerb(cmd.verb);
      NormalizeVerb(ParseCommand(Route(cmd).direction).verb)
        == if verb in Directions then verb else NormalizeVerb(ToLower(cmd.args[0]))
  {
    var cmd := ParseCommand(input);
    var verb := NormalizeVerb(cmd.verb);
    if verb in Directions {
      DirectionWord(verb);
    } else {
      ParseWord(cmd.args[0]);
    }
  }

  /** A direction parses to itself. */
  lemma DirectionWord(d: string)
    requires d in Directions
    ensures ParseCommand(d) == Command(d, [])
  {
    assert d == "north" || d == "south" || d == "east" || d == "west" || d == "up" || d == "down";
    assert forall i :: 0 <= i < |d| ==> 'a' <= d[i] <= 'z';
    PlainWord(d);
  }

  /** A non-empty word of lower-case letters parses to itself. */
  lemma PlainWord(w: string)
    requires w != [] && forall i :: 0 <= i < |w| ==> 'a' <= w[i] <= 'z'
    ensures ParseCommand(w) == Command(w, [])
  {
    assert ' ' !in w;
    ParseWord(w);
    LowerFixed(w);
  }

  /** An alias selects the same handler as the verb it stands for. */
  lemma AliasRoutesLikeVerb(alias: string, args: seq<string>)
    requires alias in Aliases
    ensures Route(Command(alias, args)) == Route(Command(Aliases[alias], args))
  {
    assert alias != "" && Aliases[alias] != "";
  }

  /** "go" with no direction is not understood. */
  lemma GoAloneUnknown()
    ensures Route(Command("go", [])) == Unknown
  {
  }

  /** The text CommandParser::getHelpText returns. `handleHelp` writes it to
      standard output and answers with an empty message; the output stream is
      not modelled, so the text is kept here as a record of what is shown. */
  const HelpText :=
    "\n=== Available Commands ===\n"
    + "Movement: north, south, east, west, up, down (or n, s, e, w, u, d)\n"
    + "Actions: look, examine <item>, take <item>, drop <item>\n"
    + "Inventory: inventory (or i, inv)\n"
    + "Combat: attack <enemy>, use <item>\n"
    + "Game: score, save, load, help, quit\n"
    + "========================\n"
}

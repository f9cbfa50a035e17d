/**
 * The REPL's command table, command lookup and help text
 * (setup/src/repl/commands.rs).
 */
module ReplCommands {
  import opened Wrappers
  import opened Text

  datatype CommandId = Help | ListEvents | GetAvailableGolfers | PickBettors | SetGolfersByBettor | SetupEvent | Exit | Quit
  datatype SubcommandId = SubHelp | Refresh

  datatype ReplSubcommand = ReplSubcommand(id: SubcommandId, name: string, description: string)
  datatype ReplCommand = ReplCommand(id: CommandId, name: string, description: string,
    aliases: seq<string>, subcommands: seq<ReplSubcommand>)

  const LIST_EVENTS_SUBCOMMANDS: seq<ReplSubcommand> := [
    ReplSubcommand(SubHelp, "help", "display this help screen"),
    ReplSubcommand(Refresh, "refresh", "if passed, hit espn api again to refresh current events.")
  ]

  const REPL_COMMANDS: seq<ReplCommand> := [
    ReplCommand(Help, "help", "Show this help.", ["?", "-h", "--help"], []),
    ReplCommand(ListEvents, "list_events", "List events on ESPN API.", [], LIST_EVENTS_SUBCOMMANDS),
    ReplCommand(GetAvailableGolfers, "get_available_golfers", "Prompt for event IDs to use for golfers.", [], []),
    ReplCommand(PickBettors, "pick_bettors", "Prompt for bettor names.", [], []),
    ReplCommand(SetGolfersByBettor, "set_golfers_by_bettor", "Prompt for golfers for each bettor.", [], []),
    ReplCommand(SetupEvent, "setup_event", "Guide setup and write a new EUP event JSON.", [], []),
    ReplCommand(Exit, "exit", "Exit the REPL.", [], []),
    ReplCommand(Quit, "quit", "Exit the REPL.", [], [])
  ]

  predicate Answers(c: ReplCommand, name: string) {
    c.name == name || name in c.aliases
  }

  /** Command i is the first of the table that answers to the name. */
  predicate FirstAnswering(commands: seq<ReplCommand>, i: int, name: string) {
    0 <= i < |commands| && Answers(commands[i], name) && forall j :: 0 <= j < i ==> !Answers(commands[j], name)
  }

  /** The first command of the table that answers to the name. */
  function FindIn(commands: seq<ReplCommand>, name: string): (r: Option<ReplCommand>)
    ensures r.None? <==> forall i :: 0 <= i < |commands| ==> !Answers(commands[i], name)
    ensures r.Some? ==> exists i :: FirstAnswering(commands, i, name) && commands[i] == r.value
  {
    if |commands| == 0 then None
    else if Answers(commands[0], name) then
      assert FirstAnswering(commands, 0, name);
      Some(commands[0])
    else
      var r := FindIn(commands[1..], name);
      assert r.Some? ==> exists i :: FirstAnswering(commands, i, name) && commands[i] == r.value by {
        if r.Some? {
          var i :| FirstAnswering(commands[1..], i, name) && commands[1..][i] == r.value;
          assert FirstAnswering(commands, i + 1, name);
        }
      }
      r
  }

  /** The command found is the first that answers. */
  lemma FindInFirst(commands: seq<ReplCommand>, i: int, name: string)
    requires FirstAnswering(commands, i, name)
    ensures FindIn(commands, name) == Some(commands[i])
  {
    assert FindIn(commands, name).Some?;
    var k :| FirstAnswering(commands, k, name) && commands[k] == FindIn(commands, name).value;
    assert k == i;
  }

  /** `find_command`. */
  function FindCommand(name: string): Option<ReplCommand> {
    FindIn(REPL_COMMANDS, name)
  }

  /** `find_subcommand`: the first subcommand with that name; aliases play no part. */
  function FindSubcommand(subcommands: seq<ReplSubcommand>, name: string): (r: Option<ReplSubcommand>)
    ensures r.None? <==> forall i :: 0 <= i < |subcommands| ==> subcommands[i].name != name
    ensures r.Some? ==> r.value in subcommands && r.value.name == name
  {
    if |subcommands| == 0 then None
    else if subcommands[0].name == name then Some(subcommands[0])
    else FindSubcommand(subcommands[1..], name)
  }

  /** No two commands share a name, and no alias is another command's name. */
  lemma NamesUnique()
    ensures forall j, k :: 0 <= j < k < |REPL_COMMANDS| ==> REPL_COMMANDS[j].name != REPL_COMMANDS[k].name
    ensures forall k :: 0 < k < |REPL_COMMANDS| ==> REPL_COMMANDS[k].aliases == []
    ensures forall k :: 0 <= k < |REPL_COMMANDS| ==> REPL_COMMANDS[k].name !in REPL_COMMANDS[0].aliases
  {
  }

  /** Each command is found by its own name, and by each of its aliases. */
  lemma FindCommandByName(i: int)
    requires 0 <= i < |REPL_COMMANDS|
    ensures FindCommand(REPL_COMMANDS[i].name) == Some(REPL_COMMANDS[i])
    ensures forall a :: a in REPL_COMMANDS[i].aliases ==> FindCommand(a) == Some(REPL_COMMANDS[i])
  {
    NamesUnique();
    FindInFirst(REPL_COMMANDS, i, REPL_COMMANDS[i].name);
    forall a | a in REPL_COMMANDS[i].aliases
      ensures FindCommand(a) == Some(REPL_COMMANDS[i])
    {
      FindInFirst(REPL_COMMANDS, 0, a);
    }
  }

  /** "?", "-h" and "--help" all resolve to Help. */
  lemma HelpAliases()
    ensures FindCommand("?").Some? && FindCommand("?").value.id == Help
    ensures FindCommand("-h").Some? && FindCommand("-h").value.id == Help
    ensures FindCommand("--help").Some? && FindCommand("--help").value.id == Help
  {
    assert REPL_COMMANDS[0].aliases == ["?", "-h", "--help"];
    FindInFirst(REPL_COMMANDS, 0, "?");
    FindInFirst(REPL_COMMANDS, 0, "-h");
    FindInFirst(REPL_COMMANDS, 0, "--help");
  }

  /** The refresh subcommand is found by name only. */
  lemma SubcommandByName()
    ensures FindSubcommand(LIST_EVENTS_SUBCOMMANDS, "refresh") == Some(LIST_EVENTS_SUBCOMMANDS[1])
    ensures FindSubcommand(LIST_EVENTS_SUBCOMMANDS, "r").None?
  {
  }

  // ----- help text -----

  /** A command's names: its name, then its aliases, comma-separated. */
  function Names(c: ReplCommand): string {
    if |c.aliases| == 0 then c.name else Join([c.name] + c.aliases, ", ")
  }

  /** `22usize.saturating_sub(len).max(2)`. */
  function Padding(len: nat): (n: nat)
    ensures n >= 2
  {
    var padding := if len < 22 then 22 - len else 0;
    if padding < 2 then 2 else padding
  }

  /** Descriptions start at column 24, or two spaces after names longer than 20 characters. */
  lemma DescriptionColumn(c: ReplCommand)
    ensures |"  " + Names(c) + Repeat(' ', Padding(|Names(c)|))| == if |Names(c)| <= 20 then 24 else |Names(c)| + 4
  {
  }

  /** One help line. */
  function HelpLine(c: ReplCommand): string {
    "  " + Names(c) + Repeat(' ', Padding(|Names(c)|)) + c.description
  }

  /** The help text of a table: the heading, then a line per command. */
  function HelpText(commands: seq<ReplCommand>): string {
    if |commands| == 0 then "Commands:"
    else
      var n := |commands| - 1;
      HelpText(commands[..n]) + "\n" + HelpLine(commands[n])
  }

  function HelpLines(commands: seq<ReplCommand>): (r: seq<string>)
    ensures |r| == |commands| && forall i :: 0 <= i < |commands| ==> r[i] == HelpLine(commands[i])
  {
    seq(|commands|, i requires 0 <= i < |commands| => HelpLine(commands[i]))
  }

  /** `build_repl_help`: the help text of the command table. */
  method BuildReplHelp() returns (help: string)
    ensures help == HelpText(REPL_COMMANDS)
  {
    help := BuildHelp(REPL_COMMANDS);
  }

  /** The loop of `build_repl_help`, over any table. */
  method BuildHelp(commands: seq<ReplCommand>) returns (help: string)
    ensures help == HelpText(commands)
  {
    help := "Commands:";
    for i := 0 to |commands|
      invariant help == HelpText(commands[..i])
    {
      var command := commands[i];
      var names;
      if |command.aliases| == 0 {
        names := command.name;
      } else {
        var parts := [command.name] + command.aliases;
        names := Join(parts, ", ");
      }
      var padding := if |names| < 22 then 22 - |names| else 0;
      var line := "  " + names + Repeat(' ', if padding < 2 then 2 else padding) + command.description;
      assert line == HelpLine(command);
      help := help + "\n" + line;
      assert commands[..i + 1][..i] == commands[..i];
    }
    assert commands[..|commands|] == commands;
  }

  /** The help text is the heading and the command lines joined by newlines. */
  lemma {:induction false} HelpTextIsJoin(commands: seq<ReplCommand>)
    ensures HelpText(commands) == Join(["Commands:"] + HelpLines(commands), "\n")
  {
    if |commands| > 0 {
      var n := |commands| - 1;
      var prev := ["Commands:"] + HelpLines(commands[..n]);
      var line := HelpLine(commands[n]);
      HelpTextIsJoin(commands[..n]);
      HelpLinesSnoc(commands);
      JoinSnoc(prev, line, "\n");
    }
  }

  lemma HelpLinesSnoc(commands: seq<ReplCommand>)
    requires |commands| > 0
    ensures var n := |commands| - 1;
      ["Commands:"] + HelpLines(commands) == (["Commands:"] + HelpLines(commands[..n])) + [HelpLine(commands[n])]
  {
    var n := |commands| - 1;
    assert HelpLines(commands) == HelpLines(commands[..n]) + [HelpLine(commands[n])];
  }

  lemma ConsNoneMatch(x: string, rest: seq<string>, p: char -> bool)
    requires NoneMatch(x, p) && forall i :: 0 <= i < |rest| ==> NoneMatch(rest[i], p)
    ensures forall i :: 0 <= i < |[x] + rest| ==> NoneMatch(([x] + rest)[i], p)
  {
    forall i | 0 <= i < |[x] + rest|
      ensures NoneMatch(([x] + rest)[i], p)
    {
      if i > 0 {
        assert ([x] + rest)[i] == rest[i - 1];
      }
    }
  }

  lemma HeadingHasNoNewline()
    ensures NoneMatch("Commands:", IsNewline)
  {
  }

  lemma PartsHaveNoNewline(commands: seq<ReplCommand>)
    requires forall i :: 0 <= i < |commands| ==> NoneMatch(HelpLine(commands[i]), IsNewline)
    ensures forall i :: 0 <= i < |["Commands:"] + HelpLines(commands)| ==> NoneMatch((["Commands:"] + HelpLines(commands))[i], IsNewline)
  {
    var lines := HelpLines(commands);
    HeadingHasNoNewline();
    assert forall i :: 0 <= i < |lines| ==> NoneMatch(lines[i], IsNewline);
    ConsNoneMatch("Commands:", lines, IsNewline);
  }

  /** With no newline inside a command's texts, the help has the heading line and exactly one line per command. */
  lemma HelpHasOneLinePerCommand(commands: seq<ReplCommand>)
    requires forall i :: 0 <= i < |commands| ==> NoneMatch(HelpLine(commands[i]), IsNewline)
    ensures SplitBy(HelpText(commands), IsNewline) == ["Commands:"] + HelpLines(commands)
  {
    HelpTextIsJoin(commands);
    var parts := ["Commands:"] + HelpLines(commands);
    PartsHaveNoNewline(commands);
    SplitJoin(parts, '\n', IsNewline);
  }

  /** A command whose texts hold no newline gets a help line without one. */
  lemma HelpLineHasNoNewline(c: ReplCommand)
    requires NoneMatch(c.name, IsNewline) && NoneMatch(c.description, IsNewline)
    requires forall i :: 0 <= i < |c.aliases| ==> NoneMatch(c.aliases[i], IsNewline)
    ensures NoneMatch(HelpLine(c), IsNewline)
  {
    if |c.aliases| > 0 {
      ConsNoneMatch(c.name, c.aliases, IsNewline);
      JoinKeeps([c.name] + c.aliases, ", ", IsNewline);
    }
    var a := "  " + Names(c);
    var b := a + Repeat(' ', Padding(|Names(c)|));
    ConcatNoneMatch("  ", Names(c), IsNewline);
    ConcatNoneMatch(a, Repeat(' ', Padding(|Names(c)|)), IsNewline);
    ConcatNoneMatch(b, c.description, IsNewline);
  }

  lemma ConcatNoneMatch(x: string, y: string, p: char -> bool)
    requires NoneMatch(x, p) && NoneMatch(y, p)
    ensures NoneMatch(x + y, p)
  {
    assert forall i :: |x| <= i < |x + y| ==> (x + y)[i] == y[i - |x|];
  }
}

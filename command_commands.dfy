/** The `add-command`, `remove-command` and `list-commands` subcommands
    (`conda_kapsel/commands/command_commands.py`), together with the parts of
    `project_ops` and of the project load that they rely on. Console output is a
    pair of strings (standard output, standard error); the answers typed at the
    prompt are a sequence of inputs; the platform is the string `platform.system()`
    would return. */
module CommandCommands {
  import opened Wrappers
  import opened Strings
  import opened CommandTypes

  // =====================================================================
  // The command-type prompt

  /** One call of the console input: a typed line, or a keyboard interrupt. */
  datatype Input = Line(text: string) | Interrupt

  datatype AskResult = Chosen(commandType: CommandType) | Canceled | EndOfInput

  /** What the prompt settled on, how many inputs it read, and what it printed. */
  datatype Asked = Asked(result: AskResult, calls: nat, out: string)

  const HelpText: string :=
    "Please enter 'b', 'n', or 'c'.\n"
    + "    A Bokeh app is the project-relative path to a Bokeh script or app directory.\n"
    + "    A notebook file is the project-relative path to a .ipynb file.\n"
    + "    A command line is any command you might type at the command prompt.\n"

  /** The command type an answer stands for: `b`, `n` or `c`, and nothing else. */
  function AnswerType(answer: string, system: string): (r: Option<CommandType>)
    ensures r.Some? <==> answer == "b" || answer == "n" || answer == "c"
    ensures r.Some? ==> r.value != CondaAppEntry
    ensures r == Some(BokehApp) <==> answer == "b"
    ensures r == Some(Notebook) <==> answer == "n"
    ensures answer == "c" ==> r == Some(ShellType(system))
  {
    if answer == "b" then Some(BokehApp)
    else if answer == "n" then Some(Notebook)
    else if answer == "c" then Some(ShellType(system))
    else None
  }

  /** An input the prompt answers with the help text and asks again. */
  predicate Rejected(input: Input, system: string)
  {
    input.Line? && AnswerType(input.text, system).None?
  }

  /** The prompt loop as a function of the inputs: re-ask after each rejected answer,
      stop at an accepted answer, at an interrupt, or when the input runs out. */
  function Ask(system: string, inputs: seq<Input>): (a: Asked)
    ensures a.calls <= |inputs|
    ensures a.result == EndOfInput ==> a.calls == |inputs|
    ensures a.result != EndOfInput ==> a.calls > 0
    decreases |inputs|
  {
    if inputs == [] then Asked(EndOfInput, 0, "")
    else match inputs[0]
      case Interrupt => Asked(Canceled, 1, "")
      case Line(answer) =>
        match AnswerType(answer, system)
        case Some(t) => Asked(Chosen(t), 1, "")
        case None =>
          var rest := Ask(system, inputs[1..]);
          Asked(rest.result, rest.calls + 1, HelpText + rest.out)
  }

  /** How many inputs in a row, from the first, are rejected answers. */
  function LeadingRejected(system: string, inputs: seq<Input>): (k: nat)
    ensures k <= |inputs|
    ensures forall j :: 0 <= j < k ==> Rejected(inputs[j], system)
    ensures k < |inputs| ==> !Rejected(inputs[k], system)
    decreases |inputs|
  {
    if inputs != [] && Rejected(inputs[0], system) then 1 + LeadingRejected(system, inputs[1..]) else 0
  }

  /** The prompt prints the help text once per rejected answer, reads one input past
      them, and ends as that input says: cancelled on an interrupt, the answer's type
      otherwise; with no such input it runs out. */
  lemma {:induction false} AskCharacterized(system: string, inputs: seq<Input>)
    ensures var a, k := Ask(system, inputs), LeadingRejected(system, inputs);
      a.out == Repeat(HelpText, k)
      && (k == |inputs| ==> a.result == EndOfInput && a.calls == k)
      && (k < |inputs| ==>
            a.calls == k + 1
            && a.result == (match inputs[k]
                            case Interrupt => Canceled
                            case Line(answer) => Chosen(AnswerType(answer, system).value)))
    decreases |inputs|
  {
    if inputs != [] && Rejected(inputs[0], system) {
      AskCharacterized(system, inputs[1..]);
    }
  }

  /** `_ask_command`'s loop: read answers until one is `b`, `n` or `c`, printing the
      help text after each other answer; an interrupt cancels. */
  method AskCommandType(system: string, inputs: seq<Input>) returns (result: AskResult, calls: nat, out: string)
    ensures Asked(result, calls, out) == Ask(system, inputs)
  {
    calls, out := 0, "";
    while calls < |inputs|
      invariant calls <= |inputs|
      invariant Ask(system, inputs) == Asked(Ask(system, inputs[calls..]).result,
                                             calls + Ask(system, inputs[calls..]).calls,
                                             out + Ask(system, inputs[calls..]).out)
    {
      var input := inputs[calls];
      assert inputs[calls..][0] == input && inputs[calls..][1..] == inputs[calls + 1..];
      calls := calls + 1;
      match input
      case Interrupt =>
        result := Canceled;
        return;
      case Line(answer) =>
        var t := AnswerType(answer, system);
        if t.Some? {
          result := Chosen(t.value);
          return;
        }
        out := out + HelpText;
    }
    result := EndOfInput;
  }

  /** An invalid answer followed by `b`: the help text once, and two inputs read. */
  lemma AskInvalidThenBokeh(system: string)
    ensures Ask(system, [Line("-"), Line("b")]) == Asked(Chosen(BokehApp), 2, HelpText)
  {
    assert [Line("-"), Line("b")][1..] == [Line("b")];
  }

  /** Answer `c` is a Unix command line on Linux and a Windows one on Windows. */
  lemma CommandLineAnswerByPlatform()
    ensures Ask("Linux", [Line("c")]) == Asked(Chosen(Unix), 1, "")
    ensures Ask("Windows", [Line("c")]) == Asked(Chosen(Windows), 1, "")
  {
  }

  // =====================================================================
  // The project as the subcommands see it

  /** The value of the manifest's `variables` section. */
  datatype VariablesValue = NoVariables | VariablesMap | VariablesList | VariablesOther(text: string)

  /** What a loaded project fixes: its directory, the path of its manifest, the
      project-relative files present, the `variables` value and the default
      environment spec name. */
  datatype ProjectInfo = ProjectInfo(
    directory: string,
    filename: string,
    files: set<string>,
    variables: VariablesValue,
    defaultEnvSpec: string)

  /** `--type`: a command type, or `ask`. */
  datatype TypeArg = Given(commandType: CommandType) | AskForType

  datatype AddArgs = AddArgs(name: string, requested: Option<TypeArg>, command: string, envSpec: Option<string>)

  /** Whether standard input is interactive, the platform, and the answers typed. */
  datatype Console = Console(interactive: bool, system: string, inputs: seq<Input>)

  /** The exit code, standard output, standard error, and whether the process
      was ended by `SystemExit` rather than by returning the code. */
  datatype Run = Run(code: int, out: string, err: string, exited: bool)

  datatype Outcome = Outcome(run: Run, calls: nat, commands: map<string, Attrs>)

  function VariablesProblem(text: string): string
  {
    "variables section contains wrong value type " + text + ", should be dict or list of requirements"
  }

  /** The problems loading the project reports (the `commands` section is kept
      well formed by the project invariant). */
  function LoadProblems(info: ProjectInfo): (r: seq<string>)
    ensures r == [] <==> !info.variables.VariablesOther?
  {
    match info.variables
    case VariablesOther(text) => [VariablesProblem(text)]
    case _ => []
  }

  /** `print_project_problems`: each problem, then the load failure, on standard error. */
  function LoadFailure(problems: seq<string>): Run
  {
    Run(1, "", Lines(problems) + "Unable to load the project.\n", false)
  }

  predicate ValidCommands(commands: map<string, Attrs>)
  {
    forall name :: name in commands ==> CommandProblems(name, commands[name]) == []
  }

  /** Each problem prefixed with the manifest's path, one per line. */
  function FileProblems(filename: string, problems: seq<string>): string
  {
    if problems == [] then "" else filename + ": " + problems[0] + "\n" + FileProblems(filename, problems[1..])
  }

  // ---------------------------------------------------------------------
  // add-command

  /** The entry `project_ops.add_command` writes: the existing entry (if any) with the
      command stored under its type's key, and `env_spec` set to the given name, or else
      kept, or else the project's default. */
  function NewEntry(existing: Option<Attrs>, t: CommandType, command: string, envSpec: Option<string>,
                    defaultEnvSpec: string): (r: Attrs)
    ensures r.Keys == (if existing.Some? then existing.value.Keys else {}) + {Key(t), "env_spec"}
    ensures r[Key(t)] == command
    ensures envSpec.Some? ==> r["env_spec"] == envSpec.value
    ensures envSpec.None? && existing.Some? && "env_spec" in existing.value ==> r["env_spec"] == existing.value["env_spec"]
    ensures envSpec.None? && (existing.None? || "env_spec" !in existing.value) ==> r["env_spec"] == defaultEnvSpec
    ensures forall k :: k in r && k != Key(t) && k != "env_spec" ==> existing.Some? && r[k] == existing.value[k]
  {
    var base := if existing.Some? then existing.value else map[];
    var withCommand := base[Key(t) := command];
    if envSpec.Some? then withCommand["env_spec" := envSpec.value]
    else if "env_spec" in withCommand then withCommand
    else withCommand["env_spec" := defaultEnvSpec]
  }

  function AddedMessage(name: string): string
  {
    "Added a command '" + name + "' to the project. Run it with `conda-kapsel run " + name + "`.\n"
  }

  const NoTypeMessage: string := "Specify the --type option to add this command.\n"

  const CancelMessage: string := "\nCanceling\n\n"

  /** The type to use before asking: the given one, or `notebook` for a `.ipynb`
      file that exists in the project. */
  function GuessType(info: ProjectInfo, args: AddArgs): (r: Option<TypeArg>)
    ensures args.requested.Some? ==> r == args.requested
    ensures args.requested.None? ==>
      (r == Some(Given(Notebook)) <==> EndsWith(args.command, ".ipynb") && args.command in info.files)
    ensures args.requested.None? && r != Some(Given(Notebook)) ==> r.None?
  {
    if args.requested.None? && EndsWith(args.command, ".ipynb") && args.command in info.files
    then Some(Given(Notebook))
    else args.requested
  }

  /** The entry the command is stored in: the existing one under that name, merged. */
  function MergedEntry(info: ProjectInfo, commands: map<string, Attrs>, args: AddArgs, t: CommandType): Attrs
  {
    var existing := if args.name in commands then Some(commands[args.name]) else None;
    NewEntry(existing, t, args.command, args.envSpec, info.defaultEnvSpec)
  }

  /** Store the merged entry if it is well formed; otherwise report its problem, prefixed
      with the manifest's path, and change nothing. */
  function StoreCommand(info: ProjectInfo, commands: map<string, Attrs>, args: AddArgs, t: CommandType,
                        calls: nat, out: string): (o: Outcome)
    ensures o.calls == calls
    ensures o.run.code == 0 ==> o.commands == commands[args.name := MergedEntry(info, commands, args, t)]
    ensures o.run.code != 0 ==> o.commands == commands
    ensures o.commands.Keys <= commands.Keys + {args.name}
    ensures forall n :: n in commands && n != args.name ==> n in o.commands && o.commands[n] == commands[n]
  {
    var entry := MergedEntry(info, commands, args, t);
    var problems := CommandProblems(args.name, entry);
    if problems == [] then Outcome(Run(0, out + AddedMessage(args.name), "", false), calls, commands[args.name := entry])
    else Outcome(Run(1, out, FileProblems(info.filename, problems) + "Unable to add the command.\n", false), calls, commands)
  }

  /** `add-command` from start to end, as a function of the project, the arguments
      and the console: it keeps a valid project valid, touches at most the named entry,
      and changes nothing when it fails. */
  function AddCommandResult(info: ProjectInfo, commands: map<string, Attrs>, args: AddArgs, console: Console): (o: Outcome)
    ensures ValidCommands(commands) ==> ValidCommands(o.commands)
    ensures o.commands.Keys <= commands.Keys + {args.name}
    ensures forall n :: n in commands && n != args.name ==> n in o.commands && o.commands[n] == commands[n]
    ensures o.run.code != 0 ==> o.commands == commands
  {
    if LoadProblems(info) != [] then Outcome(LoadFailure(LoadProblems(info)), 0, commands)
    else match GuessType(info, args)
      case Some(Given(t)) =>
        StoreKeepsProjectValid(info, commands, args, t, 0, "");
        StoreCommand(info, commands, args, t, 0, "")
      case _ => AskThenStore(info, commands, args, console)
  }

  /** Without a type: refuse on a non-interactive console, otherwise ask and store what
      was chosen. */
  function AskThenStore(info: ProjectInfo, commands: map<string, Attrs>, args: AddArgs, console: Console): (o: Outcome)
    ensures ValidCommands(commands) ==> ValidCommands(o.commands)
    ensures o.commands.Keys <= commands.Keys + {args.name}
    ensures forall n :: n in commands && n != args.name ==> n in o.commands && o.commands[n] == commands[n]
    ensures o.run.code != 0 ==> o.commands == commands
  {
    if !console.interactive then Outcome(Run(1, "", NoTypeMessage, false), 0, commands)
    else
      var asked := Ask(console.system, console.inputs);
      match asked.result
      case Chosen(t) =>
        StoreKeepsProjectValid(info, commands, args, t, asked.calls, asked.out);
        StoreCommand(info, commands, args, t, asked.calls, asked.out)
      case Canceled => Outcome(Run(1, asked.out, CancelMessage, true), asked.calls, commands)
      case EndOfInput => Outcome(Run(1, asked.out, "", false), asked.calls, commands)
  }

  /** With a type given (or guessed), `add-command` merges into the named entry, new or
      existing: it succeeds exactly when the merged entry is well formed and then stores
      it; otherwise it reports the entry's problem and leaves the project alone. */
  lemma AddWithType(info: ProjectInfo, commands: map<string, Attrs>, args: AddArgs, console: Console, t: CommandType)
    requires LoadProblems(info) == [] && GuessType(info, args) == Some(Given(t))
    ensures var entry, o := MergedEntry(info, commands, args, t), AddCommandResult(info, commands, args, console);
      o.calls == 0
      && (o.run.code == 0 <==> WellFormed(entry))
      && (WellFormed(entry) ==>
            o.run == Run(0, AddedMessage(args.name), "", false) && o.commands == commands[args.name := entry])
      && (!WellFormed(entry) ==>
            o.run == Run(1, "", FileProblems(info.filename, CommandProblems(args.name, entry))
                                + "Unable to add the command.\n", false)
            && o.commands == commands)
  {
    StoreOutcome(info, commands, args, t, 0, "");
    assert "" + AddedMessage(args.name) == AddedMessage(args.name);
  }

  /** The same for a type chosen at the prompt, after the help texts it printed. */
  lemma AddWithAnswer(info: ProjectInfo, commands: map<string, Attrs>, args: AddArgs, console: Console, t: CommandType)
    requires LoadProblems(info) == [] && console.interactive
    requires GuessType(info, args) == None || GuessType(info, args) == Some(AskForType)
    requires Ask(console.system, console.inputs).result == Chosen(t)
    ensures var entry, o := MergedEntry(info, commands, args, t), AddCommandResult(info, commands, args, console);
      var asked := Ask(console.system, console.inputs);
      o.calls == asked.calls
      && (o.run.code == 0 <==> WellFormed(entry))
      && (WellFormed(entry) ==>
            o.run == Run(0, asked.out + AddedMessage(args.name), "", false)
            && o.commands == commands[args.name := entry])
      && (!WellFormed(entry) ==>
            o.run == Run(1, asked.out, FileProblems(info.filename, CommandProblems(args.name, entry))
                                       + "Unable to add the command.\n", false)
            && o.commands == commands)
  {
    StoreOutcome(info, commands, args, t, Ask(console.system, console.inputs).calls,
                 Ask(console.system, console.inputs).out);
  }

  /** An entry holding one command type (and any non-type keys) is well formed. */
  lemma SingleTypeWellFormed(entry: Attrs, t: CommandType)
    requires Key(t) in entry
    requires forall x :: Key(x) in entry ==> x == t
    ensures WellFormed(entry)
  {
  }

  /** A fresh entry has exactly its type's key and `env_spec`, so it is well formed. */
  lemma FreshEntryWellFormed(t: CommandType, command: string, envSpec: Option<string>, defaultEnvSpec: string)
    ensures var entry := NewEntry(None, t, command, envSpec, defaultEnvSpec);
      entry == map[Key(t) := command, "env_spec" := envSpec.GetOr(defaultEnvSpec)]
      && |entry.Keys| == 2 && WellFormed(entry)
  {
    var entry := NewEntry(None, t, command, envSpec, defaultEnvSpec);
    assert entry == map[Key(t) := command, "env_spec" := envSpec.GetOr(defaultEnvSpec)];
    forall x | Key(x) in entry
      ensures x == t
    {
      KeyInjective(x, t);
    }
    SingleTypeWellFormed(entry, t);
    assert entry.Keys == {Key(t), "env_spec"};
  }

  lemma UpdateKeepsValid(commands: map<string, Attrs>, name: string, entry: Attrs)
    requires ValidCommands(commands) && CommandProblems(name, entry) == []
    ensures ValidCommands(commands[name := entry])
  {
    var updated := commands[name := entry];
    forall n | n in updated
      ensures CommandProblems(n, updated[n]) == []
    {
      if n != name {
        assert updated[n] == commands[n];
      }
    }
  }

  /** Storing succeeds exactly when the merged entry is well formed, and then stores it;
      otherwise it reports the entry's problem after what was already printed. */
  lemma StoreOutcome(info: ProjectInfo, commands: map<string, Attrs>, args: AddArgs, t: CommandType,
                     calls: nat, out: string)
    ensures var entry, o := MergedEntry(info, commands, args, t), StoreCommand(info, commands, args, t, calls, out);
      (o.run.code == 0 <==> WellFormed(entry))
      && (WellFormed(entry) ==>
            o.run == Run(0, out + AddedMessage(args.name), "", false) && o.commands == commands[args.name := entry])
      && (!WellFormed(entry) ==>
            o.run == Run(1, out, FileProblems(info.filename, CommandProblems(args.name, entry))
                                 + "Unable to add the command.\n", false)
            && o.commands == commands)
  {
  }

  /** Storing leaves the project valid. */
  lemma StoreKeepsProjectValid(info: ProjectInfo, commands: map<string, Attrs>, args: AddArgs, t: CommandType,
                               calls: nat, out: string)
    ensures ValidCommands(commands) ==> ValidCommands(StoreCommand(info, commands, args, t, calls, out).commands)
  {
    var entry := MergedEntry(info, commands, args, t);
    if ValidCommands(commands) && CommandProblems(args.name, entry) == [] {
      UpdateKeepsValid(commands, args.name, entry);
    }
  }

  /** Without `--type`, a project file that is not interactive gets no command. */
  lemma AddNotInteractive(info: ProjectInfo, commands: map<string, Attrs>, args: AddArgs, console: Console)
    requires LoadProblems(info) == [] && !console.interactive
    requires GuessType(info, args) == None || GuessType(info, args) == Some(AskForType)
    ensures AddCommandResult(info, commands, args, console) == Outcome(Run(1, "", NoTypeMessage, false), 0, commands)
  {
  }

  /** Answering the prompt with `k` rejected answers and then `b`, `n` or `c` stores a
      fresh command as exactly two keys: the answer's type and `env_spec`. */
  lemma AddAnswered(info: ProjectInfo, commands: map<string, Attrs>, args: AddArgs, console: Console)
    requires LoadProblems(info) == [] && console.interactive && args.name !in commands
    requires GuessType(info, args) == None || GuessType(info, args) == Some(AskForType)
    requires var k := LeadingRejected(console.system, console.inputs);
      k < |console.inputs| && console.inputs[k].Line?
    ensures var k := LeadingRejected(console.system, console.inputs);
      var t := AnswerType(console.inputs[k].text, console.system).value;
      var o := AddCommandResult(info, commands, args, console);
      o.run == Run(0, Repeat(HelpText, k) + AddedMessage(args.name), "", false)
      && o.calls == k + 1
      && o.commands == commands[args.name := map[Key(t) := args.command,
                                                 "env_spec" := args.envSpec.GetOr(info.defaultEnvSpec)]]
      && |o.commands[args.name].Keys| == 2
  {
    var k := LeadingRejected(console.system, console.inputs);
    AskCharacterized(console.system, console.inputs);
    var t := AnswerType(console.inputs[k].text, console.system).value;
    FreshEntryWellFormed(t, args.command, args.envSpec, info.defaultEnvSpec);
  }

  /** An interrupt at the prompt, after `k` rejected answers, ends the process with
      code 1, `"\nCanceling\n\n"` on standard error and the project unchanged. */
  lemma AddInterrupted(info: ProjectInfo, commands: map<string, Attrs>, args: AddArgs, console: Console)
    requires LoadProblems(info) == [] && console.interactive
    requires GuessType(info, args) == None || GuessType(info, args) == Some(AskForType)
    requires var k := LeadingRejected(console.system, console.inputs);
      k < |console.inputs| && console.inputs[k] == Interrupt
    ensures var k := LeadingRejected(console.system, console.inputs);
      AddCommandResult(info, commands, args, console)
        == Outcome(Run(1, Repeat(HelpText, k), "\nCanceling\n\n", true), k + 1, commands)
  {
    AskCharacterized(console.system, console.inputs);
  }

  /** Without `--type`, a `.ipynb` file present in the project is added as a notebook,
      whatever the console would say, with the given or the default env spec. */
  lemma AddGuessesNotebook(info: ProjectInfo, commands: map<string, Attrs>, args: AddArgs, console: Console)
    requires LoadProblems(info) == [] && args.name !in commands
    requires args.requested.None? && EndsWith(args.command, ".ipynb") && args.command in info.files
    ensures var o := AddCommandResult(info, commands, args, console);
      o.run == Run(0, AddedMessage(args.name), "", false) && o.calls == 0
      && o.commands == commands[args.name := map["notebook" := args.command,
                                                 "env_spec" := args.envSpec.GetOr(info.defaultEnvSpec)]]
  {
    assert GuessType(info, args) == Some(Given(Notebook));
    assert Key(Notebook) == "notebook";
    FreshStored(info, commands, args, console, Notebook);
  }

  lemma SingleFileProblem(filename: string, problem: string)
    ensures FileProblems(filename, [problem]) == filename + ": " + problem + "\n"
  {
    assert [problem][1..] == [];
  }

  lemma NotebookOntoUnixEntry(name: string, existing: Attrs, command: string, envSpec: Option<string>,
                              defaultEnvSpec: string)
    requires existing.Keys == {"unix"}
    ensures CommandProblems(name, NewEntry(Some(existing), Notebook, command, envSpec, defaultEnvSpec))
         == ["command '" + name + "' has multiple commands in it, '" + "notebook" + "' can't go with " + "'unix'"]
  {
    var entry := NewEntry(Some(existing), Notebook, command, envSpec, defaultEnvSpec);
    assert entry.Keys == {"unix", "notebook", "env_spec"};
    NotebookWithUnixProblem(name, entry);
  }

  /** With `--type`, a new command is stored under that type's key with the given
      `--env-spec`, or the default one, and nothing is asked. */
  lemma AddGiven(info: ProjectInfo, commands: map<string, Attrs>, args: AddArgs, console: Console, t: CommandType)
    requires LoadProblems(info) == [] && args.name !in commands
    requires args.requested == Some(Given(t))
    ensures var o := AddCommandResult(info, commands, args, console);
      o.run == Run(0, AddedMessage(args.name), "", false) && o.calls == 0
      && o.commands == commands[args.name := map[Key(t) := args.command,
                                                 "env_spec" := args.envSpec.GetOr(info.defaultEnvSpec)]]
      && |o.commands[args.name].Keys| == 2
  {
    FreshStored(info, commands, args, console, t);
  }

  lemma FreshStored(info: ProjectInfo, commands: map<string, Attrs>, args: AddArgs, console: Console, t: CommandType)
    requires LoadProblems(info) == [] && args.name !in commands
    requires GuessType(info, args) == Some(Given(t))
    ensures var o := AddCommandResult(info, commands, args, console);
      o.run == Run(0, AddedMessage(args.name), "", false) && o.calls == 0
      && o.commands == commands[args.name := map[Key(t) := args.command,
                                                 "env_spec" := args.envSpec.GetOr(info.defaultEnvSpec)]]
      && |o.commands[args.name].Keys| == 2
  {
    FreshEntryWellFormed(t, args.command, args.envSpec, info.defaultEnvSpec);
    AddWithType(info, commands, args, console, t);
  }

  /** Adding a notebook to a command that holds a Unix command line is refused with
      the project's problem and the project is unchanged. */
  lemma AddNotebookToUnixRefused(info: ProjectInfo, commands: map<string, Attrs>, args: AddArgs, console: Console)
    requires LoadProblems(info) == [] && ValidCommands(commands)
    requires args.requested == Some(Given(Notebook))
    requires args.name in commands && commands[args.name].Keys == {"unix"}
    ensures AddCommandResult(info, commands, args, console)
         == Outcome(Run(1, "", info.filename + ": "
                               + ("command '" + args.name + "' has multiple commands in it, '" + "notebook"
                                  + "' can't go with " + "'unix'")
                               + "\n" + "Unable to add the command.\n", false), 0, commands)
  {
    var message := "command '" + args.name + "' has multiple commands in it, '" + "notebook" + "' can't go with " + "'unix'";
    NotebookOntoUnixEntry(args.name, commands[args.name], args.command, args.envSpec, info.defaultEnvSpec);
    SingleFileProblem(info.filename, message);
    assert AddCommandResult(info, commands, args, console) == StoreCommand(info, commands, args, Notebook, 0, "");
  }

  // ---------------------------------------------------------------------
  // remove-command and the project's commands

  /** Some explicit command runs the notebook file `f`. */
  predicate RunsNotebook(commands: map<string, Attrs>, f: string)
  {
    exists n :: n in commands && "notebook" in commands[n] && commands[n]["notebook"] == f
  }

  /** A notebook file that no explicit command is named after, and that no explicit
      command runs, is a command of its own. */
  predicate AutoGenerated(info: ProjectInfo, commands: map<string, Attrs>, name: string)
  {
    name !in commands && name in info.files && EndsWith(name, ".ipynb") && !RunsNotebook(commands, name)
  }

  /** `project.commands`: the explicit commands and the auto-generated notebook ones. */
  function CommandNames(info: ProjectInfo, commands: map<string, Attrs>): (r: set<string>)
    ensures forall n :: n in r <==> n in commands || AutoGenerated(info, commands, n)
    ensures forall f :: f in info.files && EndsWith(f, ".ipynb") && RunsNotebook(commands, f) && f !in commands
                        ==> f !in r
  {
    commands.Keys + (set f | f in info.files && EndsWith(f, ".ipynb") && !RunsNotebook(commands, f))
  }

  datatype Removed = Removed(run: Run, commands: map<string, Attrs>)

  /** `remove-command` as a function of the project and the name: it succeeds exactly
      on a project that loads and an explicit command, deletes that command and nothing
      else, and changes nothing when it fails. */
  function RemoveCommandResult(info: ProjectInfo, commands: map<string, Attrs>, name: string): (r: Removed)
    ensures r.run.code == 0 <==> LoadProblems(info) == [] && name in commands
    ensures r.run.code == 0 ==> r.commands == commands - {name}
    ensures r.run.code != 0 ==> r.commands == commands
    ensures ValidCommands(commands) ==> ValidCommands(r.commands)
  {
    if LoadProblems(info) != [] then Removed(LoadFailure(LoadProblems(info)), commands)
    else if name !in CommandNames(info, commands) then
      Removed(Run(1, "", "Command: '" + name + "' not found in project file.\n", false), commands)
    else if AutoGenerated(info, commands, name) then
      Removed(Run(1, "", "Cannot remove auto-generated command: '" + name + "'.\n", false), commands)
    else
      Removed(Run(0, "Removed the command '" + name + "' from the project.\n", "", false), commands - {name})
  }

  /** The three outcomes of `remove-command` on a project that loads: an explicit
      command is deleted (and nothing else), a notebook's own command is kept and
      refused, and any other name is not found. */
  lemma RemoveOutcomes(info: ProjectInfo, commands: map<string, Attrs>, name: string)
    requires LoadProblems(info) == [] && ValidCommands(commands)
    ensures var r := RemoveCommandResult(info, commands, name);
      ValidCommands(r.commands)
      && (r.run.code == 0 <==> name in commands)
      && (name in commands ==>
            r.commands.Keys == commands.Keys - {name}
            && (forall n :: n in r.commands ==> r.commands[n] == commands[n])
            && r.run == Run(0, "Removed the command '" + name + "' from the project.\n", "", false))
      && (AutoGenerated(info, commands, name) ==>
            r.commands == commands && name in CommandNames(info, r.commands)
            && r.run == Run(1, "", "Cannot remove auto-generated command: '" + name + "'.\n", false))
      && (name !in commands && !AutoGenerated(info, commands, name) ==>
            r.commands == commands
            && r.run == Run(1, "", "Command: '" + name + "' not found in project file.\n", false))
  {
  }

  // ---------------------------------------------------------------------
  // list-commands

  /** The description shown for a command in the project. */
  function CommandDescription(info: ProjectInfo, commands: map<string, Attrs>, name: string, system: string): string
  {
    if name in commands then Description(commands[name], system) else "Notebook " + name
  }

  /** One line of `print_names_and_descriptions`. */
  function Row(name: string, description: string, width: nat): string
  {
    Pad(name, width) + "  " + description + "\n"
  }

  /** The rows for `names`, in order. */
  function Rows(info: ProjectInfo, commands: map<string, Attrs>, system: string, names: seq<string>, width: nat): string
  {
    if names == [] then ""
    else Rows(info, commands, system, names[..|names| - 1], width)
         + Row(names[|names| - 1], CommandDescription(info, commands, names[|names| - 1], system), width)
  }

  /** The loop of `print_names_and_descriptions`: one row per name, in order. */
  method PrintRows(info: ProjectInfo, commands: map<string, Attrs>, system: string, names: seq<string>, width: nat)
    returns (rows: string)
    ensures rows == Rows(info, commands, system, names, width)
  {
    rows := "";
    for i := 0 to |names|
      invariant rows == Rows(info, commands, system, names[..i], width)
    {
      assert names[..i + 1][..i] == names[..i];
      rows := rows + Row(names[i], CommandDescription(info, commands, names[i], system), width);
    }
    assert names[..|names|] == names;
  }

  /** `list-commands` as a function of the project: it fails exactly when the project
      does not load, and prints the fixed line for a project without commands exactly
      when there are none. */
  function ListCommandsResult(info: ProjectInfo, commands: map<string, Attrs>, system: string): (run: Run)
    ensures run.code == 0 <==> LoadProblems(info) == []
    ensures LoadProblems(info) == [] ==> run.err == ""
    ensures LoadProblems(info) == [] ==>
      (run.out == "No commands found for project: " + info.directory + "\n\n" <==> CommandNames(info, commands) == {})
  {
    if LoadProblems(info) != [] then LoadFailure(LoadProblems(info))
    else
      var names := SortedSet(CommandNames(info, commands));
      if names == [] then Run(0, "No commands found for project: " + info.directory + "\n\n", "", false)
      else
        var width := MaxLength(names);
        var out := "Commands for project: " + info.directory + "\n\n"
                   + Row("Name", "Description", width) + Row("====", "===========", width)
                   + Rows(info, commands, system, names, width);
        assert out[0] == 'C' && ("No commands found for project: " + info.directory + "\n\n")[0] == 'N';
        Run(0, out, "", false)
  }

  lemma TwoNamesSorted(a: string, b: string)
    requires LexLess(a, b)
    ensures SortedSet({a, b}) == [a, b]
  {
    var r := SortedSet({a, b});
    LexLessAsymmetric(a, b);
    LexLessIrreflexive(a);
    LexLessIrreflexive(b);
    assert r[0] in {a, b} && r[1] in {a, b};
  }

  lemma HeaderRows()
    ensures Row("Name", "Description", 12) == "Name          Description\n"
    ensures Row("====", "===========", 12) == "====          ===========\n"
  {
  }

  lemma TwoRows(info: ProjectInfo, commands: map<string, Attrs>)
    requires commands == map["default" := map["bokeh_app" := "test.py"], "run_notebook" := map["notebook" := "test.ipynb"]]
    ensures Rows(info, commands, "Linux", ["default", "run_notebook"], 12)
         == "default       Bokeh app test.py\n" + "run_notebook  Notebook test.ipynb\n"
  {
    var names := ["default", "run_notebook"];
    assert names[..1] == ["default"];
    assert ["default"][..0] == [];
    TwoDescriptions(info, commands);
    DefaultRow();
    NotebookRow();
    assert Rows(info, commands, "Linux", ["default"], 12) == "" + Row("default", "Bokeh app test.py", 12);
  }

  lemma TwoDescriptions(info: ProjectInfo, commands: map<string, Attrs>)
    requires commands == map["default" := map["bokeh_app" := "test.py"], "run_notebook" := map["notebook" := "test.ipynb"]]
    ensures CommandDescription(info, commands, "default", "Linux") == "Bokeh app test.py"
    ensures CommandDescription(info, commands, "run_notebook", "Linux") == "Notebook test.ipynb"
  {
    assert commands["default"] == map["bokeh_app" := "test.py"];
    assert commands["run_notebook"] == map["notebook" := "test.ipynb"];
  }

  lemma DefaultRow()
    ensures Row("default", "Bokeh app test.py", 12) == "default       Bokeh app test.py\n"
  {
  }

  lemma NotebookRow()
    ensures Row("run_notebook", "Notebook test.ipynb", 12) == "run_notebook  Notebook test.ipynb\n"
  {
  }

  /** A project with a Bokeh app `default` and a notebook `run_notebook` lists both,
      in name order, under the fixed header, padded to the longest name. */
  lemma ListTwoCommands(info: ProjectInfo, commands: map<string, Attrs>)
    requires LoadProblems(info) == [] && info.files == {"kapsel.yml"}
    requires commands == map["default" := map["bokeh_app" := "test.py"], "run_notebook" := map["notebook" := "test.ipynb"]]
    ensures ListCommandsResult(info, commands, "Linux")
         == Run(0, "Commands for project: " + info.directory + "\n\n"
                   + "Name          Description\n" + "====          ===========\n"
                   + ("default       Bokeh app test.py\n" + "run_notebook  Notebook test.ipynb\n"), "", false)
  {
    assert !EndsWith("kapsel.yml", ".ipynb");
    assert CommandNames(info, commands) == {"default", "run_notebook"};
    assert LexLess("default", "run_notebook");
    TwoNamesSorted("default", "run_notebook");
    assert MaxLength(["default", "run_notebook"]) == 12;
    HeaderRows();
    TwoRows(info, commands);
  }

  /** The same load failure, `"<problem>\nUnable to load the project.\n"` on standard
      error and nothing else, ends each of the three subcommands. */
  lemma LoadFailureEverywhere(info: ProjectInfo, commands: map<string, Attrs>, args: AddArgs, console: Console,
                              name: string, system: string)
    requires info.variables.VariablesOther?
    ensures var expected := Run(1, "", VariablesProblem(info.variables.text) + "\n" + "Unable to load the project.\n", false);
      AddCommandResult(info, commands, args, console) == Outcome(expected, 0, commands)
      && RemoveCommandResult(info, commands, name) == Removed(expected, commands)
      && ListCommandsResult(info, commands, system) == expected
  {
    assert Lines([VariablesProblem(info.variables.text)]) == VariablesProblem(info.variables.text) + "\n";
  }

  // =====================================================================
  // The project object the subcommands update

  class Project {
    const info: ProjectInfo
    /** The manifest's `commands` section. */
    var commands: map<string, Attrs>

    ghost predicate Valid()
      reads this
    {
      ValidCommands(commands)
    }

    constructor (info: ProjectInfo, commands: map<string, Attrs>)
      requires ValidCommands(commands)
      ensures Valid() && this.info == info && this.commands == commands
    {
      this.info := info;
      this.commands := commands;
    }

    /** `command_commands.main`: load, choose the type (guess, or ask), then add. */
    method AddCommand(args: AddArgs, console: Console) returns (run: Run, calls: nat)
      requires Valid()
      modifies this
      ensures Valid()
      ensures Outcome(run, calls, commands) == AddCommandResult(info, old(commands), args, console)
    {
      calls := 0;
      var problems := LoadProblems(info);
      if problems != [] {
        run := LoadFailure(problems);
        return;
      }
      var out := "";
      var t: CommandType;
      var requested := GuessType(info, args);
      if requested.Some? && requested.value.Given? {
        t := requested.value.commandType;
      } else if !console.interactive {
        run := Run(1, "", NoTypeMessage, false);
        return;
      } else {
        var result;
        result, calls, out := AskCommandType(console.system, console.inputs);
        match result
        case Canceled =>
          run := Run(1, out, CancelMessage, true);
          return;
        case EndOfInput =>
          run := Run(1, out, "", false);
          return;
        case Chosen(chosen) =>
          t := chosen;
      }
      assert AddCommandResult(info, commands, args, console) == StoreCommand(info, commands, args, t, calls, out);
      var existing := if args.name in commands then Some(commands[args.name]) else None;
      var entry := NewEntry(existing, t, args.command, args.envSpec, info.defaultEnvSpec);
      var entryProblems := CommandProblems(args.name, entry);
      if entryProblems == [] {
        UpdateKeepsValid(commands, args.name, entry);
        commands := commands[args.name := entry];
        run := Run(0, out + AddedMessage(args.name), "", false);
      } else {
        run := Run(1, out, FileProblems(info.filename, entryProblems) + "Unable to add the command.\n", false);
      }
    }

    /** `command_commands.main_remove` */
    method RemoveCommand(name: string) returns (run: Run)
      requires Valid()
      modifies this
      ensures Valid()
      ensures Removed(run, commands) == RemoveCommandResult(info, old(commands), name)
    {
      var problems := LoadProblems(info);
      if problems != [] {
        run := LoadFailure(problems);
      } else if name !in CommandNames(info, commands) {
        run := Run(1, "", "Command: '" + name + "' not found in project file.\n", false);
      } else if AutoGenerated(info, commands, name) {
        run := Run(1, "", "Cannot remove auto-generated command: '" + name + "'.\n", false);
      } else {
        commands := commands - {name};
        run := Run(0, "Removed the command '" + name + "' from the project.\n", "", false);
      }
    }

    /** `command_commands.main_list`: the header, then one row per command in name order. */
    method ListCommands(system: string) returns (run: Run)
      ensures run == ListCommandsResult(info, commands, system)
    {
      var problems := LoadProblems(info);
      if problems != [] {
        return LoadFailure(problems);
      }
      var names := SortedSet(CommandNames(info, commands));
      if names == [] {
        return Run(0, "No commands found for project: " + info.directory + "\n\n", "", false);
      }
      var width := MaxLength(names);
      var rows := PrintRows(info, commands, system, names, width);
      run := Run(0, "Commands for project: " + info.directory + "\n\n"
                    + Row("Name", "Description", width) + Row("====", "===========", width) + rows, "", false);
    }
  }
}

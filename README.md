# conda-kapsel: requirements and the command subcommands, in Dafny

This project models two parts of conda-kapsel, the tool that runs data-science
projects described by a `kapsel.yml` manifest.

**Requirements.** A project declares requirements on environment variables.
- The plugin registry maps a variable name, or a service type name, to the requirement class that handles it.
- A requirement is *encrypted* (a secret):
  - when its name ends in `_PASSWORD`, `_SECRET` or `_SECRET_KEY`;
  - unless an explicit `encrypted` option says otherwise.
- `check_status` reports whether the variable holds a value. An empty string counts as unset.
- Both the requirement and its status have a fixed `repr` text.
- `UserConfigOverrides` carries the environment spec the user chose on the command line.

**Command subcommands.** `add-command`, `remove-command` and `list-commands` edit and show the manifest's `commands` section.
- `add-command` takes its command type from `--type`. Without `--type` it:
  - guesses `notebook` for a `.ipynb` file that exists in the project;
  - otherwise asks at the console (`b`, `n` or `c`), repeating a help text after each other answer;
  - maps `c` to the platform's shell type (`windows` on Windows, `unix` elsewhere);
  - cancels on an interrupt.
- The new entry gets an `env_spec`: the one given, the one already there, or the project's default.
- The entry is stored only if the project still validates. Otherwise the problem is printed and nothing changes.
- `remove-command` deletes an explicit command. It refuses a notebook's auto-generated command and reports an unknown name.
- `list-commands` prints the commands in name order, padded to the longest name, under a fixed header.
- A project that fails to load makes all three subcommands print the problem and exit with 1.

Modules:

- `Wrappers` (`wrappers.dfy`): `Option`.
- `Strings` (`strings.dfy`):
  - suffix tests, padding and repetition;
  - Python's ordering of strings (lexicographic by code point) and `sorted` on a set;
  - Python's `repr` of a `str`.
- `Requirements` (`requirement.dfy`): requirements, statuses, overrides, `encrypted`, `check_status` and the `repr` forms.
- `Registry` (`registry.dfy`):
  - the plugin registry, passed as an explicit catalog of service types;
  - the built-in catalog holds `redis` / `REDIS_URL`.
- `CommandTypes` (`command_types.dfy`): command types, the per-command checks a project load applies, and command descriptions.
- `CommandCommands` (`command_commands.dfy`):
  - the prompt loop, as the method `AskCommandType`, proved against the function `Ask`;
  - each subcommand as a function of the project and console;
  - a `Project` class whose methods update its `commands` field and keep the invariant that every command passes the load checks.

Each module's doc comment names the upstream file that implements it. Those
implementation files are not part of this model; only their two test modules,
`conda_kapsel/plugins/test/test_requirement.py` and
`conda_kapsel/commands/test/test_command_commands.py`, are. The model does what those
tests pin. Where they are silent, it follows the upstream implementation's structure.
These behaviours come from the implementation, not from the tests:

- the set-variable description, `Environment variable <name> set to '<value>'`, or `... is set.` for a secret (`Requirements.SetMessage`);
- the fallbacks of `CommandTypes.Description` after `description`, `bokeh_app` and `notebook` (the platform's shell line, then `conda_app_entry`, `unix`, `windows`);
- the `command '<name>' does not have a command line in it` problem;
- that a Bokeh app, rather than a notebook, is named in the multiple-commands problem when both are present;
- keeping an entry's existing `env_spec` when `--env-spec` is not given;
- the built-in service type `redis` with default variable `REDIS_URL` (`Registry.BuiltinRegistry`);
- hiding a notebook file that an explicit command already runs from the auto-generated commands.

## Model

| member | source | states |
|---|---|---|
| Requirements.DefaultOverrides | conda_kapsel/plugins/test/test_requirement.py:13-15 | overrides made with no arguments name no environment spec |
| Registry.FindRequirementByEnvVar | conda_kapsel/plugins/test/test_requirement.py:20-25 | never fails; keeps the variable name; a generic `EnvVarRequirement` exactly when no service type claims the name, otherwise a requirement of a catalogued service type |
| Registry.UnknownEnvVarIsGeneric | conda_kapsel/plugins/test/test_requirement.py:20-26 | `FOO` in the built-in registry gives the generic requirement for `FOO`, whose repr is `EnvVarRequirement(env_var='FOO')` |
| Registry.FindRequirementByServiceType | conda_kapsel/plugins/test/test_requirement.py:29-32 | `None` exactly when no service type has that name; otherwise a requirement for the variable, with the type recorded in its options |
| Registry.UnknownServiceTypeIsNone | conda_kapsel/plugins/test/test_requirement.py:29-32 | the unknown service type `blah` gives `None` |
| Registry.TypeNamed | conda_kapsel/plugins/test/test_requirement.py:29-32 | the catalog lookup by name: `None` iff no entry has that name; a result is a matching entry of the catalog |
| Registry.TypeForVariable | conda_kapsel/plugins/test/test_requirement.py:20-25 | the catalog lookup by default variable: `None` iff no entry uses that variable; a result is a matching entry |
| Requirements.EnvVarRequirement | conda_kapsel/plugins/test/test_requirement.py:36-37 | a generic requirement for the given variable, holding an `encrypted` option exactly when one was given |
| Requirements.Encrypted | conda_kapsel/plugins/test/test_requirement.py:39-48 | `encrypted`: an explicit `encrypted` option decides by its truthiness; without one, encrypted if and only if the name ends in `_PASSWORD`, `_SECRET` or `_SECRET_KEY` |
| Requirements.PlainNameNotEncrypted | conda_kapsel/plugins/test/test_requirement.py:39-40 | `FOO` is not encrypted by default, and `encrypted=True` makes it encrypted |
| Requirements.EncryptedByDefaultIff | conda_kapsel/plugins/test/test_requirement.py:39-44 | a requirement made without options is encrypted if and only if its name ends in one of the three suffixes |
| Requirements.SecretSuffixDefaultsEncrypted | conda_kapsel/plugins/test/test_requirement.py:42-48 | any name ending in one of the three suffixes is encrypted by default and not encrypted with `encrypted=False` |
| Requirements.ExplicitEncryptedWins | conda_kapsel/plugins/test/test_requirement.py:39-48 | an explicit `encrypted` option decides, whatever the name |
| Requirements.CheckStatus | conda_kapsel/plugins/test/test_requirement.py:51-57 | provided if and only if the variable is present with a non-empty value; otherwise the description is `Environment variable <name> is not set.`; logs and errors are empty; the status refers to its requirement |
| Requirements.EmptyTreatedAsUnset | conda_kapsel/plugins/test/test_requirement.py:51-57 | binding the variable to `''` gives the same status as removing it, and that status is not provided |
| Requirements.ValueOf | conda_kapsel/plugins/test/test_requirement.py:51-54 | a value is found if and only if the variable is bound to a non-empty string, and it is that string |
| Requirements.RequirementRepr | conda_kapsel/plugins/test/test_requirement.py:60-62 | `<class>(env_var='<name>')`: the variable name can be read back from the text for every requirement |
| Requirements.StatusRepr | conda_kapsel/plugins/test/test_requirement.py:65-69 | `RequirementStatus(<provided>,<repr of description>,<requirement repr>)`; an unprovided status whose description needs no escaping is `RequirementStatus(False,'<description>',<requirement repr>)` |
| Requirements.UnsetStatusRepr | conda_kapsel/plugins/test/test_requirement.py:60-69 | for every unset or empty variable with a plain name, both repr forms are the fixed texts around the name |
| Requirements.FooEmptyStatus | conda_kapsel/plugins/test/test_requirement.py:51-69 | `FOO=''`: not provided, the fixed description, no logs or errors, and both repr texts |
| Strings.PythonRepr | conda_kapsel/plugins/test/test_requirement.py:65-69 | Python's `repr` of a `str`: delimited by the same quote, double exactly when the text holds a single quote and no double quote; a plain printable string without quotes or backslashes is `'<s>'` |
| CommandTypes.ShellType | conda_kapsel/commands/test/test_command_commands.py:96-155 | the shell type is `windows` if and only if the platform is Windows, `unix` if and only if it is not |
| CommandCommands.AnswerType | conda_kapsel/commands/test/test_command_commands.py:28-49 | an answer has a type if and only if it is `b`, `n` or `c`; `b` is a Bokeh app, `n` a notebook, and `c` the platform's shell type |
| CommandCommands.CommandLineAnswerByPlatform | conda_kapsel/commands/test/test_command_commands.py:96-155 | the answer `c` chooses `unix` on Linux and `windows` on Windows, after one input |
| CommandCommands.Ask | conda_kapsel/commands/test/test_command_commands.py:158-190 | the prompt reads at most all the inputs; it reads all of them when the input runs out, and at least one otherwise |
| CommandCommands.LeadingRejected | conda_kapsel/commands/test/test_command_commands.py:158-190 | the length of the leading run of rejected answers: every input before it is rejected, and the next input is not |
| CommandCommands.AskCharacterized | conda_kapsel/commands/test/test_command_commands.py:158-190 | the help text is printed once per rejected answer; the prompt then reads one more input and ends as it says (interrupt, or that answer's type), or runs out |
| CommandCommands.AskCommandType | conda_kapsel/commands/test/test_command_commands.py:158-190 | the loop's result, input count and output equal the prompt function's |
| CommandCommands.AskInvalidThenBokeh | conda_kapsel/commands/test/test_command_commands.py:165-190 | inputs `-` then `b` choose a Bokeh app after two inputs, printing the help text once |
| CommandCommands.GuessType | conda_kapsel/commands/test/test_command_commands.py:195-226 | a given `--type` is used as is; without one, `notebook` exactly when the command is a `.ipynb` file present in the project, and otherwise no type |
| CommandCommands.NewEntry | conda_kapsel/commands/test/test_command_commands.py:195-243 | the stored entry's keys are the old ones plus the type's key and `env_spec`; the command is under the type's key; `env_spec` is the given one, else the existing one, else the default; other keys unchanged |
| CommandCommands.StoreCommand | conda_kapsel/commands/test/test_command_commands.py:270-282 | storing changes at most the named entry: on success it holds the merged entry, on failure nothing changes |
| CommandCommands.StoreOutcome | conda_kapsel/commands/test/test_command_commands.py:270-282 | storing succeeds exactly when the merged entry is well formed and then stores it with the added message; otherwise exit 1 with `<manifest>: <problem>` and `Unable to add the command.` |
| CommandCommands.AddCommandResult | conda_kapsel/commands/test/test_command_commands.py:28-282 | `add-command` keeps a valid project valid, touches at most the named entry, and changes nothing when it exits non-zero |
| CommandCommands.AskThenStore | conda_kapsel/commands/test/test_command_commands.py:54-91 | without a type: the same frame and validity facts for the prompting path |
| CommandCommands.AddWithType | conda_kapsel/commands/test/test_command_commands.py:195-243 | with a given or guessed type, for any project, new name or existing: exit 0 exactly when the merged entry is well formed, storing exactly that entry; otherwise exit 1 with the entry's problem and the project unchanged; nothing is asked |
| CommandCommands.AddWithAnswer | conda_kapsel/commands/test/test_command_commands.py:28-49 | the same for a type chosen at the prompt, after the help texts the prompt printed |
| CommandCommands.AddAnswered | conda_kapsel/commands/test/test_command_commands.py:28-49 | after k rejected answers and one valid answer, exit 0 and output of k help texts plus the added message; a fresh entry with exactly the chosen type's key and `env_spec` |
| CommandCommands.AddNotInteractive | conda_kapsel/commands/test/test_command_commands.py:54-67 | without a type on a non-interactive console: exit 1, nothing on stdout, `Specify the --type option to add this command.` on stderr, project unchanged |
| CommandCommands.AddInterrupted | conda_kapsel/commands/test/test_command_commands.py:72-91 | an interrupt at the prompt ends the process with code 1, `\nCanceling\n\n` on stderr, and the project unchanged |
| CommandCommands.LoadProblems | conda_kapsel/commands/test/test_command_commands.py:246-258 | a project load reports a problem exactly when the `variables` section has the wrong type |
| CommandCommands.FreshEntryWellFormed | conda_kapsel/commands/test/test_command_commands.py:195-208 | a fresh entry has exactly two keys and passes the load checks |
| CommandCommands.AddGiven | conda_kapsel/commands/test/test_command_commands.py:195-243 | with `--type`, a new command is stored under that type's key with the given or the default env spec, with no questions and exit 0 |
| CommandCommands.AddGuessesNotebook | conda_kapsel/commands/test/test_command_commands.py:211-226 | without `--type`, a `.ipynb` file present in the project is added as a notebook, without asking |
| CommandCommands.LoadFailureEverywhere | conda_kapsel/commands/test/test_command_commands.py:246-267 | on a project that fails to load, add, remove and list all exit 1 with nothing on stdout and the problem followed by `Unable to load the project.` on stderr |
| CommandTypes.TypesIn | conda_kapsel/commands/test/test_command_commands.py:270-282 | the command types an entry declares, each once: exactly those whose key it holds |
| CommandTypes.CommandProblems | conda_kapsel/commands/test/test_command_commands.py:270-282 | at most one problem per command, and none if and only if the entry declares a command type and a Bokeh app or notebook stands alone |
| CommandTypes.NotebookWithUnixProblem | conda_kapsel/commands/test/test_command_commands.py:278-279 | an entry holding `unix` and `notebook` reports `command '<n>' has multiple commands in it, 'notebook' can't go with 'unix'` |
| CommandCommands.AddNotebookToUnixRefused | conda_kapsel/commands/test/test_command_commands.py:270-282 | adding a notebook to a command with a Unix command line exits 1 with `<manifest>: <problem>` and `Unable to add the command.` on stderr, and leaves the project unchanged |
| CommandCommands.CommandNames | conda_kapsel/commands/test/test_command_commands.py:322-337 | the project's commands are the explicit ones plus one auto-generated command per notebook file that no explicit command is named after or runs |
| CommandCommands.RemoveCommandResult | conda_kapsel/commands/test/test_command_commands.py:292-337 | `remove-command` exits 0 exactly on a loading project and an explicit command, which is then the only one deleted; otherwise nothing changes; validity is kept |
| CommandCommands.RemoveOutcomes | conda_kapsel/commands/test/test_command_commands.py:292-337 | the three outcomes with their exact messages, for every name: deleted, auto-generated and refused, not found |
| CommandTypes.Description | conda_kapsel/commands/test/test_command_commands.py:364-371 | a command's own description first, then `Bokeh app <path>`, then `Notebook <path>` |
| CommandTypes.LoneShellDescribesItself | conda_kapsel/commands/test/test_command_commands.py:364-371 | a command with a single shell command line and no description is described by that line, on every platform |
| CommandCommands.ListCommandsResult | conda_kapsel/commands/test/test_command_commands.py:340-373 | `list-commands` exits 0 exactly on a project that loads, with nothing on stderr; the `No commands found for project` line appears if and only if the project has no commands |
| Strings.SortedSet | conda_kapsel/commands/test/test_command_commands.py:356-373 | the sorted names are exactly the set's members, each once, in strictly ascending order |
| Strings.MaxLength | conda_kapsel/commands/test/test_command_commands.py:356-373 | the column width is at least every name's length and equals one of them |
| Strings.Pad | conda_kapsel/commands/test/test_command_commands.py:364-371 | a padded name starts with the name, is as wide as the column or the name, and ends in spaces |
| CommandCommands.PrintRows | conda_kapsel/commands/test/test_command_commands.py:356-373 | the loop prints one row per name, in order |
| CommandCommands.ListTwoCommands | conda_kapsel/commands/test/test_command_commands.py:356-380 | the listing for `default` (a Bokeh app) and `run_notebook` (a notebook): the header, then both rows in name order, padded to 12 |
| CommandCommands.Project.AddCommand | conda_kapsel/commands/test/test_command_commands.py:28-282 | keeps every command valid and leaves the result and commands that `add-command` specifies |
| CommandCommands.Project.RemoveCommand | conda_kapsel/commands/test/test_command_commands.py:285-337 | keeps every command valid and leaves the result and commands that `remove-command` specifies |
| CommandCommands.Project.ListCommands | conda_kapsel/commands/test/test_command_commands.py:340-380 | prints what `list-commands` specifies |

## Left out

- Reading and writing the YAML manifest, temporary project directories, and the `completing project file` helper are not modelled. A project is its directory, manifest path, file set, `variables` value, default env spec name, and `commands` map.
- The console is not real stdin. Interactivity, the answers (a typed line or an interrupt) and `platform.system()` are parameters. The prompt's own question text is not modelled, only what is printed to stdout and stderr.
- CommandCommands.AnswerType: answers must be exactly `b`, `n` or `c`. Any lower-casing or trimming of whitespace is not modelled.
- CommandCommands.Ask: running out of input is its own outcome, exit 1 with nothing on stderr; the help texts already printed stay on stdout. The tests never reach it.
- `SystemExit` versus a returned exit code is a flag on the run, not control flow.
- Strings.PythonRepr: the exact text is only stated for strings of plain printable ASCII. Python's escapes for other non-printable and non-ASCII characters are modelled only as far as `\\`, the quote, `\n`, `\r`, `\t` and `\xNN` for control characters; characters beyond ASCII are written as they are.
- Requirements.CheckStatus: it requires a generic requirement. A service requirement's (Redis) own status check, the providers and the resolution driver are not modelled.
- The registry's `list_service_types` and the plugin loading are out of scope. So is the Redis requirement's own behaviour.
- CommandCommands.LoadProblems: only the `variables` type problem is reported at load. A `commands` section that fails the per-command rules is excluded by the `Project` invariant instead of being reported. Not modelled:
  - a check that a named env spec exists in `env_specs`;
  - the other manifest checks.
- CommandCommands.CommandNames: only a notebook named by some command's `notebook` key is hidden from the auto-generated commands. The upstream rule is not shown here, so other references (such as a `bokeh_app` path) are not modelled.
- CommandTypes.Description: an auto-generated notebook command is described as `Notebook <file>` by `CommandCommands.CommandDescription`.
- `main.py`'s argument parsing is not modelled. This includes:
  - the choices it offers (`--type` without `conda_app_entry`, plus `ask`);
  - exit code 2 for bad arguments;
  - the Python 2 compatibility shims.
  `CommandCommands.AddArgs` can name any command type.
- Integers and strings are unbounded. No width limits apply.

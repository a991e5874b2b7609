# gogomts profile store, modelled in Dafny

`gogomts` is a command-line tool that keeps named profiles. Each profile is a
`(user, project)` record stored as one YAML file, `<name>.yaml`, in the
current working directory. It offers `profile create`, `profile get`,
`profile list` and `profile delete`. This project models the program's
dispatcher and its four commands, and proves what they promise.

- `store.dfy` (module `Store`): the record `DataSet`; what a file holds as
  far as the YAML decoder is concerned (`Document`); the mapping between
  profile names and file names; and the working directory as a class
  `WorkingDir`. Its content is a `map` from file name to `Document`. Three
  fixed sets of paths say where writing, reading or removing fails for a
  reason the program does not control (permissions, a full disk). A flag
  `unlistable` says that the directory itself cannot be read. Its
  methods model `os.WriteFile`, `os.ReadFile`, `os.Remove` and
  `filepath.Glob("*.yaml")`.
- `commands.dfy` (module `Commands`): the four command objects. Each has
  the flag fields that `ParseFlags` fills in place and an `Execute` method
  that works on a `WorkingDir`. Beside them are the functions that say what
  each command does to, or reads from, the directory: `CreateOutcome`,
  `Created`, `Fetched`, `DeleteOutcome`, `ListLines` and `Listed`. Each
  `Execute` is proved against its function. `ListCommand.Execute` keeps
  the source's loop, with its `continue`s, and carries a loop invariant.
- `properties.dfy` (module `CommandProperties`): what holds across
  commands. Get after create is a round trip. A second create wins.
  Create and delete leave other names alone. Get fails after a delete.
  A listing shows only stored records. Listing after creating N profiles
  with distinct names shows exactly those N.
- `dispatcher.dfy` (module `Dispatcher`): the routing in `main` as a pure
  function `Dispatch` from the argument list to a `Route`. The whole
  program is `RunProgram`. It routes, builds the selected command, binds
  its flags, executes it and turns the result into an exit status.

The program's own text promises a help flag. The welcome message tells the
user to run `./gogomts --help` (OOP.go:46), and the root flag set declares
`help` with the usage "Show welcome message" (OOP.go:198). But that flag
set is never given the arguments to parse. Its `help` flag stays false, so
the exit-0 branch at OOP.go:200-203 never runs. The model follows the code:
`--help`, like any first word other than `help` and `profile`, is reported
as an unknown command, followed by the help text, with exit status 1
(`Dispatcher.UnknownCommand`, `Dispatcher.HelpFlagIsUnknownCommand`).
Every exit the dispatcher itself makes (OOP.go:204-239) has status 1,
including `help`.

Three behaviours follow from the code and are stated as lemmas:

- A profile created with the empty name is written to `.yaml`. `list`
  shows it under the empty name, but `get` and `delete` reject the empty
  name, so they cannot reach it (`EmptyNameListedButUnreachable`).
- `get` on a name that `list` shows prints the same record, unless the
  name is empty (`ListedEntriesAreStored`).
- `filepath.Glob` ignores an error reading the directory and returns no
  matches. `list` then reports "no profiles" even when profile files exist
  (`ListEmpty`).

File names are flat keys of one map, and names are assumed to contain no
`/` where it matters: `ListAfterCreates` requires it, since `*.yaml` does
not match across `/` (`FileNameMatchesGlob`).

## Model

| member | source | states |
|---|---|---|
| Store.FileName | OOP.go:104 | the profile file name ends in `.yaml`, and dropping its last five characters gives the profile name back |
| Store.ProfileName | OOP.go:158 | the name `list` shows for a `.yaml` file is the one whose file is that file |
| Store.FileNameInjective | OOP.go:104 | two profile names share a file only if they are equal |
| Store.ProfileNameOfFileName | OOP.go:158 | the name shown for a profile's file is that profile's name |
| Store.MatchesGlob | OOP.go:148 | a file matches `*.yaml` exactly when it ends in `.yaml` and contains no path separator |
| Store.FileNameMatchesGlob | OOP.go:148 | a profile file whose name has no path separator is matched by `*.yaml` |
| Store.Marshal | OOP.go:100 | encoding a record always succeeds and yields a decodable document |
| Store.Unmarshal | OOP.go:130 | decoding succeeds exactly on YAML records and returns the encoded record |
| Store.WorkingDir.WriteFile | OOP.go:104 | the write succeeds unless the path is unwritable; on success the file holds the document and no other file changes; on failure nothing changes |
| Store.WorkingDir.ReadFile | OOP.go:125 | the read succeeds exactly when the file exists and is readable, and then returns its content |
| Store.WorkingDir.Remove | OOP.go:189 | removal succeeds exactly when the file exists and is removable, and then removes that file only |
| Store.WorkingDir.Glob | OOP.go:148 | on a directory that cannot be read, returns no files (and no error); otherwise returns every file matching `*.yaml` exactly once, and nothing else |
| Commands.CreateOutcome | OOP.go:104-108 | create succeeds exactly when the profile file is writable, and otherwise reports a write error |
| Commands.Created | OOP.go:95-109 | after create the profile file decodes to `{user, project}`, exactly one key is added or replaced, and every other file keeps its content |
| Commands.Fetched | OOP.go:121-135 | get fails on an empty name with the name-required error; otherwise it succeeds exactly when the file exists, is readable and decodes; it then shows the requested name and the stored record; it reports a read error or a decode error otherwise |
| Commands.DeleteOutcome | OOP.go:185-194 | delete succeeds exactly when the name is non-empty and the file exists and is removable; otherwise it reports name-required or a removal error |
| Commands.LineFor | OOP.go:158-170 | the line for one globbed file is named after the file; it is a read warning exactly when the file is missing or unreadable, a summary exactly when it is readable and decodes, and the summary shows the stored record |
| Commands.Listed | OOP.go:152-171 | list reports "no profiles" exactly when the glob returned nothing, and otherwise the lines for the globbed files in order |
| Commands.ListLines | OOP.go:157-171 | one line per globbed file, in glob order, named after the file; a read warning exactly when the read fails, a summary exactly when the file is readable and decodes, and the summary shows the stored record |
| Commands.CreateCommand.constructor | OOP.go:209 | a fresh create command has empty name, user and project |
| Commands.CreateCommand.ParseFlags | OOP.go:87-93 | the three fields hold the values bound to `--name`, `--user` and `--project` |
| Commands.CreateCommand.Execute | OOP.go:95-109 | returns the create outcome; the directory becomes `Created(...)` on success and is unchanged on failure |
| Commands.GetCommand.constructor | OOP.go:210 | a fresh get command has an empty name |
| Commands.GetCommand.ParseFlags | OOP.go:115-119 | the name field holds the value bound to `--name` |
| Commands.GetCommand.Execute | OOP.go:121-136 | returns exactly what `Fetched` says, changing nothing |
| Commands.ListCommand.constructor | OOP.go:211 | a list command has no fields to initialise |
| Commands.ListCommand.Execute | OOP.go:147-173 | reports "no profiles" exactly when the directory cannot be read or no file in it matches `*.yaml`; otherwise one line per matching file in the glob's order (`ListLines`), each named after an existing matching file, a summary showing that file's stored record; no file changes |
| Commands.DeleteCommand.constructor | OOP.go:212 | a fresh delete command has an empty name |
| Commands.DeleteCommand.ParseFlags | OOP.go:179-183 | the name field holds the value bound to `--name` |
| Commands.DeleteCommand.Execute | OOP.go:185-194 | returns the delete outcome; exactly the profile file is removed on success, and nothing changes on failure |
| CommandProperties.GetAfterCreate | OOP.go:95-135 | get after create of the same non-empty, readable name shows the created user and project |
| CommandProperties.SecondCreateWins | OOP.go:104 | creating twice under one name leaves the same directory as creating only the second |
| CommandProperties.CreateLeavesOthers | OOP.go:104 | create does not change what get returns for any other name |
| CommandProperties.GetAfterDelete | OOP.go:185-194 | after a successful delete, get on that name fails with a read error |
| CommandProperties.DeleteLeavesOthers | OOP.go:189 | delete does not change what get returns for any other name |
| CommandProperties.ListEmpty | OOP.go:148-155 | list reports "no profiles" exactly when the directory cannot be read or no file in it matches `*.yaml` |
| CommandProperties.ListedEntriesAreStored | OOP.go:157-171 | every summary line shows a stored record under its own name, and get on that name (if non-empty) shows the same record |
| CommandProperties.EmptyNameListedButUnreachable | OOP.go:95-194 | a profile created with the empty name is listed under the empty name, yet get and delete reject that name |
| CommandProperties.NameFilesLast | OOP.go:104 | the files written for a sequence of profiles are those for all but the last, plus the last one's |
| CommandProperties.NameFilesCount | OOP.go:104 | creating N profiles with distinct names writes N distinct files |
| CommandProperties.CreatedAllKeys | OOP.go:95-109 | after creating profiles in an empty directory, the files present are exactly the profiles' files |
| CommandProperties.CreatedAllHolds | OOP.go:95-109 | with distinct names, each profile's file holds that profile's record after all the creates |
| CommandProperties.GlobFindsCreated | OOP.go:148 | the glob finds every created profile's file |
| CommandProperties.GlobOnlyCreated | OOP.go:148 | the glob finds nothing but created profiles' files |
| CommandProperties.GlobAfterCreates | OOP.go:148 | after N creates with distinct names the glob returns exactly N files, and they are the profiles' files |
| CommandProperties.CreatedLine | OOP.go:157-171 | the line list writes for a created profile's file is that profile's summary |
| CommandProperties.ListedLineIsCreated | OOP.go:157-171 | every line of the listing after the creates is the summary of some created profile |
| CommandProperties.CreatedIsListed | OOP.go:157-171 | every created profile's summary appears in the listing |
| CommandProperties.ListAfterCreates | OOP.go:147-173 | after creating N profiles with distinct names in an empty directory, list reports "no profiles" exactly when N is 0, and otherwise exactly N summaries; each summary belongs to a created profile, and each created profile has one |
| Dispatcher.Dispatch | OOP.go:196-239 | every exit the dispatcher makes has status 1; a command runs exactly when the first argument is `profile` and the second names an action; that action is the named one, and it receives the arguments from index 3 on; the help text is printed exactly when there is a first argument; with no argument only the welcome text is printed |
| Dispatcher.Action.Name | OOP.go:83-85 | each action's word is non-empty and is the key under which the action table registers that action |
| Dispatcher.RegistryByName | OOP.go:208-214 | the action table maps each action's name to that action, and no other word to it |
| Dispatcher.HelpExitsWithFailure | OOP.go:216-219 | `help` prints the help text and exits with status 1 |
| Dispatcher.UnknownCommand | OOP.go:221-225 | any first word other than `help` and `profile` is reported as an unknown command, followed by the help text, with status 1 |
| Dispatcher.HelpFlagIsUnknownCommand | OOP.go:197-225 | `--help` is reported as an unknown command, followed by the help text, with status 1 |
| Dispatcher.ProfileWithoutValidAction | OOP.go:227-239 | `profile` with no action exits 1 with the missing-action text; `profile` with an unknown action exits 1 naming it; help follows in both cases |
| Dispatcher.Finish | OOP.go:243-245 | a command that succeeds gives status 0 and prints nothing more; a failing one gives status 1 and reports its error |
| Dispatcher.RunProgram | OOP.go:196-245 | an exit the dispatcher makes has status 1 and changes nothing; otherwise exactly the selected command runs, with the effect, output and status its function gives |

## Left out

- YAML encoding and decoding are those of a library. A file's content is a
  `Document`: either the encoding of a record, or text the decoder
  rejects. Encoding is total, so the marshal error branch (OOP.go:101-103)
  has no counterpart. The decoder's leniency (for example, missing keys
  decoding as empty strings) is not modelled.
- `filepath.Glob` fails only on a malformed pattern, and `*.yaml` is well
  formed, so its error branch (OOP.go:149-151) has no counterpart.
- Store.WorkingDir.Glob: Go returns matches in sorted order. The model
  allows any order, so every listing property holds for every order,
  sorted included.
- Flag parsing belongs to the `flag` library. The values it binds are the
  input `Flags`. With `ExitOnError`, a bad flag or `-h` makes the library
  end the process itself, so `Parse` never returns an error to `main`. Its
  exit statuses, and the `log.Fatalf` branch at OOP.go:240-242 that they
  make unreachable, are not modelled. `ListCommand.ParseFlags` binds no
  fields and is not modelled.
- Store.WorkingDir.WriteFile: a write that truncates the file and then
  fails part-way would leave a shortened file. The model treats a failed
  write as changing nothing.
- Path resolution is not modelled. The program hands `name + ".yaml"` to
  the operating system (OOP.go:104, 125, 189), which resolves `.`, `..`
  and repeated `/`, and may fold case or treat `\` as a separator. The
  model assumes a case-sensitive POSIX file system and treats each file
  name as a flat key, so `./x` and `x` are two keys here. In the program
  they name one file, which `list` shows as `x`. Only the glob's refusal
  to match across `/` is modelled.
- CommandProperties.CreateLeavesOthers: holds in the program only for names
  that name distinct files. With `/` in a name (`./x` against `x`), or on a
  case-insensitive file system, two distinct names can share a file, and a
  create under one changes what `get` returns for the other.
- CommandProperties.DeleteLeavesOthers: holds in the program only for names
  that name distinct files, for the same reason as `CreateLeavesOthers`.
- Printed text (the Russian messages, the "Profile:/User:/Project:" format
  and the list lines) is modelled as tagged values. `log` warnings are the
  `ReadWarning` and `DecodeWarning` lines. `os.Exit` and `log.Fatalf` are
  the exit status returned by `RunProgram`.
- The commented-out `HelpCommand` (OOP.go:40-42, 60-80) is dead code.
- Concurrent runs against the same directory are not modelled, since the
  program has no locking and no concurrency.

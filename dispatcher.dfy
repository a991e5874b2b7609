/** The command dispatcher: from the process's argument list to either a
    usage message with an exit status, or one of the four profile commands
    run on the remaining arguments; and the whole program, which routes,
    binds the flags and executes the selected command. */
module Dispatcher {
  import opened Store
  import opened Commands

  /** The four profile actions. */
  datatype Action = Create | Get | List | Delete {
    /** The word that selects the action (each command's Name()). */
    function Name(): (word: string)
      ensures word != "" && word in Registry && Registry[word] == this
    {
      match this
      case Create => "create"
      case Get => "get"
      case List => "list"
      case Delete => "delete"
    }
  }

  /** The table of actions the dispatcher looks the second argument up in. */
  const Registry: map<string, Action> :=
    map["create" := Create, "get" := Get, "list" := List, "delete" := Delete]

  /** The texts the dispatcher prints before it exits. */
  datatype Message =
    | WelcomeText
    | HelpText
    | UnknownCommandText(command: string)
    | MissingActionText
    | UnknownActionText(action: string)

  /** Where the dispatcher sends an argument list: an exit after printing
      `messages`, or the action to run with the arguments left for its
      flag parser. */
  datatype Route =
    | Exit(messages: seq<Message>, status: int)
    | Run(action: Action, flagArgs: seq<string>)

  /** The routing decision for `args`, the full argument list with the
      program's name at index 0. The root flag set is created but never
      asked to parse anything, so its `--help` flag keeps its default,
      false, and the exit-0 help branch is never taken. */
  function Dispatch(args: seq<string>): (r: Route)
    ensures r.Exit? ==> r.status == 1
    ensures r.Run? <==> |args| >= 3 && args[1] == "profile" && args[2] in Registry
    ensures r.Run? ==> r.action.Name() == args[2] && r.flagArgs == args[3..]
    ensures r.Exit? ==> (HelpText in r.messages <==> |args| >= 2)
    ensures r.Exit? && |args| < 2 ==> r.messages == [WelcomeText]
  {
    var rootHelp := false;
    if rootHelp then Exit([HelpText], 0)
    else if |args| < 2 then Exit([WelcomeText], 1)
    else if args[1] == "help" then Exit([HelpText], 1)
    else if args[1] != "profile" then Exit([UnknownCommandText(args[1]), HelpText], 1)
    else if |args| < 3 then Exit([MissingActionText, HelpText], 1)
    else if args[2] !in Registry then Exit([UnknownActionText(args[2]), HelpText], 1)
    else Run(Registry[args[2]], args[3..])
  }

  /** Every action is registered under its own name, and under no other. */
  lemma RegistryByName(word: string, a: Action)
    ensures word in Registry && Registry[word] == a <==> word == a.Name()
  {
  }

  /** `help` prints the help text and exits with status 1. */
  lemma HelpExitsWithFailure(args: seq<string>)
    requires |args| >= 2 && args[1] == "help"
    ensures Dispatch(args) == Exit([HelpText], 1)
  {
  }

  /** Any first word other than `help` and `profile`, flags included, is
      reported as an unknown command, followed by the help text, with
      status 1. */
  lemma UnknownCommand(args: seq<string>)
    requires |args| >= 2 && args[1] != "help" && args[1] != "profile"
    ensures Dispatch(args) == Exit([UnknownCommandText(args[1]), HelpText], 1)
  {
  }

  /** `--help` is not a recognised flag at the root: it is reported as an
      unknown command, followed by the help text, with status 1. */
  lemma HelpFlagIsUnknownCommand(args: seq<string>)
    requires |args| >= 2 && args[1] == "--help"
    ensures Dispatch(args) == Exit([UnknownCommandText("--help"), HelpText], 1)
  {
    UnknownCommand(args);
  }

  /** `profile` without an action, or with a word that names no action,
      exits with status 1 after saying which. */
  lemma ProfileWithoutValidAction(args: seq<string>)
    requires |args| >= 2 && args[1] == "profile"
    requires |args| < 3 || args[2] !in Registry
    ensures Dispatch(args) == if |args| < 3 then Exit([MissingActionText, HelpText], 1)
                              else Exit([UnknownActionText(args[2]), HelpText], 1)
  {
  }

  /** What the program prints, by kind. */
  datatype Printed =
    | Usage(messages: seq<Message>)
    | Shown(profile: Profile)
    | ListOutput(report: ListReport)
    | Quiet
    | Fatal(error: Error)

  /** The exit status and output of a command that returned `o`. */
  function Finish(o: Outcome): (r: (int, Printed))
    ensures r.0 == 0 <==> o.Done?
    ensures r.0 != 0 ==> r == (1, Fatal(o.error))
    ensures r.0 == 0 ==> r.1 == Quiet
  {
    if o.Done? then (0, Quiet) else (1, Fatal(o.error))
  }

  /** Runs the program on `args` in `dir`. `flags` are the values the
      selected command's flag parser binds from the arguments after the
      action; `order` is the order in which `list`'s glob returned the
      files (empty when `list` does not run). */
  method RunProgram(args: seq<string>, dir: WorkingDir, flags: Flags)
      returns (status: int, printed: Printed, ghost order: seq<string>)
    modifies dir
    ensures Dispatch(args).Exit? ==>
              status == 1 && printed == Usage(Dispatch(args).messages) && dir.files == old(dir.files)
    ensures Dispatch(args).Run? && Dispatch(args).action == Create ==>
              var o := CreateOutcome(dir.unwritable, flags.name);
              (status, printed) == Finish(o)
              && dir.files == if o.Done? then Created(old(dir.files), flags.name, flags.user, flags.project) else old(dir.files)
    ensures Dispatch(args).Run? && Dispatch(args).action == Get ==>
              var r := Fetched(dir.files, dir.unreadable, flags.name);
              dir.files == old(dir.files)
              && status == (if r.Ok? then 0 else 1)
              && printed == (if r.Ok? then Shown(r.value) else Fatal(r.error))
    ensures Dispatch(args).Run? && Dispatch(args).action == List ==>
              dir.files == old(dir.files) && status == 0
              && Globbed(order, dir.files, dir.unlistable) && printed == ListOutput(Listed(dir.files, dir.unreadable, order))
    ensures Dispatch(args).Run? && Dispatch(args).action == Delete ==>
              var o := DeleteOutcome(old(dir.files), dir.unremovable, flags.name);
              (status, printed) == Finish(o)
              && dir.files == if o.Done? then old(dir.files) - {FileName(flags.name)} else old(dir.files)
  {
    order := [];
    match Dispatch(args)
    case Exit(messages, s) =>
      status, printed := s, Usage(messages);
    case Run(action, _) =>
      match action
      case Create =>
        var cmd := new CreateCommand();
        cmd.ParseFlags(flags);
        var o := cmd.Execute(dir);
        status, printed := Finish(o).0, Finish(o).1;
      case Get =>
        var cmd := new GetCommand();
        cmd.ParseFlags(flags);
        var r := cmd.Execute(dir);
        if r.Err? {
          status, printed := 1, Fatal(r.error);
        } else {
          status, printed := 0, Shown(r.value);
        }
      case List =>
        var cmd := new ListCommand();
        var report;
        report, order := cmd.Execute(dir);
        status, printed := 0, ListOutput(report);
      case Delete =>
        var cmd := new DeleteCommand();
        cmd.ParseFlags(flags);
        var o := cmd.Execute(dir);
        status, printed := Finish(o).0, Finish(o).1;
  }
}

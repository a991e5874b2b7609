/** The four profile commands: create, get, list and delete. Each is an
    object whose flag fields are filled in place before it executes against
    the working directory. Beside each command stands the function that
    says what it does to, or reads from, the directory's content. */
module Commands {
  import opened Store

  /** Why a command failed. */
  datatype Error =
    | WriteFailed      // os.WriteFile reported an error
    | NameRequired     // --name was empty
    | ReadFailed       // os.ReadFile reported an error
    | UnmarshalFailed  // the file is not a YAML record
    | RemoveFailed     // os.Remove reported an error

  /** What a command returns: nil, or an error. */
  datatype Outcome = Done | Failed(error: Error)

  datatype Result<T> = Ok(value: T) | Err(error: Error)

  /** A profile as `get` prints it: its name, its user and its project. */
  datatype Profile = Profile(name: string, data: DataSet)

  /** One line written by `list` for one matching file: a summary on
      standard output, or a warning on the log when the file cannot be read
      or decoded. */
  datatype Line =
    | Entry(name: string, data: DataSet)
    | ReadWarning(name: string)
    | DecodeWarning(name: string)

  /** What `list` prints: the "no profiles" message, or the header followed
      by one line per matching file. */
  datatype ListReport = NoProfiles | Listing(lines: seq<Line>)

  /** The values the flag parser assigns to --name, --user and --project
      (each empty when absent). */
  datatype Flags = Flags(name: string, user: string, project: string)

  // ---------------------------------------------------------------------
  // What each command does to the directory's content

  /** Whether `create --name=name` succeeds. */
  function CreateOutcome(unwritable: set<string>, name: string): (o: Outcome)
    ensures o.Done? <==> FileName(name) !in unwritable
    ensures o.Failed? ==> o.error == WriteFailed
  {
    if FileName(name) in unwritable then Failed(WriteFailed) else Done
  }

  /** The directory's content after a successful `create`. */
  function Created(files: map<string, Document>, name: string, user: string, project: string): (r: map<string, Document>)
    ensures FileName(name) in r && Unmarshal(r[FileName(name)]) == Some(DataSet(user, project))
    ensures r.Keys == files.Keys + {FileName(name)}
    ensures forall f :: f in files && f != FileName(name) ==> r[f] == files[f]
  {
    files[FileName(name) := Marshal(DataSet(user, project))]
  }

  /** What `get --name=name` prints, or why it fails. */
  function Fetched(files: map<string, Document>, unreadable: set<string>, name: string): (r: Result<Profile>)
    ensures name == "" ==> r == Err(NameRequired)
    ensures r.Ok? <==> name != "" && FileName(name) in files && FileName(name) !in unreadable
                       && Unmarshal(files[FileName(name)]).Some?
    ensures r.Ok? ==> r.value.name == name && files[FileName(name)] == Marshal(r.value.data)
    ensures r.Err? && name != "" ==>
              r.error == (if FileName(name) in files && FileName(name) !in unreadable then UnmarshalFailed else ReadFailed)
  {
    if name == "" then Err(NameRequired)
    else if FileName(name) !in files || FileName(name) in unreadable then Err(ReadFailed)
    else match Unmarshal(files[FileName(name)])
      case None => Err(UnmarshalFailed)
      case Some(d) => Ok(Profile(name, d))
  }

  /** Whether `delete --name=name` succeeds. */
  function DeleteOutcome(files: map<string, Document>, unremovable: set<string>, name: string): (o: Outcome)
    ensures o.Done? <==> name != "" && FileName(name) in files && FileName(name) !in unremovable
    ensures o.Failed? ==> o.error == if name == "" then NameRequired else RemoveFailed
  {
    if name == "" then Failed(NameRequired)
    else if FileName(name) !in files || FileName(name) in unremovable then Failed(RemoveFailed)
    else Done
  }

  /** The line `list` writes for one matching file. */
  function LineFor(files: map<string, Document>, unreadable: set<string>, file: string): (line: Line)
    requires HasExt(file)
    ensures FileName(line.name) == file
    ensures line.ReadWarning? <==> file !in files || file in unreadable
    ensures line.Entry? <==> file in files && file !in unreadable && files[file].Yaml?
    ensures line.Entry? ==> files[file] == Marshal(line.data)
  {
    var name := ProfileName(file);
    if file !in files || file in unreadable then ReadWarning(name)
    else match Unmarshal(files[file])
      case None => DecodeWarning(name)
      case Some(d) => Entry(name, d)
  }

  /** The lines `list` writes for the files of `order`, in that order. */
  function ListLines(files: map<string, Document>, unreadable: set<string>, order: seq<string>): (lines: seq<Line>)
    requires forall i :: 0 <= i < |order| ==> HasExt(order[i])
    ensures |lines| == |order|
    ensures forall i :: 0 <= i < |order| ==> FileName(lines[i].name) == order[i]
    ensures forall i :: 0 <= i < |order| ==>
              (lines[i].ReadWarning? <==> order[i] !in files || order[i] in unreadable)
    ensures forall i :: 0 <= i < |order| ==>
              (lines[i].Entry? <==> order[i] in files && order[i] !in unreadable && files[order[i]].Yaml?)
    ensures forall i :: 0 <= i < |order| && lines[i].Entry? ==> files[order[i]] == Marshal(lines[i].data)
  {
    if order == [] then []
    else ListLines(files, unreadable, order[..|order| - 1]) + [LineFor(files, unreadable, order[|order| - 1])]
  }

  /** What `list` prints when the glob returned `order`. */
  function Listed(files: map<string, Document>, unreadable: set<string>, order: seq<string>): (r: ListReport)
    requires forall i :: 0 <= i < |order| ==> HasExt(order[i])
    ensures r == NoProfiles <==> order == []
    ensures r.Listing? ==> r.lines == ListLines(files, unreadable, order)
  {
    if order == [] then NoProfiles else Listing(ListLines(files, unreadable, order))
  }

  // ---------------------------------------------------------------------
  // The commands

  class CreateCommand {
    var name: string
    var user: string
    var project: string

    constructor ()
      ensures name == "" && user == "" && project == ""
    {
      name, user, project := "", "", "";
    }

    /** Binds --name, --user and --project to the three fields. */
    method ParseFlags(flags: Flags)
      modifies this
      ensures name == flags.name && user == flags.user && project == flags.project
    {
      name, user, project := flags.name, flags.user, flags.project;
    }

    /** Writes the record {user, project} to `name.yaml`, replacing any file
        already there. */
    method Execute(dir: WorkingDir) returns (o: Outcome)
      modifies dir
      ensures o == CreateOutcome(dir.unwritable, name)
      ensures dir.files == if o.Done? then Created(old(dir.files), name, user, project) else old(dir.files)
    {
      var userInfo := DataSet(user, project);
      var data := Marshal(userInfo);
      var ok := dir.WriteFile(FileName(name), data);
      if !ok {
        return Failed(WriteFailed);
      }
      return Done;
    }
  }

  class GetCommand {
    var name: string

    constructor ()
      ensures name == ""
    {
      name := "";
    }

    /** Binds --name to the field. */
    method ParseFlags(flags: Flags)
      modifies this
      ensures name == flags.name
    {
      name := flags.name;
    }

    /** Reads and decodes `name.yaml`; on success returns what is printed. */
    method Execute(dir: WorkingDir) returns (r: Result<Profile>)
      ensures r == Fetched(dir.files, dir.unreadable, name)
    {
      if name == "" {
        return Err(NameRequired);
      }
      var data := dir.ReadFile(FileName(name));
      if data.None? {
        return Err(ReadFailed);
      }
      var profile := Unmarshal(data.value);
      if profile.None? {
        return Err(UnmarshalFailed);
      }
      return Ok(Profile(name, profile.value));
    }
  }

  class ListCommand {

    constructor ()
    {
    }

    /** Lists every file matching `*.yaml`, skipping with a warning the ones
        that cannot be read or decoded. `order` is the order the glob chose. */
    method Execute(dir: WorkingDir) returns (report: ListReport, ghost order: seq<string>)
      ensures Globbed(order, dir.files, dir.unlistable)
      ensures report == Listed(dir.files, dir.unreadable, order)
      ensures report == NoProfiles <==> dir.unlistable || forall f :: f in dir.files ==> !MatchesGlob(f)
      ensures report.Listing? ==> forall i :: 0 <= i < |report.lines| ==>
                FileName(report.lines[i].name) in dir.files && MatchesGlob(FileName(report.lines[i].name))
      ensures report.Listing? ==> forall i :: 0 <= i < |report.lines| && report.lines[i].Entry? ==>
                dir.files[FileName(report.lines[i].name)] == Marshal(report.lines[i].data)
    {
      var files := dir.Glob();
      order := files;
      if |files| == 0 {
        return NoProfiles, order;
      }
      var lines := [];
      for i := 0 to |files|
        invariant lines == ListLines(dir.files, dir.unreadable, files[..i])
      {
        assert files[..i + 1][..i] == files[..i];
        var file := files[i];
        var profileName := file[..|file| - 5];
        var data := dir.ReadFile(file);
        if data.None? {
          lines := lines + [ReadWarning(profileName)];
          continue;
        }
        var profile := Unmarshal(data.value);
        if profile.None? {
          lines := lines + [DecodeWarning(profileName)];
          continue;
        }
        lines := lines + [Entry(profileName, profile.value)];
      }
      assert files[..|files|] == files;
      return Listing(lines), order;
    }
  }

  class DeleteCommand {
    var name: string

    constructor ()
      ensures name == ""
    {
      name := "";
    }

    /** Binds --name to the field. */
    method ParseFlags(flags: Flags)
      modifies this
      ensures name == flags.name
    {
      name := flags.name;
    }

    /** Removes `name.yaml`. */
    method Execute(dir: WorkingDir) returns (o: Outcome)
      modifies dir
      ensures o == DeleteOutcome(old(dir.files), dir.unremovable, name)
      ensures dir.files == if o.Done? then old(dir.files) - {FileName(name)} else old(dir.files)
    {
      if name == "" {
        return Failed(NameRequired);
      }
      var ok := dir.Remove(FileName(name));
      if !ok {
        return Failed(RemoveFailed);
      }
      return Done;
    }
  }
}

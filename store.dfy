/** The profile store: the process's working directory, seen as a finite map
    from file name to file content, and the four file-system calls the
    commands make on it (write, read, remove, glob). */
module Store {

  datatype Option<T> = None | Some(value: T)

  /** One profile record as it is stored on disk: the user and the project.
      The profile's name is not part of the record; it lives only in the
      file name. */
  datatype DataSet = DataSet(user: string, project: string)

  /** The content of a file as far as the YAML decoder is concerned: either
      the encoding of a record, or text the decoder rejects. */
  datatype Document = Yaml(data: DataSet) | Garbage(text: string)

  /** The extension every profile file carries. */
  const Ext: string := ".yaml"

  predicate HasExt(file: string)
  {
    |file| >= |Ext| && file[|file| - |Ext|..] == Ext
  }

  /** A file of the working directory that the pattern `*.yaml` matches:
      `*` matches any run of characters other than the path separator,
      leading dots included. */
  predicate MatchesGlob(file: string)
  {
    HasExt(file) && '/' !in file
  }

  /** The file that holds the profile `name`. */
  function FileName(name: string): (file: string)
    ensures HasExt(file)
    ensures |file| == |name| + |Ext| && file[..|name|] == name
  {
    name + Ext
  }

  /** The profile name shown for a profile file: the file name without its
      last five characters. */
  function ProfileName(file: string): (name: string)
    requires HasExt(file)
    ensures FileName(name) == file
  {
    var name := file[..|file| - |Ext|];
    assert name + Ext == file[..|file| - |Ext|] + file[|file| - |Ext|..];
    name
  }

  lemma FileNameInjective(a: string, b: string)
    requires FileName(a) == FileName(b)
    ensures a == b
  {
  }

  lemma ProfileNameOfFileName(name: string)
    ensures ProfileName(FileName(name)) == name
  {
    FileNameInjective(ProfileName(FileName(name)), name);
  }

  lemma FileNameMatchesGlob(name: string)
    requires '/' !in name
    ensures MatchesGlob(FileName(name))
  {
    var file := FileName(name);
    forall k | 0 <= k < |file|
      ensures file[k] != '/'
    {
      if k < |name| {
        assert file[k] == name[k];
      } else {
        assert file[k] == Ext[k - |name|];
      }
    }
  }

  /** Encoding a record as YAML (never fails for a record of two strings). */
  function Marshal(d: DataSet): (doc: Document)
    ensures doc.Yaml?
  {
    Yaml(d)
  }

  /** Decoding a file's content as a record; fails on text the decoder
      rejects. */
  function Unmarshal(doc: Document): (r: Option<DataSet>)
    ensures r.Some? <==> doc.Yaml?
    ensures forall d :: doc == Marshal(d) ==> r == Some(d)
  {
    match doc
    case Yaml(d) => Some(d)
    case Garbage(_) => None
  }

  /** `order` is a listing the glob `*.yaml` can return for `files`: every
      matching file exactly once, and nothing else. */
  predicate IsGlob(order: seq<string>, files: map<string, Document>)
  {
    && (forall i :: 0 <= i < |order| ==> order[i] in files && MatchesGlob(order[i]))
    && (forall f :: f in files && MatchesGlob(f) ==> f in order)
    && (forall i, j :: 0 <= i < j < |order| ==> order[i] != order[j])
  }

  /** What the glob `*.yaml` returns for `files`: nothing when the
      directory cannot be read (the glob then reports no error), and a
      listing of every matching file otherwise. */
  predicate Globbed(order: seq<string>, files: map<string, Document>, unlistable: bool)
  {
    if unlistable then order == [] else IsGlob(order, files)
  }

  /** The working directory. `files` is its content; the three fault sets
      name the paths on which the corresponding call fails for a reason
      outside the program (permissions, a full disk), and `unlistable`
      says that the directory itself may not be read. */
  class WorkingDir {
    var files: map<string, Document>
    const unreadable: set<string>
    const unwritable: set<string>
    const unremovable: set<string>
    const unlistable: bool

    constructor (files: map<string, Document>, unreadable: set<string>,
                 unwritable: set<string>, unremovable: set<string>, unlistable: bool)
      ensures this.files == files
      ensures this.unreadable == unreadable && this.unwritable == unwritable
      ensures this.unremovable == unremovable && this.unlistable == unlistable
    {
      this.files := files;
      this.unreadable := unreadable;
      this.unwritable := unwritable;
      this.unremovable := unremovable;
      this.unlistable := unlistable;
    }

    /** Creates or truncates `path` and writes `doc` into it. */
    method WriteFile(path: string, doc: Document) returns (ok: bool)
      modifies this
      ensures ok <==> path !in unwritable
      ensures files == if ok then old(files)[path := doc] else old(files)
    {
      ok := path !in unwritable;
      if ok {
        files := files[path := doc];
      }
    }

    /** Reads the whole of `path`; fails when it does not exist or may not
        be read. */
    method ReadFile(path: string) returns (r: Option<Document>)
      ensures r.Some? <==> path in files && path !in unreadable
      ensures r.Some? ==> r.value == files[path]
    {
      if path in files && path !in unreadable {
        r := Some(files[path]);
      } else {
        r := None;
      }
    }

    /** Removes `path`; fails when it does not exist or may not be
        removed. */
    method Remove(path: string) returns (ok: bool)
      modifies this
      ensures ok <==> path in old(files) && path !in unremovable
      ensures files == if ok then old(files) - {path} else old(files)
    {
      ok := path in files && path !in unremovable;
      if ok {
        files := files - {path};
      }
    }

    /** Lists the files that match `*.yaml`, in an order of the
        environment's choosing. A directory that cannot be read yields no
        files and no error. */
    method Glob() returns (order: seq<string>)
      ensures unlistable ==> order == []
      ensures !unlistable ==> IsGlob(order, files)
    {
      order := [];
      if unlistable {
        return;
      }
      var rest := set f | f in files && MatchesGlob(f);
      while rest != {}
        invariant forall i :: 0 <= i < |order| ==> order[i] in files && MatchesGlob(order[i]) && order[i] !in rest
        invariant forall f :: f in rest ==> f in files && MatchesGlob(f)
        invariant forall f :: f in files && MatchesGlob(f) ==> f in rest || f in order
        invariant forall i, j :: 0 <= i < j < |order| ==> order[i] != order[j]
        decreases rest
      {
        var f :| f in rest;
        order := order + [f];
        rest := rest - {f};
      }
    }
  }
}

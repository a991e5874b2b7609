/** What the profile commands promise when they are run one after another
    against the same working directory. */
module CommandProperties {
  import opened Store
  import opened Commands

  /** A profile written by `create` is what `get` prints for that name. */
  lemma GetAfterCreate(files: map<string, Document>, unreadable: set<string>, name: string, user: string, project: string)
    requires name != "" && FileName(name) !in unreadable
    ensures Fetched(Created(files, name, user, project), unreadable, name) == Ok(Profile(name, DataSet(user, project)))
  {
  }

  /** Creating twice under one name leaves only the second record. */
  lemma SecondCreateWins(files: map<string, Document>, name: string, user1: string, project1: string, user2: string, project2: string)
    ensures Created(Created(files, name, user1, project1), name, user2, project2) == Created(files, name, user2, project2)
  {
  }

  /** Creating a profile changes what `get` returns for no other name. */
  lemma CreateLeavesOthers(files: map<string, Document>, unreadable: set<string>, name: string, other: string, user: string, project: string)
    requires other != name
    ensures Fetched(Created(files, name, user, project), unreadable, other) == Fetched(files, unreadable, other)
  {
    if FileName(other) == FileName(name) {
      FileNameInjective(other, name);
    }
  }

  /** After a successful `delete`, `get` on that name fails to read the file. */
  lemma GetAfterDelete(files: map<string, Document>, unreadable: set<string>, unremovable: set<string>, name: string)
    requires DeleteOutcome(files, unremovable, name) == Done
    ensures Fetched(files - {FileName(name)}, unreadable, name) == Err(ReadFailed)
  {
  }

  /** Deleting a profile changes what `get` returns for no other name. */
  lemma DeleteLeavesOthers(files: map<string, Document>, unreadable: set<string>, name: string, other: string)
    requires other != name
    ensures Fetched(files - {FileName(name)}, unreadable, other) == Fetched(files, unreadable, other)
  {
    if FileName(other) == FileName(name) {
      FileNameInjective(other, name);
    }
  }

  /** `list` prints "no profiles" exactly when the directory cannot be read
      or no file in it matches `*.yaml`. */
  lemma ListEmpty(files: map<string, Document>, unreadable: set<string>, unlistable: bool, order: seq<string>)
    requires Globbed(order, files, unlistable)
    ensures Listed(files, unreadable, order) == NoProfiles <==> unlistable || forall f :: f in files ==> !MatchesGlob(f)
  {
    if order != [] {
      assert order[0] in files && MatchesGlob(order[0]);
    }
  }

  /** Every summary line of `list` shows a stored record under its own name,
      and `get` on that name (unless it is empty) prints the same record. */
  lemma ListedEntriesAreStored(files: map<string, Document>, unreadable: set<string>, order: seq<string>, i: nat)
    requires IsGlob(order, files)
    requires Listed(files, unreadable, order).Listing?
    requires i < |Listed(files, unreadable, order).lines|
    requires Listed(files, unreadable, order).lines[i].Entry?
    ensures var line := Listed(files, unreadable, order).lines[i];
            FileName(line.name) in files && files[FileName(line.name)] == Marshal(line.data)
            && (line.name != "" ==> Fetched(files, unreadable, line.name) == Ok(Profile(line.name, line.data)))
  {
  }

  /** A profile created with the empty name is written to ".yaml": `list`
      shows it, under the empty name, but `get` and `delete` cannot reach it. */
  lemma EmptyNameListedButUnreachable(files: map<string, Document>, unreadable: set<string>, unremovable: set<string>,
                                      user: string, project: string, order: seq<string>)
    requires FileName("") !in unreadable
    requires IsGlob(order, Created(files, "", user, project))
    ensures Listed(Created(files, "", user, project), unreadable, order).Listing?
    ensures Entry("", DataSet(user, project)) in Listed(Created(files, "", user, project), unreadable, order).lines
    ensures Fetched(Created(files, "", user, project), unreadable, "") == Err(NameRequired)
    ensures DeleteOutcome(Created(files, "", user, project), unremovable, "") == Failed(NameRequired)
  {
    var created := Created(files, "", user, project);
    FileNameMatchesGlob("");
    var i :| 0 <= i < |order| && order[i] == FileName("");
    var lines := ListLines(created, unreadable, order);
    FileNameInjective(lines[i].name, "");
    assert lines[i] == Entry("", DataSet(user, project));
  }

  // ---------------------------------------------------------------------
  // Creating N profiles and listing them

  predicate DistinctNames(profiles: seq<Profile>)
  {
    forall i, j :: 0 <= i < j < |profiles| ==> profiles[i].name != profiles[j].name
  }

  /** The directory's content after `create` is run for each profile in
      turn. */
  function CreatedAll(files: map<string, Document>, profiles: seq<Profile>): map<string, Document>
  {
    if profiles == [] then files
    else
      var p := profiles[|profiles| - 1];
      Created(CreatedAll(files, profiles[..|profiles| - 1]), p.name, p.data.user, p.data.project)
  }

  /** The files that creating `profiles` writes. */
  function NameFiles(profiles: seq<Profile>): set<string>
  {
    set i | 0 <= i < |profiles| :: FileName(profiles[i].name)
  }

  lemma NameFilesLast(profiles: seq<Profile>)
    requires profiles != []
    ensures NameFiles(profiles) == NameFiles(profiles[..|profiles| - 1]) + {FileName(profiles[|profiles| - 1].name)}
  {
    var n := |profiles| - 1;
    forall f | f in NameFiles(profiles)
      ensures f in NameFiles(profiles[..n]) + {FileName(profiles[n].name)}
    {
      var i :| 0 <= i < |profiles| && f == FileName(profiles[i].name);
      if i < n {
        assert f == FileName(profiles[..n][i].name);
      }
    }
    forall f | f in NameFiles(profiles[..n])
      ensures f in NameFiles(profiles)
    {
      var i :| 0 <= i < n && f == FileName(profiles[..n][i].name);
      assert f == FileName(profiles[i].name);
    }
  }

  /** Creating profiles with distinct names writes one file per profile. */
  lemma {:induction false} NameFilesCount(profiles: seq<Profile>)
    requires DistinctNames(profiles)
    ensures |NameFiles(profiles)| == |profiles|
  {
    if profiles != [] {
      var n := |profiles| - 1;
      assert DistinctNames(profiles[..n]);
      NameFilesCount(profiles[..n]);
      NameFilesLast(profiles);
    }
  }

  /** Starting from an empty directory, the files present after creating
      `profiles` are exactly the profiles' files. */
  lemma {:induction false} CreatedAllKeys(profiles: seq<Profile>)
    ensures CreatedAll(map[], profiles).Keys == NameFiles(profiles)
  {
    if profiles != [] {
      CreatedAllKeys(profiles[..|profiles| - 1]);
      NameFilesLast(profiles);
    }
  }

  /** With distinct names, each profile's file holds that profile's record. */
  lemma {:induction false} CreatedAllHolds(profiles: seq<Profile>, i: nat)
    requires DistinctNames(profiles)
    requires i < |profiles|
    ensures FileName(profiles[i].name) in CreatedAll(map[], profiles)
    ensures CreatedAll(map[], profiles)[FileName(profiles[i].name)] == Marshal(profiles[i].data)
  {
    var n := |profiles| - 1;
    if i < n {
      assert DistinctNames(profiles[..n]);
      CreatedAllHolds(profiles[..n], i);
      if FileName(profiles[i].name) == FileName(profiles[n].name) {
        FileNameInjective(profiles[i].name, profiles[n].name);
      }
    }
  }

  function Elements(s: seq<string>): set<string>
  {
    set i | 0 <= i < |s| :: s[i]
  }

  /** A sequence without repetitions has as many distinct elements as it is
      long. */
  lemma {:induction false} DistinctElements(s: seq<string>)
    requires forall i, j :: 0 <= i < j < |s| ==> s[i] != s[j]
    ensures |Elements(s)| == |s|
  {
    if s != [] {
      var n := |s| - 1;
      DistinctElements(s[..n]);
      assert Elements(s) == Elements(s[..n]) + {s[n]};
      assert s[n] !in Elements(s[..n]);
    }
  }

  /** The glob finds every created profile's file. */
  lemma GlobFindsCreated(profiles: seq<Profile>, order: seq<string>)
    requires forall i :: 0 <= i < |profiles| ==> '/' !in profiles[i].name
    requires IsGlob(order, CreatedAll(map[], profiles))
    ensures forall j :: 0 <= j < |profiles| ==> FileName(profiles[j].name) in order
    ensures NameFiles(profiles) <= Elements(order)
  {
    var files := CreatedAll(map[], profiles);
    CreatedAllKeys(profiles);
    forall j | 0 <= j < |profiles|
      ensures FileName(profiles[j].name) in order
    {
      FileNameMatchesGlob(profiles[j].name);
      assert FileName(profiles[j].name) in files;
    }
    forall f | f in NameFiles(profiles)
      ensures f in Elements(order)
    {
      var j :| 0 <= j < |profiles| && f == FileName(profiles[j].name);
      var i :| 0 <= i < |order| && order[i] == f;
    }
  }

  /** The glob finds nothing but created profiles' files. */
  lemma GlobOnlyCreated(profiles: seq<Profile>, order: seq<string>)
    requires IsGlob(order, CreatedAll(map[], profiles))
    ensures Elements(order) <= NameFiles(profiles)
  {
    var files := CreatedAll(map[], profiles);
    CreatedAllKeys(profiles);
    forall f | f in Elements(order)
      ensures f in NameFiles(profiles)
    {
      var i :| 0 <= i < |order| && order[i] == f;
      assert f in files;
    }
  }

  /** After creating profiles with distinct names (and no path separators)
      in an empty directory, the glob finds exactly one file per profile. */
  lemma GlobAfterCreates(profiles: seq<Profile>, order: seq<string>)
    requires DistinctNames(profiles)
    requires forall i :: 0 <= i < |profiles| ==> '/' !in profiles[i].name
    requires IsGlob(order, CreatedAll(map[], profiles))
    ensures |order| == |profiles|
    ensures Elements(order) == NameFiles(profiles)
  {
    GlobFindsCreated(profiles, order);
    GlobOnlyCreated(profiles, order);
    SameElementsSameCount(profiles, order);
  }

  lemma SameElementsSameCount(profiles: seq<Profile>, order: seq<string>)
    requires DistinctNames(profiles)
    requires forall i, j :: 0 <= i < j < |order| ==> order[i] != order[j]
    requires Elements(order) <= NameFiles(profiles) && NameFiles(profiles) <= Elements(order)
    ensures |order| == |profiles|
  {
    NameFilesCount(profiles);
    assert Elements(order) == NameFiles(profiles);
    DistinctElements(order);
  }

  /** The line `list` writes for a created profile's file is that profile's
      summary. */
  lemma CreatedLine(profiles: seq<Profile>, unreadable: set<string>, order: seq<string>, i: nat, j: nat)
    requires DistinctNames(profiles)
    requires j < |profiles| && FileName(profiles[j].name) !in unreadable
    requires forall k :: 0 <= k < |order| ==> HasExt(order[k])
    requires i < |order| && order[i] == FileName(profiles[j].name)
    ensures ListLines(CreatedAll(map[], profiles), unreadable, order)[i] == Entry(profiles[j].name, profiles[j].data)
  {
    var lines := ListLines(CreatedAll(map[], profiles), unreadable, order);
    CreatedAllHolds(profiles, j);
    FileNameInjective(lines[i].name, profiles[j].name);
  }

  /** Each line of the listing is the summary of some created profile. */
  lemma ListedLineIsCreated(profiles: seq<Profile>, unreadable: set<string>, order: seq<string>, i: nat) returns (j: nat)
    requires DistinctNames(profiles)
    requires forall k :: 0 <= k < |profiles| ==> FileName(profiles[k].name) !in unreadable
    requires IsGlob(order, CreatedAll(map[], profiles))
    requires i < |order|
    ensures j < |profiles| && ListLines(CreatedAll(map[], profiles), unreadable, order)[i] == Entry(profiles[j].name, profiles[j].data)
  {
    GlobOnlyCreated(profiles, order);
    assert order[i] in Elements(order);
    j :| 0 <= j < |profiles| && FileName(profiles[j].name) == order[i];
    CreatedLine(profiles, unreadable, order, i, j);
  }

  /** Each created profile's summary is a line of the listing. */
  lemma CreatedIsListed(profiles: seq<Profile>, unreadable: set<string>, order: seq<string>, j: nat)
    requires DistinctNames(profiles)
    requires forall k :: 0 <= k < |profiles| ==> '/' !in profiles[k].name && FileName(profiles[k].name) !in unreadable
    requires IsGlob(order, CreatedAll(map[], profiles))
    requires j < |profiles|
    ensures Entry(profiles[j].name, profiles[j].data) in ListLines(CreatedAll(map[], profiles), unreadable, order)
  {
    GlobFindsCreated(profiles, order);
    var i :| 0 <= i < |order| && order[i] == FileName(profiles[j].name);
    CreatedLine(profiles, unreadable, order, i, j);
  }

  /** Listing a directory in which profiles with distinct names (and no path
      separators) were created, none of them unreadable, reports exactly one
      summary per created profile, showing its name and record. */
  lemma ListAfterCreates(profiles: seq<Profile>, unreadable: set<string>, order: seq<string>)
    requires DistinctNames(profiles)
    requires forall i :: 0 <= i < |profiles| ==> '/' !in profiles[i].name && FileName(profiles[i].name) !in unreadable
    requires IsGlob(order, CreatedAll(map[], profiles))
    ensures Listed(CreatedAll(map[], profiles), unreadable, order) == NoProfiles <==> profiles == []
    ensures var report := Listed(CreatedAll(map[], profiles), unreadable, order);
            report.Listing? ==>
              && |report.lines| == |profiles|
              && (forall i :: 0 <= i < |report.lines| ==>
                    exists j :: 0 <= j < |profiles| && report.lines[i] == Entry(profiles[j].name, profiles[j].data))
              && (forall j :: 0 <= j < |profiles| ==> Entry(profiles[j].name, profiles[j].data) in report.lines)
  {
    GlobAfterCreates(profiles, order);
    if order != [] {
      var lines := ListLines(CreatedAll(map[], profiles), unreadable, order);
      forall i | 0 <= i < |lines|
        ensures exists j :: 0 <= j < |profiles| && lines[i] == Entry(profiles[j].name, profiles[j].data)
      {
        var j := ListedLineIsCreated(profiles, unreadable, order, i);
      }
      forall j | 0 <= j < |profiles|
        ensures Entry(profiles[j].name, profiles[j].data) in lines
      {
        CreatedIsListed(profiles, unreadable, order, j);
      }
    }
  }
}

/** The file-backed flow registry (internal/registry/registry.go) as a finite map from names to contents. */
module Registry {
  import opened Strings
  import opened Job
  import opened Listing

  datatype RegistryError = InvalidFlowName | FlowNotFound | FlowExists | IoError

  /** File names of the flows directory, with their contents. */
  type Files = map<string, string>

  function Path(name: string): string {
    name + ".yaml"
  }

  predicate IsFlowFile(file: string) {
    HasSuffix(file, ".yaml") || HasSuffix(file, ".yml")
  }

  function FlowNameOf(file: string): string {
    TrimSuffix(TrimSuffix(file, ".yaml"), ".yml")
  }

  /** What a flow name means: queue and worker look it up trimmed. */
  function Meaning(files: Files, flow: string): Option<string> {
    var name := TrimSpace(flow);
    if ValidName(name) && Path(name) in files then Some(files[Path(name)]) else None
  }

  /** The directory as Add leaves it: nothing but flow files with valid names. */
  ghost predicate Tidy(files: Files) {
    forall f | f in files :: exists n :: PlainName(n) && f == Path(n)
  }

  lemma PathInjective(a: string, b: string)
    requires Path(a) == Path(b)
    ensures a == b
  {
    assert Path(a)[..|a|] == a && Path(b)[..|b|] == b;
  }

  lemma NoDotSuffix(n: string)
    requires forall c | c in n :: NameChar(c)
    ensures !HasSuffix(n, ".yml")
  {
    if |n| >= 4 {
      assert n[|n| - 4..][0] == n[|n| - 4] && NameChar(n[|n| - 4]);
    }
  }

  lemma PlainNameSpec(n: string)
    requires PlainName(n)
    ensures TrimSpace(n) == n && ValidName(n)
    ensures FlowNameOf(Path(n)) == n && IsFlowFile(Path(n))
  {
    forall c | c in n ensures !IsSpace(c) {
      assert NameChar(c);
    }
    TrimSpaceSpec(n);
    var f := Path(n);
    assert f[|f| - 5..] == ".yaml" && f[..|f| - 5] == n;
    NoDotSuffix(n);
  }

  /** A flow's name is its file's name without either extension. */
  lemma BothExtensions(n: string)
    requires PlainName(n)
    ensures IsFlowFile(n + ".yaml") && FlowNameOf(n + ".yaml") == n
    ensures IsFlowFile(n + ".yml") && FlowNameOf(n + ".yml") == n
  {
    PlainNameSpec(n);
    var f := n + ".yml";
    assert f[|f| - 4..] == ".yml" && f[..|f| - 4] == n;
    assert f[|f| - 5..] != ".yaml" || |f| < 5 by {
      if |f| >= 5 {
        assert f[|f| - 5..][1] == '.';
      }
    }
  }

  /** Every file of the directory, once. */
  ghost predicate Entries(entries: seq<string>, files: Files) {
    Distinct(entries) && forall f :: f in entries <==> f in files
  }

  /** What an entry contributes to the listing. */
  function Listed(file: string): multiset<string> {
    if IsFlowFile(file) then multiset{FlowNameOf(file)} else multiset{}
  }

  function Collected(entries: seq<string>, each: string -> multiset<string>): multiset<string> {
    if entries == [] then multiset{} else each(entries[0]) + Collected(entries[1..], each)
  }

  function FlowNames(entries: seq<string>): multiset<string> {
    Collected(entries, Listed)
  }

  lemma OneMore(f: string, rest: seq<string>, p: string -> bool)
    requires f !in rest
    ensures |set g | g in [f] + rest && p(g)| == |set g | g in rest && p(g)| + if p(f) then 1 else 0
  {
    assert (set g | g in [f] + rest && p(g)) == (set g | g in rest && p(g)) + if p(f) then {f} else {};
  }

  lemma {:induction false} CollectedCount(entries: seq<string>, each: string -> multiset<string>, p: string -> bool,
                                          n: string)
    requires Distinct(entries) && forall f :: each(f)[n] == if p(f) then 1 else 0
    ensures Collected(entries, each)[n] == |set f | f in entries && p(f)|
  {
    if entries != [] {
      var f, rest := entries[0], entries[1..];
      CollectedCount(rest, each, p, n);
      assert forall i | 1 <= i < |entries| :: entries[i] == rest[i - 1];
      assert entries == [f] + rest;
      OneMore(f, rest, p);
    }
  }

  /** The files that stand for the flow of a given name. */
  function Named(n: string): string -> bool {
    (f: string) => IsFlowFile(f) && FlowNameOf(f) == n
  }

  lemma ListedOnce(f: string, n: string)
    ensures Listed(f)[n] == if Named(n)(f) then 1 else 0
  {
  }

  lemma CountFiles(entries: seq<string>, files: Files, each: string -> multiset<string>, p: string -> bool, n: string)
    requires Entries(entries, files) && forall f :: each(f)[n] == if p(f) then 1 else 0
    ensures Collected(entries, each)[n] == |set f | f in files && p(f)|
  {
    CollectedCount(entries, each, p, n);
    assert (set f | f in entries && p(f)) == set f | f in files && p(f);
  }

  /** Every flow file is listed once under its name. */
  lemma FlowNamesCount(entries: seq<string>, files: Files, n: string)
    requires Entries(entries, files)
    ensures FlowNames(entries)[n] == |set f | f in files && Named(n)(f)|
  {
    forall f ensures Listed(f)[n] == if Named(n)(f) then 1 else 0 {
      ListedOnce(f, n);
    }
    CountFiles(entries, files, Listed, Named(n), n);
  }

  predicate Sorted(names: seq<string>) {
    forall i, j | 0 <= i < j < |names| :: Before(names[i], names[j])
  }

  function InsertName(names: seq<string>, name: string): (r: seq<string>)
    ensures multiset(r) == multiset(names) + multiset{name}
  {
    if names == [] || Less(name, names[0]) then [name] + names
    else
      assert names == [names[0]] + names[1..];
      [names[0]] + InsertName(names[1..], name)
  }

  lemma BeforeTransitive(a: string, b: string, c: string)
    requires Before(a, b) && Before(b, c)
    ensures Before(a, c)
  {
    if a != b && b != c {
      LessTransitive(a, b, c);
    }
  }

  lemma {:induction false} InsertNameSorted(names: seq<string>, name: string)
    requires Sorted(names)
    ensures Sorted(InsertName(names, name))
  {
    if names != [] {
      LessTrichotomy(name, names[0]);
      if Less(name, names[0]) {
        forall n | n in names ensures Before(name, n) {
          BeforeTransitive(name, names[0], n);
        }
      } else {
        InsertNameSorted(names[1..], name);
        var rest := InsertName(names[1..], name);
        forall n | n in rest ensures Before(names[0], n) {
          assert n in multiset(rest);
          assert n == name || n in names[1..];
        }
      }
    }
  }

  function RenameError(files: Files, oldName: string, newName: string, renamed: bool): Option<RegistryError> {
    var o, n := TrimSpace(oldName), TrimSpace(newName);
    if !ValidName(o) || !ValidName(n) then Some(InvalidFlowName)
    else if Path(o) !in files then Some(FlowNotFound)
    else if Path(n) in files then Some(FlowExists)
    else if renamed then None else Some(IoError)
  }

  function Renamed(files: Files, oldName: string, newName: string, removed: bool): Files
    requires Path(TrimSpace(oldName)) in files
  {
    var o, n := Path(TrimSpace(oldName)), Path(TrimSpace(newName));
    files[n := files[o]] - (if removed then {o} else {})
  }

  class FileFlowRegistry {
    var files: Files

    constructor ()
      ensures files == map[] && Tidy(files)
    {
      files := map[];
    }

    method Exists(name: string) returns (ok: bool)
      ensures ok <==> Path(name) in files
    {
      return Path(name) in files;
    }

    /** One name for each flow file, sorted. */
    method List() returns (flows: seq<string>)
      ensures Sorted(flows)
      ensures exists entries :: Entries(entries, files) && multiset(flows) == FlowNames(entries)
      ensures forall n :: multiset(flows)[n] == |set f | f in files && Named(n)(f)|
    {
      var entries := ReadDir(files.Keys);
      assert Entries(entries, files);
      flows := [];
      for i := 0 to |entries|
        invariant Sorted(flows) && multiset(flows) + FlowNames(entries[i..]) == FlowNames(entries)
      {
        assert entries[i..][1..] == entries[i + 1..];
        if IsFlowFile(entries[i]) {
          InsertNameSorted(flows, FlowNameOf(entries[i]));
          flows := InsertName(flows, FlowNameOf(entries[i]));
        }
      }
      forall n ensures multiset(flows)[n] == |set f | f in files && Named(n)(f)| {
        FlowNamesCount(entries, files, n);
      }
    }

    method Get(name: string) returns (content: Option<string>, error: Option<RegistryError>)
      ensures content == Meaning(files, name)
      ensures content == if ValidName(TrimSpace(name)) && TrimSpace(name) + ".yaml" in files
                         then Some(files[TrimSpace(name) + ".yaml"]) else None
      ensures error == if content.Some? then None
                       else if ValidName(TrimSpace(name)) then Some(FlowNotFound) else Some(InvalidFlowName)
    {
      var n := TrimSpace(name);
      if !ValidName(n) {
        return None, Some(InvalidFlowName);
      }
      if Path(n) !in files {
        return None, Some(FlowNotFound);
      }
      return Some(files[Path(n)]), None;
    }

    /** `renamed` tells whether writing and renaming the temporary file succeeds. */
    method Add(name: string, content: string, renamed: bool) returns (error: Option<RegistryError>)
      modifies this
      ensures error == if !ValidName(TrimSpace(name)) then Some(InvalidFlowName)
                       else if renamed then None else Some(IoError)
      ensures files == if error.None? then old(files)[TrimSpace(name) + ".yaml" := content] else old(files)
      ensures Tidy(old(files)) ==> Tidy(files)
    {
      var n := TrimSpace(name);
      if !ValidName(n) {
        return Some(InvalidFlowName);
      }
      if !renamed {
        return Some(IoError);
      }
      TrimSpaceTwice(name);
      files := files[Path(n) := content];
      return None;
    }

    method Delete(name: string, removed: bool) returns (error: Option<RegistryError>)
      modifies this
      ensures error == if !ValidName(TrimSpace(name)) then Some(InvalidFlowName)
                       else if TrimSpace(name) + ".yaml" !in old(files) then Some(FlowNotFound)
                       else if removed then None else Some(IoError)
      ensures files == old(files) - (if error.None? then {TrimSpace(name) + ".yaml"} else {})
    {
      var n := TrimSpace(name);
      if !ValidName(n) {
        return Some(InvalidFlowName);
      }
      if Path(n) !in files {
        return Some(FlowNotFound);
      }
      if !removed {
        return Some(IoError);
      }
      files := files - {Path(n)};
      return None;
    }

    /** `renamed` is as for Add; `removed` tells whether the old file can be removed, which is not checked. */
    method Rename(oldName: string, newName: string, renamed: bool, removed: bool) returns (error: Option<RegistryError>)
      modifies this
      ensures error == RenameError(old(files), oldName, newName, renamed)
      ensures error == if !ValidName(TrimSpace(oldName)) || !ValidName(TrimSpace(newName)) then Some(InvalidFlowName)
                       else if TrimSpace(oldName) + ".yaml" !in old(files) then Some(FlowNotFound)
                       else if TrimSpace(newName) + ".yaml" in old(files) then Some(FlowExists)
                       else if renamed then None else Some(IoError)
      ensures files == if error.None? then Renamed(old(files), oldName, newName, removed) else old(files)
    {
      var o, n := TrimSpace(oldName), TrimSpace(newName);
      if !ValidName(o) || !ValidName(n) {
        return Some(InvalidFlowName);
      }
      if Path(o) !in files {
        return Some(FlowNotFound);
      }
      if Path(n) in files {
        return Some(FlowExists);
      }
      if !renamed {
        return Some(IoError);
      }
      files := files[Path(n) := files[Path(o)]];
      if removed {
        files := files - {Path(o)};
      }
      return None;
    }
  }

  /** A rename changes what exactly two names mean: the new one means what the old one did, the old one nothing. */
  lemma RenameMeaning(files: Files, oldName: string, newName: string, flow: string)
    requires RenameError(files, oldName, newName, true).None?
    ensures
      var after, t := Renamed(files, oldName, newName, true), TrimSpace(flow);
      && (t == TrimSpace(newName) ==> Meaning(after, flow) == Meaning(files, oldName) && Meaning(after, flow).Some?)
      && (t == TrimSpace(oldName) ==> Meaning(after, flow) == None)
      && (t != TrimSpace(oldName) && t != TrimSpace(newName) ==> Meaning(after, flow) == Meaning(files, flow))
  {
    var o, n, t := TrimSpace(oldName), TrimSpace(newName), TrimSpace(flow);
    if Path(t) == Path(o) {
      PathInjective(t, o);
    }
    if Path(t) == Path(n) {
      PathInjective(t, n);
    }
  }

  /** Renaming back restores the directory. */
  lemma RenameBack(files: Files, oldName: string, newName: string)
    requires RenameError(files, oldName, newName, true).None?
    ensures var after := Renamed(files, oldName, newName, true);
            RenameError(after, newName, oldName, true).None? && Renamed(after, newName, oldName, true) == files
  {
    var o, n := Path(TrimSpace(oldName)), Path(TrimSpace(newName));
    assert o != n;
    assert (files[n := files[o]] - {o})[o := files[o]] - {n} == files;
  }

  /** In a tidy directory the names listed are exactly those that mean something. */
  lemma ListedNamesMean(files: Files, n: string)
    requires Tidy(files)
    ensures (exists f :: f in files && IsFlowFile(f) && FlowNameOf(f) == n) <==> Trimmed(n) && Meaning(files, n).Some?
  {
    TrimSpaceSpec(n);
    if exists f :: f in files && IsFlowFile(f) && FlowNameOf(f) == n {
      var f :| f in files && IsFlowFile(f) && FlowNameOf(f) == n;
      var m :| PlainName(m) && f == Path(m);
      PlainNameSpec(m);
    }
    if Trimmed(n) && Meaning(files, n).Some? {
      PlainNameSpec(n);
      assert Path(n) in files;
    }
  }
}

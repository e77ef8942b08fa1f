/** Renaming a flow: the registry first, then the schedules that refer to it (internal/server/server.go). */
module Rename {
  import opened Strings
  import opened Job
  import R = Registry
  import S = Scheduler

  datatype Renaming = BadRequest | Refused(error: R.RegistryError) | Completed

  /** The raw names of the request are used for both; only the registry trims them. */
  method RenameFlow(scheduler: S.Scheduler, oldName: string, newName: string, renamed: bool, removed: bool,
                    failing: set<string>)
      returns (r: Renaming)
    requires S.WellKeyed(scheduler.store.files)
    modifies scheduler.registry, scheduler.store
    ensures r == if oldName == "" || newName == "" then BadRequest
                 else match R.RenameError(old(scheduler.registry.files), oldName, newName, renamed)
                      case Some(e) => Refused(e)
                      case None => Completed
    ensures r.Completed? ==>
              && scheduler.registry.files == R.Renamed(old(scheduler.registry.files), oldName, newName, removed)
              && scheduler.store.files == S.Relinked(old(scheduler.store.files), oldName, newName, failing)
    ensures !r.Completed? ==>
              && scheduler.registry.files == old(scheduler.registry.files)
              && scheduler.store.files == old(scheduler.store.files)
  {
    if oldName == "" || newName == "" {
      return BadRequest;
    }
    var error := scheduler.registry.Rename(oldName, newName, renamed, removed);
    if error.Some? {
      return Refused(error.value);
    }
    scheduler.UpdateFlowReferences(oldName, newName, failing);
    return Completed;
  }

  /** What a schedule would run. */
  function Runs(files: R.Files, x: S.Schedule): Option<string> {
    R.Meaning(files, x.flow)
  }

  /** A schedule means the renamed flow, but does not spell it as the request does. */
  predicate Overlooked(x: S.Schedule, oldName: string) {
    x.flow != oldName && TrimSpace(x.flow) == TrimSpace(oldName)
  }

  /** What one schedule runs after a rename in which all file operations succeed. */
  lemma OneSchedule(files: R.Files, x: S.Schedule, oldName: string, newName: string)
    requires R.RenameError(files, oldName, newName, true).None? && Runs(files, x).Some?
    ensures
      var y := if x.flow == oldName then x.(flow := newName) else x;
      Runs(R.Renamed(files, oldName, newName, true), y) == Runs(files, x) <==> !Overlooked(x, oldName)
  {
    R.RenameMeaning(files, oldName, newName, newName);
    R.RenameMeaning(files, oldName, newName, x.flow);
  }

  /**
   Rename preserves meaning: every schedule whose flow existed runs the same content as before,
   if and only if no schedule refers to the flow in another spelling than the request's.
   */
  lemma RenamePreservesMeaning(files: R.Files, store: S.Store, oldName: string, newName: string)
    requires R.RenameError(files, oldName, newName, true).None?
    ensures
      var files', store' := R.Renamed(files, oldName, newName, true), S.Relinked(store, oldName, newName, {});
      (forall n | n in store && Runs(files, store[n]).Some? :: Runs(files', store'[n]) == Runs(files, store[n])) <==>
      (forall n | n in store :: !Overlooked(store[n], oldName))
  {
    var files', store' := R.Renamed(files, oldName, newName, true), S.Relinked(store, oldName, newName, {});
    forall n | n in store && Runs(files, store[n]).Some?
      ensures Runs(files', store'[n]) == Runs(files, store[n]) <==> !Overlooked(store[n], oldName)
    {
      OneSchedule(files, store[n], oldName, newName);
    }
    assert forall n | n in store && Overlooked(store[n], oldName) :: Runs(files, store[n]).Some?;
  }

  /**
   After an accepted rename a schedule still refers to the flow that is gone if and only if it
   was overlooked, and such a schedule runs nothing any more.
   */
  lemma RenameLeavesNoTrace(files: R.Files, store: S.Store, oldName: string, newName: string, n: string)
    requires R.RenameError(files, oldName, newName, true).None? && n in store
    ensures
      var files', x := R.Renamed(files, oldName, newName, true), S.Relinked(store, oldName, newName, {})[n];
      && (TrimSpace(x.flow) == TrimSpace(oldName) <==> Overlooked(store[n], oldName))
      && (Overlooked(store[n], oldName) ==> Runs(files, store[n]).Some? && Runs(files', x).None?)
  {
    R.RenameMeaning(files, oldName, newName, store[n].flow);
  }

  /** A request with a trailing space in the old name is accepted and overlooks the flow's schedules. */
  lemma RenameOverlooks(content: string, x: S.Schedule)
    requires x.name == "s" && x.flow == "a"
    ensures R.RenameError(map[R.Path("a") := content], "a ", "b", true).None?
    ensures
      var files, store := map[R.Path("a") := content], map["s" := x];
      var files', y := R.Renamed(files, "a ", "b", true), S.Relinked(store, "a ", "b", {})["s"];
      y == x && Runs(files, x) == Some(content) && Runs(files', y) == None
  {
    var files := map[R.Path("a") := content];
    S.SpacedName();
    R.PathInjective("a", "a");
    if R.Path("a") == R.Path("b") {
      R.PathInjective("a", "b");
    }
    R.RenameMeaning(files, "a ", "b", "a");
  }
}

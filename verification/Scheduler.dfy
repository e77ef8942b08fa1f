/**
 The scheduler (internal/scheduler/scheduler.go) over its file store (internal/scheduler/store.go)
 and the cron engine: which schedules are on disk, which have an entry, and which triggers run.
 */
module Scheduler {
  import opened Strings
  import opened Job
  import opened Listing
  import Registry

  // ---------------------------------------------------------------- schedules

  datatype ScheduleType = Interval | Cron | Other

  datatype Schedule = Schedule(
    name: string,
    flow: string,
    inputs: map<string, string>,
    kind: ScheduleType,
    expression: string,
    enabled: bool,
    createdAt: int,
    lastRunAt: Option<int>)

  function CronSpec(s: Schedule): string {
    if s.kind.Interval? then "@every " + s.expression else s.expression
  }

  datatype ScheduleError = InvalidName | InvalidType | InvalidExpression | FlowNotFound | ScheduleExists | NotFound
                         | IoError

  // ---------------------------------------------------------------- the store

  type Store = map<string, Schedule>

  function Saved(store: Store, s: Schedule): Store {
    store[s.name := s]
  }

  predicate WellKeyed(store: Store) {
    forall n | n in store :: store[n].name == n && ValidName(n)
  }

  /** Every schedule of the store exactly once. */
  predicate Lists(schedules: seq<Schedule>, store: Store) {
    && (forall i | 0 <= i < |schedules| :: schedules[i].name in store && store[schedules[i].name] == schedules[i])
    && (forall n | n in store :: store[n] in schedules)
    && forall i, j | 0 <= i < j < |schedules| :: schedules[i].name != schedules[j].name
  }

  function GetError(store: Store, name: string): Option<ScheduleError> {
    if !ValidName(TrimSpace(name)) then Some(InvalidName)
    else if TrimSpace(name) !in store then Some(NotFound) else None
  }

  function SaveError(s: Schedule, renamed: bool): Option<ScheduleError> {
    if !ValidName(TrimSpace(s.name)) then Some(InvalidName) else if renamed then None else Some(IoError)
  }

  function DeleteError(store: Store, name: string, removed: bool): Option<ScheduleError> {
    if GetError(store, name).Some? then GetError(store, name) else if removed then None else Some(IoError)
  }

  class FileStore {
    var files: Store

    constructor (files: Store)
      ensures this.files == files
    {
      this.files := files;
    }

    method Exists(name: string) returns (ok: bool)
      ensures ok <==> name in files
    {
      return name in files;
    }

    /** All schedules, in the order of their names. */
    method List() returns (schedules: seq<Schedule>)
      requires WellKeyed(files)
      ensures Lists(schedules, files)
      ensures forall i, j | 0 <= i < j < |schedules| :: Less(schedules[i].name, schedules[j].name)
    {
      var names := SortedNames(files.Keys);
      AscendingDistinct(names);
      schedules := [];
      for i := 0 to |names|
        invariant |schedules| == i && forall j | 0 <= j < i :: names[j] in files && schedules[j] == files[names[j]]
      {
        assert names[i] in names;
        schedules := schedules + [files[names[i]]];
      }
      forall n | n in files ensures files[n] in schedules {
        var j :| 0 <= j < |names| && names[j] == n;
        assert schedules[j] == files[n];
      }
    }

    /** The name is looked up trimmed. */
    method Get(name: string) returns (s: Option<Schedule>, error: Option<ScheduleError>)
      ensures error == if !ValidName(TrimSpace(name)) then Some(InvalidName)
                       else if TrimSpace(name) !in files then Some(NotFound) else None
      ensures s == if error.None? then Some(files[TrimSpace(name)]) else None
    {
      var n := TrimSpace(name);
      if !ValidName(n) {
        return None, Some(InvalidName);
      }
      if n !in files {
        return None, Some(NotFound);
      }
      return Some(files[n]), None;
    }

    /** The name is checked trimmed, but the file is named as the schedule is. */
    method Save(s: Schedule, renamed: bool) returns (error: Option<ScheduleError>)
      modifies this
      ensures error == if !ValidName(TrimSpace(s.name)) then Some(InvalidName)
                       else if renamed then None else Some(IoError)
      ensures files == if error.None? then old(files)[s.name := s] else old(files)
    {
      if !ValidName(TrimSpace(s.name)) {
        return Some(InvalidName);
      }
      if !renamed {
        return Some(IoError);
      }
      files := Saved(files, s);
      return None;
    }

    method Delete(name: string, removed: bool) returns (error: Option<ScheduleError>)
      modifies this
      ensures error == if !ValidName(TrimSpace(name)) then Some(InvalidName)
                       else if TrimSpace(name) !in old(files) then Some(NotFound)
                       else if !removed then Some(IoError) else None
      ensures files == old(files) - (if error.None? then {TrimSpace(name)} else {})
    {
      var n := TrimSpace(name);
      if !ValidName(n) {
        return Some(InvalidName);
      }
      if n !in files {
        return Some(NotFound);
      }
      if !removed {
        return Some(IoError);
      }
      files := files - {n};
      return None;
    }
  }

  // ---------------------------------------------------------------- the state and its invariants

  /** A running cron entry: the schedule it was made for and its specification. */
  datatype Trigger = Trigger(name: string, spec: string)

  datatype State = State(store: Store, entries: map<string, nat>, cron: map<nat, Trigger>, nextId: nat)

  /** The state of a new scheduler over whatever the store holds. */
  function Fresh(store: Store): State {
    State(store, map[], map[], 0)
  }

  /** entries is a bijection onto the live triggers. */
  predicate Bijective(s: State) {
    && (forall n | n in s.entries :: s.entries[n] in s.cron && s.cron[s.entries[n]].name == n)
    && (forall id | id in s.cron :: s.cron[id].name in s.entries && s.entries[s.cron[id].name] == id)
    && forall id | id in s.cron :: id < s.nextId
  }

  /** Every entry belongs to an enabled schedule on disk, and its trigger runs that schedule's expression. */
  predicate EntryOk(s: State, n: string, valid: string -> bool)
    requires n in s.entries
  {
    && n in s.store && s.store[n].enabled && valid(CronSpec(s.store[n]))
    && s.entries[n] in s.cron && s.cron[s.entries[n]] == Trigger(n, CronSpec(s.store[n]))
  }

  predicate Coherent(s: State, valid: string -> bool) {
    WellKeyed(s.store) && Bijective(s) && forall n | n in s.entries :: EntryOk(s, n, valid)
  }

  /** Conversely, every enabled schedule has an entry. */
  predicate Complete(s: State) {
    forall n | n in s.store && s.store[n].enabled :: n in s.entries
  }

  predicate AllValid(s: State, valid: string -> bool) {
    forall n | n in s.store :: valid(CronSpec(s.store[n]))
  }

  /** What coherence is for: an enabled schedule has exactly one trigger, any other name has none. */
  lemma OneTriggerEach(s: State, valid: string -> bool, name: string)
    requires Coherent(s, valid) && Complete(s)
    ensures name in s.store && s.store[name].enabled <==> exists id :: id in s.cron && s.cron[id].name == name
    ensures forall i, j | i in s.cron && j in s.cron && s.cron[i].name == s.cron[j].name :: i == j
  {
    if name in s.store && s.store[name].enabled {
      assert EntryOk(s, name, valid);
    }
    forall i | i in s.cron && s.cron[i].name == name ensures name in s.store && s.store[name].enabled {
      assert EntryOk(s, name, valid);
    }
  }

  // ---------------------------------------------------------------- the operations on states

  /** addEntry: AddFunc refuses an invalid specification. */
  function AddEntry(s: State, x: Schedule, valid: string -> bool): State {
    if valid(CronSpec(x)) then
      s.(entries := s.entries[x.name := s.nextId],
      cron := s.cron[s.nextId := Trigger(x.name, CronSpec(x))],
      nextId := s.nextId + 1)
    else s
  }

  function AddError(x: Schedule, valid: string -> bool): Option<ScheduleError> {
    if valid(CronSpec(x)) then None else Some(InvalidExpression)
  }

  function RemoveEntry(s: State, name: string): State {
    if name in s.entries then s.(cron := s.cron - {s.entries[name]}, entries := s.entries - {name}) else s
  }

  function StartAll(s: State, schedules: seq<Schedule>, valid: string -> bool): State
    decreases |schedules|
  {
    if schedules == [] then s
    else StartAll(if schedules[0].enabled then AddEntry(s, schedules[0], valid) else s, schedules[1..], valid)
  }

  /** What an operation makes of the state, and the error it returns. */
  datatype Outcome = Outcome(state: State, error: Option<ScheduleError>)

  /** The checks Create and Update begin with. */
  function RequestError(x: Schedule, flowKnown: bool, valid: string -> bool): Option<ScheduleError> {
    if !ValidName(x.name) then Some(InvalidName)
    else if x.kind.Other? then Some(InvalidType)
    else if !valid(CronSpec(x)) then Some(InvalidExpression)
    else if !flowKnown then Some(FlowNotFound)
    else None
  }

  /** Save followed, for an enabled schedule, by addEntry. */
  function SaveAndAdd(s: State, x: Schedule, saved: bool, valid: string -> bool): Outcome {
    if SaveError(x, saved).Some? then Outcome(s, SaveError(x, saved))
    else
      var s1 := s.(store := Saved(s.store, x));
      if x.enabled then Outcome(AddEntry(s1, x, valid), AddError(x, valid)) else Outcome(s1, None)
  }

  function CreateSpec(s: State, x: Schedule, flowKnown: bool, now: int, saved: bool, valid: string -> bool): Outcome {
    if RequestError(x, flowKnown, valid).Some? then Outcome(s, RequestError(x, flowKnown, valid))
    else if x.name in s.store then Outcome(s, Some(ScheduleExists))
    else SaveAndAdd(s, x.(createdAt := now), saved, valid)
  }

  function UpdateSpec(s: State, x: Schedule, flowKnown: bool, saved: bool, valid: string -> bool): Outcome {
    if RequestError(x, flowKnown, valid).Some? then Outcome(s, RequestError(x, flowKnown, valid))
    else if GetError(s.store, x.name).Some? then Outcome(s, GetError(s.store, x.name))
    else
      var existing := s.store[TrimSpace(x.name)];
      var kept := x.(createdAt := existing.createdAt, lastRunAt := existing.lastRunAt);
      SaveAndAdd(RemoveEntry(s, x.name), kept, saved, valid)
  }

  function DeleteSpec(s: State, name: string, removed: bool): Outcome {
    if !ValidName(name) then Outcome(s, Some(InvalidName))
    else
      var s1 := RemoveEntry(s, name);
      if DeleteError(s.store, name, removed).Some? then Outcome(s1, DeleteError(s.store, name, removed))
      else Outcome(s1.(store := s.store - {TrimSpace(name)}), None)
  }

  function EnableSpec(s: State, name: string, saved: bool, valid: string -> bool): Outcome {
    if GetError(s.store, name).Some? then Outcome(s, GetError(s.store, name))
    else
      var x := s.store[TrimSpace(name)];
      if x.enabled then Outcome(s, None) else SaveAndAdd(s, x.(enabled := true), saved, valid)
  }

  function DisableSpec(s: State, name: string, saved: bool): Outcome {
    if GetError(s.store, name).Some? then Outcome(s, GetError(s.store, name))
    else
      var x := s.store[TrimSpace(name)];
      if !x.enabled then Outcome(s, None)
      else
        var s1 := RemoveEntry(s, name);
        if SaveError(x, saved).Some? then Outcome(s1, SaveError(x, saved))
        else Outcome(s1.(store := Saved(s.store, x.(enabled := false))), None)
  }

  /** scheduleJob: what is enqueued is read from the store when the trigger fires. */
  function Fired(s: State, id: nat): Option<Schedule> {
    if id in s.cron && GetError(s.store, s.cron[id].name).None? then Some(s.store[TrimSpace(s.cron[id].name)]) else None
  }

  function FireSpec(s: State, id: nat, enqueued: bool, now: int, saved: bool): State {
    match Fired(s, id)
    case None => s
    case Some(x) =>
      if enqueued && SaveError(x, saved).None? then s.(store := Saved(s.store, x.(lastRunAt := Some(now)))) else s
  }

  /** UpdateFlowReferences, in which the saves of `failing` schedules fail. */
  function Relinked(store: Store, oldName: string, newName: string, failing: set<string>): Store {
    map n | n in store :: if store[n].flow == oldName && n !in failing then store[n].(flow := newName) else store[n]
  }

  datatype Op =
    | Create(x: Schedule, flowKnown: bool, now: int, saved: bool)
    | Update(x: Schedule, flowKnown: bool, saved: bool)
    | Delete(name: string, removed: bool)
    | Enable(name: string, saved: bool)
    | Disable(name: string, saved: bool)
    | Fire(id: nat, enqueued: bool, now: int, saved: bool)
    | Relink(oldName: string, newName: string, failing: set<string>)

  function Apply(s: State, op: Op, valid: string -> bool): State {
    match op
    case Create(x, flowKnown, now, saved) => CreateSpec(s, x, flowKnown, now, saved, valid).state
    case Update(x, flowKnown, saved) => UpdateSpec(s, x, flowKnown, saved, valid).state
    case Delete(name, removed) => DeleteSpec(s, name, removed).state
    case Enable(name, saved) => EnableSpec(s, name, saved, valid).state
    case Disable(name, saved) => DisableSpec(s, name, saved).state
    case Fire(id, enqueued, now, saved) => FireSpec(s, id, enqueued, now, saved)
    case Relink(oldName, newName, failing) => s.(store := Relinked(s.store, oldName, newName, failing))
  }

  // ---------------------------------------------------------------- coherence is kept

  lemma AddBijective(s: State, x: Schedule, valid: string -> bool)
    requires Bijective(s) && x.name !in s.entries
    ensures Bijective(AddEntry(s, x, valid))
  {
  }

  lemma AddKeeps(s: State, x: Schedule, valid: string -> bool)
    requires Coherent(s, valid) && x.name in s.store && s.store[x.name] == x && x.enabled && x.name !in s.entries
    ensures Coherent(AddEntry(s, x, valid), valid)
  {
    var t := AddEntry(s, x, valid);
    AddBijective(s, x, valid);
    forall n | n in t.entries ensures EntryOk(t, n, valid) {
      if n in s.entries {
        assert EntryOk(s, n, valid);
      }
    }
  }

  lemma RemoveBijective(s: State, name: string)
    requires Bijective(s)
    ensures Bijective(RemoveEntry(s, name))
  {
  }

  lemma RemoveKeeps(s: State, name: string, valid: string -> bool)
    requires Coherent(s, valid)
    ensures Coherent(RemoveEntry(s, name), valid) && name !in RemoveEntry(s, name).entries
  {
    var t := RemoveEntry(s, name);
    RemoveBijective(s, name);
    forall n | n in t.entries ensures EntryOk(t, n, valid) {
      assert EntryOk(s, n, valid);
    }
  }

  /** The store may change where it does not concern the entries. */
  predicate Spares(s: State, store: Store) {
    forall n | n in s.entries && n in s.store ::
      n in store && store[n].enabled == s.store[n].enabled && CronSpec(store[n]) == CronSpec(s.store[n])
  }

  lemma StoreKeeps(s: State, store: Store, valid: string -> bool)
    requires Coherent(s, valid) && WellKeyed(store) && Spares(s, store)
    ensures Coherent(s.(store := store), valid)
  {
    var t := s.(store := store);
    forall n | n in t.entries ensures EntryOk(t, n, valid) {
      assert EntryOk(s, n, valid);
    }
  }

  lemma TrimmedValid(name: string)
    ensures TrimSpace(TrimSpace(name)) == TrimSpace(name)
    ensures ValidName(TrimSpace(name)) <==> ValidName(name)
  {
    TrimSpaceTwice(name);
  }

  lemma SaveAndAddKeeps(s: State, x: Schedule, saved: bool, valid: string -> bool)
    requires Coherent(s, valid) && x.name !in s.entries
    ensures Coherent(SaveAndAdd(s, x, saved, valid).state, valid)
  {
    TrimmedValid(x.name);
    if SaveError(x, saved).None? {
      StoreKeeps(s, Saved(s.store, x), valid);
      if x.enabled {
        AddKeeps(s.(store := Saved(s.store, x)), x, valid);
      }
    }
  }

  lemma OnlyEnabledEntered(s: State, n: string, valid: string -> bool)
    requires Coherent(s, valid)
    ensures n in s.entries ==> n in s.store && s.store[n].enabled
  {
    if n in s.entries {
      assert EntryOk(s, n, valid);
    }
  }

  lemma CreateKeeps(s: State, x: Schedule, flowKnown: bool, now: int, saved: bool, valid: string -> bool)
    requires Coherent(s, valid)
    ensures Coherent(CreateSpec(s, x, flowKnown, now, saved, valid).state, valid)
  {
    if x.name !in s.store {
      OnlyEnabledEntered(s, x.name, valid);
      SaveAndAddKeeps(s, x.(createdAt := now), saved, valid);
    }
  }

  lemma UpdateKeeps(s: State, x: Schedule, flowKnown: bool, saved: bool, valid: string -> bool)
    requires Coherent(s, valid)
    ensures Coherent(UpdateSpec(s, x, flowKnown, saved, valid).state, valid)
  {
    if GetError(s.store, x.name).None? {
      var existing := s.store[TrimSpace(x.name)];
      RemoveKeeps(s, x.name, valid);
      var kept := x.(createdAt := existing.createdAt, lastRunAt := existing.lastRunAt);
      SaveAndAddKeeps(RemoveEntry(s, x.name), kept, saved, valid);
    }
  }

  lemma EnableKeeps(s: State, name: string, saved: bool, valid: string -> bool)
    requires Coherent(s, valid)
    ensures Coherent(EnableSpec(s, name, saved, valid).state, valid)
  {
    if GetError(s.store, name).None? && !s.store[TrimSpace(name)].enabled {
      OnlyEnabledEntered(s, TrimSpace(name), valid);
      SaveAndAddKeeps(s, s.store[TrimSpace(name)].(enabled := true), saved, valid);
    }
  }

  /** The schedules that Delete and Disable fail to stop: those they reach only by trimming the name. */
  predicate Misaddressed(s: State, name: string) {
    name != TrimSpace(name) && TrimSpace(name) in s.entries
  }

  lemma NotEntryOk(s: State, n: string, valid: string -> bool)
    requires n in s.entries && (n in s.store ==> !s.store[n].enabled)
    ensures !Coherent(s, valid)
  {
    assert !EntryOk(s, n, valid);
  }

  /** What a misaddressed name addresses is there, so that the operation succeeds. */
  lemma MisaddressedIsFound(s: State, name: string, valid: string -> bool)
    requires Coherent(s, valid) && Misaddressed(s, name)
    ensures ValidName(name) && GetError(s.store, name).None? && s.store[TrimSpace(name)].enabled
  {
    TrimmedValid(name);
    OnlyEnabledEntered(s, TrimSpace(name), valid);
  }

  lemma DeletedSpares(s: State, name: string)
    requires WellKeyed(s.store) && !Misaddressed(s, name)
    ensures WellKeyed(s.store - {TrimSpace(name)}) && Spares(RemoveEntry(s, name), s.store - {TrimSpace(name)})
  {
  }

  /** Delete breaks coherence if and only if it can remove the file of a running schedule it misaddresses. */
  lemma DeleteExactly(s: State, name: string, removed: bool, valid: string -> bool)
    requires Coherent(s, valid)
    ensures Coherent(DeleteSpec(s, name, removed).state, valid) <==> !(removed && Misaddressed(s, name))
  {
    var n := TrimSpace(name);
    var out := DeleteSpec(s, name, removed);
    RemoveKeeps(s, name, valid);
    if Misaddressed(s, name) {
      MisaddressedIsFound(s, name, valid);
      if removed {
        NotEntryOk(out.state, n, valid);
      }
    } else if out.error.None? {
      TrimmedValid(name);
      DeletedSpares(s, name);
      StoreKeeps(RemoveEntry(s, name), s.store - {n}, valid);
    }
  }

  lemma DisabledSpares(s: State, name: string)
    requires WellKeyed(s.store) && !Misaddressed(s, name) && TrimSpace(name) in s.store
    ensures var store := Saved(s.store, s.store[TrimSpace(name)].(enabled := false));
            WellKeyed(store) && Spares(RemoveEntry(s, name), store)
  {
  }

  lemma DisabledKeeps(s: State, name: string, valid: string -> bool)
    requires Coherent(s, valid) && !Misaddressed(s, name) && TrimSpace(name) in s.store
    ensures var s1 := RemoveEntry(s, name);
            Coherent(s1.(store := Saved(s1.store, s.store[TrimSpace(name)].(enabled := false))), valid)
  {
    RemoveKeeps(s, name, valid);
    DisabledSpares(s, name);
    StoreKeeps(RemoveEntry(s, name), Saved(s.store, s.store[TrimSpace(name)].(enabled := false)), valid);
  }

  /** Disable likewise. */
  lemma DisableExactly(s: State, name: string, saved: bool, valid: string -> bool)
    requires Coherent(s, valid)
    ensures Coherent(DisableSpec(s, name, saved).state, valid) <==> !(saved && Misaddressed(s, name))
  {
    RemoveKeeps(s, name, valid);
    TrimmedValid(name);
    if Misaddressed(s, name) {
      MisaddressedIsFound(s, name, valid);
      if saved {
        NotEntryOk(DisableSpec(s, name, saved).state, TrimSpace(name), valid);
      }
    } else if GetError(s.store, name).None? && s.store[TrimSpace(name)].enabled && saved {
      DisabledKeeps(s, name, valid);
    }
  }

  lemma SpacedName()
    ensures TrimSpace("a ") == "a" && TrimSpace("a") == "a" && TrimSpace("b") == "b"
    ensures ValidName("a") && ValidName("a ") && ValidName("b")
  {
    assert "a "[..1] == "a";
    TrimSpaceSpec("a");
    TrimSpaceSpec("b");
  }

  /** Create "a", then Delete "a ": the schedule is gone, and its trigger goes on running. */
  lemma DeleteLeavesTrigger(x: Schedule, now: int, valid: string -> bool)
    requires x.name == "a" && x.enabled && !x.kind.Other? && valid(CronSpec(x))
    ensures
      var created := CreateSpec(Fresh(map[]), x, true, now, true, valid);
      var deleted := DeleteSpec(created.state, "a ", true);
      && created.error.None? && deleted.error.None?
      && deleted.state.store == map[] && deleted.state.cron == map[0 := Trigger("a", CronSpec(x))]
      && !Coherent(deleted.state, valid)
  {
    SpacedName();
    var y := x.(createdAt := now);
    var created := CreateSpec(Fresh(map[]), x, true, now, true, valid);
    assert created == Outcome(AddEntry(Fresh(map["a" := y]), y, valid), None);
    var deleted := DeleteSpec(created.state, "a ", true);
    assert map["a" := y] - {"a"} == map[];
    assert "a" in deleted.state.entries;
    NotEntryOk(deleted.state, "a", valid);
  }

  lemma SavedSpares(s: State, x: Schedule)
    requires WellKeyed(s.store) && x.name in s.store
    requires x.enabled == s.store[x.name].enabled && CronSpec(x) == CronSpec(s.store[x.name])
    ensures WellKeyed(Saved(s.store, x)) && Spares(s, Saved(s.store, x))
  {
  }

  lemma FireKeeps(s: State, id: nat, enqueued: bool, now: int, saved: bool, valid: string -> bool)
    requires Coherent(s, valid)
    ensures Coherent(FireSpec(s, id, enqueued, now, saved), valid)
  {
    if Fired(s, id).Some? {
      var x := Fired(s, id).value.(lastRunAt := Some(now));
      SavedSpares(s, x);
      StoreKeeps(s, Saved(s.store, x), valid);
    }
  }

  lemma RelinkedSpares(s: State, oldName: string, newName: string, failing: set<string>)
    requires WellKeyed(s.store)
    ensures var store := Relinked(s.store, oldName, newName, failing); WellKeyed(store) && Spares(s, store)
  {
  }

  lemma RelinkKeeps(s: State, oldName: string, newName: string, failing: set<string>, valid: string -> bool)
    requires Coherent(s, valid)
    ensures Coherent(s.(store := Relinked(s.store, oldName, newName, failing)), valid)
  {
    RelinkedSpares(s, oldName, newName, failing);
    StoreKeeps(s, Relinked(s.store, oldName, newName, failing), valid);
  }

  // ---------------------------------------------------------------- completeness is kept

  lemma SaveAndAddCompletes(s: State, x: Schedule, valid: string -> bool)
    requires forall n | n in s.store && s.store[n].enabled && n != x.name :: n in s.entries
    requires AllValid(s, valid) && valid(CronSpec(x)) && ValidName(x.name)
    ensures Complete(SaveAndAdd(s, x, true, valid).state) && AllValid(SaveAndAdd(s, x, true, valid).state, valid)
  {
    TrimmedValid(x.name);
  }

  lemma CreateCompletes(s: State, x: Schedule, flowKnown: bool, now: int, valid: string -> bool)
    requires Complete(s) && AllValid(s, valid)
    ensures var t := CreateSpec(s, x, flowKnown, now, true, valid).state; Complete(t) && AllValid(t, valid)
  {
    if RequestError(x, flowKnown, valid).None? {
      SaveAndAddCompletes(s, x.(createdAt := now), valid);
    }
  }

  lemma UpdateCompletes(s: State, x: Schedule, flowKnown: bool, valid: string -> bool)
    requires Complete(s) && AllValid(s, valid)
    ensures var t := UpdateSpec(s, x, flowKnown, true, valid).state; Complete(t) && AllValid(t, valid)
  {
    if RequestError(x, flowKnown, valid).None? && GetError(s.store, x.name).None? {
      var existing := s.store[TrimSpace(x.name)];
      var kept := x.(createdAt := existing.createdAt, lastRunAt := existing.lastRunAt);
      SaveAndAddCompletes(RemoveEntry(s, x.name), kept, valid);
    }
  }

  lemma EnableCompletes(s: State, name: string, valid: string -> bool)
    requires Complete(s) && AllValid(s, valid) && WellKeyed(s.store)
    ensures var t := EnableSpec(s, name, true, valid).state; Complete(t) && AllValid(t, valid)
  {
    if GetError(s.store, name).None? {
      SaveAndAddCompletes(s, s.store[TrimSpace(name)].(enabled := true), valid);
    }
  }

  /** Delete and Disable stop the schedule of the name as given, and then look at another one. */
  predicate Strands(s: State, op: Op) {
    && (op.Delete? || op.Disable?) && op.name != TrimSpace(op.name) && op.name in s.entries
    && (op.Delete? || (GetError(s.store, op.name).None? && s.store[TrimSpace(op.name)].enabled))
  }

  lemma DeleteStrands(s: State, op: Op, valid: string -> bool)
    requires op.Delete? && op.removed && Complete(s) && AllValid(s, valid) && Coherent(s, valid)
    ensures Complete(Apply(s, op, valid)) <==> !Strands(s, op)
    ensures AllValid(Apply(s, op, valid), valid)
  {
    TrimmedValid(op.name);
    OnlyEnabledEntered(s, op.name, valid);
    if Strands(s, op) {
      assert op.name in Apply(s, op, valid).store && op.name !in Apply(s, op, valid).entries;
    }
  }

  lemma DisableStrands(s: State, op: Op, valid: string -> bool)
    requires op.Disable? && op.saved && Complete(s) && AllValid(s, valid) && Coherent(s, valid)
    ensures Complete(Apply(s, op, valid)) <==> !Strands(s, op)
    ensures AllValid(Apply(s, op, valid), valid)
  {
    TrimmedValid(op.name);
    OnlyEnabledEntered(s, op.name, valid);
    if Strands(s, op) {
      assert op.name in Apply(s, op, valid).store && op.name !in Apply(s, op, valid).entries;
    }
  }

  lemma FireCompletes(s: State, id: nat, enqueued: bool, now: int, saved: bool, valid: string -> bool)
    requires Complete(s) && AllValid(s, valid) && WellKeyed(s.store)
    ensures var t := FireSpec(s, id, enqueued, now, saved); Complete(t) && AllValid(t, valid)
  {
  }

  lemma RelinkCompletes(s: State, oldName: string, newName: string, failing: set<string>, valid: string -> bool)
    requires Complete(s) && AllValid(s, valid)
    ensures var t := s.(store := Relinked(s.store, oldName, newName, failing)); Complete(t) && AllValid(t, valid)
  {
  }

  // ---------------------------------------------------------------- Start

  predicate NotYetIn(s: State, schedules: seq<Schedule>) {
    forall i | 0 <= i < |schedules| :: schedules[i].name !in s.entries
  }

  lemma {:induction false} StartKeeps(s: State, schedules: seq<Schedule>, valid: string -> bool)
    requires Coherent(s, valid) && NotYetIn(s, schedules)
    requires forall i | 0 <= i < |schedules| ::
               schedules[i].name in s.store && s.store[schedules[i].name] == schedules[i]
    requires forall i, j | 0 <= i < j < |schedules| :: schedules[i].name != schedules[j].name
    ensures Coherent(StartAll(s, schedules, valid), valid)
    ensures StartAll(s, schedules, valid).store == s.store
    decreases |schedules|
  {
    if schedules != [] {
      var x, rest := schedules[0], schedules[1..];
      assert forall i | 0 <= i < |rest| :: rest[i] == schedules[i + 1];
      if x.enabled {
        AddKeeps(s, x, valid);
        StartKeeps(AddEntry(s, x, valid), rest, valid);
      } else {
        StartKeeps(s, rest, valid);
      }
    }
  }

  predicate Startable(x: Schedule, n: string, valid: string -> bool) {
    x.name == n && x.enabled && valid(CronSpec(x))
  }

  lemma {:induction false} StartEnters(s: State, schedules: seq<Schedule>, valid: string -> bool, n: string)
    ensures n in StartAll(s, schedules, valid).entries <==>
              n in s.entries || exists i :: 0 <= i < |schedules| && Startable(schedules[i], n, valid)
    decreases |schedules|
  {
    if schedules != [] {
      var x, rest := schedules[0], schedules[1..];
      StartEnters(if x.enabled then AddEntry(s, x, valid) else s, rest, valid, n);
      assert forall i | 0 <= i < |rest| :: rest[i] == schedules[i + 1];
      if Startable(x, n, valid) {
        assert Startable(schedules[0], n, valid);
      }
    }
  }

  /** A first Start is coherent, and enters exactly the enabled schedules whose expression is valid. */
  lemma StartFresh(store: Store, schedules: seq<Schedule>, valid: string -> bool)
    requires WellKeyed(store) && Lists(schedules, store)
    ensures Coherent(StartAll(Fresh(store), schedules, valid), valid)
    ensures StartAll(Fresh(store), schedules, valid).store == store
    ensures forall n :: n in StartAll(Fresh(store), schedules, valid).entries <==>
                        n in store && Startable(store[n], n, valid)
  {
    StartKeeps(Fresh(store), schedules, valid);
    forall n
      ensures n in StartAll(Fresh(store), schedules, valid).entries <==> n in store && Startable(store[n], n, valid)
    {
      StartEnters(Fresh(store), schedules, valid, n);
      if n in store {
        var i :| 0 <= i < |schedules| && schedules[i] == store[n];
      }
    }
  }

  /** A trigger that no entry leads to: it can never be removed again. */
  predicate Orphan(s: State, id: nat, n: string) {
    id in s.cron && s.cron[id].name == n && n in s.entries && s.entries[n] != id && id < s.nextId
  }

  lemma {:induction false} StartKeepsOrphan(s: State, schedules: seq<Schedule>, valid: string -> bool,
                                            id: nat, n: string)
    requires Orphan(s, id, n)
    ensures Orphan(StartAll(s, schedules, valid), id, n)
    decreases |schedules|
  {
    if schedules != [] {
      var t := if schedules[0].enabled then AddEntry(s, schedules[0], valid) else s;
      StartKeepsOrphan(t, schedules[1..], valid, id, n);
    }
  }

  lemma {:induction false} StartOrphans(s: State, schedules: seq<Schedule>, valid: string -> bool, i: nat)
    requires i < |schedules| && Startable(schedules[i], schedules[i].name, valid)
    requires schedules[i].name in s.entries && s.entries[schedules[i].name] in s.cron
    requires s.cron[s.entries[schedules[i].name]].name == schedules[i].name
    requires forall id | id in s.cron :: id < s.nextId
    ensures exists id :: Orphan(StartAll(s, schedules, valid), id, schedules[i].name)
    decreases i
  {
    var x := schedules[0];
    var t := if x.enabled then AddEntry(s, x, valid) else s;
    var n := schedules[i].name;
    assert StartAll(s, schedules, valid) == StartAll(t, schedules[1..], valid);
    if i == 0 || (x.name == n && t != s) {
      assert Orphan(t, s.entries[n], n);
      StartKeepsOrphan(t, schedules[1..], valid, s.entries[n], n);
    } else {
      assert schedules[1..][i - 1] == schedules[i];
      StartOrphans(t, schedules[1..], valid, i - 1);
    }
  }

  /** Starting keeps a coherent scheduler coherent if and only if no schedule has an entry yet. */
  lemma StartExactly(s: State, schedules: seq<Schedule>, valid: string -> bool)
    requires Coherent(s, valid) && Lists(schedules, s.store)
    ensures Coherent(StartAll(s, schedules, valid), valid) <==> s.entries == map[]
  {
    if s.entries == map[] {
      StartKeeps(s, schedules, valid);
    } else {
      var n :| n in s.entries;
      assert EntryOk(s, n, valid);
      assert s.store[n] in schedules;
      var i :| 0 <= i < |schedules| && schedules[i] == s.store[n];
      StartOrphans(s, schedules, valid, i);
      var id :| Orphan(StartAll(s, schedules, valid), id, n);
    }
  }

  // ---------------------------------------------------------------- all runs

  /** The operation's writes to the store succeed. */
  predicate Written(op: Op) {
    match op
    case Delete(_, removed) => removed
    case Relink(_, _, _) => true
    case Fire(_, _, _, _) => true
    case _ => op.saved
  }

  predicate AllWritten(ops: seq<Op>) {
    forall i | 0 <= i < |ops| :: Written(ops[i])
  }

  /** Delete and Disable are given trimmed names. */
  predicate Addressed(op: Op) {
    op.Delete? || op.Disable? ==> op.name == TrimSpace(op.name)
  }

  predicate Breaks(s: State, op: Op) {
    (op.Delete? || op.Disable?) && Written(op) && Misaddressed(s, op.name)
  }

  /** Every operation keeps coherence, failing writes included, except exactly the misaddressed ones. */
  lemma OpExactly(s: State, op: Op, valid: string -> bool)
    requires Coherent(s, valid)
    ensures Coherent(Apply(s, op, valid), valid) <==> !Breaks(s, op)
  {
    match op {
      case Create(x, flowKnown, now, saved) => CreateKeeps(s, x, flowKnown, now, saved, valid);
      case Update(x, flowKnown, saved) => UpdateKeeps(s, x, flowKnown, saved, valid);
      case Delete(name, removed) => DeleteExactly(s, name, removed, valid);
      case Enable(name, saved) => EnableKeeps(s, name, saved, valid);
      case Disable(name, saved) => DisableExactly(s, name, saved, valid);
      case Fire(id, enqueued, now, saved) => FireKeeps(s, id, enqueued, now, saved, valid);
      case Relink(oldName, newName, failing) => RelinkKeeps(s, oldName, newName, failing, valid);
    }
  }

  /** With successful writes every enabled schedule keeps its entry, with exactly the stated exception. */
  lemma OpCompletes(s: State, op: Op, valid: string -> bool)
    requires Coherent(s, valid) && Complete(s) && AllValid(s, valid) && Written(op)
    ensures Complete(Apply(s, op, valid)) <==> !Strands(s, op)
    ensures AllValid(Apply(s, op, valid), valid)
  {
    match op {
      case Create(x, flowKnown, now, _) => CreateCompletes(s, x, flowKnown, now, valid);
      case Update(x, flowKnown, _) => UpdateCompletes(s, x, flowKnown, valid);
      case Delete(_, _) => DeleteStrands(s, op, valid);
      case Enable(name, _) => EnableCompletes(s, name, valid);
      case Disable(_, _) => DisableStrands(s, op, valid);
      case Fire(id, enqueued, now, saved) => FireCompletes(s, id, enqueued, now, saved, valid);
      case Relink(oldName, newName, failing) => RelinkCompletes(s, oldName, newName, failing, valid);
    }
  }

  /** The state is coherent before and after each of the operations. */
  predicate AlwaysCoherent(s: State, ops: seq<Op>, valid: string -> bool)
    decreases |ops|
  {
    Coherent(s, valid) && (ops != [] ==> AlwaysCoherent(Apply(s, ops[0], valid), ops[1..], valid))
  }

  /** No operation is misaddressed in the state it meets. */
  predicate NeverBreaks(s: State, ops: seq<Op>, valid: string -> bool)
    decreases |ops|
  {
    ops != [] ==> !Breaks(s, ops[0]) && NeverBreaks(Apply(s, ops[0], valid), ops[1..], valid)
  }

  /** As above, and every enabled schedule has an entry as well. */
  predicate AlwaysSound(s: State, ops: seq<Op>, valid: string -> bool)
    decreases |ops|
  {
    Coherent(s, valid) && Complete(s) && (ops != [] ==> AlwaysSound(Apply(s, ops[0], valid), ops[1..], valid))
  }

  predicate NeverHarms(s: State, ops: seq<Op>, valid: string -> bool)
    decreases |ops|
  {
    ops != [] ==>
      !Breaks(s, ops[0]) && !Strands(s, ops[0]) && NeverHarms(Apply(s, ops[0], valid), ops[1..], valid)
  }

  lemma {:induction false} RunExactly(s: State, ops: seq<Op>, valid: string -> bool)
    requires Coherent(s, valid)
    ensures AlwaysCoherent(s, ops, valid) <==> NeverBreaks(s, ops, valid)
    decreases |ops|
  {
    if ops != [] {
      OpExactly(s, ops[0], valid);
      if !Breaks(s, ops[0]) {
        RunExactly(Apply(s, ops[0], valid), ops[1..], valid);
      }
    }
  }

  lemma {:induction false} RunSound(s: State, ops: seq<Op>, valid: string -> bool)
    requires Coherent(s, valid) && Complete(s) && AllValid(s, valid) && AllWritten(ops)
    ensures AlwaysSound(s, ops, valid) <==> NeverHarms(s, ops, valid)
    decreases |ops|
  {
    if ops != [] {
      assert Written(ops[0]);
      OpExactly(s, ops[0], valid);
      OpCompletes(s, ops[0], valid);
      if !Breaks(s, ops[0]) && !Strands(s, ops[0]) {
        assert AllWritten(ops[1..]);
        RunSound(Apply(s, ops[0], valid), ops[1..], valid);
      }
    }
  }

  /** Callers who trim names are on the safe side. */
  lemma {:induction false} AddressedNeverHarms(s: State, ops: seq<Op>, valid: string -> bool)
    requires forall i | 0 <= i < |ops| :: Addressed(ops[i])
    ensures NeverHarms(s, ops, valid) && NeverBreaks(s, ops, valid)
    decreases |ops|
  {
    if ops != [] {
      assert Addressed(ops[0]);
      AddressedNeverHarms(Apply(s, ops[0], valid), ops[1..], valid);
    }
  }

  /**
   Scheduler coherence: after one Start and throughout any operations, failing writes included,
   entries are a bijection onto the live triggers and belong to enabled schedules, if and only
   if no Delete or Disable is misaddressed. If the writes succeed and the expressions found on
   disk were valid, each enabled schedule moreover has exactly one trigger, again with the exact
   exception. Operations with trimmed names never meet either.
   */
  lemma CoherentAlways(store: Store, schedules: seq<Schedule>, ops: seq<Op>, valid: string -> bool)
    requires WellKeyed(store) && Lists(schedules, store)
    ensures
      var s := StartAll(Fresh(store), schedules, valid);
      && (AlwaysCoherent(s, ops, valid) <==> NeverBreaks(s, ops, valid))
      && (AllWritten(ops) && AllValid(Fresh(store), valid) ==>
            (AlwaysSound(s, ops, valid) <==> NeverHarms(s, ops, valid)))
      && ((forall i | 0 <= i < |ops| :: Addressed(ops[i])) ==> NeverHarms(s, ops, valid) && NeverBreaks(s, ops, valid))
  {
    var s := StartAll(Fresh(store), schedules, valid);
    StartFresh(store, schedules, valid);
    RunExactly(s, ops, valid);
    if AllWritten(ops) && AllValid(Fresh(store), valid) {
      RunSound(s, ops, valid);
    }
    if forall i | 0 <= i < |ops| :: Addressed(ops[i]) {
      AddressedNeverHarms(s, ops, valid);
    }
  }

  // ---------------------------------------------------------------- what operations undo and leave alone

  lemma RemoveUndoesAdd(s: State, x: Schedule, valid: string -> bool)
    requires Bijective(s) && x.name !in s.entries && valid(CronSpec(x))
    ensures RemoveEntry(AddEntry(s, x, valid), x.name) == s.(nextId := s.nextId + 1)
  {
    assert s.nextId !in s.cron;
    assert s.entries[x.name := s.nextId] - {x.name} == s.entries;
    assert s.cron[s.nextId := Trigger(x.name, CronSpec(x))] - {s.nextId} == s.cron;
  }

  /**
   Disabling undoes enabling, store, entries and triggers, if and only if the name is given
   trimmed.
   */
  lemma DisableUndoesEnable(s: State, name: string, valid: string -> bool)
    requires Coherent(s, valid) && GetError(s.store, name).None?
    requires !s.store[TrimSpace(name)].enabled && valid(CronSpec(s.store[TrimSpace(name)]))
    ensures
      var enabled := EnableSpec(s, name, true, valid);
      var disabled := DisableSpec(enabled.state, name, true);
      && enabled.error.None? && disabled.error.None?
      && (disabled.state == s.(nextId := s.nextId + 1) <==> name == TrimSpace(name))
  {
    var n := TrimSpace(name);
    OnlyEnabledEntered(s, n, valid);
    TrimmedValid(name);
    var x := s.store[n].(enabled := true);
    var s1 := s.(store := Saved(s.store, x));
    assert EnableSpec(s, name, true, valid) == Outcome(AddEntry(s1, x, valid), None);
    RemoveUndoesAdd(s1, x, valid);
    assert Saved(s1.store, x.(enabled := false)) == s.store;
    if name != n {
      assert n in DisableSpec(AddEntry(s1, x, valid), name, true).state.entries;
    }
  }

  /** Deleting undoes creating if and only if the schedule's name is trimmed. */
  lemma DeleteUndoesCreate(s: State, x: Schedule, now: int, valid: string -> bool)
    requires Coherent(s, valid) && RequestError(x, true, valid).None? && x.name !in s.store
    ensures
      var created := CreateSpec(s, x, true, now, true, valid);
      var deleted := DeleteSpec(created.state, x.name, true);
      && created.error.None?
      && (deleted.error.None? && deleted.state == s.(nextId := if x.enabled then s.nextId + 1 else s.nextId) <==>
          x.name == TrimSpace(x.name))
  {
    OnlyEnabledEntered(s, x.name, valid);
    TrimmedValid(x.name);
    var y := x.(createdAt := now);
    var s1 := s.(store := Saved(s.store, y));
    RemoveUndoesAdd(s1, y, valid);
    assert s1.store - {x.name} == s.store;
    if x.name != TrimSpace(x.name) {
      assert x.name in DeleteSpec(CreateSpec(s, x, true, now, true, valid).state, x.name, true).state.store;
    }
  }

  /** The only schedule an operation can touch; a fired trigger's is the one it was made for. */
  function Target(s: State, op: Op): Option<string> {
    match op
    case Create(x, _, _, _) => Some(x.name)
    case Update(x, _, _) => Some(x.name)
    case Delete(name, _) => Some(TrimSpace(name))
    case Enable(name, _) => Some(TrimSpace(name))
    case Disable(name, _) => Some(TrimSpace(name))
    case Fire(id, _, _, _) => if id in s.cron then Some(TrimSpace(s.cron[id].name)) else None
    case Relink(_, _, _) => None
  }

  /**
   What may differ between two versions of a schedule on disk. An update takes creation time and
   last run from what is stored under the trimmed name, which is the schedule itself if its name
   is trimmed.
   */
  predicate SameButFor(s: State, op: Op, n: string, y: Schedule)
    requires n in s.store
  {
    var x := s.store[n];
    match op
    case Update(_, _, _) =>
      y == x || (TrimSpace(n) in s.store &&
                 y.createdAt == s.store[TrimSpace(n)].createdAt && y.lastRunAt == s.store[TrimSpace(n)].lastRunAt)
    case Enable(_, _) => y == x.(enabled := y.enabled)
    case Disable(_, _) => y == x.(enabled := y.enabled)
    case Fire(_, _, _, _) => y == x.(lastRunAt := y.lastRunAt)
    case Relink(_, _, _) => y == x.(flow := y.flow)
    case _ => y == x
  }

  /** What op may make of the schedule stored under n. */
  predicate Spared(s: State, op: Op, store: Store, n: string)
    requires n in s.store
  {
    && (Target(s, op) != Some(n) && !op.Relink? ==> n in store && store[n] == s.store[n])
    && (n in store ==> SameButFor(s, op, n, store[n]))
    && (n !in store ==> op.Delete? && Target(s, op) == Some(n))
  }

  lemma SaveAndAddStore(s: State, x: Schedule, saved: bool, valid: string -> bool)
    ensures SaveAndAdd(s, x, saved, valid).state.store ==
            if SaveError(x, saved).None? then Saved(s.store, x) else s.store
  {
  }

  lemma CreateSpares(s: State, op: Op, valid: string -> bool, n: string)
    requires op.Create? && n in s.store
    ensures Spared(s, op, Apply(s, op, valid).store, n)
  {
    SaveAndAddStore(s, op.x.(createdAt := op.now), op.saved, valid);
  }

  lemma UpdateSpares(s: State, op: Op, valid: string -> bool, n: string)
    requires op.Update? && n in s.store
    ensures Spared(s, op, Apply(s, op, valid).store, n)
  {
    if GetError(s.store, op.x.name).None? {
      var existing := s.store[TrimSpace(op.x.name)];
      var kept := op.x.(createdAt := existing.createdAt, lastRunAt := existing.lastRunAt);
      SaveAndAddStore(RemoveEntry(s, op.x.name), kept, op.saved, valid);
    }
  }

  lemma EnableSpares(s: State, op: Op, valid: string -> bool, n: string)
    requires op.Enable? && n in s.store && WellKeyed(s.store)
    ensures Spared(s, op, Apply(s, op, valid).store, n)
  {
    if GetError(s.store, op.name).None? {
      SaveAndAddStore(s, s.store[TrimSpace(op.name)].(enabled := true), op.saved, valid);
    }
  }

  lemma DeleteOrDisableSpares(s: State, op: Op, valid: string -> bool, n: string)
    requires (op.Delete? || op.Disable?) && n in s.store && WellKeyed(s.store)
    ensures Spared(s, op, Apply(s, op, valid).store, n)
  {
  }

  lemma FireOrRelinkSpares(s: State, op: Op, valid: string -> bool, n: string)
    requires (op.Fire? || op.Relink?) && n in s.store && WellKeyed(s.store)
    ensures Spared(s, op, Apply(s, op, valid).store, n)
  {
  }

  /**
   Every operation leaves the schedules it is not about alone, and of the one it is about it
   changes no more than it should: an update keeps times as SameButFor says, enabling and
   disabling the rest of the schedule, a trigger all but the last run, a rename all but the flow.
   */
  lemma OnlyTheTarget(s: State, op: Op, valid: string -> bool, n: string)
    requires WellKeyed(s.store) && n in s.store
    ensures Spared(s, op, Apply(s, op, valid).store, n)
  {
    match op {
      case Create(_, _, _, _) => CreateSpares(s, op, valid, n);
      case Update(_, _, _) => UpdateSpares(s, op, valid, n);
      case Enable(_, _) => EnableSpares(s, op, valid, n);
      case _ =>
        if op.Delete? || op.Disable? {
          DeleteOrDisableSpares(s, op, valid, n);
        } else {
          FireOrRelinkSpares(s, op, valid, n);
        }
    }
  }

  function NamesFrom(schedules: seq<Schedule>, i: nat): set<string> {
    set j | i <= j < |schedules| :: schedules[j].name
  }

  lemma AllNames(store: Store, schedules: seq<Schedule>)
    requires Lists(schedules, store) && WellKeyed(store)
    ensures NamesFrom(schedules, 0) == store.Keys
  {
    forall n | n in store ensures n in NamesFrom(schedules, 0) {
      assert store[n] in schedules && store[n].name == n;
    }
  }

  lemma FirstName(schedules: seq<Schedule>, i: nat)
    requires i < |schedules| && forall a, b | 0 <= a < b < |schedules| :: schedules[a].name != schedules[b].name
    ensures schedules[i].name in NamesFrom(schedules, i)
    ensures NamesFrom(schedules, i + 1) == NamesFrom(schedules, i) - {schedules[i].name}
  {
  }

  lemma RelinkOne(was: Store, x: Schedule, oldName: string, newName: string, failing: set<string>, todo: set<string>)
    requires x.name in was && was[x.name] == x && x.name in todo
    ensures var store := Relinked(was, oldName, newName, failing + todo);
            Relinked(was, oldName, newName, failing + (todo - {x.name})) ==
            if x.flow == oldName && x.name !in failing then Saved(store, x.(flow := newName)) else store
  {
  }

  /** The loop: one save after the other. */
  function RelinkedBy(store: Store, schedules: seq<Schedule>, oldName: string, newName: string, failing: set<string>)
    : Store
    decreases |schedules|
  {
    if schedules == [] then store
    else
      var x := schedules[0];
      var after := if x.flow == oldName && x.name !in failing then Saved(store, x.(flow := newName)) else store;
      RelinkedBy(after, schedules[1..], oldName, newName, failing)
  }

  lemma {:induction false} RelinkedByFrom(was: Store, schedules: seq<Schedule>, i: nat, oldName: string,
                                          newName: string, failing: set<string>)
    requires WellKeyed(was) && Lists(schedules, was) && i <= |schedules|
    ensures RelinkedBy(Relinked(was, oldName, newName, failing + NamesFrom(schedules, i)), schedules[i..],
                       oldName, newName, failing) == Relinked(was, oldName, newName, failing)
    decreases |schedules| - i
  {
    if i == |schedules| {
      assert failing + NamesFrom(schedules, i) == failing;
    } else {
      FirstName(schedules, i);
      RelinkOne(was, schedules[i], oldName, newName, failing, NamesFrom(schedules, i));
      assert schedules[i..][1..] == schedules[i + 1..];
      RelinkedByFrom(was, schedules, i + 1, oldName, newName, failing);
    }
  }

  lemma NoneRelinked(was: Store, oldName: string, newName: string, failing: set<string>)
    ensures Relinked(was, oldName, newName, failing + was.Keys) == was
  {
  }

  /** Over all schedules of the store it relinks exactly those that name the old flow and can be saved. */
  lemma RelinkedByIs(was: Store, schedules: seq<Schedule>, oldName: string, newName: string, failing: set<string>)
    requires WellKeyed(was) && Lists(schedules, was)
    ensures RelinkedBy(was, schedules, oldName, newName, failing) == Relinked(was, oldName, newName, failing)
  {
    AllNames(was, schedules);
    NoneRelinked(was, oldName, newName, failing);
    assert schedules[0..] == schedules;
    RelinkedByFrom(was, schedules, 0, oldName, newName, failing);
  }

  lemma ListedNamesValid(was: Store, schedules: seq<Schedule>)
    requires WellKeyed(was) && Lists(schedules, was)
    ensures forall i | 0 <= i < |schedules| :: ValidName(TrimSpace(schedules[i].name))
  {
    forall i | 0 <= i < |schedules| ensures ValidName(TrimSpace(schedules[i].name)) {
      TrimmedValid(schedules[i].name);
    }
  }

  // ---------------------------------------------------------------- what each operation answers

  /** t runs exactly one trigger for name n, with the given expression. */
  predicate Runs(t: State, n: string, spec: string) {
    n in t.entries && t.entries[n] in t.cron && t.cron[t.entries[n]] == Trigger(n, spec)
  }

  /** Create stores what was requested, stamped with its creation time, and starts it if it is enabled. */
  lemma CreateStores(s: State, x: Schedule, spec: string, flowKnown: bool, now: int, saved: bool, valid: string -> bool)
    requires spec == if x.kind.Interval? then "@every " + x.expression else x.expression
    ensures
      var o := CreateSpec(s, x, flowKnown, now, saved, valid);
      && o.error == (if !ValidName(x.name) then Some(InvalidName)
                     else if x.kind.Other? then Some(InvalidType)
                     else if !valid(spec) then Some(InvalidExpression)
                     else if !flowKnown then Some(FlowNotFound)
                     else if x.name in s.store then Some(ScheduleExists)
                     else if !saved then Some(IoError) else None)
      && (o.error.Some? ==> o.state == s)
      && (o.error.None? ==>
            && o.state.store == s.store[x.name := x.(createdAt := now)]
            && (if x.enabled then Runs(o.state, x.name, spec) else o.state == s.(store := o.state.store))
            && forall n | n != x.name :: n in o.state.entries <==> n in s.entries)
  {
    TrimmedValid(x.name);
  }

  /**
   Update stores what was requested, with the creation time and last run found under the trimmed
   name, and runs it with its new expression if and only if it is enabled.
   */
  lemma UpdateStores(s: State, x: Schedule, spec: string, flowKnown: bool, saved: bool, valid: string -> bool)
    requires spec == if x.kind.Interval? then "@every " + x.expression else x.expression
    ensures
      var o := UpdateSpec(s, x, flowKnown, saved, valid);
      && o.error == (if !ValidName(x.name) then Some(InvalidName)
                     else if x.kind.Other? then Some(InvalidType)
                     else if !valid(spec) then Some(InvalidExpression)
                     else if !flowKnown then Some(FlowNotFound)
                     else if TrimSpace(x.name) !in s.store then Some(NotFound)
                     else if !saved then Some(IoError) else None)
      && (o.error.Some? ==> o.state.store == s.store)
      && (o.error.None? ==>
            && o.state.store == s.store[x.name := x.(createdAt := s.store[TrimSpace(x.name)].createdAt,
                                                     lastRunAt := s.store[TrimSpace(x.name)].lastRunAt)]
            && (if x.enabled then Runs(o.state, x.name, spec) else x.name !in o.state.entries))
      && (forall n | n != x.name :: n in o.state.entries <==> n in s.entries)
  {
    TrimmedValid(x.name);
  }

  /** Delete stops the schedule of the name as given and removes the file of the trimmed name. */
  lemma DeleteRemoves(s: State, name: string, removed: bool)
    ensures
      var o := DeleteSpec(s, name, removed);
      && o.error == (if !ValidName(name) then Some(InvalidName)
                     else if TrimSpace(name) !in s.store then Some(NotFound)
                     else if !removed then Some(IoError) else None)
      && o.state.store == s.store - (if o.error.None? then {TrimSpace(name)} else {})
      && (ValidName(name) ==> name !in o.state.entries)
      && (forall n | n != name || !ValidName(name) :: n in o.state.entries <==> n in s.entries)
  {
    TrimmedValid(name);
  }

  /** Enable saves the schedule as enabled before it starts it, so that a bad expression is found too late. */
  lemma EnableStores(s: State, name: string, x: Schedule, spec: string, saved: bool, valid: string -> bool)
    requires WellKeyed(s.store) && (TrimSpace(name) in s.store ==> x == s.store[TrimSpace(name)])
    requires spec == if x.kind.Interval? then "@every " + x.expression else x.expression
    ensures
      var o, found := EnableSpec(s, name, saved, valid), TrimSpace(name) in s.store;
      && o.error == (if !ValidName(name) then Some(InvalidName)
                     else if !found then Some(NotFound)
                     else if x.enabled then None
                     else if !saved then Some(IoError)
                     else if !valid(spec) then Some(InvalidExpression) else None)
      && (found && !x.enabled && saved ==> o.state.store == s.store[TrimSpace(name) := x.(enabled := true)])
      && (!found || x.enabled || !saved ==> o.state == s)
      && (found && !x.enabled && saved && valid(spec) ==> Runs(o.state, TrimSpace(name), spec))
  {
    TrimmedValid(name);
  }

  /** Disable stops the schedule of the name as given and saves the one of the trimmed name as disabled. */
  lemma DisableStores(s: State, name: string, x: Schedule, saved: bool)
    requires WellKeyed(s.store) && (TrimSpace(name) in s.store ==> x == s.store[TrimSpace(name)])
    ensures
      var o, found := DisableSpec(s, name, saved), TrimSpace(name) in s.store;
      && o.error == (if !ValidName(name) then Some(InvalidName)
                     else if !found then Some(NotFound)
                     else if x.enabled && !saved then Some(IoError) else None)
      && (!found || !x.enabled ==> o.state == s)
      && (found && x.enabled ==>
            && o.state.store == (if saved then s.store[TrimSpace(name) := x.(enabled := false)] else s.store)
            && name !in o.state.entries)
      && (forall n | n != name :: n in o.state.entries <==> n in s.entries)
  {
    TrimmedValid(name);
  }

  /** A trigger enqueues the schedule as it is stored then, and stamps it if that succeeds. */
  lemma FireStores(s: State, id: nat, enqueued: bool, now: int, saved: bool)
    requires WellKeyed(s.store)
    ensures
      var known := id in s.cron && TrimSpace(s.cron[id].name) in s.store;
      && (known ==> Fired(s, id) == Some(s.store[TrimSpace(s.cron[id].name)]))
      && (!known ==> Fired(s, id) == None)
      && FireSpec(s, id, enqueued, now, saved) ==
         if known && enqueued && saved then
           var n := TrimSpace(s.cron[id].name);
           s.(store := s.store[n := s.store[n].(lastRunAt := Some(now))])
         else s
  {
    if id in s.cron {
      TrimmedValid(s.cron[id].name);
    }
  }

  lemma {:induction false} StartKeepsTrigger(s: State, schedules: seq<Schedule>, valid: string -> bool, n: string,
                                             spec: string)
    requires Runs(s, n, spec) && s.entries[n] < s.nextId && forall i | 0 <= i < |schedules| :: schedules[i].name != n
    ensures Runs(StartAll(s, schedules, valid), n, spec)
    decreases |schedules|
  {
    if schedules != [] {
      var rest := schedules[1..];
      assert forall i | 0 <= i < |rest| :: rest[i] == schedules[i + 1];
      StartKeepsTrigger(if schedules[0].enabled then AddEntry(s, schedules[0], valid) else s, rest, valid, n, spec);
    }
  }

  /** Start gives every enabled schedule with a valid expression a trigger of that expression. */
  lemma {:induction false} StartRuns(s: State, schedules: seq<Schedule>, valid: string -> bool, i: nat, spec: string)
    requires i < |schedules| && schedules[i].enabled && valid(spec)
    requires spec == if schedules[i].kind.Interval? then "@every " + schedules[i].expression
                     else schedules[i].expression
    requires forall a, b | 0 <= a < b < |schedules| :: schedules[a].name != schedules[b].name
    ensures Runs(StartAll(s, schedules, valid), schedules[i].name, spec)
    decreases |schedules|
  {
    var rest := schedules[1..];
    assert forall j | 0 <= j < |rest| :: rest[j] == schedules[j + 1];
    var s1 := if schedules[0].enabled then AddEntry(s, schedules[0], valid) else s;
    if i == 0 {
      StartKeepsTrigger(s1, rest, valid, schedules[0].name, spec);
    } else {
      StartRuns(s1, rest, valid, i - 1, spec);
    }
  }

  // ---------------------------------------------------------------- the scheduler

  class Scheduler {
    const store: FileStore
    const registry: Registry.FileFlowRegistry
    const valid: string -> bool
    var entries: map<string, nat>
    var cron: map<nat, Trigger>
    var nextId: nat

    function Current(): State
      reads this, store
    {
      State(store.files, entries, cron, nextId)
    }

    /** `valid` stands for the cron parser, which validateExpression and AddFunc share. */
    constructor (store: FileStore, registry: Registry.FileFlowRegistry, valid: string -> bool)
      ensures this.store == store && this.registry == registry && this.valid == valid
      ensures Current() == Fresh(store.files)
    {
      this.store, this.registry, this.valid := store, registry, valid;
      entries, cron, nextId := map[], map[], 0;
    }

    method Add(x: Schedule) returns (error: Option<ScheduleError>)
      modifies this
      ensures Current() == AddEntry(old(Current()), x, valid) && error == AddError(x, valid)
    {
      var spec := CronSpec(x);
      if !valid(spec) {
        return Some(InvalidExpression);
      }
      cron := cron[nextId := Trigger(x.name, spec)];
      entries := entries[x.name := nextId];
      nextId := nextId + 1;
      return None;
    }

    method Remove(name: string)
      modifies this
      ensures Current() == RemoveEntry(old(Current()), name)
    {
      if name in entries {
        cron := cron - {entries[name]};
        entries := entries - {name};
      }
    }

    method Start()
      requires WellKeyed(store.files)
      modifies this
      ensures exists schedules :: Lists(schedules, old(store.files)) &&
                                  Current() == StartAll(old(Current()), schedules, valid)
      ensures Coherent(old(Current()), valid) ==> (Coherent(Current(), valid) <==> old(entries) == map[])
    {
      ghost var was := Current();
      var schedules := store.List();
      if Coherent(was, valid) {
        StartExactly(was, schedules, valid);
      }
      for i := 0 to |schedules|
        invariant StartAll(Current(), schedules[i..], valid) == StartAll(was, schedules, valid)
      {
        if schedules[i].enabled {
          var _ := Add(schedules[i]);
        }
      }
      assert Current() == StartAll(was, schedules, valid);
    }

    method CheckRequest(x: Schedule) returns (error: Option<ScheduleError>)
      ensures error == RequestError(x, Registry.Path(x.flow) in registry.files, valid)
    {
      if !ValidName(x.name) {
        return Some(InvalidName);
      }
      if x.kind.Other? {
        return Some(InvalidType);
      }
      if !valid(CronSpec(x)) {
        return Some(InvalidExpression);
      }
      var known := registry.Exists(x.flow);
      return if known then None else Some(FlowNotFound);
    }

    method Create(x: Schedule, now: int, saved: bool) returns (error: Option<ScheduleError>)
      modifies this, store
      ensures Outcome(Current(), error) ==
                CreateSpec(old(Current()), x, old(Registry.Path(x.flow) in registry.files), now, saved, valid)
      ensures store.files == if error.None? then old(store.files)[x.name := x.(createdAt := now)] else old(store.files)
      ensures Coherent(old(Current()), valid) ==> Coherent(Current(), valid)
    {
      if Coherent(Current(), valid) {
        CreateKeeps(Current(), x, Registry.Path(x.flow) in registry.files, now, saved, valid);
      }
      error := CheckRequest(x);
      if error.Some? {
        return;
      }
      var taken := store.Exists(x.name);
      if taken {
        return Some(ScheduleExists);
      }
      var stamped := x.(createdAt := now);
      error := store.Save(stamped, saved);
      if error.None? && stamped.enabled {
        error := Add(stamped);
      }
    }

    method Update(x: Schedule, saved: bool) returns (error: Option<ScheduleError>)
      modifies this, store
      ensures Outcome(Current(), error) ==
                UpdateSpec(old(Current()), x, old(Registry.Path(x.flow) in registry.files), saved, valid)
      ensures error.None? ==>
                && TrimSpace(x.name) in old(store.files)
                && var was := old(store.files)[TrimSpace(x.name)];
                   store.files == old(store.files)[x.name := x.(createdAt := was.createdAt, lastRunAt := was.lastRunAt)]
      ensures error.Some? ==> store.files == old(store.files)
      ensures Coherent(old(Current()), valid) ==> Coherent(Current(), valid)
    {
      if Coherent(Current(), valid) {
        UpdateKeeps(Current(), x, Registry.Path(x.flow) in registry.files, saved, valid);
      }
      error := CheckRequest(x);
      if error.Some? {
        return;
      }
      var existing;
      existing, error := store.Get(x.name);
      if error.Some? {
        return;
      }
      var kept := x.(createdAt := existing.value.createdAt, lastRunAt := existing.value.lastRunAt);
      Remove(kept.name);
      error := store.Save(kept, saved);
      if error.None? && kept.enabled {
        error := Add(kept);
      }
    }

    method Delete(name: string, removed: bool) returns (error: Option<ScheduleError>)
      modifies this, store
      ensures Outcome(Current(), error) == DeleteSpec(old(Current()), name, removed)
      ensures Coherent(old(Current()), valid) ==>
                (Coherent(Current(), valid) <==> !(removed && Misaddressed(old(Current()), name)))
    {
      if Coherent(Current(), valid) {
        DeleteExactly(Current(), name, removed, valid);
      }
      if !ValidName(name) {
        return Some(InvalidName);
      }
      Remove(name);
      error := store.Delete(name, removed);
    }

    method Enable(name: string, saved: bool) returns (error: Option<ScheduleError>)
      modifies this, store
      ensures Outcome(Current(), error) == EnableSpec(old(Current()), name, saved, valid)
      ensures Coherent(old(Current()), valid) ==> Coherent(Current(), valid)
    {
      if Coherent(Current(), valid) {
        EnableKeeps(Current(), name, saved, valid);
      }
      var x;
      x, error := store.Get(name);
      if error.Some? || x.value.enabled {
        return;
      }
      var enabled := x.value.(enabled := true);
      error := store.Save(enabled, saved);
      if error.None? {
        error := Add(enabled);
      }
    }

    method Disable(name: string, saved: bool) returns (error: Option<ScheduleError>)
      modifies this, store
      ensures Outcome(Current(), error) == DisableSpec(old(Current()), name, saved)
      ensures Coherent(old(Current()), valid) ==>
                (Coherent(Current(), valid) <==> !(saved && Misaddressed(old(Current()), name)))
    {
      if Coherent(Current(), valid) {
        DisableExactly(Current(), name, saved, valid);
      }
      var x;
      x, error := store.Get(name);
      if error.Some? || !x.value.enabled {
        return;
      }
      Remove(name);
      error := store.Save(x.value.(enabled := false), saved);
    }

    /** Called by the cron engine; the returned schedule's flow and inputs are what is enqueued. */
    method ScheduleJob(id: nat, enqueued: bool, now: int, saved: bool) returns (job: Option<Schedule>)
      modifies store
      ensures job == Fired(old(Current()), id)
      ensures Current() == FireSpec(old(Current()), id, enqueued, now, saved)
      ensures Coherent(old(Current()), valid) ==> Coherent(Current(), valid)
    {
      if Coherent(Current(), valid) {
        FireKeeps(Current(), id, enqueued, now, saved, valid);
      }
      if id !in cron {
        return None;
      }
      var x, error := store.Get(cron[id].name);
      if error.Some? {
        return None;
      }
      if enqueued {
        var _ := store.Save(x.value.(lastRunAt := Some(now)), saved);
      }
      return x;
    }

    method RelinkAll(schedules: seq<Schedule>, oldName: string, newName: string, failing: set<string>)
      requires forall i | 0 <= i < |schedules| :: ValidName(TrimSpace(schedules[i].name))
      modifies store
      ensures store.files == RelinkedBy(old(store.files), schedules, oldName, newName, failing)
    {
      for i := 0 to |schedules|
        invariant RelinkedBy(store.files, schedules[i..], oldName, newName, failing) ==
                  RelinkedBy(old(store.files), schedules, oldName, newName, failing)
      {
        var x := schedules[i];
        if x.flow == oldName {
          var _ := store.Save(x.(flow := newName), x.name !in failing);
        }
      }
    }

    /** Best effort: a schedule whose save fails keeps the old flow. */
    method UpdateFlowReferences(oldName: string, newName: string, failing: set<string>)
      requires WellKeyed(store.files)
      modifies store
      ensures store.files == Relinked(old(store.files), oldName, newName, failing)
      ensures store.files.Keys == old(store.files).Keys
      ensures forall n | n in store.files ::
                var x := old(store.files)[n];
                store.files[n] == if x.flow == oldName && n !in failing then x.(flow := newName) else x
      ensures Coherent(old(Current()), valid) ==> Coherent(Current(), valid)
    {
      if Coherent(Current(), valid) {
        RelinkKeeps(Current(), oldName, newName, failing, valid);
      }
      var schedules := store.List();
      ListedNamesValid(store.files, schedules);
      RelinkedByIs(store.files, schedules, oldName, newName, failing);
      RelinkAll(schedules, oldName, newName, failing);
    }
  }
}
